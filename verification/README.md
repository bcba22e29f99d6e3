# Verified model of the Kubernetes MCP server

The server exposes Kubernetes operations as tools. Most of its code calls `client-go`; these files model
the logic that sits around those calls and prove what it guarantees.

| file | models |
|---|---|
| `Json.dfy` | JSON trees and the merge patch of section 2 of RFC 7396 |
| `GoText.dfy`, `Sorting.dfy` | decimal formatting and parsing, string order, case folding, what sorting promises |
| `Wrappers.dfy`, `Sequences.dfy` | optional values; facts about concatenation and multisets |
| `Rollout.dfy` | `rollout_undo` and `rollout_restart`: revision choice, patches, repeated undos |
| `Metadata.dfy` | `label` and `annotate` |
| `BoundedOutput.dfy` | text truncation at UTF-8 boundaries, the chunked log read, and the two together |
| `Runtime.dfy` | the wrapper around every tool call: semaphore, panic recovery, truncation, audit record |
| `PortForward.dfy` | port-forward sessions and the slot counter they share |
| `Names.dfy` | the two DNS name patterns |
| `Table.dfy` | the aligned-column table renderer |
| `Policy.dfy`, `Mutations.dfy`, `GuardSpec.dfy` | the policy guards, every sequence of mutating calls over an abstract cluster, and what the guards let through in plain terms |
| `Drain.dfy` | cordoning and draining a node |
| `Secrets.dfy` | masked rendering of secrets |

The API server is a map from object references to JSON documents. Whether a request fails is a parameter,
so each result covers every pattern of failures. Code that changes state in the source (the semaphore and
the audit record, the slot counter, the table, the truncation of result contents, the manifest loop, the
drain loop, the masking of map entries) is a class or a loop here, tied by its contract to a function on
values; the theorems are about that function. The wrapper and the port-forward handler appear twice: as a
method for one call alone, and as a step machine in which any number of calls interleave. For the wrapper
`Runtime.InterleavingIsInvisible` says the two agree.

What a helper computes is stated once more without it: which ReplicaSets count, which object a call or a
document reaches, which words fold together, what a record says, which bytes encode a character, how names
are spelled. Those statements spell out the API's own names and texts, so a theorem that speaks of "owned",
"permitted" or "Secret" can be read down to them.

Where a promise does not hold for all inputs, the model keeps the code's behaviour and proves exactly when
the promise holds:

- An undo patches by JSON merge patch (the comment above `mutateController` says strategic merge; the code
  decides), so it restores the chosen template exactly when the live one has no object member the chosen
  one lacks. `Rollout.UndoEffect` has both directions, `Rollout.UndoKeepsAddedMember` an example.
- The chosen template comes from a ReplicaSet and carries the `pod-template-hash` label of that ReplicaSet,
  and the undo copies it into the Deployment. So two undos restore a real Deployment at best up to that
  label, and exactly only if it carried the right one before (`Rollout.TwoLabelledUndosRestoreIff`).
- The order of equal revision numbers is not fixed, so the choice is determined exactly when there is none
  or the revisions other than the current one have a single newest one (`Rollout.ChoiceIsOrderFreeIff`).
- The comment on `currentDeploymentRevision` promises the highest ReplicaSet revision as a fallback; the
  code returns an empty string, and the undo then goes to the highest revision of all
  (`Rollout.UnknownCurrentPicksNewest`). It chooses what the fallback would exactly when the current revision
  was read (`Rollout.FallbackKeptIff`), and it goes to a newest revision exactly when one of them is not the
  current one (`Rollout.PicksNewestOfAllIff`).
- A call emits one audit record exactly when its result has no nil text entry, or it failed anyway
  (`Runtime.OneRecordIff`).
- `--max-output-bytes` is documented as a ceiling, but a truncated valid text is always longer than it by
  its marker (`BoundedOutput.ValidTextFitsIff`). Arbitrary bytes fit exactly when so many of the last bytes
  up to the limit continue a character that the cut makes room for the marker (`BoundedOutput.FitsIff`). The log read keeps the same body as the full stream; its omitted count
  is right exactly when it read the whole stream (`BoundedOutput.BoundedReadKeepsBody`). For the last 1024
  positive limits the sum overflows and every log reads as empty (`BoundedOutput.WrappedLimitLosesLogs`).
- A `label` or `annotate` call whose items are a nil map removes the whole map, overwrite or not
  (`Metadata.AcceptedCallUpdatesIff`, `Metadata.NilItemsEmptyTheMap`). Without overwrite, a run of calls
  keeps all values exactly when there were none or no such call is among them
  (`Metadata.NoOverwriteKeepsIff`). Whether nil items can arrive depends on how the tool SDK checks the
  required `items` argument, which is not part of this model; the handler itself does not check.
- A table cell is recovered from its column exactly when it does not end in a space
  (`Tables.ColumnRecoversCellIff`).
- A slot is lost exactly for each handler that panics between taking its slot and starting the teardown
  (`PortForward.LeakedIffCrashed`).
- A port-forward session ends in bounded time only if its handler and teardown are not kept from acting:
  the bound grows by exactly the time they could act and do not (`PortForward.EverySessionEnds`).
- A policy with destructive operations but no writes still deletes, so "without writes nothing changes"
  needs both switches off (`Mutations.ReadOnlyIff`); policies made from a configuration never have the one
  without the other (`Policy.FromConfig`).
- Uncordoning restores a node exactly when it had an explicit `unschedulable: false`
  (`Drain.UncordonUndoesCordonIff`). The drain argument `ignore_daemonsets` has no effect
  (`Drain.MoreFlagsMoreAttempts`).
- The repository's README offers a dry run for all mutating tools; the rollout, label, annotate, cordon and
  drain tools have no such argument. A call changes nothing, whatever the API answers, exactly when its
  guards refuse it at once or it asks for a dry run, so an accepted rollout, label or annotate call always
  can (`Mutations.ChangesNothingIff`); an accepted cordon always sets the node
  (`Drain.Node.SetUnschedulable`).

## Model

| member | source | states |
|---|---|---|
| `Json.PatchAtPath` | internal/tools/operations/scale.go:365 | The effect of a merge patch (section 2 of RFC 7396) at any path: a mentioned value replaces, arrays whole; a mentioned null removes; what the patch does not mention under one of its objects stays exactly as it was |
| `Json.PatchReplacesIff` | internal/tools/operations/scale.go:204-210 | Patching with a document yields that document (less its nulls) if and only if the target has no extra object member at any depth |
| `Json.ExtraKeysThereAndBack` | internal/tools/operations/scale.go:204-210 | After patching there, patching back meets an extra member exactly where the document patched in has one |
| `Json.PatchedHasNoNulls` | internal/tools/operations/scale.go:365 | Patching a document without null members never leaves a null member |
| `Json.MergedMentionsIff` | internal/tools/operations/scale.go:204-210 | The patched document mentions every member of the one before if and only if the patch has no null where that one has a member |
| `Json.NestedPatchSetsPath` | internal/tools/operations/scale.go:124-134 | A patch of nested objects around one plain value sets that one path |
| `Json.SetPathFrame` | internal/tools/operations/scale.go:124-134 | Setting a path changes no path that parts from it |
| `Json.SetPathOverwrites` | internal/tools/operations/scale.go:121-135 | A later setting of a path erases every trace of an earlier one |
| `GoText.AtoiItoa` | internal/tools/operations/scale.go:234-235 | Parsing a formatted revision number gives the number back, over the whole range of a 64-bit int |
| `GoText.AtoiIsNearest` | internal/tools/operations/scale.go:234-235 | A decimal of any size and sign is parsed to the nearest 64-bit number |
| `GoText.AtoiOfOtherText` | internal/tools/operations/scale.go:234-235 | Text without digits, or with another character after them, is parsed to 0 |
| `GoText.BelowIsTotalOrder` | internal/tools/configstore/configstore.go:248 | Go's string order is a strict total order, so sorted keys have one order |
| `GoText.BelowAtFirstDifference` | internal/tools/configstore/configstore.go:248 | The order is decided by the first difference, and a proper prefix comes first |
| `GoText.EqualFoldIff` | internal/tools/troubleshoot/describe.go:139 | Folding accepts a word of ASCII letters in every mix of cases, refuses other lengths, and accepts besides only a long s and the Kelvin sign |
| `GoText.ToLowerIff` | internal/tools/operations/scale.go:252 | A text is lowered to a word exactly when it spells it in any mix of cases |
| `GoText.ToUpperIff` | internal/tools/operations/resources.go:216 | Likewise for raising |
| `Sorting.Sort` | internal/tools/operations/scale.go:233-237 | Sorting gives the same elements in order |
| `Sorting.SortUnique` | internal/tools/configstore/configstore.go:248 | Without ties there is only one sorted order of the same elements |
| `Rollout.CollectByRevision` | internal/tools/operations/scale.go:161-172 | The collecting loop gives, for each revision, the last eligible ReplicaSet of the list |
| `Rollout.CollectedIsLast` | internal/tools/operations/scale.go:161-172 | For any list, a revision is in the history exactly when some ReplicaSet has this Deployment as controlling owner and that revision as annotation, and the history holds the last such one |
| `Rollout.CollectedInAnyOrder` | internal/tools/operations/scale.go:161-172 | When no two of them share a revision, the history holds exactly the ReplicaSets with this Deployment as controlling owner and a revision, whatever the list order |
| `Rollout.StrangersAreInvisible` | internal/tools/operations/scale.go:164-166 | ReplicaSets of other Deployments, or owned without being controlled, do not affect the history |
| `Rollout.EligibleIff` | internal/tools/operations/scale.go:356-363 | The ownership search and the annotation check accept exactly a controlling owner reference of kind Deployment and this name, and a non-empty revision annotation |
| `Rollout.HistoryIsCounted` | internal/tools/operations/scale.go:173-175 | The history is empty exactly when no ReplicaSet of the list counts |
| `Rollout.SortedRevisionsDesc` | internal/tools/operations/scale.go:228-239 | All revisions, each once, in descending numeric order, ties in any order |
| `Rollout.PickPrevious` | internal/tools/operations/scale.go:191-198 | The loop returns the first revision in order that is not the current one |
| `Rollout.UndoPicksNewestOther` | internal/tools/operations/scale.go:189-201 | However ties fall, the choice is a largest revision other than the current one; there is none exactly when no other revision exists |
| `Rollout.ChoiceIsOrderFreeIff` | internal/tools/operations/scale.go:190-198 | Every order the sort may leave gives the same choice if and only if there is no other revision or one of the others has a larger number than the rest of them |
| `Rollout.TieCanGoEitherWay` | internal/tools/operations/scale.go:233-237 | For each revision tied with the choice there is a permitted order in which it is chosen instead |
| `Rollout.UnknownCurrentPicksNewest` | internal/tools/operations/scale.go:216-225 | With the current revision unread, the undo goes to the largest revision of all |
| `Rollout.FallbackKeptIff` | internal/tools/operations/scale.go:214-225 | The choice is the one the documented fallback would lead to if and only if the current revision was read |
| `Rollout.PicksNewestOfAllIff` | internal/tools/operations/scale.go:189-198 | An undo goes to a newest revision of all if and only if some newest revision is not the current one |
| `Rollout.UndoEffect` | internal/tools/operations/scale.go:204-210 | The template becomes the merge of the chosen one into the live one; nothing outside it changes; it is the chosen one if and only if the live one has no extra member |
| `Rollout.UndoKeepsAddedMember` | internal/tools/operations/scale.go:209 | A concrete live template with an added member keeps it through an undo |
| `Rollout.RestartEffect` | internal/tools/operations/scale.go:121-135 | A restart sets the `restartedAt` annotation, creating objects on the way, touches no path that parts from it, and is overwritten by a later restart |
| `Rollout.RestartedAtIsSet` | internal/tools/operations/scale.go:124-134 | The restart time ends up in the `kubectl.kubernetes.io/restartedAt` annotation of the pod template |
| `Rollout.ControllerKindIff` | internal/tools/operations/scale.go:252-268 | The kinds a rollout accepts are the three names and their short forms, in any case |
| `Rollout.CurrentRevisionIff` | internal/tools/operations/scale.go:216-225 | The current revision is the revision annotation of a Deployment that could be read |
| `Rollout.Controller.Mutate` | internal/tools/operations/scale.go:247-270 | The object is merge-patched exactly when the kind is supported and the request succeeds, and is otherwise unchanged |
| `Rollout.Controller.RolloutRestart` | internal/tools/operations/scale.go:121-135 | On success the object is the old one with one path set and the action says so; otherwise it is unchanged |
| `Rollout.Controller.RolloutUndo` | internal/tools/operations/scale.go:153-210 | Each error exactly under its condition, no history exactly when no ReplicaSet of the list is controlled by this Deployment and numbered; otherwise the requested revision or a largest other one, of a ReplicaSet that is, is merged into the template, and everything outside the template stays |
| `Rollout.UndoKeepsConsistent` | internal/tools/operations/scale.go:189-210 | An unnamed undo, followed by the Deployment controller's adoption of the result, keeps the current revision the highest and its template the live one |
| `Rollout.TwoUndosRestoreIff` | internal/tools/operations/scale.go:156-210 | Two unnamed undos in a row bring the starting template back if and only if the first one's target has no member the start does not mention; any history length |
| `Rollout.SecondChoice` | internal/tools/operations/scale.go:190-198 | The second of two unnamed undos goes back to the revision that was current at the start, or repeats the first choice when that had changed nothing |
| `Rollout.ThereAndBackIff` | internal/tools/operations/scale.go:204-210 | Patching with one template and then with the starting one restores the start if and only if the first mentions no member the start lacks |
| `Rollout.UndoNeverStuck` | internal/tools/operations/scale.go:189-210 | From every consistent history with another revision the undo goes through and can be adopted under the highest revision plus one |
| `Rollout.NextRevisionIsAdopted` | internal/tools/operations/scale.go:187-198 | Numbering the restored ReplicaSet with any number above all others is an adoption the undo theorems cover |
| `Rollout.ThirdUndoRepeats` | internal/tools/operations/scale.go:156-210 | After a first undo, two more give back the template it left, whatever members the templates mention, if the first patch removes nothing by a null |
| `Rollout.ThirdUndoRepeatsIff` | internal/tools/operations/scale.go:156-210 | When the ReplicaSet adopted in between stores no nulls, they do so if and only if the first patch removed nothing by a null |
| `Rollout.UndosRepeat` | internal/tools/operations/scale.go:156-210 | In a run of unnamed undos of any length between any two templates, every template an undo left is back after every second further undo |
| `Rollout.UndosAlternate` | internal/tools/operations/scale.go:156-210 | When the two templates mention the same members, the starting one is part of the alternation: it is back after every even number of undos, and the other one is live after every odd number |
| `Rollout.StartShows` | internal/tools/operations/scale.go:189-198 | A consistent history has one template an unnamed undo can go to, so the alternation theorem applies to it |
| `Rollout.StepWithoutLabels` | internal/tools/operations/scale.go:204-210 | An undo among ReplicaSets with hash labels is, without the labels, the undo of the theorems above |
| `Rollout.BareDropsOnlyTheHash` | internal/tools/operations/scale.go:204-210 | A template without its hash label differs from the template in that label alone |
| `Rollout.TwoLabelledUndosRestoreIff` | internal/tools/operations/scale.go:156-210 | Two unnamed undos of a Deployment whose ReplicaSets carry hash labels restore the template up to the label if and only if the revision in between mentions no member the start lacks, and exactly if and only if, besides, the start carried the label of the second undo's revision |
| `Rollout.LabelledUndoNeverStuck` | internal/tools/operations/scale.go:189-210 | Such an undo goes through from every consistent history with another revision, whatever the labels |
| `Rollout.LabelledUndosRepeat` | internal/tools/operations/scale.go:156-210 | The run theorem for ReplicaSets with hash labels: every template an undo left is back, up to the label, after every second further undo |
| `Rollout.LabelledUndosAlternate` | internal/tools/operations/scale.go:156-210 | The alternation with the starting template, up to the label |
| `Metadata.Resource.MetaPatch` | internal/tools/operations/scale.go:317-346 | The call is refused exactly for a key that exists while overwrite is off; only an accepted call changes the object, by its merge patch |
| `Metadata.AcceptedCallUpdatesIff` | internal/tools/operations/scale.go:320-346 | An accepted call gives the old map updated by the items and changes nothing else, if and only if items were given or there was no map to lose |
| `Metadata.RefusedIff` | internal/tools/operations/scale.go:324-330 | A call is refused exactly when it must not overwrite and one of its keys is present at its label or annotation path |
| `Metadata.AcceptedItemsAreSet` | internal/tools/operations/scale.go:331-346 | A call that may overwrite, or finds no key present, gives each of its keys the value it names, at that path, and leaves the other keys |
| `Metadata.OtherMapUntouched` | internal/tools/operations/scale.go:331-333 | Labelling leaves the annotations as they were, and the other way round |
| `Metadata.NoOverwriteKeepsIff` | internal/tools/operations/scale.go:324-346 | Over any sequence of label and annotate calls without overwrite, no value of a map changes or disappears at any moment, if and only if the map was empty or every call on it gives its items |
| `Metadata.CallKeepsOrEmpties` | internal/tools/operations/scale.go:324-346 | One call without overwrite keeps every value of both maps, except that nil items empty the map they are for |
| `Metadata.KeptIff` | internal/tools/operations/scale.go:324-330 | A map is kept exactly when each of its label or annotation paths still reads the same |
| `Metadata.NilItemsEmptyTheMap` | internal/tools/operations/scale.go:331-333 | A concrete call with nil items and no overwrite empties the map |
| `BoundedOutput.RuneStart` | internal/rpc/result.go:59-61 | The bit mask singles out exactly the bytes that do not continue a character (section 3 of RFC 3629) |
| `BoundedOutput.TruncateText` | internal/rpc/result.go:45-57 | The loop ends for arbitrary bytes with a prefix within the limit, cut at the last rune start, and the marker |
| `BoundedOutput.BoundaryIff` | internal/rpc/result.go:50-55 | In valid text, cutting before a byte keeps both halves valid exactly at the rune starts |
| `BoundedOutput.ValidIffEncoded` | internal/rpc/result.go:50-55 | Valid text is exactly what encoding characters by section 3 of RFC 3629 yields |
| `BoundedOutput.KeepsWholeCharacters` | internal/rpc/result.go:45-57 | On valid text the kept body is valid, the longest run of whole characters within the limit, at most 3 bytes short of it; the reported count is at most 3 too low |
| `BoundedOutput.FitsIff` | internal/rpc/result.go:43-57 | For arbitrary bytes, the result fits the limit if and only if the input did or the last bytes up to the limit, as many as the marker takes, all continue a character |
| `BoundedOutput.ValidTextFitsIff` | internal/rpc/result.go:43-57 | For valid text, the result fits the limit if and only if the input did |
| `BoundedOutput.ContinuationBytesFit` | internal/rpc/result.go:53-56 | A concrete input that is not valid text and is longer than the limit has a result that fits |
| `BoundedOutput.MarkerInjective` | internal/rpc/result.go:56 | Different omitted counts give different markers |
| `BoundedOutput.TruncatedSpelledOut` | internal/rpc/result.go:56 | A truncated text is its kept body followed, byte for byte, by the marker words around the number of bytes beyond the limit |
| `BoundedOutput.DigitBytes` | internal/rpc/result.go:56 | That number is written in the bytes of its decimal digits |
| `BoundedOutput.ReadAtMost` | internal/tools/troubleshoot/logs.go:107-123 | The loop with its reused buffer returns what the recursive reading of the same chunks returns, and leaves how it ended |
| `BoundedOutput.ReadIsBoundedPrefix` | internal/tools/troubleshoot/logs.go:107-123 | For every chunking, the bytes read are a prefix of the stream: all of it unless the limit was hit, and less than one buffer beyond the limit |
| `BoundedOutput.GetLogs` | internal/tools/troubleshoot/logs.go:91-101 | The returned text is the bounded read, or the no-logs note, or the read error |
| `BoundedOutput.BoundedReadKeepsBody` | internal/tools/troubleshoot/logs.go:89-101 | Bounded reading and then truncating keeps the same body as truncating the whole stream; the two texts are equal if and only if nothing is truncated or the whole stream was read |
| `BoundedOutput.ReadErrorIff` | internal/tools/troubleshoot/logs.go:92-95 | The read error is reported if and only if the stream fails and the limit is not reached before the failing read |
| `BoundedOutput.LogsSpelledOut` | internal/tools/troubleshoot/logs.go:91-123 | The same with the sizes and the note spelled out: an error exactly for a failure before the limit plus 1024 bytes, less than 32 KiB more in memory, the no-logs note exactly for an empty stream, and otherwise a prefix of the stream |
| `BoundedOutput.WrappedLimitLosesLogs` | internal/tools/troubleshoot/logs.go:91 | For limits within 1024 of the largest int the sum wraps and every stream reads as having no logs |
| `Runtime.Toolkit.constructor` | internal/tools/toolkit.go:41-45 | A semaphore of the configured size if that is positive, and none otherwise |
| `Runtime.Toolkit.Emit` | internal/audit/audit.go:48-55 | Finishing appends one record, whose success flag is the absence of an error |
| `Runtime.Toolkit.Truncate` | internal/tools/toolkit.go:99-108 | The in-place loop truncates every text entry, and panics exactly when an entry is a nil text |
| `Runtime.Toolkit.Wrap` | internal/tools/toolkit.go:62-96 | One call alone returns the token it took on every path, panics included, and emits and answers as the call's ending demands |
| `Runtime.SemaphoreCountsHolders` | internal/tools/toolkit.go:68-76 | In every interleaving the semaphore counts exactly the calls between acquire and release, never more than its capacity; release never blocks; it is zero once all calls are done |
| `Runtime.AcquireIff` | internal/tools/toolkit.go:41-76 | In every run, a waiting call can take a slot exactly when the cap is not positive or fewer calls than the cap hold one, and can be turned away exactly when there is a cap |
| `Runtime.HandlersAreFree` | internal/tools/toolkit.go:63-88 | A new call can always come in, and exactly while its handler runs it may attach, return or panic |
| `Runtime.StepMovesHolders` | internal/tools/toolkit.go:68-76 | Each step changes the number of holding calls exactly as it changes the semaphore |
| `Runtime.AdvanceIsFaithful` | internal/tools/toolkit.go:78-95 | Each step of a call keeps its position, record and emissions a consequence of its own story |
| `Runtime.EveryCallIsFaithful` | internal/tools/toolkit.go:62-96 | In every run this holds of every call at every moment, and a call not started has emitted nothing |
| `Runtime.InterleavingIsInvisible` | internal/tools/toolkit.go:62-96 | A finished call has answered and been audited exactly as if it had run alone: no other call's attachments reach it |
| `Runtime.OneRecordIff` | internal/audit/audit.go:44-56 | Nothing is emitted before the handler is over; a finished call has emitted one record, or two if and only if a successful result holds a nil text entry; the first says success exactly when there was no error, panic or rejection |
| `Runtime.ArgsAreLaterWinsUnion` | internal/audit/audit.go:74-85 | The args of a record are the union of the attached ones, the latest attachment winning for each key |
| `Runtime.RecordsTellTheirCall` | internal/audit/audit.go:44-69 | In every run, each record of a finished call has the tool and verb of the call and, field for field, the last target its handler attached; the first one tells how the handler ended |
| `Runtime.AnswerTellsEnding` | internal/tools/toolkit.go:68-108 | The answer follows from the ending; a normal result keeps its error flag and entries, each text truncated and the others as they are |
| `Runtime.WrapperEnds` | internal/tools/toolkit.go:70-95 | In every run, a call that is rejected or whose handler is over can always take its next step, only that one, and each step lowers a bound of three plus the entries of the result: it gets to its end whatever the other calls do |
| `PortForward.Slots.Acquire` | internal/tools/debug/portforward.go:30-38 | A slot is taken exactly when fewer than five are |
| `PortForward.Slots.Release` | internal/tools/debug/portforward.go:40-46 | The counter goes down by one unless it is zero |
| `PortForward.Forward` | internal/tools/debug/portforward.go:70-139 | One session alone gives its slot back on every one of its five paths and closes its stop channel once when it opened or timed out, never otherwise |
| `PortForward.TunnelOpensAsAsked` | internal/tools/debug/portforward.go:73-139 | From the moment a session answers until its teardown acts or the server shuts down, the teardown is possible exactly when the requested time has passed: the request itself up to an hour, an hour if more, two minutes if absent or not positive |
| `PortForward.ReadyTimeoutIff` | internal/tools/debug/portforward.go:116-126 | A handler that waits gives up exactly when ten seconds have passed |
| `PortForward.RefusedIffFiveHold` | internal/tools/debug/portforward.go:23-38 | In every run, a new session is refused exactly when five others hold a slot |
| `PortForward.Duration` | internal/tools/debug/portforward.go:73-81 | The tunnel time is positive and never above an hour |
| `PortForward.StepKeepsInv` | internal/tools/debug/portforward.go:23-46 | Every step of any session, the clock or the shutdown keeps the counter equal to the number of slot holders, and every session disciplined |
| `PortForward.SlotsAreCounted` | internal/tools/debug/portforward.go:70-139 | In every interleaving the counter equals the holders and stays within 0 and 5, each session releases and closes at most once, the positivity guard never suppresses a release, and the error send never blocks |
| `PortForward.LeakedIffCrashed` | internal/tools/debug/portforward.go:70-139 | When every session is over, the slots still taken are exactly those of handlers that panicked while holding one |
| `PortForward.AdvanceLowersRank` | internal/tools/debug/portforward.go:110-139 | Every action of a session lowers its rank |
| `PortForward.SessionsRunDown` | internal/tools/debug/portforward.go:110-139 | Whatever else the server does, rank plus actions taken never exceed the starting rank, which the hour and the ready wait bound |
| `PortForward.HandlerCanMove` | internal/tools/debug/portforward.go:94-139 | A session that is not over can take a step of its handler or teardown, or its own timer is running and every passage of time runs it down, whatever the forwarder and its peer do; a shutdown frees an active session at once |
| `PortForward.TimeIsPaidFor` | internal/tools/debug/portforward.go:110-139 | Until a session is over, its rank pays for every action it takes and all the time that passes, except the time it could act and did not |
| `PortForward.EverySessionEnds` | internal/tools/debug/portforward.go:73-139 | Once the time passed, less the time a session could act and did not, reaches an hour, the ready wait and nine nanoseconds, the session has released its slot, was refused one, or its handler panicked; whatever else the server and the peers do |
| `PortForward.PunctualSessionEnds` | internal/tools/debug/portforward.go:73-139 | A session that acts whenever it can is over after an hour, ten seconds and nine nanoseconds |
| `PortForward.WhatASessionSees` | internal/tools/debug/portforward.go:116-139 | In every run, a waiting handler can see that its forwarder serves, or that it is gone, exactly when that is so; a tunnel can be torn down exactly when its time is up or the server was shut down |
| `PortForward.WhatAForwarderDoes` | internal/tools/debug/portforward.go:110-114 | In every reachable state, a forwarder can become ready, stop or report exactly when it was started, runs, or has stopped |
| `PortForward.RankZeroIffAtRest` | internal/tools/debug/portforward.go:110-139 | The rank is zero exactly when neither an action of the session nor a wait remains |
| `Names.LabelPattern` | internal/rpc/args.go:25 | The label expression matches exactly the non-empty strings of its class that neither start nor end with a dash |
| `Names.StarOfClass` | internal/rpc/args.go:25 | The starred class matches exactly the strings all of whose characters are in it |
| `Names.SubdomainIsDottedLabels` | internal/rpc/args.go:23 | The subdomain expression matches a string if and only if every dot-separated part of it matches the label expression |
| `Names.ScannerDecides` | internal/rpc/args.go:20-26 | One left-to-right pass decides both expressions (section 2.1 of RFC 1123) |
| `Names.NamesAreWellSpelled` | internal/rpc/args.go:20-49 | A name is accepted exactly when it has at most 253 characters, all of them lower-case letters, digits, dashes or dots, with a letter or digit at both ends and beside every dot; a namespace likewise with 63 and no dots |
| `Names.NameErrors` | internal/rpc/args.go:30-35 | An empty name is reported as missing, every other refused one as invalid |
| `Names.OrdinaryNames` | internal/rpc/args.go:29-37 | Concrete names that are accepted and refused |
| `Names.NamespaceIffShortDotlessName` | internal/rpc/args.go:29-49 | A non-empty string is an accepted namespace if and only if it is an accepted name without a dot and of at most 63 characters |
| `Names.LongPartAccepted` | internal/rpc/args.go:33 | A name part of 64 characters passes the name check and fails the namespace check |
| `Tables.Table.constructor` | internal/rpc/table.go:16-18 | A new table has the headers, no title and no rows |
| `Tables.Table.AddRow` | internal/rpc/table.go:27-30 | The row is appended and nothing else changes |
| `Tables.Table.Measure` | internal/rpc/table.go:40-55 | The width passes leave in place, for each column, the longest of its cells and header |
| `Tables.Table.WriteRow` | internal/rpc/table.go:57-70 | The loop appends one line of padded cells, given that no pad count is negative |
| `Tables.Table.Render` | internal/rpc/table.go:33-77 | The imperative renderer yields the rendered text, and no cell is longer than its column |
| `Tables.LineLengths` | internal/rpc/table.go:57-70 | All lines of a table have the same byte length |
| `Tables.ColumnsLineUp` | internal/rpc/table.go:57-70 | Column i starts at the same offset in every line and holds the padded cell |
| `Tables.ColumnsAreApart` | internal/rpc/table.go:63-65 | Neighbouring columns of every line are three spaces apart |
| `Tables.WidthIsReached` | internal/rpc/table.go:40-55 | Each column is as wide as its longest cell or header, and no wider |
| `Tables.ColumnRecoversCellIff` | internal/rpc/table.go:57-70 | Slicing a column and trimming it gives the cell back if and only if the cell does not end in a space; missing cells come back empty |
| `Tables.RenderedLines` | internal/rpc/table.go:72-76 | Without newlines in cells, splitting at newlines gives the title, the header line and one line for each row |
| `Tables.RenderedReadsBack` | internal/rpc/table.go:33-77 | The whole rendered text reads back: line count, equal lengths, and every recoverable cell from its column |
| `Policy.FromConfig` | internal/security/policy.go:30-55 | Destructive implies writes, and the namespace guard passes exactly the listed namespaces, or all when none is listed |
| `Policy.CheckName` | internal/rpc/args.go:29-37 | The one-pass name guard accepts exactly what the regular expression check accepts |
| `GuardSpec.PermittedIff` | internal/security/policy.go:79-125 | The permission of the run theorems, spelled out: an enabled verb, the namespace list, the three control-plane namespaces and cluster scope |
| `GuardSpec.TargetIff` | internal/tools/operations/operations.go:217-260 | A single-request call aims at an object exactly when its tool is enabled, the name given is valid and the object's, its place is allowed, and the kind and type arguments lead to it |
| `GuardSpec.DocAimIff` | internal/tools/operations/operations.go:147-172 | A document is sent to an object exactly when it names its kind and name, discovery maps the kind to the object's resource, the kind key is on the list, and target and namespace are allowed |
| `GuardSpec.AppliedDocsAreAllowed` | internal/tools/operations/operations.go:145-193 | Each document that `apply_manifest` got past meets all of that, and the first one it did not get past does not, unless the API rejected it |
| `GuardSpec.UnlistedKindNeverApplied` | internal/security/policy.go:129-137 | Under a list of manifest kinds, no run of `apply_manifest` calls changes an object of a kind that is not on it |
| `GuardSpec.ApplyRefusalIff` | internal/tools/operations/operations.go:116-137 | The checks before the first document, each exactly under its condition |
| `GuardSpec.DisabledToolsChangeNothing` | internal/security/policy.go:79-92 | A run of calls whose verbs are not enabled changes nothing: without writes only `delete_manifest` can, without destructive operations it cannot |
| `GuardSpec.RefusalsInOrder` | internal/tools/operations/delete.go:99-104 | A refused call is told first that its tool is disabled, and then that its name is not valid |
| `Mutations.Server.Mutate` | internal/tools/operations/operations.go:217-260 | A handler that makes one request aims at an object the policy permits or at none; every other object, and in a dry run every object, stays as it was; the aimed one is what the API made of it |
| `Mutations.Server.Send` | internal/tools/operations/operations.go:240-253 | The request changes no object but the one it is aimed at, and none in a dry run |
| `Mutations.Server.Serve` | internal/tools/operations/operations.go:276-284 | Serving any sequence of calls one after the other is the run of the policy theorems, and leaves every object the policy does not permit as it was |
| `Mutations.Server.ApplyOne` | internal/tools/operations/operations.go:145-187 | A document gets its default namespace in place and is sent exactly where its guards aim it |
| `Mutations.Server.ApplyDocuments` | internal/tools/operations/operations.go:145-193 | The loop that rewrites the documents leaves the cluster, count and ending that the fold over the original documents does |
| `Mutations.Server.ApplyManifest` | internal/tools/operations/operations.go:114-198 | Refused calls end with their reason and change nothing; others have the effect and the ending of the document loop |
| `Mutations.ApplyStoresAPrefix` | internal/tools/operations/operations.go:145-193 | Exactly the documents before the first one a guard or the API rejects are stored, in order; all of them if and only if the call succeeds; none in a dry run |
| `Mutations.GuardsImplyPermitted` | internal/tools/operations/operations.go:276-284 | No handler's guards let through an object the policy does not permit |
| `Mutations.DocGuardsImplyPermitted` | internal/tools/operations/operations.go:155-172 | Nor do the guards of a manifest document |
| `Mutations.UnpermittedNeverChanges` | internal/security/policy.go:79-125 | Over any sequence of calls with any arguments, and whatever discovery and the API answer each time, an object the policy does not permit never changes |
| `Mutations.ChangeableIffPermitted` | internal/security/policy.go:79-137 | The guarantee is tight: an object that calls can name is changed by some run if and only if the policy permits it |
| `Mutations.ReadOnlyIff` | internal/security/policy.go:79-92 | Nothing ever changes in any run if and only if neither writes nor destructive operations are allowed |
| `Mutations.ReadOnlyRun` | internal/security/policy.go:79-92 | With both switches off every run leaves the whole cluster as it was |
| `Mutations.ChangesNothingIff` | internal/tools/operations/operations.go:119-122 | Whatever the API answers, a call changes nothing if and only if its guards refuse it at once or it asks for a dry run, which the rollout, label and annotate tools cannot |
| `Mutations.InterleavedNeverChanges` | internal/security/policy.go:79-125 | However the requests of any number of calls interleave, document by document and with other calls between guards and request, an object the policy does not permit never changes |
| `Mutations.AloneIsEffect` | internal/tools/operations/operations.go:145-193 | The turns of a call that no other call interrupts add up to exactly the effect the serial runs are made of |
| `Drain.Node.SetUnschedulable` | internal/tools/operations/nodes.go:34-58 | Exactly when name, policy and request allow it, one path of the node is set and nothing else |
| `Drain.CordonIsAtSpec` | internal/tools/operations/nodes.go:48 | A cordon or uncordon is recorded at `spec.unschedulable` |
| `Drain.Node.DrainNode` | internal/tools/operations/nodes.go:70-136 | Each refusal exactly under its condition; the node is cordoned even when listing fails; evicted, skipped and failed add up to the pods listed |
| `Drain.Node.EvictAll` | internal/tools/operations/nodes.go:113-129 | The loop requests the selected evictions in order, removes the successful ones, and counts every pod once |
| `Drain.SkipsUnlessEvictable` | internal/tools/operations/nodes.go:139-161 | A pod has an empty skip reason if and only if it is no mirror pod, no DaemonSet pod, and the flags cover its being standalone or using emptyDir |
| `Drain.SkipReasonsInOrder` | internal/tools/operations/nodes.go:139-161 | A skipped pod is told one of the four reasons, mirror pods and then standalone pods before the others |
| `Drain.AttemptsAreTheEvictable` | internal/tools/operations/nodes.go:114-129 | Evictions are requested exactly once for each evictable pod and for no other |
| `Drain.LeftAloneIff` | internal/tools/operations/nodes.go:139-188 | A listed pod is left alone exactly when it is a mirror pod of kube-system, has a DaemonSet owner, has no controlling owner and is not forced, or has an emptyDir volume whose data may not be deleted |
| `Drain.DrainConserves` | internal/tools/operations/nodes.go:113-130 | The listed pods are, as a multiset, the evicted and the remaining ones |
| `Drain.AttemptsSucceedOrFail` | internal/tools/operations/nodes.go:122-128 | The attempts are, as a multiset, the evicted and the failed ones |
| `Drain.MoreFlagsMoreAttempts` | internal/tools/operations/nodes.go:139-161 | Turning on force or emptyDir deletion only enlarges the attempted set; the DaemonSet flag changes nothing |
| `Drain.RerunAttemptsFailures` | internal/tools/operations/nodes.go:111-133 | Draining again with no arrivals attempts exactly the earlier failures, in order |
| `Drain.UncordonUndoesCordonIff` | internal/tools/operations/nodes.go:48-49 | Uncordoning after a cordon restores the node if and only if it had said explicitly that it was schedulable |
| `Secrets.SortedStringKeys` | internal/tools/configstore/configstore.go:243-250 | The keys, each once, in sorted order, whatever order the map gave them |
| `Secrets.KeyOrderIsUnique` | internal/tools/configstore/configstore.go:243-250 | There is only one such order |
| `Secrets.RenderSecret` | internal/tools/configstore/configstore.go:204-227 | The rendered text is the same for every order of the map |
| `Secrets.MaskedLineIff` | internal/tools/configstore/configstore.go:220 | Two masked lines agree if and only if the values agree in length and short hash |
| `Secrets.MaskedTextIff` | internal/tools/configstore/configstore.go:204-227 | Two secrets with the same name, namespace, type and keys are masked to the same text if and only if every value agrees in length and short hash |
| `Secrets.PlainLinesReadBack` | internal/tools/configstore/configstore.go:217-219 | In the clear, the lines of two secrets with single-line values are equal if and only if the values are |
| `Secrets.HeadingOfOneSecret` | internal/tools/configstore/configstore.go:206-208 | The heading of a concrete secret, spelled out |
| `Secrets.TextOfSmallSecrets` | internal/tools/configstore/configstore.go:204-227 | The whole text of a secret with one key, in the clear and masked with its notice, and of one without data |
| `Secrets.MaskedLineOfOneSecret` | internal/tools/configstore/configstore.go:220 | A concrete masked line, spelled out |
| `Secrets.Unstructured.MaskEntries` | internal/tools/troubleshoot/describe.go:142-148 | The in-place loop masks every string entry of one payload map and touches nothing else |
| `Secrets.Unstructured.Clean` | internal/tools/troubleshoot/describe.go:126-156 | In-place cleaning leaves what the pure description of the shown object says |
| `Secrets.MaskedMapIff` | internal/tools/troubleshoot/describe.go:142-155 | Masking keeps the keys, and any two payload maps are shown alike if and only if they have the same keys, equal hashes of strings, and equal other values |
| `Secrets.DescribeMasksSecrets` | internal/tools/troubleshoot/describe.go:126-156 | Both payload maps of a Secret are masked, metadata is shown less its managed fields, every other member as it is; nothing is masked in other objects |
| `Secrets.DescribedAlikeIff` | internal/tools/troubleshoot/describe.go:126-156 | Any two objects are shown alike if and only if they have the same members, metadata agrees up to its managed fields, payload maps of a Secret agree up to the hashes of strings, and every other member is equal |
| `Secrets.SecretStringsAreMasked` | internal/tools/troubleshoot/describe.go:137-156 | For an object of kind Secret in any mix of cases, each string of `data` and `stringData` is shown as four bullets and its hash |
| `Secrets.SecretsAlike` | internal/tools/troubleshoot/describe.go:137-156 | Two such objects that differ only in strings of equal hashes are shown alike |
| `Secrets.OthersAreShown` | internal/tools/troubleshoot/describe.go:126-141 | An object without a kind, or whose kind is no string or a word of another length, is shown as it is, less its managed fields |

## Left out

- `client-go`, the MCP and HTTP servers, TLS, telemetry, logging, flags and tool registration: foreign code and I/O.
- Decoding of YAML and JSON manifests: the model starts from the decoded documents, or from the decoding error.
- SHA-256: the hash is a parameter; results that need it assume only that a short hash has twelve characters.
- Clocks, deadlines and contexts: a context that ends, a timer that fires or a request that fails is a choice of the environment. A handler's own panics and returns are such choices too.
- The texts the mutating handlers return, and the API server's own effects after a request (cascading deletion, admission).
- `Rollout.UndoKeepsConsistent`: the Deployment controller is not part of the repository; the model lets it choose any matching ReplicaSet or a new one and any number above the others', as its documentation promises. It compares templates without the hash label.
- `Rollout.Controller.RolloutUndo`: the policy guards in front of it are in `Mutations.dfy`; here the handler starts after them. Templates are JSON objects, as an encoded struct always is.
- `Metadata.Resource.MetaPatch`: the read and the patch are one step, so a change by another client between the two is not modelled.
- `Runtime.Toolkit.Truncate`: a result that holds the same text entry twice would be truncated twice in the source; entries are values here.
- `Runtime.Toolkit.Wrap`: durations and the log level of a record are not modelled; the args of a record are strings.
- `BoundedOutput.ReadAtMost`: a reader that delivers nothing and no error for ever is not modelled; it would keep the source's loop running for ever too.
- `PortForward.SlotsAreCounted`: each acquire and release is one step, which is what the mutex provides.
- `Tables.Table.Render`: widths are byte lengths, as in the source, not display widths.
- `GoText.EqualFold`: Unicode case mapping is modelled where an ASCII word can be the outcome, which is all the callers compare with.
- `Sorting.Sort`: an insertion sort stands for the library's sort; callers use only what both promise.
- `Drain.Node.EvictAll`: a successful eviction removes the pod from the node's list at once; the source's eviction returns before the pod is gone.
- `delete_pod`, cordon, uncordon and drain in the whole-run policy theorem: they pass other guards, and a drain acts across namespaces. Cordon and drain are modelled on their own.
- `Mutations.Server.Mutate`: what a request stores is the API's choice; the reads that `scale` and `update_configmap` make first only add ways to fail.
- `Mutations.ApplyStoresAPrefix`: here a failed request has changed nothing and a successful one has stored a document; the policy theorems do not suppose this.
- `ResolveGVR`: an uninterpreted lookup from kind and version to resource and scope.
- Forbidden images, debug service accounts, `exec`, `rollout_history`, the `diagnose` and list formatters and `top`: branch-by-branch text and checks with no state to reason about.
