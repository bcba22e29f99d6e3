/** The tool-call runtime: `Wrap`'s semaphore, panic recovery and truncation around a handler, and the
    audit record of each call. One call is a small program counter; any number of calls interleave. */
module Runtime {
  import opened Wrappers
  import opened BoundedOutput

  // ----- Audit records -----

  datatype Verb = Read | Write | Destructive | Debug

  datatype Fault = ServerBusy | HandlerError(msg: string) | PanicError(msg: string)

  datatype Record = Record(tool: string, verb: Verb, kind: string, ns: string, name: string, dryRun: bool,
                           success: bool, fault: Option<Fault>, args: map<string, string>)

  /** What a handler adds to its record: `audit.Attach` or `audit.AttachArgs`. */
  datatype Attachment =
    | Target(kind: string, ns: string, name: string, dryRun: bool)
    | Extra(args: map<string, string>)

  function Begun(tool: string, verb: Verb): Record {
    Record(tool, verb, "", "", "", false, false, None, map[])
  }

  function Attach(rec: Record, a: Attachment): Record {
    match a
    case Target(kind, ns, name, dryRun) => rec.(kind := kind, ns := ns, name := name, dryRun := dryRun)
    case Extra(args) => rec.(args := rec.args + args)
  }

  function AttachAll(rec: Record, all: seq<Attachment>): Record {
    if all == [] then rec else Attach(AttachAll(rec, all[..|all| - 1]), all[|all| - 1])
  }

  /** The record as the finish function leaves and emits it. */
  function Finished(rec: Record, fault: Option<Fault>): Record {
    rec.(success := fault.None?, fault := if fault.Some? then fault else rec.fault)
  }

  // ----- Results -----

  /** `NilText` is a text entry whose pointer is nil: looking at its text panics. */
  datatype Content = Text(body: seq<byte>) | NilText | Other

  datatype Reply = Reply(isError: bool, content: seq<Content>)

  datatype Answer = Busy | Failed(msg: string) | Internal(msg: string) | Given(reply: Option<Reply>)

  const NIL_POINTER := "invalid memory address or nil pointer dereference"

  function TruncateEntry(c: Content, max: int): Content {
    if c.Text? then Text(Truncated(c.body, max)) else c
  }

  /** The content after the truncation loop has passed the first `i` entries. */
  function TruncatedUpTo(content: seq<Content>, i: nat, max: int): seq<Content> {
    seq(|content|, k requires 0 <= k < |content| => if k < i then TruncateEntry(content[k], max) else content[k])
  }

  lemma TruncatesNext(content: seq<Content>, i: nat, max: int)
    requires i < |content|
    ensures TruncatedUpTo(content, i, max)[i] == content[i]
    ensures TruncatedUpTo(content, i + 1, max) == TruncatedUpTo(content, i, max)[i := TruncateEntry(content[i], max)]
    ensures NilText in content[..i + 1] <==> NilText in content[..i] || content[i] == NilText
  {
    assert content[..i + 1] == content[..i] + [content[i]];
  }

  predicate HasNilText(reply: Option<Reply>) { reply.Some? && NilText in reply.value.content }

  // ----- What one call does on its own -----

  datatype Ending = Rejected | Returned(reply: Option<Reply>, err: Option<string>) | Panicked(msg: string)

  datatype Call = Call(tool: string, verb: Verb, attached: seq<Attachment>, ending: Ending)

  function Attached(c: Call): Record { AttachAll(Begun(c.tool, c.verb), c.attached) }

  /** The audit records a whole call emits. */
  function Emissions(c: Call): seq<Record> {
    match c.ending
    case Rejected => [Finished(Attached(c), Some(ServerBusy))]
    case Panicked(msg) => [Finished(Attached(c), Some(PanicError(msg)))]
    case Returned(_, Some(e)) => [Finished(Attached(c), Some(HandlerError(e)))]
    case Returned(reply, None) =>
      var ok := Finished(Attached(c), None);
      [ok] + if HasNilText(reply) then [Finished(ok, Some(PanicError(NIL_POINTER)))] else []
  }

  function AnswerTo(c: Call, max: int): Answer {
    match c.ending
    case Rejected => Busy
    case Panicked(msg) => Internal(msg)
    case Returned(_, Some(e)) => Failed(e)
    case Returned(reply, None) =>
      if HasNilText(reply) then Internal(NIL_POINTER)
      else if reply.None? then Given(None)
      else Given(Some(reply.value.(content := TruncatedUpTo(reply.value.content, |reply.value.content|, max))))
  }

  // ----- Wrap, one call at a time -----

  datatype Handler =
    Handler(attaches: seq<Attachment>, error: Option<string>, reply: Option<Reply>, panics: Option<string>)

  function EndingOf(h: Handler): Ending {
    if h.panics.Some? then Panicked(h.panics.value) else Returned(h.reply, h.error)
  }

  class Toolkit {
    const maxOutput: int
    const sem: Option<nat>
    var tokens: nat
    var emitted: seq<Record>

    /** `InitSemaphore`: no semaphore when the cap is not positive. */
    constructor (cap: int, maxOutput: int)
      ensures sem == (if cap > 0 then Some(cap) else None) && this.maxOutput == maxOutput
      ensures tokens == 0 && emitted == []
    {
      this.maxOutput := maxOutput;
      sem := if cap > 0 then Some(cap) else None;
      tokens := 0;
      emitted := [];
    }

    method Emit(rec: Record, fault: Option<Fault>) returns (done: Record)
      modifies this`emitted
      ensures done == Finished(rec, fault) && emitted == old(emitted) + [done]
    {
      done := Finished(rec, fault);
      emitted := emitted + [done];
    }

    /** `truncate`, rewriting entries in place; a nil text entry panics. */
    method Truncate(content: array<Content>) returns (panicked: bool)
      modifies content
      ensures panicked <==> NilText in old(content[..])
      ensures !panicked ==> content[..] == TruncatedUpTo(old(content[..]), content.Length, maxOutput)
    {
      for i := 0 to content.Length
        invariant NilText !in old(content[..])[..i]
        invariant content[..] == TruncatedUpTo(old(content[..]), i, maxOutput)
      {
        TruncatesNext(old(content[..]), i, maxOutput);
        assert content[i] == content[..][i] == old(content[..])[i];
        match content[i] {
          case NilText =>
            return true;
          case Text(body) =>
            var t := TruncateText(body, maxOutput);
            content[i] := Text(t);
          case Other =>
        }
      }
      return false;
    }

    /** One call with no other call in between; `deadline` says the context ended before a slot was
        taken. */
    method Wrap(tool: string, verb: Verb, h: Handler, deadline: bool) returns (answer: Answer)
      requires sem.Some? ==> tokens <= sem.value
      modifies this
      ensures tokens == old(tokens)
      ensures var rejected := sem.Some? && (deadline || old(tokens) == sem.value);
              var call := if rejected then Call(tool, verb, [], Rejected)
                          else Call(tool, verb, h.attaches, EndingOf(h));
              emitted == old(emitted) + Emissions(call) && answer == AnswerTo(call, maxOutput)
    {
      var rec := Begun(tool, verb);
      if sem.Some? {
        if deadline || tokens == sem.value {
          var _ := Emit(rec, Some(ServerBusy));
          return Busy;
        }
        tokens := tokens + 1;
      }
      for i := 0 to |h.attaches|
        invariant rec == AttachAll(Begun(tool, verb), h.attaches[..i])
        invariant tokens == (if sem.Some? then old(tokens) + 1 else old(tokens)) && emitted == old(emitted)
      {
        assert h.attaches[..i + 1][..i] == h.attaches[..i];
        rec := Attach(rec, h.attaches[i]);
      }
      assert h.attaches[..|h.attaches|] == h.attaches;
      if h.panics.Some? {
        answer := Internal(h.panics.value);
        var _ := Emit(rec, Some(PanicError(h.panics.value)));
      } else if h.error.Some? {
        answer := Failed(h.error.value);
        var _ := Emit(rec, Some(HandlerError(h.error.value)));
      } else {
        rec := Emit(rec, None);
        answer := Given(None);
        if h.reply.Some? {
          var entries := h.reply.value.content;
          var content := new Content[|entries|](k requires 0 <= k < |entries| => entries[k]);
          assert content[..] == entries;
          var panicked := Truncate(content);
          if panicked {
            answer := Internal(NIL_POINTER);
            rec := Emit(rec, Some(PanicError(NIL_POINTER)));
          } else {
            answer := Given(Some(h.reply.value.(content := content[..])));
          }
        }
      }
      if sem.Some? {
        tokens := tokens - 1;
      }
    }
  }

  // ----- Any number of calls, interleaved -----

  datatype Pc =
    | Waiting                                             // in the select on the semaphore
    | Rejecting                                           // the context ended first
    | Running                                             // inside the handler
    | Ended(reply: Option<Reply>, err: Option<string>)    // the handler returned, finish not called
    | Truncating(current: Reply, i: nat)                  // finish called, rewriting entry i
    | Unwinding(msg: string)                              // a panic, recover not reached
    | Releasing(answer: Answer)                           // only the semaphore defer is left
    | Done(final: Answer)

  datatype InFlight = InFlight(pc: Pc, rec: Record)

  datatype Action =
    | Begin(tool: string, verb: Verb)
    | Acquire
    | Reject
    | Add(attachment: Attachment)
    | Return(reply: Option<Reply>, err: Option<string>)
    | Panic(msg: string)
    | Finish
    | TruncateNext
    | Recover
    | Release

  datatype Step = Step(id: nat, action: Action)

  datatype State = State(sem: Option<nat>, tokens: nat, calls: map<nat, InFlight>, log: seq<(nat, Record)>)

  predicate Holds(c: InFlight) { !c.pc.Waiting? && !c.pc.Rejecting? && !c.pc.Done? }

  /** One action of one call: its new position and record, and what it emits; None when the action
      is not its next one. */
  function Advance(c: InFlight, action: Action, max: int): Option<(InFlight, seq<Record>)> {
    match (c.pc, action)
    case (Waiting, Acquire) => Some((c.(pc := Running), []))
    case (Waiting, Reject) => Some((c.(pc := Rejecting), []))
    case (Rejecting, Finish) =>
      var rec := Finished(c.rec, Some(ServerBusy));
      Some((InFlight(Done(Busy), rec), [rec]))
    case (Running, Add(a)) => Some((c.(rec := Attach(c.rec, a)), []))
    case (Running, Return(reply, err)) => Some((c.(pc := Ended(reply, err)), []))
    case (Running, Panic(msg)) => Some((c.(pc := Unwinding(msg)), []))
    case (Ended(reply, err), Finish) =>
      var rec := Finished(c.rec, if err.Some? then Some(HandlerError(err.value)) else None);
      var pc := if err.Some? then Releasing(Failed(err.value))
                else if reply.None? then Releasing(Given(None))
                else Truncating(reply.value, 0);
      Some((InFlight(pc, rec), [rec]))
    case (Truncating(r, i), TruncateNext) =>
      if i >= |r.content| then Some((c.(pc := Releasing(Given(Some(r)))), []))
      else if r.content[i].NilText? then Some((c.(pc := Unwinding(NIL_POINTER)), []))
      else Some((c.(pc := Truncating(r.(content := r.content[i := TruncateEntry(r.content[i], max)]), i + 1)), []))
    case (Unwinding(msg), Recover) =>
      var rec := Finished(c.rec, Some(PanicError(msg)));
      Some((InFlight(Releasing(Internal(msg)), rec), [rec]))
    case (Releasing(answer), Release) => Some((c.(pc := Done(answer)), []))
    case _ => None
  }

  function Tagged(id: nat, recs: seq<Record>): seq<(nat, Record)> {
    seq(|recs|, k requires 0 <= k < |recs| => (id, recs[k]))
  }

  /** One step of the whole server; None when it cannot be taken. */
  function Next(s: State, step: Step, max: int): Option<State> {
    if step.action.Begin? then
      if step.id in s.calls then None
      else Some(s.(calls := s.calls[step.id := InFlight(Waiting, Begun(step.action.tool, step.action.verb))]))
    else if step.id !in s.calls then None
    else if step.action.Acquire? && s.sem.Some? && s.tokens >= s.sem.value then None
    else if step.action.Reject? && s.sem.None? then None
    else if step.action.Release? && s.sem.Some? && s.tokens == 0 then None
    else
      var r := Advance(s.calls[step.id], step.action, max);
      if r.None? then None
      else
        var tokens := if s.sem.None? then s.tokens
                      else if step.action.Acquire? then s.tokens + 1
                      else if step.action.Release? then s.tokens - 1 else s.tokens;
        Some(State(s.sem, tokens, s.calls[step.id := r.value.0], s.log + Tagged(step.id, r.value.1)))
  }

  function Initial(cap: int): State { State(if cap > 0 then Some(cap) else None, 0, map[], []) }

  /** The state after `steps` from a fresh server, when every step could be taken. */
  function Run(cap: int, steps: seq<Step>, max: int): Option<State> {
    if steps == [] then Some(Initial(cap))
    else
      var before := Run(cap, steps[..|steps| - 1], max);
      if before.None? then None else Next(before.value, steps[|steps| - 1], max)
  }

  /** A run goes on with every step that can be taken, and only with those. */
  lemma RunGoesOn(cap: int, steps: seq<Step>, max: int, step: Step)
    requires Run(cap, steps, max).Some?
    ensures Run(cap, steps + [step], max) == Next(Run(cap, steps, max).value, step, max)
    ensures Run(cap, [], max).Some?
  {
    assert (steps + [step])[..|steps + [step]| - 1] == steps;
  }

  /** A new call can always come in, and while a handler runs it may attach, return or panic as it likes. */
  lemma HandlersAreFree(s: State, id: nat, tool: string, verb: Verb, a: Attachment, reply: Option<Reply>,
                        err: Option<string>, msg: string, max: int)
    ensures id !in s.calls ==> Next(s, Step(id, Begin(tool, verb)), max).Some?
    ensures id in s.calls ==>
              var running := s.calls[id].pc.Running?;
              && (Next(s, Step(id, Add(a)), max).Some? <==> running)
              && (Next(s, Step(id, Return(reply, err)), max).Some? <==> running)
              && (Next(s, Step(id, Panic(msg)), max).Some? <==> running)
  {}

  // ----- The semaphore -----

  function Holders(calls: map<nat, InFlight>): set<nat> { set id | id in calls && Holds(calls[id]) }

  lemma AdvanceMovesHold(c: InFlight, action: Action, max: int)
    requires Advance(c, action, max).Some?
    ensures var after := Advance(c, action, max).value.0;
            if action.Acquire? then !Holds(c) && Holds(after)
            else if action.Release? then Holds(c) && !Holds(after)
            else Holds(c) <==> Holds(after)
  {}

  lemma HoldersAfter(calls: map<nat, InFlight>, id: nat, c: InFlight)
    ensures Holders(calls[id := c]) == if Holds(c) then Holders(calls) + {id} else Holders(calls) - {id}
  {}

  /** A step moves the number of holders exactly as it moves the semaphore. */
  lemma StepMovesHolders(s: State, step: Step, max: int)
    requires Next(s, step, max).Some? && s.sem.Some?
    ensures |Holders(Next(s, step, max).value.calls)| - |Holders(s.calls)| == Next(s, step, max).value.tokens - s.tokens
  {
    if step.action.Begin? {
      var c := InFlight(Waiting, Begun(step.action.tool, step.action.verb));
      HoldersAfter(s.calls, step.id, c);
      assert step.id !in Holders(s.calls) && !Holds(c);
    } else {
      var c := s.calls[step.id];
      var after := Advance(c, step.action, max).value.0;
      AdvanceMovesHold(c, step.action, max);
      HoldersAfter(s.calls, step.id, after);
      assert step.id in Holders(s.calls) <==> Holds(c);
      SetResizes(Holders(s.calls), step.id);
    }
  }

  lemma SetResizes(s: set<nat>, id: nat)
    ensures |s + {id}| == if id in s then |s| else |s| + 1
    ensures |s - {id}| == if id in s then |s| - 1 else |s|
  {
    if id in s { assert s + {id} == s; } else { assert s - {id} == s; }
  }

  lemma {:induction false} TokensCountHolders(cap: int, steps: seq<Step>, max: int)
    requires Run(cap, steps, max).Some?
    ensures var s := Run(cap, steps, max).value;
            s.sem == Initial(cap).sem && (s.sem.Some? ==> s.tokens == |Holders(s.calls)| <= cap)
  {
    if steps != [] {
      var before, step := Run(cap, steps[..|steps| - 1], max).value, steps[|steps| - 1];
      TokensCountHolders(cap, steps[..|steps| - 1], max);
      if before.sem.Some? { StepMovesHolders(before, step, max); }
    }
  }

  /** In every interleaving the semaphore counts exactly the calls between acquire and release, there
      are never more of them than its capacity, releasing never blocks, and the count is zero once
      every call is done, panics included. */
  lemma SemaphoreCountsHolders(cap: int, steps: seq<Step>, max: int)
    requires Run(cap, steps, max).Some?
    ensures var s := Run(cap, steps, max).value;
            && s.sem == Initial(cap).sem
            && (s.sem.Some? ==> s.tokens == |Holders(s.calls)| <= cap)
            && (forall id | id in s.calls && s.calls[id].pc.Releasing? :: Next(s, Step(id, Release), max).Some?)
            && ((forall id | id in s.calls :: s.calls[id].pc.Done?) ==> s.tokens == 0)
  {
    TokensCountHolders(cap, steps, max);
    NoSemaphoreNoTokens(cap, steps, max);
    var s := Run(cap, steps, max).value;
    forall id | id in s.calls && s.calls[id].pc.Releasing? ensures Next(s, Step(id, Release), max).Some? {
      assert id in Holders(s.calls);
    }
    if forall id | id in s.calls :: s.calls[id].pc.Done? {
      assert Holders(s.calls) == {};
    }
  }

  lemma {:induction false} NoSemaphoreNoTokens(cap: int, steps: seq<Step>, max: int)
    requires Run(cap, steps, max).Some?
    ensures Run(cap, steps, max).value.sem.None? ==> Run(cap, steps, max).value.tokens == 0
  {
    if steps != [] { NoSemaphoreNoTokens(cap, steps[..|steps| - 1], max); }
  }

  /** In every run, a waiting call can take a slot exactly when there is no limit, which is a cap that is not
      positive, or fewer calls than the cap are between acquire and release; and it can be turned away exactly
      when there is a limit. */
  lemma AcquireIff(cap: int, steps: seq<Step>, max: int, id: nat)
    requires Run(cap, steps, max).Some? && id in Run(cap, steps, max).value.calls
    requires Run(cap, steps, max).value.calls[id].pc.Waiting?
    ensures var s := Run(cap, steps, max).value;
            && (Next(s, Step(id, Acquire), max).Some? <==> cap <= 0 || |Holders(s.calls)| < cap)
            && (Next(s, Step(id, Reject), max).Some? <==> cap > 0)
  {
    SemaphoreCountsHolders(cap, steps, max);
  }

  // ----- The audit log -----

  function LogOf(log: seq<(nat, Record)>, id: nat): seq<Record> {
    if log == [] then []
    else
      var rest, last := LogOf(log[..|log| - 1], id), log[|log| - 1];
      if last.0 == id then rest + [last.1] else rest
  }

  lemma {:induction false} LogOfAppend(log: seq<(nat, Record)>, more: seq<(nat, Record)>, id: nat)
    ensures LogOf(log + more, id) == LogOf(log, id) + LogOf(more, id)
  {
    if more == [] {
      assert log + more == log;
    } else {
      LogOfAppend(log, more[..|more| - 1], id);
      assert (log + more)[..|log + more| - 1] == log + more[..|more| - 1];
    }
  }

  lemma {:induction false} LogOfTagged(recs: seq<Record>, owner: nat, id: nat)
    ensures LogOf(Tagged(owner, recs), id) == if owner == id then recs else []
  {
    if recs != [] {
      LogOfTagged(recs[..|recs| - 1], owner, id);
      assert Tagged(owner, recs)[..|recs| - 1] == Tagged(owner, recs[..|recs| - 1]);
    }
  }

  /** What the run says of one call: its name, its own attachments in order, and how it ended. */
  datatype Story = Story(tool: string, verb: Verb, attached: seq<Attachment>, ending: Option<Ending>)

  function Note(story: Story, action: Action): Story {
    match action
    case Add(a) => story.(attached := story.attached + [a])
    case Return(reply, err) => story.(ending := Some(Returned(reply, err)))
    case Panic(msg) => story.(ending := Some(Panicked(msg)))
    case Reject => story.(ending := Some(Rejected))
    case _ => story
  }

  /** The story of call `id`, read off the steps that carry its id and no others. */
  function StoryOf(steps: seq<Step>, id: nat): Option<Story> {
    if steps == [] then None
    else
      var before, step := StoryOf(steps[..|steps| - 1], id), steps[|steps| - 1];
      if step.id != id then before
      else if step.action.Begin? then Some(Story(step.action.tool, step.action.verb, [], None))
      else if before.None? then None
      else Some(Note(before.value, step.action))
  }

  function CallOf(story: Story): Call
    requires story.ending.Some?
  {
    Call(story.tool, story.verb, story.attached, story.ending.value)
  }

  /** How a call's position, record and emissions so far follow from its story. */
  ghost predicate Faithful(c: InFlight, story: Story, log: seq<Record>, max: int) {
    var rec := AttachAll(Begun(story.tool, story.verb), story.attached);
    match c.pc
    case Waiting => story.ending == None && story.attached == [] && c.rec == rec && log == []
    case Rejecting => story.ending == Some(Rejected) && story.attached == [] && c.rec == rec && log == []
    case Running => story.ending == None && c.rec == rec && log == []
    case Ended(reply, err) => story.ending == Some(Returned(reply, err)) && c.rec == rec && log == []
    case Truncating(current, i) =>
      && story.ending.Some? && story.ending.value.Returned? && story.ending.value.err == None
      && story.ending.value.reply.Some? && c.rec == Finished(rec, None) && log == [c.rec]
      && var content := story.ending.value.reply.value.content;
         && i <= |content| && NilText !in content[..i]
         && current == story.ending.value.reply.value.(content := TruncatedUpTo(content, i, max))
    case Unwinding(msg) =>
      || (story.ending == Some(Panicked(msg)) && c.rec == rec && log == [])
      || (&& story.ending.Some? && story.ending.value.Returned? && story.ending.value.err == None
          && HasNilText(story.ending.value.reply) && msg == NIL_POINTER
          && c.rec == Finished(rec, None) && log == [c.rec])
    case Releasing(answer) => story.ending.Some? && log == Emissions(CallOf(story)) &&
      answer == AnswerTo(CallOf(story), max)
    case Done(answer) => story.ending.Some? && log == Emissions(CallOf(story)) && answer == AnswerTo(CallOf(story), max)
  }

  lemma FinishIsFaithful(c: InFlight, story: Story, log: seq<Record>, max: int)
    requires c.pc.Ended? && Faithful(c, story, log, max)
    ensures var (after, emitted) := Advance(c, Finish, max).value;
            Faithful(after, story, log + emitted, max)
  {
    if c.pc.err.None? && c.pc.reply.Some? {
      assert TruncatedUpTo(c.pc.reply.value.content, 0, max) == c.pc.reply.value.content;
    }
  }

  lemma TruncationIsFaithful(c: InFlight, story: Story, log: seq<Record>, max: int)
    requires c.pc.Truncating? && Faithful(c, story, log, max)
    ensures var (after, emitted) := Advance(c, TruncateNext, max).value;
            emitted == [] && Faithful(after, story, log, max)
  {
    var content, i := story.ending.value.reply.value.content, c.pc.i;
    if i < |content| {
      TruncatesNext(content, i, max);
    } else {
      assert content[..i] == content;
    }
  }

  lemma AdvanceIsFaithful(c: InFlight, story: Story, log: seq<Record>, action: Action, max: int)
    requires Faithful(c, story, log, max) && Advance(c, action, max).Some?
    ensures var (after, emitted) := Advance(c, action, max).value;
            Faithful(after, Note(story, action), log + emitted, max)
  {
    if c.pc.Ended? {
      FinishIsFaithful(c, story, log, max);
    } else if c.pc.Truncating? {
      TruncationIsFaithful(c, story, log, max);
      assert log + [] == log;
    } else {
      SimpleStepIsFaithful(c, story, log, action, max);
    }
  }

  lemma SimpleStepIsFaithful(c: InFlight, story: Story, log: seq<Record>, action: Action, max: int)
    requires !c.pc.Ended? && !c.pc.Truncating? && Faithful(c, story, log, max) && Advance(c, action, max).Some?
    ensures var (after, emitted) := Advance(c, action, max).value;
            Faithful(after, Note(story, action), log + emitted, max)
  {
    if action.Add? {
      assert (story.attached + [action.attachment])[..|story.attached|] == story.attached;
    }
  }

  /** In every run every call's position, record and emissions follow from its own story. */
  lemma {:induction false} EveryCallIsFaithful(cap: int, steps: seq<Step>, max: int, id: nat)
    requires Run(cap, steps, max).Some?
    ensures var s := Run(cap, steps, max).value;
            && (id in s.calls <==> StoryOf(steps, id).Some?)
            && (id in s.calls ==> Faithful(s.calls[id], StoryOf(steps, id).value, LogOf(s.log, id), max))
            && (id !in s.calls ==> LogOf(s.log, id) == [])
  {
    if steps != [] {
      var init, step := steps[..|steps| - 1], steps[|steps| - 1];
      EveryCallIsFaithful(cap, init, max, id);
      var before := Run(cap, init, max).value;
      if !step.action.Begin? {
        var (after, emitted) := Advance(before.calls[step.id], step.action, max).value;
        LogOfAppend(before.log, Tagged(step.id, emitted), id);
        LogOfTagged(emitted, step.id, id);
        if step.id == id {
          AdvanceIsFaithful(before.calls[id], StoryOf(init, id).value, LogOf(before.log, id), step.action, max);
        }
      }
    }
  }

  /** Whatever the other calls do in between, a finished call has answered and been audited exactly
      as if it had run alone: its records come from its own attachments, later ones winning. */
  lemma InterleavingIsInvisible(cap: int, steps: seq<Step>, max: int, id: nat)
    requires Run(cap, steps, max).Some? && id in Run(cap, steps, max).value.calls
    requires Run(cap, steps, max).value.calls[id].pc.Done?
    ensures var s := Run(cap, steps, max).value;
            && StoryOf(steps, id).Some? && StoryOf(steps, id).value.ending.Some?
            && var call := CallOf(StoryOf(steps, id).value);
               LogOf(s.log, id) == Emissions(call) && s.calls[id].pc.final == AnswerTo(call, max)
  {
    EveryCallIsFaithful(cap, steps, max, id);
  }

  /** A call emits nothing before its handler is over, and a finished call has emitted exactly one
      record unless the handler returned a result with a nil text entry: then it emits two. The first
      record says success exactly when the handler returned without error, panic or rejection. */
  lemma OneRecordIff(cap: int, steps: seq<Step>, max: int, id: nat)
    requires Run(cap, steps, max).Some? && id in Run(cap, steps, max).value.calls
    ensures var s := Run(cap, steps, max).value;
            var log, pc := LogOf(s.log, id), s.calls[id].pc;
            && (pc.Waiting? || pc.Rejecting? || pc.Running? || pc.Ended? ==> log == [])
            && (pc.Done? ==>
                  && StoryOf(steps, id).Some? && StoryOf(steps, id).value.ending.Some?
                  && var ending := StoryOf(steps, id).value.ending.value;
                     var ok := ending.Returned? && ending.err == None;
                     && (|log| == 1 <==> !(ok && HasNilText(ending.reply)))
                     && 1 <= |log| <= 2
                     && (log[0].success <==> ok)
                     && (|log| == 2 ==> !log[1].success))
  {
    EveryCallIsFaithful(cap, steps, max, id);
  }

  /** What a record says of its target: field for field the last target attached, and nothing without one. */
  predicate TellsTarget(rec: Record, all: seq<Attachment>) {
    || (exists i :: 0 <= i < |all| && all[i].Target? &&
          rec.kind == all[i].kind && rec.ns == all[i].ns && rec.name == all[i].name && rec.dryRun == all[i].dryRun &&
          forall j | i < j < |all| :: all[j].Extra?)
    || ((forall i | 0 <= i < |all| :: all[i].Extra?) &&
          rec.kind == "" && rec.ns == "" && rec.name == "" && !rec.dryRun)
  }

  lemma {:induction false} AttachedTarget(rec: Record, all: seq<Attachment>)
    requires rec.kind == "" && rec.ns == "" && rec.name == "" && !rec.dryRun
    ensures TellsTarget(AttachAll(rec, all), all)
  {
    if all != [] {
      var n := |all| - 1;
      AttachedTarget(rec, all[..n]);
      OneMoreAttached(AttachAll(rec, all[..n]), all[..n], all[n]);
      assert all == all[..n] + [all[n]];
    }
  }

  lemma OneMoreAttached(rec: Record, all: seq<Attachment>, a: Attachment)
    requires TellsTarget(rec, all)
    ensures TellsTarget(Attach(rec, a), all + [a])
  {
    var more, n := all + [a], |all|;
    if a.Target? {
      assert more[n].Target?;
    } else if forall i | 0 <= i < n :: all[i].Extra? {
      assert forall i | 0 <= i < |more| :: more[i].Extra?;
    } else {
      var i :| 0 <= i < n && all[i].Target? && rec.kind == all[i].kind && rec.ns == all[i].ns &&
               rec.name == all[i].name && rec.dryRun == all[i].dryRun && forall j | i < j < n :: all[j].Extra?;
      assert more[i] == all[i];
      assert forall j | i < j < |more| :: more[j].Extra?;
    }
  }

  lemma {:induction false} AttachedRest(rec: Record, all: seq<Attachment>)
    ensures AttachAll(rec, all).tool == rec.tool && AttachAll(rec, all).verb == rec.verb
    ensures AttachAll(rec, all).fault == rec.fault && AttachAll(rec, all).success == rec.success
  {
    if all != [] { AttachedRest(rec, all[..|all| - 1]); }
  }

  /** What a first record says of how the handler ended. */
  function FaultOf(ending: Ending): Option<Fault> {
    match ending
    case Rejected => Some(ServerBusy)
    case Panicked(msg) => Some(PanicError(msg))
    case Returned(_, Some(e)) => Some(HandlerError(e))
    case Returned(_, None) => None
  }

  /** Every record of a finished call is about that call: its tool and verb, the last target its handler
      attached, the args it attached; and the first one tells how the handler ended. */
  lemma RecordsTellTheirCall(cap: int, steps: seq<Step>, max: int, id: nat)
    requires Run(cap, steps, max).Some? && id in Run(cap, steps, max).value.calls
    requires Run(cap, steps, max).value.calls[id].pc.Done?
    ensures StoryOf(steps, id).Some? && StoryOf(steps, id).value.ending.Some?
    ensures var story, log := StoryOf(steps, id).value, LogOf(Run(cap, steps, max).value.log, id);
            && log != [] && log[0].fault == FaultOf(story.ending.value)
            && forall rec | rec in log ::
                 && rec.tool == story.tool && rec.verb == story.verb && TellsTarget(rec, story.attached)
                 && rec.args == AttachAll(Begun(story.tool, story.verb), story.attached).args
  {
    InterleavingIsInvisible(cap, steps, max, id);
    var story := StoryOf(steps, id).value;
    RecordsOfCall(CallOf(story));
  }

  lemma RecordsOfCall(c: Call)
    ensures Emissions(c) != [] && Emissions(c)[0].fault == FaultOf(c.ending)
    ensures forall rec | rec in Emissions(c) ::
              && rec.tool == c.tool && rec.verb == c.verb && TellsTarget(rec, c.attached)
              && rec.args == Attached(c).args
  {
    AttachedTarget(Begun(c.tool, c.verb), c.attached);
    AttachedRest(Begun(c.tool, c.verb), c.attached);
    FinishedTells(Attached(c), FaultOf(c.ending), c.attached);
    if c.ending.Returned? && c.ending.err == None {
      FinishedTells(Finished(Attached(c), None), Some(PanicError(NIL_POINTER)), c.attached);
    }
  }

  lemma FinishedTells(rec: Record, fault: Option<Fault>, all: seq<Attachment>)
    requires TellsTarget(rec, all)
    ensures var done := Finished(rec, fault);
            && TellsTarget(done, all) && done.tool == rec.tool && done.verb == rec.verb && done.args == rec.args
            && done.fault == (if fault.Some? then fault else rec.fault)
  {}

  /** The answer of a finished call, read off the handler's ending: a normal result keeps its error flag and
      its entries, each text truncated and the others as they are. */
  lemma AnswerTellsEnding(c: Call, max: int)
    ensures match c.ending
            case Rejected => AnswerTo(c, max) == Busy
            case Panicked(msg) => AnswerTo(c, max) == Internal(msg)
            case Returned(_, Some(e)) => AnswerTo(c, max) == Failed(e)
            case Returned(None, None) => AnswerTo(c, max) == Given(None)
            case Returned(Some(reply), None) =>
              if NilText in reply.content then
                AnswerTo(c, max) == Internal("invalid memory address or nil pointer dereference")
              else
                && AnswerTo(c, max).Given? && AnswerTo(c, max).reply.Some?
                && var out := AnswerTo(c, max).reply.value;
                   && out.isError == reply.isError && |out.content| == |reply.content|
                   && forall k | 0 <= k < |reply.content| ::
                        out.content[k] == match reply.content[k]
                                          case Text(body) => Text(Truncated(body, max))
                                          case other => other
  {}

  // ----- The wrapper ends -----

  /** The handler is over, or was never entered, and the wrapper has something left to do. */
  predicate Finishing(c: InFlight) {
    c.pc.Rejecting? || c.pc.Ended? || c.pc.Truncating? || c.pc.Unwinding? || c.pc.Releasing?
  }

  /** A bound on the steps a finishing call still takes. */
  function StepsLeft(c: InFlight): nat {
    match c.pc
    case Ended(reply, _) => 3 + if reply.Some? then |reply.value.content| else 0
    case Truncating(r, i) => 2 + if i <= |r.content| then |r.content| - i else 0
    case Unwinding(_) => 2
    case Releasing(_) => 1
    case Rejecting => 1
    case _ => 0
  }

  /** The one thing a finishing call does next. */
  function Coming(c: InFlight): Action {
    match c.pc
    case Truncating(_, _) => TruncateNext
    case Unwinding(_) => Recover
    case Releasing(_) => Release
    case _ => Finish
  }

  lemma FinishingAdvances(c: InFlight, action: Action, max: int)
    requires Finishing(c) && (c.pc.Truncating? ==> c.pc.i <= |c.pc.current.content|)
    ensures Advance(c, action, max).Some? <==> action == Coming(c)
    ensures action == Coming(c) ==>
              var after := Advance(c, action, max).value.0;
              (Finishing(after) || after.pc.Done?) && StepsLeft(after) < StepsLeft(c)
  {}

  /** In every run, a call whose handler is over (or that was rejected) can always take its next step,
      whatever the other calls do, and takes only that one. Each brings it nearer to its end, of which it is
      at most three steps and one for each entry of the result away. */
  lemma WrapperEnds(cap: int, steps: seq<Step>, max: int, id: nat)
    requires Run(cap, steps, max).Some? && id in Run(cap, steps, max).value.calls
    requires Finishing(Run(cap, steps, max).value.calls[id])
    ensures var s := Run(cap, steps, max).value;
            var c := s.calls[id];
            && Next(s, Step(id, Coming(c)), max).Some?
            && (forall action | Next(s, Step(id, action), max).Some? ::
                  var after := Next(s, Step(id, action), max).value.calls[id];
                  action == Coming(c) && (Finishing(after) || after.pc.Done?) && StepsLeft(after) < StepsLeft(c))
            && (forall step: Step | step.id != id && Next(s, step, max).Some? ::
                  Next(s, step, max).value.calls[id] == c)
            && StepsLeft(c) <= 3 + match c.pc
                 case Ended(reply, _) => if reply.Some? then |reply.value.content| else 0
                 case Truncating(r, _) => |r.content|
                 case _ => 0
  {
    EveryCallIsFaithful(cap, steps, max, id);
    SemaphoreCountsHolders(cap, steps, max);
    var s := Run(cap, steps, max).value;
    TruncatingInRange(s.calls[id], StoryOf(steps, id).value, LogOf(s.log, id), max);
    FinishingSteps(s, id, max);
  }

  lemma FinishingSteps(s: State, id: nat, max: int)
    requires id in s.calls && Finishing(s.calls[id])
    requires s.calls[id].pc.Truncating? ==> s.calls[id].pc.i <= |s.calls[id].pc.current.content|
    requires s.calls[id].pc.Releasing? ==> Next(s, Step(id, Release), max).Some?
    ensures Next(s, Step(id, Coming(s.calls[id])), max).Some?
    ensures forall action | Next(s, Step(id, action), max).Some? ::
              var c, after := s.calls[id], Next(s, Step(id, action), max).value.calls[id];
              action == Coming(c) && (Finishing(after) || after.pc.Done?) && StepsLeft(after) < StepsLeft(c)
    ensures forall step: Step | step.id != id && Next(s, step, max).Some? ::
              Next(s, step, max).value.calls[id] == s.calls[id]
  {
    var c := s.calls[id];
    FinishingAdvances(c, Coming(c), max);
    forall action | Next(s, Step(id, action), max).Some?
      ensures var after := Next(s, Step(id, action), max).value.calls[id];
              action == Coming(c) && (Finishing(after) || after.pc.Done?) && StepsLeft(after) < StepsLeft(c)
    {
      FinishingAdvances(c, action, max);
    }
  }

  lemma TruncatingInRange(c: InFlight, story: Story, log: seq<Record>, max: int)
    requires Faithful(c, story, log, max)
    ensures c.pc.Truncating? ==> c.pc.i <= |c.pc.current.content|
  {}

  /** The args of a record are the later-wins union of the attachments. */
  lemma {:induction false} ArgsAreLaterWinsUnion(rec: Record, all: seq<Attachment>, key: string)
    requires rec.args == map[]
    ensures var args := AttachAll(rec, all).args;
            key in args <==> exists i :: 0 <= i < |all| && all[i].Extra? && key in all[i].args
    ensures var args := AttachAll(rec, all).args;
            key in args ==>
              exists i :: 0 <= i < |all| && all[i].Extra? && key in all[i].args && args[key] == all[i].args[key] &&
                          forall j | i < j < |all| && all[j].Extra? :: key !in all[j].args
  {
    if all != [] {
      var init, last := all[..|all| - 1], all[|all| - 1];
      ArgsAreLaterWinsUnion(rec, init, key);
      if last.Extra? && key in last.args {
        assert all[|all| - 1].args[key] == AttachAll(rec, all).args[key];
      } else if key in AttachAll(rec, init).args {
        var i :| 0 <= i < |init| && init[i].Extra? && key in init[i].args &&
                 AttachAll(rec, init).args[key] == init[i].args[key] &&
                 forall j | i < j < |init| && init[j].Extra? :: key !in init[j].args;
        assert all[i] == init[i];
        forall j | i < j < |all| && all[j].Extra? ensures key !in all[j].args {
          if j < |init| { assert all[j] == init[j]; }
        }
      } else {
        forall i | 0 <= i < |all| && all[i].Extra? ensures key !in all[i].args {
          if i < |init| { assert all[i] == init[i]; }
        }
      }
    }
  }
}
