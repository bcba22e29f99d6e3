/** `rollout_undo` and `rollout_restart`: which revision an undo chooses, what its merge patch does
    to the live object, and what two undos in a row do. */
module Rollout {
  import opened Wrappers
  import opened Json
  import opened GoText
  import Sorting

  const REVISION := "deployment.kubernetes.io/revision"
  const RESTARTED_AT := "kubectl.kubernetes.io/restartedAt"
  const TEMPLATE: Path := ["spec", "template"]
  const RESTART: Path := ["spec", "template", "metadata", "annotations", RESTARTED_AT]

  datatype OwnerRef = OwnerRef(kind: string, name: string, controller: Option<bool>)

  datatype ReplicaSet = ReplicaSet(owners: seq<OwnerRef>, annotations: map<string, string>, template: Json)

  datatype Refusal = NotADeployment | NoHistory | RevisionNotFound | NoPreviousRevision | UnsupportedKind

  /** A tool error, an API error, or the patch was accepted. */
  datatype Outcome = Refused(why: Refusal) | ApiError | Patched(action: string)

  // ----- Which ReplicaSets count -----

  predicate OwnedBy(refs: seq<OwnerRef>, name: string, kind: string) {
    exists r | r in refs :: r.kind == kind && r.name == name && r.controller == Some(true)
  }

  function Annotation(annotations: map<string, string>, key: string): string {
    if key in annotations then annotations[key] else ""
  }

  predicate Eligible(rs: ReplicaSet, name: string) {
    OwnedBy(rs.owners, name, "Deployment") && Annotation(rs.annotations, REVISION) != ""
  }

  /** The owned ReplicaSets by revision; a later one in the list replaces an earlier one. */
  function ByRevision(sets: seq<ReplicaSet>, name: string): map<string, ReplicaSet> {
    if sets == [] then map[]
    else
      var rest, rs := ByRevision(sets[..|sets| - 1], name), sets[|sets| - 1];
      if Eligible(rs, name) then rest[Annotation(rs.annotations, REVISION) := rs] else rest
  }

  method CollectByRevision(sets: seq<ReplicaSet>, name: string) returns (byRev: map<string, ReplicaSet>)
    ensures byRev == ByRevision(sets, name)
  {
    byRev := map[];
    for i := 0 to |sets|
      invariant byRev == ByRevision(sets[..i], name)
    {
      assert sets[..i + 1][..i] == sets[..i];
      var rs := sets[i];
      if !OwnedBy(rs.owners, name, "Deployment") { continue; }
      var rev := Annotation(rs.annotations, REVISION);
      if rev == "" { continue; }
      byRev := byRev[rev := rs];
    }
    assert sets[..|sets|] == sets;
  }

  /** The ReplicaSet is controlled by the Deployment `name` and carries the revision `rev`. */
  predicate Counts(rs: ReplicaSet, name: string, rev: string) {
    && OwnerRef("Deployment", name, Some(true)) in rs.owners
    && "deployment.kubernetes.io/revision" in rs.annotations
    && rs.annotations["deployment.kubernetes.io/revision"] == rev != ""
  }

  lemma EligibleIff(rs: ReplicaSet, name: string, rev: string)
    ensures Counts(rs, name, rev) <==> Eligible(rs, name) && Annotation(rs.annotations, REVISION) == rev
  {
    if OwnedBy(rs.owners, name, "Deployment") {
      var r :| r in rs.owners && r.kind == "Deployment" && r.name == name && r.controller == Some(true);
      assert r == OwnerRef("Deployment", name, Some(true));
    }
    if OwnerRef("Deployment", name, Some(true)) in rs.owners {
      assert OwnerRef("Deployment", name, Some(true)).kind == "Deployment";
    }
  }

  /** For any list, a revision is in the history exactly when some ReplicaSet counts for it, and the history
      holds the last of those. */
  lemma {:induction false} CollectedIsLast(sets: seq<ReplicaSet>, name: string, rev: string)
    ensures rev in ByRevision(sets, name) <==> exists i :: 0 <= i < |sets| && Counts(sets[i], name, rev)
    ensures rev in ByRevision(sets, name) ==>
              exists i :: 0 <= i < |sets| && ByRevision(sets, name)[rev] == sets[i] && Counts(sets[i], name, rev) &&
                          forall j | i < j < |sets| :: !Counts(sets[j], name, rev)
  {
    if sets != [] {
      var n := |sets| - 1;
      var init := sets[..n];
      CollectedIsLast(init, name, rev);
      EligibleIff(sets[n], name, rev);
      assert forall k | 0 <= k < n :: init[k] == sets[k];
      if rev in ByRevision(sets, name) {
        var i :| 0 <= i < |sets| && (i == n <== Counts(sets[n], name, rev)) && ByRevision(sets, name)[rev] == sets[i] &&
                 Counts(sets[i], name, rev) && forall j | i < j < n :: !Counts(sets[j], name, rev);
      }
    }
  }

  /** The collected map holds exactly the ReplicaSets that count when no two of them count for one revision,
      and so does not depend on the order of the list. */
  lemma CollectedInAnyOrder(sets: seq<ReplicaSet>, name: string)
    requires forall i, j, rev | 0 <= i < j < |sets| && Counts(sets[i], name, rev) :: !Counts(sets[j], name, rev)
    ensures forall rev, rs :: (rev in ByRevision(sets, name) && ByRevision(sets, name)[rev] == rs) <==>
                              (rs in sets && Counts(rs, name, rev))
  {
    forall rev, rs
      ensures (rev in ByRevision(sets, name) && ByRevision(sets, name)[rev] == rs) <==>
              (rs in sets && Counts(rs, name, rev))
    {
      CollectedIsLast(sets, name, rev);
      if rs in sets && Counts(rs, name, rev) {
        var k :| 0 <= k < |sets| && sets[k] == rs;
        var i :| 0 <= i < |sets| && ByRevision(sets, name)[rev] == sets[i] && Counts(sets[i], name, rev);
        assert !(i < k) && !(k < i);
      }
    }
  }

  lemma HistoryIsCounted(sets: seq<ReplicaSet>, name: string)
    ensures forall rev | rev in ByRevision(sets, name) :: Counts(ByRevision(sets, name)[rev], name, rev)
    ensures ByRevision(sets, name) == map[] <==> forall rs, rev | rs in sets :: !Counts(rs, name, rev)
  {
    forall rev | rev in ByRevision(sets, name) ensures Counts(ByRevision(sets, name)[rev], name, rev) {
      CollectedIsLast(sets, name, rev);
    }
    forall rs, rev | rs in sets && Counts(rs, name, rev) ensures rev in ByRevision(sets, name) {
      CollectedIsLast(sets, name, rev);
    }
    if ByRevision(sets, name) != map[] {
      var rev :| rev in ByRevision(sets, name);
      CollectedIsLast(sets, name, rev);
    }
  }

  /** The ReplicaSets whose controlling owner is the Deployment `name`. */
  function Controlled(sets: seq<ReplicaSet>, name: string): seq<ReplicaSet> {
    if sets == [] then []
    else
      var last := sets[|sets| - 1];
      Controlled(sets[..|sets| - 1], name) +
      if OwnerRef("Deployment", name, Some(true)) in last.owners then [last] else []
  }

  /** Other ReplicaSets of the namespace are invisible: those of another Deployment, or owned by this one
      without being controlled by it. */
  lemma {:induction false} StrangersAreInvisible(sets: seq<ReplicaSet>, name: string)
    ensures ByRevision(Controlled(sets, name), name) == ByRevision(sets, name)
  {
    if sets != [] {
      var init, last := sets[..|sets| - 1], sets[|sets| - 1];
      StrangersAreInvisible(init, name);
      EligibleIff(last, name, Annotation(last.annotations, REVISION));
      if OwnerRef("Deployment", name, Some(true)) in last.owners {
        assert Controlled(sets, name)[..|Controlled(sets, name)| - 1] == Controlled(init, name);
      } else {
        assert Controlled(sets, name) == Controlled(init, name);
      }
    }
  }

  // ----- Which revision is chosen -----

  /** `a` does not come after `b` in descending numeric order. */
  predicate Newer(a: string, b: string) { Atoi(a) >= Atoi(b) }

  /** An order `sort.Slice` may leave the keys in, whatever order the map iteration produced. */
  ghost predicate IsRevisionOrder(revisions: set<string>, revs: seq<string>) {
    multiset(revs) == multiset(revisions) && Sorting.Ordered(Newer, revs)
  }

  method SortedRevisionsDesc(byRev: map<string, ReplicaSet>) returns (revs: seq<string>)
    ensures IsRevisionOrder(byRev.Keys, revs)
  {
    revs := [];
    var left := byRev.Keys;
    while left != {}
      invariant left <= byRev.Keys && multiset(revs) == multiset(byRev.Keys - left)
      decreases |left|
    {
      var r :| r in left;
      assert byRev.Keys - (left - {r}) == (byRev.Keys - left) + {r};
      left := left - {r};
      revs := revs + [r];
    }
    assert byRev.Keys - left == byRev.Keys;
    revs := Sorting.Sort(Newer, revs);
  }

  /** The position of the first revision that is not `current`, or the length. */
  function FirstOther(revs: seq<string>, current: string): (i: nat)
    ensures i <= |revs| && (i < |revs| ==> revs[i] != current)
    ensures forall j | 0 <= j < i :: revs[j] == current
  {
    if revs == [] || revs[0] != current then 0
    else
      var i := FirstOther(revs[1..], current);
      assert forall j | 0 < j < i + 1 :: revs[j] == revs[1..][j - 1];
      i + 1
  }

  function Pick(revs: seq<string>, current: string): Option<string> {
    var i := FirstOther(revs, current);
    if i < |revs| then Some(revs[i]) else None
  }

  method PickPrevious(revs: seq<string>, current: string) returns (pick: Option<string>)
    ensures pick == Pick(revs, current)
  {
    for i := 0 to |revs|
      invariant forall j | 0 <= j < i :: revs[j] == current
    {
      if revs[i] == current { continue; }
      return Some(revs[i]);
    }
    return None;
  }

  /** `r` is not the current revision, and no other such revision has a larger number. */
  ghost predicate IsPrevious(revisions: set<string>, current: string, r: string) {
    r in revisions && r != current && forall q | q in revisions && q != current :: Atoi(q) <= Atoi(r)
  }

  lemma OrderHasKeys(revisions: set<string>, revs: seq<string>)
    requires multiset(revs) == multiset(revisions)
    ensures forall r :: r in revs <==> r in revisions
    ensures forall i, j | 0 <= i < j < |revs| :: revs[i] != revs[j]
  {
    assert forall r :: r in revs <==> r in multiset(revs);
    forall i, j | 0 <= i < j < |revs| ensures revs[i] != revs[j] {
      assert revs == revs[..i] + [revs[i]] + revs[i + 1..j] + [revs[j]] + revs[j + 1..];
      assert multiset(revs)[revs[i]] <= 1;
    }
  }

  /** Whatever the sort did with ties, an unnamed undo chooses a numerically largest revision other
      than the current one, and finds none exactly when no other revision exists. */
  lemma UndoPicksNewestOther(revisions: set<string>, revs: seq<string>, current: string)
    requires IsRevisionOrder(revisions, revs)
    ensures Pick(revs, current).None? <==> forall r | r in revisions :: r == current
    ensures Pick(revs, current).Some? ==> IsPrevious(revisions, current, Pick(revs, current).value)
  {
    OrderHasKeys(revisions, revs);
    var i := FirstOther(revs, current);
    if i < |revs| {
      assert revs[i] in revs;
      forall q | q in revisions && q != current ensures Atoi(q) <= Atoi(revs[i]) {
        assert q in revs;
        var k :| 0 <= k < |revs| && revs[k] == q;
        if k != i { assert i < k; assert Newer(revs[i], revs[k]); }
      }
    }
  }

  /** One of the revisions other than the current one has a larger number than all the rest of them. */
  ghost predicate OneNewestOther(revisions: set<string>, current: string) {
    exists r :: r in revisions && r != current &&
      forall q | q in revisions && q != current && q != r :: Atoi(q) < Atoi(r)
  }

  /** The choice is the same for every order the sort may produce exactly when there is nothing to choose
      from or one of the candidates is the only newest one. */
  lemma {:induction false} ChoiceIsOrderFreeIff(revisions: set<string>, revs: seq<string>, current: string)
    requires IsRevisionOrder(revisions, revs)
    ensures (forall other | IsRevisionOrder(revisions, other) :: Pick(other, current) == Pick(revs, current)) <==>
            (forall r | r in revisions :: r == current) || OneNewestOther(revisions, current)
  {
    if (forall r | r in revisions :: r == current) || OneNewestOther(revisions, current) {
      forall other | IsRevisionOrder(revisions, other) ensures Pick(other, current) == Pick(revs, current) {
        SameChoice(revisions, revs, other, current);
      }
    } else {
      var other := OtherChoice(revisions, revs, current);
    }
  }

  lemma OtherChoice(revisions: set<string>, revs: seq<string>, current: string) returns (other: seq<string>)
    requires IsRevisionOrder(revisions, revs)
    requires !(forall r | r in revisions :: r == current) && !OneNewestOther(revisions, current)
    ensures IsRevisionOrder(revisions, other) && Pick(other, current) != Pick(revs, current)
  {
    UndoPicksNewestOther(revisions, revs, current);
    var p := Pick(revs, current).value;
    var q := TiedWith(revisions, current, p);
    TieCanGoEitherWay(revisions, revs, current, q);
    other :| IsRevisionOrder(revisions, other) && Pick(other, current) == Some(q);
  }

  lemma {:induction false} SameChoice(revisions: set<string>, revs: seq<string>, other: seq<string>, current: string)
    requires IsRevisionOrder(revisions, revs) && IsRevisionOrder(revisions, other)
    requires (forall r | r in revisions :: r == current) || OneNewestOther(revisions, current)
    ensures Pick(other, current) == Pick(revs, current)
  {
    UndoPicksNewestOther(revisions, revs, current);
    UndoPicksNewestOther(revisions, other, current);
  }

  lemma TiedWith(revisions: set<string>, current: string, p: string) returns (q: string)
    requires IsPrevious(revisions, current, p) && !OneNewestOther(revisions, current)
    ensures q in revisions && q != current && q != p && Atoi(q) == Atoi(p)
  {
    q :| q in revisions && q != current && q != p && Atoi(q) >= Atoi(p);
  }

  /** A tie may be sorted the other way round, and then the other revision is chosen. */
  lemma TieCanGoEitherWay(revisions: set<string>, revs: seq<string>, current: string, q: string)
    requires IsRevisionOrder(revisions, revs) && Pick(revs, current).Some?
    requires q in revisions && q != current && q != Pick(revs, current).value
    requires Atoi(q) == Atoi(Pick(revs, current).value)
    ensures exists other :: IsRevisionOrder(revisions, other) && Pick(other, current) == Some(q)
  {
    OrderHasKeys(revisions, revs);
    assert q in revs;
    var i := FirstOther(revs, current);
    var k :| 0 <= k < |revs| && revs[k] == q;
    SwappedTie(revs, i, k);
    SwappedPick(revs, current, i, k);
    assert IsRevisionOrder(revisions, revs[i := revs[k]][k := revs[i]]);
  }

  lemma SwappedPick(revs: seq<string>, current: string, i: nat, k: nat)
    requires i == FirstOther(revs, current) < |revs| && k < |revs| && revs[k] != current
    ensures Pick(revs[i := revs[k]][k := revs[i]], current) == Some(revs[k])
  {
    var other := revs[i := revs[k]][k := revs[i]];
    assert i <= k && other[i] == revs[k];
    assert forall j | 0 <= j < i :: other[j] == revs[j] == current;
    assert FirstOther(other, current) == i;
  }

  lemma SwappedTie(revs: seq<string>, i: nat, k: nat)
    requires Sorting.Ordered(Newer, revs) && i < |revs| && k < |revs| && Atoi(revs[i]) == Atoi(revs[k])
    ensures var other := revs[i := revs[k]][k := revs[i]];
            multiset(other) == multiset(revs) && Sorting.Ordered(Newer, other)
  {
    var other := revs[i := revs[k]][k := revs[i]];
    assert forall a | 0 <= a < |revs| :: Atoi(other[a]) == Atoi(revs[a]);
    forall a, b | 0 <= a < b < |other| ensures Newer(other[a], other[b]) {
      assert Newer(revs[a], revs[b]);
    }
  }

  /** When the current revision could not be read it is the empty string, nothing is skipped, and
      the undo chooses the largest revision of all. */
  lemma UnknownCurrentPicksNewest(revisions: set<string>, revs: seq<string>)
    requires IsRevisionOrder(revisions, revs) && "" !in revisions && revisions != {}
    ensures Pick(revs, "").Some? && Pick(revs, "").value in revisions
    ensures forall q | q in revisions :: Atoi(q) <= Atoi(Pick(revs, "").value)
  {
    UndoPicksNewestOther(revisions, revs, "");
    var r :| r in revisions;
    assert r != "";
  }

  /** The documented fallback replaces an unread current revision by the highest ReplicaSet revision. The
      code chooses what the fallback would exactly when the current revision was read. */
  lemma FallbackKeptIff(revisions: set<string>, revs: seq<string>, current: string)
    requires IsRevisionOrder(revisions, revs) && revs != [] && "" !in revisions
    ensures Pick(revs, current) == Pick(revs, if current == "" then revs[0] else current) <==> current != ""
  {
    OrderHasKeys(revisions, revs);
    assert revs[0] in revs;
    if current == "" {
      assert Pick(revs, "") == Some(revs[0]);
      UndoPicksNewestOther(revisions, revs, revs[0]);
    }
  }

  /** An undo goes to a newest revision of all exactly when some newest revision is not the current one. */
  lemma PicksNewestOfAllIff(revisions: set<string>, revs: seq<string>, current: string)
    requires IsRevisionOrder(revisions, revs)
    ensures (Pick(revs, current).Some? && forall q | q in revisions :: Atoi(q) <= Atoi(Pick(revs, current).value)) <==>
            exists r :: r in revisions && r != current && forall q | q in revisions :: Atoi(q) <= Atoi(r)
  {
    UndoPicksNewestOther(revisions, revs, current);
  }

  // ----- The patches -----

  function Template(obj: Json): Json { Child(Child(obj, "spec"), "template") }

  function UndoPatch(template: Json): Json { Nest(TEMPLATE, template) }

  /** An undo leaves everything outside the template alone, merges the chosen template into the live
      one, and so restores it exactly when the live one has no extra object member. */
  lemma UndoEffect(obj: Json, template: Json, path: Path)
    requires template.Obj?
    ensures Template(MergePatch(obj, UndoPatch(template))) == MergePatch(Template(obj), template)
    ensures Diverge(TEMPLATE, path) ==> Lookup(MergePatch(obj, UndoPatch(template)), path) == Lookup(obj, path)
    ensures Template(MergePatch(obj, UndoPatch(template))) == Strip(template)
       <==> NoExtraKeys(Template(obj), template)
  {
    var patch := UndoPatch(template);
    assert Nest(["template"], template) == Obj(map["template" := Nest(["template"][1..], template)]);
    assert TEMPLATE[1..] == ["template"] && patch == Obj(map["spec" := Nest(TEMPLATE[1..], template)]);
    assert Child(MergePatch(obj, patch), "spec") == MergePatch(Child(obj, "spec"), patch.fields["spec"]);
    PatchReplacesIff(Template(obj), template);
    if Diverge(TEMPLATE, path) {
      PatchAtPath(obj, patch, path);
      if path[0] != "spec" {
        assert path[..0] == [] && Unmentioned(patch, path[..0], path[0]);
      } else {
        assert Diverge(TEMPLATE[1..], path[1..]) && !Diverge(TEMPLATE[1..][1..], path[1..][1..]);
        assert path[1..][0] != "template";
        assert path[..1] == ["spec"] && path[1] != "template";
        assert Lookup(patch, ["spec"]) == Some(patch.fields["spec"]);
        assert Unmentioned(patch, path[..1], path[1]);
      }
    }
  }

  /** A member added since the chosen revision survives the undo. */
  lemma UndoKeepsAddedMember()
    ensures var past := Obj(map["image" := Str("v1")]);
            var live := Obj(map["image" := Str("v2"), "debug" := Bool(true)]);
            MergePatch(live, past) == Obj(map["image" := Str("v1"), "debug" := Bool(true)]) != Strip(past)
  {
    var past := Obj(map["image" := Str("v1")]);
    var live := Obj(map["image" := Str("v2"), "debug" := Bool(true)]);
    assert MergePatch(live, past).fields == map["image" := Str("v1"), "debug" := Bool(true)];
    assert "debug" !in Strip(past).fields && "debug" in MergePatch(live, past).fields;
  }

  /** A restart sets one annotation, creating objects on the way; nothing that parts from that path
      changes, and a later restart overwrites an earlier one. */
  lemma RestartEffect(obj: Json, now: string, later: string, path: Path)
    ensures MergePatch(obj, Nest(RESTART, Str(now))) == SetPath(obj, RESTART, Str(now))
    ensures Lookup(SetPath(obj, RESTART, Str(now)), RESTART) == Some(Str(now))
    ensures Diverge(RESTART, path) ==> Lookup(SetPath(obj, RESTART, Str(now)), path) == Lookup(obj, path)
    ensures MergePatch(MergePatch(obj, Nest(RESTART, Str(now))), Nest(RESTART, Str(later)))
         == MergePatch(obj, Nest(RESTART, Str(later)))
  {
    NestedPatchSetsPath(obj, RESTART, Str(now));
    NestedPatchSetsPath(obj, RESTART, Str(later));
    NestedPatchSetsPath(SetPath(obj, RESTART, Str(now)), RESTART, Str(later));
    SetPathReads(obj, RESTART, Str(now));
    SetPathOverwrites(obj, RESTART, Str(now), Str(later));
    if Diverge(RESTART, path) { SetPathFrame(obj, RESTART, Str(now), path); }
  }

  /** Where the annotation of a restart ends up. */
  lemma RestartedAtIsSet(obj: Json, now: string)
    ensures Some(Str(now)) == Lookup(MergePatch(obj, Nest(RESTART, Str(now))),
              ["spec", "template", "metadata", "annotations", "kubectl.kubernetes.io/restartedAt"])
  {
    RestartEffect(obj, now, now, []);
  }

  // ----- The handlers -----

  datatype Workload = DeploymentKind | StatefulSetKind | DaemonSetKind

  function ControllerKind(kind: string): Option<Workload> {
    var k := ToLower(kind);
    if k == "deployment" || k == "deploy" then Some(DeploymentKind)
    else if k == "statefulset" || k == "sts" then Some(StatefulSetKind)
    else if k == "daemonset" || k == "ds" then Some(DaemonSetKind)
    else None
  }

  /** The kinds a rollout accepts, in any case. */
  lemma ControllerKindIff(kind: string)
    ensures ControllerKind(kind) == Some(DeploymentKind) <==> Spells(kind, "deployment") || Spells(kind, "deploy")
    ensures ControllerKind(kind) == Some(StatefulSetKind) <==> Spells(kind, "statefulset") || Spells(kind, "sts")
    ensures ControllerKind(kind) == Some(DaemonSetKind) <==> Spells(kind, "daemonset") || Spells(kind, "ds")
  {
    ToLowerIff(kind, "deployment");
    ToLowerIff(kind, "deploy");
    ToLowerIff(kind, "statefulset");
    ToLowerIff(kind, "sts");
    ToLowerIff(kind, "daemonset");
    ToLowerIff(kind, "ds");
  }

  lemma DeploymentsAreKnown()
    ensures ControllerKind("Deployment").Some?
  {
    ControllerKindIff("Deployment");
  }

  /** The revision a Deployment object reports, or nothing. */
  function CurrentRevision(obj: Json, getFails: bool): string {
    var at := Lookup(obj, ["metadata", "annotations", REVISION]);
    if !getFails && at.Some? && at.value.Str? then at.value.s else ""
  }

  lemma CurrentRevisionIff(obj: Json, getFails: bool, rev: string)
    requires rev != ""
    ensures CurrentRevision(obj, getFails) == rev <==>
            !getFails && Lookup(obj, ["metadata", "annotations", "deployment.kubernetes.io/revision"]) == Some(Str(rev))
  {}

  /** One workload object as the API server holds it. The flags say which API requests fail. */
  class Controller {
    var obj: Json

    method Mutate(kind: string, patch: Json, action: string, patchFails: bool) returns (r: Outcome)
      modifies this
      ensures r == if ControllerKind(kind).None? then Refused(UnsupportedKind)
                   else if patchFails then ApiError else Patched(action)
      ensures obj == if r.Patched? then MergePatch(old(obj), patch) else old(obj)
    {
      if ControllerKind(kind).None? { return Refused(UnsupportedKind); }
      if patchFails { return ApiError; }
      obj := MergePatch(obj, patch);
      return Patched(action);
    }

    method RolloutRestart(kind: string, now: string, patchFails: bool) returns (r: Outcome)
      modifies this
      ensures r.Patched? <==> ControllerKind(kind).Some? && !patchFails
      ensures r.Patched? ==> r.action == "restart"
      ensures obj == if r.Patched? then SetPath(old(obj), RESTART, Str(now)) else old(obj)
    {
      RestartEffect(obj, now, now, []);
      r := Mutate(kind, Nest(RESTART, Str(now)), "restart", patchFails);
    }

    method RolloutUndo(kind: string, name: string, revision: string, list: Option<seq<ReplicaSet>>,
                       getFails: bool, patchFails: bool) returns (r: Outcome, chosen: string)
      requires list.Some? ==> forall rs | rs in list.value :: rs.template.Obj?
      modifies this
      ensures !EqualFold(kind, "deployment") ==> r == Refused(NotADeployment)
      ensures EqualFold(kind, "deployment") && list.None? ==> r == ApiError
      ensures EqualFold(kind, "deployment") && list.Some? ==>
        var byRev := ByRevision(list.value, name);
        var current := CurrentRevision(old(obj), getFails);
        && (r == Refused(NoHistory) <==> byRev == map[])
        && (r == Refused(NoHistory) <==> forall rs, rev | rs in list.value :: !Counts(rs, name, rev))
        && (r == Refused(RevisionNotFound) <==> byRev != map[] && revision != "" && revision !in byRev)
        && (r == Refused(NoPreviousRevision) <==>
              byRev != map[] && revision == "" && forall q | q in byRev :: q == current)
        && (r == ApiError || r.Patched? ==>
              && chosen in byRev
              && Counts(byRev[chosen], name, chosen)
              && (r == ApiError <==> patchFails)
              && (if revision != "" then chosen == revision else IsPrevious(byRev.Keys, current, chosen))
              && (r.Patched? ==> Template(obj) == MergePatch(Template(old(obj)), byRev[chosen].template)))
      ensures !r.Patched? ==> obj == old(obj)
      ensures r != Refused(UnsupportedKind) && (r.Patched? ==> r.action == "rollback to revision " + chosen)
      ensures forall path | Diverge(TEMPLATE, path) :: Lookup(obj, path) == Lookup(old(obj), path)
    {
      chosen := "";
      if !EqualFold(kind, "deployment") { return Refused(NotADeployment), ""; }
      if list.None? { return ApiError, ""; }
      var byRev := CollectByRevision(list.value, name);
      HistoryIsCounted(list.value, name);
      if |byRev| == 0 { return Refused(NoHistory), ""; }
      if revision != "" {
        if revision !in byRev { return Refused(RevisionNotFound), ""; }
        chosen := revision;
      } else {
        var revs := SortedRevisionsDesc(byRev);
        UndoPicksNewestOther(byRev.Keys, revs, CurrentRevision(obj, getFails));
        var pick := PickPrevious(revs, CurrentRevision(obj, getFails));
        if pick.None? { return Refused(NoPreviousRevision), ""; }
        chosen := pick.value;
      }
      CollectedFromList(list.value, name, chosen);
      DeploymentsAreKnown();
      var template := byRev[chosen].template;
      UndoEffect(obj, template, []);
      forall path: Path | Diverge(TEMPLATE, path)
        ensures Lookup(MergePatch(obj, UndoPatch(template)), path) == Lookup(obj, path)
      {
        UndoEffect(obj, template, path);
      }
      r := Mutate("Deployment", UndoPatch(template), "rollback to revision " + chosen, patchFails);
    }
  }

  lemma {:induction false} CollectedFromList(sets: seq<ReplicaSet>, name: string, rev: string)
    requires rev in ByRevision(sets, name)
    ensures ByRevision(sets, name)[rev] in sets && rev != ""
  {
    var init, last := sets[..|sets| - 1], sets[|sets| - 1];
    if !(Eligible(last, name) && Annotation(last.annotations, REVISION) == rev) {
      CollectedFromList(init, name, rev);
      assert ByRevision(sets, name)[rev] in init;
    }
  }

  // ----- Two undos in a row -----

  /** The live template, the revision the Deployment reports, and its ReplicaSets' templates. */
  datatype History = History(live: Json, current: string, sets: map<string, Json>)

  /** What the Deployment controller maintains: the current ReplicaSet carries the live template and
      the highest revision, and revisions are distinct numbers. */
  ghost predicate Consistent(h: History) {
    && h.current in h.sets && h.live == Strip(h.sets[h.current])
    && (forall r | r in h.sets :: h.sets[r].Obj?)
    && (forall r | r in h.sets && r != h.current :: Atoi(r) < Atoi(h.current))
    && (forall r, q | r in h.sets && q in h.sets && r != q :: Atoi(r) != Atoi(q))
  }

  /** The controller's answer to a new live template: the ReplicaSet that carries it (`matched`), or
      a new one when there is none, becomes current under a revision above all others. */
  ghost predicate Adopts(before: map<string, Json>, matched: Option<string>, after: History) {
    && (match matched
        case Some(m) => m in before && Strip(before[m]) == after.live
        case None => forall r | r in before :: Strip(before[r]) != after.live)
    && var others := if matched.Some? then before - {matched.value} else before;
       && after.current !in others
       && (forall r | r in others :: Atoi(r) < Atoi(after.current))
       && (exists t: Json :: t.Obj? && Strip(t) == after.live && after.sets == others[after.current := t])
  }

  /** An unnamed undo that rolls back to `r`, followed by the controller. */
  ghost predicate UndoStep(h: History, r: string, matched: Option<string>, after: History) {
    && IsPrevious(h.sets.Keys, h.current, r)
    && after.live == MergePatch(h.live, h.sets[r])
    && Adopts(h.sets, matched, after)
  }

  lemma UndoKeepsConsistent(h: History, r: string, matched: Option<string>, after: History)
    requires Consistent(h) && UndoStep(h, r, matched, after)
    ensures Consistent(after)
  {
    AdoptionIsConsistent(h.sets, matched, after);
  }

  lemma AdoptionIsConsistent(before: map<string, Json>, matched: Option<string>, after: History)
    requires Adopts(before, matched, after)
    requires forall r | r in before :: before[r].Obj?
    requires forall r, q | r in before && q in before && r != q :: Atoi(r) != Atoi(q)
    ensures Consistent(after)
  {
    var others := if matched.Some? then before - {matched.value} else before;
    var t: Json :| t.Obj? && Strip(t) == after.live && after.sets == others[after.current := t];
    assert others.Keys <= before.Keys && after.sets.Keys == others.Keys + {after.current};
    HighestIsDistinct(others.Keys, after.current);
  }

  lemma HighestIsDistinct(revisions: set<string>, top: string)
    requires forall r, q | r in revisions && q in revisions && r != q :: Atoi(r) != Atoi(q)
    requires forall r | r in revisions :: Atoi(r) < Atoi(top)
    ensures forall r, q | r in revisions + {top} && q in revisions + {top} && r != q :: Atoi(r) != Atoi(q)
  {}

  /** The second undo goes back to the template the first one left, unless the first one changed
      nothing: then it makes the same choice again. */
  lemma SecondChoice(h: History, r1: string, m1: Option<string>, h1: History, r2: string)
    requires Consistent(h) && UndoStep(h, r1, m1, h1) && IsPrevious(h1.sets.Keys, h1.current, r2)
    ensures r2 in h.sets && h1.sets[r2] == h.sets[r2]
    ensures if m1 == Some(h.current) then r2 == r1 && h1.live == h.live else r2 == h.current
  {
    var others := if m1.Some? then h.sets - {m1.value} else h.sets;
    var t: Json :| t.Obj? && Strip(t) == h1.live && h1.sets == others[h1.current := t];
    assert r2 in others && h1.sets[r2] == h.sets[r2];
    if m1 == Some(h.current) {
      assert r1 in h1.sets && r1 != h1.current;
    } else {
      assert h.current in h1.sets && h.current != h1.current;
    }
  }

  lemma ThereAndBackIff(start: Json, there: Json)
    ensures MergePatch(MergePatch(Strip(start), there), start) == Strip(start) <==> NoExtraKeys(Strip(there), start)
    ensures MergePatch(Strip(start), there) == Strip(start) ==> NoExtraKeys(Strip(there), start)
  {
    PatchReplacesIff(MergePatch(Strip(start), there), start);
    ExtraKeysThereAndBack(start, there);
    NoExtraInStripped(start);
  }

  /** Two unnamed undos in a row restore the live template exactly when the revision visited in
      between has no object member the starting template does not mention. */
  lemma TwoUndosRestoreIff(h: History, r1: string, m1: Option<string>, h1: History,
                           r2: string, m2: Option<string>, h2: History)
    requires Consistent(h) && UndoStep(h, r1, m1, h1) && UndoStep(h1, r2, m2, h2)
    ensures h2.live == h.live <==> NoExtraKeys(Strip(h.sets[r1]), h.sets[h.current])
  {
    SecondChoice(h, r1, m1, h1, r2);
    ThereAndBackIff(h.sets[h.current], h.sets[r1]);
  }

  /** Numbering the adopted ReplicaSet with any number above the others', the highest plus one for
      instance, is an answer the controller may give. */
  lemma NextRevisionIsAdopted(before: map<string, Json>, live: Json, matched: Option<string>, n: nat)
    requires live.Obj? && Strip(live) == live && n <= MAX_INT
    requires match matched
             case Some(m) => m in before && before[m].Obj? && Strip(before[m]) == live
             case None => forall r | r in before :: Strip(before[r]) != live
    requires forall r | r in before && matched != Some(r) :: Atoi(r) < n
    ensures var others := if matched.Some? then before - {matched.value} else before;
            var t := if matched.Some? then before[matched.value] else live;
            Adopts(before, matched, History(live, Itoa(n), others[Itoa(n) := t]))
  {
    AtoiItoa(n);
  }

  /** From every consistent history with another revision an unnamed undo goes through, and the
      controller can adopt what it leaves: no run of undos gets stuck while revision numbers last. */
  lemma UndoNeverStuck(h: History, r: string)
    requires Consistent(h) && IsPrevious(h.sets.Keys, h.current, r) && 0 <= Atoi(h.current) < MAX_INT
    ensures exists matched, after :: UndoStep(h, r, matched, after) && Atoi(after.current) == Atoi(h.current) + 1
  {
    var live, n := MergePatch(h.live, h.sets[r]), Atoi(h.current) + 1;
    StripTwice(h.sets[h.current]);
    PatchedHasNoNulls(h.live, h.sets[r]);
    AtoiItoa(n);
    var matched, after := SomeAdoption(h.sets, live, n);
    assert UndoStep(h, r, matched, after);
  }

  lemma SomeAdoption(before: map<string, Json>, live: Json, n: nat) returns (matched: Option<string>, after: History)
    requires live.Obj? && Strip(live) == live && n <= MAX_INT
    requires forall r | r in before :: before[r].Obj? && Atoi(r) < n
    ensures Adopts(before, matched, after) && after.live == live && after.current == Itoa(n)
  {
    if m :| m in before && Strip(before[m]) == live {
      matched := Some(m);
      after := History(live, Itoa(n), (before - {m})[Itoa(n) := before[m]]);
    } else {
      matched := None;
      after := History(live, Itoa(n), before[Itoa(n) := live]);
    }
    NextRevisionIsAdopted(before, live, matched, n);
  }

  /** `after` is what one unnamed undo makes of `h`, whose chosen template removes nothing by a null. */
  ghost predicate Undone(h: History, after: History) {
    exists r, matched :: UndoStep(h, r, matched, after) && NullsMeetNothing(h.sets[r], h.live)
  }

  /** A run of unnamed undos. */
  ghost predicate UndoRun(run: seq<History>) {
    run != [] && Consistent(run[0]) && forall i | 0 <= i < |run| - 1 :: Undone(run[i], run[i + 1])
  }

  /** After a first undo, two more come back to what that one left, whatever members the two templates
      mention: the patches have by then given each template all members of the other. */
  lemma ThirdUndoRepeats(h0: History, r0: string, m0: Option<string>, h1: History,
                         r1: string, m1: Option<string>, h2: History,
                         r2: string, m2: Option<string>, h3: History)
    requires Consistent(h0) && UndoStep(h0, r0, m0, h1) && NullsMeetNothing(h0.sets[r0], h0.live)
    requires UndoStep(h1, r1, m1, h2) && UndoStep(h2, r2, m2, h3)
    ensures h3.live == h1.live
  {
    UndoKeepsConsistent(h0, r0, m0, h1);
    SecondChoice(h0, r0, m0, h1, r1);
    TwoUndosRestoreIff(h1, r1, m1, h2, r2, m2, h3);
    StripTwice(h0.sets[h0.current]);
    if m0 == Some(h0.current) {
      ThereAndBackIff(h0.live, h0.sets[r0]);
      NullsMentionMore(Strip(h0.sets[r0]), h1.sets[h1.current]);
    } else {
      MergedMentionsIff(h0.live, h0.sets[r0]);
      NullsMentionMore(h0.live, h1.sets[h1.current]);
    }
  }

  /** And when the ReplicaSet adopted in between stores no nulls, they do so only then: what a null of the
      first chosen template removed does not come back. */
  lemma ThirdUndoRepeatsIff(h0: History, r0: string, m0: Option<string>, h1: History,
                            r1: string, m1: Option<string>, h2: History,
                            r2: string, m2: Option<string>, h3: History)
    requires Consistent(h0) && UndoStep(h0, r0, m0, h1)
    requires UndoStep(h1, r1, m1, h2) && UndoStep(h2, r2, m2, h3)
    requires h1.current in h1.sets && Strip(h1.sets[h1.current]) == h1.sets[h1.current]
    ensures h3.live == h1.live <==> NullsMeetNothing(h0.sets[r0], h0.live)
  {
    if NullsMeetNothing(h0.sets[r0], h0.live) {
      ThirdUndoRepeats(h0, r0, m0, h1, r1, m1, h2, r2, m2, h3);
    }
    UndoKeepsConsistent(h0, r0, m0, h1);
    SecondChoice(h0, r0, m0, h1, r1);
    TwoUndosRestoreIff(h1, r1, m1, h2, r2, m2, h3);
    StripTwice(h0.sets[h0.current]);
    NoExtraInStripped(h0.live);
    MergedMentionsIff(h0.live, h0.sets[r0]);
  }

  lemma ThreeUndone(h0: History, h1: History, h2: History, h3: History)
    requires Consistent(h0) && Undone(h0, h1) && Undone(h1, h2) && Undone(h2, h3)
    ensures h3.live == h1.live
  {
    var r0, m0 :| UndoStep(h0, r0, m0, h1) && NullsMeetNothing(h0.sets[r0], h0.live);
    var r1, m1 :| UndoStep(h1, r1, m1, h2);
    var r2, m2 :| UndoStep(h2, r2, m2, h3);
    ThirdUndoRepeats(h0, r0, m0, h1, r1, m1, h2, r2, m2, h3);
  }

  lemma UndoneKeepsConsistent(h: History, after: History)
    requires Consistent(h) && Undone(h, after)
    ensures Consistent(after)
  {
    var r, matched :| UndoStep(h, r, matched, after);
    UndoKeepsConsistent(h, r, matched, after);
  }

  /** What holds of the states two apart in every piece of four that starts in a good state holds along a
      whole run. */
  lemma {:induction false} EverySecond<S(!new)>(run: seq<S>, good: S -> bool, step: (S, S) -> bool,
                                                alike: (S, S) -> bool, i: nat, k: nat)
    requires 1 <= i && i + 2 * k < |run|
    requires good(run[0]) && forall n | 0 <= n < |run| - 1 :: step(run[n], run[n + 1])
    requires forall s, t | good(s) && step(s, t) :: good(t)
    requires forall s, t, u, v | good(s) && step(s, t) && step(t, u) && step(u, v) :: alike(t, v)
    requires forall s, t, u | alike(s, t) && alike(t, u) :: alike(s, u)
    requires forall s :: alike(s, s)
    ensures alike(run[i], run[i + 2 * k])
    decreases k
  {
    if k > 0 {
      var j := i + 2 * k;
      EverySecond(run, good, step, alike, i, k - 1);
      GoodThroughout(run, good, step, j - 3);
      assert step(run[j - 3], run[j - 3 + 1]) && step(run[j - 2], run[j - 2 + 1]) && step(run[j - 1], run[j - 1 + 1]);
    }
  }

  lemma {:induction false} GoodThroughout<S(!new)>(run: seq<S>, good: S -> bool, step: (S, S) -> bool, i: nat)
    requires i < |run| && good(run[0]) && forall k | 0 <= k < |run| - 1 :: step(run[k], run[k + 1])
    requires forall s, t | good(s) && step(s, t) :: good(t)
    ensures good(run[i])
  {
    if i > 0 {
      GoodThroughout(run, good, step, i - 1);
      assert step(run[i - 1], run[i - 1 + 1]);
    }
  }

  /** In a run of unnamed undos of any length, between any two templates, every template left by an undo is
      back after every second further undo. */
  lemma {:induction false} UndosRepeat(run: seq<History>, i: nat, k: nat)
    requires UndoRun(run) && 1 <= i && i + 2 * k < |run|
    ensures run[i + 2 * k].live == run[i].live
  {
    forall s, t | Consistent(s) && Undone(s, t) ensures Consistent(t) {
      UndoneKeepsConsistent(s, t);
    }
    var alike := (s: History, t: History) => s.live == t.live;
    forall s, t, u, v | Consistent(s) && Undone(s, t) && Undone(t, u) && Undone(u, v) ensures alike(t, v) {
      ThreeUndone(s, t, u, v);
    }
    EverySecond(run, Consistent, Undone, alike, i, k);
  }

  /** The history `h` shows `x` now and would undo to `y`. */
  ghost predicate Showing(h: History, x: Json, y: Json) {
    Consistent(h) && h.live == x && forall r | IsPrevious(h.sets.Keys, h.current, r) :: h.sets[r] == y
  }

  /** Whether the starting template too comes back, and is all that the others alternate with: when the two
      templates mention the same members, an even number of undos always restores it and an odd number
      always gives the other one. */
  lemma {:induction false} UndosAlternate(run: seq<History>, x: Json, y: Json, k: nat)
    requires UndoRun(run) && Showing(run[0], x, y) && NoExtraKeys(x, y) && NoExtraKeys(y, x)
    ensures 2 * k < |run| ==> run[2 * k].live == x
    ensures 2 * k + 1 < |run| ==> run[2 * k + 1].live == Strip(y)
  {
    if 2 * k < |run| { EvenUndosRestore(run, x, y, k); }
    if 2 * k + 1 < |run| { OddUndosShow(run, x, y, k); }
  }

  lemma {:induction false} OddUndosShow(run: seq<History>, x: Json, y: Json, k: nat)
    requires UndoRun(run) && 2 * k + 1 < |run| && Showing(run[0], x, y) && NoExtraKeys(x, y)
    ensures run[2 * k + 1].live == Strip(y)
  {
    FirstUndoShows(run, x, y);
    UndosRepeat(run, 1, k);
  }

  lemma {:induction false} EvenUndosRestore(run: seq<History>, x: Json, y: Json, k: nat)
    requires UndoRun(run) && 2 * k < |run| && Showing(run[0], x, y) && NoExtraKeys(y, x)
    ensures run[2 * k].live == x
  {
    if k > 0 {
      SecondUndoRestores(run, x, y);
      UndosRepeat(run, 2, k - 1);
    }
  }

  lemma FirstUndoShows(run: seq<History>, x: Json, y: Json)
    requires UndoRun(run) && |run| > 1 && Showing(run[0], x, y) && NoExtraKeys(x, y)
    ensures run[1].live == Strip(y)
  {
    assert Undone(run[0], run[0 + 1]);
    PatchReplacesIff(x, y);
  }

  lemma SecondUndoRestores(run: seq<History>, x: Json, y: Json)
    requires UndoRun(run) && |run| > 2 && Showing(run[0], x, y) && NoExtraKeys(y, x)
    ensures run[2].live == x
  {
    assert Undone(run[0], run[0 + 1]) && Undone(run[1], run[1 + 1]);
    BackAndForth(run[0], run[1], run[2], x, y);
  }

  lemma BackAndForth(h: History, h1: History, h2: History, x: Json, y: Json)
    requires Showing(h, x, y) && NoExtraKeys(y, x) && Undone(h, h1) && Undone(h1, h2)
    ensures h2.live == x
  {
    var r1, m1 :| UndoStep(h, r1, m1, h1);
    var r2, m2 :| UndoStep(h1, r2, m2, h2);
    TwoUndosRestoreIff(h, r1, m1, h1, r2, m2, h2);
    StrippedHasNoMore(y, x);
    NullsMentionMore(Strip(y), h.sets[h.current]);
  }

  /** A consistent history shows its live template and the template the next undo goes to. */
  lemma StartShows(h: History, r: string)
    requires Consistent(h) && IsPrevious(h.sets.Keys, h.current, r)
    ensures Showing(h, h.live, h.sets[r])
  {
    forall q | IsPrevious(h.sets.Keys, h.current, q) ensures h.sets[q] == h.sets[r] {
      assert Atoi(q) == Atoi(r);
    }
  }

  // ----- With the label the controller puts on every ReplicaSet template -----

  const HASH: Path := ["metadata", "labels", "pod-template-hash"]

  /** A template as the Deployment controller compares it: without its hash label. */
  function Bare(template: Json): Json { DropAt(template, HASH) }

  lemma BareDropsOnlyTheHash(template: Json, path: Path)
    ensures Lookup(Bare(template), ["metadata", "labels", "pod-template-hash"]) == None
    ensures Diverge(["metadata", "labels", "pod-template-hash"], path) ==>
              Lookup(Bare(template), path) == Lookup(template, path)
  {
    DropAtReads(template, HASH);
    if Diverge(HASH, path) { DropAtFrame(template, HASH, path); }
  }

  function BareAll(sets: map<string, Json>): map<string, Json> { map r | r in sets :: Bare(sets[r]) }

  function BareHistory(h: History): History { History(Bare(h.live), h.current, BareAll(h.sets)) }

  /** The controller's answer, as `Adopts`, but with labels: the adopted ReplicaSet may carry any hash
      label and the live template any or none, and every other ReplicaSet stays exactly as it is. */
  ghost predicate AdoptsLabelled(before: map<string, Json>, matched: Option<string>, after: History) {
    && (match matched
        case Some(m) => m in before && Strip(Bare(before[m])) == Bare(after.live)
        case None => forall r | r in before :: Strip(Bare(before[r])) != Bare(after.live))
    && var others := if matched.Some? then before - {matched.value} else before;
       && after.current !in others
       && (forall r | r in others :: Atoi(r) < Atoi(after.current))
       && (exists t: Json :: t.Obj? && Strip(Bare(t)) == Bare(after.live) && after.sets == others[after.current := t])
  }

  /** An unnamed undo of a Deployment whose ReplicaSets carry hash labels. The patch takes the chosen
      template as it is, label included. */
  ghost predicate LabelledStep(h: History, r: string, matched: Option<string>, after: History) {
    && IsPrevious(h.sets.Keys, h.current, r)
    && after.live == MergePatch(h.live, h.sets[r])
    && AdoptsLabelled(h.sets, matched, after)
  }

  lemma BareAllUpdates(sets: map<string, Json>, k: string, t: Json)
    ensures BareAll(sets[k := t]) == BareAll(sets)[k := Bare(t)]
    ensures BareAll(sets - {k}) == BareAll(sets) - {k}
    ensures BareAll(sets).Keys == sets.Keys
  {}

  lemma AdoptsWithoutLabels(before: map<string, Json>, matched: Option<string>, after: History)
    requires AdoptsLabelled(before, matched, after)
    ensures Adopts(BareAll(before), matched, BareHistory(after))
  {
    var others := if matched.Some? then before - {matched.value} else before;
    var t: Json :| t.Obj? && Strip(Bare(t)) == Bare(after.live) && after.sets == others[after.current := t];
    BareAllUpdates(before, if matched.Some? then matched.value else "", Null);
    BareAllUpdates(others, after.current, t);
    var bare := BareAll(others);
    assert bare.Keys == others.Keys;
    assert Bare(t).Obj? && Strip(Bare(t)) == BareHistory(after).live;
    assert BareHistory(after).sets == bare[after.current := Bare(t)];
  }

  /** Seen without the labels, it is the undo that the theorems above are about. */
  lemma StepWithoutLabels(h: History, r: string, matched: Option<string>, after: History)
    requires LabelledStep(h, r, matched, after)
    ensures UndoStep(BareHistory(h), r, matched, BareHistory(after))
  {
    var start, end := BareHistory(h), BareHistory(after);
    AdoptsWithoutLabels(h.sets, matched, after);
    assert IsPrevious(start.sets.Keys, start.current, r) by {
      assert start.sets.Keys == h.sets.Keys;
    }
    assert end.live == MergePatch(start.live, start.sets[r]) by {
      DropAtMerges(h.live, h.sets[r], HASH);
    }
  }

  lemma UndoCopiesHash(live: Json, template: Json)
    requires var at := Lookup(template, HASH); at.Some? && at.value.Str?
    ensures Lookup(MergePatch(live, template), HASH) == Lookup(template, HASH)
  {
    PatchAtPath(live, template, HASH);
  }

  /** Two undos of a real Deployment restore the live template up to the hash label exactly when the
      revision in between mentions no member the start lacks. They restore it exactly when, besides, the
      live template already carried the hash label of the revision the second undo goes to: each undo
      leaves that label behind. */
  lemma TwoLabelledUndosRestoreIff(h: History, r1: string, m1: Option<string>, h1: History,
                                   r2: string, m2: Option<string>, h2: History)
    requires Consistent(BareHistory(h)) && LabelledStep(h, r1, m1, h1) && LabelledStep(h1, r2, m2, h2)
    requires forall r | r in h.sets :: Lookup(h.sets[r], HASH).Some? && Lookup(h.sets[r], HASH).value.Str?
    ensures Bare(h2.live) == Bare(h.live) <==> NoExtraKeys(Strip(Bare(h.sets[r1])), Bare(h.sets[h.current]))
    ensures r2 in h.sets
    ensures h2.live == h.live <==> Bare(h2.live) == Bare(h.live) && Lookup(h.live, HASH) == Lookup(h.sets[r2], HASH)
  {
    StepWithoutLabels(h, r1, m1, h1);
    StepWithoutLabels(h1, r2, m2, h2);
    TwoUndosRestoreIff(BareHistory(h), r1, m1, BareHistory(h1), r2, m2, BareHistory(h2));
    OthersStay(h, r1, m1, h1, r2);
    UndoCopiesHash(h1.live, h1.sets[r2]);
    SameButAt(h2.live, h.live, HASH);
  }

  lemma OthersStay(h: History, r: string, matched: Option<string>, after: History, q: string)
    requires LabelledStep(h, r, matched, after) && q in after.sets && q != after.current
    ensures q in h.sets && after.sets[q] == h.sets[q]
  {
    var others := if matched.Some? then h.sets - {matched.value} else h.sets;
    assert q in others;
  }

  /** No run of such undos gets stuck either. */
  lemma LabelledUndoNeverStuck(h: History, r: string)
    requires Consistent(BareHistory(h)) && IsPrevious(h.sets.Keys, h.current, r) && 0 <= Atoi(h.current) < MAX_INT
    requires h.sets[r].Obj?
    ensures exists matched, after :: LabelledStep(h, r, matched, after) && Atoi(after.current) == Atoi(h.current) + 1
  {
    var live, n := MergePatch(h.live, h.sets[r]), Atoi(h.current) + 1;
    DropAtMerges(h.live, h.sets[r], HASH);
    StripTwice(BareHistory(h).sets[h.current]);
    PatchedHasNoNulls(Bare(h.live), Bare(h.sets[r]));
    AtoiItoa(n);
    assert forall q | q in h.sets :: q in BareHistory(h).sets && Atoi(q) < n;
    var matched, after := SomeLabelledAdoption(h.sets, live, n);
    assert LabelledStep(h, r, matched, after);
  }

  lemma SomeLabelledAdoption(before: map<string, Json>, live: Json, n: nat)
    returns (matched: Option<string>, after: History)
    requires live.Obj? && Strip(Bare(live)) == Bare(live) && n <= MAX_INT
    requires forall r | r in before :: Bare(before[r]).Obj? && Atoi(r) < n
    ensures AdoptsLabelled(before, matched, after) && after.live == live && after.current == Itoa(n)
  {
    AtoiItoa(n);
    if m :| m in before && Strip(Bare(before[m])) == Bare(live) {
      matched := Some(m);
      after := History(live, Itoa(n), (before - {m})[Itoa(n) := before[m]]);
    } else {
      matched := None;
      after := History(live, Itoa(n), before[Itoa(n) := live]);
    }
  }

  ghost predicate LabelledUndone(h: History, after: History) {
    exists r, matched :: LabelledStep(h, r, matched, after) && NullsMeetNothing(Bare(h.sets[r]), Bare(h.live))
  }

  ghost predicate LabelledRun(run: seq<History>) {
    && run != [] && Consistent(BareHistory(run[0]))
    && forall i | 0 <= i < |run| - 1 :: LabelledUndone(run[i], run[i + 1])
  }

  lemma RunWithoutLabels(run: seq<History>) returns (bare: seq<History>)
    requires LabelledRun(run)
    ensures |bare| == |run| && UndoRun(bare) && forall i | 0 <= i < |run| :: bare[i] == BareHistory(run[i])
  {
    bare := seq(|run|, i requires 0 <= i < |run| => BareHistory(run[i]));
    forall i | 0 <= i < |bare| - 1 ensures Undone(bare[i], bare[i + 1]) {
      assert LabelledUndone(run[i], run[i + 1]);
      var r, matched :| LabelledStep(run[i], r, matched, run[i + 1]) &&
                        NullsMeetNothing(Bare(run[i].sets[r]), Bare(run[i].live));
      StepWithoutLabels(run[i], r, matched, run[i + 1]);
    }
  }

  /** The run theorem, up to the hash label. */
  lemma LabelledUndosRepeat(run: seq<History>, i: nat, k: nat)
    requires LabelledRun(run) && 1 <= i && i + 2 * k < |run|
    ensures Bare(run[i + 2 * k].live) == Bare(run[i].live)
  {
    var bare := RunWithoutLabels(run);
    UndosRepeat(bare, i, k);
  }

  /** The alternation with the starting template, up to the hash label. */
  lemma {:induction false} LabelledUndosAlternate(run: seq<History>, x: Json, y: Json, k: nat)
    requires LabelledRun(run) && Showing(BareHistory(run[0]), x, y) && NoExtraKeys(x, y) && NoExtraKeys(y, x)
    ensures 2 * k < |run| ==> Bare(run[2 * k].live) == x
    ensures 2 * k + 1 < |run| ==> Bare(run[2 * k + 1].live) == Strip(y)
  {
    var bare := RunWithoutLabels(run);
    UndosAlternate(bare, x, y, k);
  }
}
