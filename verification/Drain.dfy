/** Cordoning and draining a node. */
module Drain {
  import opened Wrappers
  import opened Json
  import opened Policy
  import Rollout
  import Sequences

  const MIRROR := "kubernetes.io/config.mirror"
  const UNSCHEDULABLE: Path := ["spec", "unschedulable"]

  datatype Volume = Volume(name: string, emptyDir: bool)

  datatype Pod = Pod(ns: string, name: string, annotations: map<string, string>,
                     owners: seq<Rollout.OwnerRef>, volumes: seq<Volume>)

  datatype Args = Args(deleteEmptyDirData: bool, ignoreDaemonSets: bool, force: bool)

  predicate HasController(p: Pod) { exists r | r in p.owners :: r.controller == Some(true) }

  predicate HasOwnerKind(p: Pod, kind: string) { exists r | r in p.owners :: r.kind == kind }

  predicate HasEmptyDir(p: Pod) { exists v | v in p.volumes :: v.emptyDir }

  /** Why a drain leaves the pod alone; empty to evict it. */
  function SkipReason(p: Pod, a: Args): string {
    if p.ns == "kube-system" && MIRROR in p.annotations then "mirror/static pod"
    else if !HasController(p) && !a.force then "standalone pod (use force=true)"
    else if HasOwnerKind(p, "DaemonSet") then "DaemonSet pod"
    else if !a.deleteEmptyDirData && HasEmptyDir(p) then "uses emptyDir (use delete_emptydir_data=true)"
    else ""
  }

  // ----- What a drain does to the listed pods -----

  // `evict` says which pods are to be evicted, `ok(i)` whether evicting pod `i` of the list succeeds.

  function Selected(a: Args): Pod -> bool { p => SkipReason(p, a) == "" }

  function Attempted(pods: seq<Pod>, evict: Pod -> bool): seq<Pod> {
    if pods == [] then []
    else
      var last := pods[|pods| - 1];
      Attempted(pods[..|pods| - 1], evict) + if evict(last) then [last] else []
  }

  function Failures(pods: seq<Pod>, evict: Pod -> bool, ok: nat -> bool): seq<Pod> {
    if pods == [] then []
    else
      var n := |pods| - 1;
      Failures(pods[..n], evict, ok) + if evict(pods[n]) && !ok(n) then [pods[n]] else []
  }

  function Evicted(pods: seq<Pod>, evict: Pod -> bool, ok: nat -> bool): seq<Pod> {
    if pods == [] then []
    else
      var n := |pods| - 1;
      Evicted(pods[..n], evict, ok) + if evict(pods[n]) && ok(n) then [pods[n]] else []
  }

  function Remaining(pods: seq<Pod>, evict: Pod -> bool, ok: nat -> bool): seq<Pod> {
    if pods == [] then []
    else
      var n := |pods| - 1;
      Remaining(pods[..n], evict, ok) + if evict(pods[n]) && ok(n) then [] else [pods[n]]
  }

  datatype Outcome = NotAllowed(why: Refusal)
    | CordonFailed | ListFailed | Drained(evicted: nat, skipped: nat, failed: nat)

  class Node {
    const policy: Policy
    var obj: Json          // the node object
    var pods: seq<Pod>     // the pods the API lists for it
    var attempts: seq<Pod> // the evictions requested

    constructor (policy: Policy, obj: Json, pods: seq<Pod>)
      ensures this.policy == policy && this.obj == obj && this.pods == pods && attempts == []
    {
      this.policy, this.obj, this.pods, attempts := policy, obj, pods, [];
    }

    /** `cordon_node` and `uncordon_node`; None is success. */
    method SetUnschedulable(name: string, unschedulable: bool, patchFails: bool) returns (r: Option<Outcome>)
      modifies this`obj
      ensures r == None <==> CheckName(name) == Pass && policy.allowPrivilegedTargets && !patchFails
      ensures obj == if r == None then SetPath(old(obj), UNSCHEDULABLE, Bool(unschedulable)) else old(obj)
    {
      if CheckName(name).Deny? { return Some(NotAllowed(CheckName(name).why)); }
      if CheckTarget(policy, "", true).Deny? { return Some(NotAllowed(CheckTarget(policy, "", true).why)); }
      if patchFails { return Some(CordonFailed); }
      NestedPatchSetsPath(obj, UNSCHEDULABLE, Bool(unschedulable));
      obj := MergePatch(obj, Nest(UNSCHEDULABLE, Bool(unschedulable)));
      return None;
    }

    method DrainNode(name: string, a: Args, cordonFails: bool, listFails: bool, ok: nat -> bool) returns (r: Outcome)
      modifies this
      ensures r.NotAllowed? <==> !policy.allowDestructive || CheckName(name).Deny? || !policy.allowPrivilegedTargets
      ensures r.CordonFailed? <==> !r.NotAllowed? && cordonFails
      ensures r.ListFailed? <==> !r.NotAllowed? && !cordonFails && listFails
      ensures obj == if r.ListFailed? || r.Drained? then SetPath(old(obj), UNSCHEDULABLE, Bool(true)) else old(obj)
      ensures !r.Drained? ==> pods == old(pods) && attempts == old(attempts)
      ensures r.Drained? ==>
        && attempts == old(attempts) + Attempted(old(pods), Selected(a))
        && pods == Remaining(old(pods), Selected(a), ok)
        && r.evicted == |Evicted(old(pods), Selected(a), ok)| && r.failed == |Failures(old(pods), Selected(a), ok)|
        && r.evicted + r.skipped + r.failed == |old(pods)|
        && r.evicted + r.failed == |Attempted(old(pods), Selected(a))|
    {
      if CheckDestructive(policy).Deny? { return NotAllowed(CheckDestructive(policy).why); }
      if CheckName(name).Deny? { return NotAllowed(CheckName(name).why); }
      if CheckTarget(policy, "", true).Deny? { return NotAllowed(CheckTarget(policy, "", true).why); }
      if cordonFails { return CordonFailed; }
      NestedPatchSetsPath(obj, UNSCHEDULABLE, Bool(true));
      obj := MergePatch(obj, Nest(UNSCHEDULABLE, Bool(true)));
      if listFails { return ListFailed; }
      var evicted, skipped, failed := EvictAll(Selected(a), ok);
      return Drained(evicted, skipped, failed);
    }

    /** One eviction request; a pod whose eviction is refused stays. */
    method EvictPod(p: Pod, accepted: bool) returns (ok: bool)
      modifies this`pods, this`attempts
      ensures ok == accepted && attempts == old(attempts) + [p]
      ensures pods == if accepted then old(pods) else old(pods) + [p]
    {
      attempts := attempts + [p];
      if !accepted {
        pods := pods + [p];
      }
      return accepted;
    }

    /** The eviction loop over the listed pods. */
    method EvictAll(evict: Pod -> bool, ok: nat -> bool) returns (evicted: nat, skipped: nat, failed: nat)
      modifies this`pods, this`attempts
      ensures attempts == old(attempts) + Attempted(old(pods), evict) && pods == Remaining(old(pods), evict, ok)
      ensures evicted == |Evicted(old(pods), evict, ok)| && failed == |Failures(old(pods), evict, ok)|
      ensures evicted + skipped + failed == |old(pods)| && evicted + failed == |Attempted(old(pods), evict)|
    {
      var listed := pods;
      evicted, skipped, failed := 0, 0, 0;
      pods := [];
      ghost var tried: seq<Pod> := [];
      for i := 0 to |listed|
        invariant attempts == old(attempts) + tried && tried == Attempted(listed[..i], evict)
        invariant pods == Remaining(listed[..i], evict, ok)
        invariant evicted == |Evicted(listed[..i], evict, ok)| && failed == |Failures(listed[..i], evict, ok)|
        invariant evicted + skipped + failed == i && evicted + failed == |tried|
      {
        NextPod(listed, i, evict, ok);
        if !evict(listed[i]) {
          pods := pods + [listed[i]];
          skipped := skipped + 1;
          continue;
        }
        Sequences.Reassociate(old(attempts), tried, [listed[i]]);
        tried := tried + [listed[i]];
        var succeeded := EvictPod(listed[i], ok(i));
        if !succeeded {
          failed := failed + 1;
          continue;
        }
        evicted := evicted + 1;
      }
      assert listed[..|listed|] == listed;
    }
  }

  lemma LastPod(pods: seq<Pod>, evict: Pod -> bool, ok: nat -> bool)
    requires pods != []
    ensures var init, n := pods[..|pods| - 1], |pods| - 1;
            var p, skip := pods[n], !evict(pods[n]);
            && pods == init + [p]
            && Attempted(pods, evict) == (if skip then Attempted(init, evict) else Attempted(init, evict) + [p])
            && Evicted(pods, evict, ok) ==
                (if skip || !ok(n) then Evicted(init, evict, ok) else Evicted(init, evict, ok) + [p])
            && Failures(pods, evict, ok) ==
                (if skip || ok(n) then Failures(init, evict, ok) else Failures(init, evict, ok) + [p])
            && Remaining(pods, evict, ok) ==
                (if skip || !ok(n) then Remaining(init, evict, ok) + [p] else Remaining(init, evict, ok))
  {}

  lemma NextPod(pods: seq<Pod>, i: nat, evict: Pod -> bool, ok: nat -> bool)
    requires i < |pods|
    ensures var init, more, skip := pods[..i], pods[..i + 1], !evict(pods[i]);
            && Attempted(more, evict) == (if skip then Attempted(init, evict) else Attempted(init, evict) + [pods[i]])
            && Remaining(more, evict, ok) ==
                (if skip || !ok(i) then Remaining(init, evict, ok) + [pods[i]] else Remaining(init, evict, ok))
            && |Evicted(more, evict, ok)| == |Evicted(init, evict, ok)| + (if skip || !ok(i) then 0 else 1)
            && |Failures(more, evict, ok)| == |Failures(init, evict, ok)| + (if skip || ok(i) then 0 else 1)
  {
    LastPod(pods[..i + 1], evict, ok);
    assert pods[..i + 1][..i] == pods[..i];
  }

  /** What the flags and the pod itself say about eviction, whatever order the checks run in. */
  predicate Evictable(p: Pod, a: Args) {
    && !(p.ns == "kube-system" && MIRROR in p.annotations)
    && !HasOwnerKind(p, "DaemonSet")
    && (a.force || HasController(p))
    && (a.deleteEmptyDirData || !HasEmptyDir(p))
  }

  lemma SkipsUnlessEvictable(p: Pod, a: Args)
    ensures SkipReason(p, a) == "" <==> Evictable(p, a)
  {}

  lemma {:induction false} AttemptCounts(pods: seq<Pod>, evict: Pod -> bool, p: Pod)
    ensures multiset(Attempted(pods, evict))[p] == if evict(p) then multiset(pods)[p] else 0
  {
    if pods != [] {
      var init, last := pods[..|pods| - 1], pods[|pods| - 1];
      AttemptCounts(init, evict, p);
      assert pods == init + [last] && multiset(pods) == multiset(init) + multiset{last};
    }
  }

  /** An eviction is requested exactly once for each evictable pod of the list, and for no other, so
      never for a DaemonSet pod, whatever the flags. */
  lemma AttemptsAreTheEvictable(pods: seq<Pod>, a: Args, p: Pod)
    ensures multiset(Attempted(pods, Selected(a)))[p] == if Evictable(p, a) then multiset(pods)[p] else 0
  {
    AttemptCounts(pods, Selected(a), p);
    SkipsUnlessEvictable(p, a);
  }

  /** A drain leaves a pod alone exactly when it is a mirror pod of the control plane, a pod with a DaemonSet
      owner, a pod without a controlling owner unless forced, or a pod with an emptyDir volume unless its data
      may be deleted. */
  lemma LeftAloneIff(pods: seq<Pod>, a: Args, p: Pod)
    requires p in pods
    ensures p !in Attempted(pods, Selected(a)) <==>
            || (p.ns == "kube-system" && "kubernetes.io/config.mirror" in p.annotations)
            || (exists r: Rollout.OwnerRef :: r in p.owners && r.kind == "DaemonSet")
            || (!a.force && !exists r: Rollout.OwnerRef :: r in p.owners && r.controller == Some(true))
            || (!a.deleteEmptyDirData && exists v: Volume :: v in p.volumes && v.emptyDir)
  {
    AttemptsAreTheEvictable(pods, a, p);
    assert p in Attempted(pods, Selected(a)) <==> p in multiset(Attempted(pods, Selected(a)));
    assert multiset(pods)[p] > 0;
  }

  /** The listed pods split into the evicted ones and the ones that stay. */
  lemma {:induction false} DrainConserves(pods: seq<Pod>, evict: Pod -> bool, ok: nat -> bool)
    ensures Sequences.Splits(pods, Evicted(pods, evict, ok), Remaining(pods, evict, ok))
  {
    if pods != [] {
      var init := pods[..|pods| - 1];
      DrainConserves(init, evict, ok);
      Sequences.SplitGrows(init, Evicted(init, evict, ok), Remaining(init, evict, ok), pods[|pods| - 1]);
      LastPod(pods, evict, ok);
    }
  }

  /** The attempted evictions split into the successful and the failed ones. */
  lemma {:induction false} AttemptsSucceedOrFail(pods: seq<Pod>, evict: Pod -> bool, ok: nat -> bool)
    ensures Sequences.Splits(Attempted(pods, evict), Evicted(pods, evict, ok), Failures(pods, evict, ok))
  {
    if pods != [] {
      var init := pods[..|pods| - 1];
      AttemptsSucceedOrFail(init, evict, ok);
      Sequences.SplitGrows(Attempted(init, evict), Evicted(init, evict, ok),
                           Failures(init, evict, ok), pods[|pods| - 1]);
      LastPod(pods, evict, ok);
    }
  }

  /** Turning on force or emptyDir deletion only enlarges the attempted set; the DaemonSet flag changes
      nothing. */
  lemma MoreFlagsMoreAttempts(pods: seq<Pod>, a: Args, b: Args)
    requires (a.force ==> b.force) && (a.deleteEmptyDirData ==> b.deleteEmptyDirData)
    ensures multiset(Attempted(pods, Selected(a))) <= multiset(Attempted(pods, Selected(b)))
    ensures a.force == b.force && a.deleteEmptyDirData == b.deleteEmptyDirData ==>
              multiset(Attempted(pods, Selected(a))) == multiset(Attempted(pods, Selected(b)))
  {
    var x, y := multiset(Attempted(pods, Selected(a))), multiset(Attempted(pods, Selected(b)));
    forall p: Pod
      ensures x[p] <= y[p]
      ensures a.force == b.force && a.deleteEmptyDirData == b.deleteEmptyDirData ==> x[p] == y[p]
    {
      AttemptsAreTheEvictable(pods, a, p);
      AttemptsAreTheEvictable(pods, b, p);
    }
  }

  lemma {:induction false} AttemptedSplits(xs: seq<Pod>, ys: seq<Pod>, evict: Pod -> bool)
    ensures Attempted(xs + ys, evict) == Attempted(xs, evict) + Attempted(ys, evict)
  {
    if ys == [] {
      assert xs + ys == xs;
    } else {
      var n := |ys| - 1;
      AttemptedSplits(xs, ys[..n], evict);
      assert (xs + ys)[..|xs| + n] == xs + ys[..n];
    }
  }

  /** With no arrivals, draining again attempts exactly the evictions that failed before, in order. */
  lemma {:induction false} RerunAttemptsFailures(pods: seq<Pod>, evict: Pod -> bool, ok: nat -> bool)
    ensures Attempted(Remaining(pods, evict, ok), evict) == Failures(pods, evict, ok)
  {
    if pods != [] {
      var n := |pods| - 1;
      RerunAttemptsFailures(pods[..n], evict, ok);
      var kept := if evict(pods[n]) && ok(n) then [] else [pods[n]];
      AttemptedSplits(Remaining(pods[..n], evict, ok), kept, evict);
      assert [pods[n]][..0] == [];
    }
  }

  /** What a skipped pod is told: the first of the four reasons, in this order, that applies. */
  lemma SkipReasonsInOrder(p: Pod, a: Args)
    ensures SkipReason(p, a) in {"mirror/static pod", "standalone pod (use force=true)", "DaemonSet pod",
                                 "uses emptyDir (use delete_emptydir_data=true)", ""}
    ensures SkipReason(p, a) == "mirror/static pod" <==>
            p.ns == "kube-system" && "kubernetes.io/config.mirror" in p.annotations
    ensures SkipReason(p, a) == "standalone pod (use force=true)" <==>
            && !(p.ns == "kube-system" && "kubernetes.io/config.mirror" in p.annotations)
            && !a.force && forall r: Rollout.OwnerRef | r in p.owners :: r.controller != Some(true)
    ensures SkipReason(p, a) == "DaemonSet pod" ==> exists r: Rollout.OwnerRef :: r in p.owners && r.kind == "DaemonSet"
    ensures SkipReason(p, a) == "uses emptyDir (use delete_emptydir_data=true)" ==>
            && (exists v: Volume :: v in p.volumes && v.emptyDir)
            && forall r: Rollout.OwnerRef | r in p.owners :: r.kind != "DaemonSet"
  {}

  // ----- Cordon and uncordon -----

  /** Where a cordon is recorded. */
  lemma CordonIsAtSpec(obj: Json, unschedulable: bool)
    ensures Lookup(SetPath(obj, UNSCHEDULABLE, Bool(unschedulable)), ["spec", "unschedulable"])
         == Some(Bool(unschedulable))
  {
    SetPathReads(obj, UNSCHEDULABLE, Bool(unschedulable));
  }

  lemma {:induction false} SetPathIsIdentityIff(j: Json, path: Path, v: Json)
    ensures SetPath(j, path, v) == j <==> Lookup(j, path) == Some(v)
    decreases path
  {
    SetPathReads(j, path, v);
    if path != [] && Lookup(j, path) == Some(v) {
      SetPathIsIdentityIff(j.fields[path[0]], path[1..], v);
      assert j.fields[path[0] := j.fields[path[0]]] == j.fields;
    }
  }

  /** Uncordoning undoes a cordon exactly when the node had said explicitly that it was schedulable:
      otherwise an explicit false is left behind. */
  lemma UncordonUndoesCordonIff(obj: Json)
    ensures SetPath(SetPath(obj, UNSCHEDULABLE, Bool(true)), UNSCHEDULABLE, Bool(false)) == obj <==>
            Lookup(obj, UNSCHEDULABLE) == Some(Bool(false))
  {
    SetPathOverwrites(obj, UNSCHEDULABLE, Bool(true), Bool(false));
    SetPathIsIdentityIff(obj, UNSCHEDULABLE, Bool(false));
  }
}
