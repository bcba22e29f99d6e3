/** The mutating tools over an abstract cluster, and what no sequence of their calls can change. */
module Mutations {
  import opened Wrappers
  import opened Json
  import opened GoText
  import opened Policy
  import Rollout

  type Cluster = map<Ref, Json>

  /** What discovery knows of a kind. */
  datatype Kind = Kind(resource: string, namespaced: bool)

  type Discovery = (string, string) -> Option<Kind>

  /** What the API answers during one call: what discovery says, and what becomes of the request, when
      document `i` is handled; other calls have only a document 0. */
  datatype Api = Api(discovery: nat -> Discovery, replies: nat -> Reply)

  datatype Doc = Doc(kind: string, apiVersion: string, ns: string, name: string, body: Json)

  datatype Call =
    | ApplyManifest(docs: Option<seq<Doc>>, bytes: nat, maxBytes: nat, ns: string, dryRun: Option<bool>)
    | Patch(kind: string, apiVersion: string, ns: string, name: string, patchType: string, dry: bool)
    | Scale(kind: string, ns: string, name: string, dry: bool)
    | RolloutRestart(kind: string, ns: string, name: string)
    | RolloutUndo(kind: string, ns: string, name: string)
    | LabelOrAnnotate(kind: string, apiVersion: string, ns: string, name: string)
    | CreateNamespace(name: string, dry: bool)
    | WriteConfigMap(ns: string, name: string, dry: bool)
    | CreateSecret(ns: string, name: string, dry: bool)
    | CreateService(ns: string, name: string, port: int, serviceType: string, dry: bool)
    | DeleteManifest(kind: string, apiVersion: string, ns: string, name: string, dry: bool)

  /** What one API request did: a failed one may still have taken effect. */
  datatype Write = Untouched | Stored(obj: Json) | Removed

  datatype Reply = Reply(failed: bool, write: Write)

  function Written(cluster: Cluster, aim: Aim, reply: Reply): Cluster {
    if aim.Refused? || aim.dryRun then cluster
    else match reply.write
      case Untouched => cluster
      case Stored(obj) => cluster[aim.ref := obj]
      case Removed => cluster - {aim.ref}
  }

  // ----- Guards, in the order of the handlers -----

  function Namespaced(resource: string, ns: string, name: string): Ref { Ref(resource, Some(ns), name) }

  function Scoped(kind: Kind, ns: string, name: string): Ref {
    Ref(kind.resource, if kind.namespaced then Some(ns) else None, name)
  }

  predicate KnownPatchType(s: string) { ToLower(s) in {"", "strategic", "merge", "json"} }

  predicate KnownServiceType(s: string) { ToUpper(s) in {"", "CLUSTERIP", "NODEPORT", "LOADBALANCER"} }

  function ScaleResource(kind: string): Option<string> {
    var k := ToLower(kind);
    if k == "deployment" || k == "deploy" then Some("deployments")
    else if k == "statefulset" || k == "sts" then Some("statefulsets")
    else if k == "replicaset" || k == "rs" then Some("replicasets")
    else None
  }

  function ControllerResource(kind: string): Option<string> {
    match Rollout.ControllerKind(kind)
    case None => None
    case Some(k) => Some(if k.DeploymentKind? then "deployments"
                          else if k.StatefulSetKind? then "statefulsets" else "daemonsets")
  }

  /** The request a single-object call makes, if its guards let it. */
  function Target(p: Policy, discovery: Discovery, call: Call): Aim
    requires !call.ApplyManifest?
  {
    match call
    case Patch(kind, apiVersion, ns, name, patchType, dry) =>
      :- CheckMutating(p);
      :- CheckName(name);
      :- Require(KnownPatchType(patchType), BadArgument);
      if discovery(kind, apiVersion).None? then Refused(UnknownKind)
      else
        var k := discovery(kind, apiVersion).value;
        :- PolicyTarget(p, ResolveNs(ns), !k.namespaced);
        At(Scoped(k, ResolveNs(ns), name), dry)
    case Scale(kind, ns, name, dry) =>
      :- CheckMutating(p);
      :- CheckName(name);
      :- PolicyTarget(p, ResolveNs(ns), false);
      if ScaleResource(kind).None? then Refused(BadArgument)
      else At(Namespaced(ScaleResource(kind).value, ResolveNs(ns), name), dry)
    case RolloutRestart(kind, ns, name) =>
      :- CheckMutating(p);
      :- CheckName(name);
      :- PolicyTarget(p, ResolveNs(ns), false);
      if ControllerResource(kind).None? then Refused(BadArgument)
      else At(Namespaced(ControllerResource(kind).value, ResolveNs(ns), name), false)
    case RolloutUndo(kind, ns, name) =>
      :- CheckMutating(p);
      :- CheckName(name);
      :- PolicyTarget(p, ResolveNs(ns), false);
      :- Require(EqualFold(kind, "deployment"), BadArgument);
      At(Namespaced("deployments", ResolveNs(ns), name), false)
    case LabelOrAnnotate(kind, apiVersion, ns, name) =>
      :- CheckMutating(p);
      :- CheckName(name);
      if discovery(kind, apiVersion).None? then Refused(UnknownKind)
      else
        var k := discovery(kind, apiVersion).value;
        :- PolicyTarget(p, ResolveNs(ns), !k.namespaced);
        At(Scoped(k, ResolveNs(ns), name), false)
    case CreateNamespace(name, dry) =>
      :- CheckMutating(p);
      :- CheckName(name);
      :- CheckTarget(p, "", true);
      At(Ref("namespaces", None, name), dry)
    case WriteConfigMap(ns, name, dry) =>
      :- CheckMutating(p);
      :- CheckName(name);
      :- PolicyTarget(p, ResolveNs(ns), false);
      At(Namespaced("configmaps", ResolveNs(ns), name), dry)
    case CreateSecret(ns, name, dry) =>
      :- CheckMutating(p);
      :- CheckName(name);
      :- PolicyTarget(p, ResolveNs(ns), false);
      At(Namespaced("secrets", ResolveNs(ns), name), dry)
    case CreateService(ns, name, port, serviceType, dry) =>
      :- CheckMutating(p);
      :- CheckName(name);
      :- Require(port != 0, BadArgument);
      :- PolicyTarget(p, ResolveNs(ns), false);
      :- Require(KnownServiceType(serviceType), BadArgument);
      At(Namespaced("services", ResolveNs(ns), name), dry)
    case DeleteManifest(kind, apiVersion, ns, name, dry) =>
      :- CheckDestructive(p);
      :- CheckName(name);
      if discovery(kind, apiVersion).None? then Refused(UnknownKind)
      else
        var k := discovery(kind, apiVersion).value;
        :- PolicyTarget(p, ResolveNs(ns), !k.namespaced);
        At(Scoped(k, ResolveNs(ns), name), dry)
  }

  function KindKey(kind: string, apiVersion: string): string { kind + "." + apiVersion }

  function Defaulted(doc: Doc, defaultNs: string): Doc {
    if doc.ns == "" then doc.(ns := defaultNs) else doc
  }

  function ValidateIdent(kind: string, name: string): Guard {
    if kind == "" then Deny(MissingKind) else Require(name != "", MissingName)
  }

  /** The guards of one manifest document whose namespace is filled in. */
  function DocAim(p: Policy, discovery: Discovery, doc: Doc, dryRun: bool): Aim {
    var ident := ValidateIdent(doc.kind, doc.name);
    :- ident;
    if discovery(doc.kind, doc.apiVersion).None? then Refused(UnknownKind)
    else
      var k := discovery(doc.kind, doc.apiVersion).value;
      :- CheckManifestKind(p, KindKey(doc.kind, doc.apiVersion));
      :- CheckTarget(p, doc.ns, !k.namespaced);
      :- (if doc.ns != "" then CheckNamespace(p, doc.ns) else Pass);
      At(Scoped(k, doc.ns, doc.name), dryRun)
  }

  // ----- apply_manifest -----

  datatype ApplyEnd = Denied(why: Refusal) | ApiFailed | Success

  /** The checks before the first document. */
  function ApplyRefusal(p: Policy, call: Call): Option<Refusal>
    requires call.ApplyManifest?
  {
    if CheckMutating(p).Deny? then Some(CheckMutating(p).why)
    else if call.bytes > call.maxBytes then Some(TooLarge)
    else if call.docs.None? then Some(Undecodable)
    else if call.docs.value == [] then Some(NoDocuments)
    else None
  }

  function DryRun(call: Call): bool
    requires call.ApplyManifest?
  {
    call.dryRun.None? || call.dryRun.value
  }

  /** A loop over `n` requests from request `i` on, where each one goes given: the cluster it leaves, how many
      requests it made, and how it ended. */
  function Loop(aims: nat -> Aim, replies: nat -> Reply, n: nat, cluster: Cluster, i: nat): (Cluster, nat, ApplyEnd)
    decreases n - i
  {
    if i >= n then (cluster, i, Success)
    else
      var aim, after := aims(i), Written(cluster, aims(i), replies(i));
      if aim.Refused? then (cluster, i, Denied(aim.why))
      else if replies(i).failed then (after, i, ApiFailed)
      else Loop(aims, replies, n, after, i + 1)
  }

  /** Where the guards send each document, its namespace filled in. */
  function AimOf(p: Policy, api: Api, docs: seq<Doc>, defaultNs: string, dryRun: bool, i: nat): Aim
    requires i < |docs|
  {
    DocAim(p, api.discovery(i), Defaulted(docs[i], defaultNs), dryRun)
  }

  function Aims(p: Policy, api: Api, docs: seq<Doc>, defaultNs: string, dryRun: bool): nat -> Aim {
    (i: nat) => if i < |docs| then AimOf(p, api, docs, defaultNs, dryRun, i) else Refused(NoDocuments)
  }

  /** The document loop. */
  function ApplyLoop(p: Policy, api: Api, docs: seq<Doc>, defaultNs: string, dryRun: bool,
                     cluster: Cluster): (Cluster, nat, ApplyEnd)
  {
    Loop(Aims(p, api, docs, defaultNs, dryRun), api.replies, |docs|, cluster, 0)
  }

  /** One call's effect on the cluster. */
  function Effect(p: Policy, call: Call, api: Api, cluster: Cluster): Cluster {
    if call.ApplyManifest? then
      if ApplyRefusal(p, call).Some? then cluster
      else ApplyLoop(p, api, call.docs.value, ResolveNs(call.ns), DryRun(call), cluster).0
    else Written(cluster, Target(p, api.discovery(0), call), api.replies(0))
  }

  class Server {
    const policy: Policy
    var cluster: Cluster

    constructor (policy: Policy, cluster: Cluster)
      ensures this.policy == policy && this.cluster == cluster
    {
      this.policy, this.cluster := policy, cluster;
    }

    /** A handler that makes at most one mutating request: whatever its arguments, it aims at an object the
        policy permits or at none, and leaves every other object alone, and in a dry run all of them. */
    method Mutate(call: Call, api: Api) returns (aim: Aim)
      requires !call.ApplyManifest?
      modifies this`cluster
      ensures aim.At? ==> Permitted(policy, aim.ref)
      ensures forall ref | aim.Refused? || aim.dryRun || ref != aim.ref :: SameAt(old(cluster), cluster, ref)
      ensures aim.At? && !aim.dryRun ==> match api.replies(0).write
        case Untouched => cluster == old(cluster)
        case Stored(obj) => aim.ref in cluster && cluster[aim.ref] == obj
        case Removed => aim.ref !in cluster
      ensures cluster == Effect(policy, call, api, old(cluster))
    {
      aim := Target(policy, api.discovery(0), call);
      Send(aim, api.replies(0));
      if aim.At? { GuardsImplyPermitted(policy, api.discovery(0), call); }
    }

    /** The request itself; the API server leaves the cluster alone in a dry run. */
    method Send(aim: Aim, reply: Reply)
      modifies this`cluster
      ensures cluster == Written(old(cluster), aim, reply)
      ensures forall ref | aim.Refused? || aim.dryRun || ref != aim.ref :: SameAt(old(cluster), cluster, ref)
      ensures aim.At? && !aim.dryRun ==> match reply.write
        case Untouched => cluster == old(cluster)
        case Stored(obj) => aim.ref in cluster && cluster[aim.ref] == obj
        case Removed => aim.ref !in cluster
    {
      if aim.At? && !aim.dryRun {
        match reply.write {
          case Untouched =>
          case Stored(obj) => cluster := cluster[aim.ref := obj];
          case Removed => cluster := cluster - {aim.ref};
        }
      }
    }

    /** Document `i`'s turn: fill in its namespace, check it, send it. */
    method ApplyOne(docs: array<Doc>, i: nat, defaultNs: string, dryRun: bool, api: Api) returns (aim: Aim)
      requires i < docs.Length
      modifies this`cluster, docs
      ensures docs[..] == old(docs[..])[i := Defaulted(old(docs[i]), defaultNs)]
      ensures aim == DocAim(policy, api.discovery(i), Defaulted(old(docs[i]), defaultNs), dryRun)
      ensures cluster == Written(old(cluster), aim, api.replies(i))
    {
      if docs[i].ns == "" {
        docs[i] := docs[i].(ns := defaultNs);
      }
      aim := DocAim(policy, api.discovery(i), docs[i], dryRun);
      Send(aim, api.replies(i));
    }

    /** The `apply_manifest` loop over decoded documents. */
    method ApplyDocuments(docs: array<Doc>, defaultNs: string, dryRun: bool, api: Api)
      returns (applied: nat, end: ApplyEnd)
      modifies this`cluster, docs
      ensures (cluster, applied, end) == ApplyLoop(policy, api, old(docs[..]), defaultNs, dryRun, old(cluster))
    {
      ghost var all := docs[..];
      ghost var aims := Aims(policy, api, all, defaultNs, dryRun);
      for i := 0 to docs.Length
        invariant Loop(aims, api.replies, |all|, cluster, i) == Loop(aims, api.replies, |all|, old(cluster), 0)
        invariant docs[i..] == all[i..]
      {
        assert docs[i] == docs[i..][0] == all[i];
        var aim := ApplyOne(docs, i, defaultNs, dryRun, api);
        assert docs[i + 1..] == all[i..][1..];
        if aim.Refused? { return i, Denied(aim.why); }
        if api.replies(i).failed { return i, ApiFailed; }
      }
      return docs.Length, Success;
    }

    method ApplyManifest(call: Call, api: Api) returns (end: ApplyEnd)
      requires call.ApplyManifest?
      modifies this`cluster
      ensures cluster == Effect(policy, call, api, old(cluster))
      ensures match ApplyRefusal(policy, call)
        case Some(why) => end == Denied(why) && cluster == old(cluster)
        case None => end == ApplyLoop(policy, api, call.docs.value, ResolveNs(call.ns), DryRun(call), old(cluster)).2
    {
      var refusal := ApplyRefusal(policy, call);
      if refusal.Some? { return Denied(refusal.value); }
      var decoded := call.docs.value;
      var docs := new Doc[|decoded|](k requires 0 <= k < |decoded| => decoded[k]);
      assert docs[..] == decoded;
      var _, how := ApplyDocuments(docs, ResolveNs(call.ns), DryRun(call), api);
      return how;
    }

    /** The server's life: calls come in one after the other. What it does is the run that the theorems
        below are about, so no object that the policy does not permit ever changes. */
    method Serve(events: seq<Event>)
      modifies this`cluster
      ensures cluster == Run(policy, events, old(cluster))
      ensures forall ref | !Permitted(policy, ref) :: SameAt(old(cluster), cluster, ref)
    {
      for i := 0 to |events|
        invariant cluster == Run(policy, events[..i], old(cluster))
      {
        assert events[..i + 1][..i] == events[..i];
        if events[i].call.ApplyManifest? {
          var _ := ApplyManifest(events[i].call, events[i].api);
        } else {
          var _ := Mutate(events[i].call, events[i].api);
        }
      }
      assert events[..|events|] == events;
      forall ref | !Permitted(policy, ref) ensures SameAt(old(cluster), cluster, ref) {
        UnpermittedNeverChanges(policy, events, old(cluster), ref);
      }
    }
  }

  /** A failed request that did nothing, and a successful one that stored the merged document. */
  ghost predicate Honest(api: Api) {
    forall i :: if api.replies(i).failed then api.replies(i).write.Untouched? else api.replies(i).write.Stored?
  }

  /** The cluster with the first `k` requests' documents stored in order, each where it goes. */
  function StoredInOrder(aims: nat -> Aim, replies: nat -> Reply, cluster: Cluster, k: nat): Cluster {
    if k == 0 then cluster
    else Written(StoredInOrder(aims, replies, cluster, k - 1), aims(k - 1), replies(k - 1))
  }

  lemma {:induction false} LoopAppliesPrefix(aims: nat -> Aim, replies: nat -> Reply, n: nat,
                                             start: Cluster, cluster: Cluster, i: nat)
    requires i <= n && cluster == StoredInOrder(aims, replies, start, i)
    requires forall j | 0 <= j < n && replies(j).failed :: replies(j).write.Untouched?
    requires forall j | 0 <= j < i :: aims(j).At? && !replies(j).failed
    ensures var (after, k, end) := Loop(aims, replies, n, cluster, i);
            && i <= k <= n
            && after == StoredInOrder(aims, replies, start, k)
            && (forall j | 0 <= j < k :: aims(j).At? && !replies(j).failed)
            && (end == Success <==> k == n)
            && (k < n ==> aims(k).Refused? || replies(k).failed)
    decreases n - i
  {
    if i < n && aims(i).At? && !replies(i).failed {
      LoopAppliesPrefix(aims, replies, n, start, Written(cluster, aims(i), replies(i)), i + 1);
    }
  }

  lemma {:induction false} DryRunStoresNothing(aims: nat -> Aim, replies: nat -> Reply, cluster: Cluster, k: nat)
    requires forall j | 0 <= j < k && aims(j).At? :: aims(j).dryRun
    ensures StoredInOrder(aims, replies, cluster, k) == cluster
  {
    if k > 0 { DryRunStoresNothing(aims, replies, cluster, k - 1); }
  }

  lemma DocAimsDryRun(p: Policy, api: Api, docs: seq<Doc>, defaultNs: string, dryRun: bool, i: nat)
    ensures var aim := Aims(p, api, docs, defaultNs, dryRun)(i);
            aim.At? ==> aim.dryRun == dryRun
  {}

  /** `apply_manifest` stores, in order, exactly the documents before the first one that a guard or the
      API rejects: all of them exactly when it succeeds. In a dry run, which is the default, it stores
      none. */
  lemma ApplyStoresAPrefix(p: Policy, api: Api, docs: seq<Doc>, defaultNs: string, dryRun: bool, cluster: Cluster)
    requires Honest(api)
    ensures var (after, k, end) := ApplyLoop(p, api, docs, defaultNs, dryRun, cluster);
            && k <= |docs|
            && after == StoredInOrder(Aims(p, api, docs, defaultNs, dryRun), api.replies, cluster, k)
            && (dryRun ==> after == cluster)
            && (forall j | 0 <= j < k :: AimOf(p, api, docs, defaultNs, dryRun, j).At? && !api.replies(j).failed)
            && (end == Success <==> k == |docs|)
            && (k < |docs| ==> AimOf(p, api, docs, defaultNs, dryRun, k).Refused? || api.replies(k).failed)
  {
    var aims := Aims(p, api, docs, defaultNs, dryRun);
    LoopAppliesPrefix(aims, api.replies, |docs|, cluster, cluster, 0);
    var (after, k, end) := Loop(aims, api.replies, |docs|, cluster, 0);
    assert forall j | 0 <= j < |docs| :: aims(j) == AimOf(p, api, docs, defaultNs, dryRun, j);
    if dryRun {
      forall j: nat | j < k && aims(j).At? ensures aims(j).dryRun {
        DocAimsDryRun(p, api, docs, defaultNs, dryRun, j);
      }
      DryRunStoresNothing(aims, api.replies, cluster, k);
    }
  }

  // ----- Whole runs -----

  predicate SameAt(a: Cluster, b: Cluster, ref: Ref) {
    (ref in a <==> ref in b) && (ref in a ==> a[ref] == b[ref])
  }

  /** Guards only let through objects the policy permits. */
  lemma GuardsImplyPermitted(p: Policy, discovery: Discovery, call: Call)
    requires !call.ApplyManifest? && Target(p, discovery, call).At?
    ensures Permitted(p, Target(p, discovery, call).ref)
  {}

  lemma DocGuardsImplyPermitted(p: Policy, discovery: Discovery, doc: Doc, dryRun: bool)
    requires p.allowWrites && doc.ns != "" && DocAim(p, discovery, doc, dryRun).At?
    ensures Permitted(p, DocAim(p, discovery, doc, dryRun).ref)
  {}

  lemma {:induction false} LoopKeeps(aims: nat -> Aim, replies: nat -> Reply, n: nat,
                                     cluster: Cluster, i: nat, ref: Ref)
    requires forall j: nat | j < n && aims(j).At? && !aims(j).dryRun :: aims(j).ref != ref
    ensures SameAt(cluster, Loop(aims, replies, n, cluster, i).0, ref)
    decreases n - i
  {
    if i < n { LoopKeeps(aims, replies, n, Written(cluster, aims(i), replies(i)), i + 1, ref); }
  }

  lemma ApplyKeepsUnpermitted(p: Policy, api: Api, docs: seq<Doc>, defaultNs: string, dryRun: bool,
                              cluster: Cluster, ref: Ref)
    requires p.allowWrites && defaultNs != "" && !Permitted(p, ref)
    ensures SameAt(cluster, ApplyLoop(p, api, docs, defaultNs, dryRun, cluster).0, ref)
  {
    var aims := Aims(p, api, docs, defaultNs, dryRun);
    forall j: nat | j < |docs| && aims(j).At? ensures aims(j).ref != ref {
      DocGuardsImplyPermitted(p, api.discovery(j), Defaulted(docs[j], defaultNs), dryRun);
    }
    LoopKeeps(aims, api.replies, |docs|, cluster, 0, ref);
  }

  datatype Event = Event(call: Call, api: Api)

  function Run(p: Policy, events: seq<Event>, cluster: Cluster): Cluster {
    if events == [] then cluster
    else
      var last := events[|events| - 1];
      Effect(p, last.call, last.api, Run(p, events[..|events| - 1], cluster))
  }

  /** Over any sequence of calls with any arguments, and whatever discovery and the API answer each time,
      an object the policy does not permit never changes: none without writes or destructive operations,
      none in a namespace outside a non-empty allowlist, and without privileged targets none that is
      cluster-scoped or in a control-plane namespace. */
  lemma {:induction false} UnpermittedNeverChanges(p: Policy, events: seq<Event>, cluster: Cluster, ref: Ref)
    requires !Permitted(p, ref)
    ensures SameAt(cluster, Run(p, events, cluster), ref)
  {
    if events != [] {
      var init, last := events[..|events| - 1], events[|events| - 1];
      UnpermittedNeverChanges(p, init, cluster, ref);
      var before := Run(p, init, cluster);
      if last.call.ApplyManifest? {
        if ApplyRefusal(p, last.call).None? {
          var docs := last.call.docs.value;
          ApplyKeepsUnpermitted(p, last.api, docs, ResolveNs(last.call.ns), DryRun(last.call), before, ref);
        }
      } else if Target(p, last.api.discovery(0), last.call).At? {
        GuardsImplyPermitted(p, last.api.discovery(0), last.call);
      }
    }
  }

  /** A kind that discovery maps to the object's resource, with a name and namespace a call can give. */
  predicate Addressable(discovery: Discovery, kind: string, ref: Ref) {
    && discovery(kind, "") == Some(Kind(ref.resource, ref.ns.Some?))
    && CheckName(ref.name) == Pass && ref.ns != Some("")
  }

  /** The policy is as tight as it is safe: with discovery always giving the same answers, some run changes
      an addressable object exactly when the policy permits it. */
  lemma ChangeableIffPermitted(p: Policy, discovery: Discovery, kind: string, ref: Ref)
    requires Addressable(discovery, kind, ref)
    ensures Changeable(p, discovery, ref) <==> Permitted(p, ref)
  {
    if Permitted(p, ref) {
      PermittedCanChange(p, discovery, kind, ref);
    } else if Changeable(p, discovery, ref) {
      var events, cluster :| Changes(p, discovery, events, cluster, ref);
      UnpermittedNeverChanges(p, events, cluster, ref);
    }
  }

  lemma PermittedCanChange(p: Policy, discovery: Discovery, kind: string, ref: Ref)
    requires Addressable(discovery, kind, ref) && Permitted(p, ref)
    ensures Changeable(p, discovery, ref)
  {
    var ns := if ref.ns.Some? then ref.ns.value else "";
    var call := if p.allowWrites then Patch(kind, "", ns, ref.name, "", false)
                else DeleteManifest(kind, "", ns, ref.name, false);
    assert ToLower("") == "";
    assert Target(p, discovery, call) == At(ref, false);
    var api := Api(_ => discovery, _ => Reply(false, Stored(Null)));
    OneWriteChanges(p, discovery, Event(call, api), ref);
  }

  lemma OneWriteChanges(p: Policy, discovery: Discovery, event: Event, ref: Ref)
    requires !event.call.ApplyManifest? && (forall i :: event.api.discovery(i) == discovery)
    requires Target(p, discovery, event.call) == At(ref, false) && event.api.replies(0) == Reply(false, Stored(Null))
    ensures Changeable(p, discovery, ref)
  {
    var events, cluster: Cluster := [event], map[];
    assert events[..0] == [];
    assert Run(p, events, cluster) == cluster[ref := Null];
    assert Changes(p, discovery, events, cluster, ref);
  }

  ghost predicate Changes(p: Policy, discovery: Discovery, events: seq<Event>, cluster: Cluster, ref: Ref) {
    && (forall e, i | e in events :: e.api.discovery(i) == discovery)
    && !SameAt(cluster, Run(p, events, cluster), ref)
  }

  /** Some run from some cluster changes the object. */
  ghost predicate Changeable(p: Policy, discovery: Discovery, ref: Ref) {
    exists events, cluster :: Changes(p, discovery, events, cluster, ref)
  }

  /** Read-only policies: nothing ever changes exactly when neither writes nor destructive operations are
      allowed. A policy that allows only the latter, which no configuration produces, still deletes. */
  lemma ReadOnlyIff(p: Policy, discovery: Discovery, kind: string, ref: Ref)
    requires Addressable(discovery, kind, ref) && ref.ns.Some? && CheckNamespace(p, ref.ns.value) == Pass
    requires !IsControlPlane(ref.ns.value)
    ensures (forall events, cluster :: Run(p, events, cluster) == cluster) <==> !p.allowWrites && !p.allowDestructive
  {
    if !p.allowWrites && !p.allowDestructive {
      forall events, cluster ensures Run(p, events, cluster) == cluster {
        ReadOnlyRun(p, events, cluster);
      }
    } else {
      PermittedCanChange(p, discovery, kind, ref);
      var events, cluster :| Changes(p, discovery, events, cluster, ref);
      assert Run(p, events, cluster) != cluster;
    }
  }

  lemma {:induction false} ReadOnlyRun(p: Policy, events: seq<Event>, cluster: Cluster)
    requires !p.allowWrites && !p.allowDestructive
    ensures Run(p, events, cluster) == cluster
  {
    var after := Run(p, events, cluster);
    forall r: Ref ensures (r in after <==> r in cluster) && (r in after ==> after[r] == cluster[r]) {
      UnpermittedNeverChanges(p, events, cluster, r);
    }
    assert after.Keys == cluster.Keys;
  }

  // ----- Dry runs -----

  /** The dry-run argument of a call; false for the tools that have none. */
  function AsksDryRun(call: Call): bool {
    match call
    case ApplyManifest(_, _, _, _, dryRun) => dryRun != Some(false)
    case RolloutRestart(_, _, _) => false
    case RolloutUndo(_, _, _) => false
    case LabelOrAnnotate(_, _, _, _) => false
    case _ => call.dry
  }

  /** How many requests a call makes when none is refused. */
  function Requests(p: Policy, call: Call): nat {
    if !call.ApplyManifest? then 1 else if ApplyRefusal(p, call).Some? then 0 else |call.docs.value|
  }

  /** Where request `i` of a call goes, if its guards let it. */
  function RequestAim(p: Policy, discovery: Discovery, call: Call, i: nat): Aim
    requires i < Requests(p, call)
  {
    if call.ApplyManifest? then DocAim(p, discovery, Defaulted(call.docs.value[i], ResolveNs(call.ns)), DryRun(call))
    else Target(p, discovery, call)
  }

  /** The guards refuse the call before its first request. */
  predicate RefusedAtOnce(p: Policy, discovery: Discovery, call: Call) {
    Requests(p, call) == 0 || RequestAim(p, discovery, call, 0).Refused?
  }

  lemma AimKeepsDryRun(p: Policy, discovery: Discovery, call: Call, i: nat)
    requires i < Requests(p, call) && RequestAim(p, discovery, call, i).At?
    ensures RequestAim(p, discovery, call, i).dryRun == AsksDryRun(call)
  {}

  lemma {:induction false} DryLoopKeeps(aims: nat -> Aim, replies: nat -> Reply, n: nat, cluster: Cluster, i: nat)
    requires forall j: nat | j < n && aims(j).At? :: aims(j).dryRun
    ensures Loop(aims, replies, n, cluster, i).0 == cluster
    decreases n - i
  {
    if i < n { DryLoopKeeps(aims, replies, n, cluster, i + 1); }
  }

  ghost predicate ChangesNothing(p: Policy, discovery: Discovery, call: Call) {
    forall api: Api, cluster | api.discovery(0) == discovery :: Effect(p, call, api, cluster) == cluster
  }

  /** Whatever the API answers, a call changes nothing exactly when its guards refuse it at once or it asks
      for a dry run. So a rollout, label or annotate call that its guards accept can always change the
      cluster. */
  lemma ChangesNothingIff(p: Policy, discovery: Discovery, call: Call)
    ensures ChangesNothing(p, discovery, call) <==> RefusedAtOnce(p, discovery, call) || AsksDryRun(call)
  {
    if RefusedAtOnce(p, discovery, call) || AsksDryRun(call) {
      forall api: Api, cluster | api.discovery(0) == discovery ensures Effect(p, call, api, cluster) == cluster {
        HarmlessEffect(p, call, api, cluster);
      }
    } else {
      AimKeepsDryRun(p, discovery, call, 0);
      var api := Api(_ => discovery, _ => Reply(true, Stored(Null)));
      FirstRequestChanges(p, call, api);
    }
  }

  lemma HarmlessEffect(p: Policy, call: Call, api: Api, cluster: Cluster)
    requires RefusedAtOnce(p, api.discovery(0), call) || AsksDryRun(call)
    ensures Effect(p, call, api, cluster) == cluster
  {
    if call.ApplyManifest? {
      if ApplyRefusal(p, call).None? && DryRun(call) {
        var docs, ns := call.docs.value, ResolveNs(call.ns);
        var aims := Aims(p, api, docs, ns, true);
        forall j: nat | j < |docs| && aims(j).At? ensures aims(j).dryRun {
          DocAimsDryRun(p, api, docs, ns, true, j);
        }
        DryLoopKeeps(aims, api.replies, |docs|, cluster, 0);
      }
    } else if Target(p, api.discovery(0), call).At? {
      AimKeepsDryRun(p, api.discovery(0), call, 0);
    }
  }

  lemma FirstRequestChanges(p: Policy, call: Call, api: Api)
    requires Requests(p, call) > 0 && RequestAim(p, api.discovery(0), call, 0).At?
    requires !RequestAim(p, api.discovery(0), call, 0).dryRun && api.replies(0) == Reply(true, Stored(Null))
    ensures Effect(p, call, api, map[]) != map[]
  {
    assert RequestAim(p, api.discovery(0), call, 0).ref in Effect(p, call, api, map[]);
  }

  // ----- Any number of calls, interleaved -----

  /** What the handlers decide on their own: how many requests a call makes, and where each one goes. */
  datatype Guards = Guards(requests: Call -> nat, aim: (Discovery, Call, nat) -> Aim)

  function GuardsOf(p: Policy): Guards {
    Guards((call: Call) => Requests(p, call),
           (discovery: Discovery, call: Call, i: nat) =>
             if i < Requests(p, call) then RequestAim(p, discovery, call, i) else Refused(NoDocuments))
  }

  /** Before the guards of request `i`; between them and the request; after the last request. */
  datatype Pc = Checking(i: nat) | Sending(i: nat, aim: Aim) | Finished

  datatype Flight = Flight(call: Call, pc: Pc)

  /** Every step names its call. Discovery answers while the guards run, the API when the request is sent,
      and steps of other calls may come between the two. */
  datatype Turn = Arrive(id: nat, call: Call) | Check(id: nat, discovery: Discovery) | Request(id: nat, reply: Reply)

  datatype Scene = Scene(cluster: Cluster, flights: map<nat, Flight>)

  /** The call before request `i`. */
  function Before(g: Guards, call: Call, i: nat): Flight {
    Flight(call, if i < g.requests(call) then Checking(i) else Finished)
  }

  function Checked(g: Guards, f: Flight, discovery: Discovery): Flight
    requires f.pc.Checking?
  {
    var aim := g.aim(discovery, f.call, f.pc.i);
    Flight(f.call, if aim.Refused? then Finished else Sending(f.pc.i, aim))
  }

  function Sent(g: Guards, f: Flight, reply: Reply): Flight
    requires f.pc.Sending?
  {
    if reply.failed then Flight(f.call, Finished) else Before(g, f.call, f.pc.i + 1)
  }

  function NextTurn(g: Guards, s: Scene, turn: Turn): Option<Scene> {
    match turn
    case Arrive(id, call) =>
      if id in s.flights then None else Some(s.(flights := s.flights[id := Before(g, call, 0)]))
    case Check(id, discovery) =>
      if id !in s.flights || !s.flights[id].pc.Checking? then None
      else Some(s.(flights := s.flights[id := Checked(g, s.flights[id], discovery)]))
    case Request(id, reply) =>
      if id !in s.flights || !s.flights[id].pc.Sending? then None
      else Some(Scene(Written(s.cluster, s.flights[id].pc.aim, reply), s.flights[id := Sent(g, s.flights[id], reply)]))
  }

  function RunTurns(g: Guards, s: Scene, turns: seq<Turn>): Option<Scene> {
    if turns == [] then Some(s)
    else
      var before := RunTurns(g, s, turns[..|turns| - 1]);
      if before.None? then None else NextTurn(g, before.value, turns[|turns| - 1])
  }

  lemma AimsArePermitted(p: Policy, discovery: Discovery, call: Call, i: nat)
    ensures var aim := GuardsOf(p).aim(discovery, call, i);
            aim.At? ==> Permitted(p, aim.ref)
  {
    if i < Requests(p, call) && RequestAim(p, discovery, call, i).At? {
      if call.ApplyManifest? {
        DocGuardsImplyPermitted(p, discovery, Defaulted(call.docs.value[i], ResolveNs(call.ns)), DryRun(call));
      } else {
        GuardsImplyPermitted(p, discovery, call);
      }
    }
  }

  /** A call about to send a request sends it to an object the policy permits. */
  predicate Guarded(p: Policy, f: Flight) { f.pc.Sending? && f.pc.aim.At? ==> Permitted(p, f.pc.aim.ref) }

  lemma TurnKeepsUnpermitted(p: Policy, s: Scene, turn: Turn, ref: Ref)
    requires !Permitted(p, ref) && NextTurn(GuardsOf(p), s, turn).Some?
    requires forall id | id in s.flights :: Guarded(p, s.flights[id])
    ensures var after := NextTurn(GuardsOf(p), s, turn).value;
            SameAt(s.cluster, after.cluster, ref) && forall id | id in after.flights :: Guarded(p, after.flights[id])
  {
    if turn.Check? {
      AimsArePermitted(p, turn.discovery, s.flights[turn.id].call, s.flights[turn.id].pc.i);
    }
  }

  /** However the requests of any number of calls interleave, those of a manifest's documents included, and
      whatever discovery and the API answer each time, an object the policy does not permit never changes. */
  lemma {:induction false} InterleavedNeverChanges(p: Policy, cluster: Cluster, turns: seq<Turn>, ref: Ref)
    requires !Permitted(p, ref) && RunTurns(GuardsOf(p), Scene(cluster, map[]), turns).Some?
    ensures var s := RunTurns(GuardsOf(p), Scene(cluster, map[]), turns).value;
            SameAt(cluster, s.cluster, ref) && forall id | id in s.flights :: Guarded(p, s.flights[id])
  {
    if turns != [] {
      var init := turns[..|turns| - 1];
      InterleavedNeverChanges(p, cluster, init, ref);
      TurnKeepsUnpermitted(p, RunTurns(GuardsOf(p), Scene(cluster, map[]), init).value, turns[|turns| - 1], ref);
    }
  }

  /** The turns of one call from request `i` on, with no other call between them. */
  function Alone(g: Guards, call: Call, api: Api, id: nat, i: nat): seq<Turn>
    decreases g.requests(call) - i
  {
    if i >= g.requests(call) then []
    else if g.aim(api.discovery(i), call, i).Refused? then [Check(id, api.discovery(i))]
    else
      [Check(id, api.discovery(i)), Request(id, api.replies(i))] +
      if api.replies(i).failed then [] else Alone(g, call, api, id, i + 1)
  }

  /** Where the requests of a call go when nothing comes in between. */
  function CallAims(g: Guards, call: Call, api: Api): nat -> Aim { (i: nat) => g.aim(api.discovery(i), call, i) }

  /** What request `i` and the later ones do to the cluster. */
  function EffectFrom(g: Guards, call: Call, api: Api, cluster: Cluster, i: nat): Cluster {
    Loop(CallAims(g, call, api), api.replies, g.requests(call), cluster, i).0
  }

  lemma {:induction false} SameAimsSameLoop(a: nat -> Aim, b: nat -> Aim, replies: nat -> Reply, n: nat,
                                           cluster: Cluster, i: nat)
    requires forall j: nat | j < n :: a(j) == b(j)
    ensures Loop(a, replies, n, cluster, i) == Loop(b, replies, n, cluster, i)
    decreases n - i
  {
    if i < n { SameAimsSameLoop(a, b, replies, n, Written(cluster, a(i), replies(i)), i + 1); }
  }

  lemma AimsAgree(p: Policy, discovery: Discovery, call: Call, i: nat)
    requires i < Requests(p, call)
    ensures GuardsOf(p).aim(discovery, call, i) == RequestAim(p, discovery, call, i)
  {}

  lemma EffectIsEffectFrom(p: Policy, call: Call, api: Api, cluster: Cluster)
    ensures EffectFrom(GuardsOf(p), call, api, cluster, 0) == Effect(p, call, api, cluster)
  {
    var g := GuardsOf(p);
    if !call.ApplyManifest? {
      AimsAgree(p, api.discovery(0), call, 0);
      SingleRequest(CallAims(g, call, api), api.replies, cluster);
    } else if ApplyRefusal(p, call).None? {
      var docs, ns := call.docs.value, ResolveNs(call.ns);
      var a, b := CallAims(g, call, api), Aims(p, api, docs, ns, DryRun(call));
      forall j: nat | j < |docs| ensures a(j) == b(j) {
        AimsAgree(p, api.discovery(j), call, j);
      }
      SameAimsSameLoop(a, b, api.replies, |docs|, cluster, 0);
    }
  }

  lemma SingleRequest(aims: nat -> Aim, replies: nat -> Reply, cluster: Cluster)
    ensures Loop(aims, replies, 1, cluster, 0).0 == Written(cluster, aims(0), replies(0))
  {
    assert Loop(aims, replies, 1, Written(cluster, aims(0), replies(0)), 1).0 == Written(cluster, aims(0), replies(0));
  }

  lemma {:induction false} TurnsSplit(g: Guards, s: Scene, a: seq<Turn>, b: seq<Turn>)
    requires RunTurns(g, s, a).Some?
    ensures RunTurns(g, s, a + b) == RunTurns(g, RunTurns(g, s, a).value, b)
  {
    if b == [] {
      assert a + b == a;
    } else {
      TurnsSplit(g, s, a, b[..|b| - 1]);
      assert (a + b)[..|a + b| - 1] == a + b[..|b| - 1];
    }
  }

  lemma TwoTurns(g: Guards, s: Scene, t: Turn, u: Turn)
    requires NextTurn(g, s, t).Some?
    ensures RunTurns(g, s, [t]) == NextTurn(g, s, t)
    ensures RunTurns(g, s, [t, u]) == NextTurn(g, NextTurn(g, s, t).value, u)
  {
    assert [t][..0] == [] && [t, u][..1] == [t];
  }

  /** One request of an uninterrupted call. */
  lemma OneRequest(g: Guards, s: Scene, api: Api, id: nat, call: Call, i: nat)
    requires id in s.flights && s.flights[id] == Flight(call, Checking(i))
    ensures var aim := g.aim(api.discovery(i), call, i);
            if aim.Refused? then
              RunTurns(g, s, [Check(id, api.discovery(i))]) ==
                Some(s.(flights := s.flights[id := Flight(call, Finished)]))
            else
              RunTurns(g, s, [Check(id, api.discovery(i)), Request(id, api.replies(i))]) ==
              Some(Scene(Written(s.cluster, aim, api.replies(i)),
                         s.flights[id := if api.replies(i).failed then Flight(call, Finished)
                                            else Before(g, call, i + 1)]))
  {
    var check, send := Check(id, api.discovery(i)), Request(id, api.replies(i));
    TwoTurns(g, s, check, send);
    var aim := g.aim(api.discovery(i), call, i);
    if aim.At? {
      var checked := NextTurn(g, s, check).value;
      assert checked == s.(flights := s.flights[id := Flight(call, Sending(i, aim))]);
      var last := if api.replies(i).failed then Flight(call, Finished) else Before(g, call, i + 1);
      assert checked.flights[id := last] == s.flights[id := last];
    }
  }

  lemma {:induction false} AloneFrom(g: Guards, s: Scene, api: Api, id: nat, call: Call, i: nat)
    requires id in s.flights && s.flights[id] == Before(g, call, i)
    ensures RunTurns(g, s, Alone(g, call, api, id, i)) ==
              Some(Scene(EffectFrom(g, call, api, s.cluster, i), s.flights[id := Flight(call, Finished)]))
    decreases g.requests(call) - i
  {
    if i < g.requests(call) {
      OneRequest(g, s, api, id, call, i);
      var aim := g.aim(api.discovery(i), call, i);
      if aim.At? {
        var two := [Check(id, api.discovery(i)), Request(id, api.replies(i))];
        if api.replies(i).failed {
          assert two + [] == two;
        } else {
          var sent := Scene(Written(s.cluster, aim, api.replies(i)), s.flights[id := Before(g, call, i + 1)]);
          TurnsSplit(g, s, two, Alone(g, call, api, id, i + 1));
          AloneFrom(g, sent, api, id, call, i + 1);
          assert sent.flights[id := Flight(call, Finished)] == s.flights[id := Flight(call, Finished)];
        }
      }
    } else {
      assert s.flights[id := Flight(call, Finished)] == s.flights;
    }
  }

  /** A call that no other call interrupts has exactly the effect that the serial runs above are made of. */
  lemma AloneIsEffect(p: Policy, s: Scene, api: Api, id: nat, call: Call)
    requires id !in s.flights
    ensures RunTurns(GuardsOf(p), s, [Arrive(id, call)] + Alone(GuardsOf(p), call, api, id, 0)) ==
              Some(Scene(Effect(p, call, api, s.cluster), s.flights[id := Flight(call, Finished)]))
  {
    ArrivedAlone(GuardsOf(p), s, api, id, call);
    EffectIsEffectFrom(p, call, api, s.cluster);
  }

  lemma ArrivedAlone(g: Guards, s: Scene, api: Api, id: nat, call: Call)
    requires id !in s.flights
    ensures RunTurns(g, s, [Arrive(id, call)] + Alone(g, call, api, id, 0)) ==
              Some(Scene(EffectFrom(g, call, api, s.cluster, 0), s.flights[id := Flight(call, Finished)]))
  {
    var arrived := NextTurn(g, s, Arrive(id, call)).value;
    TwoTurns(g, s, Arrive(id, call), Arrive(id, call));
    TurnsSplit(g, s, [Arrive(id, call)], Alone(g, call, api, id, 0));
    AloneFrom(g, arrived, api, id, call, 0);
    assert arrived.flights[id := Flight(call, Finished)] == s.flights[id := Flight(call, Finished)];
  }
}
