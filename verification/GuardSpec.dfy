/** What the guards of the mutating tools let through, written out without the guards: which policy, which
    arguments and which answer of discovery lead to which object. */
module GuardSpec {
  import opened Wrappers
  import opened Json
  import opened GoText
  import opened Policy
  import opened Mutations
  import Names
  import Rollout

  predicate ControlPlaneNamespace(ns: string) { ns in {"kube-system", "kube-public", "kube-node-lease"} }

  /** The empty list allows everything, another one what it maps to true. */
  predicate Allows(list: map<string, bool>, key: string) { list == map[] || (key in list && list[key]) }

  /** The policy lets a call touch the object, as far as its place is concerned. */
  predicate PlaceAllowed(p: Policy, ref: Ref) {
    match ref.ns
    case None => p.allowPrivilegedTargets
    case Some(ns) => Allows(p.namespaces, ns) && (ControlPlaneNamespace(ns) ==> p.allowPrivilegedTargets)
  }

  lemma EmptyList(list: map<string, bool>)
    ensures |list| == 0 <==> list == map[]
  {}

  /** The permission that the run theorems are about. */
  lemma PermittedIff(p: Policy, ref: Ref)
    ensures Permitted(p, ref) <==> (p.allowWrites || p.allowDestructive) && PlaceAllowed(p, ref)
  {
    EmptyList(p.namespaces);
  }

  lemma PolicyTargetIff(p: Policy, resource: string, ns: string, name: string, namespaced: bool)
    requires ns != ""
    ensures PolicyTarget(p, ns, !namespaced) == Pass <==>
            PlaceAllowed(p, Ref(resource, if namespaced then Some(ns) else None, name))
  {
    EmptyList(p.namespaces);
  }

  function NsOr(ns: string, default: string): string { if ns == "" then default else ns }

  /** Discovery maps the kind to the object's resource, and the object lies in the namespace if it lies in one. */
  predicate Resolves(discovery: Discovery, kind: string, apiVersion: string, ns: string, ref: Ref) {
    && discovery(kind, apiVersion) == Some(Kind(ref.resource, ref.ns.Some?))
    && (ref.ns.Some? ==> ref.ns.value == ns)
  }

  predicate Fixed(ref: Ref, resource: string, ns: string) {
    ref.resource == resource && ref.ns == Some(NsOr(ns, "default"))
  }

  predicate ScalesTo(kind: string, resource: string) {
    || (resource == "deployments" && (Spells(kind, "deployment") || Spells(kind, "deploy")))
    || (resource == "statefulsets" && (Spells(kind, "statefulset") || Spells(kind, "sts")))
    || (resource == "replicasets" && (Spells(kind, "replicaset") || Spells(kind, "rs")))
  }

  predicate RestartsTo(kind: string, resource: string) {
    || (resource == "deployments" && (Spells(kind, "deployment") || Spells(kind, "deploy")))
    || (resource == "statefulsets" && (Spells(kind, "statefulset") || Spells(kind, "sts")))
    || (resource == "daemonsets" && (Spells(kind, "daemonset") || Spells(kind, "ds")))
  }

  lemma ScaleResourceIff(kind: string, resource: string)
    ensures ScaleResource(kind) == Some(resource) <==> ScalesTo(kind, resource)
  {
    ToLowerIff(kind, "deployment");
    ToLowerIff(kind, "deploy");
    ToLowerIff(kind, "statefulset");
    ToLowerIff(kind, "sts");
    ToLowerIff(kind, "replicaset");
    ToLowerIff(kind, "rs");
  }

  lemma ControllerResourceIff(kind: string, resource: string)
    ensures ControllerResource(kind) == Some(resource) <==> RestartsTo(kind, resource)
  {
    Rollout.ControllerKindIff(kind);
  }

  /** The kind, type and port arguments lead to the object. */
  predicate ArgumentsLeadTo(discovery: Discovery, call: Call, ref: Ref)
    requires !call.ApplyManifest?
  {
    match call
    case Patch(kind, apiVersion, ns, _, patchType, _) =>
      && (patchType == "" || Spells(patchType, "strategic") || Spells(patchType, "merge") || Spells(patchType, "json"))
      && Resolves(discovery, kind, apiVersion, NsOr(ns, "default"), ref)
    case Scale(kind, ns, _, _) => ScalesTo(kind, ref.resource) && Fixed(ref, ref.resource, ns)
    case RolloutRestart(kind, ns, _) => RestartsTo(kind, ref.resource) && Fixed(ref, ref.resource, ns)
    case RolloutUndo(kind, ns, _) => EqualFold(kind, "deployment") && Fixed(ref, "deployments", ns)
    case LabelOrAnnotate(kind, apiVersion, ns, _) => Resolves(discovery, kind, apiVersion, NsOr(ns, "default"), ref)
    case CreateNamespace(_, _) => ref.resource == "namespaces" && ref.ns == None
    case WriteConfigMap(ns, _, _) => Fixed(ref, "configmaps", ns)
    case CreateSecret(ns, _, _) => Fixed(ref, "secrets", ns)
    case CreateService(ns, _, port, serviceType, _) =>
      && port != 0 && Fixed(ref, "services", ns)
      && (serviceType == "" || SpellsUpper(serviceType, "CLUSTERIP") || SpellsUpper(serviceType, "NODEPORT") ||
          SpellsUpper(serviceType, "LOADBALANCER"))
    case DeleteManifest(kind, apiVersion, ns, _, _) => Resolves(discovery, kind, apiVersion, NsOr(ns, "default"), ref)
  }

  predicate Enabled(p: Policy, call: Call) { if call.DeleteManifest? then p.allowDestructive else p.allowWrites }

  lemma TypesIff(s: string)
    ensures KnownPatchType(s) <==> s == "" || Spells(s, "strategic") || Spells(s, "merge") || Spells(s, "json")
    ensures KnownServiceType(s) <==>
            s == "" || SpellsUpper(s, "CLUSTERIP") || SpellsUpper(s, "NODEPORT") || SpellsUpper(s, "LOADBALANCER")
  {
    ToLowerIff(s, "strategic");
    ToLowerIff(s, "merge");
    ToLowerIff(s, "json");
    ToUpperIff(s, "CLUSTERIP");
    ToUpperIff(s, "NODEPORT");
    ToUpperIff(s, "LOADBALANCER");
  }

  /** A call that makes one request aims at an object exactly when its tool is enabled, the object has the
      name given and that is a valid one, its place is allowed, and the arguments lead to it. */
  lemma TargetIff(p: Policy, discovery: Discovery, call: Call, ref: Ref, dry: bool)
    requires !call.ApplyManifest?
    ensures Target(p, discovery, call) == At(ref, dry) <==>
            && Enabled(p, call) && Names.ValidateName(call.name) == None && ref.name == call.name
            && PlaceAllowed(p, ref) && ArgumentsLeadTo(discovery, call, ref) && dry == AsksDryRun(call)
  {
    match call
    case Patch(_, _, _, _, _, _) => ResolvedTargetIff(p, discovery, call, ref, dry);
    case LabelOrAnnotate(_, _, _, _) => ResolvedTargetIff(p, discovery, call, ref, dry);
    case DeleteManifest(_, _, _, _, _) => ResolvedTargetIff(p, discovery, call, ref, dry);
    case Scale(_, _, _, _) => ScaleTargetIff(p, discovery, call, ref, dry);
    case RolloutRestart(_, _, _) => RolloutTargetIff(p, discovery, call, ref, dry);
    case RolloutUndo(_, _, _) => RolloutTargetIff(p, discovery, call, ref, dry);
    case _ => CreateTargetIff(p, discovery, call, ref, dry);
  }

  lemma ResolvedTargetIff(p: Policy, discovery: Discovery, call: Call, ref: Ref, dry: bool)
    requires call.Patch? || call.LabelOrAnnotate? || call.DeleteManifest?
    ensures Target(p, discovery, call) == At(ref, dry) <==>
            && Enabled(p, call) && Names.ValidateName(call.name) == None && ref.name == call.name
            && PlaceAllowed(p, ref) && ArgumentsLeadTo(discovery, call, ref) && dry == AsksDryRun(call)
  {
    PolicyTargetIff(p, ref.resource, NsOr(call.ns, "default"), ref.name, true);
    PolicyTargetIff(p, ref.resource, NsOr(call.ns, "default"), ref.name, false);
    if call.Patch? { TypesIff(call.patchType); }
  }

  lemma ScaleTargetIff(p: Policy, discovery: Discovery, call: Call, ref: Ref, dry: bool)
    requires call.Scale?
    ensures Target(p, discovery, call) == At(ref, dry) <==>
            && Enabled(p, call) && Names.ValidateName(call.name) == None && ref.name == call.name
            && PlaceAllowed(p, ref) && ArgumentsLeadTo(discovery, call, ref) && dry == AsksDryRun(call)
  {
    PolicyTargetIff(p, ref.resource, NsOr(call.ns, "default"), ref.name, true);
    ScaleResourceIff(call.kind, ref.resource);
  }

  lemma RolloutTargetIff(p: Policy, discovery: Discovery, call: Call, ref: Ref, dry: bool)
    requires call.RolloutRestart? || call.RolloutUndo?
    ensures Target(p, discovery, call) == At(ref, dry) <==>
            && Enabled(p, call) && Names.ValidateName(call.name) == None && ref.name == call.name
            && PlaceAllowed(p, ref) && ArgumentsLeadTo(discovery, call, ref) && dry == AsksDryRun(call)
  {
    PolicyTargetIff(p, ref.resource, NsOr(call.ns, "default"), ref.name, true);
    if call.RolloutRestart? { ControllerResourceIff(call.kind, ref.resource); }
  }

  lemma CreateTargetIff(p: Policy, discovery: Discovery, call: Call, ref: Ref, dry: bool)
    requires call.CreateNamespace? || call.WriteConfigMap? || call.CreateSecret? || call.CreateService?
    ensures Target(p, discovery, call) == At(ref, dry) <==>
            && Enabled(p, call) && Names.ValidateName(call.name) == None && ref.name == call.name
            && PlaceAllowed(p, ref) && ArgumentsLeadTo(discovery, call, ref) && dry == AsksDryRun(call)
  {
    if !call.CreateNamespace? { PolicyTargetIff(p, ref.resource, NsOr(call.ns, "default"), ref.name, true); }
    if call.CreateService? { TypesIff(call.serviceType); }
  }

  /** A manifest document may be stored as the object. */
  predicate DocAllowed(p: Policy, discovery: Discovery, doc: Doc, defaultNs: string, ref: Ref) {
    var ns := NsOr(doc.ns, defaultNs);
    && doc.kind != "" && doc.name != "" && ref.name == doc.name
    && Resolves(discovery, doc.kind, doc.apiVersion, ns, ref)
    && Allows(p.manifestKinds, doc.kind + "." + doc.apiVersion)
    && (ref.ns == None || ControlPlaneNamespace(ns) ==> p.allowPrivilegedTargets)
    && Allows(p.namespaces, ns)
  }

  /** Its guards send a document to exactly the object it may be stored as. */
  lemma DocAimIff(p: Policy, discovery: Discovery, doc: Doc, defaultNs: string, dryRun: bool, ref: Ref, dry: bool)
    requires defaultNs != ""
    ensures DocAim(p, discovery, Defaulted(doc, defaultNs), dryRun) == At(ref, dry) <==>
            DocAllowed(p, discovery, doc, defaultNs, ref) && dry == dryRun
  {
    EmptyList(p.namespaces);
    EmptyList(p.manifestKinds);
  }

  /** Each document that `apply_manifest` got past is allowed, and the first one it did not get past is not,
      unless the API rejected it. */
  lemma AppliedDocsAreAllowed(p: Policy, api: Api, docs: seq<Doc>, defaultNs: string, dryRun: bool, cluster: Cluster)
    requires Honest(api) && defaultNs != ""
    ensures var k := ApplyLoop(p, api, docs, defaultNs, dryRun, cluster).1;
            && k <= |docs|
            && (forall j | 0 <= j < k ::
                  AimOf(p, api, docs, defaultNs, dryRun, j).At? &&
                  DocAllowed(p, api.discovery(j), docs[j], defaultNs, AimOf(p, api, docs, defaultNs, dryRun, j).ref))
            && (k < |docs| && !api.replies(k).failed ==>
                  forall ref :: !DocAllowed(p, api.discovery(k), docs[k], defaultNs, ref))
  {
    ApplyStoresAPrefix(p, api, docs, defaultNs, dryRun, cluster);
    var k := ApplyLoop(p, api, docs, defaultNs, dryRun, cluster).1;
    forall j | 0 <= j < k
      ensures DocAllowed(p, api.discovery(j), docs[j], defaultNs, AimOf(p, api, docs, defaultNs, dryRun, j).ref)
    {
      var aim := AimOf(p, api, docs, defaultNs, dryRun, j);
      DocAimIff(p, api.discovery(j), docs[j], defaultNs, dryRun, aim.ref, aim.dryRun);
    }
    if k < |docs| && !api.replies(k).failed {
      forall ref ensures !DocAllowed(p, api.discovery(k), docs[k], defaultNs, ref) {
        DocAimIff(p, api.discovery(k), docs[k], defaultNs, dryRun, ref, dryRun);
      }
    }
  }

  /** No kind of the list is the object's, whatever discovery answers in the run. */
  ghost predicate KindUnlisted(p: Policy, events: seq<Event>, ref: Ref) {
    && p.manifestKinds != map[]
    && forall e, i, kind: string, apiVersion: string |
         e in events && Allows(p.manifestKinds, kind + "." + apiVersion) ::
         e.api.discovery(i)(kind, apiVersion) != Some(Kind(ref.resource, ref.ns.Some?))
  }

  /** Under a list of manifest kinds, no run of `apply_manifest` calls changes an object of a kind that is not
      on the list. */
  lemma {:induction false} UnlistedKindNeverApplied(p: Policy, events: seq<Event>, cluster: Cluster, ref: Ref)
    requires KindUnlisted(p, events, ref) && forall e | e in events :: e.call.ApplyManifest?
    ensures SameAt(cluster, Run(p, events, cluster), ref)
  {
    if events != [] {
      var init, last := events[..|events| - 1], events[|events| - 1];
      assert forall e | e in init :: e in events;
      UnlistedKindNeverApplied(p, init, cluster, ref);
      if ApplyRefusal(p, last.call).None? {
        ApplyKeepsUnlisted(p, last.api, last.call.docs.value, ResolveNs(last.call.ns), DryRun(last.call),
                           Run(p, init, cluster), ref);
      }
    }
  }

  lemma ApplyKeepsUnlisted(p: Policy, api: Api, docs: seq<Doc>, defaultNs: string, dryRun: bool, cluster: Cluster,
                           ref: Ref)
    requires defaultNs != ""
    requires forall i, kind: string, apiVersion: string | Allows(p.manifestKinds, kind + "." + apiVersion) ::
               api.discovery(i)(kind, apiVersion) != Some(Kind(ref.resource, ref.ns.Some?))
    ensures SameAt(cluster, ApplyLoop(p, api, docs, defaultNs, dryRun, cluster).0, ref)
  {
    var aims := Aims(p, api, docs, defaultNs, dryRun);
    forall j: nat | j < |docs| && aims(j).At? && !aims(j).dryRun ensures aims(j).ref != ref {
      DocAimIff(p, api.discovery(j), docs[j], defaultNs, dryRun, aims(j).ref, aims(j).dryRun);
    }
    LoopKeeps(aims, api.replies, |docs|, cluster, 0, ref);
  }

  /** The checks before the first document, in their order. */
  lemma ApplyRefusalIff(p: Policy, call: Call)
    requires call.ApplyManifest?
    ensures ApplyRefusal(p, call) == None <==>
            p.allowWrites && call.bytes <= call.maxBytes && call.docs.Some? && call.docs.value != []
    ensures ApplyRefusal(p, call) == Some(WritesDisabled) <==> !p.allowWrites
    ensures ApplyRefusal(p, call) == Some(TooLarge) <==> p.allowWrites && call.bytes > call.maxBytes
    ensures ApplyRefusal(p, call) == Some(Undecodable) <==>
            p.allowWrites && call.bytes <= call.maxBytes && call.docs.None?
  {}

  /** Without writes only `delete_manifest` ever changes anything, and without destructive operations it does
      not either. */
  lemma {:induction false} DisabledToolsChangeNothing(p: Policy, events: seq<Event>, cluster: Cluster)
    requires forall e | e in events :: !Enabled(p, e.call)
    ensures Run(p, events, cluster) == cluster
  {
    if events != [] {
      var init, last := events[..|events| - 1], events[|events| - 1];
      DisabledToolsChangeNothing(p, init, cluster);
      assert !Enabled(p, last.call);
      if last.call.ApplyManifest? {
        ApplyRefusalIff(p, last.call);
      } else if Target(p, last.api.discovery(0), last.call).At? {
        var aim := Target(p, last.api.discovery(0), last.call);
        TargetIff(p, last.api.discovery(0), last.call, aim.ref, aim.dryRun);
      }
    }
  }

  /** What a refused call is told: that its tool is disabled before anything else, and then that its name is
      not valid. */
  lemma RefusalsInOrder(p: Policy, discovery: Discovery, call: Call)
    requires !call.ApplyManifest?
    ensures Target(p, discovery, call) == Refused(WritesDisabled) <==> !p.allowWrites && !call.DeleteManifest?
    ensures Target(p, discovery, call) == Refused(DestructiveDisabled) <==> !p.allowDestructive && call.DeleteManifest?
    ensures Target(p, discovery, call) == Refused(BadName) <==>
            Enabled(p, call) && Names.ValidateName(call.name) != None
  {}
}
