/** The blast-radius policy and its guards. */
module Policy {
  import opened Wrappers
  import Names

  datatype Config = Config(
    allowWrites: bool, allowDestructive: bool, allowPrivilegedTargets: bool,
    namespaces: seq<string>, manifestKinds: seq<string>)

  /** The two lists are Go maps to bool, looked up with a default of false. */
  datatype Policy = Policy(
    allowWrites: bool, allowDestructive: bool, allowPrivilegedTargets: bool,
    namespaces: map<string, bool>, manifestKinds: map<string, bool>)

  datatype Refusal =
    | WritesDisabled | DestructiveDisabled | PrivilegedRequired | ControlPlane | OutsideAllowlist | KindNotAllowed
    | BadName | UnknownKind | MissingKind | MissingName | TooLarge | Undecodable | NoDocuments | BadArgument

  /** Where a call's request goes, or why there is none. */
  datatype Aim = Refused(why: Refusal) | At(ref: Ref, dryRun: bool)

  /** A stored object: `ns` is absent for a cluster-scoped one. */
  datatype Ref = Ref(resource: string, ns: Option<string>, name: string)

  /** The answer of one guard. */
  datatype Guard = Pass | Deny(why: Refusal) {
    predicate IsFailure() { Deny? }

    function PropagateFailure(): Aim
      requires Deny?
    {
      Refused(why)
    }
  }

  function AllTrue(list: seq<string>): map<string, bool> { map k | k in list :: true }

  method Listed(list: seq<string>) returns (m: map<string, bool>)
    ensures m == AllTrue(list)
  {
    m := map[];
    for i := 0 to |list|
      invariant m == AllTrue(list[..i])
    {
      m := m[list[i] := true];
      assert forall k :: k in list[..i + 1] <==> k in list[..i] || k == list[i];
    }
    assert list[..|list|] == list;
  }

  /** Destructive implies writes, so a policy made from a configuration never allows the one without the
      other. */
  method FromConfig(cfg: Config) returns (p: Policy)
    ensures p.allowWrites == (cfg.allowWrites || cfg.allowDestructive) && p.allowDestructive == cfg.allowDestructive
    ensures p.allowPrivilegedTargets == cfg.allowPrivilegedTargets
    ensures p.namespaces == AllTrue(cfg.namespaces) && p.manifestKinds == AllTrue(cfg.manifestKinds)
    ensures p.allowDestructive ==> p.allowWrites
    ensures forall ns :: CheckNamespace(p, ns) == Pass <==> cfg.namespaces == [] || ns in cfg.namespaces
  {
    var namespaces := Listed(cfg.namespaces);
    var kinds := Listed(cfg.manifestKinds);
    p := Policy(cfg.allowWrites || cfg.allowDestructive, cfg.allowDestructive,
                cfg.allowPrivilegedTargets, namespaces, kinds);
    if cfg.namespaces != [] {
      assert cfg.namespaces[0] in namespaces;
    }
  }

  function Require(ok: bool, why: Refusal): Guard { if ok then Pass else Deny(why) }

  function CheckMutating(p: Policy): Guard { Require(p.allowWrites, WritesDisabled) }

  function CheckDestructive(p: Policy): Guard { Require(p.allowDestructive, DestructiveDisabled) }

  /** An empty allowlist permits every namespace. */
  function CheckNamespace(p: Policy, ns: string): Guard {
    Require(|p.namespaces| == 0 || (ns in p.namespaces && p.namespaces[ns]), OutsideAllowlist)
  }

  predicate IsControlPlane(ns: string) { ns == "kube-system" || ns == "kube-public" || ns == "kube-node-lease" }

  function CheckTarget(p: Policy, ns: string, clusterScoped: bool): Guard {
    if clusterScoped && !p.allowPrivilegedTargets then Deny(PrivilegedRequired)
    else if ns != "" && IsControlPlane(ns) && !p.allowPrivilegedTargets then Deny(ControlPlane)
    else Pass
  }

  function CheckManifestKind(p: Policy, key: string): Guard {
    Require(|p.manifestKinds| == 0 || (key in p.manifestKinds && p.manifestKinds[key]), KindNotAllowed)
  }

  function PolicyTarget(p: Policy, ns: string, clusterScoped: bool): Guard {
    var g := CheckTarget(p, ns, clusterScoped);
    if g.Deny? then g
    else if !clusterScoped then CheckNamespace(p, ns) else Pass
  }

  function ResolveNs(ns: string): string { if ns == "" then "default" else ns }

  /** `rpc.ValidateName`, decided by the one-pass scanner. */
  function CheckName(name: string): (g: Guard)
    ensures g == Pass <==> Names.ValidateName(name) == None
  {
    Names.ScannerDecides(name);
    Require(name != "" && |name| <= 253 && Names.Scan(name, Names.LabelStart, true), BadName)
  }

  /** Whether the policy leaves room for any change of the object. */
  predicate Permitted(p: Policy, ref: Ref) {
    && (p.allowWrites || p.allowDestructive)
    && match ref.ns
       case None => p.allowPrivilegedTargets
       case Some(ns) => CheckNamespace(p, ns) == Pass && (p.allowPrivilegedTargets || !IsControlPlane(ns))
  }
}
