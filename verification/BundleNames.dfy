/** File names in the operator bundle: when do two resources get the same one? */
module BundleNames {
  import opened Options

  datatype Subject = Subject(kind: string, name: string, namespace: Option<string>)

  /** The kinds the bundle permits, and any other. */
  datatype Kind =
    | ClusterServiceVersion | CustomResourceDefinition | Deployment | Secret | ClusterRole | ClusterRoleBinding
    | ConfigMap | ServiceAccount | Service | Role | RoleBinding | PrometheusRule | ServiceMonitor
    | PodDisruptionBudget | PriorityClass | VerticalPodAutoscaler | ConsoleYamlSample
    | Unsupported(name: string)

  function KindName(kind: Kind): string {
    match kind
    case ClusterServiceVersion => "ClusterServiceVersion"
    case CustomResourceDefinition => "CustomResourceDefinition"
    case Deployment => "Deployment"
    case Secret => "Secret"
    case ClusterRole => "ClusterRole"
    case ClusterRoleBinding => "ClusterRoleBinding"
    case ConfigMap => "ConfigMap"
    case ServiceAccount => "ServiceAccount"
    case Service => "Service"
    case Role => "Role"
    case RoleBinding => "RoleBinding"
    case PrometheusRule => "PrometheusRule"
    case ServiceMonitor => "ServiceMonitor"
    case PodDisruptionBudget => "PodDisruptionBudget"
    case PriorityClass => "PriorityClass"
    case VerticalPodAutoscaler => "VerticalPodAutoscaler"
    case ConsoleYamlSample => "ConsoleYamlSample"
    case Unsupported(name) => name
  }

  predicate IsPermitted(kind: Kind) {
    !kind.Unsupported?
  }

  /** A resource document. roleRef and subjects are those of a binding; rules stands for the rest of a role. */
  datatype Resource = Resource(
    kind: Kind,
    name: string,
    namespace: Option<string>,
    rules: string,
    roleRef: string,
    subjects: Option<seq<Subject>>)

  /** A missing namespace and an empty one are alike here. */
  function NamespaceOf(r: Resource): string {
    if r.namespace.Some? then r.namespace.value else ""
  }

  function FilenameFor(r: Resource): string {
    KindName(r.kind) + "_" + (if NamespaceOf(r) != "" then NamespaceOf(r) + "_" else "") + r.name + ".yaml"
  }

  /** No underscore. */
  ghost predicate IsPlain(s: string) {
    forall i :: 0 <= i < |s| ==> s[i] != '_'
  }

  ghost predicate SameResource(a: Resource, b: Resource) {
    a.kind == b.kind && NamespaceOf(a) == NamespaceOf(b) && a.name == b.name
  }

  /** An unqualified resource whose name spells the namespace and the name of a qualified one. */
  ghost predicate Spells(a: Resource, b: Resource) {
    a.kind == b.kind && NamespaceOf(a) == "" && NamespaceOf(b) != "" && a.name == NamespaceOf(b) + "_" + b.name
  }

  /** Two qualified resources: the namespace of b goes on with an underscore where that of a ends, and a's name with the rest. */
  ghost predicate Shifts(a: Resource, b: Resource) {
    && a.kind == b.kind && NamespaceOf(a) != "" && NamespaceOf(a) + "_" <= NamespaceOf(b)
    && a.name == NamespaceOf(b)[|NamespaceOf(a)| + 1..] + "_" + b.name
  }

  /** The underscore between a's namespace and name, if any, stands further left than b's. */
  ghost predicate Blurs(a: Resource, b: Resource) {
    Spells(a, b) || Shifts(a, b)
  }

  /** Up to its first underscore a text is determined. */
  lemma FirstUnderscore(x: string, y: string, x': string, y': string)
    requires IsPlain(x) && IsPlain(x')
    requires x + "_" + y == x' + "_" + y'
    ensures x == x' && y == y'
  {
    var a, b := x + "_" + y, x' + "_" + y';
    assert a[|x|] == '_' && b[|x'|] == '_';
    assert forall i :: 0 <= i < |x| ==> a[i] == x[i];
    assert forall i :: 0 <= i < |x'| ==> b[i] == x'[i];
    assert |x| == |x'|;
    assert x == a[..|x|] == b[..|x|] == x';
    assert y == a[|x| + 1..] == b[|x| + 1..] == y';
  }

  /** Two ways to cut a text at an underscore: the one further right continues the other. */
  lemma CutFurtherRight(x: string, y: string, x': string, y': string)
    requires |x| < |x'|
    ensures x + "_" + y == x' + "_" + y' <==> x + "_" <= x' && y == x'[|x| + 1..] + "_" + y'
  {
    var n := |x| + 1;
    var a, b := x + "_" + y, x' + "_" + y';
    assert a[..n] == x + "_" && a[n..] == y;
    assert b[..n] == x'[..n] && b[n..] == x'[n..] + "_" + y';
    assert a == a[..n] + a[n..] && b == b[..n] + b[n..];
  }

  lemma CutAtTheSame(x: string, y: string, x': string, y': string)
    requires |x| == |x'|
    ensures x + "_" + y == x' + "_" + y' <==> x == x' && y == y'
  {
    var n := |x|;
    var a, b := x + "_" + y, x' + "_" + y';
    assert a[..n] == x && a[n + 1..] == y && b[..n] == x' && b[n + 1..] == y';
  }

  lemma SameEnd(x: string, y: string, end: string)
    requires x + end == y + end
    ensures x == y
  {
    assert x == (x + end)[..|x|];
    assert y == (y + end)[..|y|];
  }

  lemma KindNamePlain(kind: Kind)
    requires IsPermitted(kind)
    ensures IsPlain(KindName(kind))
  {
    match kind
    case ClusterServiceVersion | CustomResourceDefinition | Deployment | Secret => PlainNames1();
    case ClusterRole | ClusterRoleBinding | Role | RoleBinding => PlainNames2();
    case ConfigMap | ServiceAccount | Service | ServiceMonitor => PlainNames3();
    case PrometheusRule | PodDisruptionBudget | PriorityClass => PlainNames4();
    case VerticalPodAutoscaler | ConsoleYamlSample => PlainNames5();
  }

  lemma PlainNames1()
    ensures IsPlain("ClusterServiceVersion") && IsPlain("CustomResourceDefinition") && IsPlain("Deployment") && IsPlain("Secret")
  {
  }

  lemma PlainNames2()
    ensures IsPlain("ClusterRole") && IsPlain("ClusterRoleBinding") && IsPlain("Role") && IsPlain("RoleBinding")
  {
  }

  lemma PlainNames3()
    ensures IsPlain("ConfigMap") && IsPlain("ServiceAccount") && IsPlain("Service") && IsPlain("ServiceMonitor")
  {
  }

  lemma PlainNames4()
    ensures IsPlain("PrometheusRule") && IsPlain("PodDisruptionBudget") && IsPlain("PriorityClass")
  {
  }

  lemma PlainNames5()
    ensures IsPlain("VerticalPodAutoscaler") && IsPlain("ConsoleYamlSample")
  {
  }

  lemma KindNameUnique(a: Kind, b: Kind)
    requires IsPermitted(a) && IsPermitted(b) && KindName(a) == KindName(b)
    ensures a == b
  {
    var n, m := KindName(a), KindName(b);
    assert |n| == |m| && n[0] == m[0] && n[|n| - 1] == m[|m| - 1] && n[3] == m[3];
  }

  /** The part of the file name after the kind. */
  function Tail(r: Resource): string {
    (if NamespaceOf(r) != "" then NamespaceOf(r) + "_" else "") + r.name
  }

  lemma FilenameParts(r: Resource)
    ensures FilenameFor(r) == KindName(r.kind) + "_" + (Tail(r) + ".yaml")
  {
  }

  lemma TailCollision(a: Resource, b: Resource)
    requires a.kind == b.kind
    ensures Tail(a) == Tail(b) <==> SameResource(a, b) || Blurs(a, b) || Blurs(b, a)
  {
    var x, x' := NamespaceOf(a), NamespaceOf(b);
    if x == "" || x' == "" {
      assert "" + a.name == a.name && "" + b.name == b.name;
    } else if |x| < |x'| {
      CutFurtherRight(x, a.name, x', b.name);
    } else if |x| > |x'| {
      CutFurtherRight(x', b.name, x, a.name);
    } else {
      CutAtTheSame(x, a.name, x', b.name);
    }
  }

  /**
   Two resources share a file name exactly when they are the same resource, or when an underscore in a name or a
   namespace blurs where the namespace ends.
   */
  lemma FilenameCollision(a: Resource, b: Resource)
    requires IsPermitted(a.kind) && IsPermitted(b.kind)
    ensures FilenameFor(a) == FilenameFor(b) <==> SameResource(a, b) || Blurs(a, b) || Blurs(b, a)
  {
    FilenameParts(a);
    FilenameParts(b);
    if FilenameFor(a) == FilenameFor(b) {
      KindNamePlain(a.kind);
      KindNamePlain(b.kind);
      FirstUnderscore(KindName(a.kind), Tail(a) + ".yaml", KindName(b.kind), Tail(b) + ".yaml");
      KindNameUnique(a.kind, b.kind);
      SameEnd(Tail(a), Tail(b), ".yaml");
    }
    if a.kind == b.kind {
      TailCollision(a, b);
    }
  }

  /** Without underscores in namespaces and unqualified names, a file name gives back kind, namespace and name. */
  lemma FilenameInvertible(a: Resource, b: Resource)
    requires IsPermitted(a.kind) && IsPermitted(b.kind)
    requires IsPlain(NamespaceOf(a)) && IsPlain(NamespaceOf(b))
    requires (NamespaceOf(a) == "" ==> IsPlain(a.name)) && (NamespaceOf(b) == "" ==> IsPlain(b.name))
    ensures FilenameFor(a) == FilenameFor(b) <==> SameResource(a, b)
  {
    FilenameCollision(a, b);
    if Blurs(a, b) {
      NotPlain(a, b);
    } else if Blurs(b, a) {
      NotPlain(b, a);
    }
  }

  lemma NotPlain(a: Resource, b: Resource)
    requires Blurs(a, b)
    ensures if NamespaceOf(a) == "" then !IsPlain(a.name) else !IsPlain(NamespaceOf(b))
  {
    if NamespaceOf(a) == "" {
      assert a.name[|NamespaceOf(b)|] == '_';
    } else {
      assert NamespaceOf(b)[|NamespaceOf(a)|] == (NamespaceOf(a) + "_")[|NamespaceOf(a)|];
    }
  }

  /** The name is not unique for every two distinct resources: RBAC names may contain underscores. */
  lemma FilenamesDoCollide()
    ensures var a := Resource(Role, "team_reader", None, "", "", None);
            var b := Resource(Role, "reader", Some("team"), "", "", None);
            !SameResource(a, b) && FilenameFor(a) == FilenameFor(b) == "Role_team_reader.yaml"
  {
    var a := Resource(Role, "team_reader", None, "", "", None);
    var b := Resource(Role, "reader", Some("team"), "", "", None);
    assert "team_reader" == "team" + "_" + "reader";
    assert "Role" + "_" + "" + "team_reader" + ".yaml" == "Role_team_reader.yaml";
    FilenameCollision(a, b);
  }
}
