/**
 The operator bundle generator: indexes the resource documents by kind, moves roles into the ClusterServiceVersion
 (CSV) while trimming them and their bindings from the index, and bundles what is left, one file a document.
 */
module OperatorBundle {
  import opened Options
  import opened BundleNames

  type Index = map<Kind, seq<Resource>>

  datatype Permission = Permission(rules: string, serviceAccountName: string)

  datatype Failure =
    | UnsupportedKind | NoServiceAccountSubject | NoDeployment | UndefinedSupplementaryImage
    | UndefinedNamespace | NoAssociatedRoleBinding | NoSubjects

  /** The argument of trim_index: a resource, None, or the string ALL. */
  datatype Item = One(resource: Resource) | Nothing | All

  // ---------------------------------------------------------------------------------------------
  // Trimming
  // ---------------------------------------------------------------------------------------------

  predicate SameIdentity(a: Resource, b: Resource) {
    a.name == b.name && a.namespace == b.namespace
  }

  /** The list without its first item of that identity, if there is one. */
  function RemoveFirst(list: seq<Resource>, r: Resource): seq<Resource> {
    if list == [] then []
    else if SameIdentity(list[0], r) then list[1..]
    else [list[0]] + RemoveFirst(list[1..], r)
  }

  lemma {:induction false} RemoveFirstAt(list: seq<Resource>, r: Resource, found: nat)
    requires found <= |list| && forall j :: 0 <= j < found ==> list[j].name != r.name || list[j].namespace != r.namespace
    requires found < |list| ==> list[found].name == r.name && list[found].namespace == r.namespace
    ensures RemoveFirst(list, r) == if found < |list| then list[..found] + list[found + 1..] else list
  {
    if list != [] && !SameIdentity(list[0], r) {
      RemoveFirstAt(list[1..], r, found - 1);
    }
  }

  function RemoveFirstOfEach(list: seq<Resource>, items: seq<Resource>): seq<Resource> {
    if items == [] then list else RemoveFirst(RemoveFirstOfEach(list, items[..|items| - 1]), items[|items| - 1])
  }

  ghost predicate DistinctIdentities(list: seq<Resource>) {
    forall i, j :: 0 <= i < j < |list| ==> list[i].name != list[j].name || list[i].namespace != list[j].namespace
  }

  /** Some item has the identity of r. */
  predicate Named(items: seq<Resource>, r: Resource) {
    exists i :: 0 <= i < |items| && SameIdentity(items[i], r)
  }

  /** The resources, in order, that no item names. */
  function Unnamed(list: seq<Resource>, items: seq<Resource>): (r: seq<Resource>)
    ensures forall x :: x in r <==> x in list && !Named(items, x)
  {
    if list == [] then []
    else (if Named(items, list[0]) then [] else [list[0]]) + Unnamed(list[1..], items)
  }

  lemma {:induction false} UnnamedByNone(list: seq<Resource>, r: Resource)
    requires forall i :: 0 <= i < |list| ==> !SameIdentity(list[i], r)
    ensures Unnamed(list, [r]) == list
  {
    if list != [] {
      UnnamedByNone(list[1..], r);
    }
  }

  lemma {:induction false} RemoveFirstIsUnnamed(list: seq<Resource>, r: Resource)
    requires DistinctIdentities(list)
    ensures RemoveFirst(list, r) == Unnamed(list, [r])
  {
    if list != [] {
      assert Named([r], list[0]) <==> SameIdentity([r][0], list[0]);
      if SameIdentity(list[0], r) {
        UnnamedByNone(list[1..], r);
      } else {
        RemoveFirstIsUnnamed(list[1..], r);
      }
    }
  }

  lemma {:induction false} UnnamedTwice(list: seq<Resource>, items: seq<Resource>, r: Resource)
    ensures Unnamed(Unnamed(list, items), [r]) == Unnamed(list, items + [r])
  {
    if list != [] {
      UnnamedTwice(list[1..], items, r);
      var x := list[0];
      assert (items + [r])[|items|] == r;
      assert forall i :: 0 <= i < |items| ==> (items + [r])[i] == items[i];
      assert Named([r], x) <==> SameIdentity([r][0], x);
      assert Named(items + [r], x) <==> Named(items, x) || Named([r], x);
      if Named(items, x) {
        assert Unnamed(list, items) == Unnamed(list[1..], items);
      } else {
        assert Unnamed(list, items) == [x] + Unnamed(list[1..], items);
      }
    }
  }

  lemma {:induction false} UnnamedDistinct(list: seq<Resource>, items: seq<Resource>)
    requires DistinctIdentities(list)
    ensures DistinctIdentities(Unnamed(list, items))
  {
    if list != [] {
      UnnamedDistinct(list[1..], items);
      var rest := Unnamed(list[1..], items);
      forall j | 0 <= j < |rest| ensures !SameIdentity(list[0], rest[j]) {
        assert rest[j] in rest;
      }
    }
  }

  /** Without repeated identities, trimming items one by one, repeats and absent ones included, is filtering. */
  lemma {:induction false} TrimmingIsFiltering(list: seq<Resource>, items: seq<Resource>)
    requires DistinctIdentities(list)
    ensures RemoveFirstOfEach(list, items) == Unnamed(list, items)
  {
    if items == [] {
      UnnamedByNothing(list);
    } else {
      var n := |items| - 1;
      TrimmingIsFiltering(list, items[..n]);
      UnnamedDistinct(list, items[..n]);
      RemoveFirstIsUnnamed(Unnamed(list, items[..n]), items[n]);
      UnnamedTwice(list, items[..n], items[n]);
      assert items == items[..n] + [items[n]];
    }
  }

  lemma {:induction false} UnnamedByNothing(list: seq<Resource>)
    ensures Unnamed(list, []) == list
  {
    if list != [] {
      UnnamedByNothing(list[1..]);
    }
  }

  // ---------------------------------------------------------------------------------------------
  // Roles
  // ---------------------------------------------------------------------------------------------

  /** The binding moves its role into the CSV: its one subject is a service account in the operator's namespace. */
  predicate Qualifies(binding: Resource, namespace: string) {
    && binding.subjects.Some? && |binding.subjects.value| == 1
    && var subject := binding.subjects.value[0];
       subject.kind == "ServiceAccount" && (subject.namespace.None? || subject.namespace.value == namespace)
  }

  /** The decision on a role looks at its name only: at the binding that was indexed under it. */
  predicate Moves(rbByRole: map<string, Resource>, namespace: string, name: string) {
    name in rbByRole && Qualifies(rbByRole[name], namespace)
  }

  /** The roles, in order, whose name is decided this way or that. */
  function Decided(roles: seq<Resource>, rbByRole: map<string, Resource>, namespace: string, moves: bool): seq<Resource> {
    if roles == [] then []
    else
      var last := roles[|roles| - 1];
      Decided(roles[..|roles| - 1], rbByRole, namespace, moves) +
      if Moves(rbByRole, namespace, last.name) == moves then [last] else []
  }

  lemma {:induction false} DecidedContent(roles: seq<Resource>, rbByRole: map<string, Resource>, namespace: string, moves: bool)
    ensures forall x :: x in Decided(roles, rbByRole, namespace, moves) <==>
                          x in roles && Moves(rbByRole, namespace, x.name) == moves
  {
    if roles != [] {
      var n := |roles| - 1;
      DecidedContent(roles[..n], rbByRole, namespace, moves);
      assert roles == roles[..n] + [roles[n]];
    }
  }

  /** Kept is every role but those whose binding has exactly one subject, an account of the operator's namespace. */
  lemma KeptInWords(roles: seq<Resource>, rbByRole: map<string, Resource>, namespace: string)
    ensures forall r :: r in Decided(roles, rbByRole, namespace, false) <==>
                          && r in roles
                          && !(&& r.name in rbByRole && rbByRole[r.name].subjects.Some?
                               && |rbByRole[r.name].subjects.value| == 1
                               && rbByRole[r.name].subjects.value[0].kind == "ServiceAccount"
                               && rbByRole[r.name].subjects.value[0].namespace in {None, Some(namespace)})
  {
    DecidedContent(roles, rbByRole, namespace, false);
  }

  /** Each role, repeats included, is either moved or kept. */
  lemma {:induction false} RolesConserved(roles: seq<Resource>, rbByRole: map<string, Resource>, namespace: string)
    ensures multiset(Decided(roles, rbByRole, namespace, true)) + multiset(Decided(roles, rbByRole, namespace, false)) ==
            multiset(roles)
  {
    if roles != [] {
      var n := |roles| - 1;
      RolesConserved(roles[..n], rbByRole, namespace);
      assert roles == roles[..n] + [roles[n]];
    }
  }

  /**
   Why trimming while iterating over the original list is right: all that was processed before role r and is still
   there has another name, so the first match of r is r itself.
   */
  lemma FirstMatchIsOwn(roles: seq<Resource>, i: nat, rbByRole: map<string, Resource>, namespace: string)
    requires i < |roles| && Moves(rbByRole, namespace, roles[i].name)
    ensures RemoveFirst(Decided(roles[..i], rbByRole, namespace, false) + roles[i..], roles[i]) ==
            Decided(roles[..i], rbByRole, namespace, false) + roles[i + 1..]
  {
    var kept := Decided(roles[..i], rbByRole, namespace, false);
    var list := kept + roles[i..];
    DecidedContent(roles[..i], rbByRole, namespace, false);
    forall j | 0 <= j < |kept| ensures !SameIdentity(list[j], roles[i]) {
      assert list[j] == kept[j] && kept[j] in kept;
    }
    RemoveFirstAt(list, roles[i], |kept|);
    assert list[..|kept|] == kept && list[|kept| + 1..] == roles[i + 1..];
  }

  // ---------------------------------------------------------------------------------------------
  // What the generator makes of a list of documents
  // ---------------------------------------------------------------------------------------------

  function At(index: Index, kind: Kind): seq<Resource> {
    if kind in index then index[kind] else []
  }

  /** Every file is that of an indexed document. */
  ghost predicate FilesFrom(files: map<string, Resource>, index: Index) {
    forall f :: f in files ==> FilenameFor(files[f]) == f && files[f] in At(index, files[f].kind)
  }

  ghost predicate SameButRoles(a: Index, b: Index) {
    forall k :: k != Role && k != RoleBinding ==> At(a, k) == At(b, k)
  }

  function OfKind(docs: seq<Resource>, kind: Kind): seq<Resource> {
    if docs == [] then []
    else
      var last := docs[|docs| - 1];
      OfKind(docs[..|docs| - 1], kind) + if last.kind == kind then [last] else []
  }

  /** The bindings of a kind by the name of their role; of several, the last one loaded. */
  function BindingsByRole(docs: seq<Resource>, bindingKind: Kind): map<string, Resource> {
    if docs == [] then map[]
    else
      var last := docs[|docs| - 1];
      var m := BindingsByRole(docs[..|docs| - 1], bindingKind);
      if last.kind == bindingKind then m[last.roleRef := last] else m
  }

  /** The bindings looked up for these roles, one after the other; a role without one adds none. */
  function Used(roles: seq<Resource>, bindings: map<string, Resource>): seq<Resource> {
    if roles == [] then []
    else
      var name := roles[|roles| - 1].name;
      Used(roles[..|roles| - 1], bindings) + if name in bindings then [bindings[name]] else []
  }

  lemma {:induction false} UsedContent(roles: seq<Resource>, bindings: map<string, Resource>, b: Resource)
    ensures b in Used(roles, bindings) <==> exists r :: r in roles && r.name in bindings && bindings[r.name] == b
  {
    if roles != [] {
      var n := |roles| - 1;
      UsedContent(roles[..n], bindings, b);
      assert roles == roles[..n] + [roles[n]];
    }
  }

  /** The documents of a kind that end up in the bundle as files. */
  function Bundled(docs: seq<Resource>, namespace: string, kind: Kind): seq<Resource> {
    var list := OfKind(docs, kind);
    var roles, rbs := OfKind(docs, Role), BindingsByRole(docs, RoleBinding);
    match kind
    case ClusterRole => []
    case Deployment => []
    case ServiceAccount => []
    case ClusterRoleBinding =>
      RemoveFirstOfEach(list, Used(OfKind(docs, ClusterRole), BindingsByRole(docs, ClusterRoleBinding)))
    case Role => Decided(roles, rbs, namespace, false)
    case RoleBinding => RemoveFirstOfEach(list, Used(Decided(roles, rbs, namespace, true), rbs))
    case _ => list
  }

  function FirstServiceAccount(subjects: seq<Subject>): Option<string> {
    if subjects == [] then None
    else if subjects[0].kind == "ServiceAccount" then Some(subjects[0].name)
    else FirstServiceAccount(subjects[1..])
  }

  /** The service account a cluster role is bound to: the first one its binding names, or the operator's own. */
  function ClusterAccount(operatorName: string, bindings: map<string, Resource>, role: Resource): Option<string> {
    if role.name !in bindings then Some(operatorName)
    else
      match bindings[role.name].subjects
      case None => None
      case Some(subjects) => FirstServiceAccount(subjects)
  }

  lemma {:induction false} FirstAccountInWords(subjects: seq<Subject>, account: string)
    ensures FirstServiceAccount(subjects) == Some(account) <==>
            exists i :: 0 <= i < |subjects| && subjects[i].kind == "ServiceAccount" && subjects[i].name == account &&
                        forall j :: 0 <= j < i ==> subjects[j].kind != "ServiceAccount"
  {
    if subjects != [] && subjects[0].kind != "ServiceAccount" {
      var rest := subjects[1..];
      FirstAccountInWords(rest, account);
      if i :| 0 <= i < |rest| && rest[i].kind == "ServiceAccount" && rest[i].name == account &&
              forall j :: 0 <= j < i ==> rest[j].kind != "ServiceAccount" {
        assert subjects[i + 1] == rest[i];
        assert forall j :: 0 < j < i + 1 ==> subjects[j] == rest[j - 1];
      }
      if i :| 0 <= i < |subjects| && subjects[i].kind == "ServiceAccount" && subjects[i].name == account &&
              forall j :: 0 <= j < i ==> subjects[j].kind != "ServiceAccount" {
        assert subjects[i] == rest[i - 1];
        assert forall j :: 0 <= j < i - 1 ==> rest[j] == subjects[j + 1];
      }
    }
  }

  /** The account of a cluster role: the operator's own without a binding, else the first ServiceAccount among its subjects. */
  lemma ClusterAccountInWords(operatorName: string, bindings: map<string, Resource>, role: Resource, account: string)
    ensures ClusterAccount(operatorName, bindings, role) == Some(account) <==>
            if role.name !in bindings then account == operatorName
            else
              && bindings[role.name].subjects.Some?
              && var subjects := bindings[role.name].subjects.value;
                 exists i :: 0 <= i < |subjects| && subjects[i].kind == "ServiceAccount" && subjects[i].name == account &&
                             forall j :: 0 <= j < i ==> subjects[j].kind != "ServiceAccount"
  {
    if role.name in bindings && bindings[role.name].subjects.Some? {
      FirstAccountInWords(bindings[role.name].subjects.value, account);
    }
  }

  /** One permission for each of these cluster roles: its rules, for the account it is bound to. */
  ghost predicate ClusterPermissionsFor(permissions: seq<Permission>, operatorName: string, bindings: map<string, Resource>,
                                        roles: seq<Resource>) {
    && |permissions| == |roles|
    && forall j :: 0 <= j < |roles| ==>
                     && permissions[j].rules == roles[j].rules
                     && ClusterAccount(operatorName, bindings, roles[j]) == Some(permissions[j].serviceAccountName)
  }

  lemma AllHaveAccounts(permissions: seq<Permission>, operatorName: string, bindings: map<string, Resource>, roles: seq<Resource>)
    requires ClusterPermissionsFor(permissions, operatorName, bindings, roles)
    ensures forall r :: r in roles ==> ClusterAccount(operatorName, bindings, r).Some?
  {
    forall r | r in roles ensures ClusterAccount(operatorName, bindings, r).Some? {
      var j :| 0 <= j < |roles| && roles[j] == r;
      assert permissions[j].rules == roles[j].rules;
    }
  }

  function AccountOf(binding: Resource): string {
    if binding.subjects.Some? && binding.subjects.value != [] then binding.subjects.value[0].name else ""
  }

  /** The permissions that the moved roles add to the CSV: their rules, for the one subject of their binding. */
  function PermissionsOf(moved: seq<Resource>, bindings: map<string, Resource>): seq<Permission> {
    if moved == [] then []
    else
      var last := moved[|moved| - 1];
      PermissionsOf(moved[..|moved| - 1], bindings) +
      [Permission(last.rules, if last.name in bindings then AccountOf(bindings[last.name]) else "")]
  }

  /** One permission for each of these roles: its rules, for the one subject of its binding. */
  lemma {:induction false} PermissionsInWords(moved: seq<Resource>, bindings: map<string, Resource>)
    requires forall r :: r in moved ==>
                           r.name in bindings && bindings[r.name].subjects.Some? && |bindings[r.name].subjects.value| == 1
    ensures |PermissionsOf(moved, bindings)| == |moved|
    ensures forall j :: 0 <= j < |moved| ==>
                          moved[j].name in bindings && bindings[moved[j].name].subjects.Some? &&
                          PermissionsOf(moved, bindings)[j] ==
                          Permission(moved[j].rules, bindings[moved[j].name].subjects.value[0].name)
  {
    if moved != [] {
      var n := |moved| - 1;
      assert moved == moved[..n] + [moved[n]];
      PermissionsInWords(moved[..n], bindings);
    }
  }

  // One document more: how the definitions above grow with their lists.

  lemma KindAppend(docs: seq<Resource>, doc: Resource, k: Kind)
    ensures OfKind(docs + [doc], k) == if doc.kind == k then OfKind(docs, k) + [doc] else OfKind(docs, k)
  {
    assert (docs + [doc])[..|docs|] == docs;
  }

  /** The documents of a kind keep the order in which they were loaded. */
  lemma {:induction false} OfKindInOrder(docs: seq<Resource>, more: seq<Resource>, k: Kind)
    ensures OfKind(docs + more, k) == OfKind(docs, k) + OfKind(more, k)
  {
    if more == [] {
      assert docs + more == docs;
    } else {
      var n := |more| - 1;
      OfKindInOrder(docs, more[..n], k);
      assert docs + more == docs + more[..n] + [more[n]] && more == more[..n] + [more[n]];
      KindAppend(docs + more[..n], more[n], k);
      KindAppend(more[..n], more[n], k);
    }
  }

  lemma BindingsAppend(docs: seq<Resource>, doc: Resource, k: Kind)
    ensures BindingsByRole(docs + [doc], k) ==
            if doc.kind == k then BindingsByRole(docs, k)[doc.roleRef := doc] else BindingsByRole(docs, k)
  {
    assert (docs + [doc])[..|docs|] == docs;
  }

  lemma UsedAppend(roles: seq<Resource>, role: Resource, bindings: map<string, Resource>)
    ensures Used(roles + [role], bindings) ==
            if role.name in bindings then Used(roles, bindings) + [bindings[role.name]] else Used(roles, bindings)
  {
    assert (roles + [role])[..|roles|] == roles;
  }

  lemma TrimAppend(list: seq<Resource>, items: seq<Resource>, r: Resource)
    ensures RemoveFirstOfEach(list, items + [r]) == RemoveFirst(RemoveFirstOfEach(list, items), r)
  {
    assert (items + [r])[..|items|] == items;
  }

  lemma DecidedAppend(roles: seq<Resource>, role: Resource, rbs: map<string, Resource>, namespace: string, moves: bool)
    ensures Decided(roles + [role], rbs, namespace, moves) ==
            if Moves(rbs, namespace, role.name) == moves then Decided(roles, rbs, namespace, moves) + [role]
            else Decided(roles, rbs, namespace, moves)
  {
    assert (roles + [role])[..|roles|] == roles;
  }

  lemma PermissionsAppend(moved: seq<Resource>, role: Resource, rbs: map<string, Resource>)
    requires role.name in rbs
    ensures PermissionsOf(moved + [role], rbs) ==
            PermissionsOf(moved, rbs) + [Permission(role.rules, AccountOf(rbs[role.name]))]
  {
    assert (moved + [role])[..|moved|] == moved;
  }

  // ---------------------------------------------------------------------------------------------
  // The generator
  // ---------------------------------------------------------------------------------------------

  class BundleGenerator {
    const operatorName: string
    var byKind: Index
    var crbByCr: map<string, Resource>
    var rbByRole: map<string, Resource>
    var clusterPermissions: seq<Permission>
    var permissions: seq<Permission>
    var deployments: seq<Resource>
    var files: map<string, Resource>

    constructor (operatorName: string)
      ensures byKind == map[] && crbByCr == map[] && rbByRole == map[]
      ensures clusterPermissions == [] && permissions == [] && deployments == [] && files == map[]
    {
      this.operatorName := operatorName;
      byKind, crbByCr, rbByRole := map[], map[], map[];
      clusterPermissions, permissions, deployments, files := [], [], [], map[];
    }

    /** The index tells the documents apart by kind and keeps their order. */
    ghost predicate Indexes(docs: seq<Resource>)
      reads this
    {
      && (forall k :: At(byKind, k) == OfKind(docs, k))
      && (forall k :: k in byKind ==> byKind[k] != [])
      && crbByCr == BindingsByRole(docs, ClusterRoleBinding)
      && rbByRole == BindingsByRole(docs, RoleBinding)
    }

    method Load(docs: seq<Resource>) returns (failure: Option<Failure>)
      requires byKind == map[] && crbByCr == map[] && rbByRole == map[]
      modifies this`byKind, this`crbByCr, this`rbByRole
      ensures failure == if exists d :: d in docs && !IsPermitted(d.kind) then Some(UnsupportedKind) else None
      ensures failure.None? ==> Indexes(docs)
    {
      for i := 0 to |docs|
        invariant Indexes(docs[..i])
        invariant forall d :: d in docs[..i] ==> IsPermitted(d.kind)
      {
        assert docs[i] in docs;
        assert docs[..i + 1] == docs[..i] + [docs[i]];
        if !IsPermitted(docs[i].kind) {
          return Some(UnsupportedKind);
        }
        LoadDocument(docs[i], docs[..i]);
      }
      assert docs[..|docs|] == docs;
      failure := None;
    }

    method LoadDocument(doc: Resource, ghost docs: seq<Resource>)
      requires Indexes(docs)
      modifies this`byKind, this`crbByCr, this`rbByRole
      ensures Indexes(docs + [doc])
    {
      forall k { KindAppend(docs, doc, k); }
      BindingsAppend(docs, doc, ClusterRoleBinding);
      BindingsAppend(docs, doc, RoleBinding);
      if doc.kind !in byKind {
        byKind := byKind[doc.kind := []];
      }
      byKind := byKind[doc.kind := byKind[doc.kind] + [doc]];
      if doc.kind == ClusterRoleBinding {
        crbByCr := crbByCr[doc.roleRef := doc];
      }
      if doc.kind == RoleBinding {
        rbByRole := rbByRole[doc.roleRef := doc];
      }
    }

    /** The list is rebuilt, never changed in place: whoever iterates over the old one sees all of it. */
    method TrimIndex(kind: Kind, item: Item)
      modifies this`byKind
      ensures forall k :: k != kind ==> (k in byKind <==> k in old(byKind)) && At(byKind, k) == At(old(byKind), k)
      ensures match item
              case Nothing => byKind == old(byKind)
              case All => kind !in byKind
              case One(r) => (kind in byKind <==> kind in old(byKind)) && At(byKind, kind) == RemoveFirst(At(old(byKind), kind), r)
    {
      if kind !in byKind {
        return;
      }
      if item == Nothing {
        return;
      }
      if item == All {
        byKind := byKind - {kind};
        return;
      }
      var list := byKind[kind];
      var found := 0;
      while found < |list| && !SameIdentity(list[found], item.resource)
        invariant 0 <= found <= |list|
        invariant forall j :: 0 <= j < found ==> !SameIdentity(list[j], item.resource)
      {
        found := found + 1;
      }
      RemoveFirstAt(list, item.resource, found);
      if found == |list| {
        return;
      }
      byKind := byKind[kind := list[..found] + list[found + 1..]];
    }

    /** Without a binding, the operator's own service account. */
    method DiscoverServiceAccount(binding: Option<Resource>) returns (sa: Option<string>)
      ensures sa == match binding
                    case None => Some(operatorName)
                    case Some(b) => FirstServiceAccount(if b.subjects.Some? then b.subjects.value else [])
      ensures binding.None? ==> sa == Some(operatorName)
      ensures binding.Some? ==>
                var subjects := if binding.value.subjects.Some? then binding.value.subjects.value else [];
                if sa.None? then forall i :: 0 <= i < |subjects| ==> subjects[i].kind != "ServiceAccount"
                else exists i :: 0 <= i < |subjects| && subjects[i].kind == "ServiceAccount" && subjects[i].name == sa.value &&
                                 forall j :: 0 <= j < i ==> subjects[j].kind != "ServiceAccount"
    {
      if binding.None? {
        return Some(operatorName);
      }
      var subjects := if binding.value.subjects.Some? then binding.value.subjects.value else [];
      for i := 0 to |subjects|
        invariant FirstServiceAccount(subjects) == FirstServiceAccount(subjects[i..])
        invariant forall j :: 0 <= j < i ==> subjects[j].kind != "ServiceAccount"
      {
        if subjects[i].kind == "ServiceAccount" {
          return Some(subjects[i].name);
        }
      }
      sa := None;
    }

    /** Every cluster role goes into the CSV, and the bindings found for them leave the index. */
    method ProcessClusterRoles() returns (failure: Option<Failure>)
      modifies this`byKind, this`clusterPermissions
      ensures failure == if forall r :: r in At(old(byKind), ClusterRole) ==> ClusterAccount(operatorName, crbByCr, r).Some?
                         then None else Some(NoServiceAccountSubject)
      ensures failure.None? ==>
                && ClusterRole !in byKind
                && At(byKind, ClusterRoleBinding) ==
                   RemoveFirstOfEach(At(old(byKind), ClusterRoleBinding), Used(At(old(byKind), ClusterRole), crbByCr))
                && (forall k :: k != ClusterRole && k != ClusterRoleBinding ==> At(byKind, k) == At(old(byKind), k))
      ensures failure.None? ==> ClusterPermissionsFor(clusterPermissions, operatorName, crbByCr, At(old(byKind), ClusterRole))
      ensures failure.None? ==>
                var roles := At(old(byKind), ClusterRole);
                |clusterPermissions| == |roles| && forall j :: 0 <= j < |roles| ==> clusterPermissions[j].rules == roles[j].rules
    {
      clusterPermissions := [];
      var roles := if ClusterRole in byKind then byKind[ClusterRole] else [];
      for i := 0 to |roles|
        invariant At(byKind, ClusterRoleBinding) ==
                  RemoveFirstOfEach(At(old(byKind), ClusterRoleBinding), Used(roles[..i], crbByCr))
        invariant forall k :: k != ClusterRoleBinding ==> At(byKind, k) == At(old(byKind), k)
        invariant ClusterPermissionsFor(clusterPermissions, operatorName, crbByCr, roles[..i])
      {
        assert roles[i] in roles;
        assert roles[..i + 1] == roles[..i] + [roles[i]];
        var added := ProcessClusterRole(roles[i], roles[..i], At(old(byKind), ClusterRoleBinding));
        if !added {
          return Some(NoServiceAccountSubject);
        }
      }
      assert roles[..|roles|] == roles;
      AllHaveAccounts(clusterPermissions, operatorName, crbByCr, roles);
      TrimIndex(ClusterRole, All);
      failure := None;
    }

    /** The body of the loop; it fails if the binding names no service account. */
    method ProcessClusterRole(role: Resource, ghost before: seq<Resource>, ghost bindings: seq<Resource>) returns (added: bool)
      requires At(byKind, ClusterRoleBinding) == RemoveFirstOfEach(bindings, Used(before, crbByCr))
      requires ClusterPermissionsFor(clusterPermissions, operatorName, crbByCr, before)
      modifies this`byKind, this`clusterPermissions
      ensures added <==> ClusterAccount(operatorName, crbByCr, role).Some?
      ensures added ==> At(byKind, ClusterRoleBinding) == RemoveFirstOfEach(bindings, Used(before + [role], crbByCr))
      ensures added ==> ClusterPermissionsFor(clusterPermissions, operatorName, crbByCr, before + [role])
      ensures forall k :: k != ClusterRoleBinding ==> At(byKind, k) == At(old(byKind), k)
    {
      var binding := if role.name in crbByCr then Some(crbByCr[role.name]) else None;
      var sa := DiscoverServiceAccount(binding);
      if sa.None? {
        return false;
      }
      UsedAppend(before, role, crbByCr);
      if binding.Some? {
        TrimAppend(bindings, Used(before, crbByCr), binding.value);
      }
      TrimIndex(ClusterRoleBinding, if binding.Some? then One(binding.value) else Nothing);
      clusterPermissions := clusterPermissions + [Permission(role.rules, sa.value)];
      added := true;
    }

    /** Where the Role loop stands before role i; bindings is the RoleBinding list it started with. */
    ghost predicate RolesDone(roles: seq<Resource>, i: nat, namespace: string, bindings: seq<Resource>)
      requires i <= |roles|
      reads this
    {
      var moved := Decided(roles[..i], rbByRole, namespace, true);
      && Role in byKind
      && At(byKind, Role) == Decided(roles[..i], rbByRole, namespace, false) + roles[i..]
      && permissions == PermissionsOf(moved, rbByRole)
      && At(byKind, RoleBinding) == RemoveFirstOfEach(bindings, Used(moved, rbByRole))
    }

    /** Iterates over the Role list as it was, while the index is trimmed. */
    method ProcessRoles(namespace: string) returns (failure: Option<Failure>)
      requires permissions == []
      modifies this`byKind, this`permissions
      ensures failure.None? ==>
                var roles := At(old(byKind), Role);
                var moved := Decided(roles, rbByRole, namespace, true);
                && At(byKind, Role) == Decided(roles, rbByRole, namespace, false)
                && permissions == PermissionsOf(moved, rbByRole)
                && At(byKind, RoleBinding) == RemoveFirstOfEach(At(old(byKind), RoleBinding), Used(moved, rbByRole))
      ensures SameButRoles(byKind, old(byKind))
      ensures failure.None? <==> AllBound(At(old(byKind), Role), rbByRole)
      ensures failure.None? ==>
                forall r :: r in At(byKind, Role) <==>
                              && r in At(old(byKind), Role)
                              && !(&& r.name in rbByRole && rbByRole[r.name].subjects.Some?
                                   && |rbByRole[r.name].subjects.value| == 1
                                   && rbByRole[r.name].subjects.value[0].kind == "ServiceAccount"
                                   && rbByRole[r.name].subjects.value[0].namespace in {None, Some(namespace)})
    {
      if Role !in byKind {
        return None;
      }
      var roles := byKind[Role];
      ghost var bindings := At(byKind, RoleBinding);
      assert roles[..0] == [] && [] + roles[0..] == roles;
      for i := 0 to |roles|
        invariant RolesDone(roles, i, namespace, bindings)
        invariant forall j :: 0 <= j < i ==> IsBound(roles[j], rbByRole)
        invariant SameButRoles(byKind, old(byKind))
      {
        failure := ProcessRole(roles[i], namespace, roles, i, bindings);
        if failure.Some? {
          return;
        }
      }
      assert roles[..|roles|] == roles && roles[|roles|..] == [];
      KeptInWords(roles, rbByRole, namespace);
      failure := None;
    }

    /** The body of the loop, for role i of the list. */
    method ProcessRole(role: Resource, namespace: string, ghost roles: seq<Resource>, ghost i: nat, ghost bindings: seq<Resource>)
      returns (failure: Option<Failure>)
      requires i < |roles| && role == roles[i] && RolesDone(roles, i, namespace, bindings)
      modifies this`byKind, this`permissions
      ensures failure == if role.name !in rbByRole then Some(NoAssociatedRoleBinding)
                         else if rbByRole[role.name].subjects.None? then Some(NoSubjects)
                         else None
      ensures failure.None? ==> RolesDone(roles, i + 1, namespace, bindings)
      ensures SameButRoles(byKind, old(byKind))
    {
      if role.name !in rbByRole {
        return Some(NoAssociatedRoleBinding);
      }
      var binding := rbByRole[role.name];
      if binding.subjects.None? {
        return Some(NoSubjects);
      }
      if Qualifies(binding, namespace) {
        MovedStep(roles, i, rbByRole, namespace, bindings);
        MoveRole(role, binding);
      } else {
        KeptStep(roles, i, rbByRole, namespace);
      }
      failure := None;
    }

    /** The role goes into the CSV; it and its binding leave the index. */
    method MoveRole(role: Resource, binding: Resource)
      requires binding.subjects.Some? && |binding.subjects.value| == 1
      modifies this`byKind, this`permissions
      ensures Role in byKind <==> Role in old(byKind)
      ensures At(byKind, Role) == RemoveFirst(At(old(byKind), Role), role)
      ensures At(byKind, RoleBinding) == RemoveFirst(At(old(byKind), RoleBinding), binding)
      ensures SameButRoles(byKind, old(byKind))
      ensures permissions == old(permissions) + [Permission(role.rules, AccountOf(binding))]
    {
      permissions := permissions + [Permission(role.rules, binding.subjects.value[0].name)];
      TrimIndex(Role, One(role));
      TrimIndex(RoleBinding, One(binding));
    }

    /** Writes one file a document; a second document of the same file name would overwrite the first. */
    method BundleAll()
      requires files == map[]
      requires forall k, d :: d in At(byKind, k) ==> d.kind == k
      modifies this`files
      ensures FilesFrom(files, byKind)
      ensures forall d: Resource :: d in At(byKind, d.kind) ==> FilenameFor(d) in files
    {
      var kinds := byKind.Keys;
      while kinds != {}
        invariant kinds <= byKind.Keys
        invariant FilesFrom(files, byKind)
        invariant forall d: Resource :: d in At(byKind, d.kind) && d.kind !in kinds ==> FilenameFor(d) in files
        decreases |kinds|
      {
        var kind :| kind in kinds;
        BundleKind(kind, byKind[kind]);
        kinds := kinds - {kind};
      }
    }

    /** The index after the cluster roles: nothing else has been trimmed. */
    ghost predicate Prepared(docs: seq<Resource>)
      reads this
    {
      && OfKind(docs, Deployment) != []
      && rbByRole == BindingsByRole(docs, RoleBinding)
      && forall k :: At(byKind, k) == PreparedAt(docs, k)
    }

    method BundleKind(kind: Kind, docs: seq<Resource>)
      requires docs == At(byKind, kind) && forall d :: d in docs ==> d.kind == kind
      requires FilesFrom(files, byKind)
      modifies this`files
      ensures FilesFrom(files, byKind)
      ensures old(files).Keys <= files.Keys
      ensures forall d :: d in docs ==> FilenameFor(d) in files
    {
      for i := 0 to |docs|
        invariant FilesFrom(files, byKind)
        invariant old(files).Keys <= files.Keys
        invariant forall j :: 0 <= j < i ==> FilenameFor(docs[j]) in files
      {
        assert docs[i] in docs;
        files := files[FilenameFor(docs[i]) := docs[i]];
      }
    }

    /** Up to and including the cluster roles. */
    method Prepare(docs: seq<Resource>, supplementaryImage: bool) returns (failure: Option<Failure>)
      requires byKind == map[] && crbByCr == map[] && rbByRole == map[]
      modifies this`byKind, this`crbByCr, this`rbByRole, this`clusterPermissions
      ensures failure.None? ==> Prepared(docs)
      ensures failure.None? ==>
                ClusterPermissionsFor(clusterPermissions, operatorName, BindingsByRole(docs, ClusterRoleBinding),
                                      OfKind(docs, ClusterRole))
      ensures failure.None? <==>
                && (forall d :: d in docs ==> IsPermitted(d.kind))
                && OfKind(docs, Deployment) != [] && (|OfKind(docs, Deployment)| > 1 ==> supplementaryImage)
                && ClustersBound(operatorName, docs)
    {
      failure := LoadAndCheck(docs, supplementaryImage);
      if failure.Some? {
        return;
      }
      assert At(byKind, ClusterRole) == OfKind(docs, ClusterRole);
      assert At(byKind, ClusterRoleBinding) == OfKind(docs, ClusterRoleBinding);
      ghost var loaded := byKind;
      failure := ProcessClusterRoles();
      forall k | failure.None? ensures At(byKind, k) == PreparedAt(docs, k) {
        assert At(loaded, k) == OfKind(docs, k);
      }
    }

    /** Loading, and the up-front sanity checks. */
    method LoadAndCheck(docs: seq<Resource>, supplementaryImage: bool) returns (failure: Option<Failure>)
      requires byKind == map[] && crbByCr == map[] && rbByRole == map[]
      modifies this`byKind, this`crbByCr, this`rbByRole
      ensures failure.None? <==>
                && (forall d :: d in docs ==> IsPermitted(d.kind))
                && OfKind(docs, Deployment) != [] && (|OfKind(docs, Deployment)| > 1 ==> supplementaryImage)
      ensures failure.None? ==> Indexes(docs)
    {
      failure := Load(docs);
      if failure.Some? {
        return;
      }
      assert At(byKind, Deployment) == OfKind(docs, Deployment);
      if Deployment !in byKind {
        return Some(NoDeployment);
      }
      if |byKind[Deployment]| > 1 && !supplementaryImage {
        return Some(UndefinedSupplementaryImage);
      }
    }

    /** The first Deployment and, of several, the second go into the CSV; all of them, and the service accounts, leave the index. */
    method ProcessDeployments()
      requires At(byKind, Deployment) != []
      modifies this`byKind, this`deployments
      ensures var all := At(old(byKind), Deployment);
              deployments == if |all| > 1 then all[..2] else all
      ensures forall k :: At(byKind, k) == if k == Deployment || k == ServiceAccount then [] else At(old(byKind), k)
    {
      var all := At(byKind, Deployment);
      deployments := [all[0]];
      if |all| > 1 {
        deployments := deployments + [all[1]];
      }
      TrimIndex(Deployment, All);
      TrimIndex(ServiceAccount, All);
    }

    /** The whole script, from the loaded documents to the files of the bundle. */
    method Generate(docs: seq<Resource>, csvNamespace: Option<string>, supplementaryImage: bool)
      returns (failure: Option<Failure>)
      requires byKind == map[] && crbByCr == map[] && rbByRole == map[] && permissions == [] && files == map[]
      modifies this
      ensures failure.None? <==> Accepted(operatorName, docs, csvNamespace, supplementaryImage)
      ensures failure.None? ==>
                && csvNamespace.Some?
                && (forall k :: At(byKind, k) == Bundled(docs, csvNamespace.value, k))
                && permissions == PermissionsOf(MovedRoles(docs, csvNamespace.value), BindingsByRole(docs, RoleBinding))
                && ClusterPermissionsFor(clusterPermissions, operatorName, BindingsByRole(docs, ClusterRoleBinding),
                                         OfKind(docs, ClusterRole))
                && FilesHold(files, docs, csvNamespace.value)
      ensures failure.None? ==> OfKind(docs, Deployment) != [] && deployments == Deployed(docs)
      ensures failure.None? ==>
                deployments <= OfKind(docs, Deployment) && |deployments| == if |OfKind(docs, Deployment)| > 1 then 2 else 1
      ensures failure.None? ==>
                var roles := OfKind(docs, ClusterRole);
                && |clusterPermissions| == |roles|
                && forall j :: 0 <= j < |roles| ==>
                                 && clusterPermissions[j].rules == roles[j].rules
                                 && ClusterAccount(operatorName, BindingsByRole(docs, ClusterRoleBinding), roles[j]) ==
                                    Some(clusterPermissions[j].serviceAccountName)
      ensures failure.None? ==> RolesFiled(docs, csvNamespace.value, At(byKind, Role), permissions)
    {
      failure := Prepare(docs, supplementaryImage);
      if failure.Some? {
        return;
      }
      if csvNamespace.None? {
        return Some(UndefinedNamespace);
      }
      failure := ProcessNamespaced(docs, csvNamespace.value);
      if failure.Some? {
        return;
      }
      LeftByKind(byKind, docs, csvNamespace.value);
      RolesInWords(docs, csvNamespace.value, At(byKind, Role), permissions);
      BundleAll();
      LeftInFiles(files, byKind, docs, csvNamespace.value);
    }

    /** The roles and the deployments: what is left in the index is what is bundled. */
    method ProcessNamespaced(ghost docs: seq<Resource>, namespace: string) returns (failure: Option<Failure>)
      requires Prepared(docs) && permissions == []
      modifies this`byKind, this`permissions, this`deployments
      ensures failure.None? <==> AllBound(OfKind(docs, Role), BindingsByRole(docs, RoleBinding))
      ensures failure.None? ==>
                && (forall k :: At(byKind, k) == Bundled(docs, namespace, k))
                && permissions == PermissionsOf(MovedRoles(docs, namespace), BindingsByRole(docs, RoleBinding))
                && deployments == Deployed(docs)
    {
      assert At(byKind, Role) == OfKind(docs, Role) && At(byKind, RoleBinding) == OfKind(docs, RoleBinding);
      failure := ProcessRoles(namespace);
      if failure.Some? {
        return;
      }
      assert At(byKind, Deployment) == OfKind(docs, Deployment);
      ghost var trimmed := byKind;
      RoleKinds(docs, namespace);
      ProcessDeployments();
      forall k ensures At(byKind, k) == Bundled(docs, namespace, k) {
        FinalIndex(old(byKind), trimmed, byKind, docs, namespace, k);
      }
    }
  }

  lemma RoleKinds(docs: seq<Resource>, namespace: string)
    ensures Bundled(docs, namespace, Role) == Decided(OfKind(docs, Role), BindingsByRole(docs, RoleBinding), namespace, false)
    ensures Bundled(docs, namespace, RoleBinding) ==
            RemoveFirstOfEach(OfKind(docs, RoleBinding), Used(MovedRoles(docs, namespace), BindingsByRole(docs, RoleBinding)))
  {
  }

  /** Kind by kind: what the three stages leave. */
  lemma FinalIndex(prepared: Index, trimmed: Index, left: Index, docs: seq<Resource>, namespace: string, k: Kind)
    requires At(prepared, k) == PreparedAt(docs, k)
    requires k == Role || k == RoleBinding ==> At(trimmed, k) == Bundled(docs, namespace, k)
    requires k != Role && k != RoleBinding ==> At(trimmed, k) == At(prepared, k)
    requires At(left, k) == if k == Deployment || k == ServiceAccount then [] else At(trimmed, k)
    ensures At(left, k) == Bundled(docs, namespace, k)
  {
  }

  predicate IsBound(role: Resource, rbs: map<string, Resource>) {
    role.name in rbs && rbs[role.name].subjects.Some?
  }

  /** Every role has a binding indexed under its name, and that binding has a subject list. */
  predicate AllBound(roles: seq<Resource>, rbs: map<string, Resource>) {
    forall j :: 0 <= j < |roles| ==> IsBound(roles[j], rbs)
  }

  /** The script runs through on these documents. */
  ghost predicate Accepted(operatorName: string, docs: seq<Resource>, csvNamespace: Option<string>, supplementaryImage: bool) {
    && (forall d :: d in docs ==> IsPermitted(d.kind))
    && OfKind(docs, Deployment) != [] && (|OfKind(docs, Deployment)| > 1 ==> supplementaryImage)
    && ClustersBound(operatorName, docs)
    && csvNamespace.Some?
    && AllBound(OfKind(docs, Role), BindingsByRole(docs, RoleBinding))
  }

  /** What the cluster roles leave of each kind. */
  function PreparedAt(docs: seq<Resource>, k: Kind): seq<Resource> {
    if k == ClusterRole then []
    else if k == ClusterRoleBinding then
      RemoveFirstOfEach(OfKind(docs, k), Used(OfKind(docs, ClusterRole), BindingsByRole(docs, ClusterRoleBinding)))
    else OfKind(docs, k)
  }

  /** Every cluster role has a service account. */
  ghost predicate ClustersBound(operatorName: string, docs: seq<Resource>) {
    forall r :: r in OfKind(docs, ClusterRole) ==>
                  ClusterAccount(operatorName, BindingsByRole(docs, ClusterRoleBinding), r).Some?
  }

  /** The Deployments that the CSV has room for. */
  function Deployed(docs: seq<Resource>): seq<Resource> {
    var all := OfKind(docs, Deployment);
    if |all| > 1 then all[..2] else all
  }

  function MovedRoles(docs: seq<Resource>, namespace: string): seq<Resource> {
    Decided(OfKind(docs, Role), BindingsByRole(docs, RoleBinding), namespace, true)
  }

  /** The files and the documents left for the bundle, as far as repeated file names allow. */
  ghost predicate FilesHold(files: map<string, Resource>, docs: seq<Resource>, namespace: string) {
    && (forall f :: f in files ==> FilenameFor(files[f]) == f && files[f] in Bundled(docs, namespace, files[f].kind))
    && (forall d: Resource :: d in Bundled(docs, namespace, d.kind) ==> FilenameFor(d) in files)
  }

  lemma {:induction false} OfKindContent(docs: seq<Resource>, kind: Kind, x: Resource)
    ensures x in OfKind(docs, kind) <==> x in docs && x.kind == kind
  {
    if docs != [] {
      var n := |docs| - 1;
      OfKindContent(docs[..n], kind, x);
      assert docs == docs[..n] + [docs[n]];
    }
  }

  lemma {:induction false} RemoveFirstSubset(list: seq<Resource>, r: Resource, x: Resource)
    requires x in RemoveFirst(list, r)
    ensures x in list
  {
    if list != [] && !SameIdentity(list[0], r) && x != list[0] {
      RemoveFirstSubset(list[1..], r, x);
    }
  }

  lemma {:induction false} RemoveFirstOfEachSubset(list: seq<Resource>, items: seq<Resource>, x: Resource)
    requires x in RemoveFirstOfEach(list, items)
    ensures x in list
  {
    if items != [] {
      RemoveFirstSubset(RemoveFirstOfEach(list, items[..|items| - 1]), items[|items| - 1], x);
      RemoveFirstOfEachSubset(list, items[..|items| - 1], x);
    }
  }

  lemma BundledSubset(docs: seq<Resource>, namespace: string, kind: Kind, x: Resource)
    requires x in Bundled(docs, namespace, kind)
    ensures x in docs && x.kind == kind
  {
    OfKindContent(docs, kind, x);
    if kind == ClusterRoleBinding {
      RemoveFirstOfEachSubset(OfKind(docs, kind), Used(OfKind(docs, ClusterRole), BindingsByRole(docs, ClusterRoleBinding)), x);
    } else if kind == Role {
      DecidedContent(OfKind(docs, Role), BindingsByRole(docs, RoleBinding), namespace, false);
    } else if kind == RoleBinding {
      RemoveFirstOfEachSubset(OfKind(docs, kind), Used(MovedRoles(docs, namespace), BindingsByRole(docs, RoleBinding)), x);
    }
  }

  lemma LeftByKind(left: Index, docs: seq<Resource>, namespace: string)
    requires forall k :: At(left, k) == Bundled(docs, namespace, k)
    ensures forall k, d :: d in At(left, k) ==> d.kind == k
  {
    forall k, d | d in At(left, k) ensures d.kind == k {
      BundledSubset(docs, namespace, k, d);
    }
  }

  lemma LeftInFiles(files: map<string, Resource>, left: Index, docs: seq<Resource>, namespace: string)
    requires forall k :: At(left, k) == Bundled(docs, namespace, k)
    requires FilesFrom(files, left) && forall d: Resource :: d in At(left, d.kind) ==> FilenameFor(d) in files
    ensures FilesHold(files, docs, namespace)
  {
    forall d: Resource | d in Bundled(docs, namespace, d.kind) ensures FilenameFor(d) in files {
      assert d in At(left, d.kind);
    }
  }

  /** What the trims and the new permission amount to when role i moves ... */
  lemma MovedStep(roles: seq<Resource>, i: nat, rbs: map<string, Resource>, namespace: string, bindings: seq<Resource>)
    requires i < |roles| && Moves(rbs, namespace, roles[i].name)
    ensures var moved, moved' := Decided(roles[..i], rbs, namespace, true), Decided(roles[..i + 1], rbs, namespace, true);
            var kept, kept' := Decided(roles[..i], rbs, namespace, false), Decided(roles[..i + 1], rbs, namespace, false);
            var binding := rbs[roles[i].name];
            && RemoveFirst(kept + roles[i..], roles[i]) == kept' + roles[i + 1..]
            && PermissionsOf(moved', rbs) == PermissionsOf(moved, rbs) + [Permission(roles[i].rules, AccountOf(binding))]
            && RemoveFirstOfEach(bindings, Used(moved', rbs)) ==
               RemoveFirst(RemoveFirstOfEach(bindings, Used(moved, rbs)), binding)
  {
    var moved := Decided(roles[..i], rbs, namespace, true);
    assert roles[..i + 1] == roles[..i] + [roles[i]];
    DecidedAppend(roles[..i], roles[i], rbs, namespace, true);
    DecidedAppend(roles[..i], roles[i], rbs, namespace, false);
    PermissionsAppend(moved, roles[i], rbs);
    UsedAppend(moved, roles[i], rbs);
    TrimAppend(bindings, Used(moved, rbs), rbs[roles[i].name]);
    FirstMatchIsOwn(roles, i, rbs, namespace);
  }

  /** ... and when it does not. */
  lemma KeptStep(roles: seq<Resource>, i: nat, rbs: map<string, Resource>, namespace: string)
    requires i < |roles| && !Moves(rbs, namespace, roles[i].name)
    ensures Decided(roles[..i + 1], rbs, namespace, true) == Decided(roles[..i], rbs, namespace, true)
    ensures Decided(roles[..i + 1], rbs, namespace, false) + roles[i + 1..] ==
            Decided(roles[..i], rbs, namespace, false) + roles[i..]
  {
    assert roles[..i + 1] == roles[..i] + [roles[i]];
    DecidedAppend(roles[..i], roles[i], rbs, namespace, true);
    DecidedAppend(roles[..i], roles[i], rbs, namespace, false);
    Regroup(Decided(roles[..i], rbs, namespace, false), roles, i);
  }

  lemma Regroup(kept: seq<Resource>, roles: seq<Resource>, i: nat)
    requires i < |roles|
    ensures kept + [roles[i]] + roles[i + 1..] == kept + roles[i..]
  {
  }

  // ---------------------------------------------------------------------------------------------
  // The same in terms of the documents alone
  // ---------------------------------------------------------------------------------------------

  /** Document i is a binding of that kind for that role name, and none after it is. */
  ghost predicate IsLastBinding(docs: seq<Resource>, kind: Kind, i: int, name: string) {
    && 0 <= i < |docs| && docs[i].kind == kind && docs[i].roleRef == name
    && forall j :: i < j < |docs| && docs[j].kind == kind ==> docs[j].roleRef != name
  }

  lemma LastBindingAppend(docs: seq<Resource>, doc: Resource, kind: Kind, i: int, name: string)
    ensures IsLastBinding(docs + [doc], kind, i, name) <==>
            if doc.kind == kind && doc.roleRef == name then i == |docs| else IsLastBinding(docs, kind, i, name)
  {
    var all := docs + [doc];
    assert all[|docs|] == doc && forall j :: 0 <= j < |docs| ==> all[j] == docs[j];
  }

  /** A role name is indexed iff some binding names it, and with the last one loaded. */
  lemma {:induction false} LastBindingWins(docs: seq<Resource>, kind: Kind, name: string)
    ensures name in BindingsByRole(docs, kind) <==> exists i :: IsLastBinding(docs, kind, i, name)
    ensures forall i :: IsLastBinding(docs, kind, i, name) && name in BindingsByRole(docs, kind) ==>
                          BindingsByRole(docs, kind)[name] == docs[i]
  {
    if docs != [] {
      var n := |docs| - 1;
      LastBindingWins(docs[..n], kind, name);
      assert docs == docs[..n] + [docs[n]];
      forall i { LastBindingAppend(docs[..n], docs[n], kind, i, name); }
      if docs[n].kind == kind && docs[n].roleRef == name {
        assert IsLastBinding(docs, kind, n, name);
      }
    }
  }

  /** A role name is bound to one ServiceAccount of the operator's namespace, by the last RoleBinding loaded for it. */
  ghost predicate HasOwnAccount(docs: seq<Resource>, namespace: string, name: string) {
    exists i :: && IsLastBinding(docs, RoleBinding, i, name)
                && docs[i].subjects.Some? && |docs[i].subjects.value| == 1
                && docs[i].subjects.value[0].kind == "ServiceAccount"
                && docs[i].subjects.value[0].namespace in {None, Some(namespace)}
  }

  lemma MovesInWords(docs: seq<Resource>, namespace: string, name: string)
    ensures Moves(BindingsByRole(docs, RoleBinding), namespace, name) <==> HasOwnAccount(docs, namespace, name)
  {
    LastBindingWins(docs, RoleBinding, name);
  }

  /**
   A Role enters the CSV exactly when the last RoleBinding loaded for its name has exactly one subject, a ServiceAccount
   with no namespace or with that of the operator. Every other Role is left for the bundle.
   */
  lemma RoleFate(docs: seq<Resource>, namespace: string, r: Resource)
    ensures r in MovedRoles(docs, namespace) <==>
            && r in docs && r.kind == Role
            && exists i :: && 0 <= i < |docs| && docs[i].kind == RoleBinding && docs[i].roleRef == r.name
                           && (forall j :: i < j < |docs| && docs[j].kind == RoleBinding ==> docs[j].roleRef != r.name)
                           && docs[i].subjects.Some? && |docs[i].subjects.value| == 1
                           && docs[i].subjects.value[0].kind == "ServiceAccount"
                           && docs[i].subjects.value[0].namespace in {None, Some(namespace)}
    ensures r in Bundled(docs, namespace, Role) <==> r in docs && r.kind == Role && r !in MovedRoles(docs, namespace)
  {
    var roles, rbs := OfKind(docs, Role), BindingsByRole(docs, RoleBinding);
    OfKindContent(docs, Role, r);
    DecidedContent(roles, rbs, namespace, true);
    DecidedContent(roles, rbs, namespace, false);
    MovesInWords(docs, namespace, r.name);
  }

  /** Each moved Role adds one permission, in order: its own rules, for the one subject of the last binding loaded for it. */
  lemma PermissionFate(docs: seq<Resource>, namespace: string, j: nat, i: int)
    requires j < |MovedRoles(docs, namespace)|
    requires IsLastBinding(docs, RoleBinding, i, MovedRoles(docs, namespace)[j].name)
    ensures var moved, permissions := MovedRoles(docs, namespace), PermissionsOf(MovedRoles(docs, namespace), BindingsByRole(docs, RoleBinding));
            && |permissions| == |moved|
            && docs[i].subjects.Some? && |docs[i].subjects.value| == 1
            && permissions[j] == Permission(moved[j].rules, docs[i].subjects.value[0].name)
  {
    var moved, rbs := MovedRoles(docs, namespace), BindingsByRole(docs, RoleBinding);
    DecidedContent(OfKind(docs, Role), rbs, namespace, true);
    PermissionsInWords(moved, rbs);
    LastBindingWins(docs, RoleBinding, moved[j].name);
    assert moved[j] in moved;
  }

  /** What is left in the index, and what was added to the CSV, for the Roles: in terms of the documents alone. */
  ghost predicate RolesFiled(docs: seq<Resource>, namespace: string, left: seq<Resource>, permissions: seq<Permission>) {
    && (forall r :: r in left <==> r in docs && r.kind == Role && !HasOwnAccount(docs, namespace, r.name))
    && |permissions| == |MovedRoles(docs, namespace)|
    && forall j, i :: 0 <= j < |permissions| && IsLastBinding(docs, RoleBinding, i, MovedRoles(docs, namespace)[j].name) ==>
                        && docs[i].subjects.Some? && |docs[i].subjects.value| == 1
                        && permissions[j] == Permission(MovedRoles(docs, namespace)[j].rules, docs[i].subjects.value[0].name)
  }

  lemma RolesInWords(docs: seq<Resource>, namespace: string, left: seq<Resource>, permissions: seq<Permission>)
    requires left == Bundled(docs, namespace, Role)
    requires permissions == PermissionsOf(MovedRoles(docs, namespace), BindingsByRole(docs, RoleBinding))
    ensures RolesFiled(docs, namespace, left, permissions)
  {
    var moved, rbs := MovedRoles(docs, namespace), BindingsByRole(docs, RoleBinding);
    DecidedContent(OfKind(docs, Role), rbs, namespace, true);
    forall r
      ensures r in left <==> r in docs && r.kind == Role && !HasOwnAccount(docs, namespace, r.name)
    {
      RoleFate(docs, namespace, r);
    }
    PermissionsInWords(moved, rbs);
    forall j, i | 0 <= j < |permissions| && IsLastBinding(docs, RoleBinding, i, moved[j].name)
      ensures docs[i].subjects.Some? && |docs[i].subjects.value| == 1
      ensures permissions[j] == Permission(moved[j].rules, docs[i].subjects.value[0].name)
    {
      PermissionFate(docs, namespace, j, i);
    }
  }

  lemma {:induction false} OfKindSize(docs: seq<Resource>, kind: Kind)
    ensures OfKind(docs, kind) == [] <==> forall i :: 0 <= i < |docs| ==> docs[i].kind != kind
    ensures |OfKind(docs, kind)| > 1 <==> exists i, j :: 0 <= i < j < |docs| && docs[i].kind == docs[j].kind == kind
  {
    if docs != [] {
      var n := |docs| - 1;
      var shorter := docs[..n];
      OfKindSize(shorter, kind);
      assert forall i :: 0 <= i < n ==> shorter[i] == docs[i];
    }
  }

  /** Which documents the script runs through on, condition by condition. */
  lemma AcceptedInWords(operatorName: string, docs: seq<Resource>, csvNamespace: Option<string>, supplementaryImage: bool)
    ensures Accepted(operatorName, docs, csvNamespace, supplementaryImage) <==>
            && (forall d :: d in docs ==> !d.kind.Unsupported?)
            && (exists i :: 0 <= i < |docs| && docs[i].kind == Deployment)
            && ((exists i, j :: 0 <= i < j < |docs| && docs[i].kind == docs[j].kind == Deployment) ==> supplementaryImage)
            && csvNamespace.Some?
            && (forall r, i :: r in docs && r.kind == ClusterRole && IsLastBinding(docs, ClusterRoleBinding, i, r.name) ==>
                                 docs[i].subjects.Some? && HasAccount(docs[i].subjects.value))
            && (forall r :: r in docs && r.kind == Role ==>
                              exists i :: IsLastBinding(docs, RoleBinding, i, r.name) && docs[i].subjects.Some?)
  {
    OfKindSize(docs, Deployment);
    ClustersBoundInWords(operatorName, docs);
    AllBoundInWords(docs);
  }

  ghost predicate HasAccount(subjects: seq<Subject>) {
    exists i :: 0 <= i < |subjects| && subjects[i].kind == "ServiceAccount"
  }

  lemma {:induction false} AccountFound(subjects: seq<Subject>)
    ensures FirstServiceAccount(subjects).Some? <==> HasAccount(subjects)
  {
    if subjects != [] && subjects[0].kind != "ServiceAccount" {
      AccountFound(subjects[1..]);
      if i :| 0 <= i < |subjects| && subjects[i].kind == "ServiceAccount" {
        assert subjects[1..][i - 1] == subjects[i];
      }
    }
  }

  lemma ClustersBoundInWords(operatorName: string, docs: seq<Resource>)
    ensures ClustersBound(operatorName, docs) <==>
            forall r, i :: r in docs && r.kind == ClusterRole && IsLastBinding(docs, ClusterRoleBinding, i, r.name) ==>
                             docs[i].subjects.Some? && HasAccount(docs[i].subjects.value)
  {
    var bindings := BindingsByRole(docs, ClusterRoleBinding);
    forall r
      ensures r in OfKind(docs, ClusterRole) <==> r in docs && r.kind == ClusterRole
      ensures ClusterAccount(operatorName, bindings, r).Some? <==>
              forall i :: IsLastBinding(docs, ClusterRoleBinding, i, r.name) ==>
                            docs[i].subjects.Some? && HasAccount(docs[i].subjects.value)
    {
      OfKindContent(docs, ClusterRole, r);
      LastBindingWins(docs, ClusterRoleBinding, r.name);
      if r.name in bindings && bindings[r.name].subjects.Some? {
        AccountFound(bindings[r.name].subjects.value);
      }
    }
  }

  lemma AllBoundInWords(docs: seq<Resource>)
    ensures AllBound(OfKind(docs, Role), BindingsByRole(docs, RoleBinding)) <==>
            forall r :: r in docs && r.kind == Role ==>
                          exists i :: IsLastBinding(docs, RoleBinding, i, r.name) && docs[i].subjects.Some?
  {
    var roles, rbs := OfKind(docs, Role), BindingsByRole(docs, RoleBinding);
    forall r
      ensures r in roles <==> r in docs && r.kind == Role
      ensures IsBound(r, rbs) <==> exists i :: IsLastBinding(docs, RoleBinding, i, r.name) && docs[i].subjects.Some?
    {
      OfKindContent(docs, Role, r);
      LastBindingWins(docs, RoleBinding, r.name);
    }
    assert AllBound(roles, rbs) <==> forall r :: r in roles ==> IsBound(r, rbs);
  }

  // ---------------------------------------------------------------------------------------------
  // Where each document ends up
  // ---------------------------------------------------------------------------------------------

  /** A Role goes to the CSV or to the bundle, never to both and never nowhere; its name alone decides. */
  lemma RolePartition(docs: seq<Resource>, namespace: string)
    ensures multiset(MovedRoles(docs, namespace)) + multiset(Bundled(docs, namespace, Role)) == multiset(OfKind(docs, Role))
    ensures forall r :: r in OfKind(docs, Role) ==>
                          && (r in MovedRoles(docs, namespace) <==> Moves(BindingsByRole(docs, RoleBinding), namespace, r.name))
                          && (r in Bundled(docs, namespace, Role) <==> r !in MovedRoles(docs, namespace))
  {
    var roles, rbs := OfKind(docs, Role), BindingsByRole(docs, RoleBinding);
    RolesConserved(roles, rbs, namespace);
    DecidedContent(roles, rbs, namespace, true);
    DecidedContent(roles, rbs, namespace, false);
  }

  lemma {:induction false} BindingsContent(docs: seq<Resource>, kind: Kind)
    ensures forall n :: n in BindingsByRole(docs, kind) ==>
                          var b := BindingsByRole(docs, kind)[n]; b in OfKind(docs, kind) && b.roleRef == n
    ensures forall d :: d in OfKind(docs, kind) ==> d.roleRef in BindingsByRole(docs, kind)
  {
    if docs != [] {
      var n := |docs| - 1;
      BindingsContent(docs[..n], kind);
      assert docs == docs[..n] + [docs[n]];
      KindAppend(docs[..n], docs[n], kind);
      BindingsAppend(docs[..n], docs[n], kind);
    }
  }

  /** The binding that was indexed for its role name, when one of these roles has that name. */
  ghost predicate IsUsedBy(docs: seq<Resource>, kind: Kind, roles: seq<Resource>, b: Resource) {
    && b.roleRef in BindingsByRole(docs, kind) && BindingsByRole(docs, kind)[b.roleRef] == b
    && exists r :: r in roles && r.name == b.roleRef
  }

  /** It is used for a role that moves. */
  ghost predicate Serves(docs: seq<Resource>, namespace: string, b: Resource) {
    IsUsedBy(docs, RoleBinding, MovedRoles(docs, namespace), b)
  }

  /** It is used for a cluster role; they all enter the CSV. */
  ghost predicate ServesCluster(docs: seq<Resource>, b: Resource) {
    IsUsedBy(docs, ClusterRoleBinding, OfKind(docs, ClusterRole), b)
  }

  /** The bindings trimmed along with these roles are those used by one. */
  lemma UsedServes(docs: seq<Resource>, kind: Kind, roles: seq<Resource>, b: Resource)
    ensures var rbs := BindingsByRole(docs, kind);
            && (b in Used(roles, rbs) ==> b in OfKind(docs, kind))
            && (b in Used(roles, rbs) <==> IsUsedBy(docs, kind, roles, b))
  {
    BindingsContent(docs, kind);
    UsedContent(roles, BindingsByRole(docs, kind), b);
  }

  lemma NamedIsMember(list: seq<Resource>, used: seq<Resource>, b: Resource)
    requires DistinctIdentities(list) && b in list
    requires forall u :: u in used ==> u in list
    ensures Named(used, b) <==> b in used
  {
    if Named(used, b) {
      var i :| 0 <= i < |used| && SameIdentity(used[i], b);
      assert used[i] in list;
      var j, k :| 0 <= j < |list| && list[j] == used[i] && 0 <= k < |list| && list[k] == b;
      assert j == k;
    }
  }

  /** Trimming the bindings used for these roles leaves those that none of them uses. */
  lemma LeftAfterUse(docs: seq<Resource>, kind: Kind, roles: seq<Resource>, b: Resource)
    requires DistinctIdentities(OfKind(docs, kind)) && b in OfKind(docs, kind)
    ensures var rbs := BindingsByRole(docs, kind);
            b in RemoveFirstOfEach(OfKind(docs, kind), Used(roles, rbs)) <==> b !in Used(roles, rbs)
  {
    var list, used := OfKind(docs, kind), Used(roles, BindingsByRole(docs, kind));
    TrimmingIsFiltering(list, used);
    forall u | u in used ensures u in list { UsedServes(docs, kind, roles, u); }
    NamedIsMember(list, used, b);
  }

  /**
   With distinct identities, a RoleBinding is left out of the bundle exactly when it is the one indexed for its role
   name and a role of that name moved: of two bindings that share a role name, the one loaded first is bundled.
   */
  lemma RoleBindingFate(docs: seq<Resource>, namespace: string, b: Resource)
    requires DistinctIdentities(OfKind(docs, RoleBinding))
    requires b in OfKind(docs, RoleBinding)
    ensures b in Bundled(docs, namespace, RoleBinding) <==> !Serves(docs, namespace, b)
  {
    RoleKinds(docs, namespace);
    LeftAfterUse(docs, RoleBinding, MovedRoles(docs, namespace), b);
    UsedServes(docs, RoleBinding, MovedRoles(docs, namespace), b);
  }

  /** A ClusterRoleBinding is left out exactly when it is the one indexed for the name of a cluster role. */
  lemma ClusterRoleBindingFate(docs: seq<Resource>, namespace: string, b: Resource)
    requires DistinctIdentities(OfKind(docs, ClusterRoleBinding))
    requires b in OfKind(docs, ClusterRoleBinding)
    ensures b in Bundled(docs, namespace, ClusterRoleBinding) <==> !ServesCluster(docs, b)
  {
    LeftAfterUse(docs, ClusterRoleBinding, OfKind(docs, ClusterRole), b);
    UsedServes(docs, ClusterRoleBinding, OfKind(docs, ClusterRole), b);
  }

  /** The document itself is written into the CSV. */
  ghost predicate EntersCsv(docs: seq<Resource>, namespace: string, d: Resource) {
    || d.kind == ClusterRole
    || (d.kind == Role && d in MovedRoles(docs, namespace))
    || (d.kind == Deployment && d in Deployed(docs))
  }

  /** The document is in neither CSV nor bundle. Of a binding that serves a role, the CSV keeps the account's name. */
  ghost predicate IsDropped(docs: seq<Resource>, namespace: string, d: Resource) {
    match d.kind
    case ServiceAccount => true
    case Deployment => d in OfKind(docs, Deployment)[|Deployed(docs)|..]
    case RoleBinding => Serves(docs, namespace, d)
    case ClusterRoleBinding => ServesCluster(docs, d)
    case _ => false
  }

  /** Every document has exactly one fate: it enters the CSV, it is bundled, or it is dropped. */
  lemma DocumentFate(docs: seq<Resource>, namespace: string, d: Resource)
    requires d in docs && DistinctIdentities(OfKind(docs, d.kind))
    ensures EntersCsv(docs, namespace, d) || d in Bundled(docs, namespace, d.kind) || IsDropped(docs, namespace, d)
    ensures !(EntersCsv(docs, namespace, d) && d in Bundled(docs, namespace, d.kind))
    ensures !(EntersCsv(docs, namespace, d) && IsDropped(docs, namespace, d))
    ensures !(d in Bundled(docs, namespace, d.kind) && IsDropped(docs, namespace, d))
  {
    OfKindContent(docs, d.kind, d);
    match d.kind
    case Role => RolePartition(docs, namespace);
    case RoleBinding => RoleBindingFate(docs, namespace, d);
    case ClusterRoleBinding => ClusterRoleBindingFate(docs, namespace, d);
    case Deployment => DeploymentFate(docs, d);
    case _ =>
  }

  /** Kind by kind: which documents are left for the bundle. */
  lemma BundledInWords(docs: seq<Resource>, namespace: string, d: Resource)
    requires DistinctIdentities(OfKind(docs, d.kind))
    ensures d in Bundled(docs, namespace, d.kind) <==>
            && d in docs && d.kind !in {ClusterRole, Deployment, ServiceAccount}
            && !(d.kind == Role && d in MovedRoles(docs, namespace))
            && !(d.kind == RoleBinding &&
                 exists i, r :: IsLastBinding(docs, RoleBinding, i, d.roleRef) && docs[i] == d &&
                                r in MovedRoles(docs, namespace) && r.name == d.roleRef)
            && !(d.kind == ClusterRoleBinding &&
                 exists i, r :: IsLastBinding(docs, ClusterRoleBinding, i, d.roleRef) && docs[i] == d &&
                                r in docs && r.kind == ClusterRole && r.name == d.roleRef)
  {
    OfKindContent(docs, d.kind, d);
    LastBindingWins(docs, d.kind, d.roleRef);
    if d in docs {
      match d.kind
      case Role => RoleFate(docs, namespace, d);
      case RoleBinding => RoleBindingFate(docs, namespace, d);
      case ClusterRoleBinding =>
        ClusterRoleBindingFate(docs, namespace, d);
        forall r { OfKindContent(docs, ClusterRole, r); }
      case _ =>
    } else if d in Bundled(docs, namespace, d.kind) {
      BundledSubset(docs, namespace, d.kind, d);
    }
  }

  lemma DeploymentFate(docs: seq<Resource>, d: Resource)
    requires d in OfKind(docs, Deployment) && DistinctIdentities(OfKind(docs, Deployment))
    ensures d in Deployed(docs) <==> d !in OfKind(docs, Deployment)[|Deployed(docs)|..]
  {
    var all, n := OfKind(docs, Deployment), |Deployed(docs)|;
    assert all == all[..n] + all[n..] && Deployed(docs) == all[..n];
    if d in all[n..] {
      var j :| 0 <= j < |all[n..]| && all[n..][j] == d;
      assert all[n + j] == d;
      forall i | 0 <= i < n ensures all[..n][i] != d {
        assert !SameIdentity(all[i], all[n + j]);
      }
    }
  }

  // ---------------------------------------------------------------------------------------------
  // No file is overwritten
  // ---------------------------------------------------------------------------------------------

  /** What the script and the cluster accept: permitted kinds, and no two documents of the same kind, namespace and name. */
  ghost predicate WellNamed(docs: seq<Resource>) {
    && (forall a, b :: a in docs && b in docs && SameResource(a, b) ==> a == b)
    && (forall d :: d in docs ==> IsPermitted(d.kind))
  }

  /** d is left for the bundle. */
  ghost predicate IsLeft(docs: seq<Resource>, namespace: string, d: Resource) {
    d in Bundled(docs, namespace, d.kind)
  }

  /** The documents left are those that have a file, under their own name. */
  ghost predicate AreTheFiles(files: map<string, Resource>, docs: seq<Resource>, namespace: string) {
    forall d: Resource :: IsLeft(docs, namespace, d) <==> FilenameFor(d) in files && files[FilenameFor(d)] == d
  }

  ghost predicate NothingBlurs(docs: seq<Resource>, namespace: string) {
    forall a, b :: IsLeft(docs, namespace, a) && IsLeft(docs, namespace, b) ==> !Blurs(a, b)
  }

  /**
   The bundle is exactly what was left, one file a document, if and only if no underscore blurs where the namespace
   ends for two of the documents left.
   */
  lemma NothingOverwritten(files: map<string, Resource>, docs: seq<Resource>, namespace: string)
    requires FilesHold(files, docs, namespace) && WellNamed(docs)
    ensures AreTheFiles(files, docs, namespace) <==> NothingBlurs(docs, namespace)
  {
    if a, b :| IsLeft(docs, namespace, a) && IsLeft(docs, namespace, b) && Blurs(a, b) {
      Permitted(docs, namespace, a);
      Permitted(docs, namespace, b);
      FilenameCollision(a, b);
      assert NamespaceOf(a) != NamespaceOf(b);
      assert files[FilenameFor(a)] != a || files[FilenameFor(b)] != b;
    } else {
      forall d: Resource | IsLeft(docs, namespace, d)
        ensures files[FilenameFor(d)] == d
      {
        var other := files[FilenameFor(d)];
        Permitted(docs, namespace, d);
        Permitted(docs, namespace, other);
        FilenameCollision(d, other);
        assert IsLeft(docs, namespace, other) && !Blurs(d, other) && !Blurs(other, d);
      }
    }
  }

  lemma Permitted(docs: seq<Resource>, namespace: string, d: Resource)
    requires WellNamed(docs) && IsLeft(docs, namespace, d)
    ensures d in docs && IsPermitted(d.kind)
  {
    BundledSubset(docs, namespace, d.kind, d);
  }
}
