/** The RoleBinding the controller keeps for its agents: who belongs in it, when two
    subject lists are the same, and how repeated calls converge. */
module RoleBindings {
  import opened Options

  /** A pod, reduced to its `cr-name` annotation and its service account; its phase plays no part. */
  datatype Pod = Pod(crName: Option<string>, serviceAccount: string, phase: string)

  datatype Subject = Subject(kind: string, name: string, ns: string)

  datatype RoleRef = RoleRef(kind: string, name: string)

  datatype Binding = Binding(roleRef: RoleRef, subjects: seq<Subject>)

  const AGENT_ROLE := "stoker-agent"
  const DEFAULT_ACCOUNT := "default"

  function Names(subjects: seq<Subject>): (names: seq<string>)
    ensures |names| == |subjects|
  {
    seq(|subjects|, i requires 0 <= i < |subjects| => subjects[i].name)
  }

  // ---------------------------------------------------------------- sorting

  predicate Leq(a: string, b: string) {
    a == "" || (b != "" && (a[0] < b[0] || (a[0] == b[0] && Leq(a[1..], b[1..]))))
  }

  lemma {:induction false} LeqTotal(a: string, b: string)
    ensures Leq(a, b) || Leq(b, a)
    ensures Leq(a, b) && Leq(b, a) ==> a == b
  {
    if a != "" && b != "" {
      LeqTotal(a[1..], b[1..]);
      assert a == [a[0]] + a[1..] && b == [b[0]] + b[1..];
    }
  }

  lemma {:induction false} LeqTransitive(a: string, b: string, c: string)
    requires Leq(a, b) && Leq(b, c)
    ensures Leq(a, c)
  {
    if a != "" && a[0] == b[0] == c[0] {
      LeqTransitive(a[1..], b[1..], c[1..]);
    }
  }

  predicate Ordered(s: seq<string>) {
    forall i, j | 0 <= i < j < |s| :: Leq(s[i], s[j])
  }

  function Insert(x: string, s: seq<string>): (r: seq<string>)
    ensures multiset(r) == multiset(s) + multiset{x}
  {
    if s == [] then [x]
    else if Leq(x, s[0]) then [x] + s
    else
      assert s == [s[0]] + s[1..];
      [s[0]] + Insert(x, s[1..])
  }

  /** `sort.Strings`. */
  function Sort(s: seq<string>): (r: seq<string>)
    ensures multiset(r) == multiset(s) && |r| == |s|
  {
    if s == [] then []
    else
      assert s == [s[0]] + s[1..];
      var r := Insert(s[0], Sort(s[1..]));
      SameSize(r, s);
      r
  }

  lemma SameSize(r: seq<string>, s: seq<string>)
    requires multiset(r) == multiset(s)
    ensures |r| == |s|
  {
    assert |multiset(r)| == |r| && |multiset(s)| == |s|;
  }

  lemma {:induction false} InsertOrdered(x: string, s: seq<string>)
    requires Ordered(s)
    ensures Ordered(Insert(x, s))
  {
    if s != [] {
      var r := Insert(x, s);
      if Leq(x, s[0]) {
        forall i | 0 <= i < |s| ensures Leq(x, s[i]) {
          if i > 0 {
            LeqTransitive(x, s[0], s[i]);
          }
        }
      } else {
        InsertOrdered(x, s[1..]);
        LeqTotal(x, s[0]);
        var rest := Insert(x, s[1..]);
        forall i | 0 <= i < |rest| ensures Leq(s[0], rest[i]) {
          assert rest[i] in multiset(rest);
          assert rest[i] == x || rest[i] in s[1..];
        }
      }
    }
  }

  lemma {:induction false} SortOrdered(s: seq<string>)
    ensures Ordered(Sort(s))
  {
    if s != [] {
      SortOrdered(s[1..]);
      InsertOrdered(s[0], Sort(s[1..]));
    }
  }

  lemma LeastFirst(s: seq<string>, x: string)
    requires Ordered(s) && x in multiset(s)
    ensures s != [] && Leq(s[0], x)
  {
    var i :| 0 <= i < |s| && s[i] == x;
    LeqTotal(s[0], s[0]);
  }

  lemma Tail(s: seq<string>)
    requires s != []
    ensures multiset(s[1..]) == multiset(s) - multiset{s[0]}
    ensures s[0] in multiset(s) && s == [s[0]] + s[1..]
  {
    assert s == [s[0]] + s[1..];
  }

  lemma {:induction false} OrderedUnique(a: seq<string>, b: seq<string>)
    requires Ordered(a) && Ordered(b) && multiset(a) == multiset(b)
    ensures a == b
  {
    SameSize(a, b);
    if a != [] {
      Tail(a);
      Tail(b);
      LeastFirst(a, b[0]);
      LeastFirst(b, a[0]);
      LeqTotal(a[0], b[0]);
      OrderedUnique(a[1..], b[1..]);
    }
  }

  /** Sorting decides equality up to order. */
  lemma SortDecides(a: seq<string>, b: seq<string>)
    ensures Sort(a) == Sort(b) <==> multiset(a) == multiset(b)
  {
    if multiset(a) == multiset(b) {
      SortOrdered(a);
      SortOrdered(b);
      OrderedUnique(Sort(a), Sort(b));
    }
  }

  method SortStrings(a: array<string>)
    modifies a
    ensures a[..] == Sort(old(a[..]))
  {
    var sorted := Sort(a[..]);
    for i := 0 to a.Length
      invariant forall j | 0 <= j < i :: a[j] == sorted[j]
    {
      a[i] := sorted[i];
    }
  }

  // ---------------------------------------------------------------- subjects

  /** `subjectsEqual`: the same names as often each, in any order; kinds and namespaces are
      not looked at. */
  method SubjectsEqual(a: seq<Subject>, b: seq<Subject>) returns (equal: bool)
    ensures equal <==> multiset(Names(a)) == multiset(Names(b))
  {
    if |a| != |b| {
      if multiset(Names(a)) == multiset(Names(b)) {
        SameSize(Names(a), Names(b));
      }
      return false;
    }
    var aNames := new string[|a|];
    var bNames := new string[|b|];
    for i := 0 to |a|
      invariant forall j | 0 <= j < i :: aNames[j] == a[j].name && bNames[j] == b[j].name
    {
      aNames[i], bNames[i] := a[i].name, b[i].name;
    }
    assert aNames[..] == Names(a) && bNames[..] == Names(b);
    SortStrings(aNames);
    SortStrings(bNames);
    SortDecides(Names(a), Names(b));
    return aNames[..] == bNames[..];
  }

  /** The account a pod runs under, when it names this CR. */
  predicate Uses(pod: Pod, cr: string, account: string) {
    pod.crName == Some(cr) && account == if pod.serviceAccount == "" then DEFAULT_ACCOUNT else pod.serviceAccount
  }

  /** Accounts of all pods naming the CR, in any phase; `default` when there is no such pod. */
  function Accounts(pods: seq<Pod>, cr: string): set<string> {
    var used := set i, a | 0 <= i < |pods| && a in {pods[i].serviceAccount, DEFAULT_ACCOUNT} && Uses(pods[i], cr, a) :: a;
    if used == {} then {DEFAULT_ACCOUNT} else used
  }

  /** An account belongs in the binding exactly if some pod that names the CR runs under it, in
      whatever phase, or no pod names the CR and it is `default`. */
  lemma AccountsMeans(pods: seq<Pod>, cr: string, a: string)
    ensures a in Accounts(pods, cr) <==>
              (exists i | 0 <= i < |pods| ::
                 pods[i].crName == Some(cr)
                 && a == if pods[i].serviceAccount == "" then "default" else pods[i].serviceAccount)
              || (a == "default" && forall i | 0 <= i < |pods| :: pods[i].crName != Some(cr))
  {
    var used := set i, b | 0 <= i < |pods| && b in {pods[i].serviceAccount, DEFAULT_ACCOUNT} && Uses(pods[i], cr, b) :: b;
    forall i | 0 <= i < |pods| && pods[i].crName == Some(cr)
      ensures (if pods[i].serviceAccount == "" then "default" else pods[i].serviceAccount) in used
    {
      assert Uses(pods[i], cr, if pods[i].serviceAccount == "" then "default" else pods[i].serviceAccount);
    }
  }

  /** Pods that wait for their rights count like those that run. */
  lemma PhaseDoesNotMatter(pods: seq<Pod>, others: seq<Pod>, cr: string)
    requires |pods| == |others|
    requires forall i | 0 <= i < |pods| :: others[i] == pods[i].(phase := others[i].phase)
    ensures Accounts(pods, cr) == Accounts(others, cr)
  {
    forall a ensures a in Accounts(pods, cr) <==> a in Accounts(others, cr) {
      AccountsMeans(pods, cr, a);
      AccountsMeans(others, cr, a);
    }
  }

  /** What lists the accounts once each lists what belongs in the binding. */
  lemma NamesAreAccounts(pods: seq<Pod>, cr: string)
    ensures forall names: seq<string>, a | multiset(names) == multiset(Accounts(pods, cr)) ::
              && multiset(names)[a] <= 1
              && (a in names <==>
                  (exists i | 0 <= i < |pods| ::
                     pods[i].crName == Some(cr)
                     && a == if pods[i].serviceAccount == "" then "default" else pods[i].serviceAccount)
                  || (a == "default" && forall i | 0 <= i < |pods| :: pods[i].crName != Some(cr)))
  {
    forall names: seq<string>, a | multiset(names) == multiset(Accounts(pods, cr))
      ensures multiset(names)[a] <= 1 && (a in names <==> a in Accounts(pods, cr))
    {
      assert a in names <==> a in multiset(names);
    }
    forall a {
      AccountsMeans(pods, cr, a);
    }
  }

  /** `collectServiceAccountsFromPods` on a listing that succeeded, with the caller's baseline. */
  method CollectServiceAccounts(pods: seq<Pod>, cr: string) returns (names: seq<string>)
    ensures multiset(names) == multiset(Accounts(pods, cr)) && Ordered(names)
    ensures forall a :: multiset(names)[a] <= 1
    ensures forall a :: a in names <==>
              (exists i | 0 <= i < |pods| ::
                 pods[i].crName == Some(cr)
                 && a == if pods[i].serviceAccount == "" then "default" else pods[i].serviceAccount)
              || (a == "default" && forall i | 0 <= i < |pods| :: pods[i].crName != Some(cr))
  {
    hide Accounts, Uses, Ordered;
    var seen := SeenAccounts(pods, cr);
    names := ListOnce(seen);
    SortOrdered(names);
    names := Sort(names);
    if names == [] {
      assert forall a :: a in seen <==> a in multiset(seen);
      names := [DEFAULT_ACCOUNT];
      assert multiset(names) == multiset({DEFAULT_ACCOUNT});
      SortOrdered(names);
    } else {
      assert names[0] in multiset(seen);
    }
    NamesAreAccounts(pods, cr);
  }

  /** The accounts met while going through the pods. */
  method SeenAccounts(pods: seq<Pod>, cr: string) returns (seen: set<string>)
    ensures Accounts(pods, cr) == if seen == {} then {DEFAULT_ACCOUNT} else seen
  {
    seen := {};
    for i := 0 to |pods|
      invariant forall a :: a in seen <==> exists j | 0 <= j < i :: Uses(pods[j], cr, a)
    {
      if pods[i].crName == Some(cr) {
        var account := pods[i].serviceAccount;
        if account == "" {
          account := DEFAULT_ACCOUNT;
        }
        assert Uses(pods[i], cr, account);
        seen := seen + {account};
      }
    }
  }

  /** The keys of the map, in any order. */
  method ListOnce(seen: set<string>) returns (names: seq<string>)
    ensures multiset(names) == multiset(seen)
  {
    names := [];
    var left := seen;
    while left != {}
      invariant left <= seen && multiset(names) + multiset(left) == multiset(seen)
      decreases left
    {
      var name :| name in left;
      names, left := names + [name], left - {name};
    }
  }

  /** `buildSubjects`. */
  function BuildSubjects(names: seq<string>, ns: string): seq<Subject> {
    seq(|names|, i requires 0 <= i < |names| => Subject("ServiceAccount", names[i], ns))
  }

  // ---------------------------------------------------------------- convergence

  /** The binding grants the agents' role to exactly the accounts, each once. */
  predicate Grants(b: Option<Binding>, accounts: set<string>) {
    && b.Some? && b.value.roleRef.name == AGENT_ROLE
    && multiset(Names(b.value.subjects)) == multiset(accounts)
  }

  lemma GrantsMeans(b: Binding, accounts: set<string>)
    ensures Grants(Some(b), accounts) <==>
              b.roleRef.name == "stoker-agent"
              && (forall a :: a in accounts <==> exists i | 0 <= i < |b.subjects| :: b.subjects[i].name == a)
              && (forall i, j | 0 <= i < j < |b.subjects| :: b.subjects[i].name != b.subjects[j].name)
  {
    OnceEach(Names(b.subjects), accounts);
    assert forall i | 0 <= i < |b.subjects| :: Names(b.subjects)[i] == b.subjects[i].name;
    forall a ensures (exists i | 0 <= i < |b.subjects| :: b.subjects[i].name == a) <==> a in Names(b.subjects) {
      if a in Names(b.subjects) {
        var i :| 0 <= i < |b.subjects| && Names(b.subjects)[i] == a;
        assert b.subjects[i].name == a;
      }
    }
  }

  /** A list has a set's elements once each. */
  lemma OnceEach(names: seq<string>, s: set<string>)
    ensures multiset(names) == multiset(s) <==>
              (forall a :: a in s <==> a in names) && forall i, j | 0 <= i < j < |names| :: names[i] != names[j]
  {
    if multiset(names) == multiset(s) {
      forall a ensures a in s <==> a in names {
        assert a in multiset(names) <==> a in multiset(s);
      }
      forall i, j | 0 <= i < j < |names| ensures names[i] != names[j] {
        if names[i] == names[j] {
          TwiceIn(names, i, j);
        }
      }
    }
    if (forall a :: a in s <==> a in names) && forall i, j | 0 <= i < j < |names| :: names[i] != names[j] {
      DistinctOnce(names);
      forall a ensures multiset(names)[a] == multiset(s)[a] {
        assert a in multiset(names) <==> a in names;
      }
      assert multiset(names) == multiset(s);
    }
  }

  lemma TwiceIn(names: seq<string>, i: nat, j: nat)
    requires i < j < |names| && names[i] == names[j]
    ensures multiset(names)[names[i]] >= 2
  {
    assert names == names[..i] + [names[i]] + names[i + 1..j] + [names[j]] + names[j + 1..];
  }

  lemma {:induction false} DistinctOnce(names: seq<string>)
    requires forall i, j | 0 <= i < j < |names| :: names[i] != names[j]
    ensures forall a :: multiset(names)[a] <= 1
  {
    if names != [] {
      var n := |names| - 1;
      DistinctOnce(names[..n]);
      assert names == names[..n] + [names[n]];
      assert names[n] !in names[..n];
    }
  }

  /** All subjects are service accounts of the namespace. */
  predicate OwnAccounts(b: Option<Binding>, ns: string) {
    b.Some? && forall i | 0 <= i < |b.value.subjects| ::
      b.value.subjects[i].kind == "ServiceAccount" && b.value.subjects[i].ns == ns
  }

  /** The binding refers to another role, which cannot be changed in place. */
  predicate Misdirected(b: Option<Binding>) {
    b.Some? && b.value.roleRef.name != AGENT_ROLE
  }

  /** What one call without API errors may make of a binding. */
  predicate Ensured(before: Option<Binding>, after: Option<Binding>, accounts: set<string>, ns: string) {
    if Misdirected(before) then after.None?
    else if Grants(before, accounts) then after == before
    else
      && Grants(after, accounts) && OwnAccounts(after, ns)
      && (before.Some? ==> after.value.roleRef == before.value.roleRef)
      && (before.None? ==> after.value.roleRef == RoleRef("ClusterRole", AGENT_ROLE))
  }

  /** A binding to the right role and the right names that no call corrects: its subject is a
      user of another namespace. */
  lemma ForeignSubjectStays(account: string, ns: string, other: string, after: Option<Binding>)
    requires other != ns
    ensures var b := Some(Binding(RoleRef("ClusterRole", AGENT_ROLE), [Subject("User", account, other)]));
            && Grants(b, {account}) && !OwnAccounts(b, ns)
            && (Ensured(b, after, {account}, ns) <==> after == b)
  {
    var subjects := [Subject("User", account, other)];
    assert Names(subjects) == [account];
    assert multiset([account]) == multiset({account});
    assert subjects[0].ns != ns;
  }

  /** What the API server answers during one call: to the listing of pods, to the read of the
      binding, and to the write, if there is one. */
  datatype Api = Api(listed: bool, read: bool, stored: bool)

  lemma NamesOfSubjects(names: seq<string>, ns: string)
    ensures Names(BuildSubjects(names, ns)) == names
  {
  }

  /** A binding that grants the role to the accounts names exactly what belongs in it. */
  lemma GrantedNames(pods: seq<Pod>, cr: string)
    ensures forall b: Binding, a | Grants(Some(b), Accounts(pods, cr)) ::
              a in Names(b.subjects) <==>
                (exists i | 0 <= i < |pods| ::
                   pods[i].crName == Some(cr)
                   && a == if pods[i].serviceAccount == "" then "default" else pods[i].serviceAccount)
                || (a == "default" && forall i | 0 <= i < |pods| :: pods[i].crName != Some(cr))
  {
    hide Accounts;
    NamesAreAccounts(pods, cr);
  }

  class Namespace {
    var binding: Option<Binding>
    var pods: seq<Pod>
    ghost var writes: nat
    const ns: string

    constructor (ns: string, pods: seq<Pod>, binding: Option<Binding>)
      ensures this.ns == ns && this.pods == pods && this.binding == binding && writes == 0
    {
      this.ns, this.pods, this.binding, writes := ns, pods, binding, 0;
    }

    method Store(b: Option<Binding>, stored: bool)
      modifies this`binding, this`writes
      ensures binding == (if stored then b else old(binding))
      ensures writes == old(writes) + if stored then 1 else 0
    {
      if stored {
        binding, writes := b, writes + 1;
      }
    }

    /** `ensureAgentRoleBinding`. An API error, a failed listing included, leaves the binding
        as it was, and without one the call succeeds; a binding that already grants the right
        accounts is not written at all. */
    method EnsureAgentRoleBinding(cr: string, api: Api) returns (ok: bool)
      modifies this`binding, this`writes
      ensures ok <==> api.listed && api.read && (api.stored || Grants(old(binding), Accounts(pods, cr)))
      ensures ok ==> Ensured(old(binding), binding, Accounts(pods, cr), ns)
      ensures !ok ==> binding == old(binding)
      ensures writes <= old(writes) + 1
      ensures writes == old(writes) <==> !ok || Grants(old(binding), Accounts(pods, cr))
      ensures writes > old(writes) && binding.Some? ==>
                forall i | 0 <= i < |binding.value.subjects| ::
                  binding.value.subjects[i] == Subject("ServiceAccount", binding.value.subjects[i].name, ns)
      ensures ok && binding.Some? ==>
                && binding.value.roleRef.name == "stoker-agent"
                && forall a :: a in Names(binding.value.subjects) <==>
                     (exists i | 0 <= i < |pods| ::
                        pods[i].crName == Some(cr)
                        && a == if pods[i].serviceAccount == "" then "default" else pods[i].serviceAccount)
                     || (a == "default" && forall i | 0 <= i < |pods| :: pods[i].crName != Some(cr))
    {
      hide Accounts, Ordered, Names;
      if !api.listed {
        return false;
      }
      var names := CollectServiceAccounts(pods, cr);
      var desired := BuildSubjects(names, ns);
      NamesOfSubjects(names, ns);
      GrantedNames(pods, cr);
      if !api.read {
        return false;
      }
      if binding.None? {
        Store(Some(Binding(RoleRef("ClusterRole", AGENT_ROLE), desired)), api.stored);
        return api.stored;
      }
      var existing := binding.value;
      if existing.roleRef.name != AGENT_ROLE {
        Store(None, api.stored);
        return api.stored;
      }
      var equal := SubjectsEqual(existing.subjects, desired);
      if !equal {
        Store(Some(existing.(subjects := desired)), api.stored);
        return api.stored;
      }
      return true;
    }

    /** Any number of calls with the pods fixed, of which `done` meet no API error: two of
        those are enough from any state, one exactly when the role reference was not wrong,
        and at most two write. The subjects end up as the namespace's own service accounts
        unless the binding granted the role to the right names from the start with a subject
        of another kind or namespace, which is then left alone for good; and the role
        reference ends up as written here unless one of another kind bore the right name. */
    method Converge(cr: string, calls: seq<Api>) returns (done: nat)
      modifies this`binding, this`writes
      ensures done <= |calls| && writes <= old(writes) + 2
      ensures (forall i | 0 <= i < |calls| :: calls[i] == Api(true, true, true)) ==> done == |calls|
      ensures done >= 2 ==>
                && binding.Some? && binding.value.roleRef.name == "stoker-agent"
                && forall a :: a in Names(binding.value.subjects) <==>
                     (exists i | 0 <= i < |pods| ::
                        pods[i].crName == Some(cr)
                        && a == if pods[i].serviceAccount == "" then "default" else pods[i].serviceAccount)
                     || (a == "default" && forall i | 0 <= i < |pods| :: pods[i].crName != Some(cr))
      ensures done >= 2 ==> Grants(binding, Accounts(pods, cr))
      ensures done == 1 ==> (Grants(binding, Accounts(pods, cr)) <==> !Misdirected(old(binding)))
      ensures Grants(old(binding), Accounts(pods, cr)) ==> binding == old(binding) && writes == old(writes)
      ensures done >= 2 ==>
                (OwnAccounts(binding, ns) <==>
                 !(Grants(old(binding), Accounts(pods, cr)) && !OwnAccounts(old(binding), ns)))
      ensures done >= 2 ==>
                (binding.value.roleRef == RoleRef("ClusterRole", AGENT_ROLE) <==>
                 (old(binding).None? || Misdirected(old(binding)) || old(binding).value.roleRef.kind == "ClusterRole"))
    {
      hide Accounts, Names;
      GrantedNames(pods, cr);
      done := 0;
      for i := 0 to |calls|
        invariant done <= i && writes <= old(writes) + done
        invariant (forall j | 0 <= j < i :: calls[j] == Api(true, true, true)) ==> done == i
        invariant done == 0 ==> binding == old(binding)
        invariant done == 1 ==> Ensured(old(binding), binding, Accounts(pods, cr), ns)
        invariant done >= 2 ==> Grants(binding, Accounts(pods, cr)) && writes <= old(writes) + 2
        invariant Grants(old(binding), Accounts(pods, cr)) ==> binding == old(binding) && writes == old(writes)
        invariant done >= 2 && !Grants(old(binding), Accounts(pods, cr)) ==> OwnAccounts(binding, ns)
        invariant done >= 2 ==>
                    (binding.value.roleRef == RoleRef("ClusterRole", AGENT_ROLE) <==>
                     (old(binding).None? || Misdirected(old(binding)) || old(binding).value.roleRef.kind == "ClusterRole"))
      {
        var ok := EnsureAgentRoleBinding(cr, calls[i]);
        if ok {
          done := done + 1;
        }
      }
    }
  }
}
