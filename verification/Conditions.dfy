/** The condition list of a GatewaySync: what a history of settings leaves in it, and what
    Ready says about the rest. */
module Conditions {

  datatype Type = Ready | RefResolved | ProfilesValid | AllGatewaysSynced | SidecarInjected | SSHHostKeyVerification

  datatype Status = True | False | Unknown

  datatype Condition = Condition(
    kind: Type, status: Status, generation: int, since: int, reason: string, message: string)

  /** One call of `setCondition`, made at time `at`. */
  datatype Setting = Setting(
    kind: Type, status: Status, reason: string, message: string, generation: int, at: int)

  function Fresh(s: Setting): Condition {
    Condition(s.kind, s.status, s.generation, s.at, s.reason, s.message)
  }

  /** The entry after a setting of its kind: the transition time survives an equal status. */
  function Renewed(c: Condition, s: Setting): Condition {
    if c.status != s.status then Fresh(s)
    else c.(reason := s.reason, message := s.message, generation := s.generation)
  }

  /** Index of the first entry of a kind, or the length of the list. */
  function IndexOf(conditions: seq<Condition>, kind: Type): (i: nat)
    ensures i <= |conditions|
    ensures i < |conditions| ==> conditions[i].kind == kind
    ensures forall j | 0 <= j < i :: conditions[j].kind != kind
  {
    if conditions == [] then 0
    else if conditions[0].kind == kind then 0
    else 1 + IndexOf(conditions[1..], kind)
  }

  function With(conditions: seq<Condition>, s: Setting): seq<Condition> {
    var i := IndexOf(conditions, s.kind);
    if i == |conditions| then conditions + [Fresh(s)] else conditions[i := Renewed(conditions[i], s)]
  }

  /** The list after a history of settings on an empty list. */
  function Folded(history: seq<Setting>): seq<Condition> {
    if history == [] then [] else With(Folded(history[..|history| - 1]), history[|history| - 1])
  }

  // ---------------------------------------------------------------- histories

  /** The kinds in the order in which they were first set. */
  function FirstSet(history: seq<Setting>): seq<Type> {
    if history == [] then []
    else
      var before, kind := FirstSet(history[..|history| - 1]), history[|history| - 1].kind;
      if kind in before then before else before + [kind]
  }

  function Kinds(conditions: seq<Condition>): seq<Type> {
    seq(|conditions|, i requires 0 <= i < |conditions| => conditions[i].kind)
  }

  predicate Distinct(kinds: seq<Type>) {
    forall i, j | 0 <= i < j < |kinds| :: kinds[i] != kinds[j]
  }

  /** One entry per kind, in first-set order. */
  lemma {:induction false} OneEntryPerKind(history: seq<Setting>)
    ensures Kinds(Folded(history)) == FirstSet(history) && Distinct(FirstSet(history))
  {
    if history != [] {
      var before, s := history[..|history| - 1], history[|history| - 1];
      OneEntryPerKind(before);
      var list := Folded(before);
      var i := IndexOf(list, s.kind);
      if i == |list| {
        forall j | 0 <= j < |list| ensures Kinds(list)[j] != s.kind {
        }
        assert Kinds(With(list, s)) == Kinds(list) + [s.kind];
      } else {
        assert Kinds(list)[i] == s.kind;
        assert Kinds(With(list, s)) == Kinds(list);
      }
    }
  }

  /** Settings `from` to `last` of a kind are the trailing run of equal statuses: `last` is
      the kind's last setting, all its settings from `from` on agree in status, and the one
      before `from`, if any, does not. */
  predicate TrailingRun(history: seq<Setting>, kind: Type, from: nat, last: nat) {
    && from <= last < |history|
    && history[from].kind == kind && history[last].kind == kind
    && (forall j | last < j < |history| :: history[j].kind != kind)
    && (forall j | from <= j <= last && history[j].kind == kind :: history[j].status == history[last].status)
    && (forall p | 0 <= p < from && history[p].kind == kind && NoneBetween(history, kind, p, from) ::
          history[p].status != history[from].status)
  }

  predicate NoneBetween(history: seq<Setting>, kind: Type, p: nat, q: nat)
    requires q <= |history|
  {
    forall j | p < j < q :: history[j].kind != kind
  }

  /** The entry repeats the kind's last setting and dates from the first of its trailing run. */
  predicate Tells(c: Condition, history: seq<Setting>, from: nat, last: nat) {
    && TrailingRun(history, c.kind, from, last)
    && c.status == history[last].status && c.reason == history[last].reason
    && c.message == history[last].message && c.generation == history[last].generation
    && c.since == history[from].at
  }

  lemma RunGoesOn(history: seq<Setting>, s: Setting, kind: Type, from: nat, last: nat)
    requires TrailingRun(history, kind, from, last)
    ensures s.kind != kind ==> TrailingRun(history + [s], kind, from, last)
    ensures s.kind == kind && s.status == history[last].status ==> TrailingRun(history + [s], kind, from, |history|)
    ensures s.kind == kind && s.status != history[last].status ==> TrailingRun(history + [s], kind, |history|, |history|)
  {
    var more := history + [s];
    forall p: nat, q: nat | p < q <= |history| ensures NoneBetween(more, kind, p, q) == NoneBetween(history, kind, p, q) {
      if NoneBetween(more, kind, p, q) {
        forall j | p < j < q ensures history[j].kind != kind {
          assert more[j] == history[j];
        }
      }
    }
    if s.kind == kind && s.status != history[last].status {
      forall p | 0 <= p < |history| && more[p].kind == kind && NoneBetween(more, kind, p, |history|)
        ensures more[p].status != s.status
      {
        assert p >= last;
      }
    }
  }

  /** What the list says about a kind after any history. */
  lemma {:induction false} EntryTellsHistory(history: seq<Setting>, k: nat) returns (from: nat, last: nat)
    requires k < |Folded(history)|
    ensures Tells(Folded(history)[k], history, from, last)
  {
    var before, s := history[..|history| - 1], history[|history| - 1];
    assert history == before + [s];
    var list := Folded(before);
    var i := IndexOf(list, s.kind);
    if k == |list| {
      from, last := |before|, |before|;
      OneEntryPerKind(before);
      NeverSet(before, s.kind);
    } else {
      from, last := EntryTellsHistory(before, k);
      RunGoesOn(before, s, list[k].kind, from, last);
      if k == i {
        if s.status != list[k].status {
          from := |before|;
        }
        last := |before|;
      } else {
        OneEntryPerKind(before);
        assert Kinds(list)[k] == list[k].kind;
        assert i < |list| ==> Kinds(list)[i] == s.kind;
        assert list[k].kind != s.kind;
      }
    }
  }

  lemma {:induction false} NeverSet(history: seq<Setting>, kind: Type)
    requires kind !in FirstSet(history)
    ensures forall j | 0 <= j < |history| :: history[j].kind != kind
  {
    if history != [] {
      NeverSet(history[..|history| - 1], kind);
    }
  }

  // ---------------------------------------------------------------- Ready

  /** The list holds an entry of this kind with status True. */
  predicate Is(conditions: seq<Condition>, kind: Type) {
    exists i | 0 <= i < |conditions| :: conditions[i].kind == kind && conditions[i].status == True
  }

  const SYNCED := "Synced"
  const MISSING_SIDECAR := "MissingSidecar"

  predicate AllSynced(gateways: seq<string>) {
    forall i | 0 <= i < |gateways| :: gateways[i] == SYNCED
  }

  /** After any history a kind is True exactly if its last setting says so. */
  lemma IsMeansLastSetting(history: seq<Setting>, kind: Type)
    ensures Is(Folded(history), kind) <==>
              exists n :: 0 <= n < |history| && history[n].kind == kind && history[n].status == True
                          && forall j | n < j < |history| :: history[j].kind != kind
  {
    var list := Folded(history);
    if Is(list, kind) {
      var k :| 0 <= k < |list| && list[k].kind == kind && list[k].status == True;
      var from, last := EntryTellsHistory(history, k);
    }
    if n :| 0 <= n < |history| && history[n].kind == kind && history[n].status == True
            && forall j | n < j < |history| :: history[j].kind != kind {
      OneEntryPerKind(history);
      if kind !in FirstSet(history) {
        NeverSet(history, kind);
      }
      var k :| 0 <= k < |list| && Kinds(list)[k] == kind;
      var from, last := EntryTellsHistory(history, k);
      assert last == n;
    }
  }

  lemma WithSets(conditions: seq<Condition>, s: Setting, kind: Type)
    requires Distinct(Kinds(conditions))
    ensures Is(With(conditions, s), kind) <==> if kind == s.kind then s.status == True else Is(conditions, kind)
    ensures Distinct(Kinds(With(conditions, s)))
  {
    var i, list := IndexOf(conditions, s.kind), With(conditions, s);
    assert list[i].kind == s.kind && list[i].status == s.status;
    forall j, k | 0 <= j < k < |conditions| ensures conditions[j].kind != conditions[k].kind {
      assert Kinds(conditions)[j] != Kinds(conditions)[k];
    }
    forall j | 0 <= j < |conditions| && j != i ensures list[j] == conditions[j] {
    }
    if kind != s.kind && Is(conditions, kind) {
      var j :| 0 <= j < |conditions| && conditions[j].kind == kind && conditions[j].status == True;
      assert list[j] == conditions[j];
    }
  }

  /** What one reconciliation finds out, in the order in which it does. `ssh` tells whether
      host keys are known when an SSH key is used; `discovery` is empty-handed on an error;
      `patched` tells whether the final patch of the status reached the server. */
  datatype Findings = Findings(
    cr: Lifecycle, paused: bool, profilesValid: bool, secretsExist: bool, ssh: Answer,
    refResolves: bool, apiKeyValid: bool, discovery: Discovery,
    patched: bool)

  /** The reconciliation gets as far as looking at the gateways. */
  predicate Reaches(found: Findings) {
    !found.paused && found.secretsExist && found.refResolves && found.apiKeyValid
  }

  /** The CR as first read: unreadable or missing, being deleted, still without the finalizer,
      or ready to be reconciled. Only the last gets as far as its status. */
  datatype Lifecycle = Unread | Deleting | Unfinalized | Settled

  datatype Answer = NotAsked | Yes | No

  datatype Discovery = DiscoveryFailed | Discovered(gateways: seq<string>)

  /** The history grew by this one setting. */
  ghost predicate Logged(before: seq<Setting>, after: seq<Setting>, kind: Type, status: Status,
                         reason: string, message: string, generation: int) {
    && |after| == |before| + 1 && before == after[..|before|]
    && after[|before|] == Setting(kind, status, reason, message, generation, after[|before|].at)
  }

  class GatewaySyncStatus {
    var conditions: seq<Condition>
    var gateways: seq<string>
    var generation: int
    ghost var history: seq<Setting>

    ghost predicate Valid()
      reads this
    {
      conditions == Folded(history)
    }

    constructor (generation: int)
      ensures Valid() && conditions == [] && history == [] && gateways == []
    {
      conditions, gateways, history := [], [], [];
      this.generation := generation;
    }

    /** `setCondition`: replaces the entry of the kind, or appends one. */
    method SetCondition(kind: Type, status: Status, reason: string, message: string)
      requires Valid()
      modifies this`conditions, this`history
      ensures Valid()
      ensures Logged(old(history), history, kind, status, reason, message, generation)
      ensures forall k :: Is(conditions, k) <==> if k == kind then status == True else Is(old(conditions), k)
    {
      var now: int := *;
      ghost var s := Setting(kind, status, reason, message, generation, now);
      history := history + [s];
      assert history[..|history| - 1] == old(history);
      OneEntryPerKind(old(history));
      forall k {
        WithSets(conditions, s, k);
      }
      for i := 0 to |conditions|
        invariant conditions == old(conditions)
        invariant forall j | 0 <= j < i :: conditions[j].kind != kind
      {
        var c := conditions[i];
        if c.kind == kind {
          assert i == IndexOf(conditions, kind);
          if c.status != status {
            conditions := conditions[i := Condition(kind, status, generation, now, reason, message)];
          } else {
            conditions := conditions[i := c.(reason := reason, message := message, generation := generation)];
          }
          assert conditions == With(old(conditions), s);
          return;
        }
      }
      assert |conditions| == IndexOf(conditions, kind);
      conditions := conditions + [Condition(kind, status, generation, now, reason, message)];
      assert conditions == With(old(conditions), s);
    }

    /** `updateAllGatewaysSyncedCondition`. Without gateways only AllGatewaysSynced is set. */
    method UpdateAllGatewaysSynced()
      requires Valid()
      modifies this`conditions, this`history
      ensures Valid()
      ensures Is(conditions, AllGatewaysSynced) <==>
                gateways != [] && forall i | 0 <= i < |gateways| :: gateways[i] == "Synced"
      ensures Is(conditions, SidecarInjected) <==>
                if gateways == [] then Is(old(conditions), SidecarInjected) else "MissingSidecar" !in gateways
      ensures forall k | k != AllGatewaysSynced && k != SidecarInjected :: Is(conditions, k) <==> Is(old(conditions), k)
      ensures old(history) < history && history[|old(history)|].kind == AllGatewaysSynced
      ensures history[|old(history)|].reason ==
                if gateways == [] then "NoGatewaysDiscovered"
                else if AllSynced(gateways) then "SyncSucceeded"
                else "SyncInProgress"
    {
      if gateways == [] {
        SetCondition(AllGatewaysSynced, False, "NoGatewaysDiscovered", "0/0 synced");
        return;
      }
      var synced, missing := 0, 0;
      for i := 0 to |gateways|
        invariant 0 <= synced <= i && (synced == i <==> AllSynced(gateways[..i]))
        invariant 0 <= missing && (missing == 0 <==> MISSING_SIDECAR !in gateways[..i])
      {
        assert gateways[..i + 1] == gateways[..i] + [gateways[i]];
        if gateways[i] == SYNCED {
          synced := synced + 1;
        }
        if gateways[i] == MISSING_SIDECAR {
          missing := missing + 1;
        }
      }
      assert gateways[..|gateways|] == gateways;
      var message: string := *;
      if synced == |gateways| {
        SetCondition(AllGatewaysSynced, True, "SyncSucceeded", message);
      } else {
        SetCondition(AllGatewaysSynced, False, "SyncInProgress", message);
      }
      if missing > 0 {
        SetCondition(SidecarInjected, False, "SidecarMissing", message);
      } else {
        SetCondition(SidecarInjected, True, "SidecarPresent", "All gateways have stoker-agent sidecar");
      }
    }

    /** `updateReadyCondition`: Ready is the conjunction of three others. */
    method UpdateReady()
      requires Valid()
      modifies this`conditions, this`history
      ensures Valid()
      ensures Is(conditions, Ready) <==>
                Is(old(conditions), RefResolved) && Is(old(conditions), ProfilesValid)
                && Is(old(conditions), AllGatewaysSynced)
      ensures forall k | k != Ready :: Is(conditions, k) <==> Is(old(conditions), k)
      ensures !Is(conditions, Ready) ==>
                Logged(old(history), history, Ready, False, "Reconciling",
                       if !Is(old(conditions), ProfilesValid) then "Profiles invalid"
                       else if !Is(old(conditions), RefResolved) then "Ref not resolved"
                       else "Waiting for gateways to sync", generation)
    {
      var refResolved, allSynced, profilesValid := false, false, false;
      for i := 0 to |conditions|
        invariant conditions == old(conditions) && history == old(history) && Valid()
        invariant refResolved <==> Is(conditions[..i], RefResolved)
        invariant allSynced <==> Is(conditions[..i], AllGatewaysSynced)
        invariant profilesValid <==> Is(conditions[..i], ProfilesValid)
      {
        var c := conditions[i];
        IsOneMore(conditions, i);
        if c.kind == RefResolved && c.status == True {
          refResolved := true;
        }
        if c.kind == AllGatewaysSynced && c.status == True {
          allSynced := true;
        }
        if c.kind == ProfilesValid && c.status == True {
          profilesValid := true;
        }
      }
      assert conditions[..|conditions|] == conditions;
      if refResolved && allSynced && profilesValid {
        SetCondition(Ready, True, "SyncSucceeded", "All gateways synced");
      } else if !profilesValid {
        SetCondition(Ready, False, "Reconciling", "Profiles invalid");
      } else if !refResolved {
        SetCondition(Ready, False, "Reconciling", "Ref not resolved");
      } else {
        SetCondition(Ready, False, "Reconciling", "Waiting for gateways to sync");
      }
    }

    /** The two updates in sequence. */
    method UpdateBoth()
      requires Valid()
      modifies this`conditions, this`history
      ensures Valid()
      ensures Is(conditions, Ready) <==>
                Is(old(conditions), RefResolved) && Is(old(conditions), ProfilesValid)
                && gateways != [] && AllSynced(gateways)
      ensures Is(conditions, AllGatewaysSynced) <==> gateways != [] && AllSynced(gateways)
      ensures Is(conditions, SidecarInjected) <==>
                if gateways == [] then Is(old(conditions), SidecarInjected) else "MissingSidecar" !in gateways
      ensures forall k | k == RefResolved || k == ProfilesValid || k == SSHHostKeyVerification ::
                Is(conditions, k) <==> Is(old(conditions), k)
    {
      UpdateAllGatewaysSynced();
      UpdateReady();
    }

    /** The status that one `Reconcile` leaves on the server. The returns before the status and
        a patch that fails leave it as it was. A ref that does not resolve ends the rest
        without touching Ready. So Ready is True beside a RefResolved that is not in exactly
        these cases: it was before, or Ready was True and the ref does not resolve. */
    method Reconcile(found: Findings)
      requires Valid()
      modifies this
      ensures Valid()
      ensures !found.cr.Settled? || !found.patched ==> conditions == old(conditions) && gateways == old(gateways)
      ensures found.cr.Settled? && found.patched ==>
                (Is(conditions, Ready) <==>
                 if found.paused || !found.secretsExist then false
                 else if !found.refResolves then Is(old(conditions), Ready)
                 else found.apiKeyValid && found.profilesValid && gateways != [] && AllSynced(gateways))
      ensures Is(conditions, Ready) && !Is(conditions, RefResolved) <==>
                if !found.cr.Settled? || !found.patched
                then Is(old(conditions), Ready) && !Is(old(conditions), RefResolved)
                else !found.paused && found.secretsExist && !found.refResolves && Is(old(conditions), Ready)
      ensures found.cr.Settled? && found.patched ==>
                gateways == if found.discovery.Discovered? && !found.paused && found.secretsExist
                               && found.refResolves && found.apiKeyValid
                            then found.discovery.gateways else old(gateways)
      ensures found.cr.Settled? && found.patched ==>
                && (Is(conditions, ProfilesValid) <==>
                    if found.paused then Is(old(conditions), ProfilesValid) else found.profilesValid)
                && (Is(conditions, RefResolved) <==>
                    if found.paused || !found.secretsExist then Is(old(conditions), RefResolved) else found.refResolves)
                && (Is(conditions, SSHHostKeyVerification) <==>
                    if found.paused || !found.secretsExist || found.ssh.NotAsked?
                    then Is(old(conditions), SSHHostKeyVerification) else found.ssh.Yes?)
                && (Is(conditions, AllGatewaysSynced) <==>
                    if Reaches(found) then gateways != [] && AllSynced(gateways) else Is(old(conditions), AllGatewaysSynced))
                && (Is(conditions, SidecarInjected) <==>
                    if Reaches(found) && gateways != [] then "MissingSidecar" !in gateways
                    else Is(old(conditions), SidecarInjected))
    {
      hide Is, Folded, Valid, AllSynced;
      if !found.cr.Settled? {
        return;
      }
      var base, baseGateways := conditions, gateways;
      ghost var baseHistory := history;
      ReconcileCopy(found);
      if !found.patched {
        conditions, gateways, history := base, baseGateways, baseHistory;
        Restored(baseHistory);
      }
    }

    lemma Restored(before: seq<Setting>)
      requires conditions == Folded(before) && history == before
      ensures Valid()
    {
    }

    /** What happens to the copy of the CR before it is patched. */
    method ReconcileCopy(found: Findings)
      requires Valid()
      modifies this`conditions, this`gateways, this`history
      ensures Valid() && old(conditions) == Folded(old(history))
      ensures Is(conditions, Ready) <==>
                if found.paused || !found.secretsExist then false
                else if !found.refResolves then Is(old(conditions), Ready)
                else found.apiKeyValid && found.profilesValid && gateways != [] && AllSynced(gateways)
      ensures Is(conditions, Ready) && !Is(conditions, RefResolved) <==>
                !found.paused && found.secretsExist && !found.refResolves && Is(old(conditions), Ready)
      ensures gateways == if found.discovery.Discovered? && !found.paused && found.secretsExist
                             && found.refResolves && found.apiKeyValid
                          then found.discovery.gateways else old(gateways)
      ensures Is(conditions, ProfilesValid) <==>
                if found.paused then Is(old(conditions), ProfilesValid) else found.profilesValid
      ensures Is(conditions, RefResolved) <==>
                if found.paused || !found.secretsExist then Is(old(conditions), RefResolved) else found.refResolves
      ensures Is(conditions, SSHHostKeyVerification) <==>
                if found.paused || !found.secretsExist || found.ssh.NotAsked?
                then Is(old(conditions), SSHHostKeyVerification) else found.ssh.Yes?
      ensures Is(conditions, AllGatewaysSynced) <==>
                if Reaches(found) then gateways != [] && AllSynced(gateways) else Is(old(conditions), AllGatewaysSynced)
      ensures Is(conditions, SidecarInjected) <==>
                if Reaches(found) && gateways != [] then "MissingSidecar" !in gateways
                else Is(old(conditions), SidecarInjected)
    {
      AsFolded();
      hide Is, Folded, Valid, AllSynced;
      var on := ResolveCopy(found);
      if !on {
        return;
      }
      var message: string := *;
      if !found.apiKeyValid {
        SetCondition(Ready, False, "Reconciling", message);
        return;
      }
      if found.discovery.Discovered? {
        gateways := found.discovery.gateways;
      }
      UpdateBoth();
    }

    /** The part up to the resolved ref; `on` tells whether the rest follows. */
    method ResolveCopy(found: Findings) returns (on: bool)
      requires Valid()
      modifies this`conditions, this`history
      ensures Valid() && on == (!found.paused && found.secretsExist && found.refResolves)
      ensures Is(conditions, Ready) <==>
                !found.paused && found.secretsExist && Is(old(conditions), Ready)
      ensures Is(conditions, ProfilesValid) <==>
                if found.paused then Is(old(conditions), ProfilesValid) else found.profilesValid
      ensures Is(conditions, RefResolved) <==>
                if found.paused || !found.secretsExist then Is(old(conditions), RefResolved) else found.refResolves
      ensures Is(conditions, SSHHostKeyVerification) <==>
                if found.paused || !found.secretsExist || found.ssh.NotAsked?
                then Is(old(conditions), SSHHostKeyVerification) else found.ssh.Yes?
      ensures forall k | k == AllGatewaysSynced || k == SidecarInjected :: Is(conditions, k) <==> Is(old(conditions), k)
    {
      hide Is, Folded, Valid;
      on := false;
      var message: string := *;
      if found.paused {
        SetCondition(Ready, False, "Paused", "Reconciliation paused");
        return;
      }
      if found.profilesValid {
        SetCondition(ProfilesValid, True, "ProfilesValid", "All profiles valid");
      } else {
        SetCondition(ProfilesValid, False, "ProfilesInvalid", message);
      }
      if !found.secretsExist {
        SetCondition(Ready, False, "Reconciling", message);
        return;
      }
      if found.ssh.No? {
        SetCondition(SSHHostKeyVerification, False, "HostKeyVerificationDisabled", message);
      } else if found.ssh.Yes? {
        SetCondition(SSHHostKeyVerification, True, "HostKeyVerificationEnabled", "SSH host key verification enabled");
      }
      if !found.refResolves {
        SetCondition(RefResolved, False, "RefResolutionFailed", message);
        return;
      }
      SetCondition(RefResolved, True, "RefResolved", message);
      on := true;
    }

    lemma AsFolded()
      requires Valid()
      ensures conditions == Folded(history)
    {
    }
  }

  lemma IsOneMore(conditions: seq<Condition>, i: nat)
    requires i < |conditions|
    ensures forall k :: Is(conditions[..i + 1], k) <==>
                        Is(conditions[..i], k) || (conditions[i].kind == k && conditions[i].status == True)
  {
    var c := conditions[..i + 1];
    forall k ensures Is(c, k) <==> Is(conditions[..i], k) || (conditions[i].kind == k && conditions[i].status == True) {
      if Is(conditions[..i], k) {
        var j :| 0 <= j < i && conditions[..i][j].kind == k && conditions[..i][j].status == True;
        assert c[j] == conditions[j];
      }
      if conditions[i].kind == k && conditions[i].status == True {
        assert c[i] == conditions[i];
      }
      if Is(c, k) {
        var j :| 0 <= j < i + 1 && c[j].kind == k && c[j].status == True;
        assert j < i ==> conditions[..i][j] == c[j];
      }
    }
  }
}
