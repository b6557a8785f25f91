/**
 * The payload table under concurrent adapters. A run is a sequence of atomic statements; `consume` and `listByAccount`
 * write what they read earlier in the run, whatever happened in between.
 */
module PayloadRuns {
  import opened Wrappers
  import opened PayloadTable
  import opened PayloadIndex
  import Scopes

  datatype Step =
    | Upserted(key: Key, payload: Payload, expiresAt: Option<int>)
    | Consumed(key: Key, read: Payload, at: int)
    | Renewed(key: Key, read: Payload, now: int, expiresIn: int)
    | Destroyed(key: Key)
    | RevokedGrant(grant: string)
    | Pruned(at: int)
    | Classified(model: string, account: string, ids: seq<string>)

  function ConsumedPayload(read: Payload, at: int): Payload {
    read.(consumed := Some(at / 1000))
  }

  /** `#timestamp` writes text on SQLite: one dialect for the whole run. */
  function Renewable(t: Table, text: bool, key: Key, read: Payload, now: int): bool {
    key in t && t[key].payload == read && t[key].expiresAt.Some? && SqlLive(t[key], Clock(text, now, now))
  }

  function RenewedRow(row: Row, now: int, expiresIn: int): Row {
    row.(payload := row.payload.(exp := Some((now / 1000 + expiresIn) as real)),
         expiresAt := Some(now + expiresIn * 1000))
  }

  /** The compare-and-set of `renewSession`. */
  function Renew(t: Table, text: bool, key: Key, read: Payload, now: int, expiresIn: int): Table {
    if Renewable(t, text, key, read, now) then t[key := RenewedRow(t[key], now, expiresIn)] else t
  }

  function Apply(t: Table, text: bool, step: Step): Table {
    match step
    case Upserted(key, payload, expiresAt) => Put(t, key, payload, expiresAt)
    case Consumed(key, read, at) => SetPayload(t, key, ConsumedPayload(read, at))
    case Renewed(key, read, now, expiresIn) => Renew(t, text, key, read, now, expiresIn)
    case Destroyed(key) => Delete(t, key)
    case RevokedGrant(grant) => DeleteByGrant(t, grant)
    case Pruned(at) => Prune(t, text, at)
    case Classified(model, account, ids) => Classify(t, model, account, ids)
  }

  /** The payload was in the row at some earlier moment of the run. */
  ghost predicate WasRead(ts: seq<Table>, now: nat, key: Key, payload: Payload)
    requires now < |ts|
  {
    exists i :: 0 <= i <= now && key in ts[i] && ts[i][key].payload == payload
  }

  ghost predicate WasOwned(ts: seq<Table>, now: nat, key: Key, account: string)
    requires now < |ts|
  {
    exists i :: 0 <= i <= now && key in ts[i] && ts[i][key].payload.accountId == Text(account)
  }

  /** What a step knows, it read. */
  ghost predicate Informed(ts: seq<Table>, now: nat, step: Step)
    requires now < |ts|
  {
    match step
    case Consumed(key, read, _) => WasRead(ts, now, key, read)
    case Classified(model, account, ids) => account != "" && forall id :: id in ids ==>
      WasOwned(ts, now, Key(model, id), account)
    case _ => true
  }

  /** `ts[j + 1]` is `ts[j]` after `steps[j]`. */
  ghost predicate IsRun(ts: seq<Table>, steps: seq<Step>, text: bool) {
    && |ts| == |steps| + 1
    && forall j :: 0 <= j < |steps| ==> Informed(ts, j, steps[j]) && ts[j + 1] == Apply(ts[j], text, steps[j])
  }

  // The account label

  predicate Carries(p: Payload, account: string) {
    p.accountId.Text? ==> p.accountId.text == account
  }

  /** No id is ever upserted under two accounts. */
  ghost predicate OneAccountPerId(steps: seq<Step>, owner: Key -> string) {
    forall j :: 0 <= j < |steps| && steps[j].Upserted? ==> Carries(steps[j].payload, owner(steps[j].key))
  }

  ghost predicate Follows(t: Table, owner: Key -> string) {
    forall key :: key in t ==> FollowsRow(t[key], owner(key))
  }

  predicate FollowsRow(row: Row, account: string) {
    Carries(row.payload, account) && (row.accountId.Some? ==> row.accountId.value == account)
  }

  /** What a step writes about an id's account is the account of that id. */
  ghost predicate StepCarries(step: Step, owner: Key -> string) {
    match step
    case Upserted(key, payload, _) => Carries(payload, owner(key))
    case Consumed(key, read, _) => Carries(read, owner(key))
    case Classified(model, account, ids) => forall id :: id in ids ==> owner(Key(model, id)) == account
    case _ => true
  }

  lemma StepFollows(t: Table, step: Step, text: bool, owner: Key -> string)
    requires Follows(t, owner) && StepCarries(step, owner)
    ensures Follows(Apply(t, text, step), owner)
  {
    if step.Classified? {
      var t' := Apply(t, text, step);
      forall key | key in t'
        ensures FollowsRow(t'[key], owner(key))
      {
        if key.model == step.model && key.id in step.ids { assert owner(Key(step.model, key.id)) == step.account; }
      }
    }
  }

  lemma InformedCarries(ts: seq<Table>, now: nat, step: Step, owner: Key -> string)
    requires now < |ts| && Informed(ts, now, step)
    requires forall i :: 0 <= i <= now ==> Follows(ts[i], owner)
    requires step.Upserted? ==> Carries(step.payload, owner(step.key))
    ensures StepCarries(step, owner)
  {
    match step
    case Consumed(key, read, _) =>
      var i :| 0 <= i <= now && key in ts[i] && ts[i][key].payload == read;
      assert FollowsRow(ts[i][key], owner(key));
    case Classified(model, account, ids) =>
      forall id | id in ids
        ensures owner(Key(model, id)) == account
      {
        assert WasOwned(ts, now, Key(model, id), account);
        var i :| 0 <= i <= now && Key(model, id) in ts[i] && ts[i][Key(model, id)].payload.accountId == Text(account);
        assert FollowsRow(ts[i][Key(model, id)], owner(Key(model, id)));
      }
    case _ =>
  }

  /**
   * Over every run in which no id changes account, from any mix of labelled rows and rows with a NULL label, every
   * `listByAccount` equals the filtered `list`, at every moment, for every account.
   */
  lemma {:induction false} AccountIndexInEveryRun(ts: seq<Table>, steps: seq<Step>, text: bool,
      owner: Key -> string, n: nat)
    requires IsRun(ts, steps, text) && OneAccountPerId(steps, owner) && Follows(ts[0], owner)
    requires n < |ts|
    ensures forall i :: 0 <= i <= n ==> Follows(ts[i], owner)
    ensures forall model, account, c ::
      ListByAccount(ts[n], model, account, c) == OwnedBy(List(ts[n], model, c), account)
  {
    if n > 0 {
      AccountIndexInEveryRun(ts, steps, text, owner, n - 1);
      InformedCarries(ts, n - 1, steps[n - 1], owner);
      StepFollows(ts[n - 1], steps[n - 1], text, owner);
    }
    forall model, account, c
      ensures ListByAccount(ts[n], model, account, c) == OwnedBy(List(ts[n], model, c), account)
    {
      ListByAccountExact(ts[n], model, account, c);
    }
  }

  /** Which single statements keep every label right: a late `consume` or backfill is the only danger. */
  predicate KeepsLabels(t: Table, step: Step) {
    match step
    case Consumed(key, read, _) =>
      key in t && read.accountId.Text? ==> t[key].accountId.None? || t[key].accountId.value == read.accountId.text
    case Classified(model, account, ids) =>
      forall key :: key in t && key.model == model && key.id in ids && t[key].accountId.None? ==>
        Carries(t[key].payload, account)
    case _ => true
  }

  lemma LabelsKeptExactly(t: Table, step: Step, text: bool)
    requires WellLabelled(t)
    ensures WellLabelled(Apply(t, text, step)) <==> KeepsLabels(t, step)
  {
    var t' := Apply(t, text, step);
    match step
    case Consumed(key, read, _) =>
      if key in t { assert t'[key].payload.accountId == read.accountId && t'[key].accountId == t[key].accountId; }
    case Classified(model, account, ids) =>
      if WellLabelled(t') {
        forall key | key in t && key.model == model && key.id in ids && t[key].accountId.None?
          ensures Carries(t[key].payload, account)
        {
          assert key in t' && LabelOK(t'[key]);
        }
      }
    case _ =>
  }

  const PLAIN := Payload(Absent, None, None, None, None, false, None, "")

  /**
   * Without the hypothesis it fails: a `consume` that read the row before its account changed puts the old payload
   * back under the new label, and the old account no longer finds a row the list attributes to it.
   */
  lemma LateConsumeMisleads()
    ensures exists ts, steps ::
      && IsRun(ts, steps, false) && |ts| == 3 && WellLabelled(ts[0])
      && ListByAccount(ts[2], "Session", "ann", Clock(false, 0, 0)) == []
      && |OwnedBy(List(ts[2], "Session", Clock(false, 0, 0)), "ann")| == 1
  {
    hide List, ListByAccount, OwnedBy;
    var key := Key("Session", "s");
    var ann, bob := PLAIN.(accountId := Text("ann")), PLAIN.(accountId := Text("bob"));
    var t0: Table := map[key := RowFor(ann, None)];
    var t1 := Put(t0, key, bob, None);
    var t2 := SetPayload(t1, key, ConsumedPayload(ann, 0));
    var ts, steps := [t0, t1, t2], [Upserted(key, bob, None), Consumed(key, ann, 0)];
    assert WasRead(ts, 1, key, ann) by { assert ts[0] == t0; }
    assert IsRun(ts, steps, false);
    Misled(t2, ConsumedPayload(ann, 0));
    assert ts[2] == t2;
  }

  lemma Misled(t: Table, p: Payload)
    requires p.accountId == Text("ann")
    requires t == map[Key("Session", "s") := Row(p, Some("bob"), None, None, None, None)]
    ensures ListByAccount(t, "Session", "ann", Clock(false, 0, 0)) == []
    ensures |OwnedBy(List(t, "Session", Clock(false, 0, 0)), "ann")| == 1
  {
    hide List, ListByAccount, Filter;
    var c := Clock(false, 0, 0);
    var found, all := ListByAccount(t, "Session", "ann", c), OwnedBy(List(t, "Session", c), "ann");
    ListByAccountMembers(t, "Session", "ann", c);
    assert forall a :: a !in found;
    SortedUnique(found, []);
    ListMembers(t, "Session", c);
    FilterSorted(List(t, "Session", c), OwnedByAccount("ann"));
    var a := Artifact("s", p);
    assert forall x :: x in all <==> x in [a];
    SortedUnique(all, [a]);
  }

  // The grant column and revocation

  /** No id is ever upserted under two grants. */
  ghost predicate OneGrantPerId(steps: seq<Step>, grantOf: Key -> Option<string>) {
    forall j :: 0 <= j < |steps| && steps[j].Upserted? ==> steps[j].payload.grantId == grantOf(steps[j].key)
  }

  ghost predicate Filed(t: Table, grantOf: Key -> Option<string>) {
    forall key :: key in t ==> t[key].payload.grantId == t[key].grantId == grantOf(key)
  }

  lemma StepFiles(ts: seq<Table>, now: nat, step: Step, text: bool, grantOf: Key -> Option<string>)
    requires now < |ts| && Informed(ts, now, step)
    requires forall i :: 0 <= i <= now ==> Filed(ts[i], grantOf)
    requires step.Upserted? ==> step.payload.grantId == grantOf(step.key)
    ensures Filed(Apply(ts[now], text, step), grantOf)
  {
    if step.Consumed? {
      var i :| 0 <= i <= now && step.key in ts[i] && ts[i][step.key].payload == step.read;
    }
  }

  lemma FiledExact(t: Table, grantOf: Key -> Option<string>)
    requires Filed(t, grantOf)
    ensures forall model, chunks: seq<seq<string>>, c | Scopes.Distinct(Flatten(chunks)) ::
      multiset(ListChunks(t, model, chunks, Members(Flatten(chunks)), c))
        == multiset(Referring(List(t, model, c), Members(Flatten(chunks))))
  {
    forall model, chunks: seq<seq<string>>, c | Scopes.Distinct(Flatten(chunks))
      ensures GrantsIndexed(t, model, Members(Flatten(chunks)), c)
      ensures multiset(ListChunks(t, model, chunks, Members(Flatten(chunks)), c))
        == multiset(Referring(List(t, model, c), Members(Flatten(chunks))))
    {
      ListByGrantsExact(t, model, chunks, c);
    }
  }

  /** Over every run in which no id changes grant, `listByGrantIds` equals the filtered `list` as a multiset. */
  lemma {:induction false} GrantIndexInEveryRun(
      ts: seq<Table>, steps: seq<Step>, text: bool, grantOf: Key -> Option<string>, n: nat)
    requires IsRun(ts, steps, text) && OneGrantPerId(steps, grantOf) && Filed(ts[0], grantOf)
    requires n < |ts|
    ensures forall i :: 0 <= i <= n ==> Filed(ts[i], grantOf)
    ensures forall model, chunks: seq<seq<string>>, c | Scopes.Distinct(Flatten(chunks)) ::
      multiset(ListChunks(ts[n], model, chunks, Members(Flatten(chunks)), c))
        == multiset(Referring(List(ts[n], model, c), Members(Flatten(chunks))))
  {
    hide ListChunks, List, Referring, Flatten, Apply;
    if n > 0 {
      GrantIndexInEveryRun(ts, steps, text, grantOf, n - 1);
      assert Informed(ts, n - 1, steps[n - 1]);
      StepFiles(ts, n - 1, steps[n - 1], text, grantOf);
    }
    FiledExact(ts[n], grantOf);
  }

  ghost predicate NoneOfGrant(t: Table, grant: string) {
    forall key :: key in t ==> t[key].grantId != Some(grant) && t[key].payload.grantId != Some(grant)
  }

  /** No id in the table belongs to the grant. */
  ghost predicate NoIdOf(t: Table, grantOf: Key -> Option<string>, grant: string) {
    forall key :: key in t ==> grantOf(key) != Some(grant)
  }

  lemma StepAddsOnlyUpserts(t: Table, text: bool, step: Step)
    ensures forall key :: key in Apply(t, text, step) ==> key in t || (step.Upserted? && step.key == key)
  {
  }

  lemma {:induction false} StaysWithoutGrant(
      ts: seq<Table>, steps: seq<Step>, text: bool, grantOf: Key -> Option<string>, r: nat, n: nat, grant: string)
    requires IsRun(ts, steps, text) && OneGrantPerId(steps, grantOf)
    requires r <= n < |ts| && NoIdOf(ts[r], grantOf, grant)
    requires forall j :: r <= j < n && steps[j].Upserted? ==> steps[j].payload.grantId != Some(grant)
    ensures NoIdOf(ts[n], grantOf, grant)
    decreases n
  {
    hide Apply, Informed;
    if n > r {
      StaysWithoutGrant(ts, steps, text, grantOf, r, n - 1, grant);
      StepAddsOnlyUpserts(ts[n - 1], text, steps[n - 1]);
      assert ts[n - 1 + 1] == Apply(ts[n - 1], text, steps[n - 1]);
    }
  }

  /**
   * Once `revokeByGrantId(g)` has run, no row of any model carries `g`, in its column or its payload, until some
   * artefact of `g` is upserted again; and the revocation leaves every other row as it was.
   */
  lemma RevokedUntilUpserted(
      ts: seq<Table>, steps: seq<Step>, text: bool, grantOf: Key -> Option<string>, r: nat, n: nat, grant: string)
    requires IsRun(ts, steps, text) && OneGrantPerId(steps, grantOf) && Filed(ts[0], grantOf)
    requires r < n < |ts| && steps[r] == RevokedGrant(grant)
    requires forall j :: r < j < n && steps[j].Upserted? ==> steps[j].payload.grantId != Some(grant)
    ensures NoneOfGrant(ts[n], grant)
    ensures forall key :: key in ts[r] && ts[r][key].grantId != Some(grant) ==>
      key in ts[r + 1] && ts[r + 1][key] == ts[r][key]
  {
    hide Informed, ListChunks, List, Referring;
    GrantIndexInEveryRun(ts, steps, text, grantOf, n);
    assert ts[r + 1] == DeleteByGrant(ts[r], grant);
    assert Filed(ts[r], grantOf) && Filed(ts[n], grantOf);
    StaysWithoutGrant(ts, steps, text, grantOf, r + 1, n, grant);
  }
}
