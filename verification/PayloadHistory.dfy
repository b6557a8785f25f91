/**
 * What a row tells of its past. Over every run of statements: which rows there are, what an `upsert` leaves to be
 * found, and that what `consume` marked stays marked. The statements appear only by name and by what they were given.
 */
module PayloadHistory {
  import opened Wrappers
  import opened PayloadTable
  import opened PayloadRuns
  import opened PayloadMaintenance
  import IsoTimestamp

  // An upsert and the look-ups after it

  /** What `upsert` stores is found by id until it expires, and nothing else changes. */
  lemma FoundByIdUntilExpiry(t: Table, text: bool, key: Key, p: Payload, expiresAt: Option<int>)
    ensures
      var t' := Apply(t, text, Upserted(key, p, expiresAt));
      && (forall now ::
            Find(t', key, now) == if expiresAt.None? || now < expiresAt.value then Some(p) else None)
      && t'.Keys == t.Keys + {key} && forall other :: other in t && other != key ==> t'[other] == t[other]
  {
  }

  /** And by its uid and its user code, when no other row of the model has them. */
  lemma FoundByUidAndUserCode(t: Table, text: bool, key: Key, p: Payload, expiresAt: Option<int>, first: Option<string>)
    ensures
      var t' := Apply(t, text, Upserted(key, p, expiresAt));
      && (p.uid.Some? && UniqueUid(t', key.model, p.uid.value) && IsFirstByUid(t', key.model, p.uid.value, first) ==>
            first == Some(key.id))
      && (p.userCode.Some? && UniqueUserCode(t', key.model, p.userCode.value)
          && IsFirstByUserCode(t', key.model, p.userCode.value, first) ==>
            first == Some(key.id))
  {
    var t' := Apply(t, text, Upserted(key, p, expiresAt));
    assert key in t' && t'[key].uid == p.uid && t'[key].userCode == p.userCode;
    assert Key(key.model, key.id) == key;
  }

  /** The label is the account of the payload, when that is a text and not empty; else there is none. */
  lemma LabelledByAccount(t: Table, text: bool, key: Key, p: Payload, expiresAt: Option<int>, account: string)
    ensures
      var row := Apply(t, text, Upserted(key, p, expiresAt))[key];
      && (row.accountId == Some(account) <==> p.accountId == Text(account) && account != "")
      && row.grantId == p.grantId
  {
  }

  /**
   * So is the label the backfill writes: into the rows still there for the reader and without one, and nowhere else.
   */
  lemma BackfillLabels(t: Table, model: string, c: Clock, key: Key)
    requires key in t
    ensures key in Backfill(t, model, c) && Backfill(t, model, c).Keys == t.Keys
    ensures
      var row, row' := t[key], Backfill(t, model, c)[key];
      row' == if key.model == model && SqlLive(row, c) && Unexpired(row, c.js) && row.accountId.None?
                 && row.payload.accountId.Text? && row.payload.accountId.text != ""
              then row.(accountId := Some(row.payload.accountId.text)) else row
  {
  }

  // Which rows there are

  /** The statement deletes the row, whatever it holds. */
  predicate Deletes(row: Row, text: bool, step: Step, key: Key) {
    match step
    case Destroyed(k) => k == key
    case RevokedGrant(grant) => row.grantId == Some(grant)
    case Pruned(at) => row.expiresAt.Some? && IsoTimestamp.SqlNotAfter(text, row.expiresAt.value, at)
    case _ => false
  }

  predicate Upserts(step: Step, key: Key) {
    step.Upserted? && step.key == key
  }

  lemma StepKeepsKey(t: Table, text: bool, step: Step, key: Key)
    ensures key in Apply(t, text, step) <==> Upserts(step, key) || (key in t && !Deletes(t[key], text, step, key))
  {
  }

  /** Over every run from the empty table: the ids stored are those upserted and not deleted since. */
  lemma {:induction false} StoredExactly(ts: seq<Table>, steps: seq<Step>, text: bool, key: Key, n: nat)
    requires IsRun(ts, steps, text) && ts[0] == map[] && n < |ts|
    ensures key in ts[n] <==>
      exists o :: 0 <= o < n && Upserts(steps[o], key)
        && forall j :: o < j < n ==> key in ts[j] && !Deletes(ts[j][key], text, steps[j], key)
  {
    hide Apply, Informed, Deletes;
    if n > 0 {
      StoredExactly(ts, steps, text, key, n - 1);
      assert ts[n - 1 + 1] == Apply(ts[n - 1], text, steps[n - 1]);
      StepKeepsKey(ts[n - 1], text, steps[n - 1], key);
      if !Upserts(steps[n - 1], key) && key in ts[n] {
        var o :| 0 <= o < n - 1 && Upserts(steps[o], key)
          && forall j :: o < j < n - 1 ==> key in ts[j] && !Deletes(ts[j][key], text, steps[j], key);
        assert forall j :: o < j < n ==> key in ts[j] && !Deletes(ts[j][key], text, steps[j], key);
      }
    }
  }

  // What became of a row

  predicate Consumes(step: Step, key: Key) {
    step.Consumed? && step.key == key
  }

  /** The expiry a renewal of this row may have given it. */
  predicate Extends(step: Step, key: Key, expiresAt: Option<int>) {
    step.Renewed? && step.key == key && expiresAt == Some(step.now + step.expiresIn * 1000)
  }

  /** What one statement that is no `upsert` of the row may make of it. */
  ghost predicate FollowsFrom(row: Row, row': Row, step: Step, key: Key) {
    && row'.uid == row.uid && row'.userCode == row.userCode && row'.grantId == row.grantId
    && (row'.accountId == row.accountId || row.accountId.None?)
    && (row'.expiresAt == row.expiresAt || Extends(step, key, row'.expiresAt))
    && (if Consumes(step, key) then
          row'.payload.consumed == Some(step.at / 1000) && row'.payload.(consumed := step.read.consumed) == step.read
        else row'.payload.(exp := row.payload.exp) == row.payload)
  }

  lemma StepOnRow(t: Table, text: bool, step: Step, key: Key)
    requires !Upserts(step, key) && key in Apply(t, text, step)
    ensures key in t && FollowsFrom(t[key], Apply(t, text, step)[key], step, key)
  {
    hide SqlLive, Prunes, LabelOf;
    match step
    case Renewed(k, read, now, expiresIn) =>
      if k == key && Renewable(t, text, key, read, now) { RenewedFollows(t[key], step, key); }
    case _ =>
  }

  lemma RenewedFollows(row: Row, step: Step, key: Key)
    requires step.Renewed? && step.key == key
    ensures FollowsFrom(row, RenewedRow(row, step.now, step.expiresIn), step, key)
  {
  }

  /** The row was marked at `at` by the last `consume` of it. */
  ghost predicate MarkedLast(steps: seq<Step>, m: nat, n: nat, key: Key, consumed: Option<int>)
    requires n <= |steps|
  {
    exists j :: m <= j < n && Consumes(steps[j], key) && consumed == Some(steps[j].at / 1000)
      && forall k :: j < k < n ==> !Consumes(steps[k], key)
  }

  /**
   * Over every run, between upserts of an artefact: it is marked consumed if and only if it was before or a `consume`
   * of it has run since, and then with the second of the last one; whatever renewals, late consumes, backfills, prunes
   * and revocations run.
   */
  lemma {:induction false} ConsumedStaysConsumed(
      ts: seq<Table>, steps: seq<Step>, text: bool, key: Key, m: nat, n: nat)
    requires IsRun(ts, steps, text) && m <= n < |ts| && key in ts[n]
    requires forall j :: m <= j < n ==> !Upserts(steps[j], key)
    ensures key in ts[m]
    ensures
      if exists j :: m <= j < n && Consumes(steps[j], key)
      then MarkedLast(steps, m, n, key, ts[n][key].payload.consumed)
      else ts[n][key].payload.consumed == ts[m][key].payload.consumed
    decreases n
  {
    hide Apply, Informed;
    if n > m {
      assert ts[n - 1 + 1] == Apply(ts[n - 1], text, steps[n - 1]);
      StepOnRow(ts[n - 1], text, steps[n - 1], key);
      ConsumedStaysConsumed(ts, steps, text, key, m, n - 1);
      if !Consumes(steps[n - 1], key) && exists j :: m <= j < n && Consumes(steps[j], key) {
        var j :| m <= j < n - 1 && Consumes(steps[j], key)
          && ts[n - 1][key].payload.consumed == Some(steps[j].at / 1000)
          && forall k :: j < k < n - 1 ==> !Consumes(steps[k], key);
        assert forall k :: j < k < n ==> !Consumes(steps[k], key);
      }
    }
  }

  /** So once consumed, no later `find` shows it unused, until it is upserted. */
  lemma ConsumedIsSeen(
      ts: seq<Table>, steps: seq<Step>, text: bool, key: Key, c: nat, n: nat, now: int)
    requires IsRun(ts, steps, text) && c < n < |ts| && Consumes(steps[c], key)
    requires forall j :: c < j < n ==> !Upserts(steps[j], key)
    ensures Find(ts[n], key, now).Some? ==> Find(ts[n], key, now).value.consumed.Some?
  {
    hide Apply, Informed;
    if key in ts[n] { ConsumedStaysConsumed(ts, steps, text, key, c, n); }
  }

  /**
   * Over every run, between upserts of an artefact, its uid, user code and grant columns stay, its label changes only
   * from NULL, and its expiry is what it was or what one of its renewals gave it.
   */
  lemma {:induction false} ColumnsStay(ts: seq<Table>, steps: seq<Step>, text: bool, key: Key, m: nat, n: nat)
    requires IsRun(ts, steps, text) && m <= n < |ts| && key in ts[n]
    requires forall j :: m <= j < n ==> !Upserts(steps[j], key)
    ensures key in ts[m]
    ensures
      var row, was := ts[n][key], ts[m][key];
      && row.uid == was.uid && row.userCode == was.userCode && row.grantId == was.grantId
      && (row.accountId == was.accountId || was.accountId.None?)
      && (row.expiresAt == was.expiresAt || exists j :: m <= j < n && Extends(steps[j], key, row.expiresAt))
    decreases n
  {
    hide Apply, Informed, Extends;
    if n > m {
      assert ts[n - 1 + 1] == Apply(ts[n - 1], text, steps[n - 1]);
      StepOnRow(ts[n - 1], text, steps[n - 1], key);
      ColumnsStay(ts, steps, text, key, m, n - 1);
    }
  }

  /**
   * A renewal extends the row exactly when the row is there, still holds the payload read, and expires later than now,
   * but not never; it then has both the new `exp`, in seconds, and the expiry of that second's length.
   */
  lemma RenewalExtendsExactly(t: Table, text: bool, key: Key, read: Payload, now: int, expiresIn: int)
    requires text ==> IsoTimestamp.InFourDigitYears(now)
    requires text ==> key in t && t[key].expiresAt.Some? ==> t[key].expiresAt.value < 253_402_300_800_000
    ensures
      var t' := Apply(t, text, Renewed(key, read, now, expiresIn));
      if key in t && t[key].payload == read && t[key].expiresAt.Some? && now < t[key].expiresAt.value then
        && key in t' && t'[key].payload.exp == Some((now / 1000 + expiresIn) as real)
        && t'[key].expiresAt == Some(now + expiresIn * 1000)
      else t' == t
  {
    hide IsoTimestamp.FieldsOf, IsoTimestamp.Iso;
    if text && key in t && t[key].expiresAt.Some? {
      IsoTimestamp.TextTestsAreNumeric(t[key].expiresAt.value, now);
      IsoTimestamp.FourDigitYearsAre(t[key].expiresAt.value);
    }
  }
}
