/**
 * `DatabaseAdapter`, method by method; the clock readings a method takes are its last parameters. `Consume`,
 * `RenewSession` and `ListByGrantIds` let other calls run between their statements; what those may do to the others is
 * the subject of `PayloadRuns`.
 */
module DatabaseAdapters {
  import opened Wrappers
  import opened PayloadTable
  import opened PayloadIndex
  import opened PayloadMaintenance
  import PayloadRuns
  import Scopes
  import TextOrder

  const IN_CHUNK := 500
  const ACCOUNT_COLUMN_RECHECK_MS := 60_000

  method Chunks(items: seq<string>) returns (out: seq<seq<string>>)
    ensures Flatten(out) == items
    ensures forall i :: 0 <= i < |out| ==> 1 <= |out[i]| <= IN_CHUNK
    ensures forall i :: 0 <= i < |out| - 1 ==> |out[i]| == IN_CHUNK
  {
    out := [];
    var i := 0;
    while i < |items|
      invariant 0 <= i
      invariant i < |items| ==> i == IN_CHUNK * |out|
      invariant Flatten(out) == items[..if i < |items| then i else |items|]
      invariant forall k :: 0 <= k < |out| ==> 1 <= |out[k]| <= IN_CHUNK
      invariant forall k :: 0 <= k < |out| ==> |out[k]| == IN_CHUNK || (k == |out| - 1 && i >= |items|)
      decreases |items| - i
    {
      var end := if i + IN_CHUNK < |items| then i + IN_CHUNK else |items|;
      FlattenSnoc(out, items[i..end]);
      assert items[..end] == items[..i] + items[i..end];
      out := out + [items[i..end]];
      i := i + IN_CHUNK;
    }
  }

  lemma {:induction false} FlattenSnoc(out: seq<seq<string>>, chunk: seq<string>)
    ensures Flatten(out + [chunk]) == Flatten(out) + chunk
  {
    if out == [] {
      assert Flatten([chunk]) == chunk + Flatten([]);
    } else {
      assert (out + [chunk])[1..] == out[1..] + [chunk];
      FlattenSnoc(out[1..], chunk);
    }
  }

  // Rows to artefacts

  datatype Record = Record(id: string, row: Row)

  function Records(t: Table, model: string, ids: seq<string>): (r: seq<Record>)
    requires InTable(t, model, ids)
    ensures |r| == |ids| && forall i :: 0 <= i < |ids| ==> r[i] == Record(ids[i], t[Key(model, ids[i])])
  {
    seq(|ids|, i requires 0 <= i < |ids| => Record(ids[i], t[Key(model, ids[i])]))
  }

  datatype ParsedRow = ParsedRow(id: string, payload: Payload, unclassified: bool)

  function ToArtifacts(rows: seq<ParsedRow>): (r: seq<Artifact>)
    ensures |r| == |rows| && forall i :: 0 <= i < |rows| ==> r[i] == Artifact(rows[i].id, rows[i].payload)
  {
    seq(|rows|, i requires 0 <= i < |rows| => Artifact(rows[i].id, rows[i].payload))
  }

  ghost predicate IsParsed(t: Table, model: string, ids: set<string>, row: ParsedRow) {
    && row.id in ids && Key(model, row.id) in t
    && row.payload == t[Key(model, row.id)].payload
    && row.unclassified == t[Key(model, row.id)].accountId.None?
  }

  /** Exactly the visible rows, in order. */
  ghost predicate IsParse(t: Table, model: string, ids: set<string>, rows: seq<ParsedRow>) {
    && (forall i, j :: 0 <= i < j < |rows| ==> TextOrder.Less(rows[i].id, rows[j].id))
    && (forall row :: row in rows <==> IsParsed(t, model, ids, row))
  }

  lemma ParseArtifacts(t: Table, model: string, ids: set<string>, rows: seq<ParsedRow>)
    requires InTable(t, model, OrderBy(ids)) && IsParse(t, model, ids, rows)
    ensures ToArtifacts(rows) == Artifacts(t, model, OrderBy(ids))
  {
    var xs, ys := ToArtifacts(rows), Artifacts(t, model, OrderBy(ids));
    ArtifactsSorted(t, model, ids);
    forall a
      ensures a in xs <==> a in ys
    {
      if a in ys {
        var row := ParsedRow(a.id, a.payload, t[Key(model, a.id)].accountId.None?);
        assert IsListed(t, model, ids, a) && row in rows;
        var i :| 0 <= i < |rows| && rows[i] == row;
        assert xs[i] == a;
      }
      if a in xs {
        var i :| 0 <= i < |xs| && xs[i] == a;
        assert rows[i] in rows && IsParsed(t, model, ids, rows[i]);
        assert IsListed(t, model, ids, a);
      }
    }
    SortedUnique(xs, ys);
  }

  function ParsedOf(r: Record): ParsedRow {
    ParsedRow(r.id, r.row.payload, r.row.accountId.None?)
  }

  method ParseRows(rows: seq<Record>, now: int) returns (result: seq<ParsedRow>)
    ensures forall p :: p in result <==> FromRecord(rows, now, p)
    ensures (forall i, j :: 0 <= i < j < |rows| ==> TextOrder.Less(rows[i].id, rows[j].id)) ==>
      forall i, j :: 0 <= i < j < |result| ==> TextOrder.Less(result[i].id, result[j].id)
  {
    result := [];
    ghost var from: seq<nat> := [];
    for i := 0 to |rows|
      invariant |from| == |result| && forall k :: 0 <= k < |from| ==> from[k] < i
      invariant forall k :: 0 <= k < |from| ==>
        Unexpired(rows[from[k]].row, now) && result[k] == ParsedOf(rows[from[k]])
      invariant forall k, l :: 0 <= k < l < |from| ==> from[k] < from[l]
      invariant forall k :: 0 <= k < i && Unexpired(rows[k].row, now) ==> ParsedOf(rows[k]) in result
    {
      if Unexpired(rows[i].row, now) {
        result, from := result + [ParsedOf(rows[i])], from + [i];
      }
    }
    forall p
      ensures p in result <==> FromRecord(rows, now, p)
    {
      if p in result {
        var k :| 0 <= k < |result| && result[k] == p;
        assert rows[from[k]] in rows;
      }
    }
  }

  ghost predicate FromRecord(records: seq<Record>, now: int, p: ParsedRow) {
    exists r :: r in records && Unexpired(r.row, now) && p == ParsedOf(r)
  }

  /** The rows left of a `SELECT` by the second expiry check are the visible ones. */
  lemma ParsedVisible(t: Table, model: string, w: Where, c: Clock, rows: seq<ParsedRow>)
    requires forall p :: p in rows <==> FromRecord(Records(t, model, OrderBy(Selected(t, model, w, c))), c.js, p)
    requires forall i, j :: 0 <= i < j < |rows| ==> TextOrder.Less(rows[i].id, rows[j].id)
    ensures IsParse(t, model, Visible(t, model, w, c), rows)
    ensures InTable(t, model, OrderBy(Visible(t, model, w, c)))
  {
    hide SqlLive, Holds;
    var ids := OrderBy(Selected(t, model, w, c));
    var records := Records(t, model, ids);
    forall row
      ensures row in rows <==> IsParsed(t, model, Visible(t, model, w, c), row)
    {
      if IsParsed(t, model, Visible(t, model, w, c), row) {
        assert row.id in ids;
        var i :| 0 <= i < |ids| && ids[i] == row.id;
        assert records[i] in records && row == ParsedOf(records[i]);
        assert FromRecord(records, c.js, row);
      }
      if FromRecord(records, c.js, row) {
        var r :| r in records && Unexpired(r.row, c.js) && row == ParsedOf(r);
        var i :| 0 <= i < |records| && records[i] == r;
        assert ids[i] in ids;
      }
    }
  }

  // The connection and its adapters

  /** A database handle: its table and the state all adapters over it share. */
  class Connection {
    var table: Table
    const text: bool
    var hasColumn: bool
    var accountColumn: Option<bool>
    var accountColumnRecheckAt: int
    var nextPruneAt: int
    var prunes: seq<int>
    ghost var readings: seq<int>

    /** The prunes started so far are those the clock readings of its upserts call for. */
    ghost predicate Valid()
      reads this
    {
      prunes == Starts(0, readings) && nextPruneAt == NextStart(0, readings)
    }

    /** Other calls and processes run: the table may become anything. */
    method Others()
      modifies this`table
    {
      table := *;
    }

    constructor (table: Table, text: bool, hasColumn: bool)
      ensures Valid() && this.table == table && this.text == text && this.hasColumn == hasColumn
      ensures accountColumn == None && readings == []
    {
      this.table, this.text, this.hasColumn := table, text, hasColumn;
      accountColumn, accountColumnRecheckAt, nextPruneAt, prunes, readings := None, 0, 0, [], [];
    }
  }

  function NextStart(nextPruneAt: int, readings: seq<int>): int
    decreases readings
  {
    if readings == [] then nextPruneAt
    else if nextPruneAt > readings[0] then NextStart(nextPruneAt, readings[1..])
    else NextStart(readings[0] + PRUNE_INTERVAL_MS, readings[1..])
  }

  lemma {:induction false} StartsSnoc(nextPruneAt: int, readings: seq<int>, now: int)
    ensures Starts(nextPruneAt, readings + [now]) ==
      Starts(nextPruneAt, readings) + Starts(NextStart(nextPruneAt, readings), [now])
    ensures NextStart(nextPruneAt, readings + [now]) == NextStart(NextStart(nextPruneAt, readings), [now])
    decreases readings
  {
    if readings == [] {
      assert [] + [now] == [now];
    } else {
      assert (readings + [now])[1..] == readings[1..] + [now];
      var next := if nextPruneAt > readings[0] then nextPruneAt else readings[0] + PRUNE_INTERVAL_MS;
      StartsSnoc(next, readings[1..], now);
    }
  }

  /** An `upsert` by a process that believes the column is missing leaves the label as it finds it. */
  function PutBlind(t: Table, key: Key, p: Payload, expiresAt: Option<int>): Table {
    t[key := RowFor(p, expiresAt).(accountId := if key in t then t[key].accountId else None)]
  }

  // Renewal

  /** One access of a call to the table: what it found and what it left. */
  datatype Access = Access(before: Table, after: Table)

  /**
   * A row still there has what was found, marked with the second of the clock, and its columns as they were; no other
   * row differs. This is the step `Consumed` of a run.
   */
  ghost predicate MarksConsumed(a: Access, key: Key, found: Payload, now: int) {
    && a.after.Keys == a.before.Keys
    && (forall other :: other in a.before && other != key ==> a.after[other] == a.before[other])
    && (key in a.before ==>
          && a.after[key].payload.consumed == Some(now / 1000)
          && a.after[key].payload.(consumed := found.consumed) == found
          && a.after[key].(payload := a.before[key].payload) == a.before[key])
  }

  lemma MarkingIsConsuming(a: Access, key: Key, found: Payload, now: int, text: bool)
    ensures MarksConsumed(a, key, found, now) <==>
      a.after == PayloadRuns.Apply(a.before, text, PayloadRuns.Consumed(key, found, now))
  {
    var marked := PayloadRuns.Apply(a.before, text, PayloadRuns.Consumed(key, found, now));
    if MarksConsumed(a, key, found, now) {
      forall other | other in a.before
        ensures a.after[other] == marked[other]
      {
        if other == key {
          assert a.after[key].payload == marked[key].payload;
          assert a.after[key] == a.after[key].(payload := a.before[key].payload).(payload := a.after[key].payload);
        }
      }
    }
  }

  /** Nothing but `exp` and `expires_at` of one existing row differs. */
  ghost predicate ExtendsOnly(a: Access, key: Key) {
    && key in a.before && a.after.Keys == a.before.Keys
    && (forall other :: other in a.before && other != key ==> a.after[other] == a.before[other])
    && a.after[key].(expiresAt := a.before[key].expiresAt,
                     payload := a.after[key].payload.(exp := a.before[key].payload.exp)) == a.before[key]
  }

  /** What every call does, whatever other calls do between its accesses. */
  ghost predicate RenewsAtOnePoint(accesses: seq<Access>, key: Key, text: bool, now: int, expiresIn: int) {
    && |accesses| <= 3
    && (forall i :: 0 <= i < |accesses| && i != 1 ==> accesses[i].after == accesses[i].before)
    && (|accesses| > 1 && accesses[1].after != accesses[1].before ==>
        && ExtendsOnly(accesses[1], key) && key in accesses[0].before
        && accesses[1].before[key].payload == accesses[0].before[key].payload
        && Remembered(accesses[0].before[key].payload, now)
        && SqlLive(accesses[1].before[key], Clock(text, now, now))
        && accesses[1].after[key].payload.exp == Some((now / 1000 + expiresIn) as real)
        && accesses[1].after[key].expiresAt == Some(now + expiresIn * 1000))
  }

  /** At some access the session was stored, remembered and not expired by the clock of that access. */
  ghost predicate WasLive(accesses: seq<Access>, key: Key, text: bool, now: int, findNow: int) {
    || (|accesses| > 1 && key in accesses[1].before && Remembered(accesses[1].before[key].payload, now)
        && SqlLive(accesses[1].before[key], Clock(text, now, now)))
    || (|accesses| > 2 && key in accesses[2].before && Remembered(accesses[2].before[key].payload, now)
        && Unexpired(accesses[2].before[key], findNow))
  }

  /** The answer of a call whose compare-and-set failed, from the tables its three accesses met. */
  predicate AnswersLate(t0: Table, t1: Table, t2: Table, key: Key, text: bool, readNow: int, now: int, findNow: int) {
    var read, current := Find(t0, key, readNow), Find(t2, key, findNow);
    && read.Some? && Remembered(read.value, now)
    && !PayloadRuns.Renewable(t1, text, key, read.value, now)
    && current.Some? && Remembered(current.value, now)
  }

  /** The row may stay visible up to some millisecond at which its `exp` is over. */
  predicate OutlivesExp(row: Row) {
    && !row.payload.transient && row.payload.exp.Some?
    && (row.expiresAt.None? || 1000.0 * row.payload.exp.value <= (row.expiresAt.value - 1) as real)
  }

  /**
   * The last check compares `exp` with the clock reading from before the compare-and-set. So a call can report a
   * session as renewed whose `exp` is over, although it wrote nothing; by which clocks and which other calls, is
   * open. It can happen to a row if and only if its expiry is NULL or, in whole milliseconds, later than its `exp`.
   */
  lemma AnswersWithOldClock(t: Table, key: Key, text: bool)
    requires key in t
    ensures OutlivesExp(t[key]) <==>
      exists t0, t1, readNow, now, findNow ::
        AnswersLate(t0, t1, t, key, text, readNow, now, findNow) && readNow <= now <= findNow
        && !Remembered(t[key].payload, findNow)
  {
    forall t0, t1, readNow, now, findNow
        | AnswersLate(t0, t1, t, key, text, readNow, now, findNow) && !Remembered(t[key].payload, findNow)
      ensures OutlivesExp(t[key])
    {
      if t[key].expiresAt.Some? { LateAnswersHold(t0, t1, t, key, text, readNow, now, findNow); }
    }
    if OutlivesExp(t[key]) {
      var end := FirstAfter(1000.0 * t[key].payload.exp.value);
      var none: Table := map[];
      if t[key].expiresAt.Some? { LeastCeiling(1000.0 * t[key].payload.exp.value, end, t[key].expiresAt.value - 1); }
      assert AnswersLate(t, none, t, key, text, end - 1, end - 1, end);
    }
  }

  /** Otherwise a late answer is right: the session is still remembered at the last look. */
  lemma LateAnswersHold(t0: Table, t1: Table, t2: Table, key: Key, text: bool, readNow: int, now: int, findNow: int)
    requires AnswersLate(t0, t1, t2, key, text, readNow, now, findNow)
    ensures !OutlivesExp(t2[key]) ==> Remembered(t2[key].payload, findNow)
  {
    var row := t2[key];
    if row.expiresAt.Some? && !Remembered(row.payload, findNow) {
      assert row.payload.exp.value * 1000.0 <= findNow as real;
      assert findNow <= row.expiresAt.value - 1;
    }
  }

  /** The first whole millisecond not before `x`. */
  function FirstAfter(x: real): (n: int)
    ensures (n - 1) as real < x <= n as real
  {
    if x.Floor as real == x then x.Floor else x.Floor + 1
  }

  lemma LeastCeiling(x: real, n: int, m: int)
    requires (n - 1) as real < x && x <= m as real
    ensures n <= m
  {
    assert m < n ==> m as real <= (n - 1) as real;
  }

  /**
   * Without other calls in between, off SQLite, only a NULL expiry lets it happen: the compare-and-set never matches
   * it.
   */
  lemma AloneWithOldClock(t: Table, key: Key)
    requires key in t
    ensures OutlivesExp(t[key]) && t[key].expiresAt.None? <==>
      exists readNow, now, findNow ::
        AnswersLate(t, t, t, key, false, readNow, now, findNow) && readNow <= now <= findNow
        && !Remembered(t[key].payload, findNow)
  {
    if OutlivesExp(t[key]) && t[key].expiresAt.None? {
      var end := FirstAfter(1000.0 * t[key].payload.exp.value);
      assert AnswersLate(t, t, t, key, false, end - 1, end - 1, end);
    }
  }

  /** A row this very method wrote is such a row, unless it was written on a whole second. */
  lemma RenewedOutlivesExp(row: Row, now: int, expiresIn: int)
    ensures OutlivesExp(PayloadRuns.RenewedRow(row, now, expiresIn)) <==> !row.payload.transient && now % 1000 != 0
  {
    var renewed := PayloadRuns.RenewedRow(row, now, expiresIn);
    assert 1000.0 * renewed.payload.exp.value == (1000 * (now / 1000 + expiresIn)) as real;
    assert now == 1000 * (now / 1000) + now % 1000;
  }

  /** On one table throughout, the compare-and-set or the last look succeeds exactly if the row is still live. */
  lemma AnswersAlone(t: Table, key: Key, readNow: int, now: int, findNow: int)
    requires readNow <= now <= findNow
    requires key in t && Unexpired(t[key], readNow)
    ensures Unexpired(t[key], now) <==>
      PayloadRuns.Renewable(t, false, key, t[key].payload, now) || Unexpired(t[key], findNow)
    ensures PayloadRuns.Renewable(t, false, key, t[key].payload, now) ==> key in t && Unexpired(t[key], now)
  {
  }

  /** No other call touched the table in between. */
  ghost predicate Undisturbed(accesses: seq<Access>) {
    forall i :: 0 <= i < |accesses| - 1 ==> accesses[i + 1].before == accesses[i].after
  }

  // Backfill bookkeeping

  /** `row` is the reason why `id` is in the group of `account`. */
  predicate Explains(row: ParsedRow, account: string, id: string) {
    row.id == id && row.unclassified && LabelOf(row.payload) == Some(account)
  }

  predicate Grouped(byAccount: map<string, seq<string>>, account: string, id: string) {
    account in byAccount && id in byAccount[account]
  }

  ghost predicate Explained(rows: seq<ParsedRow>, account: string, id: string) {
    exists row :: row in rows && Explains(row, account, id)
  }

  /** The groups hold the ids of the unclassified rows, each under the account in its payload. */
  ghost predicate Groups(byAccount: map<string, seq<string>>, rows: seq<ParsedRow>) {
    forall account, id :: Grouped(byAccount, account, id) <==> Explained(rows, account, id)
  }

  function AddToGroup(byAccount: map<string, seq<string>>, row: ParsedRow): map<string, seq<string>> {
    var owner := LabelOf(row.payload);
    if row.unclassified && owner.Some? then
      byAccount[owner.value := (if owner.value in byAccount then byAccount[owner.value] else []) + [row.id]]
    else byAccount
  }

  lemma GroupsSnoc(byAccount: map<string, seq<string>>, rows: seq<ParsedRow>, row: ParsedRow)
    requires Groups(byAccount, rows)
    ensures Groups(AddToGroup(byAccount, row), rows + [row])
  {
    hide LabelOf;
    forall account, id
      ensures Grouped(AddToGroup(byAccount, row), account, id) <==> Explained(rows + [row], account, id)
    {
      assert Grouped(byAccount, account, id) <==> Explained(rows, account, id);
      if Explained(rows, account, id) {
        var r :| r in rows && Explains(r, account, id);
        assert r in rows + [row];
      }
      if Explains(row, account, id) { assert row in rows + [row]; }
    }
  }

  lemma NoGroups()
    ensures Groups(map[], [])
  {
  }

  /** `u` is `t` with some NULL labels set to the account whose group the id is in. */
  ghost predicate MayLabel(t: Table, u: Table, model: string, byAccount: map<string, seq<string>>) {
    && t.Keys == u.Keys
    && forall key :: key in t && u[key] != t[key] ==>
      && key.model == model && t[key].accountId.None?
      && exists a :: a in byAccount && key.id in byAccount[a] && u[key] == t[key].(accountId := Some(a))
  }

  ghost predicate AllLabelled(u: Table, model: string, ids: seq<string>) {
    forall key :: key in u && key.model == model && key.id in ids ==> u[key].accountId.Some?
  }

  /** Labels are only added. */
  ghost predicate LabelsGrow(t: Table, u: Table) {
    t.Keys == u.Keys && forall key :: key in t && t[key].accountId.Some? ==> u[key] == t[key]
  }

  lemma ClassifyLabels(
      t: Table, u: Table, model: string, byAccount: map<string, seq<string>>, account: string, chunk: seq<string>)
    requires MayLabel(t, u, model, byAccount) && account in byAccount
    requires forall id :: id in chunk ==> id in byAccount[account]
    ensures MayLabel(t, Classify(u, model, account, chunk), model, byAccount)
    ensures AllLabelled(Classify(u, model, account, chunk), model, chunk)
    ensures LabelsGrow(u, Classify(u, model, account, chunk))
  {
    var v := Classify(u, model, account, chunk);
    forall key | key in t && v[key] != t[key]
      ensures key.model == model && t[key].accountId.None?
      ensures exists a :: a in byAccount && key.id in byAccount[a] && v[key] == t[key].(accountId := Some(a))
    {
      if v[key] != u[key] { assert u[key] == t[key]; assert v[key] == t[key].(accountId := Some(account)); }
    }
  }

  lemma BackfillDone(t: Table, u: Table, model: string, account: string, c: Clock, rows: seq<ParsedRow>,
                     byAccount: map<string, seq<string>>)
    requires IsParse(t, model, Visible(t, model, OfAccount(account), c), rows)
    requires Groups(byAccount, rows) && MayLabel(t, u, model, byAccount)
    ensures PartlyBackfilled(t, u, model, c)
    ensures (forall a :: a in byAccount ==> AllLabelled(u, model, byAccount[a])) ==> u == Backfill(t, model, c)
  {
    hide SqlLive, LabelOf;
    forall key | key in t
      ensures u[key] == t[key] || u[key] == Backfill(t, model, c)[key]
      ensures (forall a :: a in byAccount ==> AllLabelled(u, model, byAccount[a])) ==>
        u[key] == Backfill(t, model, c)[key]
    {
      if u[key] != t[key] {
        var a :| a in byAccount && key.id in byAccount[a] && u[key] == t[key].(accountId := Some(a));
        assert Grouped(byAccount, a, key.id);
        var row :| row in rows && Explains(row, a, key.id);
        assert Key(model, key.id) == key && IsParsed(t, model, Visible(t, model, OfAccount(account), c), row);
      } else if Backfills(t, model, c, key) {
        var row := ParsedRow(key.id, t[key].payload, true);
        assert Key(model, key.id) == key && IsParsed(t, model, Visible(t, model, OfAccount(account), c), row);
        assert Explains(row, LabelOf(t[key].payload).value, key.id);
        assert Grouped(byAccount, LabelOf(t[key].payload).value, key.id);
      }
    }
  }

  lemma {:induction false} FilterAppend(xs: seq<Artifact>, a: Artifact, w: Wanted)
    ensures Filter(xs + [a], w) == Filter(xs, w) + if Wants(w, a) then [a] else []
  {
    hide Wants;
    if xs == [] {
      assert Filter([a], w) == if Wants(w, a) then [a] + Filter([], w) else Filter([], w);
    } else {
      assert (xs + [a])[1..] == xs[1..] + [a];
      FilterAppend(xs[1..], a, w);
    }
  }

  class DatabaseAdapter {
    const name: string
    const db: Connection

    constructor (name: string, db: Connection)
      ensures this.name == name && this.db == db
    {
      this.name, this.db := name, db;
    }

    /** `#hasAccountColumn`: a present column is remembered for good, a missing one for a minute. */
    method HasAccountColumn(now: int) returns (has: bool)
      modifies db`accountColumn, db`accountColumnRecheckAt
      ensures db.accountColumn == Some(has)
      ensures old(db.accountColumn) == Some(true) ==> has
      ensures old(db.accountColumn) == None ==> has == db.hasColumn
      ensures old(db.accountColumn) == Some(false) ==>
        has == (old(db.accountColumnRecheckAt) <= now && db.hasColumn)
      ensures db.accountColumnRecheckAt ==
        if !has && (old(db.accountColumn) != Some(false) || old(db.accountColumnRecheckAt) <= now)
        then now + ACCOUNT_COLUMN_RECHECK_MS else old(db.accountColumnRecheckAt)
    {
      if db.accountColumn == Some(true) {
        return true;
      }
      if db.accountColumn == Some(false) && db.accountColumnRecheckAt > now {
        return false;
      }
      has := db.hasColumn;
      db.accountColumn := Some(has);
      if !has {
        db.accountColumnRecheckAt := now + ACCOUNT_COLUMN_RECHECK_MS;
      }
    }

    /** `#maybePrune`: the deletion itself runs later, with the starting instant as its threshold. */
    method MaybePrune(now: int)
      requires db.Valid()
      modifies db`nextPruneAt, db`prunes, db`readings
      ensures db.Valid() && db.readings == old(db.readings) + [now]
      ensures db.prunes == old(db.prunes) + (if old(db.nextPruneAt) > now then [] else [now])
    {
      StartsSnoc(0, db.readings, now);
      assert Starts(now + PRUNE_INTERVAL_MS, []) == [];
      db.readings := db.readings + [now];
      if db.nextPruneAt > now {
        return;
      }
      db.nextPruneAt := now + PRUNE_INTERVAL_MS;
      db.prunes := db.prunes + [now];
    }

    method Upsert(id: string, payload: Payload, expiresIn: int, now: int, columnNow: int, pruneNow: int)
      requires db.Valid()
      modifies db
      ensures db.Valid() && db.hasColumn == old(db.hasColumn)
      ensures db.accountColumn.Some?
      ensures db.table ==
        var expiresAt := if expiresIn != 0 then Some(now + expiresIn * 1000) else None;
        if db.accountColumn.value then Put(old(db.table), Key(name, id), payload, expiresAt)
        else PutBlind(old(db.table), Key(name, id), payload, expiresAt)
    {
      var expiresAt := if expiresIn != 0 then Some(now + expiresIn * 1000) else None;
      var row := RowFor(payload, expiresAt).(accountId := None);
      var key := Key(name, id);
      var labels := HasAccountColumn(columnNow);
      if labels {
        row := row.(accountId := LabelOf(payload));
      }
      if key in db.table {
        // UPDATE: a column that is not in the statement keeps its value.
        db.table := db.table[key := if labels then row else row.(accountId := db.table[key].accountId)];
      } else {
        db.table := db.table[key := row];
      }
      MaybePrune(pruneNow);
    }

    method FindById(id: string, now: int) returns (found: Option<Payload>)
      ensures found == Find(db.table, Key(name, id), now)
    {
      var key := Key(name, id);
      if key !in db.table {
        return None;
      }
      var record := db.table[key];
      if record.expiresAt.Some? && record.expiresAt.value <= now {
        return None;
      }
      return Some(record.payload);
    }

    /**
     * The look-up and the write, with other calls in between: the write marks what the look-up found, and only where
     * there still is a row.
     */
    method Consume(id: string, findNow: int, now: int) returns (ghost accesses: seq<Access>)
      modifies db`table
      ensures 1 <= |accesses| <= 2 && accesses[0] == Access(old(db.table), old(db.table))
      ensures |accesses| == 2 <==> Find(old(db.table), Key(name, id), findNow).Some?
      ensures db.table == accesses[|accesses| - 1].after
      ensures |accesses| == 2 ==>
        MarksConsumed(accesses[1], Key(name, id), Find(old(db.table), Key(name, id), findNow).value, now)
    {
      accesses := [Access(db.table, db.table)];
      var found := FindById(id, findNow);
      if found.None? {
        return;
      }

      db.Others();
      ghost var before := db.table;
      db.table := SetPayload(db.table, Key(name, id), found.value.(consumed := Some(now / 1000)));
      accesses := accesses + [Access(before, db.table)];
    }

    /**
     * `renewSession`, with other calls between its accesses. An answer of true also means the row was renewed or
     * another call left it live; alone, off SQLite, the answer is whether the row was still live.
     */
    method RenewSession(id: string, expiresIn: int, readNow: int, now: int, findNow: int)
      returns (ok: bool, ghost accesses: seq<Access>)
      modifies db`table
      ensures RenewsAtOnePoint(accesses, Key(name, id), db.text, now, expiresIn)
      ensures ok ==> WasLive(accesses, Key(name, id), db.text, now, findNow)
      ensures !ok ==> forall i :: 0 <= i < |accesses| ==> accesses[i].after == accesses[i].before
      ensures ok ==> name == "Session" && 1 <= expiresIn <= MAX_SAFE_INTEGER
      ensures name == "Session" && 1 <= expiresIn <= MAX_SAFE_INTEGER ==> accesses != []
      ensures accesses != [] && Undisturbed(accesses) && !db.text && readNow <= now <= findNow ==>
        (ok <==>
          && Key(name, id) in accesses[0].before && Remembered(accesses[0].before[Key(name, id)].payload, now)
          && Unexpired(accesses[0].before[Key(name, id)], now))
      ensures |accesses| == 3 ==>
        ok == AnswersLate(accesses[0].before, accesses[1].before, accesses[2].before, Key(name, id), db.text,
          readNow, now, findNow)
    {
      hide SqlLive, PayloadRuns.Renewable, PayloadRuns.RenewedRow, ExtendsOnly;
      accesses := [];
      if name != "Session" || expiresIn > MAX_SAFE_INTEGER || expiresIn < 1 {
        return false, [];
      }
      var key := Key(name, id);
      ghost var first := Access(db.table, db.table);
      accesses := [first];
      var payload := FindById(id, readNow);
      if payload.None? || !Remembered(payload.value, now) {
        return false, accesses;
      }

      db.Others();
      var changed, access := CompareAndSet(key, payload.value, expiresIn, now);
      if readNow <= now <= findNow { AnswersAlone(first.before, key, readNow, now, findNow); }
      accesses := accesses + [access];
      assert accesses[0] == first && accesses[1] == access;
      if changed {
        return true, accesses;
      }

      db.Others();
      accesses := accesses + [Access(db.table, db.table)];
      assert accesses[0] == first && accesses[1] == access && accesses[2].before == db.table;
      assert Undisturbed(accesses) ==> access.before == first.after && db.table == access.after;
      var current := FindById(id, findNow);
      return current.Some? && Remembered(current.value, now), accesses;
    }

    /** The one statement that writes. */
    method CompareAndSet(key: Key, read: Payload, expiresIn: int, now: int)
        returns (changed: bool, ghost access: Access)
      modifies db`table
      ensures access == Access(old(db.table), db.table)
      ensures changed <==> PayloadRuns.Renewable(old(db.table), db.text, key, read, now)
      ensures !changed ==> db.table == old(db.table)
      ensures changed ==>
        && ExtendsOnly(access, key) && old(db.table)[key].payload == read
        && SqlLive(old(db.table)[key], Clock(db.text, now, now))
        && key in db.table && db.table[key].payload.exp == Some((now / 1000 + expiresIn) as real)
        && db.table[key].expiresAt == Some(now + expiresIn * 1000)
    {
      access := Access(db.table, db.table);
      changed := PayloadRuns.Renewable(db.table, db.text, key, read, now);
      if changed {
        db.table := db.table[key := PayloadRuns.RenewedRow(db.table[key], now, expiresIn)];
        access := Access(access.before, db.table);
      }
    }

    method Destroy(id: string)
      modifies db`table
      ensures db.table == old(db.table) - {Key(name, id)}
    {
      db.table := Delete(db.table, Key(name, id));
    }

    /** Whatever the model: every row filed under the grant goes, no other row changes. */
    method RevokeByGrantId(grantId: string)
      modifies db`table
      ensures forall key :: key in db.table <==> key in old(db.table) && old(db.table)[key].grantId != Some(grantId)
      ensures forall key :: key in db.table ==> db.table[key] == old(db.table)[key]
    {
      db.table := DeleteByGrant(db.table, grantId);
    }

    /** One `SELECT ... ORDER BY id` and the second expiry check. */
    method SelectVisible(w: Where, c: Clock) returns (rows: seq<ParsedRow>)
      ensures IsParse(db.table, name, Visible(db.table, name, w, c), rows)
      ensures ToArtifacts(rows) == Artifacts(db.table, name, OrderBy(Visible(db.table, name, w, c)))
    {
      hide SqlLive, Holds, Visible, IsParse;
      var t := db.table;
      var ids := OrderBy(Selected(t, name, w, c));
      var records := Records(t, name, ids);
      rows := ParseRows(records, c.js);
      ParsedVisible(t, name, w, c, rows);
      ParseArtifacts(t, name, Visible(t, name, w, c), rows);
    }

    method ListAll(c: Clock) returns (result: seq<Artifact>)
      ensures result == List(db.table, name, c)
    {
      var rows := SelectVisible(Everything, c);
      result := ToArtifacts(rows);
    }

    /**
     * With or without the column, the answer is the filtered list when no label misleads; and the table changes by
     * nothing but the backfill, the whole of it when no `UPDATE` fails.
     */
    method ListByAccount(accountId: string, columnNow: int, c: Clock, fails: (string, seq<string>) -> bool)
      returns (result: seq<Artifact>)
      modifies db`table, db`accountColumn, db`accountColumnRecheckAt
      ensures AccountIndexed(old(db.table), name, accountId, c) ==>
        result == OwnedBy(List(old(db.table), name, c), accountId)
      ensures db.accountColumn == Some(true) ==>
        result == PayloadTable.ListByAccount(old(db.table), name, accountId, c)
      ensures PartlyBackfilled(old(db.table), db.table, name, c)
      ensures db.accountColumn == Some(false) ==> db.table == old(db.table)
      ensures db.accountColumn == Some(true) && (forall a, chunk :: !fails(a, chunk)) ==>
        db.table == Backfill(old(db.table), name, c)
    {
      hide SqlLive, Holds, List, PayloadTable.ListByAccount;
      var t := db.table;
      var has := HasAccountColumn(columnNow);
      if !has {
        var all := ListAll(c);
        result := Filtered(all, OwnedByAccount(accountId));
        return;
      }
      ListByAccountExact(t, name, accountId, c);
      var rows := SelectVisible(OfAccount(accountId), c);
      var unclassified;
      result, unclassified := Partition(rows, accountId);
      OwnedByIndex(t, name, accountId, c);
      ClassifyRows(unclassified, fails, t);
      BackfillDone(t, db.table, name, accountId, c, rows, unclassified);
    }

    /** The loop of `listByAccount`: the rows to return, and the rows to label. */
    method Partition(rows: seq<ParsedRow>, accountId: string)
      returns (result: seq<Artifact>, unclassified: map<string, seq<string>>)
      ensures result == OwnedBy(ToArtifacts(rows), accountId)
      ensures Groups(unclassified, rows)
    {
      hide Groups;
      unclassified, result := map[], [];
      assert Groups(map[], []) by { NoGroups(); }
      for i := 0 to |rows|
        invariant result == OwnedBy(ToArtifacts(rows[..i]), accountId)
        invariant Groups(unclassified, rows[..i])
      {
        var owner := LabelOf(rows[i].payload);
        assert rows[..i + 1] == rows[..i] + [rows[i]];
        GroupsSnoc(unclassified, rows[..i], rows[i]);
        if rows[i].unclassified && owner.Some? {
          var ids := if owner.value in unclassified then unclassified[owner.value] else [];
          ids := ids + [rows[i].id];
          unclassified := unclassified[owner.value := ids];
        }
        assert ToArtifacts(rows[..i + 1]) == ToArtifacts(rows[..i]) + [Artifact(rows[i].id, rows[i].payload)];
        FilterAppend(ToArtifacts(rows[..i]), Artifact(rows[i].id, rows[i].payload), OwnedByAccount(accountId));
        if rows[i].payload.accountId == Text(accountId) {
          result := result + [Artifact(rows[i].id, rows[i].payload)];
        }
      }
      assert rows[..|rows|] == rows;
    }

    method Filtered(xs: seq<Artifact>, w: Wanted) returns (result: seq<Artifact>)
      ensures result == Filter(xs, w)
    {
      result := [];
      for i := 0 to |xs|
        invariant result + Filter(xs[i..], w) == Filter(xs, w)
      {
        assert xs[i..] == [xs[i]] + xs[i + 1..];
        if Wants(w, xs[i]) {
          result := result + [xs[i]];
        }
      }
    }

    /** `#classify`. */
    method ClassifyRows(byAccount: map<string, seq<string>>, fails: (string, seq<string>) -> bool, ghost t: Table)
      requires db.table == t
      modifies db`table
      ensures MayLabel(t, db.table, name, byAccount)
      ensures (forall a, chunk :: !fails(a, chunk)) ==>
        forall a :: a in byAccount ==> AllLabelled(db.table, name, byAccount[a])
    {
      var left := byAccount.Keys;
      while left != {}
        invariant left <= byAccount.Keys
        invariant MayLabel(t, db.table, name, byAccount)
        invariant (forall a, chunk :: !fails(a, chunk)) ==>
          forall a :: a in byAccount && a !in left ==> AllLabelled(db.table, name, byAccount[a])
        decreases |left|
      {
        var account :| account in left;
        ClassifyAccount(account, byAccount, fails, t);
        left := left - {account};
      }
    }

    method ClassifyAccount(account: string, byAccount: map<string, seq<string>>, fails: (string, seq<string>) -> bool,
                           ghost t: Table)
      requires account in byAccount && MayLabel(t, db.table, name, byAccount)
      modifies db`table
      ensures MayLabel(t, db.table, name, byAccount) && LabelsGrow(old(db.table), db.table)
      ensures (forall a, chunk :: !fails(a, chunk)) ==> AllLabelled(db.table, name, byAccount[account])
    {
      var chunks := Chunks(byAccount[account]);
      for i := 0 to |chunks|
        invariant MayLabel(t, db.table, name, byAccount) && LabelsGrow(old(db.table), db.table)
        invariant (forall a, chunk :: !fails(a, chunk)) ==> AllLabelled(db.table, name, Flatten(chunks[..i]))
      {
        assert chunks[..i + 1] == chunks[..i] + [chunks[i]];
        FlattenSnoc(chunks[..i], chunks[i]);
        FlattenIn(chunks, i);
        ClassifyLabels(t, db.table, name, byAccount, account, chunks[i]);
        if !fails(account, chunks[i]) {
          db.table := Classify(db.table, name, account, chunks[i]);
        }
      }
      assert chunks[..|chunks|] == chunks;
    }

    /**
     * Any number of grants, repeated or not, with other calls between the queries of the chunks. Whatever they do, only
     * artefacts of the filtered list at one of the queries are returned, and every artefact that stays as it is is
     * returned, once; when nothing changes, that is the filtered list, if rows are filed right.
     */
    method ListByGrantIds(grantIds: seq<string>, clocks: nat -> Clock)
      returns (result: seq<Artifact>, ghost tables: seq<Table>)
      modifies db`table
      ensures forall a :: a in result ==>
        exists i :: 0 <= i < |tables| && ListedAt(tables[i], name, a, Members(grantIds), clocks(i))
      ensures forall a, grant ::
        (grant in grantIds && Refers(a, Members(grantIds)) && StaysListed(tables, name, a, grant, clocks)) ==>
        multiset(result)[a] == 1
      ensures forall t, c :: Steady(tables, clocks, t, c) && GrantsIndexed(t, name, Members(grantIds), c) ==>
        multiset(result) == multiset(Referring(List(t, name, c), Members(grantIds)))
    {
      hide ListChunk, List, GrantsIndexed, Flatten, Referring, StaysListed, ListedAt;
      var wanted := Scopes.Dedup(grantIds);
      assert Members(wanted) == Members(grantIds);
      var chunks := Chunks(wanted);
      result, tables := [], [];
      for i := 0 to |chunks|
        invariant |tables| == i && result == ListUpTo(tables, name, chunks, Members(wanted), clocks, i)
      {
        db.Others();
        var found := SelectChunk(chunks[i], Members(wanted), clocks(i));
        ghost var before := tables;
        tables := tables + [db.table];
        SameUpTo(before, tables, name, chunks, Members(wanted), clocks, i);
        result := result + found;
      }
      ListedUpTo(tables, name, chunks, Members(wanted), clocks);
      SteadyListing(tables, name, chunks, Members(wanted), clocks);
      assert forall grant :: grant in grantIds <==> grant in wanted;
    }

    method SelectChunk(chunk: seq<string>, wanted: set<string>, c: Clock) returns (found: seq<Artifact>)
      ensures found == ListChunk(db.table, name, chunk, wanted, c)
    {
      hide Visible;
      var rows := SelectVisible(OfGrants(set g | g in chunk), c);
      found := Filtered(ToArtifacts(rows), OfAnyGrant(wanted));
    }
  }

  // Chunks read at different moments

  /** The answers of the first `n` queries, each on the table it met. */
  function ListUpTo(
      tables: seq<Table>, model: string, chunks: seq<seq<string>>, wanted: set<string>, clocks: nat -> Clock, n: nat)
    : seq<Artifact>
    requires n <= |tables| && n <= |chunks|
  {
    if n == 0 then []
    else
      ListUpTo(tables, model, chunks, wanted, clocks, n - 1)
        + ListChunk(tables[n - 1], model, chunks[n - 1], wanted, clocks(n - 1))
  }

  lemma {:induction false} SameUpTo(tables: seq<Table>, more: seq<Table>, model: string, chunks: seq<seq<string>>,
                                    wanted: set<string>, clocks: nat -> Clock, n: nat)
    requires n <= |tables| && n <= |chunks| && tables <= more
    ensures ListUpTo(tables, model, chunks, wanted, clocks, n) == ListUpTo(more, model, chunks, wanted, clocks, n)
  {
    hide ListChunk;
    if n > 0 { SameUpTo(tables, more, model, chunks, wanted, clocks, n - 1); }
  }

  /** In the list of the model and about a wanted grant. */
  ghost predicate ListedAt(t: Table, model: string, a: Artifact, wanted: set<string>, c: Clock) {
    a in List(t, model, c) && Refers(a, wanted)
  }

  /** Visible at every query, with this payload, filed under `grant`. */
  ghost predicate StaysListed(tables: seq<Table>, model: string, a: Artifact, grant: string, clocks: nat -> Clock) {
    forall i :: 0 <= i < |tables| ==> FiledAt(tables[i], model, a, grant, clocks(i))
  }

  ghost predicate FiledAt(t: Table, model: string, a: Artifact, grant: string, c: Clock) {
    a.id in Visible(t, model, Everything, c)
      && t[Key(model, a.id)].payload == a.payload && t[Key(model, a.id)].grantId == Some(grant)
  }

  ghost predicate Steady(tables: seq<Table>, clocks: nat -> Clock, t: Table, c: Clock) {
    forall i :: 0 <= i < |tables| ==> tables[i] == t && clocks(i) == c
  }

  lemma CountInChunk(t: Table, model: string, chunk: seq<string>, wanted: set<string>, c: Clock, a: Artifact,
      grant: string)
    requires FiledAt(t, model, a, grant, c) && Refers(a, wanted)
    ensures multiset(ListChunk(t, model, chunk, wanted, c))[a] == if grant in chunk then 1 else 0
  {
    ChunkMembers(t, model, chunk, wanted, c);
    SortedDistinct(ListChunk(t, model, chunk, wanted, c));
    CountOnce(ListChunk(t, model, chunk, wanted, c), a);
  }

  lemma ChunkIsListed(t: Table, model: string, chunk: seq<string>, wanted: set<string>, c: Clock)
    ensures forall a :: a in ListChunk(t, model, chunk, wanted, c) ==> ListedAt(t, model, a, wanted, c)
  {
    ChunkMembers(t, model, chunk, wanted, c);
    ListMembers(t, model, c);
  }

  lemma {:induction false} CountUpTo(tables: seq<Table>, model: string, chunks: seq<seq<string>>, wanted: set<string>,
                                     clocks: nat -> Clock, n: nat, a: Artifact, grant: string)
    requires n <= |tables| && n <= |chunks| && Scopes.Distinct(Flatten(chunks))
    requires StaysListed(tables, model, a, grant, clocks) && Refers(a, wanted)
    ensures multiset(ListUpTo(tables, model, chunks, wanted, clocks, n))[a] ==
      if grant in Flatten(chunks[..n]) then 1 else 0
  {
    hide ListChunk, FiledAt, Refers;
    if n == 0 {
      assert chunks[..0] == [];
    } else {
      CountUpTo(tables, model, chunks, wanted, clocks, n - 1, a, grant);
      CountInChunk(tables[n - 1], model, chunks[n - 1], wanted, clocks(n - 1), a, grant);
      assert chunks[..n] == chunks[..n - 1] + [chunks[n - 1]];
      FlattenSnoc(chunks[..n - 1], chunks[n - 1]);
      assert chunks == chunks[..n] + chunks[n..];
      FlattenAppend(chunks[..n], chunks[n..]);
      DistinctHead(Flatten(chunks[..n]), Flatten(chunks[n..]));
      DistinctTail(Flatten(chunks[..n - 1]), chunks[n - 1]);
    }
  }

  lemma {:induction false} FlattenAppend(xs: seq<seq<string>>, ys: seq<seq<string>>)
    ensures Flatten(xs + ys) == Flatten(xs) + Flatten(ys)
  {
    if xs == [] {
      assert xs + ys == ys;
    } else {
      assert (xs + ys)[1..] == xs[1..] + ys;
      FlattenAppend(xs[1..], ys);
    }
  }

  lemma DistinctHead(xs: seq<string>, ys: seq<string>)
    requires Scopes.Distinct(xs + ys)
    ensures Scopes.Distinct(xs)
  {
    assert forall i :: 0 <= i < |xs| ==> xs[i] == (xs + ys)[i];
  }

  lemma {:induction false} MembersUpTo(tables: seq<Table>, model: string, chunks: seq<seq<string>>, wanted: set<string>,
                                       clocks: nat -> Clock, n: nat, a: Artifact)
    requires n <= |tables| && n <= |chunks| && a in ListUpTo(tables, model, chunks, wanted, clocks, n)
    ensures exists i :: 0 <= i < |tables| && ListedAt(tables[i], model, a, wanted, clocks(i))
  {
    hide ListChunk, ListedAt;
    if a in ListUpTo(tables, model, chunks, wanted, clocks, n - 1) {
      MembersUpTo(tables, model, chunks, wanted, clocks, n - 1, a);
    } else {
      ChunkIsListed(tables[n - 1], model, chunks[n - 1], wanted, clocks(n - 1));
    }
  }

  /** What the queries together return, whatever happened between them. */
  lemma ListedUpTo(tables: seq<Table>, model: string, chunks: seq<seq<string>>, wanted: set<string>,
      clocks: nat -> Clock)
    requires |tables| == |chunks| && Scopes.Distinct(Flatten(chunks))
    ensures
      var result := ListUpTo(tables, model, chunks, wanted, clocks, |chunks|);
      && (forall a :: a in result ==> exists i :: 0 <= i < |tables| && ListedAt(tables[i], model, a, wanted, clocks(i)))
      && (forall a, grant ::
            grant in Flatten(chunks) && Refers(a, wanted) && StaysListed(tables, model, a, grant, clocks) ==>
            multiset(result)[a] == 1)
  {
    hide ListChunk, ListedAt, StaysListed, Refers;
    var result := ListUpTo(tables, model, chunks, wanted, clocks, |chunks|);
    assert chunks[..|chunks|] == chunks;
    forall a | a in result
      ensures exists i :: 0 <= i < |tables| && ListedAt(tables[i], model, a, wanted, clocks(i))
    {
      MembersUpTo(tables, model, chunks, wanted, clocks, |chunks|, a);
    }
    forall a, grant | grant in Flatten(chunks) && Refers(a, wanted) && StaysListed(tables, model, a, grant, clocks)
      ensures multiset(result)[a] == 1
    {
      CountUpTo(tables, model, chunks, wanted, clocks, |chunks|, a, grant);
    }
  }

  lemma {:induction false} SteadyUpTo(tables: seq<Table>, model: string, chunks: seq<seq<string>>, wanted: set<string>,
                                      clocks: nat -> Clock, n: nat, t: Table, c: Clock)
    requires n <= |tables| == |chunks| && Steady(tables, clocks, t, c)
    ensures ListUpTo(tables, model, chunks, wanted, clocks, n) + ListChunks(t, model, chunks[n..], wanted, c)
      == ListChunks(t, model, chunks, wanted, c)
  {
    hide ListChunk;
    if n > 0 {
      SteadyUpTo(tables, model, chunks, wanted, clocks, n - 1, t, c);
      assert chunks[n - 1..] == [chunks[n - 1]] + chunks[n..];
    }
  }

  /** When nothing changes, the filtered list. */
  lemma SteadyListing(tables: seq<Table>, model: string, chunks: seq<seq<string>>, wanted: set<string>,
      clocks: nat -> Clock)
    requires |tables| == |chunks| && Scopes.Distinct(Flatten(chunks)) && wanted == Members(Flatten(chunks))
    ensures forall t, c :: Steady(tables, clocks, t, c) && GrantsIndexed(t, model, wanted, c) ==>
      multiset(ListUpTo(tables, model, chunks, wanted, clocks, |chunks|)) ==
        multiset(Referring(List(t, model, c), wanted))
  {
    hide ListChunk, GrantsIndexed, List, Referring;
    forall t, c | Steady(tables, clocks, t, c) && GrantsIndexed(t, model, wanted, c)
      ensures multiset(ListUpTo(tables, model, chunks, wanted, clocks, |chunks|)) ==
        multiset(Referring(List(t, model, c), wanted))
    {
      SteadyUpTo(tables, model, chunks, wanted, clocks, |chunks|, t, c);
      assert ListChunks(t, model, [], wanted, c) == [];
      ListByGrantsExact(t, model, chunks, c);
    }
  }

  lemma {:induction false} FlattenIn(chunks: seq<seq<string>>, i: nat)
    requires i < |chunks|
    ensures forall id :: id in chunks[i] ==> id in Flatten(chunks)
  {
    if i > 0 {
      assert chunks[1..][i - 1] == chunks[i];
      FlattenIn(chunks[1..], i - 1);
    }
  }

  lemma OwnedByIndex(t: Table, model: string, account: string, c: Clock)
    ensures OwnedBy(Artifacts(t, model, OrderBy(Visible(t, model, OfAccount(account), c))), account)
      == PayloadTable.ListByAccount(t, model, account, c)
  {
  }
}
