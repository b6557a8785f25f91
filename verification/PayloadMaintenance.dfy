/**
 * The two things the adapter does to the table on the side, deleting expired rows and labelling rows whose
 * `account_id` is NULL, change no answer: the same later operations answer alike with or without them.
 */
module PayloadMaintenance {
  import opened Wrappers
  import opened PayloadTable
  import opened PayloadIndex
  import opened PayloadRuns
  import IsoTimestamp

  datatype Query =
    | FindQuery(key: Key, now: int)
    | ListQuery(model: string, c: Clock)
    | AccountQuery(model: string, c: Clock, account: string)
    | GrantsQuery(model: string, c: Clock, chunks: seq<seq<string>>)

  datatype Answer = One(found: Option<Payload>) | Many(listed: seq<Artifact>) | Wrote(applied: bool)

  datatype Op = Read(query: Query) | Write(step: Step)

  function Ask(t: Table, q: Query): Answer {
    match q
    case FindQuery(key, now) => One(Find(t, key, now))
    case ListQuery(model, c) => Many(List(t, model, c))
    case AccountQuery(model, c, account) => Many(ListByAccount(t, model, account, c))
    case GrantsQuery(model, c, chunks) => Many(ListChunks(t, model, chunks, Members(Flatten(chunks)), c))
  }

  /** A write answers whether its compare-and-set applied; the others always apply. */
  function Reply(t: Table, text: bool, op: Op): Answer {
    match op
    case Read(q) => Ask(t, q)
    case Write(Renewed(key, read, now, _)) => Wrote(Renewable(t, text, key, read, now))
    case Write(_) => Wrote(true)
  }

  function After(t: Table, text: bool, op: Op): Table {
    match op
    case Read(_) => t
    case Write(step) => Apply(t, text, step)
  }

  /** The answers of a sequence of operations started on `t`. */
  function Play(t: Table, text: bool, ops: seq<Op>): (answers: seq<Answer>)
    ensures |answers| == |ops|
    decreases ops
  {
    if ops == [] then [] else [Reply(t, text, ops[0])] + Play(After(t, text, ops[0]), text, ops[1..])
  }

  // Pruning

  /** Every clock reading of the operation is at or after `at`; on SQLite it is in the years 0 to 9999. */
  predicate NotBefore(op: Op, text: bool, at: int) {
    match op
    case Read(FindQuery(_, now)) => at <= now
    case Read(q) => at <= q.c.js
    case Write(Renewed(_, _, now, _)) => at <= now && (text ==> IsoTimestamp.InFourDigitYears(now))
    case Write(_) => true
  }

  ghost predicate AllNotBefore(ops: seq<Op>, text: bool, at: int) {
    forall i :: 0 <= i < |ops| ==> NotBefore(ops[i], text, at)
  }

  /** `u` is `t` without some rows that have expired at `at`. */
  ghost predicate Shrunk(t: Table, u: Table, at: int) {
    && (forall key :: key in u ==> key in t && u[key] == t[key])
    && (forall key :: key in t && key !in u ==> !Unexpired(t[key], at))
  }

  lemma ShrunkVisible(t: Table, u: Table, at: int, model: string, w: Where, c: Clock)
    requires Shrunk(t, u, at) && at <= c.js
    ensures Visible(t, model, w, c) == Visible(u, model, w, c)
    ensures Artifacts(t, model, OrderBy(Visible(t, model, w, c))) ==
      Artifacts(u, model, OrderBy(Visible(t, model, w, c)))
  {
    assert forall id :: id in Visible(t, model, w, c) <==> id in Visible(u, model, w, c);
  }

  lemma {:induction false} ShrunkChunks(
      t: Table, u: Table, at: int, model: string, chunks: seq<seq<string>>, wanted: set<string>, c: Clock)
    requires Shrunk(t, u, at) && at <= c.js
    ensures ListChunks(t, model, chunks, wanted, c) == ListChunks(u, model, chunks, wanted, c)
  {
    hide Visible, Shrunk;
    if chunks != [] {
      ShrunkVisible(t, u, at, model, OfGrants(set g | g in chunks[0]), c);
      ShrunkChunks(t, u, at, model, chunks[1..], wanted, c);
    }
  }

  lemma ShrunkAnswers(t: Table, u: Table, at: int, q: Query)
    requires Shrunk(t, u, at) && NotBefore(Read(q), false, at)
    ensures Ask(t, q) == Ask(u, q)
  {
    match q
    case FindQuery(key, now) =>
    case ListQuery(model, c) => ShrunkVisible(t, u, at, model, Everything, c);
    case AccountQuery(model, c, account) => ShrunkVisible(t, u, at, model, OfAccount(account), c);
    case GrantsQuery(model, c, chunks) => ShrunkChunks(t, u, at, model, chunks, Members(Flatten(chunks)), c);
  }

  /** An expired row is not live in SQL either. */
  lemma ExpiredNotLive(row: Row, at: int, text: bool, now: int)
    requires !Unexpired(row, at) && at <= now && (text ==> IsoTimestamp.InFourDigitYears(now))
    ensures !SqlLive(row, Clock(text, now, now))
  {
    hide IsoTimestamp.FieldsOf, IsoTimestamp.Iso;
    if text {
      IsoTimestamp.TextTestsAreNumeric(row.expiresAt.value, now);
      IsoTimestamp.YearsFollowDays(row.expiresAt.value, now);
    }
  }

  lemma ShrunkRenewable(t: Table, u: Table, at: int, text: bool, key: Key, read: Payload, now: int)
    requires Shrunk(t, u, at) && at <= now && (text ==> IsoTimestamp.InFourDigitYears(now))
    ensures Renewable(t, text, key, read, now) == Renewable(u, text, key, read, now)
    ensures Renewable(t, text, key, read, now) ==> key in u
  {
    hide SqlLive;
    if key in t && key !in u { ExpiredNotLive(t[key], at, text, now); }
  }

  lemma ShrunkOverwrites(t: Table, u: Table, at: int, key: Key, p: Payload, expiresAt: Option<int>)
    requires Shrunk(t, u, at)
    ensures Shrunk(Put(t, key, p, expiresAt), Put(u, key, p, expiresAt), at)
    ensures Shrunk(SetPayload(t, key, p), SetPayload(u, key, p), at)
  {
    hide RowFor;
  }

  lemma ShrunkRenewal(t: Table, u: Table, at: int, text: bool, key: Key, read: Payload, now: int, expiresIn: int)
    requires Shrunk(t, u, at) && at <= now && (text ==> IsoTimestamp.InFourDigitYears(now))
    ensures Shrunk(Renew(t, text, key, read, now, expiresIn), Renew(u, text, key, read, now, expiresIn), at)
  {
    hide Renewable, RenewedRow;
    ShrunkRenewable(t, u, at, text, key, read, now);
    RenewableStored(t, text, key, read, now);
    RenewableStored(u, text, key, read, now);
  }

  lemma RenewableStored(t: Table, text: bool, key: Key, read: Payload, now: int)
    ensures Renewable(t, text, key, read, now) ==> key in t
  {
  }

  lemma ShrunkDeletes(t: Table, u: Table, at: int, key: Key, grant: string, text: bool, now: int)
    requires Shrunk(t, u, at)
    ensures Shrunk(Delete(t, key), Delete(u, key), at)
    ensures Shrunk(DeleteByGrant(t, grant), DeleteByGrant(u, grant), at)
    ensures Shrunk(Prune(t, text, now), Prune(u, text, now), at)
  {
    hide Prunes;
  }

  lemma ShrunkClassifies(t: Table, u: Table, at: int, model: string, account: string, ids: seq<string>)
    requires Shrunk(t, u, at)
    ensures Shrunk(Classify(t, model, account, ids), Classify(u, model, account, ids), at)
  {
  }

  lemma ShrunkStep(t: Table, u: Table, at: int, text: bool, step: Step)
    requires Shrunk(t, u, at) && NotBefore(Write(step), text, at)
    ensures Shrunk(Apply(t, text, step), Apply(u, text, step), at)
  {
    hide Shrunk, Put, SetPayload, Renew, Delete, DeleteByGrant, Prune, Classify;
    match step
    case Upserted(key, payload, expiresAt) => ShrunkOverwrites(t, u, at, key, payload, expiresAt);
    case Consumed(key, read, now) => ShrunkOverwrites(t, u, at, key, ConsumedPayload(read, now), None);
    case Renewed(key, read, now, expiresIn) => ShrunkRenewal(t, u, at, text, key, read, now, expiresIn);
    case Destroyed(key) => ShrunkDeletes(t, u, at, key, "", text, 0);
    case RevokedGrant(grant) => ShrunkDeletes(t, u, at, Key("", ""), grant, text, 0);
    case Pruned(now) => ShrunkDeletes(t, u, at, Key("", ""), "", text, now);
    case Classified(model, account, ids) => ShrunkClassifies(t, u, at, model, account, ids);
  }

  lemma {:induction false} ShrunkPlay(t: Table, u: Table, at: int, text: bool, ops: seq<Op>)
    requires Shrunk(t, u, at) && AllNotBefore(ops, text, at)
    ensures Play(t, text, ops) == Play(u, text, ops)
    decreases ops
  {
    hide Ask, Apply, Renewable, Shrunk;
    if ops != [] {
      assert NotBefore(ops[0], text, at);
      match ops[0] {
        case Read(q) => ShrunkAnswers(t, u, at, q);
        case Write(step) =>
          ShrunkStep(t, u, at, text, step);
          if step.Renewed? { ShrunkRenewable(t, u, at, text, step.key, step.read, step.now); }
      }
      ShrunkPlay(After(t, text, ops[0]), After(u, text, ops[0]), at, text, ops[1..]);
    }
  }

  /** The pruner deletes only rows that have expired as instants. */
  ghost predicate PrunesExpiredOnly(t: Table, text: bool, at: int) {
    forall key :: key in t && Prunes(t[key], text, at) ==> !Unexpired(t[key], at)
  }

  /**
   * A prune at `at`, anywhere in a run whose clock does not go back, changes no later answer, whatever the later
   * operations are, if and only if it deletes only rows that have expired.
   */
  lemma PruneInvisible(t: Table, text: bool, at: int)
    ensures (forall ops | AllNotBefore(ops, text, at) :: Play(Prune(t, text, at), text, ops) == Play(t, text, ops))
      <==> PrunesExpiredOnly(t, text, at)
  {
    hide Prunes;
    if PrunesExpiredOnly(t, text, at) {
      assert Shrunk(t, Prune(t, text, at), at);
      forall ops | AllNotBefore(ops, text, at)
        ensures Play(Prune(t, text, at), text, ops) == Play(t, text, ops)
      {
        ShrunkPlay(t, Prune(t, text, at), at, text, ops);
      }
    } else {
      var key :| key in t && Prunes(t[key], text, at) && Unexpired(t[key], at);
      var ops := [Read(FindQuery(key, at))];
      assert AllNotBefore(ops, text, at);
      assert Play(t, text, ops)[0] == One(Some(t[key].payload)) && Play(Prune(t, text, at), text, ops)[0] == One(None);
    }
  }

  /** It always does so off SQLite, and on SQLite as long as no expiry is past the year 9999. */
  lemma PrunesExpiredOnlyWhen(t: Table, text: bool, at: int)
    requires text ==> IsoTimestamp.InFourDigitYears(at)
    requires text ==> forall key :: key in t && t[key].expiresAt.Some? ==> t[key].expiresAt.value < 253_402_300_800_000
    ensures PrunesExpiredOnly(t, text, at)
  {
    hide IsoTimestamp.FieldsOf, IsoTimestamp.Iso;
    forall key | key in t && Prunes(t[key], text, at)
      ensures !Unexpired(t[key], at)
    {
      if text {
        IsoTimestamp.TextTestsAreNumeric(t[key].expiresAt.value, at);
        IsoTimestamp.FourDigitYearsAre(t[key].expiresAt.value);
      }
    }
  }

  ghost predicate UniqueUid(t: Table, model: string, uid: string) {
    forall k, l :: k in t && l in t && k.model == model && l.model == model && t[k].uid == t[l].uid == Some(uid) ==>
      k == l
  }

  ghost predicate UniqueUserCode(t: Table, model: string, code: string) {
    forall k, l :: k in t && l in t && k.model == model && l.model == model
      && t[k].userCode == t[l].userCode == Some(code)
      ==> k == l
  }

  /** The table after a sequence of operations. */
  function AfterAll(t: Table, text: bool, ops: seq<Op>): Table
    decreases ops
  {
    if ops == [] then t else AfterAll(After(t, text, ops[0]), text, ops[1..])
  }

  lemma {:induction false} ShrunkAfterAll(t: Table, u: Table, at: int, text: bool, ops: seq<Op>)
    requires Shrunk(t, u, at) && AllNotBefore(ops, text, at)
    ensures Shrunk(AfterAll(t, text, ops), AfterAll(u, text, ops), at)
    decreases ops
  {
    hide Apply, Shrunk;
    if ops != [] {
      assert NotBefore(ops[0], text, at);
      if ops[0].Write? { ShrunkStep(t, u, at, text, ops[0].step); }
      ShrunkAfterAll(After(t, text, ops[0]), After(u, text, ops[0]), at, text, ops[1..]);
    }
  }

  /**
   * Look-ups by uid or user code are unaffected too, at any later moment of any run, when the value is then unique in
   * the model, whichever row `first()` picks.
   */
  lemma PruneInvisibleToFirst(
      t: Table, text: bool, at: int, ops: seq<Op>, model: string, value: string, first: Option<string>,
      first': Option<string>, now: int)
    requires PrunesExpiredOnly(t, text, at) && AllNotBefore(ops, text, at) && at <= now
    ensures
      var u, v := AfterAll(t, text, ops), AfterAll(Prune(t, text, at), text, ops);
      && ((UniqueUid(u, model, value)
            && IsFirstByUid(u, model, value, first) && IsFirstByUid(v, model, value, first')) ==>
            FoundFirst(u, model, first, now) == FoundFirst(v, model, first', now))
      && ((UniqueUserCode(u, model, value)
            && IsFirstByUserCode(u, model, value, first) && IsFirstByUserCode(v, model, value, first')) ==>
            FoundFirst(u, model, first, now) == FoundFirst(v, model, first', now))
  {
    hide Prunes, AfterAll, Apply;
    assert Shrunk(t, Prune(t, text, at), at);
    ShrunkAfterAll(t, Prune(t, text, at), at, text, ops);
    ShrunkFirst(AfterAll(t, text, ops), AfterAll(Prune(t, text, at), text, ops), at, model, value, first, first', now);
  }

  lemma ShrunkFirst(t: Table, u: Table, at: int, model: string, value: string, first: Option<string>,
                    first': Option<string>, now: int)
    requires Shrunk(t, u, at) && at <= now
    ensures
      (UniqueUid(t, model, value) && IsFirstByUid(t, model, value, first) && IsFirstByUid(u, model, value, first')) ==>
      FoundFirst(t, model, first, now) == FoundFirst(u, model, first', now)
    ensures
      (UniqueUserCode(t, model, value)
        && IsFirstByUserCode(t, model, value, first) && IsFirstByUserCode(u, model, value, first')) ==>
      FoundFirst(t, model, first, now) == FoundFirst(u, model, first', now)
  {
  }

  /** With a repeated uid an expired row can hide a live one until it is pruned. */
  lemma SharedUidShows()
    ensures exists t: Table ::
      && PrunesExpiredOnly(t, false, 10)
      && IsFirstByUid(t, "Session", "u", Some("a")) && FoundFirst(t, "Session", Some("a"), 10) == None
      && IsFirstByUid(Prune(t, false, 10), "Session", "u", Some("b"))
      && FoundFirst(Prune(t, false, 10), "Session", Some("b"), 10) != None
  {
    var a, b := Key("Session", "a"), Key("Session", "b");
    var p := PLAIN.(uid := Some("u"));
    var t: Table := map[a := RowFor(p, Some(5)), b := RowFor(p, Some(20))];
    assert a in t && b in t && b in Prune(t, false, 10);
  }

  /**
   * Inside one `upsert`, between its look-up and its write, a prune does show: the write is an `UPDATE` if the look-up
   * found a row, and the new payload is stored exactly unless the prune deleted that row.
   */
  lemma PruneInsideUpsert(t: Table, text: bool, at: int, key: Key, p: Payload, expiresAt: Option<int>)
    ensures
      var found := key in t;
      var later := Prune(t, text, at);
      var written := if found && key !in later then later else Put(later, key, p, expiresAt);
      (key in written && written[key] == RowFor(p, expiresAt)) <==> !(key in t && Prunes(t[key], text, at))
  {
    hide Prunes;
  }

  // When prunes start

  const PRUNE_INTERVAL_MS := 600_000

  /** The instants, among the clock readings of the successive upserts of one connection, at which a prune starts. */
  function Starts(nextPruneAt: int, readings: seq<int>): seq<int>
    decreases readings
  {
    if readings == [] then []
    else if nextPruneAt > readings[0] then Starts(nextPruneAt, readings[1..])
    else [readings[0]] + Starts(readings[0] + PRUNE_INTERVAL_MS, readings[1..])
  }

  lemma {:induction false} StartsAfter(nextPruneAt: int, readings: seq<int>, now: int)
    ensures
      var was := Starts(nextPruneAt, readings);
      Starts(nextPruneAt, readings + [now]) ==
        if now >= (if was == [] then nextPruneAt else was[|was| - 1] + PRUNE_INTERVAL_MS) then was + [now] else was
    decreases readings
  {
    if readings == [] {
      assert readings + [now] == [now];
      assert Starts(now + PRUNE_INTERVAL_MS, []) == [];
    } else {
      assert (readings + [now])[1..] == readings[1..] + [now];
      StartsAfter(if nextPruneAt > readings[0] then nextPruneAt
        else readings[0] + PRUNE_INTERVAL_MS, readings[1..], now);
    }
  }

  /** An upsert starts a prune exactly if it is the first one, or the last start is ten minutes ago, by its clock. */
  lemma StartsWhenDue(readings: seq<int>, now: int)
    requires now >= 0
    ensures
      var was := Starts(0, readings);
      Starts(0, readings + [now]) ==
        if was == [] || now >= was[|was| - 1] + 600_000 then was + [now] else was
  {
    StartsAfter(0, readings, now);
  }

  /** Any two prunes of one connection start at least the interval apart, even if the clock jumps about. */
  lemma {:induction false} StartsSpaced(nextPruneAt: int, readings: seq<int>)
    ensures forall i :: 0 <= i < |Starts(nextPruneAt, readings)| ==> nextPruneAt <= Starts(nextPruneAt, readings)[i]
    ensures forall i, j :: 0 <= i < j < |Starts(nextPruneAt, readings)| ==>
      Starts(nextPruneAt, readings)[i] + PRUNE_INTERVAL_MS <= Starts(nextPruneAt, readings)[j]
    decreases readings
  {
    if readings != [] {
      if nextPruneAt > readings[0] {
        StartsSpaced(nextPruneAt, readings[1..]);
      } else {
        StartsSpaced(readings[0] + PRUNE_INTERVAL_MS, readings[1..]);
      }
    }
  }

  // Backfill

  /** The rows `listByAccount` reads with a NULL label and labels, whichever account was asked for. */
  predicate Backfills(t: Table, model: string, c: Clock, key: Key)
    requires key in t
  {
    key.model == model && SqlLive(t[key], c) && Unexpired(t[key], c.js) && t[key].accountId.None?
      && LabelOf(t[key].payload).Some?
  }

  function Backfill(t: Table, model: string, c: Clock): Table {
    map key | key in t :: if Backfills(t, model, c, key) then t[key].(accountId := LabelOf(t[key].payload)) else t[key]
  }

  /** Any part of that labelling: an `UPDATE` that fails is skipped. */
  ghost predicate PartlyBackfilled(t: Table, u: Table, model: string, c: Clock) {
    && t.Keys == u.Keys
    && forall key :: key in t ==> u[key] == t[key] || u[key] == Backfill(t, model, c)[key]
  }

  predicate SameButLabel(a: Row, b: Row) {
    a.(accountId := None) == b.(accountId := None)
  }

  /** Equal but for the labels, and every label is right on both sides. */
  ghost predicate Relabelled(t: Table, u: Table, owner: Key -> string) {
    && t.Keys == u.Keys
    && (forall key :: key in t ==> SameButLabel(t[key], u[key]))
    && Follows(t, owner) && Follows(u, owner)
  }

  lemma RelabelledVisible(t: Table, u: Table, owner: Key -> string, model: string, w: Where, c: Clock)
    requires Relabelled(t, u, owner) && !w.OfAccount?
    ensures Visible(t, model, w, c) == Visible(u, model, w, c)
    ensures Artifacts(t, model, OrderBy(Visible(t, model, w, c))) ==
      Artifacts(u, model, OrderBy(Visible(t, model, w, c)))
  {
    forall id
      ensures id in Visible(t, model, w, c) <==> id in Visible(u, model, w, c)
    {
      if Key(model, id) in t { assert SameButLabel(t[Key(model, id)], u[Key(model, id)]); }
    }
  }

  lemma {:induction false} RelabelledChunks(
      t: Table, u: Table, owner: Key -> string, model: string, chunks: seq<seq<string>>, wanted: set<string>, c: Clock)
    requires Relabelled(t, u, owner)
    ensures ListChunks(t, model, chunks, wanted, c) == ListChunks(u, model, chunks, wanted, c)
  {
    hide Visible, Relabelled;
    if chunks != [] {
      RelabelledVisible(t, u, owner, model, OfGrants(set g | g in chunks[0]), c);
      RelabelledChunks(t, u, owner, model, chunks[1..], wanted, c);
    }
  }

  lemma RelabelledAnswers(t: Table, u: Table, owner: Key -> string, q: Query)
    requires Relabelled(t, u, owner)
    ensures Ask(t, q) == Ask(u, q)
  {
    match q
    case FindQuery(key, now) =>
    case ListQuery(model, c) => RelabelledVisible(t, u, owner, model, Everything, c);
    case AccountQuery(model, c, account) =>
      ListByAccountExact(t, model, account, c);
      ListByAccountExact(u, model, account, c);
      RelabelledVisible(t, u, owner, model, Everything, c);
    case GrantsQuery(model, c, chunks) => RelabelledChunks(t, u, owner, model, chunks, Members(Flatten(chunks)), c);
  }

  lemma SameTests(a: Row, b: Row, text: bool, now: int)
    requires SameButLabel(a, b)
    ensures SqlLive(a, Clock(text, now, now)) == SqlLive(b, Clock(text, now, now))
    ensures Prunes(a, text, now) == Prunes(b, text, now)
  {
  }

  lemma RelabelledStep(t: Table, u: Table, owner: Key -> string, text: bool, step: Step)
    requires Relabelled(t, u, owner) && StepCarries(step, owner)
    ensures Relabelled(Apply(t, text, step), Apply(u, text, step), owner)
    ensures step.Renewed? ==>
      Renewable(t, text, step.key, step.read, step.now) == Renewable(u, text, step.key, step.read, step.now)
  {
    hide SqlLive, Prunes, Follows, StepCarries;
    StepFollows(t, step, text, owner);
    StepFollows(u, step, text, owner);
    match step
    case Pruned(at) =>
      forall key | key in t
        ensures Prunes(t[key], text, at) == Prunes(u[key], text, at)
      {
        SameTests(t[key], u[key], text, at);
      }
    case Renewed(key, _, now, _) =>
      if key in t { SameTests(t[key], u[key], text, now); }
    case _ =>
  }

  ghost predicate AllCarry(ops: seq<Op>, owner: Key -> string) {
    forall i :: 0 <= i < |ops| && ops[i].Write? ==> StepCarries(ops[i].step, owner)
  }

  lemma {:induction false} RelabelledPlay(t: Table, u: Table, owner: Key -> string, text: bool, ops: seq<Op>)
    requires Relabelled(t, u, owner) && AllCarry(ops, owner)
    ensures Play(t, text, ops) == Play(u, text, ops)
    decreases ops
  {
    hide Ask, Apply, Renewable, Relabelled, StepCarries;
    if ops != [] {
      match ops[0] {
        case Read(q) => RelabelledAnswers(t, u, owner, q);
        case Write(step) => RelabelledStep(t, u, owner, text, step);
      }
      RelabelledPlay(After(t, text, ops[0]), After(u, text, ops[0]), owner, text, ops[1..]);
    }
  }

  /** The labelling one `listByAccount` does changes no later answer for any account, nor any other answer. */
  lemma BackfillInvisible(t: Table, u: Table, owner: Key -> string, model: string, c: Clock, text: bool, ops: seq<Op>)
    requires PartlyBackfilled(t, u, model, c)
    requires Follows(t, owner) && AllCarry(ops, owner)
    ensures Play(u, text, ops) == Play(t, text, ops)
  {
    hide SqlLive;
    assert Relabelled(t, u, owner);
    RelabelledPlay(t, u, owner, text, ops);
  }
}
