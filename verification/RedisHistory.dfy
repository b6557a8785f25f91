/**
 * What Redis tells of its past: what an `upsert` leaves to be found, that what `consume` marked stays marked, and
 * where a reference by uid or user code leads.
 */
module RedisHistory {
  import opened Wrappers
  import opened PayloadTable
  import opened SessionRenewal
  import R = RedisAdapters

  /** The key, and every reference to it, goes after this many seconds; 0 is never. */
  predicate LastsFor(deadline: Option<int>, expiresIn: int, at: int) {
    if expiresIn == 0 then deadline == None else deadline == Some(at + expiresIn)
  }

  /** A reference leads to the id, and lasts as long as the document. */
  predicate RefersTo(refs: map<string, R.Ref>, value: Option<string>, id: string, expiresIn: int, at: int) {
    value.Some? && value.value != "" ==>
      value.value in refs && refs[value.value].id == id && LastsFor(refs[value.value].deadline, expiresIn, at)
  }

  /** What `upsert` stores is found by id and user code, a session by uid as well, and nothing else changes. */
  lemma UpsertIsFound(s: R.Stored, key: Key, p: Payload, expiresIn: int, at: int)
    ensures
      var s' := Perform(s, Upsert(key, p, expiresIn, at));
      && key in s'.docs && s'.docs[key].payload == p && LastsFor(s'.docs[key].deadline, expiresIn, at)
      && s'.docs.Keys == s.docs.Keys + {key}
      && (forall other :: other in s.docs && other != key ==> s'.docs[other] == s.docs[other])
      && RefersTo(s'.userCodes, p.userCode, key.id, expiresIn, at)
      && (forall code :: p.userCode != Some(code) ==> SameRef(s.userCodes, s'.userCodes, code))
      && (key.model == "Session" ==> RefersTo(s'.uids, p.uid, key.id, expiresIn, at))
      && (forall uid :: key.model != "Session" || p.uid != Some(uid) ==> SameRef(s.uids, s'.uids, uid))
  {
  }

  ghost predicate SameRef(refs: map<string, R.Ref>, refs': map<string, R.Ref>, value: string) {
    (value in refs <==> value in refs') && (value in refs ==> refs'[value] == refs[value])
  }

  /** Codes and tokens join the list of their grant, at the end; no other list changes. */
  lemma UpsertIsListed(s: R.Stored, key: Key, p: Payload, expiresIn: int, at: int)
    ensures
      var grants, grants' := s.grants, Perform(s, Upsert(key, p, expiresIn, at)).grants;
      var listed := {"AccessToken", "AuthorizationCode", "RefreshToken", "DeviceCode",
        "BackchannelAuthenticationRequest"};
      if key.model in listed && p.grantId.Some? && p.grantId.value != "" then
        var g := p.grantId.value;
        && g in grants' && grants'.Keys == grants.Keys + {g}
        && grants'[g].keys == (if g in grants then grants[g].keys else []) + [key]
        && (expiresIn != 0 ==> grants'[g].deadline == Some(at + expiresIn))
        && (expiresIn == 0 ==> grants'[g].deadline == if g in grants then grants[g].deadline else None)
        && forall other :: other in grants && other != g ==> grants'[other] == grants[other]
      else grants' == grants
  {
  }

  // Consumed

  predicate Consumes(c: Command, key: Key) {
    c.Consume? && c.key == key
  }

  predicate Upserts(c: Command, key: Key) {
    c.Upsert? && c.key == key
  }

  lemma CommandOnDoc(s: R.Stored, c: Command, key: Key)
    requires !Upserts(c, key) && key in Perform(s, c).docs
    ensures
      var payload := Perform(s, c).docs[key].payload;
      if Consumes(c, key) then
        payload.consumed == Some(c.now / 1000) && payload.(consumed := c.read.consumed) == c.read
      else key in s.docs && payload.(exp := s.docs[key].payload.exp) == s.docs[key].payload
  {
  }

  ghost predicate MarkedLast(cs: seq<Command>, m: nat, n: nat, key: Key, consumed: Option<int>)
    requires n <= |cs|
  {
    exists j :: m <= j < n && Consumes(cs[j], key) && consumed == Some(cs[j].now / 1000)
      && forall k :: j < k < n ==> !Consumes(cs[k], key)
  }

  /**
   * Over every run, between upserts of an artefact: it is marked consumed if and only if it was before or a `consume`
   * of it has run since, and then with the second of the last one, even if the document had gone in between.
   */
  lemma {:induction false} ConsumedStaysConsumed(ss: seq<R.Stored>, cs: seq<Command>, key: Key, m: nat, n: nat)
    requires IsRedisRun(ss, cs) && m <= n < |ss| && key in ss[n].docs
    requires forall j :: m <= j < n ==> !Upserts(cs[j], key)
    ensures
      if exists j :: m <= j < n && Consumes(cs[j], key)
      then MarkedLast(cs, m, n, key, ss[n].docs[key].payload.consumed)
      else key in ss[m].docs && ss[n].docs[key].payload.consumed == ss[m].docs[key].payload.consumed
    decreases n
  {
    hide Perform;
    if n > m {
      assert ss[n - 1 + 1] == Perform(ss[n - 1], cs[n - 1]);
      CommandOnDoc(ss[n - 1], cs[n - 1], key);
      if !Consumes(cs[n - 1], key) {
        ConsumedStaysConsumed(ss, cs, key, m, n - 1);
        if exists j :: m <= j < n && Consumes(cs[j], key) {
          var j :| m <= j < n - 1 && Consumes(cs[j], key)
            && ss[n - 1].docs[key].payload.consumed == Some(cs[j].now / 1000)
            && forall k :: j < k < n - 1 ==> !Consumes(cs[k], key);
          assert forall k :: j < k < n ==> !Consumes(cs[k], key);
        }
      }
    }
  }

  // References

  /** The command makes the uid lead to its document: an upsert of a session, or a renewal that applies. */
  predicate SetsUid(s: R.Stored, c: Command, uid: string) {
    match c
    case Upsert(key, payload, _, _) => key.model == "Session" && payload.uid == Some(uid)
    case Renewal(key, read, _, _, _) => key in s.docs && s.docs[key].payload == read && read.uid == Some(uid)
    case _ => false
  }

  predicate SetsUserCode(c: Command, userCode: string) {
    c.Upsert? && c.payload.userCode == Some(userCode)
  }

  lemma CommandOnRefs(s: R.Stored, c: Command, value: string)
    requires value != ""
    ensures
      var s' := Perform(s, c);
      && (value in s'.uids <==> SetsUid(s, c, value) || (value in s.uids && !(c.Lapsed? && value in c.uids)))
      && (value in s'.uids ==>
            if SetsUid(s, c, value) then s'.uids[value].id == c.key.id else s'.uids[value] == s.uids[value])
      && (value in s'.userCodes <==>
            SetsUserCode(c, value) || (value in s.userCodes && !(c.Lapsed? && value in c.userCodes)))
      && (value in s'.userCodes ==>
            if SetsUserCode(c, value) then s'.userCodes[value].id == c.key.id
            else s'.userCodes[value] == s.userCodes[value])
  {
  }

  /** Command `o` made the uid lead to `id`; since then no command has, and the reference has not lapsed. */
  ghost predicate UidSetLast(ss: seq<R.Stored>, cs: seq<Command>, n: nat, uid: string, id: string)
    requires |ss| == |cs| + 1 && n <= |cs|
  {
    exists o :: 0 <= o < n && SetsUid(ss[o], cs[o], uid) && cs[o].key.id == id
      && forall k :: o < k < n ==> !SetsUid(ss[k], cs[k], uid) && !(cs[k].Lapsed? && uid in cs[k].uids)
  }

  lemma UidSetOneMore(ss: seq<R.Stored>, cs: seq<Command>, n: nat, uid: string, id: string)
    requires |ss| == |cs| + 1 && 0 < n <= |cs|
    ensures UidSetLast(ss, cs, n, uid, id) <==>
      if SetsUid(ss[n - 1], cs[n - 1], uid) then cs[n - 1].key.id == id
      else UidSetLast(ss, cs, n - 1, uid, id) && !(cs[n - 1].Lapsed? && uid in cs[n - 1].uids)
  {
    if UidSetLast(ss, cs, n - 1, uid, id) && !SetsUid(ss[n - 1], cs[n - 1], uid)
        && !(cs[n - 1].Lapsed? && uid in cs[n - 1].uids) {
      var o :| 0 <= o < n - 1 && SetsUid(ss[o], cs[o], uid) && cs[o].key.id == id
        && forall k :: o < k < n - 1 ==> !SetsUid(ss[k], cs[k], uid) && !(cs[k].Lapsed? && uid in cs[k].uids);
      assert UidSetLast(ss, cs, n, uid, id);
    }
  }

  /** Over every run from the empty store: a uid leads to the session last stored or renewed under it. */
  lemma {:induction false} UidTellsLast(ss: seq<R.Stored>, cs: seq<Command>, n: nat, uid: string, id: string)
    requires IsRedisRun(ss, cs) && ss[0].uids == map[] && n < |ss| && uid != ""
    ensures uid in ss[n].uids && ss[n].uids[uid].id == id <==> UidSetLast(ss, cs, n, uid, id)
  {
    if n > 0 {
      hide Perform, UidSetLast;
      UidTellsLast(ss, cs, n - 1, uid, id);
      assert ss[n - 1 + 1] == Perform(ss[n - 1], cs[n - 1]);
      CommandOnRefs(ss[n - 1], cs[n - 1], uid);
      UidSetOneMore(ss, cs, n, uid, id);
    }
  }

  ghost predicate UserCodeSetLast(cs: seq<Command>, n: nat, userCode: string, id: string)
    requires n <= |cs|
  {
    exists o :: 0 <= o < n && SetsUserCode(cs[o], userCode) && cs[o].key.id == id
      && forall k :: o < k < n ==> !SetsUserCode(cs[k], userCode) && !(cs[k].Lapsed? && userCode in cs[k].userCodes)
  }

  /** And a user code to the artefact last stored under it. */
  lemma {:induction false} UserCodeTellsLast(
      ss: seq<R.Stored>, cs: seq<Command>, n: nat, userCode: string, id: string)
    requires IsRedisRun(ss, cs) && ss[0].userCodes == map[] && n < |ss| && userCode != ""
    ensures userCode in ss[n].userCodes && ss[n].userCodes[userCode].id == id <==>
      UserCodeSetLast(cs, n, userCode, id)
  {
    hide Perform;
    if n > 0 {
      UserCodeTellsLast(ss, cs, n - 1, userCode, id);
      assert ss[n - 1 + 1] == Perform(ss[n - 1], cs[n - 1]);
      CommandOnRefs(ss[n - 1], cs[n - 1], userCode);
      if UserCodeSetLast(cs, n - 1, userCode, id) && !SetsUserCode(cs[n - 1], userCode)
          && userCode in ss[n].userCodes {
        var o :| 0 <= o < n - 1 && SetsUserCode(cs[o], userCode) && cs[o].key.id == id
          && forall k :: o < k < n - 1 ==>
            !SetsUserCode(cs[k], userCode) && !(cs[k].Lapsed? && userCode in cs[k].userCodes);
        assert UserCodeSetLast(cs, n, userCode, id);
      }
    }
  }

  /**
   * A renewal in Redis tests in whole seconds what the database tests in milliseconds: it gives a session up at most a
   * second later, and never sooner.
   */
  lemma RemembersBySecond(p: Payload, now: int)
    ensures R.RememberedAt(p, now / 1000) <==> Remembered(p, now - now % 1000)
    ensures Remembered(p, now) ==> R.RememberedAt(p, now / 1000)
  {
    assert (now - now % 1000) as real / 1000.0 == (now / 1000) as real;
  }

  /** A renewal extends exactly a document that is still what was read, together with the reference under its uid. */
  lemma RenewalExtendsExactly(s: R.Stored, key: Key, read: Payload, now: int, expiresIn: int, at: int)
    ensures
      var s' := Perform(s, Renewal(key, read, now, expiresIn, at));
      if key in s.docs && s.docs[key].payload == read then
        && key in s'.docs && s'.docs[key].payload.exp == Some((now / 1000 + expiresIn) as real)
        && s'.docs[key].deadline == Some(at + expiresIn)
        && (read.uid.Some? && read.uid.value != "" ==>
              read.uid.value in s'.uids && s'.uids[read.uid.value] == R.Ref(key.id, Some(at + expiresIn)))
      else s' == s
  {
  }
}
