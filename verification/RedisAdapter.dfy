/**
 * `RedisAdapter`. Keys live in one map per key family; a deadline is in whole seconds of the server's clock, and a key
 * that reaches it is removed by a step of the server, like any other change made by others.
 */
module RedisAdapters {
  import opened Wrappers
  import opened PayloadTable

  datatype Doc = Doc(payload: Payload, deadline: Option<int>)
  datatype Ref = Ref(id: string, deadline: Option<int>)
  datatype KeyList = KeyList(keys: seq<Key>, deadline: Option<int>)

  datatype Stored = Stored(
    docs: map<Key, Doc>, uids: map<string, Ref>, userCodes: map<string, Ref>, grants: map<string, KeyList>)

  predicate Grantable(model: string) {
    model in {"AccessToken", "AuthorizationCode", "RefreshToken", "DeviceCode", "BackchannelAuthenticationRequest"}
  }

  function DeadlineIn(seconds: int, at: int): Option<int> {
    if seconds != 0 then Some(at + seconds) else None
  }

  /** A JavaScript string that is present and not empty. */
  predicate Truthy(o: Option<string>) {
    o.Some? && o.value != ""
  }

  /** The `MULTI` of `upsert`. A list keeps its deadline when the new artefact has none. */
  function StoreDoc(s: Stored, key: Key, p: Payload, expiresIn: int, at: int): Stored {
    var deadline := DeadlineIn(expiresIn, at);
    var list := if p.grantId.Some? && p.grantId.value in s.grants then s.grants[p.grantId.value] else KeyList([], None);
    Stored(
      s.docs[key := Doc(p, deadline)],
      if key.model == "Session" && Truthy(p.uid) then s.uids[p.uid.value := Ref(key.id, deadline)] else s.uids,
      if Truthy(p.userCode) then s.userCodes[p.userCode.value := Ref(key.id, deadline)] else s.userCodes,
      if Grantable(key.model) && Truthy(p.grantId)
      then s.grants[p.grantId.value := KeyList(list.keys + [key], if deadline.Some? then deadline else list.deadline)]
      else s.grants)
  }

  predicate CanRenew(s: Stored, key: Key, read: Payload) {
    key in s.docs && s.docs[key].payload == read
  }

  /** The script of `renewSession`: compare the document with the one read, then write it and its uid reference. */
  function Renew(s: Stored, key: Key, read: Payload, nowSeconds: int, expiresIn: int, at: int): Stored {
    if CanRenew(s, key, read) then
      s.(docs := s.docs[key := Doc(read.(exp := Some((nowSeconds + expiresIn) as real)), Some(at + expiresIn))],
         uids := if Truthy(read.uid) then s.uids[read.uid.value := Ref(key.id, Some(at + expiresIn))] else s.uids)
    else s
  }

  /** The write of `consume`: what was read earlier, under what is left of its time to live. */
  function SetConsumed(s: Stored, key: Key, read: Payload, now: int, deadline: Option<int>): Stored {
    s.(docs := s.docs[key := Doc(read.(consumed := Some(now / 1000)), deadline)])
  }

  function Remove(s: Stored, keys: set<Key>): Stored {
    s.(docs := s.docs - keys)
  }

  /** One access of a call: what it found and what it left. */
  datatype Access = Access(before: Stored, after: Stored)

  /** What was read is stored, marked with the second of the clock and under the deadline read; nothing else differs. */
  ghost predicate MarksConsumed(a: Access, key: Key, read: Doc, now: int) {
    && a.after.docs.Keys == a.before.docs.Keys + {key}
    && (forall other :: other in a.before.docs && other != key ==> a.after.docs[other] == a.before.docs[other])
    && a.after.docs[key].payload.consumed == Some(now / 1000)
    && a.after.docs[key].payload.(consumed := read.payload.consumed) == read.payload
    && a.after.docs[key].deadline == read.deadline
    && a.after.(docs := a.before.docs) == a.before
  }

  /** One document's `exp` and deadline differ, and the reference under its own uid; nothing else. */
  ghost predicate ExtendsOnly(a: Access, key: Key) {
    && key in a.before.docs && a.after.docs.Keys == a.before.docs.Keys
    && (forall other :: other in a.before.docs && other != key ==> a.after.docs[other] == a.before.docs[other])
    && a.after.docs[key].payload.(exp := a.before.docs[key].payload.exp) == a.before.docs[key].payload
    && a.after.(docs := a.before.docs, uids := a.before.uids) == a.before
    && (forall uid :: uid in a.before.uids || uid in a.after.uids ==>
        || (uid in a.before.uids && uid in a.after.uids && a.after.uids[uid] == a.before.uids[uid])
        || (Some(uid) == a.before.docs[key].payload.uid && uid in a.after.uids && a.after.uids[uid].id == key.id))
  }

  predicate RememberedAt(p: Payload, seconds: int) {
    !p.transient && p.exp.Some? && p.exp.value > seconds as real
  }

  /** A compare-and-set that applied: over the document the read before it found, remembered, and extending it only. */
  ghost predicate Extends(reading: Access, writing: Access, key: Key, seconds: int, expiresIn: int) {
    && ExtendsOnly(writing, key) && key in reading.before.docs
    && writing.before.docs[key].payload == reading.before.docs[key].payload
    && RememberedAt(writing.before.docs[key].payload, seconds)
    && writing.after.docs[key].payload.exp == Some((seconds + expiresIn) as real)
  }

  ghost predicate Quiet(accesses: seq<Access>) {
    forall i :: 0 <= i < |accesses| ==> accesses[i].after == accesses[i].before
  }

  /** Only the last access of a call can write, right after the read it compares with, and it only extends. */
  ghost predicate RenewsAtOnePoint(accesses: seq<Access>, key: Key, now: seq<int>, expiresIn: int) {
    && |accesses| <= 7 && |now| == 3
    && forall i :: 0 <= i < |accesses| && accesses[i].after != accesses[i].before ==>
      && i == |accesses| - 1 && i % 2 == 1
      && Extends(accesses[i - 1], accesses[i], key, now[i / 2] / 1000, expiresIn)
  }

  /** At some access the session was stored and remembered, by a clock reading of the call. */
  ghost predicate WasLive(accesses: seq<Access>, key: Key, now: seq<int>, findNow: int)
    requires |now| == 3
  {
    exists i :: 0 <= i < |accesses| && LiveAt(accesses[i].before, i, key, now, findNow)
  }

  predicate LiveAt(s: Stored, i: nat, key: Key, now: seq<int>, findNow: int)
    requires |now| == 3
  {
    key in s.docs &&
    if i < 6 then RememberedAt(s.docs[key].payload, now[i / 2] / 1000) else Remembered(s.docs[key].payload, findNow)
  }

  /** What a round adds to the quiet rounds before it. */
  lemma RoundEnds(rounds: seq<Access>, k: nat, reading: Access, writing: Access, key: Key, now: seq<int>,
      expiresIn: int, findNow: int, ok: bool)
    requires k < 3 && |rounds| == 2 * k && |now| == 3 && Quiet(rounds) && reading.after == reading.before
    requires if ok then Extends(reading, writing, key, now[k] / 1000, expiresIn) else writing.after == writing.before
    ensures RenewsAtOnePoint(rounds + [reading, writing], key, now, expiresIn)
    ensures if ok then WasLive(rounds + [reading, writing], key, now, findNow) else Quiet(rounds + [reading, writing])
  {
    hide RememberedAt, Remembered;
    var all := rounds + [reading, writing];
    assert all[2 * k] == reading && all[2 * k + 1] == writing;
    assert forall i :: 0 <= i < 2 * k ==> all[i] == rounds[i];
    if ok {
      ExtendsStored(writing, key);
      assert LiveAt(all[2 * k + 1].before, 2 * k + 1, key, now, findNow);
    }
  }

  lemma ExtendsStored(a: Access, key: Key)
    requires ExtendsOnly(a, key)
    ensures key in a.before.docs && key in a.after.docs
  {
  }

  ghost predicate Undisturbed(accesses: seq<Access>) {
    forall i :: 0 <= i < |accesses| - 1 ==> accesses[i + 1].before == accesses[i].after
  }

  class Redis {
    var data: Stored

    constructor ()
      ensures data == Stored(map[], map[], map[], map[])
    {
      data := Stored(map[], map[], map[], map[]);
    }

    /** Other calls run and deadlines pass. */
    method Others()
      modifies this
    {
      data := *;
    }
  }

  class RedisAdapter {
    const name: string
    const redis: Redis

    constructor (name: string, redis: Redis)
      ensures this.name == name && this.redis == redis
    {
      this.name, this.redis := name, redis;
    }

    method Upsert(id: string, payload: Payload, expiresIn: int, at: int)
      modifies redis
      ensures redis.data == StoreDoc(old(redis.data), Key(name, id), payload, expiresIn, at)
    {
      var key, s := Key(name, id), redis.data;
      s := s.(docs := s.docs[key := Doc(payload, None)]);
      if Grantable(name) && Truthy(payload.grantId) {
        var g := payload.grantId.value;
        var list := if g in s.grants then s.grants[g] else KeyList([], None);
        list := list.(keys := list.keys + [key]);
        if expiresIn != 0 { list := list.(deadline := Some(at + expiresIn)); }
        s := s.(grants := s.grants[g := list]);
      }
      if Truthy(payload.userCode) {
        s := s.(userCodes := s.userCodes[payload.userCode.value := Ref(id, DeadlineIn(expiresIn, at))]);
      }
      if name == "Session" && Truthy(payload.uid) {
        s := s.(uids := s.uids[payload.uid.value := Ref(id, DeadlineIn(expiresIn, at))]);
      }
      if expiresIn != 0 {
        s := s.(docs := s.docs[key := Doc(payload, Some(at + expiresIn))]);
      }
      redis.data := s;
    }

    method FindById(id: string) returns (found: Option<Payload>)
      ensures found == if Key(name, id) in redis.data.docs then Some(redis.data.docs[Key(name, id)].payload) else None
    {
      var key := Key(name, id);
      if key in redis.data.docs {
        return Some(redis.data.docs[key].payload);
      }
      return None;
    }

    /** An id found under a uid is looked up again, so a reference whose document is gone finds nothing. */
    method FindByUid(uid: string) returns (found: Option<Payload>)
      ensures found.Some? <==> uid in redis.data.uids && Key(name, redis.data.uids[uid].id) in redis.data.docs
      ensures found.Some? ==> found.value == redis.data.docs[Key(name, redis.data.uids[uid].id)].payload
    {
      if uid !in redis.data.uids {
        return None;
      }
      found := FindById(redis.data.uids[uid].id);
    }

    method FindByUserCode(userCode: string) returns (found: Option<Payload>)
      ensures found.Some? <==>
        userCode in redis.data.userCodes && Key(name, redis.data.userCodes[userCode].id) in redis.data.docs
      ensures found.Some? ==> found.value == redis.data.docs[Key(name, redis.data.userCodes[userCode].id)].payload
    {
      if userCode !in redis.data.userCodes {
        return None;
      }
      found := FindById(redis.data.userCodes[userCode].id);
    }

    method Destroy(id: string)
      modifies redis
      ensures redis.data == Remove(old(redis.data), {Key(name, id)})
    {
      redis.data := redis.data.(docs := redis.data.docs - {Key(name, id)});
    }

    /** The read of `consume` and its write are two accesses; the write does not look again. */
    method Consume(id: string, now: int) returns (ghost accesses: seq<Access>)
      modifies redis
      ensures 1 <= |accesses| <= 2 && accesses[0].before == accesses[0].after == old(redis.data)
      ensures |accesses| == 2 <==> Key(name, id) in old(redis.data).docs
      ensures |accesses| == 2 ==>
        var read := old(redis.data).docs[Key(name, id)];
        && accesses[1].after == SetConsumed(accesses[1].before, Key(name, id), read.payload, now, read.deadline)
        && MarksConsumed(accesses[1], Key(name, id), read, now) && redis.data == accesses[1].after
    {
      var key := Key(name, id);
      accesses := [Access(redis.data, redis.data)];
      if key !in redis.data.docs {
        return;
      }
      var read := redis.data.docs[key];

      redis.Others();
      ghost var before := redis.data;
      redis.data := SetConsumed(redis.data, key, read.payload, now, read.deadline);
      accesses := accesses + [Access(before, redis.data)];
    }

    /** One round: a read, others running, the compare-and-set. `None` when the document changed in between. */
    method TryRenew(id: string, expiresIn: int, now: int, at: int)
      returns (outcome: Option<bool>, ghost reading: Access, ghost writing: Access)
      modifies redis
      ensures reading.after == reading.before
      ensures outcome == None ==> KeyOf(id) in reading.before.docs && writing.before != reading.after
      ensures outcome != Some(true) ==> writing.after == writing.before
      ensures outcome == Some(false) && writing.before == reading.after ==>
        !(KeyOf(id) in reading.before.docs && RememberedAt(reading.before.docs[KeyOf(id)].payload, now / 1000))
      ensures outcome == Some(true) ==>
        && Extends(reading, writing, KeyOf(id), now / 1000, expiresIn) && KeyOf(id) in reading.before.docs
        && RememberedAt(reading.before.docs[KeyOf(id)].payload, now / 1000)
        && redis.data == Renew(writing.before, KeyOf(id), reading.before.docs[KeyOf(id)].payload, now / 1000,
          expiresIn, at)
    {
      var key, seconds := Key(name, id), now / 1000;
      redis.Others();
      reading := Access(redis.data, redis.data);
      writing := reading;
      if key !in redis.data.docs {
        return Some(false), reading, writing;
      }
      var payload := redis.data.docs[key].payload;
      if !RememberedAt(payload, seconds) {
        return Some(false), reading, writing;
      }

      redis.Others();
      ghost var before := redis.data;
      var missing, same := key !in redis.data.docs, CanRenew(redis.data, key, payload);
      redis.data := Renew(redis.data, key, payload, seconds, expiresIn, at);
      writing := Access(before, redis.data);
      if missing || same {
        return Some(same), reading, writing;
      }
      return None, reading, writing;
    }

    ghost function KeyOf(id: string): Key {
      Key(name, id)
    }

    /**
     * `renewSession`, with others running between its accesses: at most three rounds of a read and a compare-and-set,
     * then one last look. `now` and `at` are the clock readings of each round, the client's and the server's.
     */
    method RenewSession(id: string, expiresIn: int, now: seq<int>, at: seq<int>, findNow: int)
      returns (ok: bool, ghost accesses: seq<Access>)
      requires |now| == |at| == 3
      modifies redis
      ensures RenewsAtOnePoint(accesses, KeyOf(id), now, expiresIn)
      ensures ok ==> WasLive(accesses, KeyOf(id), now, findNow)
      ensures !ok ==> Quiet(accesses)
      ensures ok ==> name == "Session" && 1 <= expiresIn <= MAX_SAFE_INTEGER
      ensures name == "Session" && 1 <= expiresIn <= MAX_SAFE_INTEGER ==> accesses != []
      ensures accesses != [] && Undisturbed(accesses) ==>
        (ok <==> (KeyOf(id) in accesses[0].before.docs
          && RememberedAt(accesses[0].before.docs[KeyOf(id)].payload, now[0] / 1000)))
        && (ok ==> redis.data == Renew(accesses[0].before, KeyOf(id), accesses[0].before.docs[KeyOf(id)].payload,
                                       now[0] / 1000, expiresIn, at[0]))
    {
      hide Extends, Renew, RememberedAt, Remembered, RenewsAtOnePoint, WasLive, Quiet;
      accesses := [];
      assert Quiet([]) by { NoneQuiet(); }
      QuietRenews([], KeyOf(id), now, expiresIn);
      if name != "Session" || expiresIn > MAX_SAFE_INTEGER || expiresIn < 1 {
        return false, [];
      }
      var attempt := 0;
      while attempt < 3
        invariant 0 <= attempt <= 3 && |accesses| == 2 * attempt && Quiet(accesses)
        invariant attempt > 0 ==> accesses[1].before != accesses[0].after
      {
        var outcome;
        ghost var reading, writing;
        outcome, reading, writing := TryRenew(id, expiresIn, now[attempt], at[attempt]);
        RoundEnds(accesses, attempt, reading, writing, KeyOf(id), now, expiresIn, findNow, outcome == Some(true));
        ghost var rounds := accesses;
        accesses := accesses + [reading, writing];
        assert accesses[2 * attempt] == reading && accesses[2 * attempt + 1] == writing;
        assert attempt > 0 ==> accesses[0] == rounds[0] && accesses[1] == rounds[1];
        assert Undisturbed(accesses) ==> attempt == 0 && writing.before == reading.after;
        if outcome.Some? {
          return outcome.value, accesses;
        }
        attempt := attempt + 1;
      }

      redis.Others();
      LastLook(accesses, redis.data, KeyOf(id), now, expiresIn, findNow);
      accesses := accesses + [Access(redis.data, redis.data)];
      assert accesses[1].before != accesses[0].after;
      var current := FindById(id);
      return current.Some? && Remembered(current.value, findNow), accesses;
    }
  }

  lemma NoneQuiet()
    ensures Quiet([])
  {
  }

  lemma QuietRenews(accesses: seq<Access>, key: Key, now: seq<int>, expiresIn: int)
    requires Quiet(accesses) && |accesses| <= 7 && |now| == 3
    ensures RenewsAtOnePoint(accesses, key, now, expiresIn)
  {
  }

  lemma LastLook(rounds: seq<Access>, s: Stored, key: Key, now: seq<int>, expiresIn: int, findNow: int)
    requires |rounds| == 6 && |now| == 3 && Quiet(rounds)
    ensures Quiet(rounds + [Access(s, s)]) && RenewsAtOnePoint(rounds + [Access(s, s)], key, now, expiresIn)
    ensures key in s.docs && Remembered(s.docs[key].payload, findNow) ==>
      WasLive(rounds + [Access(s, s)], key, now, findNow)
  {
    var all := rounds + [Access(s, s)];
    assert all[6] == Access(s, s);
    assert LiveAt(all[6].before, 6, key, now, findNow) <==> key in s.docs && Remembered(s.docs[key].payload, findNow);
  }
}
