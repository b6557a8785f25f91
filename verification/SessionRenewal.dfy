/**
 * Renewals among everything else that happens to a store, over whole runs. In the database nothing but an upsert brings
 * an id back; in Redis a late `consume` does too, but never a renewal.
 */
module SessionRenewal {
  import opened Wrappers
  import opened PayloadTable
  import D = PayloadRuns
  import R = RedisAdapters

  // Database

  /** A destroyed session stays destroyed, however many renewals had already read it, until it is upserted. */
  lemma {:induction false} NeverResurrected(ts: seq<Table>, steps: seq<D.Step>, text: bool, key: Key, d: nat, n: nat)
    requires D.IsRun(ts, steps, text)
    requires d <= n < |ts| && key !in ts[d]
    requires forall j :: d <= j < n && steps[j].Upserted? ==> steps[j].key != key
    ensures key !in ts[n]
    decreases n
  {
    hide D.Apply, D.Informed;
    if n > d {
      NeverResurrected(ts, steps, text, key, d, n - 1);
      assert ts[n - 1 + 1] == D.Apply(ts[n - 1], text, steps[n - 1]);
      D.StepAddsOnlyUpserts(ts[n - 1], text, steps[n - 1]);
    }
  }

  /** Equal but for `exp` and the expiry. */
  predicate SameButExpiry(a: Row, b: Row) {
    a.(expiresAt := b.expiresAt, payload := a.payload.(exp := b.payload.exp)) == b
  }

  /** A step that may change a row other than by renewing or removing it. */
  predicate Rewrites(step: D.Step, key: Key) {
    match step
    case Upserted(k, _, _) => k == key
    case Consumed(k, _, _) => k == key
    case Classified(model, _, ids) => model == key.model && key.id in ids
    case _ => false
  }

  lemma StepKeepsRow(t: Table, text: bool, step: D.Step, key: Key)
    requires !Rewrites(step, key)
    ensures
      var t' := D.Apply(t, text, step);
      key in t' ==> key in t && SameButExpiry(t'[key], t[key])
    ensures
      var t' := D.Apply(t, text, step);
      key in t' && t'[key] != t[key] ==>
        && step.Renewed? && step.key == key && step.read == t[key].payload
        && SqlLive(t[key], Clock(text, step.now, step.now))
  {
  }

  /**
   * Between rewrites of a session, whatever else runs, a session that is still there differs from what it was in
   * nothing but `exp` and the expiry.
   */
  lemma {:induction false} RenewalsChangeOnlyExpiry(
      ts: seq<Table>, steps: seq<D.Step>, text: bool, key: Key, m: nat, n: nat)
    requires D.IsRun(ts, steps, text) && m <= n < |ts|
    requires forall j :: m <= j < n ==> !Rewrites(steps[j], key)
    requires key in ts[n]
    ensures key in ts[m] && SameButExpiry(ts[n][key], ts[m][key])
    decreases n
  {
    hide D.Apply, D.Informed, Rewrites;
    if n > m {
      assert ts[n - 1 + 1] == D.Apply(ts[n - 1], text, steps[n - 1]);
      StepKeepsRow(ts[n - 1], text, steps[n - 1], key);
      RenewalsChangeOnlyExpiry(ts, steps, text, key, m, n - 1);
    }
  }

  // Redis

  datatype Command =
    | Upsert(key: Key, payload: Payload, expiresIn: int, at: int)
    | Renewal(key: Key, read: Payload, now: int, expiresIn: int, at: int)
    | Consume(key: Key, read: Payload, now: int, deadline: Option<int>)
    | Gone(keys: set<Key>)
    | Lapsed(uids: set<string>, userCodes: set<string>, grants: set<string>)

  /** `Gone` is a destroy, a revocation by grant or the server dropping keys past their deadline, as is `Lapsed`. */
  function Perform(s: R.Stored, c: Command): R.Stored {
    match c
    case Upsert(key, payload, expiresIn, at) => R.StoreDoc(s, key, payload, expiresIn, at)
    case Renewal(key, read, now, expiresIn, at) => R.Renew(s, key, read, now / 1000, expiresIn, at)
    case Consume(key, read, now, deadline) => R.SetConsumed(s, key, read, now, deadline)
    case Gone(keys) => R.Remove(s, keys)
    case Lapsed(uids, codes, grants) =>
      s.(uids := s.uids - uids, userCodes := s.userCodes - codes, grants := s.grants - grants)
  }

  ghost predicate IsRedisRun(ss: seq<R.Stored>, cs: seq<Command>) {
    |ss| == |cs| + 1 && forall j :: 0 <= j < |cs| ==> ss[j + 1] == Perform(ss[j], cs[j])
  }

  predicate Writes(c: Command, key: Key) {
    (c.Upsert? || c.Consume?) && c.key == key
  }

  /** Which commands bring an id that was not there: an upsert of it, or a `consume` that read it before it went. */
  lemma AddsExactly(s: R.Stored, c: Command, key: Key)
    requires key !in s.docs
    ensures key in Perform(s, c).docs <==> Writes(c, key)
  {
  }

  lemma CommandKeepsDoc(s: R.Stored, c: Command, key: Key)
    requires !Writes(c, key) && key in Perform(s, c).docs
    ensures key in s.docs
    ensures Perform(s, c).docs[key].payload.(exp := s.docs[key].payload.exp) == s.docs[key].payload
  {
  }

  /** In Redis a session that went stays away, and one that stayed changed only in `exp` and deadline, until a write. */
  lemma {:induction false} RedisNeverResurrected(ss: seq<R.Stored>, cs: seq<Command>, key: Key, m: nat, n: nat)
    requires IsRedisRun(ss, cs) && m <= n < |ss|
    requires forall j :: m <= j < n ==> !Writes(cs[j], key)
    requires key in ss[n].docs
    ensures key in ss[m].docs
    ensures ss[n].docs[key].payload.(exp := ss[m].docs[key].payload.exp) == ss[m].docs[key].payload
    decreases n
  {
    hide Perform, Writes;
    if n > m {
      assert ss[n - 1 + 1] == Perform(ss[n - 1], cs[n - 1]);
      CommandKeepsDoc(ss[n - 1], cs[n - 1], key);
      RedisNeverResurrected(ss, cs, key, m, n - 1);
    }
  }
}
