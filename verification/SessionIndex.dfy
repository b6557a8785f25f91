/**
 * `InMemorySessionIndex`: which local sessions an OP session (`sid`) or a user (`sub`) stands for. Two maps kept
 * together; a `sid` names one session, a `sub` a set of them.
 */
module SessionIndex {
  import opened Wrappers

  datatype Index = Index(bySid: map<string, string>, bySub: map<string, set<string>>)

  const EMPTY := Index(map[], map[])

  datatype Step =
    | Register(sid: Option<string>, user: string, session: string)
    | RevokeBySid(opSession: string)
    | RevokeBySub(user: string)

  function Bucket(x: Index, sub: string): set<string> {
    if sub in x.bySub then x.bySub[sub] else {}
  }

  /** The sessions a step removes and returns. */
  function Returned(x: Index, step: Step): set<string> {
    match step
    case Register(_, _, _) => {}
    case RevokeBySid(sid) => if sid in x.bySid && x.bySid[sid] != "" then {x.bySid[sid]} else {}
    case RevokeBySub(sub) => Bucket(x, sub)
  }

  /** The buckets without one session; a bucket left empty goes. */
  function Without(bySub: map<string, set<string>>, session: string): map<string, set<string>> {
    map sub | sub in bySub && !(session in bySub[sub] && bySub[sub] == {session}) :: bySub[sub] - {session}
  }

  function Apply(x: Index, step: Step): Index {
    match step
    case Register(sid, sub, session) =>
      Index(if sid.Some? && sid.value != "" then x.bySid[sid.value := session] else x.bySid,
            x.bySub[sub := Bucket(x, sub) + {session}])
    case RevokeBySid(sid) =>
      if Returned(x, step) == {} then x
      else Index(x.bySid - {sid}, Without(x.bySub, x.bySid[sid]))
    case RevokeBySub(sub) =>
      if sub !in x.bySub then x
      else Index(map sid | sid in x.bySid && x.bySid[sid] !in x.bySub[sub] :: x.bySid[sid], x.bySub - {sub})
  }

  ghost predicate IsRun(xs: seq<Index>, steps: seq<Step>) {
    && |xs| == |steps| + 1 && xs[0] == EMPTY
    && forall j :: 0 <= j < |steps| ==> xs[j + 1] == Apply(xs[j], steps[j])
  }

  // What the buckets hold

  ghost predicate NoEmptyBucket(x: Index) {
    forall sub :: sub in x.bySub ==> x.bySub[sub] != {}
  }

  /** The step takes the session out of the user's bucket. */
  predicate Removes(x: Index, step: Step, sub: string, session: string) {
    !step.Register? && session in Returned(x, step) && (step.RevokeBySub? ==> step.user == sub)
  }

  ghost predicate RegisteredSince(xs: seq<Index>, steps: seq<Step>, n: nat, sub: string, session: string)
    requires |xs| == |steps| + 1 && n <= |steps|
  {
    exists j :: 0 <= j < n && steps[j].Register? && steps[j].user == sub && steps[j].session == session
      && forall k :: j < k < n ==> !Removes(xs[k], steps[k], sub, session)
  }

  lemma StepBucket(x: Index, step: Step, sub: string, session: string)
    requires NoEmptyBucket(x)
    ensures NoEmptyBucket(Apply(x, step))
    ensures session in Bucket(Apply(x, step), sub) <==>
      (step.Register? && step.user == sub && step.session == session)
      || (session in Bucket(x, sub) && !Removes(x, step, sub, session))
  {
    if step.RevokeBySid? && Returned(x, step) != {} {
      var gone := x.bySid[step.opSession];
      assert Returned(x, step) == {gone};
      forall u | u in Apply(x, step).bySub
        ensures Apply(x, step).bySub[u] != {}
      {
        var y :| y in x.bySub[u];
        if y == gone {
          assert x.bySub[u] != {gone};
          var z :| z in x.bySub[u] && z != gone;
          assert z in Apply(x, step).bySub[u];
        } else {
          assert y in Apply(x, step).bySub[u];
        }
      }
    }
  }

  /**
   * Over every run, a user's bucket holds exactly the sessions registered under the user and not removed since, so that
   * is what `revokeBySub` returns; and no bucket is ever empty.
   */
  lemma {:induction false} BucketsTellHistory(xs: seq<Index>, steps: seq<Step>, n: nat, sub: string, session: string)
    requires IsRun(xs, steps) && n <= |steps|
    ensures NoEmptyBucket(xs[n])
    ensures session in Returned(xs[n], RevokeBySub(sub)) <==> RegisteredSince(xs, steps, n, sub, session)
  {
    hide Apply, Removes, Returned;
    if n > 0 {
      BucketsTellHistory(xs, steps, n - 1, sub, session);
      BySubReturnsBucket(xs[n - 1], sub);
      var step := steps[n - 1];
      assert xs[n - 1 + 1] == Apply(xs[n - 1], step);
      StepBucket(xs[n - 1], step, sub, session);
      if step.Register? && step.user == sub && step.session == session {
        assert RegisteredSince(xs, steps, n, sub, session);
      } else if RegisteredSince(xs, steps, n - 1, sub, session) && !Removes(xs[n - 1], step, sub, session) {
        var j :| 0 <= j < n - 1 && steps[j].Register? && steps[j].user == sub && steps[j].session == session
          && forall k :: j < k < n - 1 ==> !Removes(xs[k], steps[k], sub, session);
        assert RegisteredSince(xs, steps, n, sub, session);
      }
    }
    BySubReturnsBucket(xs[n], sub);
  }

  lemma BySubReturnsBucket(x: Index, sub: string)
    ensures Returned(x, RevokeBySub(sub)) == Bucket(x, sub)
  {
  }

  // What a sid leads to

  /** Step `k` takes the session out from under its sid: that sid is revoked, or a user it was registered under. */
  ghost predicate Unlinks(xs: seq<Index>, steps: seq<Step>, k: nat, sid: string, session: string)
    requires |xs| == |steps| + 1 && k < |steps|
  {
    match steps[k]
    case Register(_, _, _) => false
    case RevokeBySid(other) => other == sid
    case RevokeBySub(user) => RegisteredSince(xs, steps, k, user, session)
  }

  predicate RegistersSid(step: Step, sid: string) {
    step.Register? && step.sid == Some(sid)
  }

  /** The last registration under the sid was of this session, and nothing has taken it out since. */
  ghost predicate LinkedSince(xs: seq<Index>, steps: seq<Step>, n: nat, sid: string, session: string)
    requires |xs| == |steps| + 1 && n <= |steps|
  {
    exists j :: 0 <= j < n && RegistersSid(steps[j], sid) && steps[j].session == session
      && forall k :: j < k < n ==> !RegistersSid(steps[k], sid) && !Unlinks(xs, steps, k, sid, session)
  }

  predicate LeadsTo(x: Index, sid: string, session: string) {
    sid in x.bySid && x.bySid[sid] == session
  }

  lemma StepLeads(x: Index, step: Step, sid: string, session: string)
    requires sid != "" && session != ""
    ensures LeadsTo(Apply(x, step), sid, session) <==>
      (RegistersSid(step, sid) && step.session == session)
      || (LeadsTo(x, sid, session) && !RegistersSid(step, sid)
          && !(step == RevokeBySid(sid) || (step.RevokeBySub? && session in Returned(x, step))))
  {
  }

  lemma {:induction false} LinksTellHistory(xs: seq<Index>, steps: seq<Step>, n: nat, sid: string, session: string)
    requires IsRun(xs, steps) && n <= |steps| && sid != "" && session != ""
    ensures LeadsTo(xs[n], sid, session) <==> LinkedSince(xs, steps, n, sid, session)
  {
    hide Apply, LeadsTo, Returned, RegisteredSince;
    if n == 0 {
      assert !LeadsTo(xs[n], sid, session) by { EmptyLeadsNowhere(sid, session); }
    } else {
      var step := steps[n - 1];
      assert xs[n - 1 + 1] == Apply(xs[n - 1], step);
      LinksTellHistory(xs, steps, n - 1, sid, session);
      StepLeads(xs[n - 1], step, sid, session);
      UnlinksExactly(xs, steps, n - 1, sid, session);
      if RegistersSid(step, sid) && step.session == session {
        assert LinkedSince(xs, steps, n, sid, session);
      } else if LinkedSince(xs, steps, n - 1, sid, session) && LeadsTo(xs[n], sid, session) {
        var j :| 0 <= j < n - 1 && RegistersSid(steps[j], sid) && steps[j].session == session
          && forall k :: j < k < n - 1 ==> !RegistersSid(steps[k], sid) && !Unlinks(xs, steps, k, sid, session);
        assert LinkedSince(xs, steps, n, sid, session);
      }
    }
  }

  lemma EmptyLeadsNowhere(sid: string, session: string)
    ensures !LeadsTo(EMPTY, sid, session)
  {
  }

  lemma UnlinksExactly(xs: seq<Index>, steps: seq<Step>, k: nat, sid: string, session: string)
    requires IsRun(xs, steps) && k < |steps|
    ensures Unlinks(xs, steps, k, sid, session) <==>
      steps[k] == RevokeBySid(sid) || (steps[k].RevokeBySub? && session in Returned(xs[k], steps[k]))
  {
    hide Apply, RegisteredSince, Returned;
    if steps[k].RevokeBySub? { BucketsTellHistory(xs, steps, k, steps[k].user, session); }
  }

  /**
   * Over every run, `revokeBySid` of a sid returns exactly the session last registered under it, if that has not been
   * taken out since by a revocation of the sid or of a user it was registered under; nothing for an empty sid, and an
   * empty session is never returned.
   */
  lemma SidTellsHistory(xs: seq<Index>, steps: seq<Step>, n: nat, sid: string, session: string)
    requires IsRun(xs, steps) && n <= |steps|
    ensures session in Returned(xs[n], RevokeBySid(sid)) <==>
      sid != "" && session != "" && LinkedSince(xs, steps, n, sid, session)
  {
    hide Apply, LinkedSince;
    NoEmptySid(xs, steps, n);
    if sid != "" && session != "" { LinksTellHistory(xs, steps, n, sid, session); }
  }

  lemma {:induction false} NoEmptySid(xs: seq<Index>, steps: seq<Step>, n: nat)
    requires IsRun(xs, steps) && n <= |steps|
    ensures "" !in xs[n].bySid
  {
    if n > 0 {
      NoEmptySid(xs, steps, n - 1);
      assert xs[n - 1 + 1] == Apply(xs[n - 1], steps[n - 1]);
    }
  }

  // One sid and one user per session

  /** Each session is registered under one user and one sid, and no two sessions share a sid. */
  ghost predicate OneToOne(steps: seq<Step>, sidOf: string -> string, subOf: string -> string) {
    && (forall x, y :: sidOf(x) == sidOf(y) ==> x == y)
    && (forall j :: 0 <= j < |steps| && steps[j].Register? ==>
        && steps[j].user == subOf(steps[j].session)
        && (steps[j].sid.Some? && steps[j].sid.value != "" ==> steps[j].sid.value == sidOf(steps[j].session)))
  }

  /** Every sid leads to a session its user's bucket holds, and every bucket holds sessions of its user. */
  ghost predicate Agrees(x: Index, sidOf: string -> string, subOf: string -> string) {
    && (forall sid :: sid in x.bySid ==> sid == sidOf(x.bySid[sid]) && x.bySid[sid] in Bucket(x, subOf(x.bySid[sid])))
    && (forall sub, session :: sub in x.bySub && session in x.bySub[sub] ==> sub == subOf(session))
  }

  lemma {:induction false} MapsAgree(
      xs: seq<Index>, steps: seq<Step>, sidOf: string -> string, subOf: string -> string, n: nat)
    requires IsRun(xs, steps) && OneToOne(steps, sidOf, subOf) && n <= |steps|
    ensures Agrees(xs[n], sidOf, subOf)
  {
    if n > 0 {
      MapsAgree(xs, steps, sidOf, subOf, n - 1);
      assert xs[n - 1 + 1] == Apply(xs[n - 1], steps[n - 1]);
      StepAgrees(xs[n - 1], steps[n - 1], sidOf, subOf);
    }
  }

  lemma RegisterAgrees(x: Index, sid: Option<string>, session: string, sidOf: string -> string, subOf: string -> string)
    requires Agrees(x, sidOf, subOf)
    requires forall a, b :: sidOf(a) == sidOf(b) ==> a == b
    requires sid.Some? && sid.value != "" ==> sid.value == sidOf(session)
    ensures Agrees(Apply(x, Register(sid, subOf(session), session)), sidOf, subOf)
  {
  }

  lemma BySidAgrees(x: Index, sid: string, sidOf: string -> string, subOf: string -> string)
    requires Agrees(x, sidOf, subOf)
    requires forall a, b :: sidOf(a) == sidOf(b) ==> a == b
    ensures Agrees(Apply(x, RevokeBySid(sid)), sidOf, subOf)
  {
    var x' := Apply(x, RevokeBySid(sid));
    if Returned(x, RevokeBySid(sid)) != {} {
      forall other | other in x'.bySid
        ensures x'.bySid[other] in Bucket(x', subOf(x'.bySid[other]))
      {
        assert x.bySid[other] in Bucket(x, subOf(x.bySid[other])) && other == sidOf(x.bySid[other]);
        assert x.bySid[other] != x.bySid[sid];
      }
    }
  }

  lemma StepAgrees(x: Index, step: Step, sidOf: string -> string, subOf: string -> string)
    requires Agrees(x, sidOf, subOf)
    requires forall a, b :: sidOf(a) == sidOf(b) ==> a == b
    requires step.Register? ==>
      step.user == subOf(step.session)
        && (step.sid.Some? && step.sid.value != "" ==> step.sid.value == sidOf(step.session))
    ensures Agrees(Apply(x, step), sidOf, subOf)
  {
    match step
    case Register(sid, _, session) => RegisterAgrees(x, sid, session, sidOf, subOf);
    case RevokeBySid(sid) => BySidAgrees(x, sid, sidOf, subOf);
    case RevokeBySub(_) =>
  }

  ghost predicate Gone(x: Index, session: string) {
    && (forall sub :: session !in Bucket(x, sub))
    && (forall sid :: sid in x.bySid ==> x.bySid[sid] != session)
  }

  lemma GoneStays(x: Index, step: Step, session: string)
    requires Gone(x, session) && !(step.Register? && step.session == session)
    ensures Gone(Apply(x, step), session)
    ensures session !in Returned(x, step)
  {
    assert forall sub :: session !in Bucket(x, sub);
    var x' := Apply(x, step);
    forall sub
      ensures session !in Bucket(x', sub)
    {
      assert session !in Bucket(x, sub);
    }
  }

  lemma ReturnedIsGone(x: Index, step: Step, session: string, sidOf: string -> string, subOf: string -> string)
    requires Agrees(x, sidOf, subOf) && session in Returned(x, step)
    ensures Gone(Apply(x, step), session)
  {
    var x' := Apply(x, step);
    forall sub
      ensures session !in Bucket(x', sub)
    {
      assert sub in x.bySub && session in x.bySub[sub] ==> sub == subOf(session);
    }
    forall sid | sid in x'.bySid
      ensures x'.bySid[sid] != session
    {
      assert sid == sidOf(x.bySid[sid]);
    }
  }

  /**
   * With one sid and one user per session, a session given back by one revocation is in neither map until registered.
   */
  lemma {:induction false} ReturnedOnce(
      xs: seq<Index>, steps: seq<Step>, sidOf: string -> string, subOf: string -> string, r: nat, n: nat,
        session: string)
    requires IsRun(xs, steps) && OneToOne(steps, sidOf, subOf) && r < n <= |steps|
    requires session in Returned(xs[r], steps[r])
    requires forall j :: r < j < n && steps[j].Register? ==> steps[j].session != session
    ensures Gone(xs[n], session)
    ensures forall step :: session !in Returned(xs[n], step)
    decreases n
  {
    hide Apply;
    assert xs[n - 1 + 1] == Apply(xs[n - 1], steps[n - 1]);
    if n == r + 1 {
      MapsAgree(xs, steps, sidOf, subOf, r);
      ReturnedIsGone(xs[r], steps[r], session, sidOf, subOf);
    } else {
      ReturnedOnce(xs, steps, sidOf, subOf, r, n - 1, session);
      GoneStays(xs[n - 1], steps[n - 1], session);
    }
    forall step
      ensures session !in Returned(xs[n], step)
    {
      NotReturned(xs[n], step, session);
    }
  }

  lemma NotReturned(x: Index, step: Step, session: string)
    requires Gone(x, session)
    ensures session !in Returned(x, step)
  {
    if step.RevokeBySub? { assert session !in Bucket(x, step.user); }
  }

  /** A session registered under two users is given back once for each. */
  lemma SharedSessionReturnedTwice()
    ensures exists xs, steps ::
      && IsRun(xs, steps) && |steps| == 4 && steps[2..] == [RevokeBySub("a"), RevokeBySub("b")]
      && "x" in Returned(xs[2], steps[2]) && "x" in Returned(xs[3], steps[3])
  {
    var steps := [Register(Some("s"), "a", "x"), Register(None, "b", "x"), RevokeBySub("a"), RevokeBySub("b")];
    var x1 := Apply(EMPTY, steps[0]);
    var x2 := Apply(x1, steps[1]);
    var x3 := Apply(x2, steps[2]);
    var xs := [EMPTY, x1, x2, x3, Apply(x3, steps[3])];
    assert x1.bySub["a"] == {"x"} && x2.bySub["a"] == {"x"} && x2.bySub["b"] == {"x"};
    assert x3.bySub["b"] == {"x"};
    assert IsRun(xs, steps) && xs[2] == x2 && xs[3] == x3;
  }

  // The index

  class InMemorySessionIndex {
    var bySid: map<string, string>
    var bySub: map<string, set<string>>

    function State(): Index
      reads this
    {
      Index(bySid, bySub)
    }

    constructor ()
      ensures State() == EMPTY
    {
      bySid, bySub := map[], map[];
    }

    method Register(sid: Option<string>, sub: string, session: string)
      modifies this
      ensures State() == Apply(old(State()), Step.Register(sid, sub, session))
    {
      if sid.Some? && sid.value != "" {
        bySid := bySid[sid.value := session];
      }
      var bucket := if sub in bySub then bySub[sub] else {};
      bySub := bySub[sub := bucket + {session}];
    }

    method RevokeBySid(sid: string) returns (sessions: set<string>)
      modifies this
      ensures State() == Apply(old(State()), Step.RevokeBySid(sid))
      ensures sessions == Returned(old(State()), Step.RevokeBySid(sid))
    {
      if sid !in bySid || bySid[sid] == "" {
        return {};
      }
      var session := bySid[sid];
      bySid := bySid - {sid};
      var was, left := bySub, bySub.Keys;
      while left != {}
        invariant left <= was.Keys && bySid == old(bySid) - {sid}
        invariant forall sub :: sub in bySub <==> sub in was && (sub in left || sub in Without(was, session))
        invariant forall sub :: sub in bySub ==> bySub[sub] == if sub in left then was[sub] else was[sub] - {session}
        decreases |left|
      {
        var sub :| sub in left;
        left := left - {sub};
        if session in bySub[sub] {
          if bySub[sub] == {session} {
            bySub := bySub - {sub};
          } else {
            bySub := bySub[sub := bySub[sub] - {session}];
          }
        }
      }
      assert bySub == Without(was, session);
      return {session};
    }

    method RevokeBySub(sub: string) returns (sessions: set<string>)
      modifies this
      ensures State() == Apply(old(State()), Step.RevokeBySub(sub))
      ensures sessions == Returned(old(State()), Step.RevokeBySub(sub))
    {
      if sub !in bySub {
        return {};
      }
      sessions := bySub[sub];
      bySub := bySub - {sub};
      var was, left := bySid, bySid.Keys;
      while left != {}
        invariant left <= was.Keys && bySub == old(bySub) - {sub}
        invariant forall sid :: sid in bySid <==> sid in was && (sid in left || was[sid] !in sessions)
        invariant forall sid :: sid in bySid ==> bySid[sid] == was[sid]
        decreases |left|
      {
        var sid :| sid in left;
        left := left - {sid};
        if bySid[sid] in sessions {
          bySid := bySid - {sid};
        }
      }
    }
  }
}
