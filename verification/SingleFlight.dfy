/**
 * `maybeRefresh`: concurrent requests of one browser session, each with its own copy of the token set, share one
 * refresh at the IdP. A step runs from one `await` to the next, so the look-up in the map of refreshes in flight and
 * the entry it may add are one step. Other code may run between any two steps.
 */
module SingleFlight {
  import opened Wrappers
  import opened RelyingParty

  const REFRESH_SKEW_MS := 60_000

  /** `id` is the key of the session store; a request without one refreshes alone. */
  datatype Request = Request(sessionId: Option<string>, copy: Option<TokenSet>)

  datatype Phase = Ready | Waiting(owner: nat) | Refreshing | Settled | Done

  datatype Role = Nothing | Owner | Waiter(owner: nat)

  datatype Task = Task(sessionId: Option<string>, was: Option<TokenSet>, copy: Option<TokenSet>, phase: Phase,
      role: Role)

  /** An entry is told apart by the request that made it. */
  datatype Entry = Entry(refreshToken: string, owner: nat)

  /** `settled`: the promises that have resolved, with the token set stored or `None` for a failure. */
  datatype Sys = Sys(
    tasks: map<nat, Task>, inFlight: map<string, Entry>, settled: map<nat, Option<TokenSet>>, calls: seq<nat>)

  function Init(requests: map<nat, Request>): Sys {
    Sys(map i | i in requests :: Task(Str(requests[i].sessionId), requests[i].copy, requests[i].copy, Ready, Nothing),
        map[], map[], [])
  }

  function RefreshTokenOf(copy: Option<TokenSet>): Option<string> {
    if copy.Some? then Str(copy.value.tokens.refreshToken) else None
  }

  /** There is a refresh token, and the access token is known to expire within the margin. */
  predicate Due(copy: Option<TokenSet>, now: int) {
    && RefreshTokenOf(copy).Some?
    && copy.value.tokens.expiresAt.Some? && copy.value.tokens.expiresAt.value != 0
    && copy.value.tokens.expiresAt.value - now <= REFRESH_SKEW_MS
  }

  datatype Action =
    | Start(i: nat, now: int)
    | Answer(i: nat, next: Option<Tokens>)
    | Finish(i: nat)

  predicate Enabled(s: Sys, a: Action) {
    a.i in s.tasks &&
    match a
    case Start(i, _) => s.tasks[i].phase == Ready
    case Answer(i, _) => s.tasks[i].phase == Refreshing
    case Finish(i) => s.tasks[i].phase == Settled || (s.tasks[i].phase.Waiting? && s.tasks[i].phase.owner in s.settled)
  }

  /** The refresh in flight a request may wait for: one of its session, from its own refresh token. */
  function InFlightFor(inFlight: map<string, Entry>, sessionId: Option<string>, refreshToken: string): Option<nat> {
    if sessionId.Some? && sessionId.value in inFlight && inFlight[sessionId.value].refreshToken == refreshToken
    then Some(inFlight[sessionId.value].owner)
    else None
  }

  function Enter(inFlight: map<string, Entry>, sessionId: Option<string>, entry: Entry): map<string, Entry> {
    if sessionId.Some? then inFlight[sessionId.value := entry] else inFlight
  }

  /** The owner removes the entry only if it is still its own. */
  function Leave(inFlight: map<string, Entry>, sessionId: Option<string>, owner: nat): map<string, Entry> {
    if sessionId.Some? && sessionId.value in inFlight && inFlight[sessionId.value].owner == owner
    then inFlight - {sessionId.value}
    else inFlight
  }

  /** A waiting copy after the refresh it waited for. */
  function Shared(was: Option<TokenSet>, renewed: Option<TokenSet>): Option<TokenSet> {
    if renewed.Some? && was.Some? then Some(AdoptInto(was.value, renewed.value)) else was
  }

  function Step(s: Sys, a: Action): Sys
    requires Enabled(s, a)
  {
    var t := s.tasks[a.i];
    match a
    case Start(i, now) =>
      if !Due(t.copy, now) then s.(tasks := s.tasks[i := t.(phase := Done)])
      else
        var refreshToken := RefreshTokenOf(t.copy).value;
        var owner := InFlightFor(s.inFlight, t.sessionId, refreshToken);
        if owner.Some? then s.(tasks := s.tasks[i := t.(phase := Waiting(owner.value), role := Waiter(owner.value))])
        else s.(tasks := s.tasks[i := t.(phase := Refreshing, role := Owner)],
                inFlight := Enter(s.inFlight, t.sessionId, Entry(refreshToken, i)), calls := s.calls + [i])
    case Answer(i, next) =>
      var renewed := if next.Some? && t.copy.Some? then Some(Merge(t.copy.value, next.value)) else None;
      s.(tasks := s.tasks[i := t.(phase := Settled, copy := if renewed.Some? then renewed else t.copy)],
         settled := s.settled[i := renewed])
    case Finish(i) =>
      if t.phase == Settled then
        s.(tasks := s.tasks[i := t.(phase := Done)], inFlight := Leave(s.inFlight, t.sessionId, i))
      else
        s.(tasks := s.tasks[i := t.(phase := Done, copy := Shared(t.copy, s.settled[t.phase.owner]))])
  }

  ghost predicate IsRun(ss: seq<Sys>, actions: seq<Action>, requests: map<nat, Request>) {
    && |ss| == |actions| + 1 && ss[0] == Init(requests)
    && forall j :: 0 <= j < |actions| ==> Enabled(ss[j], actions[j]) && ss[j + 1] == Step(ss[j], actions[j])
  }

  // What every reachable state keeps

  /** An entry is that of a request of its session that has not finished. */
  ghost predicate EntriesOwned(s: Sys) {
    forall id :: id in s.inFlight ==>
      var e := s.inFlight[id];
      && e.owner in s.tasks && s.tasks[e.owner].phase in {Refreshing, Settled}
      && s.tasks[e.owner].sessionId == Some(id) && RefreshTokenOf(s.tasks[e.owner].was) == Some(e.refreshToken)
  }

  /** Whom a request waits or waited for. */
  ghost predicate WaitsForOwn(s: Sys, t: Task, o: nat) {
    && o in s.tasks && s.tasks[o].role == Owner
    && s.tasks[o].sessionId == t.sessionId && t.sessionId.Some?
    && RefreshTokenOf(s.tasks[o].was) == RefreshTokenOf(t.was) && RefreshTokenOf(t.was).Some?
  }

  /** A copy, by role and phase: untouched until the refresh it shares settles, and then as that refresh says. */
  ghost predicate TaskOK(s: Sys, i: nat)
    requires i in s.tasks
  {
    var t := s.tasks[i];
    && (t.role == Nothing ==> t.phase in {Ready, Done} && t.copy == t.was)
    && (t.role == Owner ==>
        && t.phase in {Refreshing, Settled, Done} && t.was.Some? && (t.phase == Refreshing <==> i !in s.settled)
        && t.copy == (if i in s.settled && s.settled[i].Some? then s.settled[i] else t.was)
        && (i in s.settled && s.settled[i].Some? ==> s.settled[i].value.binding == t.was.value.binding))
    && (t.role.Waiter? ==>
        && t.was.Some? && WaitsForOwn(s, t, t.role.owner) && t.phase in {Waiting(t.role.owner), Done}
        && (t.phase.Waiting? ==> t.copy == t.was)
        && (t.phase == Done ==>
            && t.role.owner in s.settled
            && t.copy == Shared(t.was, s.settled[t.role.owner])))
  }

  ghost predicate Inv(s: Sys) {
    && EntriesOwned(s)
    && (forall i :: i in s.tasks ==> TaskOK(s, i))
    && (forall i :: i in s.settled ==> i in s.tasks && s.tasks[i].role == Owner)
    && (forall i :: i in s.calls <==> i in s.tasks && s.tasks[i].role == Owner)
  }

  lemma InitInv(requests: map<nat, Request>)
    ensures Inv(Init(requests))
  {
  }

  lemma StepFrame(s: Sys, a: Action)
    requires Enabled(s, a)
    ensures
      var s' := Step(s, a);
      && s'.tasks.Keys == s.tasks.Keys
      && (forall i :: i in s.tasks && i != a.i ==> s'.tasks[i] == s.tasks[i])
      && s'.tasks[a.i].was == s.tasks[a.i].was && s'.tasks[a.i].sessionId == s.tasks[a.i].sessionId
      && (a.Start? || s'.tasks[a.i].role == s.tasks[a.i].role)
      && (if a.Answer? then s'.settled.Keys == s.settled.Keys + {a.i} else s'.settled == s.settled)
      && (forall i :: i in s.settled && i != a.i ==> s'.settled[i] == s.settled[i])
  {
    hide Due, Merge, Shared, RefreshTokenOf, Str, InFlightFor, Enter, Leave;
  }

  /** A task the step is not about keeps its place, and the facts about it. */
  lemma OthersOK(s: Sys, a: Action, i: nat)
    requires Inv(s) && Enabled(s, a) && i in s.tasks && i != a.i
    ensures i in Step(s, a).tasks && TaskOK(Step(s, a), i)
  {
    hide EntriesOwned, Step, Shared, RefreshTokenOf;
    StepFrame(s, a);
    assert TaskOK(s, i) && TaskOK(s, a.i);
  }

  lemma ActorOK(s: Sys, a: Action)
    requires Inv(s) && Enabled(s, a)
    ensures a.i in Step(s, a).tasks && TaskOK(Step(s, a), a.i)
  {
    hide Inv, Enabled, Step, TaskOK;
    if a.Start? { StarterOK(s, a); } else { FinisherOK(s, a); }
  }

  lemma FinisherOK(s: Sys, a: Action)
    requires Inv(s) && Enabled(s, a) && !a.Start?
    ensures a.i in Step(s, a).tasks && TaskOK(Step(s, a), a.i)
  {
    assert TaskOK(s, a.i);
  }

  lemma StarterOK(s: Sys, a: Action)
    requires Inv(s) && Enabled(s, a) && a.Start?
    ensures a.i in Step(s, a).tasks && TaskOK(Step(s, a), a.i)
  {
    assert TaskOK(s, a.i);
    if s.tasks[a.i].sessionId.Some? && s.tasks[a.i].sessionId.value in s.inFlight {
      assert TaskOK(s, s.inFlight[s.tasks[a.i].sessionId.value].owner);
    }
  }

  lemma ReadyFact(s: Sys, i: nat)
    requires i in s.tasks && TaskOK(s, i)
    ensures s.tasks[i].phase == Ready ==> s.tasks[i].role == Nothing && s.tasks[i].copy == s.tasks[i].was
    ensures s.tasks[i].phase in {Refreshing, Settled} <==> s.tasks[i].role == Owner && s.tasks[i].phase != Done
  {
  }

  lemma StepKeepsEntries(s: Sys, a: Action)
    requires Inv(s) && Enabled(s, a)
    ensures EntriesOwned(Step(s, a))
  {
    hide TaskOK, Merge, Shared, RefreshTokenOf, Str, InFlightFor;
    ReadyFact(s, a.i);
  }

  lemma StepKeeps(s: Sys, a: Action)
    requires Inv(s) && Enabled(s, a)
    ensures Inv(Step(s, a))
  {
    hide TaskOK, EntriesOwned;
    StepKeepsEntries(s, a);
    ActorOK(s, a);
    forall i | i in s.tasks && i != a.i
      ensures TaskOK(Step(s, a), i)
    {
      OthersOK(s, a, i);
    }
    StepKeepsRoles(s, a);
  }

  lemma StepKeepsRoles(s: Sys, a: Action)
    requires Inv(s) && Enabled(s, a)
    ensures
      var s' := Step(s, a);
      && (forall i :: i in s'.settled ==> i in s'.tasks && s'.tasks[i].role == Owner)
      && (forall i :: i in s'.calls <==> i in s'.tasks && s'.tasks[i].role == Owner)
  {
    hide TaskOK, EntriesOwned, Due, Merge, Shared, RefreshTokenOf, Str, InFlightFor, Enter, Leave;
    ReadyFact(s, a.i);
  }

  lemma {:induction false} RunInv(ss: seq<Sys>, actions: seq<Action>, requests: map<nat, Request>, n: nat)
    requires IsRun(ss, actions, requests) && n < |ss|
    ensures Inv(ss[n])
    ensures ss[n].tasks.Keys == requests.Keys
    ensures forall i :: i in requests ==>
      ss[n].tasks[i].was == requests[i].copy && ss[n].tasks[i].sessionId == Str(requests[i].sessionId)
  {
    hide Inv, Step, Enabled;
    if n == 0 {
      InitInv(requests);
    } else {
      RunInv(ss, actions, requests, n - 1);
      assert Enabled(ss[n - 1], actions[n - 1]) && ss[n - 1 + 1] == Step(ss[n - 1], actions[n - 1]);
      StepKeeps(ss[n - 1], actions[n - 1]);
      StepFrame(ss[n - 1], actions[n - 1]);
    }
  }

  // The theorems

  /** Once every request has finished, whatever the mix of sessions and refresh tokens, no entry is left. */
  lemma NothingLeftInFlight(ss: seq<Sys>, actions: seq<Action>, requests: map<nat, Request>, n: nat)
    requires IsRun(ss, actions, requests) && n < |ss|
    requires forall i :: i in ss[n].tasks ==> ss[n].tasks[i].phase == Done
    ensures ss[n].inFlight == map[]
  {
    RunInv(ss, actions, requests, n);
  }

  /** The refresh a request ended up sharing: its own, or that of the request it waited for. */
  function SharedWith(t: Task, i: nat): Option<nat> {
    match t.role
    case Nothing => None
    case Owner => Some(i)
    case Waiter(o) => Some(o)
  }

  /** Step `j` is the answer of the IdP to the refresh of `o`, and `settled` what came of it. */
  ghost predicate Answered(
    actions: seq<Action>, requests: map<nat, Request>, j: int, n: nat, o: nat, settled: Option<TokenSet>)
  {
    && 0 <= j < n <= |actions| && actions[j].Answer? && actions[j].i == o && o in requests && requests[o].copy.Some?
    && var own := requests[o].copy.value;
    && (settled.Some? <==> actions[j].next.Some?)
    && (settled.Some? ==>
          settled.value.binding == own.binding && Renewed(own.tokens, actions[j].next.value, settled.value.tokens))
  }

  /** Over every run: a refresh settles by an answer of the IdP, with its tokens or, when it fails, with nothing. */
  lemma {:induction false} SettledByAnswer(
      ss: seq<Sys>, actions: seq<Action>, requests: map<nat, Request>, n: nat, o: nat)
    requires IsRun(ss, actions, requests) && n < |ss|
    ensures o in ss[n].settled <==> exists j :: 0 <= j < n && actions[j].Answer? && actions[j].i == o
    ensures o in ss[n].settled ==> exists j :: Answered(actions, requests, j, n, o, ss[n].settled[o])
  {
    hide Inv, Answered;
    if n > 0 {
      SettledByAnswer(ss, actions, requests, n - 1, o);
      RunInv(ss, actions, requests, n - 1);
      var s, a := ss[n - 1], actions[n - 1];
      assert Enabled(s, a) && ss[n - 1 + 1] == Step(s, a);
      StepFrame(s, a);
      if a.Answer? && a.i == o {
        AnswerSettles(s, a, actions, requests, n);
      } else if o in s.settled {
        var j :| Answered(actions, requests, j, n - 1, o, s.settled[o]);
        assert Answered(actions, requests, j, n, o,
          s.settled[o]) by { AnsweredLater(actions, requests, j, n, o, s.settled[o]); }
      }
    }
  }

  lemma AnsweredLater(
      actions: seq<Action>, requests: map<nat, Request>, j: int, n: nat, o: nat, settled: Option<TokenSet>)
    requires 0 < n <= |actions| && Answered(actions, requests, j, n - 1, o, settled)
    ensures Answered(actions, requests, j, n, o, settled)
  {
  }

  lemma AnswerSettles(s: Sys, a: Action, actions: seq<Action>, requests: map<nat, Request>, n: nat)
    requires Inv(s) && Enabled(s, a) && a.Answer? && 0 < n <= |actions| && actions[n - 1] == a
    requires a.i in requests && s.tasks[a.i].was == requests[a.i].copy
    ensures Answered(actions, requests, n - 1, n, a.i, Step(s, a).settled[a.i])
  {
    assert TaskOK(s, a.i);
  }

  /** The access token is known to expire within a minute, and there is a refresh token. */
  predicate NearExpiry(copy: Option<TokenSet>, now: int) {
    && copy.Some? && copy.value.tokens.refreshToken.Some? && copy.value.tokens.refreshToken.value != ""
    && copy.value.tokens.expiresAt.Some? && copy.value.tokens.expiresAt.value != 0
    && now >= copy.value.tokens.expiresAt.value - 60_000
  }

  /** Over every run: a request that starts refreshes or waits if and only if its own copy is near expiry. */
  lemma RefreshesWhenDue(ss: seq<Sys>, actions: seq<Action>, requests: map<nat, Request>, j: nat)
    requires IsRun(ss, actions, requests) && j < |actions| && actions[j].Start?
    ensures actions[j].i in requests && actions[j].i in ss[j + 1].tasks
    ensures
      var t := ss[j + 1].tasks[actions[j].i];
      if NearExpiry(requests[actions[j].i].copy, actions[j].now) then t.phase.Refreshing? || t.phase.Waiting?
      else t.phase == Done && t.copy == requests[actions[j].i].copy
  {
    RunInv(ss, actions, requests, j);
    assert Enabled(ss[j], actions[j]) && ss[j + 1] == Step(ss[j], actions[j]);
    assert TaskOK(ss[j], actions[j].i);
  }

  /**
   * A finished request shared the refresh of its own copy or of one of its own session with the same refresh token, and
   * has the tokens the IdP answered to it, or its copy as it was when that refresh failed or there was none.
   */
  lemma FinishedCopy(ss: seq<Sys>, actions: seq<Action>, requests: map<nat, Request>, n: nat, i: nat)
    requires IsRun(ss, actions, requests) && n < |ss| && i in requests && i in ss[n].tasks
    requires ss[n].tasks[i].phase == Done
    ensures
      var o := SharedWith(ss[n].tasks[i], i);
      && (o.None? ==> ss[n].tasks[i].copy == requests[i].copy)
      && (o.Some? ==>
          && o.value in requests && o.value in ss[n].settled
          && RefreshTokenOf(requests[o.value].copy) == RefreshTokenOf(requests[i].copy)
          && (o.value != i ==> Str(requests[o.value].sessionId) == Str(requests[i].sessionId))
          && var renewed := ss[n].settled[o.value];
          && (exists j :: Answered(actions, requests, j, n, o.value, renewed))
          && (renewed.None? ==> ss[n].tasks[i].copy == requests[i].copy)
          && (renewed.Some? ==> ss[n].tasks[i].copy.Some? && ss[n].tasks[i].copy.value.tokens == renewed.value.tokens))
  {
    hide Answered;
    RunInv(ss, actions, requests, n);
    assert TaskOK(ss[n], i);
    var o := SharedWith(ss[n].tasks[i], i);
    if o.Some? { SettledByAnswer(ss, actions, requests, n, o.value); }
  }

  /**
   * After a successful refresh a copy carries its own binding, exactly if it had one or the refreshing copy had none.
   */
  lemma OwnBindingKept(ss: seq<Sys>, actions: seq<Action>, requests: map<nat, Request>, n: nat, i: nat)
    requires IsRun(ss, actions, requests) && n < |ss| && i in requests && i in ss[n].tasks
    requires ss[n].tasks[i].phase == Done
    requires ss[n].tasks[i].copy.Some? && requests[i].copy.Some?
    requires SharedWith(ss[n].tasks[i], i).Some? && SharedWith(ss[n].tasks[i], i).value in ss[n].settled
    requires ss[n].settled[SharedWith(ss[n].tasks[i], i).value].Some?
    ensures
      var o := SharedWith(ss[n].tasks[i], i).value;
      && o in requests && requests[o].copy.Some?
      && (ss[n].tasks[i].copy.value.binding == requests[i].copy.value.binding <==>
          (requests[i].copy.value.binding.Some? || requests[o].copy.value.binding.None?))
  {
    RunInv(ss, actions, requests, n);
    assert TaskOK(ss[n], i);
    assert TaskOK(ss[n], SharedWith(ss[n].tasks[i], i).value);
  }

  /** All requests of one session, with one refresh token. */
  ghost predicate OneLineage(requests: map<nat, Request>, sessionId: string, refreshToken: string) {
    sessionId != "" && forall i :: i in requests ==>
      requests[i].sessionId == Some(sessionId) && RefreshTokenOf(requests[i].copy) == Some(refreshToken)
  }

  /** Each request starts near expiry, and before the refreshing request finishes. */
  ghost predicate Overlapping(ss: seq<Sys>, actions: seq<Action>)
    requires |ss| == |actions| + 1
  {
    forall j :: 0 <= j < |actions| && actions[j].Start? && actions[j].i in ss[j].tasks ==>
      && Due(ss[j].tasks[actions[j].i].copy, actions[j].now)
      && forall k :: 0 <= k < j && actions[k].Finish? ==> actions[k].i !in ss[k].calls
  }

  predicate SomeStart(actions: seq<Action>) {
    exists j :: 0 <= j < |actions| && actions[j].Start?
  }

  ghost predicate OwnerStillThere(ss: seq<Sys>, actions: seq<Action>, n: nat)
    requires |ss| == |actions| + 1 && n <= |actions|
  {
    forall k :: 0 <= k < n && actions[k].Finish? ==> actions[k].i !in ss[k].calls
  }

  /** While no owner has finished: no call before the first start, one call and its entry after it. */
  lemma {:induction false} OneCallSoFar(
      ss: seq<Sys>, actions: seq<Action>, requests: map<nat, Request>, id: string, token: string, n: nat)
    requires IsRun(ss, actions, requests) && OneLineage(requests, id, token) && Overlapping(ss, actions)
    requires n < |ss| && OwnerStillThere(ss, actions, n)
    ensures if SomeStart(actions[..n])
      then |ss[n].calls| == 1 && id in ss[n].inFlight && ss[n].inFlight[id].refreshToken == token
      else ss[n].calls == [] && ss[n].inFlight == map[]
  {
    hide Inv, Due;
    if n > 0 {
      OneCallSoFar(ss, actions, requests, id, token, n - 1);
      RunInv(ss, actions, requests, n - 1);
      var s, a := ss[n - 1], actions[n - 1];
      assert Enabled(s, a) && ss[n - 1 + 1] == Step(s, a);
      assert actions[..n] == actions[..n - 1] + [a];
      SomeStartSnoc(actions[..n - 1], a);
      NotRenamed(s, a, id, token);
    }
  }

  lemma SomeStartSnoc(actions: seq<Action>, a: Action)
    ensures SomeStart(actions + [a]) <==> SomeStart(actions) || a.Start?
  {
    if SomeStart(actions) {
      var j :| 0 <= j < |actions| && actions[j].Start?;
      assert (actions + [a])[j].Start?;
    }
    if a.Start? { assert (actions + [a])[|actions|].Start?; }
  }

  /** In a state of one lineage the copy of a request that starts still carries the shared refresh token. */
  lemma NotRenamed(s: Sys, a: Action, id: string, token: string)
    requires Inv(s) && Enabled(s, a)
    requires s.tasks[a.i].sessionId == Some(id) && RefreshTokenOf(s.tasks[a.i].was) == Some(token)
    ensures a.Start? ==> RefreshTokenOf(s.tasks[a.i].copy) == Some(token)
    ensures a.Finish? && s.tasks[a.i].phase == Settled ==> a.i in s.calls
  {
    assert TaskOK(s, a.i);
  }

  /**
   * Overlapping requests of one session with one refresh token, in every interleaving and whatever the IdP answers,
   * make exactly one refresh between them.
   */
  lemma {:induction false} ExactlyOneRefresh(
      ss: seq<Sys>, actions: seq<Action>, requests: map<nat, Request>, id: string, token: string, n: nat)
    requires IsRun(ss, actions, requests) && OneLineage(requests, id, token) && Overlapping(ss, actions)
    requires n < |ss|
    ensures |ss[n].calls| == if SomeStart(actions[..n]) then 1 else 0
  {
    hide Inv, Due;
    if OwnerStillThere(ss, actions, n) {
      OneCallSoFar(ss, actions, requests, id, token, n);
    } else {
      ExactlyOneRefresh(ss, actions, requests, id, token, n - 1);
      var a := actions[n - 1];
      assert actions[..n] == actions[..n - 1] + [a];
      SomeStartSnoc(actions[..n - 1], a);
      assert Enabled(ss[n - 1], a) && ss[n - 1 + 1] == Step(ss[n - 1], a);
      var k :| 0 <= k < n && actions[k].Finish? && actions[k].i in ss[k].calls;
      assert !a.Start?;
    }
  }

  /** A request that started near expiry refreshes or waits. */
  lemma {:induction false} StartedShares(
      ss: seq<Sys>, actions: seq<Action>, requests: map<nat, Request>, n: nat, i: nat)
    requires IsRun(ss, actions, requests) && Overlapping(ss, actions)
    requires n < |ss| && i in ss[n].tasks
    ensures ss[n].tasks[i].role == Nothing ==> ss[n].tasks[i].phase == Ready
  {
    hide Due, Inv, InFlightFor, Enter, Leave, Merge, Shared, RefreshTokenOf;
    if n > 0 {
      var s, a := ss[n - 1], actions[n - 1];
      assert Enabled(s, a) && ss[n - 1 + 1] == Step(s, a);
      StepFrame(s, a);
      StartedShares(ss, actions, requests, n - 1, i);
    }
  }

  /**
   * So overlapping requests of one lineage end alike: with the same id, access and refresh tokens if the one refresh
   * succeeded, and each with its copy as it was if it failed.
   */
  lemma AllEndAlike(
      ss: seq<Sys>, actions: seq<Action>, requests: map<nat, Request>, id: string, token: string, n: nat, i: nat,
        j: nat)
    requires IsRun(ss, actions, requests) && OneLineage(requests, id, token) && Overlapping(ss, actions)
    requires n < |ss| && i in requests && j in requests && i in ss[n].tasks && j in ss[n].tasks
    requires ss[n].tasks[i].phase == Done && ss[n].tasks[j].phase == Done
    ensures |ss[n].calls| == 1 && ss[n].calls[0] in ss[n].settled
    ensures ss[n].settled[ss[n].calls[0]].Some? ==>
      && ss[n].tasks[i].copy.Some? && ss[n].tasks[j].copy.Some?
      && ss[n].tasks[i].copy.value.tokens == ss[n].tasks[j].copy.value.tokens
    ensures ss[n].settled[ss[n].calls[0]].None? ==> ss[n].tasks[i].copy == requests[i].copy
  {
    hide Due, Inv, Overlapping;
    ExactlyOneRefresh(ss, actions, requests, id, token, n);
    SharesCall(ss, actions, requests, n, i);
    SharesCall(ss, actions, requests, n, j);
    FinishedCopy(ss, actions, requests, n, i);
    FinishedCopy(ss, actions, requests, n, j);
  }

  lemma SharesCall(ss: seq<Sys>, actions: seq<Action>, requests: map<nat, Request>, n: nat, i: nat)
    requires IsRun(ss, actions, requests) && Overlapping(ss, actions)
    requires n < |ss| && i in ss[n].tasks && ss[n].tasks[i].phase == Done
    ensures SharedWith(ss[n].tasks[i], i).Some? && SharedWith(ss[n].tasks[i], i).value in ss[n].calls
  {
    hide Overlapping, IsRun;
    StartedShares(ss, actions, requests, n, i);
    RunInv(ss, actions, requests, n);
    assert TaskOK(ss[n], i);
  }

  // The map

  /** `#refreshPromises`. */
  class RefreshPromises {
    var entries: map<string, Entry>

    constructor ()
      ensures entries == map[]
    {
      entries := map[];
    }

    /** The synchronous part of `maybeRefresh`: wait for a refresh in flight, or announce one's own. */
    method Begin(sessionId: Option<string>, refreshToken: string, me: nat) returns (waitFor: Option<nat>)
      requires sessionId != Some("")
      modifies this
      ensures waitFor == InFlightFor(old(entries), sessionId, refreshToken)
      ensures entries == if waitFor.Some? then old(entries) else Enter(old(entries), sessionId, Entry(refreshToken, me))
    {
      if sessionId.Some? {
        var id := sessionId.value;
        if id in entries && entries[id].refreshToken == refreshToken {
          return Some(entries[id].owner);
        }
        entries := entries[id := Entry(refreshToken, me)];
      }
      return None;
    }

    /** The `finally` of the owner. */
    method End(sessionId: Option<string>, me: nat)
      modifies this
      ensures entries == Leave(old(entries), sessionId, me)
    {
      if sessionId.Some? && sessionId.value in entries && entries[sessionId.value].owner == me {
        entries := entries - {sessionId.value};
      }
    }
  }
}
