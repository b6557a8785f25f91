/**
 * What an exchange answers, and why. Over every history: the answer of each exchange told from the row it found and its
 * own clock, the grant its tokens were read from, and that an expired code yields nothing.
 */
module DelegationExchange {
  import opened Wrappers
  import opened Scopes
  import opened DelegationRows
  import opened DelegationMachine
  import opened DelegationInvariant
  import opened DelegationPreservation
  import opened DelegationTraces
  import opened DelegationTheorems

  // The row an exchange finds

  /** The code is one of this agent's, for this agent user. */
  predicate OwnRow(rows: Rows, agent: Agent, code: string) {
    code != "" && code in rows.devices && rows.devices[code].clientId == agent.issuer
    && rows.devices[code].agentSub == agent.sub
  }

  predicate Open(d: Device) {
    d.status in {Pending, Approved}
  }

  /** Open and expired. */
  predicate Late(rows: Rows, agent: Agent, code: string, now: int) {
    OwnRow(rows, agent, code) && Open(rows.devices[code]) && now >= rows.devices[code].expiresAt
  }

  /** Open, in time, and nobody has approved it yet, or the approval is still under way. */
  predicate Awaited(rows: Rows, agent: Agent, code: string, now: int) {
    && OwnRow(rows, agent, code) && now < rows.devices[code].expiresAt
    && (rows.devices[code].status == Pending
      || (rows.devices[code].status == Approved && rows.devices[code].grantId.None?))
  }

  /** In time, and approved with this grant. */
  predicate Ready(rows: Rows, agent: Agent, code: string, now: int, id: string) {
    && OwnRow(rows, agent, code) && now < rows.devices[code].expiresAt
    && rows.devices[code].status == Approved && rows.devices[code].grantId == Some(id)
  }

  /** The last poll is less than the interval ago. */
  predicate TooSoon(d: Device, now: int) {
    d.lastPolledAt.Some? && now < d.lastPolledAt.value + d.intervalSeconds * 1000
  }

  predicate Ended(f: Frame, error: OAuthError) {
    f.Done? && f.outcome == Failed(error)
  }

  predicate IsExchange(f: Frame) {
    f.Polling? || f.ReadingGrant? || f.Consuming? || f.IssuingFirst? || (f.Done? && f.call.ExchangeCall?)
  }

  /** The call is past the look-up, with this grant. */
  predicate HasGrant(f: Frame, id: string) {
    || ((f.ReadingGrant? || f.Consuming? || f.IssuingFirst?) && f.grantId == id)
    || (f.Done? && f.outcome.Tokens? && f.outcome.grantId == id)
  }

  /** How an exchange stands, or how it ended, told from the rows its look-up found at `now`. */
  ghost predicate Told(rows: Rows, agent: Agent, code: string, now: int, f: Frame) {
    && IsExchange(f)
    && (f.Done? ==> f.call == ExchangeCall(agent, code) && (f.outcome.Tokens? || f.outcome.Failed?))
    && (!f.Done? ==> f.agent == agent && f.code == code && f.now == now)
    && (Ended(f, InvalidRequest) <==> code == "")
    && (Ended(f, AccessDenied) <==> OwnRow(rows, agent, code) && rows.devices[code].status == Denied)
    && (Ended(f, ExpiredToken) <==> Late(rows, agent, code, now))
    && (f.Polling? || Ended(f, AuthorizationPending) || Ended(f, SlowDown) <==> Awaited(rows, agent, code, now))
    && ((f.Polling? && f.tooSoon) || Ended(f, SlowDown) ==> TooSoon(rows.devices[code], now))
    && ((f.Polling? && !f.tooSoon) || Ended(f, AuthorizationPending) ==> !TooSoon(rows.devices[code], now))
    && (forall id :: HasGrant(f, id) ==> Ready(rows, agent, code, now, id))
    && (Ended(f, ServerError) ==> exists id :: Ready(rows, agent, code, now, id))
    && (f.Done? && f.outcome.Failed? ==>
          f.outcome.error in {InvalidRequest, InvalidGrant, AccessDenied, ExpiredToken, AuthorizationPending, SlowDown,
                              ServerError})
  }

  lemma FindTells(cfg: Config, s: Sys, l: Label)
    requires Enabled(s, l) && l.act.ExchangeFind?
    ensures Step(cfg, s, l).rows == s.rows && l.task in Step(cfg, s, l).frames
    ensures Told(s.rows, l.act.agent, l.act.code, l.act.now, Step(cfg, s, l).frames[l.task])
  {
    hide IsPactGrant, IsSnapshot, IsMostRecent, Finds;
  }

  /** A step that leaves an exchange behind, other than its look-up, goes on with one. */
  lemma GoesOn(cfg: Config, s: Sys, l: Label)
    requires Enabled(s, l) && !IsEnvironment(l.act) && !l.act.ExchangeFind?
    requires l.task in Step(cfg, s, l).frames && IsExchange(Step(cfg, s, l).frames[l.task])
    ensures l.task in s.frames && IsExchange(s.frames[l.task])
    ensures l.act.Poll? || l.act.ReadGrant? || l.act.Consume? || l.act.IssueFirst?
  {
    hide Enabled, Step, IsExchange;
    if IsApproverAct(l.act) {
      NotOfApprover(cfg, s, l);
    } else {
      GoesOnAgent(cfg, s, l);
    }
  }

  lemma NotOfApprover(cfg: Config, s: Sys, l: Label)
    requires Enabled(s, l) && IsApproverAct(l.act) && l.task in Step(cfg, s, l).frames
    ensures !IsExchange(Step(cfg, s, l).frames[l.task])
  {
    hide IsPactGrant, ParseScope, FormatScope, IsSnapshot, IsMostRecent, Finds, Keep, AllScopes, Dedup, CanTransition,
      LatestExpiry, Unrevoked, TransitionDevice, SetDeviceGrant, InsertGrant, UpdateGrant, RevokeGrantById,
      StepRequestDevice, StepInsertCode, StepExchangeFind, StepPoll, StepReadGrant, StepConsume, StepIssueFirst,
      StepRefreshFind, StepCheckRefresh, StepSpend, StepRevokeReused, StepIssueNext, StepVerify;
  }

  lemma GoesOnAgent(cfg: Config, s: Sys, l: Label)
    requires Enabled(s, l) && IsAgentAct(l.act) && !l.act.ExchangeFind?
    requires l.task in Step(cfg, s, l).frames && IsExchange(Step(cfg, s, l).frames[l.task])
    ensures l.task in s.frames && IsExchange(s.frames[l.task])
    ensures l.act.Poll? || l.act.ReadGrant? || l.act.Consume? || l.act.IssueFirst?
  {
    hide IsPactGrant, ParseScope, FormatScope, IsSnapshot, IsMostRecent, Finds, Usable, Sign, InScopes, CanTransition,
      CanUse, InsertDevice, DeleteDevicesExpiredBefore, MarkPolled, TransitionDevice, RevokeGrantById,
      InsertRefreshToken, UseRefreshToken, StepApproveFind, StepClaim, StepFindExisting, StepWiden, StepInsertGrant,
      StepConverge, StepMerge, StepRevokeExtra, StepBind, StepDenyFind, StepDeny;
  }

  lemma StillTold(cfg: Config, s: Sys, l: Label, rows: Rows, agent: Agent, code: string, now: int)
    requires Enabled(s, l) && (l.act.Poll? || l.act.ReadGrant? || l.act.Consume? || l.act.IssueFirst?)
    requires Told(rows, agent, code, now, s.frames[l.task])
    ensures l.task in Step(cfg, s, l).frames && Told(rows, agent, code, now, Step(cfg, s, l).frames[l.task])
  {
    hide IsPactGrant, IsSnapshot, IsMostRecent, Finds, Usable, Sign, CanTransition, MarkPolled, TransitionDevice,
      InsertRefreshToken, OwnRow, Late, Awaited, TooSoon, Ready;
    var f := s.frames[l.task];
    assert l.act.ReadGrant? ==> HasGrant(f, f.grantId);
    assert l.act.Consume? ==> HasGrant(f, f.grantId);
    assert l.act.IssueFirst? ==> HasGrant(f, f.grantId);
  }

  /** Over every history, an exchange began with a look-up whose rows and clock tell how it stands. */
  lemma {:induction false} ExchangeAnswers(cfg: Config, ss: seq<Sys>, run: seq<Label>, n: nat, t: nat) returns (i: nat)
    requires IsHistory(cfg, ss, run) && n <= |run| && t in ss[n].frames && IsExchange(ss[n].frames[t])
    ensures i < n && run[i].task == t && run[i].act.ExchangeFind?
    ensures Told(ss[i].rows, run[i].act.agent, run[i].act.code, run[i].act.now, ss[n].frames[t])
  {
    hide Inv, Enabled, Step, Told, IsExchange, IsEnvironment;
    HistoryInv(cfg, ss, run, n);
    var k := LeftBy(cfg, ss, run, n, t);
    MovesOwn(run[k], t);
    if run[k].act.ExchangeFind? {
      FindTells(cfg, ss[k], run[k]);
      i := k;
    } else {
      GoesOn(cfg, ss[k], run[k]);
      i := ExchangeAnswers(cfg, ss, run, k, t);
      StillTold(cfg, ss[k], run[k], ss[i].rows, run[i].act.agent, run[i].act.code, run[i].act.now);
    }
  }

  lemma MovesOwn(l: Label, t: nat)
    requires Moves(l, t)
    ensures l.task == t && !IsEnvironment(l.act)
  {
  }

  /** How a call that found its code ready may end. */
  lemma ReadyEnds(rows: Rows, agent: Agent, code: string, now: int, id: string, outcome: Outcome)
    requires Ready(rows, agent, code, now, id)
    requires if outcome.Tokens? then outcome.grantId == id else outcome in {Failed(InvalidGrant), Failed(ServerError)}
    ensures Told(rows, agent, code, now, Done(ExchangeCall(agent, code), outcome))
  {
  }

  /** And one that has to wait. */
  lemma AwaitedEnds(rows: Rows, agent: Agent, code: string, now: int)
    requires Awaited(rows, agent, code, now)
    ensures
      var error := if TooSoon(rows.devices[code], now) then SlowDown else AuthorizationPending;
      Told(rows, agent, code, now, Done(ExchangeCall(agent, code), Failed(error)))
  {
  }

  // Expired codes

  /** A call that is over stays as it ended. */
  lemma {:induction false} OverForGood(cfg: Config, ss: seq<Sys>, run: seq<Label>, i: nat, n: nat, t: nat)
    requires IsTrace(cfg, ss, run) && Inv(cfg, ss[0]) && i <= n <= |run| && t in ss[i].frames && ss[i].frames[t].Done?
    ensures t in ss[n].frames && ss[n].frames[t] == ss[i].frames[t]
    decreases n
  {
    hide Inv, Enabled, Step;
    if i < n {
      OverForGood(cfg, ss, run, i, n - 1, t);
      TraceInv(cfg, ss, run, n - 1);
      assert Enabled(ss[n - 1], run[n - 1]) && ss[n - 1 + 1] == Step(cfg, ss[n - 1], run[n - 1]);
      DoneStays(cfg, ss[n - 1], run[n - 1], t);
    }
  }

  /**
   * An exchange of the agent's own code, open but expired by the clock of the call, is over at once with
   * `expired_token`, changes no row, and is never answered anything else, whatever follows.
   */
  lemma LateYieldsNothing(cfg: Config, ss: seq<Sys>, run: seq<Label>, i: nat, n: nat)
    requires IsTrace(cfg, ss, run) && Inv(cfg, ss[0]) && i < n <= |run| && run[i].act.ExchangeFind?
    requires Late(ss[i].rows, run[i].act.agent, run[i].act.code, run[i].act.now)
    ensures ss[i + 1].rows == ss[i].rows && run[i].task in ss[n].frames
    ensures ss[n].frames[run[i].task] == Done(ExchangeCall(run[i].act.agent, run[i].act.code), Failed(ExpiredToken))
  {
    hide Inv, Enabled, Step, Late;
    assert Enabled(ss[i], run[i]) && ss[i + 1] == Step(cfg, ss[i], run[i]);
    FindTells(cfg, ss[i], run[i]);
    OverForGood(cfg, ss, run, i + 1, n, run[i].task);
  }

  /** The call that starts in `s` can end with tokens. */
  ghost predicate CanYield(cfg: Config, s: Sys, l: Label) {
    exists run: seq<Label> ::
      && IsRun(cfg, s, [l] + run)
      && l.task in After(cfg, s, [l] + run).frames && HasTokens(After(cfg, s, [l] + run).frames[l.task])
  }

  /**
   * So, for a code approved and bound to a grant that is usable for the agent, an exchange that starts now can end with
   * tokens if and only if the code has not expired by its clock.
   */
  lemma ExchangeOnTheClock(cfg: Config, s: Sys, l: Label, id: string)
    requires Inv(cfg, s) && Enabled(s, l) && l.act.ExchangeFind? && OwnRow(s.rows, l.act.agent, l.act.code)
    requires s.rows.devices[l.act.code].status == Approved && s.rows.devices[l.act.code].grantId == Some(id)
    requires id in s.rows.grants && Usable(id, s.rows.grants[id], l.act.agent, l.act.now, true)
    ensures CanYield(cfg, s, l) <==> l.act.now < s.rows.devices[l.act.code].expiresAt
  {
    hide Inv, Step, Usable, IsSnapshot, IsMostRecent, Finds, ParseScope, IsPactGrant;
    if l.act.now < s.rows.devices[l.act.code].expiresAt {
      var token := NewToken(s.rows.refreshTokens.Keys);
      var run := ExchangeRun(l.task, l.act.agent, l.act.code, l.act.now, token);
      ExchangeSucceeds(cfg, s, l.task, l.act.agent, l.act.code, l.act.now, token);
      assert run == [l] + run[1..];
    } else {
      forall run: seq<Label> | IsRun(cfg, s, [l] + run)
        ensures
          var s' := After(cfg, s, [l] + run);
          l.task in s'.frames && s'.frames[l.task] == Done(ExchangeCall(l.act.agent, l.act.code), Failed(ExpiredToken))
      {
        RunIsTrace(cfg, s, [l] + run);
        LateYieldsNothing(cfg, TraceOf(cfg, s, [l] + run), [l] + run, 0, |run| + 1);
      }
    }
  }

  lemma {:induction false} NewToken(tokens: set<string>) returns (token: string)
    ensures token !in tokens
  {
    var n := LongerThanAll(tokens);
    token := seq(n, i => 'x');
  }

  lemma {:induction false} LongerThanAll(tokens: set<string>) returns (n: nat)
    ensures forall t :: t in tokens ==> |t| < n
  {
    n := 0;
    if tokens != {} {
      var x :| x in tokens;
      n := LongerThanAll(tokens - {x});
      if n <= |x| { n := |x| + 1; }
    }
  }

  // What the tokens are read from

  /** The exchange at `f` has read its grant in `s`, live by the clock of the call, and signed what it read. */
  ghost predicate ReadIn(cfg: Config, s: Sys, t: nat, f: Frame) {
    && t in s.frames && s.frames[t].ReadingGrant?
    && var r := s.frames[t];
    && IsPactGrant(r.grantId) && r.grantId in s.rows.grants
    && var g := s.rows.grants[r.grantId];
    && g.revokedAt.None? && r.now < g.expiresAt && g.clientId == r.agent.issuer && g.agentSub == r.agent.sub
    && var access := AccessToken(g.accountId, g.clientId, g.scope, r.grantId, r.now / 1000 + cfg.accessTokenTtl);
    match f
    case Consuming(agent, code, id, grant, token, now) =>
      agent == r.agent && code == r.code && id == r.grantId && grant == g && token == access && now == r.now
    case IssuingFirst(agent, code, id, grant, token, now) =>
      agent == r.agent && code == r.code && id == r.grantId && grant == g && token == access && now == r.now
    case Done(call, Tokens(id, token, _)) =>
      call == ExchangeCall(r.agent, r.code) && id == r.grantId && token == access
    case _ => false
  }

  predicate HasRead(f: Frame) {
    f.Consuming? || f.IssuingFirst? || (HasTokens(f) && f.call.ExchangeCall?)
  }

  lemma ReadingReads(cfg: Config, s: Sys, l: Label)
    requires Enabled(s, l) && l.act.ReadGrant?
    requires l.task in Step(cfg, s, l).frames && HasRead(Step(cfg, s, l).frames[l.task])
    ensures l.act == ReadGrant(true, true) && ReadIn(cfg, s, l.task, Step(cfg, s, l).frames[l.task])
  {
    hide IsPactGrant, IsSnapshot, IsMostRecent, Finds;
  }

  lemma StillRead(cfg: Config, s: Sys, l: Label, was: Sys)
    requires Enabled(s, l) && (l.act.Poll? || l.act.Consume? || l.act.IssueFirst?)
    requires l.task in Step(cfg, s, l).frames && HasRead(Step(cfg, s, l).frames[l.task])
    ensures l.task in s.frames && HasRead(s.frames[l.task])
    ensures ReadIn(cfg, was, l.task, s.frames[l.task]) ==> ReadIn(cfg, was, l.task, Step(cfg, s, l).frames[l.task])
  {
    hide IsPactGrant, IsSnapshot, IsMostRecent, Finds, CanTransition, MarkPolled, TransitionDevice, InsertRefreshToken;
  }

  lemma {:induction false} TokensWereRead(cfg: Config, ss: seq<Sys>, run: seq<Label>, n: nat, t: nat) returns (j: nat)
    requires IsHistory(cfg, ss, run) && n <= |run| && t in ss[n].frames && HasRead(ss[n].frames[t])
    ensures j < n && run[j] == Label(t, ReadGrant(true, true)) && ReadIn(cfg, ss[j], t, ss[n].frames[t])
  {
    hide Inv, Enabled, Step, ReadIn, IsExchange, HasRead, IsEnvironment;
    HistoryInv(cfg, ss, run, n);
    var k := LeftBy(cfg, ss, run, n, t);
    MovesOwn(run[k], t);
    ReadIsExchange(ss[n].frames[t]);
    if run[k].act.ReadGrant? {
      ReadingReads(cfg, ss[k], run[k]);
      j := k;
    } else {
      NotAtLookUp(cfg, ss[k], run[k]);
      GoesOn(cfg, ss[k], run[k]);
      StillRead(cfg, ss[k], run[k], ss[k]);
      j := TokensWereRead(cfg, ss, run, k, t);
      StillRead(cfg, ss[k], run[k], ss[j]);
    }
  }

  lemma ReadIsExchange(f: Frame)
    requires HasRead(f)
    ensures IsExchange(f)
  {
  }

  lemma NotAtLookUp(cfg: Config, s: Sys, l: Label)
    requires Enabled(s, l) && l.task in Step(cfg, s, l).frames && HasRead(Step(cfg, s, l).frames[l.task])
    ensures !l.act.ExchangeFind?
  {
    hide IsPactGrant, IsSnapshot, IsMostRecent, Finds;
    if l.act.ExchangeFind? { FindTells(cfg, s, l); }
  }

  /** The last step of an exchange stores the refresh token it answers, until the expiry of the grant it read. */
  lemma IssuingStores(cfg: Config, s: Sys, l: Label)
    requires Enabled(s, l) && !IsEnvironment(l.act) && l.task in Step(cfg, s, l).frames
    requires HasTokens(Step(cfg, s, l).frames[l.task]) && Step(cfg, s, l).frames[l.task].call.ExchangeCall?
    ensures l.act == IssueFirst(Step(cfg, s, l).frames[l.task].outcome.refresh)
    ensures l.task in s.frames && s.frames[l.task].IssuingFirst? && l.act.token !in s.rows.refreshTokens
    ensures l.act.token in Step(cfg, s, l).rows.refreshTokens
    ensures Step(cfg, s, l).rows.refreshTokens[l.act.token] ==
      RefreshToken(s.frames[l.task].grantId, s.frames[l.task].grant.expiresAt, None)
  {
    hide IsPactGrant, IsSnapshot, IsMostRecent, Finds, Usable, Sign, CanTransition, MarkPolled, TransitionDevice;
    NotAtLookUp(cfg, s, l);
    GoesOn(cfg, s, l);
  }

  /**
   * Over every history, a token response to an exchange: the look-up found the agent's own code approved, bound and in
   * time by the clock of the call; the grant was read after it, live by the same clock, and the access token is what it
   * said then, for the configured time from that clock; the refresh token was stored last, to expire with the grant.
   */
  lemma TokensExplained(cfg: Config, ss: seq<Sys>, run: seq<Label>, n: nat, t: nat) returns (i: nat, j: nat, k: nat)
    requires IsHistory(cfg, ss, run) && n <= |run| && t in ss[n].frames
    requires HasTokens(ss[n].frames[t]) && ss[n].frames[t].call.ExchangeCall?
    ensures i < j < k < n && run[i].task == t && run[i].act.ExchangeFind?
    ensures
      var call, id, now := ss[n].frames[t].call, ss[n].frames[t].outcome.grantId, run[i].act.now;
      && run[i].act == ExchangeFind(call.agent, call.code, now) && Ready(ss[i].rows, call.agent, call.code, now, id)
      && run[j] == Label(t, ReadGrant(true, true)) && ReadIn(cfg, ss[j], t, ss[n].frames[t])
        && ss[j].frames[t].now == now
      && run[k] == Label(t, IssueFirst(ss[n].frames[t].outcome.refresh))
      && run[k].act.token in ss[k + 1].rows.refreshTokens
      && ss[k + 1].rows.refreshTokens[run[k].act.token] == RefreshToken(id, ss[j].rows.grants[id].expiresAt, None)
  {
    hide Inv, Enabled, Step, ReadIn, Told, IsEnvironment, OwnRow;
    HistoryInv(cfg, ss, run, n);
    k := LeftBy(cfg, ss, run, n, t);
    MovesOwn(run[k], t);
    IssuingStores(cfg, ss[k], run[k]);
    j := TokensWereRead(cfg, ss, run, k, t);
    IssuedAsRead(cfg, ss[k], run[k], ss[j]);
    ReadingFacts(cfg, ss[j], t, ss[k].frames[t]);
    i := ExchangeAnswers(cfg, ss, run, j, t);
    ReadingIsReady(ss[i].rows, run[i].act.agent, run[i].act.code, run[i].act.now, ss[j].frames[t]);
    ReadingFacts(cfg, ss[j], t, ss[n].frames[t]);
  }

  lemma IssuedAsRead(cfg: Config, s: Sys, l: Label, was: Sys)
    requires Enabled(s, l) && l.act.IssueFirst? && ReadIn(cfg, was, l.task, s.frames[l.task])
    ensures l.task in Step(cfg, s, l).frames && ReadIn(cfg, was, l.task, Step(cfg, s, l).frames[l.task])
  {
    hide IsPactGrant, IsSnapshot, IsMostRecent, Finds, InsertRefreshToken;
  }

  lemma ReadingFacts(cfg: Config, s: Sys, t: nat, f: Frame)
    requires ReadIn(cfg, s, t, f)
    ensures t in s.frames && s.frames[t].ReadingGrant? && IsExchange(s.frames[t])
    ensures s.frames[t].grantId in s.rows.grants
    ensures f.IssuingFirst? ==> f.grantId == s.frames[t].grantId && f.grant == s.rows.grants[f.grantId]
    ensures f.Done? ==>
      && f.outcome.Tokens? && f.outcome.grantId == s.frames[t].grantId
      && f.call == ExchangeCall(s.frames[t].agent, s.frames[t].code)
  {
    hide IsPactGrant;
  }

  lemma ReadingIsReady(rows: Rows, agent: Agent, code: string, now: int, f: Frame)
    requires Told(rows, agent, code, now, f) && f.ReadingGrant?
    ensures Ready(rows, agent, code, now, f.grantId) && f.agent == agent && f.code == code && f.now == now
  {
    hide Ready, OwnRow, Late, Awaited;
    assert HasGrant(f, f.grantId);
  }
}
