/**
 * What a refresh and a verification answer, and why. Over every history: the answer of each refresh told from the row
 * it found and its own clock, the grant its tokens were read from, and how long an access token is accepted.
 */
module DelegationRefresh {
  import opened Wrappers
  import opened Scopes
  import opened DelegationRows
  import opened DelegationMachine
  import opened DelegationInvariant
  import opened DelegationPreservation
  import opened DelegationTraces
  import opened DelegationTheorems
  import opened DelegationExchange

  /** The refresh token is there and in time. */
  predicate Valid(rows: Rows, token: string, now: int) {
    token != "" && token in rows.refreshTokens && now < rows.refreshTokens[token].expiresAt
  }

  predicate IsRefresh(f: Frame) {
    f.CheckingRefresh? || f.Spending? || f.RevokingReused? || f.IssuingNext? || (f.Done? && f.call.RefreshCall?)
  }

  /** How a refresh stands, or how it ended, told from the rows its look-up found at `now`. */
  ghost predicate RefreshTold(rows: Rows, agent: Agent, token: string, now: int, f: Frame) {
    && IsRefresh(f)
    && (f.Done? ==>
          f.call.agent == agent && f.call.token == token
          && (f.outcome.Tokens? || f.outcome in {Failed(InvalidRequest), Failed(InvalidGrant), Failed(ServerError)}))
    && (!f.Done? ==> f.agent == agent && f.token == token && f.now == now)
    && (Ended(f, InvalidRequest) <==> token == "")
    && (token != "" && !Valid(rows, token, now) ==> f == Done(RefreshCall(agent, token, None), Failed(InvalidGrant)))
    && (f.CheckingRefresh? ==> Valid(rows, token, now) && f.row == rows.refreshTokens[token])
    && (f.Spending? || f.IssuingNext? ==>
          Valid(rows, token, now) && rows.refreshTokens[token].usedAt.None?
          && f.grantId == rows.refreshTokens[token].grantId)
    && (f.RevokingReused? ==> Valid(rows, token, now) && f.grantId == rows.refreshTokens[token].grantId)
    && (f.Done? && f.call.usable.Some? ==>
          Valid(rows, token, now) && f.call.usable.value == rows.refreshTokens[token].grantId)
    && (HasTokens(f) ==>
          rows.refreshTokens[token].usedAt.None? && f.call.usable == Some(f.outcome.grantId))
  }

  lemma LookUpTells(cfg: Config, s: Sys, l: Label)
    requires Enabled(s, l) && l.act.RefreshFind?
    ensures Step(cfg, s, l).rows == s.rows && l.task in Step(cfg, s, l).frames
    ensures RefreshTold(s.rows, l.act.agent, l.act.token, l.act.now, Step(cfg, s, l).frames[l.task])
  {
    hide IsPactGrant, IsSnapshot, IsMostRecent, Finds;
  }

  /** How a call that found its token in time may end, past the check of the grant. */
  lemma ValidEnds(rows: Rows, agent: Agent, token: string, now: int, outcome: Outcome)
    requires Valid(rows, token, now)
    requires if outcome.Tokens? then
        outcome.grantId == rows.refreshTokens[token].grantId && rows.refreshTokens[token].usedAt.None?
      else outcome in {Failed(InvalidGrant), Failed(ServerError)}
    ensures RefreshTold(
        rows, agent, token, now, Done(RefreshCall(agent, token, Some(rows.refreshTokens[token].grantId)), outcome))
  {
  }

  /** Or at that check. */
  lemma CheckEnds(rows: Rows, agent: Agent, token: string, now: int)
    requires token != ""
    ensures RefreshTold(rows, agent, token, now, Done(RefreshCall(agent, token, None), Failed(InvalidGrant)))
  {
  }

  lemma RefreshGoesOn(cfg: Config, s: Sys, l: Label)
    requires Enabled(s, l) && !IsEnvironment(l.act) && !l.act.RefreshFind?
    requires l.task in Step(cfg, s, l).frames && IsRefresh(Step(cfg, s, l).frames[l.task])
    ensures l.task in s.frames && IsRefresh(s.frames[l.task])
    ensures l.act.CheckRefresh? || l.act.Spend? || l.act.RevokeReused? || l.act.IssueNext?
  {
    hide Enabled, Step, IsRefresh;
    if IsApproverAct(l.act) {
      NoRefreshOfApprover(cfg, s, l);
    } else {
      RefreshGoesOnAgent(cfg, s, l);
    }
  }

  lemma NoRefreshOfApprover(cfg: Config, s: Sys, l: Label)
    requires Enabled(s, l) && IsApproverAct(l.act) && l.task in Step(cfg, s, l).frames
    ensures !IsRefresh(Step(cfg, s, l).frames[l.task])
  {
    hide IsPactGrant, ParseScope, FormatScope, IsSnapshot, IsMostRecent, Finds, Keep, AllScopes, Dedup, CanTransition,
      LatestExpiry, Unrevoked, TransitionDevice, SetDeviceGrant, InsertGrant, UpdateGrant, RevokeGrantById,
      StepRequestDevice, StepInsertCode, StepExchangeFind, StepPoll, StepReadGrant, StepConsume, StepIssueFirst,
      StepRefreshFind, StepCheckRefresh, StepSpend, StepRevokeReused, StepIssueNext, StepVerify;
  }

  lemma RefreshGoesOnAgent(cfg: Config, s: Sys, l: Label)
    requires Enabled(s, l) && IsAgentAct(l.act) && !l.act.RefreshFind?
    requires l.task in Step(cfg, s, l).frames && IsRefresh(Step(cfg, s, l).frames[l.task])
    ensures l.task in s.frames && IsRefresh(s.frames[l.task])
    ensures l.act.CheckRefresh? || l.act.Spend? || l.act.RevokeReused? || l.act.IssueNext?
  {
    hide IsPactGrant, ParseScope, FormatScope, IsSnapshot, IsMostRecent, Finds, Usable, Sign, InScopes, CanTransition,
      CanUse, InsertDevice, DeleteDevicesExpiredBefore, MarkPolled, TransitionDevice, RevokeGrantById,
      InsertRefreshToken, UseRefreshToken, StepApproveFind, StepClaim, StepFindExisting, StepWiden, StepInsertGrant,
      StepConverge, StepMerge, StepRevokeExtra, StepBind, StepDenyFind, StepDeny;
  }

  lemma RefreshStillTold(cfg: Config, s: Sys, l: Label, rows: Rows, agent: Agent, token: string, now: int)
    requires Enabled(s, l) && (l.act.CheckRefresh? || l.act.Spend? || l.act.RevokeReused? || l.act.IssueNext?)
    requires RefreshTold(rows, agent, token, now, s.frames[l.task])
    ensures l.task in Step(cfg, s, l).frames
    ensures RefreshTold(rows, agent, token, now, Step(cfg, s, l).frames[l.task])
  {
    hide IsPactGrant, IsSnapshot, IsMostRecent, Finds, Usable, Sign, CanUse, UseRefreshToken, RevokeGrantById,
      InsertRefreshToken, Valid;
  }

  /** Over every history, a refresh began with a look-up whose rows and clock tell how it stands. */
  lemma {:induction false} RefreshAnswers(cfg: Config, ss: seq<Sys>, run: seq<Label>, n: nat, t: nat) returns (i: nat)
    requires IsHistory(cfg, ss, run) && n <= |run| && t in ss[n].frames && IsRefresh(ss[n].frames[t])
    ensures i < n && run[i].task == t && run[i].act.RefreshFind?
    ensures RefreshTold(ss[i].rows, run[i].act.agent, run[i].act.token, run[i].act.now, ss[n].frames[t])
  {
    hide Inv, Enabled, Step, RefreshTold, IsRefresh, IsEnvironment;
    HistoryInv(cfg, ss, run, n);
    var k := LeftBy(cfg, ss, run, n, t);
    MovesOwn(run[k], t);
    if run[k].act.RefreshFind? {
      LookUpTells(cfg, ss[k], run[k]);
      i := k;
    } else {
      RefreshGoesOn(cfg, ss[k], run[k]);
      i := RefreshAnswers(cfg, ss, run, k, t);
      RefreshStillTold(cfg, ss[k], run[k], ss[i].rows, run[i].act.agent, run[i].act.token, run[i].act.now);
    }
  }

  // What the tokens are read from

  /** In `s` the grant may act for the agent at `now`, if the account is active. */
  predicate LiveFor(rows: Rows, id: string, agent: Agent, now: int) {
    && IsPactGrant(id) && id in rows.grants
    && rows.grants[id].revokedAt.None? && now < rows.grants[id].expiresAt
    && rows.grants[id].clientId == agent.issuer && rows.grants[id].agentSub == agent.sub
  }

  /** An exchange or a refresh gets past its check exactly if the grant is live for the agent and its account active. */
  lemma ChecksExactly(cfg: Config, s: Sys, l: Label)
    requires Enabled(s, l) && (l.act.ReadGrant? || l.act.CheckRefresh?)
    ensures l.task in Step(cfg, s, l).frames && Step(cfg, s, l).rows == s.rows
    ensures
      var f, f' := s.frames[l.task], Step(cfg, s, l).frames[l.task];
      && (l.act.ReadGrant? ==>
            && (f'.Consuming? <==> LiveFor(s.rows, f.grantId, f.agent, f.now) && l.act.active && l.act.signed)
            && (Ended(f', InvalidGrant) <==> !(LiveFor(s.rows, f.grantId, f.agent, f.now) && l.act.active))
            && (Ended(f', ServerError) <==>
              LiveFor(s.rows, f.grantId, f.agent, f.now) && l.act.active && !l.act.signed))
      && (l.act.CheckRefresh? ==>
            && (Ended(f', InvalidGrant) <==> !(LiveFor(s.rows, f.row.grantId, f.agent, f.now) && l.act.active))
            && (f'.RevokingReused? <==>
                  LiveFor(s.rows, f.row.grantId, f.agent, f.now) && l.act.active && f.row.usedAt.Some?)
            && (f'.Spending? <==>
                  LiveFor(s.rows, f.row.grantId, f.agent, f.now) && l.act.active && f.row.usedAt.None?))
  {
    hide IsPactGrant, IsSnapshot, IsMostRecent, Finds;
  }

  /** The refresh at `f` has read its grant in `s`, live by the clock of the call. */
  ghost predicate RefreshReadIn(cfg: Config, s: Sys, t: nat, f: Frame) {
    && t in s.frames && s.frames[t].CheckingRefresh?
    && var r := s.frames[t];
    && LiveFor(s.rows, r.row.grantId, r.agent, r.now)
    && var id, g := r.row.grantId, s.rows.grants[r.row.grantId];
    match f
    case Spending(agent, token, i, grant, now) =>
      r.row.usedAt.None? && agent == r.agent && token == r.token && i == id && grant == g && now == r.now
    case IssuingNext(agent, token, i, grant, now) =>
      r.row.usedAt.None? && agent == r.agent && token == r.token && i == id && grant == g && now == r.now
    case Done(call, Tokens(i, access, _)) =>
      && r.row.usedAt.None? && call == RefreshCall(r.agent, r.token, Some(id)) && i == id
      && access == AccessToken(g.accountId, g.clientId, g.scope, id, r.now / 1000 + cfg.accessTokenTtl)
    case _ => false
  }

  predicate HasChecked(f: Frame) {
    f.Spending? || f.IssuingNext? || (HasTokens(f) && f.call.RefreshCall?)
  }

  lemma CheckingReads(cfg: Config, s: Sys, l: Label)
    requires Enabled(s, l) && l.act.CheckRefresh?
    requires l.task in Step(cfg, s, l).frames && HasChecked(Step(cfg, s, l).frames[l.task])
    ensures l.act == CheckRefresh(true) && RefreshReadIn(cfg, s, l.task, Step(cfg, s, l).frames[l.task])
  {
    hide IsPactGrant, IsSnapshot, IsMostRecent, Finds;
  }

  lemma StillChecked(cfg: Config, s: Sys, l: Label, was: Sys)
    requires Enabled(s, l) && (l.act.Spend? || l.act.RevokeReused? || l.act.IssueNext?)
    requires l.task in Step(cfg, s, l).frames && HasChecked(Step(cfg, s, l).frames[l.task])
    ensures l.task in s.frames && HasChecked(s.frames[l.task])
    ensures RefreshReadIn(cfg, was, l.task, s.frames[l.task]) ==>
      RefreshReadIn(cfg, was, l.task, Step(cfg, s, l).frames[l.task])
  {
    hide IsPactGrant, IsSnapshot, IsMostRecent, Finds, CanUse, UseRefreshToken, RevokeGrantById, InsertRefreshToken,
      LiveFor;
  }

  lemma CheckedIsRefresh(cfg: Config, s: Sys, l: Label)
    requires Enabled(s, l) && l.task in Step(cfg, s, l).frames && HasChecked(Step(cfg, s, l).frames[l.task])
    ensures IsRefresh(Step(cfg, s, l).frames[l.task]) && !l.act.RefreshFind?
  {
    hide IsPactGrant, IsSnapshot, IsMostRecent, Finds;
    if l.act.RefreshFind? { LookUpTells(cfg, s, l); }
  }

  lemma {:induction false} RefreshWasRead(cfg: Config, ss: seq<Sys>, run: seq<Label>, n: nat, t: nat) returns (j: nat)
    requires IsHistory(cfg, ss, run) && n <= |run| && t in ss[n].frames && HasChecked(ss[n].frames[t])
    ensures j < n && run[j] == Label(t, CheckRefresh(true)) && RefreshReadIn(cfg, ss[j], t, ss[n].frames[t])
  {
    hide Inv, Enabled, Step, RefreshReadIn, IsRefresh, HasChecked, IsEnvironment;
    HistoryInv(cfg, ss, run, n);
    var k := LeftBy(cfg, ss, run, n, t);
    MovesOwn(run[k], t);
    CheckedIsRefresh(cfg, ss[k], run[k]);
    RefreshGoesOn(cfg, ss[k], run[k]);
    if run[k].act.CheckRefresh? {
      CheckingReads(cfg, ss[k], run[k]);
      j := k;
    } else {
      StillChecked(cfg, ss[k], run[k], ss[k]);
      j := RefreshWasRead(cfg, ss, run, k, t);
      StillChecked(cfg, ss[k], run[k], ss[j]);
    }
  }

  /** The last step of a refresh stores the next refresh token, until the expiry of the grant it read. */
  lemma NextIsStored(cfg: Config, s: Sys, l: Label)
    requires Enabled(s, l) && !IsEnvironment(l.act) && l.task in Step(cfg, s, l).frames
    requires HasTokens(Step(cfg, s, l).frames[l.task]) && Step(cfg, s, l).frames[l.task].call.RefreshCall?
    ensures l.act == IssueNext(true, Step(cfg, s, l).frames[l.task].outcome.refresh)
    ensures l.task in s.frames && s.frames[l.task].IssuingNext? && l.act.token !in s.rows.refreshTokens
    ensures l.act.token in Step(cfg, s, l).rows.refreshTokens
    ensures Step(cfg, s, l).rows.refreshTokens[l.act.token] ==
      RefreshToken(s.frames[l.task].grantId, s.frames[l.task].grant.expiresAt, None)
  {
    hide IsPactGrant, IsSnapshot, IsMostRecent, Finds, Usable, Sign, CanUse, UseRefreshToken, RevokeGrantById;
    CheckedIsRefresh(cfg, s, l);
    RefreshGoesOn(cfg, s, l);
  }

  /**
   * Over every history, a token response to a refresh: the look-up found the token unused and in time by the clock of
   * the call; its grant was read after it, live by the same clock, and the access token is what it said then, for the
   * configured time from that clock; the next refresh token was stored last, to expire with the grant.
   */
  lemma RefreshExplained(cfg: Config, ss: seq<Sys>, run: seq<Label>, n: nat, t: nat) returns (i: nat, j: nat, k: nat)
    requires IsHistory(cfg, ss, run) && n <= |run| && t in ss[n].frames
    requires HasTokens(ss[n].frames[t]) && ss[n].frames[t].call.RefreshCall?
    ensures i < j < k < n && run[i].task == t && run[i].act.RefreshFind?
    ensures
      var call, id, now := ss[n].frames[t].call, ss[n].frames[t].outcome.grantId, run[i].act.now;
      && run[i].act == RefreshFind(call.agent, call.token, now) && Valid(ss[i].rows, call.token, now)
      && ss[i].rows.refreshTokens[call.token].grantId == id && ss[i].rows.refreshTokens[call.token].usedAt.None?
      && run[j] == Label(t, CheckRefresh(true)) && RefreshReadIn(cfg, ss[j], t, ss[n].frames[t])
      && ss[j].frames[t].now == now
      && run[k] == Label(t, IssueNext(true, ss[n].frames[t].outcome.refresh))
      && run[k].act.token in ss[k + 1].rows.refreshTokens
      && ss[k + 1].rows.refreshTokens[run[k].act.token] == RefreshToken(id, ss[j].rows.grants[id].expiresAt, None)
  {
    hide Inv, Enabled, Step, RefreshReadIn, RefreshTold, IsEnvironment, Valid;
    HistoryInv(cfg, ss, run, n);
    k := LeftBy(cfg, ss, run, n, t);
    MovesOwn(run[k], t);
    NextIsStored(cfg, ss[k], run[k]);
    j := RefreshWasRead(cfg, ss, run, k, t);
    NextAsRead(cfg, ss[k], run[k], ss[j]);
    CheckingFacts(cfg, ss[j], t, ss[k].frames[t]);
    i := RefreshAnswers(cfg, ss, run, j, t);
    CheckingIsValid(ss[i].rows, run[i].act.agent, run[i].act.token, run[i].act.now, ss[j].frames[t]);
    CheckingFacts(cfg, ss[j], t, ss[n].frames[t]);
  }

  lemma NextAsRead(cfg: Config, s: Sys, l: Label, was: Sys)
    requires Enabled(s, l) && l.act.IssueNext? && l.act.signed && RefreshReadIn(cfg, was, l.task, s.frames[l.task])
    ensures l.task in Step(cfg, s, l).frames && RefreshReadIn(cfg, was, l.task, Step(cfg, s, l).frames[l.task])
  {
    hide IsPactGrant, IsSnapshot, IsMostRecent, Finds, InsertRefreshToken, LiveFor;
  }

  lemma CheckingFacts(cfg: Config, s: Sys, t: nat, f: Frame)
    requires RefreshReadIn(cfg, s, t, f)
    ensures t in s.frames && s.frames[t].CheckingRefresh? && IsRefresh(s.frames[t])
    ensures s.frames[t].row.grantId in s.rows.grants && s.frames[t].row.usedAt.None?
    ensures f.IssuingNext? ==>
      f.grantId == s.frames[t].row.grantId && f.grant == s.rows.grants[f.grantId]
    ensures f.Done? ==>
      && f.outcome.Tokens? && f.outcome.grantId == s.frames[t].row.grantId
      && f.call == RefreshCall(s.frames[t].agent, s.frames[t].token, Some(f.outcome.grantId))
  {
    hide IsPactGrant;
  }

  lemma CheckingIsValid(rows: Rows, agent: Agent, token: string, now: int, f: Frame)
    requires RefreshTold(rows, agent, token, now, f) && f.CheckingRefresh?
    ensures Valid(rows, token, now) && f.row == rows.refreshTokens[token]
    ensures f.agent == agent && f.token == token && f.now == now
  {
    hide Valid;
  }

  // Verification

  /** A verification gives the context exactly if the token is genuine and in time, and its grant live for the agent. */
  lemma VerifiesExactly(cfg: Config, s: Sys, l: Label)
    requires Enabled(s, l) && l.act.Verify?
    ensures l.task in Step(cfg, s, l).frames
    ensures
      var agent, token, now := l.act.agent, l.act.access, l.act.now;
      var good :=
        && token in s.log.signed && now / 1000 < token.expiresAt && token.clientId == agent.issuer
        && LiveFor(s.rows, token.grantId, agent, now) && s.rows.grants[token.grantId].accountId == token.sub
        && l.act.active;
      Step(cfg, s, l).frames[l.task] ==
        Done(VerifyCall(agent), if good then Context(Party(token.sub, agent.issuer, agent.sub), ParseScope(token.scope),
                                                     token.grantId)
                                else NoContext)
  {
    hide ParseScope, IsPactGrant, IsSnapshot, IsMostRecent, Finds;
  }

  /**
   * Some call of this agent signed the token at `at`, in the state before step `k`, from the grant as it had read it.
   */
  ghost predicate SignedAt(cfg: Config, ss: seq<Sys>, run: seq<Label>, k: nat, a: AccessToken, at: int)
    requires |ss| == |run| + 1 && k < |run|
  {
    && run[k].task in ss[k].frames
    && var f := ss[k].frames[run[k].task];
    && ((f.ReadingGrant? && run[k].act.ReadGrant?) || (f.IssuingNext? && run[k].act.IssueNext?))
    && a.grantId == f.grantId && at == f.now && a.expiresAt == at / 1000 + cfg.accessTokenTtl
  }

  lemma SigningStep(cfg: Config, s: Sys, l: Label, a: AccessToken)
    requires Enabled(s, l) && a in Step(cfg, s, l).log.signed && a !in s.log.signed
    ensures l.task in s.frames
    ensures
      var f := s.frames[l.task];
      && ((f.ReadingGrant? && l.act.ReadGrant?) || (f.IssuingNext? && l.act.IssueNext?))
      && a.grantId == f.grantId && a.expiresAt == f.now / 1000 + cfg.accessTokenTtl
  {
    hide Enabled, Step;
    if IsEnvironment(l.act) {
      EnvironmentOnlyRows(cfg, s, l);
    } else if IsApproverAct(l.act) {
      ApproverSignsNothing(cfg, s, l);
    } else {
      AgentSigns(cfg, s, l, a);
    }
  }

  lemma ApproverSignsNothing(cfg: Config, s: Sys, l: Label)
    requires Enabled(s, l) && IsApproverAct(l.act)
    ensures Step(cfg, s, l).log.signed == s.log.signed
  {
    hide IsPactGrant, ParseScope, FormatScope, IsSnapshot, IsMostRecent, Finds, Keep, AllScopes, Dedup, CanTransition,
      LatestExpiry, Unrevoked, TransitionDevice, SetDeviceGrant, InsertGrant, UpdateGrant, RevokeGrantById,
      StepRequestDevice, StepInsertCode, StepExchangeFind, StepPoll, StepReadGrant, StepConsume, StepIssueFirst,
      StepRefreshFind, StepCheckRefresh, StepSpend, StepRevokeReused, StepIssueNext, StepVerify;
  }

  lemma AgentSigns(cfg: Config, s: Sys, l: Label, a: AccessToken)
    requires Enabled(s, l) && IsAgentAct(l.act) && a in Step(cfg, s, l).log.signed && a !in s.log.signed
    ensures l.task in s.frames
    ensures
      var f := s.frames[l.task];
      && ((f.ReadingGrant? && l.act.ReadGrant?) || (f.IssuingNext? && l.act.IssueNext?))
      && a.grantId == f.grantId && a.expiresAt == f.now / 1000 + cfg.accessTokenTtl
  {
    hide Enabled, Step;
    if IsCodeAct(l.act) { CodeActSigns(cfg, s, l, a); } else { RefreshActSigns(cfg, s, l, a); }
  }

  lemma CodeActSigns(cfg: Config, s: Sys, l: Label, a: AccessToken)
    requires Enabled(s, l) && IsCodeAct(l.act) && a in Step(cfg, s, l).log.signed && a !in s.log.signed
    ensures l.task in s.frames && s.frames[l.task].ReadingGrant? && l.act.ReadGrant?
    ensures a.grantId == s.frames[l.task].grantId && a.expiresAt == s.frames[l.task].now / 1000 + cfg.accessTokenTtl
  {
    hide Enabled, Step;
    if l.act.ReadGrant? { ReadGrantSigns(cfg, s, l, a); } else { OtherCodeActSignsNothing(cfg, s, l, a); }
  }

  lemma ReadGrantSigns(cfg: Config, s: Sys, l: Label, a: AccessToken)
    requires Enabled(s, l) && l.act.ReadGrant? && a in Step(cfg, s, l).log.signed && a !in s.log.signed
    ensures l.task in s.frames && s.frames[l.task].ReadingGrant?
    ensures a.grantId == s.frames[l.task].grantId && a.expiresAt == s.frames[l.task].now / 1000 + cfg.accessTokenTtl
  {
    hide IsPactGrant, IsSnapshot, IsMostRecent, Finds, Usable;
  }

  lemma OtherCodeActSignsNothing(cfg: Config, s: Sys, l: Label, a: AccessToken)
    requires Enabled(s, l) && IsCodeAct(l.act) && !l.act.ReadGrant?
    ensures a in Step(cfg, s, l).log.signed ==> a in s.log.signed
  {
    hide IsPactGrant, ParseScope, FormatScope, IsSnapshot, IsMostRecent, Finds, Usable, InScopes, CanTransition,
      InsertDevice, DeleteDevicesExpiredBefore, MarkPolled, TransitionDevice, InsertRefreshToken, StepReadGrant,
      StepRefreshFind, StepCheckRefresh, StepSpend, StepRevokeReused, StepIssueNext, StepApproveFind, StepClaim,
      StepFindExisting, StepWiden, StepInsertGrant, StepConverge, StepMerge, StepRevokeExtra, StepBind, StepDenyFind,
      StepDeny;
  }

  lemma RefreshActSigns(cfg: Config, s: Sys, l: Label, a: AccessToken)
    requires Enabled(s, l) && IsRefreshAct(l.act) && a in Step(cfg, s, l).log.signed && a !in s.log.signed
    ensures l.task in s.frames && s.frames[l.task].IssuingNext? && l.act.IssueNext?
    ensures a.grantId == s.frames[l.task].grantId && a.expiresAt == s.frames[l.task].now / 1000 + cfg.accessTokenTtl
  {
    hide IsPactGrant, IsSnapshot, IsMostRecent, Finds, Usable, CanUse, RevokeGrantById, InsertRefreshToken,
      UseRefreshToken, StepRequestDevice, StepInsertCode, StepExchangeFind, StepPoll, StepReadGrant, StepConsume,
      StepIssueFirst, StepVerify, StepApproveFind, StepClaim, StepFindExisting, StepWiden, StepInsertGrant,
      StepConverge, StepMerge, StepRevokeExtra, StepBind, StepDenyFind, StepDeny;
  }

  lemma {:induction false} SignedBy(cfg: Config, ss: seq<Sys>, run: seq<Label>, n: nat, a: AccessToken)
    returns (k: nat, at: int)
    requires IsHistory(cfg, ss, run) && n <= |run| && a in ss[n].log.signed
    ensures k < n && SignedAt(cfg, ss, run, k, a, at)
  {
    hide Enabled, Step;
    var s, l := ss[n - 1], run[n - 1];
    assert Enabled(s, l) && ss[n - 1 + 1] == Step(cfg, s, l);
    if a in s.log.signed {
      k, at := SignedBy(cfg, ss, run, n - 1, a);
    } else {
      SigningStep(cfg, s, l, a);
      k, at := n - 1, s.frames[l.task].now;
    }
  }

  /**
   * Over every history, a token is accepted only within the configured time of the clock of the call that signed it,
   * counted in whole seconds.
   */
  lemma AccessTokensLapse(cfg: Config, ss: seq<Sys>, run: seq<Label>, n: nat) returns (k: nat, at: int)
    requires IsHistory(cfg, ss, run) && n < |run| && run[n].act.Verify?
    requires run[n].task in ss[n + 1].frames && ss[n + 1].frames[run[n].task].Done?
    requires ss[n + 1].frames[run[n].task].outcome.Context?
    ensures k < n && SignedAt(cfg, ss, run, k, run[n].act.access, at)
    ensures run[n].act.now / 1000 < at / 1000 + cfg.accessTokenTtl
  {
    hide Enabled, Step, LiveFor;
    assert Enabled(ss[n], run[n]) && ss[n + 1] == Step(cfg, ss[n], run[n]);
    VerifiesExactly(cfg, ss[n], run[n]);
    k, at := SignedBy(cfg, ss, run, n, run[n].act.access);
  }
}
