/**
 * What the delegation service promises, over every interleaving of its calls: the life of a device code,
 * rotation and reuse of refresh tokens, scope confinement, isolation between agents, finality of revocation.
 */
module DelegationTheorems {
  import opened Wrappers
  import opened Scopes
  import opened DelegationRows
  import opened DelegationMachine
  import opened DelegationInvariant
  import opened DelegationPreservation

  predicate HasTokens(f: Frame) {
    f.Done? && f.outcome.Tokens?
  }

  /** A finished call stays as it ended. */
  lemma DoneStays(cfg: Config, s: Sys, l: Label, t: nat)
    requires Inv(cfg, s) && Enabled(s, l) && t in s.frames && s.frames[t].Done?
    ensures t in Step(cfg, s, l).frames && Step(cfg, s, l).frames[t] == s.frames[t]
  {
    hide Inv, Enabled, Step, LogGrows, GrantsKept, TokensKept, NewIsOwn, IsEnvironment;
    StepKeeps(cfg, s, l);
    if t == l.task && !IsEnvironment(l.act) { OverTakesNoStep(s, l); }
  }

  // Runs

  /** A property every step keeps holds at the end of every run. */
  lemma {:induction false} AfterConcat(cfg: Config, s: Sys, run: seq<Label>, l: Label)
    requires IsRun(cfg, s, run) && Enabled(After(cfg, s, run), l)
    ensures IsRun(cfg, s, run + [l])
    ensures After(cfg, s, run + [l]) == Step(cfg, After(cfg, s, run), l)
    decreases |run|
  {
    hide Enabled, Step;
    if run == [] {
      assert run + [l] == [l] && [l][1..] == [];
    } else {
      assert (run + [l])[0] == run[0] && (run + [l])[1..] == run[1..] + [l];
      AfterConcat(cfg, Step(cfg, s, run[0]), run[1..], l);
    }
  }

  lemma ReachableStep(cfg: Config, s: Sys, l: Label)
    requires Reachable(cfg, s) && Enabled(s, l)
    ensures Reachable(cfg, Step(cfg, s, l))
  {
    hide Enabled, Step;
    var run :| IsRun(cfg, EMPTY, run) && After(cfg, EMPTY, run) == s;
    AfterConcat(cfg, EMPTY, run, l);
  }

  // The life of a device code

  predicate MayBecome(a: DeviceStatus, b: DeviceStatus) {
    a == b || a == Pending || (a == Approved && b == Consumed)
  }

  /** The columns no statement ever rewrites. */
  predicate SameRequest(a: Device, b: Device) {
    a.userCode == b.userCode && a.clientId == b.clientId && a.agentSub == b.agentSub
    && a.requestedScope == b.requestedScope && a.expiresAt == b.expiresAt && a.intervalSeconds == b.intervalSeconds
  }

  predicate TouchesDevices(act: Action) {
    act.RequestDevice? || act.InsertCode? || act.Poll? || act.Consume? || act.ClaimCode? || act.Bind? || act.DenyCode?
  }

  lemma DevicesUntouched(cfg: Config, s: Sys, l: Label)
    requires Enabled(s, l) && !TouchesDevices(l.act)
    ensures Step(cfg, s, l).rows.devices == s.rows.devices
  {
    hide Enabled, Step, TouchesDevices;
    if IsAgentAct(l.act) {
      AgentLeavesDevices(cfg, s, l);
    } else if IsApproverAct(l.act) {
      ApproverLeavesDevices(cfg, s, l);
    } else {
      EnvironmentLeavesDevices(cfg, s, l);
    }
  }

  lemma AgentLeavesDevices(cfg: Config, s: Sys, l: Label)
    requires Enabled(s, l) && IsAgentAct(l.act) && !TouchesDevices(l.act)
    ensures Step(cfg, s, l).rows.devices == s.rows.devices
  {
    hide IsPactGrant, ParseScope, FormatScope, IsSnapshot, IsMostRecent, Finds, Usable, Sign, InScopes, CanTransition,
      CanUse, StepApproveFind, StepClaim, StepFindExisting, StepWiden, StepInsertGrant, StepConverge, StepMerge,
      StepRevokeExtra, StepBind, StepDenyFind, StepDeny;
  }

  lemma ApproverLeavesDevices(cfg: Config, s: Sys, l: Label)
    requires Enabled(s, l) && IsApproverAct(l.act) && !TouchesDevices(l.act)
    ensures Step(cfg, s, l).rows.devices == s.rows.devices
  {
    hide IsPactGrant, ParseScope, FormatScope, IsSnapshot, IsMostRecent, Finds, Keep, AllScopes, Dedup, CanTransition,
      LatestExpiry, Unrevoked, StepRequestDevice, StepInsertCode, StepExchangeFind, StepPoll, StepReadGrant,
      StepConsume, StepIssueFirst, StepRefreshFind, StepCheckRefresh, StepSpend, StepRevokeReused, StepIssueNext,
      StepVerify;
  }

  lemma EnvironmentLeavesDevices(cfg: Config, s: Sys, l: Label)
    requires Enabled(s, l) && IsEnvironment(l.act) && !TouchesDevices(l.act)
    ensures Step(cfg, s, l).rows.devices == s.rows.devices
  {
    hide IsPactGrant, IsSnapshot, IsMostRecent, Finds, StepRequestDevice, StepInsertCode, StepExchangeFind, StepPoll,
      StepReadGrant, StepConsume, StepIssueFirst, StepRefreshFind, StepCheckRefresh, StepSpend, StepRevokeReused,
      StepIssueNext, StepVerify, StepApproveFind, StepClaim, StepFindExisting, StepWiden, StepInsertGrant,
      StepConverge, StepMerge, StepRevokeExtra, StepBind, StepDenyFind, StepDeny;
  }

  predicate IsTransition(act: Action, from: DeviceStatus, to: DeviceStatus) {
    || (act.ClaimCode? && from == Pending && to == Approved)
    || (act.Consume? && from == Approved && to == Consumed)
    || (act.DenyCode? && from == Pending && to == Denied)
  }

  /** One row, moved along one edge or not at all, by a step meant for that edge. */
  predicate Moved(a: Device, b: Device, act: Action) {
    && SameRequest(a, b)
    && (a.status == b.status || IsTransition(act, a.status, b.status))
  }

  ghost predicate MovedBy(before: map<string, Device>, after: map<string, Device>, act: Action) {
    forall code :: code in after ==>
      if code in before then Moved(before[code], after[code], act) else act.InsertCode? && after[code].status == Pending
  }

  /** One step moves a code along one edge, and only the step meant for that edge does. */
  lemma DeviceMoves(cfg: Config, s: Sys, l: Label)
    requires Inv(cfg, s) && Enabled(s, l)
    ensures MovedBy(s.rows.devices, Step(cfg, s, l).rows.devices, l.act)
  {
    hide Inv, Step;
    if !TouchesDevices(l.act) {
      DevicesUntouched(cfg, s, l);
    } else if l.act.InsertCode? {
      InsertMoves(cfg, s, l);
    } else if l.act.Consume? || l.act.ClaimCode? || l.act.DenyCode? {
      TransitionMoves(cfg, s, l);
    } else {
      OtherColumnsMove(cfg, s, l);
    }
  }

  lemma TransitionMovesRows(
      rows: Rows, code: string, from: DeviceStatus, to: DeviceStatus, account: Option<string>, act: Action)
    requires IsTransition(act, from, to)
    ensures MovedBy(rows.devices, TransitionDevice(rows, code, from, to, account).devices, act)
    ensures MovedBy(rows.devices, rows.devices, act)
  {
  }

  /** Rows may go and other columns may change, but no request and no status does. */
  ghost predicate Stands(before: map<string, Device>, after: map<string, Device>) {
    forall code :: code in after ==>
      code in before && SameRequest(before[code], after[code]) && before[code].status == after[code].status
  }

  lemma StandingMoves(before: map<string, Device>, after: map<string, Device>, act: Action)
    requires Stands(before, after)
    ensures MovedBy(before, after, act)
  {
    hide IsTransition;
  }

  lemma DeletionStands(rows: Rows, at: int)
    ensures Stands(rows.devices, DeleteDevicesExpiredBefore(rows, at).devices)
    ensures Stands(rows.devices, rows.devices)
  {
  }

  lemma PollStands(rows: Rows, code: string, at: int)
    ensures Stands(rows.devices, MarkPolled(rows, code, at).devices)
  {
  }

  lemma BindStands(rows: Rows, code: string, grantId: string)
    ensures Stands(rows.devices, SetDeviceGrant(rows, code, grantId).devices)
  {
  }

  lemma TransitionMoves(cfg: Config, s: Sys, l: Label)
    requires Enabled(s, l) && (l.act.Consume? || l.act.ClaimCode? || l.act.DenyCode?)
    ensures MovedBy(s.rows.devices, Step(cfg, s, l).rows.devices, l.act)
  {
    hide MovedBy, ParseScope, FormatScope, Keep, InScopes, IsSnapshot, IsMostRecent, Finds, AllScopes, Dedup, Usable,
      Sign, IsPactGrant, CanUse, LatestExpiry, Unrevoked, InsertGrant, UpdateGrant, RevokeGrantById, RevokeGrant,
      RevokeAllGrants, InsertRefreshToken, UseRefreshToken, InsertDevice, DeleteDevicesExpiredBefore, MarkPolled,
      SetDeviceGrant, TransitionDevice, CanTransition;
    var f := s.frames[l.task];
    match l.act
    case Consume => TransitionMovesRows(s.rows, f.code, Approved, Consumed, None, l.act);
    case ClaimCode => TransitionMovesRows(s.rows, f.code, Pending, Approved, Some(f.who.accountId), l.act);
    case DenyCode => TransitionMovesRows(s.rows, f.code, Pending, Denied, Some(f.accountId), l.act);
  }

  lemma OtherColumnsMove(cfg: Config, s: Sys, l: Label)
    requires Enabled(s, l) && (l.act.RequestDevice? || l.act.Poll? || l.act.Bind?)
    ensures MovedBy(s.rows.devices, Step(cfg, s, l).rows.devices, l.act)
  {
    hide MovedBy, Stands, ParseScope, FormatScope, Keep, InScopes, IsSnapshot, IsMostRecent, Finds, AllScopes, Dedup,
      Usable, Sign, IsPactGrant, CanUse, LatestExpiry, Unrevoked, InsertGrant, UpdateGrant, RevokeGrantById,
      RevokeGrant, RevokeAllGrants, InsertRefreshToken, UseRefreshToken, InsertDevice, DeleteDevicesExpiredBefore,
      MarkPolled, SetDeviceGrant, TransitionDevice, CanTransition;
    match l.act {
      case RequestDevice(_, _, _, now) => DeletionStands(s.rows, now);
      case Poll => PollStands(s.rows, s.frames[l.task].code, s.frames[l.task].now);
      case Bind => BindStands(s.rows, s.frames[l.task].code, s.frames[l.task].grantId);
    }
    StandingMoves(s.rows.devices, Step(cfg, s, l).rows.devices, l.act);
  }

  lemma InsertMoves(cfg: Config, s: Sys, l: Label)
    requires Inv(cfg, s) && Enabled(s, l) && l.act.InsertCode?
    ensures MovedBy(s.rows.devices, Step(cfg, s, l).rows.devices, l.act)
  {
    hide Inv, FormatScope;
    FrameFact(cfg, s, l.task);
  }

  /** Nobody is about to insert `code`: its row, once gone, stays gone. */
  ghost predicate Settled(s: Sys, code: string) {
    code in s.log.requests && forall t :: t in s.frames && s.frames[t].InsertingDevice? ==> s.frames[t].code != code
  }

  lemma WhoInserts(cfg: Config, s: Sys, l: Label, t: nat)
    requires Enabled(s, l) && t in Step(cfg, s, l).frames && Step(cfg, s, l).frames[t].InsertingDevice?
    ensures
      || (l.act.RequestDevice? && Step(cfg, s, l).frames[t].code == l.act.code)
      || (t in s.frames && s.frames[t].InsertingDevice? && s.frames[t].code == Step(cfg, s, l).frames[t].code)
  {
    hide ParseScope, FormatScope, IsSnapshot, IsMostRecent, Finds, Keep, AllScopes, Dedup, Usable, Sign, IsPactGrant;
  }

  lemma SettledStays(cfg: Config, s: Sys, l: Label, code: string)
    requires Inv(cfg, s) && Enabled(s, l) && Settled(s, code)
    ensures Settled(Step(cfg, s, l), code)
    ensures code !in s.rows.devices ==> code !in Step(cfg, s, l).rows.devices
  {
    var s' := Step(cfg, s, l);
    assert code in s'.log.requests && (l.act.RequestDevice? ==> l.act.code != code) by {
      StepKeeps(cfg, s, l);
    }
    SettledStaysFrames(cfg, s, l, code);
    if code !in s.rows.devices && code in s'.rows.devices {
      DeviceMoves(cfg, s, l);
      InsertsOwnCode(cfg, s, l);
    }
  }

  lemma InsertsOwnCode(cfg: Config, s: Sys, l: Label)
    requires Enabled(s, l) && l.act.InsertCode?
    ensures forall code :: code in Step(cfg, s, l).rows.devices && code !in s.rows.devices ==>
      code == s.frames[l.task].code
  {
    hide ParseScope, FormatScope;
  }

  lemma SettledStaysFrames(cfg: Config, s: Sys, l: Label, code: string)
    requires Enabled(s, l) && Settled(s, code)
    ensures forall t :: t in Step(cfg, s, l).frames && Step(cfg, s, l).frames[t].InsertingDevice? ==>
      Step(cfg, s, l).frames[t].code != code
  {
    hide Step;
    forall t | t in Step(cfg, s, l).frames && Step(cfg, s, l).frames[t].InsertingDevice?
      ensures Step(cfg, s, l).frames[t].code != code
    {
      WhoInserts(cfg, s, l, t);
    }
  }

  lemma StoredIsSettled(cfg: Config, s: Sys, code: string)
    requires Inv(cfg, s) && code in s.rows.devices
    ensures Settled(s, code)
  {
    hide Inv;
    DeviceFact(cfg, s, code);
    forall t | t in s.frames && s.frames[t].InsertingDevice?
      ensures s.frames[t].code != code
    {
      FrameFact(cfg, s, t);
    }
  }

  lemma {:induction false} GoneStaysGone(cfg: Config, s: Sys, run: seq<Label>, code: string)
    requires Inv(cfg, s) && IsRun(cfg, s, run) && Settled(s, code) && code !in s.rows.devices
    ensures code !in After(cfg, s, run).rows.devices
    decreases |run|
  {
    hide Inv, Enabled, Step, Settled;
    if run != [] {
      StepKeeps(cfg, s, run[0]);
      SettledStays(cfg, s, run[0], code);
      GoneStaysGone(cfg, Step(cfg, s, run[0]), run[1..], code);
    }
  }

  /** Over any stretch of a run a code that is still there has only moved forward, and the request is unchanged. */
  lemma {:induction false} CodesOnlyMoveForward(cfg: Config, s: Sys, run: seq<Label>, code: string)
    requires Inv(cfg, s) && IsRun(cfg, s, run)
    requires code in s.rows.devices && code in After(cfg, s, run).rows.devices
    ensures MayBecome(s.rows.devices[code].status, After(cfg, s, run).rows.devices[code].status)
    ensures SameRequest(s.rows.devices[code], After(cfg, s, run).rows.devices[code])
    decreases |run|
  {
    hide Inv, Enabled, Step, Settled;
    if run != [] {
      var s' := Step(cfg, s, run[0]);
      StepKeeps(cfg, s, run[0]);
      StoredIsSettled(cfg, s, code);
      SettledStays(cfg, s, run[0], code);
      DeviceMoves(cfg, s, run[0]);
      if code !in s'.rows.devices {
        GoneStaysGone(cfg, s', run[1..], code);
      } else {
        CodesOnlyMoveForward(cfg, s', run[1..], code);
      }
    }
  }

  // Who gets tokens for a code

  /** Approved and bound: the approval that claimed the code has returned that grant. */
  ghost predicate BoundByApproval(s: Sys) {
    forall code :: code in s.log.bound ==>
      && code in s.log.claims && s.log.claims[code].task in s.frames
      && var f := s.frames[s.log.claims[code].task];
         f.Done? && f.outcome.Granted? && f.outcome.grantId == s.log.bound[code]
         && f.call == ApproveCall(Some(code), s.log.claims[code].who.accountId)
  }

  lemma BindsOnlyInBind(cfg: Config, s: Sys, l: Label)
    requires Enabled(s, l)
    ensures !l.act.Bind? ==> SubMap(Step(cfg, s, l).log.bound, s.log.bound)
  {
    hide Enabled, Step;
    if IsEnvironment(l.act) {
      EnvironmentOnlyRows(cfg, s, l);
    } else if IsApproverAct(l.act) {
      ApproverBinds(cfg, s, l);
    } else if l.act.Verify? {
      VerifyIsolation(cfg, s, l);
    } else if IsRefreshAct(l.act) {
      RefreshBindsNothing(cfg, s, l);
    } else {
      CodeActBindsNothing(cfg, s, l);
    }
  }

  lemma ApproverBinds(cfg: Config, s: Sys, l: Label)
    requires Enabled(s, l) && IsApproverAct(l.act)
    ensures !l.act.Bind? ==> SubMap(Step(cfg, s, l).log.bound, s.log.bound)
  {
    hide IsPactGrant, ParseScope, FormatScope, IsSnapshot, IsMostRecent, Finds, Keep, AllScopes, Dedup, CanTransition,
      LatestExpiry, Unrevoked, TransitionDevice, SetDeviceGrant, InsertGrant, UpdateGrant, RevokeGrantById,
      StepRequestDevice, StepInsertCode, StepExchangeFind, StepPoll, StepReadGrant, StepConsume, StepIssueFirst,
      StepRefreshFind, StepCheckRefresh, StepSpend, StepRevokeReused, StepIssueNext, StepVerify;
  }

  lemma RefreshBindsNothing(cfg: Config, s: Sys, l: Label)
    requires Enabled(s, l) && IsRefreshAct(l.act)
    ensures SubMap(Step(cfg, s, l).log.bound, s.log.bound)
  {
    hide IsPactGrant, IsSnapshot, IsMostRecent, Finds, Usable, Sign, CanUse, RevokeGrantById, InsertRefreshToken,
      UseRefreshToken, StepRequestDevice, StepInsertCode, StepExchangeFind, StepPoll, StepReadGrant, StepConsume,
      StepIssueFirst, StepVerify, StepApproveFind, StepClaim, StepFindExisting, StepWiden, StepInsertGrant,
      StepConverge, StepMerge, StepRevokeExtra, StepBind, StepDenyFind, StepDeny;
  }

  lemma CodeActBindsNothing(cfg: Config, s: Sys, l: Label)
    requires Enabled(s, l) && IsCodeAct(l.act) && !l.act.Verify?
    ensures SubMap(Step(cfg, s, l).log.bound, s.log.bound)
  {
    hide IsPactGrant, ParseScope, FormatScope, IsSnapshot, IsMostRecent, Finds, Usable, Sign, InScopes, CanTransition,
      InsertDevice, DeleteDevicesExpiredBefore, MarkPolled, TransitionDevice, InsertRefreshToken, StepRefreshFind,
      StepCheckRefresh, StepSpend, StepRevokeReused, StepIssueNext, StepVerify, StepApproveFind, StepClaim,
      StepFindExisting, StepWiden, StepInsertGrant, StepConverge, StepMerge, StepRevokeExtra, StepBind, StepDenyFind,
      StepDeny;
  }

  lemma BoundByApprovalStays(cfg: Config, s: Sys, l: Label)
    requires Inv(cfg, s) && Enabled(s, l) && BoundByApproval(s)
    ensures BoundByApproval(Step(cfg, s, l))
  {
    var s' := Step(cfg, s, l);
    assert SubMap(s.log.claims, s'.log.claims) by { StepKeeps(cfg, s, l); }
    if l.act.Bind? {
      BindBinds(cfg, s, l);
    } else {
      BoundFramesStay(cfg, s, l);
    }
  }

  lemma BindBinds(cfg: Config, s: Sys, l: Label)
    requires Inv(cfg, s) && Enabled(s, l) && BoundByApproval(s) && l.act.Bind?
    ensures BoundByApproval(Step(cfg, s, l))
  {
    hide Inv, Step, BoundByApproval;
    BindStep(cfg, s, l);
    FrameFact(cfg, s, l.task);
    BindKeepsBound(s, l.task, s.frames[l.task]);
  }

  lemma BindStep(cfg: Config, s: Sys, l: Label)
    requires Enabled(s, l) && l.act.Bind?
    ensures l.task in s.frames && s.frames[l.task].Binding?
    ensures Step(cfg, s, l) == StepBind(s, l.task, s.frames[l.task])
  {
    hide StepBind;
  }

  lemma BindKeepsBound(s: Sys, t: nat, f: Frame)
    requires t in s.frames && s.frames[t] == f && f.Binding? && FrameOK(s, t, f) && BoundByApproval(s)
    ensures BoundByApproval(StepBind(s, t, f))
  {
    hide SetDeviceGrant, AllTicked, IsPactGrant;
  }

  lemma BoundFramesStay(cfg: Config, s: Sys, l: Label)
    requires Inv(cfg, s) && Enabled(s, l) && BoundByApproval(s) && !l.act.Bind?
    requires SubMap(s.log.claims, Step(cfg, s, l).log.claims)
    ensures BoundByApproval(Step(cfg, s, l))
  {
    hide Inv, Step, Enabled;
    var s' := Step(cfg, s, l);
    BindsOnlyInBind(cfg, s, l);
    forall code | code in s'.log.bound
      ensures s'.log.claims[code] == s.log.claims[code]
      ensures s.log.claims[code].task in s'.frames
      ensures s'.frames[s.log.claims[code].task] == s.frames[s.log.claims[code].task]
    {
      DoneStays(cfg, s, l, s.log.claims[code].task);
    }
  }

  lemma {:induction false} RunBoundByApproval(cfg: Config, s: Sys, run: seq<Label>)
    requires Inv(cfg, s) && IsRun(cfg, s, run) && BoundByApproval(s)
    ensures BoundByApproval(After(cfg, s, run))
    decreases |run|
  {
    hide Inv, Enabled, Step, BoundByApproval;
    if run != [] {
      StepKeeps(cfg, s, run[0]);
      BoundByApprovalStays(cfg, s, run[0]);
      RunBoundByApproval(cfg, Step(cfg, s, run[0]), run[1..]);
    }
  }

  lemma ReachableBoundByApproval(cfg: Config, s: Sys)
    requires Reachable(cfg, s)
    ensures BoundByApproval(s)
  {
    hide Enabled, Step;
    var run :| IsRun(cfg, EMPTY, run) && After(cfg, EMPTY, run) == s;
    RunBoundByApproval(cfg, EMPTY, run);
  }

  /**
   * Tokens for a device code follow an approval of that very code: some approve call on it has returned the
   * grant, the grant's account is the one that approved, and its agent and agent user are the ones that
   * asked for the code and that exchange it.
   */
  lemma TokensFollowApproval(cfg: Config, s: Sys, t: nat) returns (approval: nat)
    requires Reachable(cfg, s) && t in s.frames && HasTokens(s.frames[t]) && s.frames[t].call.ExchangeCall?
    ensures var call := s.frames[t].call;
      var id := s.frames[t].outcome.grantId;
      && approval in s.frames && s.frames[approval].Done? && s.frames[approval].outcome.Granted?
      && s.frames[approval].outcome.grantId == id
      && s.frames[approval].call.ApproveCall? && s.frames[approval].call.pending == Some(call.code)
      && id in s.rows.grants && IsPactGrant(id)
      && PartyOf(s.rows.grants[id]) == Party(s.frames[approval].call.accountId, call.agent.issuer, call.agent.sub)
      && call.code in s.log.requests && s.log.requests[call.code].agent == call.agent
  {
    hide Inv, Reachable, AllTicked;
    ReachableInv(cfg, s);
    ReachableBoundByApproval(cfg, s);
    FrameFact(cfg, s, t);
    var code := s.frames[t].call.code;
    approval := s.log.claims[code].task;
    BoundFact(cfg, s, code);
    ClaimFact(cfg, s, code);
  }

  /** A device code yields tokens at most once, whatever exchanges race for it. */
  lemma OneExchangePerCode(cfg: Config, s: Sys, t: nat, u: nat)
    requires Reachable(cfg, s) && t in s.frames && u in s.frames
    requires HasTokens(s.frames[t]) && HasTokens(s.frames[u])
    requires s.frames[t].call.ExchangeCall? && s.frames[u].call.ExchangeCall?
    requires s.frames[t].call.code == s.frames[u].call.code
    ensures t == u
  {
    hide Inv, Reachable, AllTicked;
    ReachableInv(cfg, s);
    FrameFact(cfg, s, t);
    FrameFact(cfg, s, u);
  }

  /** What an exchange of `code` needs, at the moment `now`. */
  predicate Exchangeable(s: Sys, agent: Agent, code: string, now: int) {
    && code != "" && code in s.rows.devices
    && var row := s.rows.devices[code];
    && Agent(row.clientId, row.agentSub) == agent
    && row.status == Approved && row.grantId.Some? && row.expiresAt > now
    && row.grantId.value in s.rows.grants
      && Usable(row.grantId.value, s.rows.grants[row.grantId.value], agent, now, true)
  }

  function ExchangeRun(t: nat, agent: Agent, code: string, now: int, token: string): seq<Label> {
    [Label(t, ExchangeFind(agent, code, now)), Label(t, ReadGrant(true, true)), Label(t, Consume),
      Label(t, IssueFirst(token))]
  }

  lemma FourSteps(cfg: Config, s: Sys, a: Label, b: Label, c: Label, d: Label)
    requires Enabled(s, a)
    requires Enabled(Step(cfg, s, a), b)
    requires Enabled(Step(cfg, Step(cfg, s, a), b), c)
    requires Enabled(Step(cfg, Step(cfg, Step(cfg, s, a), b), c), d)
    ensures IsRun(cfg, s, [a, b, c, d])
    ensures After(cfg, s, [a, b, c, d]) == Step(cfg, Step(cfg, Step(cfg, Step(cfg, s, a), b), c), d)
  {
    hide Enabled, Step;
    var s1 := Step(cfg, s, a);
    var s2 := Step(cfg, s1, b);
    var s3 := Step(cfg, s2, c);
    assert [a, b, c, d][1..] == [b, c, d] && [b, c, d][1..] == [c, d] && [c, d][1..] == [d] && [d][1..] == [];
    assert IsRun(cfg, s3, [d]) && After(cfg, s3, [d]) == Step(cfg, s3, d);
    assert IsRun(cfg, s2, [c, d]) && After(cfg, s2, [c, d]) == After(cfg, s3, [d]);
    assert IsRun(cfg, s1, [b, c, d]) && After(cfg, s1, [b, c, d]) == After(cfg, s2, [c, d]);
  }

  /** An exchangeable code can be exchanged: the call runs through to tokens for the bound grant. */
  lemma ExchangeSucceeds(cfg: Config, s: Sys, t: nat, agent: Agent, code: string, now: int, token: string)
    requires Exchangeable(s, agent, code, now) && t !in s.frames && token !in s.rows.refreshTokens
    ensures IsRun(cfg, s, ExchangeRun(t, agent, code, now, token))
    ensures var id := s.rows.devices[code].grantId.value;
      var frames' := After(cfg, s, ExchangeRun(t, agent, code, now, token)).frames;
      t in frames' && frames'[t] ==
        Done(ExchangeCall(agent, code), Tokens(id, Sign(cfg, id, s.rows.grants[id], now), token))
  {
    hide Sign, IsPactGrant, IsRun, After;
    FourSteps(cfg, s, Label(t, ExchangeFind(agent, code, now)), Label(t, ReadGrant(true, true)), Label(t, Consume),
              Label(t, IssueFirst(token)));
  }

  /** A failed signature ends the call with an error and burns nothing: the same code can be exchanged next. */
  lemma FailedSignatureKeepsCode(cfg: Config, s: Sys, t: nat, u: nat, now: int, token: string)
    requires t in s.frames && s.frames[t].ReadingGrant?
    requires Exchangeable(s, s.frames[t].agent, s.frames[t].code, now)
    requires u !in s.frames && u != t && token !in s.rows.refreshTokens
    ensures var s' := Step(cfg, s, Label(t, ReadGrant(true, false)));
      var run := ExchangeRun(u, s.frames[t].agent, s.frames[t].code, now, token);
      && s'.rows == s.rows && s'.frames[t].Done? && s'.frames[t].outcome.Failed?
      && IsRun(cfg, s', run) && u in After(cfg, s', run).frames && HasTokens(After(cfg, s', run).frames[u])
  {
    hide IsRun, After, Sign, IsPactGrant;
    ExchangeSucceeds(cfg, Step(cfg, s, Label(t, ReadGrant(true, false))), u, s.frames[t].agent, s.frames[t].code,
      now, token);
  }

  // Refresh tokens

  /** A refresh token yields tokens at most once, whatever calls race for it. */
  lemma OneRefreshPerToken(cfg: Config, s: Sys, t: nat, u: nat)
    requires Reachable(cfg, s) && t in s.frames && u in s.frames
    requires HasTokens(s.frames[t]) && HasTokens(s.frames[u])
    requires s.frames[t].call.RefreshCall? && s.frames[u].call.RefreshCall?
    requires s.frames[t].call.token == s.frames[u].call.token
    ensures t == u
  {
    hide Inv, Reachable, AllTicked;
    ReachableInv(cfg, s);
    FrameFact(cfg, s, t);
    FrameFact(cfg, s, u);
  }

  /**
   * Reuse detection: of two finished presentations of one refresh token that both found it unexpired and its
   * grant usable for the caller, at least one was a reuse, and then the grant is revoked.
   */
  lemma ReuseRevokes(cfg: Config, s: Sys, t: nat, u: nat)
    requires Reachable(cfg, s) && t in s.frames && u in s.frames && t != u
    requires s.frames[t].Done? && s.frames[t].call.RefreshCall? && s.frames[t].call.usable.Some?
    requires s.frames[u].Done? && s.frames[u].call.RefreshCall? && s.frames[u].call.usable.Some?
    requires s.frames[t].call.token == s.frames[u].call.token
    ensures s.frames[t].call.usable == s.frames[u].call.usable
    ensures var id := s.frames[t].call.usable.value; id in s.rows.grants && s.rows.grants[id].revokedAt.Some?
  {
    hide Inv, Reachable, AllTicked;
    ReachableInv(cfg, s);
    FrameFact(cfg, s, t);
    FrameFact(cfg, s, u);
  }

  ghost function UnusedTokensOf(s: Sys, id: string): set<string> {
    set token | token in s.rows.refreshTokens && s.rows.refreshTokens[token].grantId == id
                && s.rows.refreshTokens[token].usedAt.None?
  }

  ghost function ConsumedCodesOf(s: Sys, id: string): set<string> {
    set code | code in s.log.consumed && code in s.log.bound && s.log.bound[code] == id
  }

  lemma {:induction false} InjectionCard(a: set<string>, b: set<string>, f: map<string, string>)
    requires forall x :: x in a ==> x in f && f[x] in b
    requires forall x, y :: x in a && y in a && x != y ==> f[x] != f[y]
    ensures |a| <= |b|
  {
    if a != {} {
      var x :| x in a;
      InjectionCard(a - {x}, b - {f[x]}, f);
    }
  }

  /** Rotation never multiplies: a grant has at most as many unused refresh tokens as consumed codes bound to it. */
  lemma UnusedAtMostConsumed(cfg: Config, s: Sys, id: string)
    requires Reachable(cfg, s) && IsPactGrant(id)
    ensures |UnusedTokensOf(s, id)| <= |ConsumedCodesOf(s, id)|
  {
    hide Inv, Reachable, IsPactGrant;
    ReachableInv(cfg, s);
    Parts(cfg, s);
    forall token | token in UnusedTokensOf(s, id)
      ensures token in s.log.root && s.log.root[token] in ConsumedCodesOf(s, id)
      ensures IsUnused(s.rows.refreshTokens, s.log.root, token)
    {
      TokenFact(cfg, s, token);
    }
    InjectionCard(UnusedTokensOf(s, id), ConsumedCodesOf(s, id), s.log.root);
  }

  // Scopes

  /** Somebody ticked `x` for a code this agent had requested it with, and the configuration offers it. */
  ghost predicate Confined(cfg: Config, s: Sys, who: Party, x: string) {
    exists code ::
      && code in s.log.claims && code in s.log.requests
      && s.log.claims[code].who == who && x in s.log.claims[code].granted
      && Owns(s.log.requests[code].agent, who) && x in s.log.requests[code].scopes
      && InScopes(cfg, x)
  }

  lemma TickedIsConfined(cfg: Config, s: Sys, who: Party, xs: seq<string>)
    requires Inv(cfg, s) && AllTicked(s.log.claims, who, xs)
    ensures forall x :: x in xs ==> Confined(cfg, s, who, x)
  {
    hide Inv, InScopes;
    forall x | x in xs
      ensures Confined(cfg, s, who, x)
    {
      assert Ticked(s.log.claims, who, x);
      var code :| code in s.log.claims && s.log.claims[code].who == who && x in s.log.claims[code].granted;
      ClaimFact(cfg, s, code);
      RequestFact(cfg, s, code);
    }
  }

  /** Scope confinement of grants, of signed access tokens and of verified delegations, in every reachable state. */
  lemma ScopesConfined(cfg: Config, s: Sys)
    requires Reachable(cfg, s)
    ensures forall id, x :: id in s.rows.grants && IsPactGrant(id) && x in ParseScope(s.rows.grants[id].scope) ==>
      Confined(cfg, s, PartyOf(s.rows.grants[id]), x)
    ensures forall a, x :: a in s.log.signed && x in ParseScope(a.scope) ==>
      a.grantId in s.rows.grants && Confined(cfg, s, PartyOf(s.rows.grants[a.grantId]), x)
    ensures forall t, x ::
      (t in s.frames && s.frames[t].Done? && s.frames[t].outcome.Context? && x in s.frames[t].outcome.scopes) ==>
      Confined(cfg, s, s.frames[t].outcome.who, x)
  {
    hide Inv, Reachable, Confined, AllTicked, ParseScope, IsPactGrant;
    ReachableInv(cfg, s);
    forall id, x | id in s.rows.grants && IsPactGrant(id) && x in ParseScope(s.rows.grants[id].scope)
      ensures Confined(cfg, s, PartyOf(s.rows.grants[id]), x)
    {
      GrantFact(cfg, s, id);
      TickedIsConfined(cfg, s, PartyOf(s.rows.grants[id]), ParseScope(s.rows.grants[id].scope));
    }
    forall a, x | a in s.log.signed && x in ParseScope(a.scope)
      ensures a.grantId in s.rows.grants && Confined(cfg, s, PartyOf(s.rows.grants[a.grantId]), x)
    {
      AccessFact(cfg, s, a);
      TickedIsConfined(cfg, s, PartyOf(s.rows.grants[a.grantId]), ParseScope(a.scope));
    }
    forall t, x | t in s.frames && s.frames[t].Done? && s.frames[t].outcome.Context? && x in s.frames[t].outcome.scopes
      ensures Confined(cfg, s, s.frames[t].outcome.who, x)
    {
      FrameFact(cfg, s, t);
      TickedIsConfined(cfg, s, s.frames[t].outcome.who, s.frames[t].outcome.scopes);
    }
  }

  /**
   * A device request that is accepted asks only for configured scopes exactly when it asks for no inherited
   * property name that the configuration lacks: `id in cfg.scopes` also sees what every object inherits.
   */
  lemma AcceptedScopesConfigured(cfg: Config, s: Sys, t: nat, agent: Agent, scope: string, code: string, now: int)
    requires code !in s.log.requests && t !in s.frames
    requires code in StepRequestDevice(cfg, s, t, agent, scope, code, now).log.requests
    ensures (forall x :: x in ParseScope(scope) ==> x in cfg.scopes)
      <==> (forall x :: x in ParseScope(scope) ==> !(x in INHERITED_NAMES && x !in cfg.scopes))
  {
    hide ParseScope;
  }

  /** Such a request exists for every configuration that does not itself offer `toString`. */
  lemma InheritedNameAccepted(cfg: Config, s: Sys, t: nat, agent: Agent, code: string, now: int)
    requires "toString" !in cfg.scopes
    ensures ParseScope("toString") == ["toString"]
    ensures StepRequestDevice(cfg, s, t, agent, "toString", code, now).frames[t]
      == InsertingDevice(agent, ["toString"], now, code, 0)
  {
    ParseFormat(["toString"]);
    hide ParseScope;
  }

  /**
   * Over every run: as long as no request that was accepted names an unlisted inherited property, every scope of a
   * grant, of a signed access token and of a verified delegation is one the configuration offers.
   */
  lemma ScopesConfigured(cfg: Config, s: Sys)
    requires Reachable(cfg, s)
    requires forall code, x :: code in s.log.requests && x in s.log.requests[code].scopes && x in INHERITED_NAMES ==>
      x in cfg.scopes
    ensures forall id, x :: id in s.rows.grants && IsPactGrant(id) && x in ParseScope(s.rows.grants[id].scope) ==>
      x in cfg.scopes
    ensures forall a, x :: a in s.log.signed && x in ParseScope(a.scope) ==> x in cfg.scopes
    ensures forall t, x ::
      (t in s.frames && s.frames[t].Done? && s.frames[t].outcome.Context? && x in s.frames[t].outcome.scopes) ==>
        x in cfg.scopes
  {
    hide Reachable, ParseScope, IsPactGrant, INHERITED_NAMES;
    ScopesConfined(cfg, s);
  }

  const USER_CODE := "ABCDEFGH"

  lemma UpperStays(input: string)
    requires forall c :: c in input ==> 'A' <= c <= 'Z'
    ensures UpperLetters(input) == input
  {
    if input != "" {
      assert input[0] in input && forall c :: c in input[1..] ==> c in input;
      UpperStays(input[1..]);
    }
  }

  lemma UserCodeIsWellFormed()
    ensures NormalizeUserCode(USER_CODE) == Some("ABCD-EFGH")
  {
    UpperStays(USER_CODE);
    assert |USER_CODE| == 8;
    assert USER_CODE[..4] == "ABCD" && USER_CODE[4..] == "EFGH";
    assert "ABCD" + "-" + "EFGH" == "ABCD-EFGH";
  }

  lemma ToStringKept()
    ensures ParseScope(FormatScope(["toString"])) == ["toString"]
    ensures Keep(["toString"], {"toString"}) == ["toString"]
  {
    ParseFormat(["toString"]);
    hide ParseScope, FormatScope;
  }

  const NO_GRANTS: map<string, Grant> := map[]

  /** An agent asks for `toString`: the code is stored, with that scope. */
  lemma ToStringRequested(cfg: Config, agent: Agent) returns (s: Sys)
    requires "toString" !in cfg.scopes
    ensures Reachable(cfg, s) && s.rows.grants == NO_GRANTS && 1 !in s.frames
    ensures "c" in s.rows.devices
    ensures var row := s.rows.devices["c"];
      && row.userCode == "ABCD-EFGH" && row.clientId == agent.issuer && row.agentSub == agent.sub
        && row.status == Pending
      && row.expiresAt == cfg.deviceCodeTtl * 1000 && row.requestedScope == FormatScope(["toString"])
  {
    hide ParseScope, FormatScope, IsPactGrant, Finds, IsSnapshot, IsMostRecent;
    InheritedNameAccepted(cfg, EMPTY, 0, agent, "c", 0);
    assert Reachable(cfg, EMPTY) by { assert IsRun(cfg, EMPTY, []) && After(cfg, EMPTY, []) == EMPTY; }
    hide Reachable;
    var first := Label(0, RequestDevice(agent, "toString", "c", 0));
    ReachableStep(cfg, EMPTY, first);
    var s1 := Step(cfg, EMPTY, first);
    assert s1.rows.devices == map[];
    ReachableStep(cfg, s1, Label(0, InsertCode("ABCD-EFGH", true)));
    s := Step(cfg, s1, Label(0, InsertCode("ABCD-EFGH", true)));
  }

  /** And an account that ticks it claims the code. */
  lemma ToStringClaimed(cfg: Config, s: Sys, who: Party) returns (s': Sys)
    requires Reachable(cfg, s) && s.rows.grants == NO_GRANTS && 1 !in s.frames && "c" in s.rows.devices
    requires var row := s.rows.devices["c"];
      && row.userCode == "ABCD-EFGH" && row.clientId == who.clientId && row.agentSub == who.agentSub
        && row.status == Pending
      && row.expiresAt > 0 && row.requestedScope == FormatScope(["toString"])
    ensures Reachable(cfg, s') && s'.rows.grants == NO_GRANTS
    ensures 1 in s'.frames && s'.frames[1] == FindingExisting("c", who, ["toString"], 0)
  {
    hide Reachable, Enabled, Step, ParseScope, FormatScope;
    var find := Label(1, ApproveFind(USER_CODE, who.accountId, {"toString"}, Some("c"), 0));
    ToStringTicked(cfg, s, who, find);
    ReachableStep(cfg, s, find);
    var s1, claim := Step(cfg, s, find), Label(1, ClaimCode);
    ClaimStep(cfg, s1, claim);
    ReachableStep(cfg, s1, claim);
    s' := Step(cfg, s1, claim);
  }

  lemma ToStringTicked(cfg: Config, s: Sys, who: Party, l: Label)
    requires 1 !in s.frames && "c" in s.rows.devices
    requires var row := s.rows.devices["c"];
      && row.userCode == "ABCD-EFGH" && row.clientId == who.clientId && row.agentSub == who.agentSub
        && row.status == Pending
      && row.expiresAt > 0 && row.requestedScope == FormatScope(["toString"])
    requires l == Label(1, ApproveFind(USER_CODE, who.accountId, {"toString"}, Some("c"), 0))
    ensures Enabled(s, l) && Step(cfg, s, l) == At(s, 1, Claiming("c", who, ["toString"], 0))
  {
    ToStringKept();
    UserCodeIsWellFormed();
    hide ParseScope, FormatScope, IsPactGrant, IsSnapshot, IsMostRecent, NormalizeUserCode, USER_CODE, Keep;
  }

  lemma ClaimStep(cfg: Config, s: Sys, l: Label)
    requires l.act.ClaimCode? && l.task in s.frames && s.frames[l.task].Claiming?
    requires CanTransition(s.rows, s.frames[l.task].code, Pending)
    ensures Enabled(s, l)
    ensures var f, s' := s.frames[l.task], Step(cfg, s, l);
      s'.rows.grants == s.rows.grants && l.task in s'.frames
        && s'.frames[l.task] == FindingExisting(f.code, f.who, f.granted, f.now)
  {
    hide IsPactGrant, IsSnapshot, IsMostRecent, Finds;
  }

  /** So, unless the configuration itself offers `toString`, some run ends with a grant of it. */
  lemma InheritedNameReachesGrant(cfg: Config, who: Party, id: string) returns (s: Sys)
    requires "toString" !in cfg.scopes && cfg.deviceCodeTtl > 0 && IsPactGrant(id)
    ensures Reachable(cfg, s) && id in s.rows.grants && PartyOf(s.rows.grants[id]) == who
    ensures ParseScope(s.rows.grants[id].scope) == ["toString"]
  {
    hide Reachable, Enabled, Step, ParseScope, FormatScope, IsPactGrant;
    var s2 := ToStringRequested(cfg, Agent(who.clientId, who.agentSub));
    var s4 := ToStringClaimed(cfg, s2, who);
    s := ToStringGranted(cfg, s4, who, id);
  }

  lemma ToStringGranted(cfg: Config, s: Sys, who: Party, id: string) returns (s': Sys)
    requires Reachable(cfg, s) && s.rows.grants == NO_GRANTS && IsPactGrant(id)
    requires 1 in s.frames && s.frames[1] == FindingExisting("c", who, ["toString"], 0)
    ensures Reachable(cfg, s') && id in s'.rows.grants && PartyOf(s'.rows.grants[id]) == who
    ensures ParseScope(s'.rows.grants[id].scope) == ["toString"]
  {
    hide Reachable, ParseScope, FormatScope, IsPactGrant, IsSnapshot, Finds, Keep;
    ToStringKept();
    assert IsMostRecent(s.rows, who, 0, None);
    var find := Label(1, FindExisting(None));
    ReachableStep(cfg, s, find);
    var s1 := Step(cfg, s, find);
    ReachableStep(cfg, s1, Label(1, InsertNewGrant(id)));
    s' := Step(cfg, s1, Label(1, InsertNewGrant(id)));
  }

  // Isolation

  /** The exchange a step belongs to: who presents which code. */
  function ExchangeOf(s: Sys, l: Label): Option<(Agent, string)>
  {
    if l.act.ExchangeFind? then Some((l.act.agent, l.act.code))
    else if l.task !in s.frames then None
    else
      var f := s.frames[l.task];
      if (l.act.Poll? && f.Polling?) || (l.act.ReadGrant? && f.ReadingGrant?) || (l.act.Consume? && f.Consuming?)
         || (l.act.IssueFirst? && f.IssuingFirst?)
      then Some((f.agent, f.code)) else None
  }

  /** The refresh a step belongs to: who presents which refresh token. */
  function RefreshOf(s: Sys, l: Label): Option<(Agent, string)>
  {
    if l.act.RefreshFind? then Some((l.act.agent, l.act.token))
    else if l.task !in s.frames then None
    else
      var f := s.frames[l.task];
      if (l.act.CheckRefresh? && f.CheckingRefresh?) || (l.act.Spend? && f.Spending?)
         || (l.act.RevokeReused? && f.RevokingReused?) || (l.act.IssueNext? && f.IssuingNext?)
      then Some((f.agent, f.token)) else None
  }

  ghost predicate OwnsCode(s: Sys, agent: Agent, code: string) {
    code in s.log.requests && s.log.requests[code].agent == agent
  }

  ghost predicate OwnsToken(s: Sys, agent: Agent, token: string) {
    && token in s.rows.refreshTokens && s.rows.refreshTokens[token].grantId in s.rows.grants
    && Owns(agent, PartyOf(s.rows.grants[s.rows.refreshTokens[token].grantId]))
  }

  /** No step of an exchange changes a row unless the code was requested by this agent for this agent user. */
  lemma ExchangeIsolation(cfg: Config, s: Sys, l: Label)
    requires Reachable(cfg, s) && Enabled(s, l) && ExchangeOf(s, l).Some?
    requires !OwnsCode(s, ExchangeOf(s, l).value.0, ExchangeOf(s, l).value.1)
    ensures Step(cfg, s, l).rows == s.rows
    ensures !HasTokens(Step(cfg, s, l).frames[l.task])
  {
    hide Inv, Reachable, AllTicked, ParseScope;
    ReachableInv(cfg, s);
    if l.task in s.frames { FrameFact(cfg, s, l.task); }
  }

  /** No step of a refresh changes a row unless the token's grant is this agent's, for this agent user. */
  lemma RefreshIsolation(cfg: Config, s: Sys, l: Label)
    requires Reachable(cfg, s) && Enabled(s, l) && RefreshOf(s, l).Some?
    requires !OwnsToken(s, RefreshOf(s, l).value.0, RefreshOf(s, l).value.1)
    ensures Step(cfg, s, l).rows == s.rows
    ensures !HasTokens(Step(cfg, s, l).frames[l.task])
  {
    hide Inv, Reachable, AllTicked, ParseScope;
    ReachableInv(cfg, s);
    if l.task in s.frames { FrameFact(cfg, s, l.task); }
  }

  /**
   * Verification never writes, and yields a context only to the agent and agent user of the token's grant, while that
   * grant is unrevoked and unexpired, and only for the account it belongs to.
   */
  lemma VerifyIsolation(cfg: Config, s: Sys, l: Label)
    requires Enabled(s, l) && l.act.Verify?
    ensures Step(cfg, s, l).rows == s.rows && Step(cfg, s, l).log == s.log
    ensures var f := Step(cfg, s, l).frames[l.task];
      f.outcome.Context? ==>
        && f.outcome.grantId == l.act.access.grantId && l.act.access in s.log.signed && l.act.active
        && f.outcome.grantId in s.rows.grants && IsPactGrant(f.outcome.grantId)
        && var g := s.rows.grants[f.outcome.grantId];
           Owns(l.act.agent, PartyOf(g)) && f.outcome.who == PartyOf(g) && g.revokedAt.None? && g.expiresAt > l.act.now
  {
    hide ParseScope, IsPactGrant;
  }

  // Finality

  /** `f` is a call that got past the check of grant `id`, or that ended with something for it. */
  predicate PassedOn(f: Frame, id: string) {
    || ((f.Consuming? || f.IssuingFirst? || f.Spending? || f.RevokingReused? || f.IssuingNext?) && f.grantId == id)
    || (f.Done? && (f.outcome.Tokens? || f.outcome.Context?) && f.outcome.grantId == id)
  }

  ghost predicate NoneLate(s: Sys, early: set<nat>, id: string) {
    && id in s.rows.grants && IsPactGrant(id) && s.rows.grants[id].revokedAt.Some?
    && forall t :: t in s.frames && t !in early ==> !PassedOn(s.frames[t], id)
  }

  lemma PassingNeedsLiveGrant(cfg: Config, s: Sys, l: Label, id: string)
    requires Enabled(s, l) && id in s.rows.grants && s.rows.grants[id].revokedAt.Some?
    requires l.task in Step(cfg, s, l).frames && PassedOn(Step(cfg, s, l).frames[l.task], id)
    ensures l.task in s.frames && PassedOn(s.frames[l.task], id)
  {
    hide Enabled, Step, PassedOn;
    if IsEnvironment(l.act) {
      EnvironmentOnlyRows(cfg, s, l);
    } else if IsApproverAct(l.act) {
      ApproversPassNothing(cfg, s, l, id);
    } else {
      AgentsPassLiveGrants(cfg, s, l, id);
    }
  }

  lemma ApproversPassNothing(cfg: Config, s: Sys, l: Label, id: string)
    requires Enabled(s, l) && IsApproverAct(l.act) && l.task in Step(cfg, s, l).frames
    ensures !PassedOn(Step(cfg, s, l).frames[l.task], id)
  {
    hide IsPactGrant, ParseScope, FormatScope, IsSnapshot, IsMostRecent, Finds, Keep, AllScopes, Dedup, CanTransition,
      LatestExpiry, Unrevoked, TransitionDevice, SetDeviceGrant, InsertGrant, UpdateGrant, RevokeGrantById,
      StepRequestDevice, StepInsertCode, StepExchangeFind, StepPoll, StepReadGrant, StepConsume, StepIssueFirst,
      StepRefreshFind, StepCheckRefresh, StepSpend, StepRevokeReused, StepIssueNext, StepVerify;
  }

  lemma AgentsPassLiveGrants(cfg: Config, s: Sys, l: Label, id: string)
    requires Enabled(s, l) && id in s.rows.grants && s.rows.grants[id].revokedAt.Some?
    requires IsAgentAct(l.act)
    requires l.task in Step(cfg, s, l).frames && PassedOn(Step(cfg, s, l).frames[l.task], id)
    ensures l.task in s.frames && PassedOn(s.frames[l.task], id)
  {
    hide IsPactGrant, ParseScope, FormatScope, IsSnapshot, IsMostRecent, Finds, Sign, InScopes, CanTransition, CanUse,
      InsertDevice, DeleteDevicesExpiredBefore, MarkPolled, TransitionDevice, RevokeGrantById, InsertRefreshToken,
      UseRefreshToken, StepApproveFind, StepClaim, StepFindExisting, StepWiden, StepInsertGrant, StepConverge,
      StepMerge, StepRevokeExtra, StepBind, StepDenyFind, StepDeny;
  }

  lemma NoneLateStays(cfg: Config, s: Sys, l: Label, early: set<nat>, id: string)
    requires Inv(cfg, s) && Enabled(s, l) && NoneLate(s, early, id)
    ensures NoneLate(Step(cfg, s, l), early, id)
  {
    hide Inv, Enabled, Step, PassedOn, IsPactGrant;
    StepKeeps(cfg, s, l);
    var s' := Step(cfg, s, l);
    forall t | t in s'.frames && t !in early
      ensures !PassedOn(s'.frames[t], id)
    {
      if t == l.task && PassedOn(s'.frames[t], id) {
        PassingNeedsLiveGrant(cfg, s, l, id);
      }
    }
  }

  /**
   * Once a grant is revoked it stays revoked, and no exchange, refresh or verification that starts afterwards
   * ever gets anything for it, whatever the calls already in flight still issue.
   */
  lemma {:induction false} RevocationIsFinal(cfg: Config, s: Sys, run: seq<Label>, early: set<nat>, id: string)
    requires Inv(cfg, s) && IsRun(cfg, s, run) && early >= s.frames.Keys
    requires id in s.rows.grants && IsPactGrant(id) && s.rows.grants[id].revokedAt.Some?
    ensures var s' := After(cfg, s, run);
      && id in s'.rows.grants && s'.rows.grants[id].revokedAt.Some?
      && forall t :: t in s'.frames && t !in early ==> !PassedOn(s'.frames[t], id)
    decreases |run|
  {
    hide Inv, Enabled, Step, PassedOn, IsPactGrant;
    NoneLateAfter(cfg, s, run, early, id);
  }

  lemma {:induction false} NoneLateAfter(cfg: Config, s: Sys, run: seq<Label>, early: set<nat>, id: string)
    requires Inv(cfg, s) && IsRun(cfg, s, run) && NoneLate(s, early, id)
    ensures NoneLate(After(cfg, s, run), early, id)
    decreases |run|
  {
    hide Inv, Enabled, Step, NoneLate;
    if run != [] {
      StepKeeps(cfg, s, run[0]);
      NoneLateStays(cfg, s, run[0], early, id);
      NoneLateAfter(cfg, Step(cfg, s, run[0]), run[1..], early, id);
    }
  }
}
