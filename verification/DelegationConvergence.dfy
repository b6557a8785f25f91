/**
 * One grant per (account, agent, agent user). Approvals that find no grant insert one each and then converge:
 * read all live grants, elect the oldest, merge the scopes into it, revoke the rest. Here: every interleaving
 * of any number of approvals of one party, next to anything the rest of the system does, as long as none of
 * the party's grants is revoked by somebody else or expires meanwhile.
 */
module DelegationConvergence {
  import opened Wrappers
  import opened Scopes
  import opened DelegationRows
  import opened DelegationMachine
  import opened DelegationInvariant
  import opened DelegationPreservation
  import TextOrder

  // The order in which survivors are elected

  lemma OlderIsStrict(rows: Rows, a: string, b: string, c: string)
    ensures !Older(rows, a, a)
    ensures Older(rows, a, b) && Older(rows, b, c) ==> Older(rows, a, c)
    ensures a in rows.grants && b in rows.grants && a != b ==> Older(rows, a, b) || Older(rows, b, a)
  {
    TextOrder.Irreflexive(a);
    TextOrder.Total(a, b);
    if TextOrder.Less(a, b) && TextOrder.Less(b, c) { TextOrder.Transitive(a, b, c); }
  }

  ghost predicate IsOldest(rows: Rows, m: string, ids: set<string>) {
    m in ids && forall id :: id in ids && id != m ==> Older(rows, m, id)
  }

  ghost predicate HasOlder(rows: Rows, ids: set<string>, id: string) {
    exists h :: h in ids && Older(rows, h, id)
  }

  lemma {:induction false} OldestExists(rows: Rows, ids: set<string>) returns (m: string)
    requires ids != {} && forall id :: id in ids ==> id in rows.grants
    ensures IsOldest(rows, m, ids)
    decreases ids
  {
    hide Older;
    m :| m in ids;
    if ids != {m} {
      var n := OldestExists(rows, ids - {m});
      OlderIsStrict(rows, m, n, m);
      if Older(rows, m, n) {
        forall id | id in ids && id != m
          ensures Older(rows, m, id)
        {
          OlderIsStrict(rows, m, n, id);
        }
      } else {
        m := n;
      }
    }
  }

  lemma OldestHasNoOlder(rows: Rows, ids: set<string>, m: string)
    requires IsOldest(rows, m, ids)
    ensures !HasOlder(rows, ids, m)
    ensures forall id :: id in ids && id != m ==> HasOlder(rows, ids, id)
  {
    hide Older;
    if HasOlder(rows, ids, m) {
      var h :| h in ids && Older(rows, h, m);
      OlderIsStrict(rows, m, h, m);
      OlderIsStrict(rows, h, m, h);
    }
  }

  // The setting

  predicate Approving(f: Frame, who: Party) {
    && (f.FindingExisting? || f.Widening? || f.InsertingGrant? || f.Converging? || f.Merging? || f.RevokingExtras?
      || f.Binding?)
    && f.who == who
  }

  /** The step is one of an approval of `who` that has claimed its code. */
  predicate ActsFor(s: Sys, l: Label, who: Party) {
    && (l.act.FindExisting? || l.act.Widen? || l.act.InsertNewGrant? || l.act.Converge? || l.act.Merge?
        || l.act.RevokeExtra? || l.act.Bind?)
    && l.task in s.frames && Approving(s.frames[l.task], who)
  }

  predicate InWindow(cfg: Config, now: int, lo: int, hi: int) {
    lo <= now <= hi < now + cfg.grantTtl * 1000
  }

  /**
   * The steps allowed meanwhile: approvals read clocks between `lo` and `hi`, and nobody but converging
   * approvals revokes a grant of `who`. Everything else is free.
   */
  ghost predicate Steady(cfg: Config, s: Sys, l: Label, who: Party, lo: int, hi: int) {
    match l.act
    case ApproveFind(_, account, _, _, now) => account == who.accountId ==> InWindow(cfg, now, lo, hi)
    case RevokeReused => l.task in s.frames && s.frames[l.task].RevokingReused? ==>
      !IsGrantOf(s.rows.grants, s.frames[l.task].grantId, who)
    case AdminRevoke(id, _) => !IsGrantOf(s.rows.grants, id, who)
    case AccountRevoke(_, id, _) => !IsGrantOf(s.rows.grants, id, who)
    case AccountRevokeAll(account, _) => account != who.accountId
    case _ => true
  }

  ghost predicate SteadyRun(cfg: Config, s: Sys, run: seq<Label>, who: Party, lo: int, hi: int)
    decreases |run|
  {
    run == [] ||
    (Enabled(s, run[0]) && Steady(cfg, s, run[0], who, lo, hi)
      && SteadyRun(cfg, Step(cfg, s, run[0]), run[1..], who, lo, hi))
  }

  lemma {:induction false} SteadyIsRun(cfg: Config, s: Sys, run: seq<Label>, who: Party, lo: int, hi: int)
    requires SteadyRun(cfg, s, run, who, lo, hi)
    ensures IsRun(cfg, s, run)
    decreases |run|
  {
    hide Enabled, Step, Steady;
    if run != [] {
      SteadyIsRun(cfg, Step(cfg, s, run[0]), run[1..], who, lo, hi);
    }
  }

  // What is kept

  /** What an approval of `who` in flight knows; `ids` are the grants that were live at the start or inserted since. */
  ghost predicate FlightOK(cfg: Config, rows: Rows, f: Frame, who: Party, lo: int, hi: int, ids: set<string>) {
    && ((f.Claiming? || (Approving(f, who) && !f.Binding?)) && f.who == who ==> InWindow(cfg, f.now, lo, hi))
    && (Approving(f, who) ==>
          && (f.Widening? ==> f.grantId in ids)
          && (f.Converging? ==> ids != {})
          && (f.Merging? ==> f.survivor in ids && f.expiresAt > hi)
          && (f.Merging? || f.RevokingExtras? ==> forall x :: x in f.extras ==> x in ids && HasOlder(rows, ids, x)))
  }

  ghost predicate GrantsSettled(rows: Rows, who: Party, lo: int, hi: int, ids: set<string>) {
    && lo <= hi
    && (forall id :: id in ids ==> IsGrantOf(rows.grants, id, who))
    && (forall id :: id in ids ==>
          if rows.grants[id].revokedAt.None? then rows.grants[id].expiresAt > hi else HasOlder(rows, ids, id))
    && (forall id :: IsGrantOf(rows.grants, id, who) && id !in ids && rows.grants[id].revokedAt.None? ==>
          rows.grants[id].expiresAt <= lo)
  }

  ghost predicate Electing(cfg: Config, s: Sys, who: Party, lo: int, hi: int, ids: set<string>) {
    && GrantsSettled(s.rows, who, lo, hi, ids)
    && forall t :: t in s.frames ==> FlightOK(cfg, s.rows, s.frames[t], who, lo, hi, ids)
  }

  /** In the window, live means unrevoked and among `ids`. */
  lemma LiveInWindow(rows: Rows, who: Party, lo: int, hi: int, ids: set<string>, now: int)
    requires GrantsSettled(rows, who, lo, hi, ids) && lo <= now <= hi
    ensures forall id :: id in LiveIds(rows, who, now) <==> id in ids && rows.grants[id].revokedAt.None?
  {
    hide HasOlder, IsPactGrant;
  }

  ghost predicate Revokes(f: Frame, who: Party, id: string) {
    (f.Merging? || f.RevokingExtras?) && f.who == who && id in f.extras
  }

  /** Somebody is about to converge, or every live grant that is not the oldest is on somebody's list. */
  ghost predicate Settling(s: Sys, who: Party, hi: int, ids: set<string>) {
    || (exists t :: t in s.frames && s.frames[t].Converging? && s.frames[t].who == who)
    || (forall id :: id in LiveIds(s.rows, who, hi) && HasOlder(s.rows, ids, id) ==>
          exists t :: t in s.frames && Revokes(s.frames[t], who, id))
  }

  // Steps of everybody else

  ghost predicate SameGrants(rows: Rows, rows': Rows, who: Party) {
    forall id :: (IsGrantOf(rows.grants, id, who) || IsGrantOf(rows'.grants, id, who)) ==>
      id in rows.grants && id in rows'.grants && rows.grants[id] == rows'.grants[id]
  }

  predicate TouchesGrants(act: Action) {
    || act.Widen? || act.InsertNewGrant? || act.Merge? || act.RevokeExtra? || act.RevokeReused?
    || act.AccountRevoke? || act.AccountRevokeAll? || act.AdminRevoke? || act.PoppyGrant?
  }

  lemma GrantsUntouched(cfg: Config, s: Sys, l: Label)
    requires Enabled(s, l) && !TouchesGrants(l.act)
    ensures Step(cfg, s, l).rows.grants == s.rows.grants
  {
    hide Enabled, Step, TouchesGrants;
    if IsAgentAct(l.act) {
      AgentLeavesGrants(cfg, s, l);
    } else if IsApproverAct(l.act) {
      ApproverLeavesGrants(cfg, s, l);
    } else {
      EnvironmentLeavesGrants(cfg, s, l);
    }
  }

  lemma AgentLeavesGrants(cfg: Config, s: Sys, l: Label)
    requires Enabled(s, l) && IsAgentAct(l.act) && !TouchesGrants(l.act)
    ensures Step(cfg, s, l).rows.grants == s.rows.grants
  {
    hide IsPactGrant, ParseScope, FormatScope, IsSnapshot, IsMostRecent, Finds, Usable, Sign, InScopes, CanTransition,
      CanUse, StepApproveFind, StepClaim, StepFindExisting, StepWiden, StepInsertGrant, StepConverge, StepMerge,
      StepRevokeExtra, StepBind, StepDenyFind, StepDeny;
  }

  lemma ApproverLeavesGrants(cfg: Config, s: Sys, l: Label)
    requires Enabled(s, l) && IsApproverAct(l.act) && !TouchesGrants(l.act)
    ensures Step(cfg, s, l).rows.grants == s.rows.grants
  {
    hide IsPactGrant, ParseScope, FormatScope, IsSnapshot, IsMostRecent, Finds, Keep, AllScopes, Dedup, CanTransition,
      LatestExpiry, Unrevoked, StepRequestDevice, StepInsertCode, StepExchangeFind, StepPoll, StepReadGrant,
      StepConsume, StepIssueFirst, StepRefreshFind, StepCheckRefresh, StepSpend, StepRevokeReused, StepIssueNext,
      StepVerify;
  }

  lemma EnvironmentLeavesGrants(cfg: Config, s: Sys, l: Label)
    requires Enabled(s, l) && IsEnvironment(l.act) && !TouchesGrants(l.act)
    ensures Step(cfg, s, l).rows.grants == s.rows.grants
  {
    hide IsPactGrant, IsSnapshot, IsMostRecent, Finds, StepRequestDevice, StepInsertCode, StepExchangeFind, StepPoll,
      StepReadGrant, StepConsume, StepIssueFirst, StepRefreshFind, StepCheckRefresh, StepSpend, StepRevokeReused,
      StepIssueNext, StepVerify, StepApproveFind, StepClaim, StepFindExisting, StepWiden, StepInsertGrant,
      StepConverge, StepMerge, StepRevokeExtra, StepBind, StepDenyFind, StepDeny;
  }

  /** Grant writes that belong to no call. */
  predicate IsConsoleAct(act: Action) {
    act.AccountRevoke? || act.AccountRevokeAll? || act.AdminRevoke? || act.PoppyGrant?
  }

  lemma ConsolesLeaveGrants(cfg: Config, s: Sys, l: Label, who: Party, lo: int, hi: int)
    requires Enabled(s, l) && Steady(cfg, s, l, who, lo, hi) && IsConsoleAct(l.act)
    ensures SameGrants(s.rows, Step(cfg, s, l).rows, who)
  {
    hide InWindow, IsPactGrant, IsSnapshot, IsMostRecent, Finds, StepRequestDevice, StepInsertCode, StepExchangeFind,
      StepPoll, StepReadGrant, StepConsume, StepIssueFirst, StepRefreshFind, StepCheckRefresh, StepSpend,
      StepRevokeReused, StepIssueNext, StepVerify, StepApproveFind, StepClaim, StepFindExisting, StepWiden,
      StepInsertGrant, StepConverge, StepMerge, StepRevokeExtra, StepBind, StepDenyFind, StepDeny;
    if l.act.PoppyGrant? { assert !IsPactGrant(l.act.grantId); }
  }

  /** Another party's widening or merge updates another party's grant. */
  lemma UpdatesLeaveGrants(cfg: Config, s: Sys, l: Label, who: Party)
    requires Inv(cfg, s) && Enabled(s, l) && !ActsFor(s, l, who) && (l.act.Widen? || l.act.Merge?)
    ensures SameGrants(s.rows, Step(cfg, s, l).rows, who)
  {
    hide Inv, AllTicked, InWindow, IsPactGrant, ParseScope, IsSnapshot, IsMostRecent, Finds,
      StepRequestDevice, StepInsertCode, StepExchangeFind, StepPoll, StepReadGrant, StepConsume,
      StepIssueFirst, StepRefreshFind, StepCheckRefresh, StepSpend, StepRevokeReused, StepIssueNext, StepVerify,
      StepApproveFind, StepClaim, StepFindExisting, StepInsertGrant, StepConverge, StepRevokeExtra,
      StepBind, StepDenyFind, StepDeny;
    FrameFact(cfg, s, l.task);
  }

  lemma OtherWritesLeaveGrants(cfg: Config, s: Sys, l: Label, who: Party, lo: int, hi: int)
    requires Inv(cfg, s) && Enabled(s, l) && Steady(cfg, s, l, who, lo, hi) && !ActsFor(s, l, who)
    requires l.act.InsertNewGrant? || l.act.RevokeExtra? || l.act.RevokeReused?
    ensures SameGrants(s.rows, Step(cfg, s, l).rows, who)
  {
    hide Inv, AllTicked, InWindow, IsPactGrant, ParseScope, IsSnapshot, IsMostRecent, Finds, FormatScope,
      StepRequestDevice, StepInsertCode, StepExchangeFind, StepPoll, StepReadGrant, StepConsume, StepIssueFirst,
      StepRefreshFind, StepCheckRefresh, StepSpend, StepIssueNext, StepVerify, StepApproveFind, StepClaim,
      StepFindExisting, StepWiden, StepConverge, StepMerge, StepBind, StepDenyFind, StepDeny;
    FrameFact(cfg, s, l.task);
    if l.act.RevokeExtra? {
      assert s.frames[l.task].extras[0] in s.frames[l.task].extras;
    }
  }

  lemma CallsLeaveGrants(cfg: Config, s: Sys, l: Label, who: Party, lo: int, hi: int)
    requires Inv(cfg, s) && Enabled(s, l) && Steady(cfg, s, l, who, lo, hi) && !ActsFor(s, l, who)
    requires TouchesGrants(l.act) && !IsConsoleAct(l.act)
    ensures SameGrants(s.rows, Step(cfg, s, l).rows, who)
  {
    hide Inv, Enabled, Step, Steady, ActsFor, SameGrants;
    if l.act.Widen? || l.act.Merge? {
      UpdatesLeaveGrants(cfg, s, l, who);
    } else {
      OtherWritesLeaveGrants(cfg, s, l, who, lo, hi);
    }
  }

  lemma OthersLeaveGrants(cfg: Config, s: Sys, l: Label, who: Party, lo: int, hi: int)
    requires Inv(cfg, s) && Enabled(s, l) && Steady(cfg, s, l, who, lo, hi) && !ActsFor(s, l, who)
    ensures SameGrants(s.rows, Step(cfg, s, l).rows, who)
  {
    hide Inv, Step, Enabled, Steady, ActsFor;
    if !TouchesGrants(l.act) {
      GrantsUntouched(cfg, s, l);
    } else if IsConsoleAct(l.act) {
      ConsolesLeaveGrants(cfg, s, l, who, lo, hi);
    } else {
      CallsLeaveGrants(cfg, s, l, who, lo, hi);
    }
  }

  /** The step's own next frame, when it does not act for `who`. */
  lemma NewFlight(cfg: Config, s: Sys, l: Label, who: Party, lo: int, hi: int, ids: set<string>)
    requires Enabled(s, l) && Steady(cfg, s, l, who, lo, hi) && !ActsFor(s, l, who)
    requires l.task in s.frames ==> FlightOK(cfg, s.rows, s.frames[l.task], who, lo, hi, ids)
    requires l.task in Step(cfg, s, l).frames
    ensures var f := Step(cfg, s, l).frames[l.task];
      && (f.Claiming? && f.who == who ==> InWindow(cfg, f.now, lo, hi))
      && (Approving(f, who) ==>
            || (f.FindingExisting? && InWindow(cfg, f.now, lo, hi))
            || (l.task in s.frames && f == s.frames[l.task]))
    ensures l.task in s.frames && Approving(s.frames[l.task], who) ==>
      Step(cfg, s, l).frames[l.task] == s.frames[l.task]
  {
    hide Enabled, Step, Steady, InWindow, HasOlder, ActsFor;
    if IsEnvironment(l.act) {
      EnvironmentOnlyRows(cfg, s, l);
    } else if IsApproverAct(l.act) {
      ApproverFlight(cfg, s, l, who, lo, hi, ids);
    } else {
      AgentFlight(cfg, s, l, who);
    }
  }

  lemma AgentFlight(cfg: Config, s: Sys, l: Label, who: Party)
    requires Enabled(s, l) && IsAgentAct(l.act) && l.task in Step(cfg, s, l).frames
    ensures var f := Step(cfg, s, l).frames[l.task]; !f.Claiming? && !Approving(f, who)
    ensures l.task in s.frames ==> !Approving(s.frames[l.task], who)
  {
    hide IsPactGrant, ParseScope, FormatScope, IsSnapshot, IsMostRecent, Finds, Usable, Sign, InScopes, CanTransition,
      CanUse, InsertDevice, DeleteDevicesExpiredBefore, MarkPolled, TransitionDevice, RevokeGrantById,
      InsertRefreshToken, UseRefreshToken, StepApproveFind, StepClaim, StepFindExisting, StepWiden, StepInsertGrant,
      StepConverge, StepMerge, StepRevokeExtra, StepBind, StepDenyFind, StepDeny;
  }

  lemma ApproverFlight(cfg: Config, s: Sys, l: Label, who: Party, lo: int, hi: int, ids: set<string>)
    requires Enabled(s, l) && IsApproverAct(l.act) && Steady(cfg, s, l, who, lo, hi) && !ActsFor(s, l, who)
    requires l.task in s.frames ==> FlightOK(cfg, s.rows, s.frames[l.task], who, lo, hi, ids)
    requires l.task in Step(cfg, s, l).frames
    ensures var f := Step(cfg, s, l).frames[l.task];
      && (f.Claiming? && f.who == who ==> InWindow(cfg, f.now, lo, hi))
      && (Approving(f, who) ==> f.FindingExisting? && InWindow(cfg, f.now, lo, hi))
    ensures l.task in s.frames ==> !Approving(s.frames[l.task], who)
  {
    hide InWindow, HasOlder, IsGrantOf, IsPactGrant, ParseScope, FormatScope, IsSnapshot, IsMostRecent, Finds, Keep,
      AllScopes, Dedup, CanTransition, LatestExpiry, Unrevoked, TransitionDevice, SetDeviceGrant, InsertGrant,
      UpdateGrant, RevokeGrantById, StepRequestDevice, StepInsertCode, StepExchangeFind, StepPoll, StepReadGrant,
      StepConsume, StepIssueFirst, StepRefreshFind, StepCheckRefresh, StepSpend, StepRevokeReused, StepIssueNext,
      StepVerify;
  }

  lemma HasOlderSame(rows: Rows, rows': Rows, who: Party, ids: set<string>)
    requires SameGrants(rows, rows', who) && forall id :: id in ids ==> IsGrantOf(rows.grants, id, who)
    ensures forall id :: id in ids ==> (HasOlder(rows, ids, id) <==> HasOlder(rows', ids, id))
  {
    hide IsPactGrant;
  }

  lemma OthersKeepGrants(rows: Rows, rows': Rows, who: Party, lo: int, hi: int, ids: set<string>)
    requires SameGrants(rows, rows', who) && GrantsSettled(rows, who, lo, hi, ids)
    ensures GrantsSettled(rows', who, lo, hi, ids)
    ensures forall id :: id in ids ==> (HasOlder(rows, ids, id) <==> HasOlder(rows', ids, id))
    ensures LiveIds(rows', who, hi) == LiveIds(rows, who, hi)
    ensures forall id :: id in LiveIds(rows, who, hi) ==> id in ids
  {
    hide HasOlder, IsPactGrant;
    HasOlderSame(rows, rows', who, ids);
    assert forall id :: IsLive(rows, who, hi, id) <==> IsLive(rows', who, hi, id);
  }

  lemma OthersKeepFlight(cfg: Config, rows: Rows, rows': Rows, f: Frame, who: Party, lo: int, hi: int, ids: set<string>)
    requires FlightOK(cfg, rows, f, who, lo, hi, ids)
    requires forall id :: id in ids && HasOlder(rows, ids, id) ==> HasOlder(rows', ids, id)
    ensures FlightOK(cfg, rows', f, who, lo, hi, ids)
  {
    hide HasOlder;
  }

  lemma OthersKeepElection(cfg: Config, s: Sys, l: Label, who: Party, lo: int, hi: int, ids: set<string>)
    requires Inv(cfg, s) && Enabled(s, l) && Steady(cfg, s, l, who, lo, hi) && !ActsFor(s, l, who)
    requires Electing(cfg, s, who, lo, hi, ids)
    ensures Electing(cfg, Step(cfg, s, l), who, lo, hi, ids)
    ensures Settling(s, who, hi, ids) ==> Settling(Step(cfg, s, l), who, hi, ids)
    ensures LiveIds(Step(cfg, s, l).rows, who, hi) == LiveIds(s.rows, who, hi)
  {
    hide Inv, Enabled, Step, Steady, HasOlder, GrantsSettled, FlightOK, SameGrants, LogGrows, GrantsKept, TokensKept,
      NewIsOwn, InWindow, LiveIds;
    var s' := Step(cfg, s, l);
    OthersLeaveGrants(cfg, s, l, who, lo, hi);
    OthersKeepGrants(s.rows, s'.rows, who, lo, hi, ids);
    StepKeeps(cfg, s, l);
    forall t | t in s'.frames
      ensures FlightOK(cfg, s'.rows, s'.frames[t], who, lo, hi, ids)
    {
      if t in s.frames && s'.frames[t] == s.frames[t] {
        OthersKeepFlight(cfg, s.rows, s'.rows, s.frames[t], who, lo, hi, ids);
      } else {
        NewFlightOK(cfg, s, l, who, lo, hi, ids);
      }
    }
    if Settling(s, who, hi, ids) {
      OthersKeepSettling(cfg, s, l, who, lo, hi, ids);
    }
  }

  lemma NewFlightOK(cfg: Config, s: Sys, l: Label, who: Party, lo: int, hi: int, ids: set<string>)
    requires Enabled(s, l) && Steady(cfg, s, l, who, lo, hi) && !ActsFor(s, l, who)
    requires l.task in s.frames ==> FlightOK(cfg, s.rows, s.frames[l.task], who, lo, hi, ids)
    requires l.task in Step(cfg, s, l).frames
    requires l.task in s.frames ==> Step(cfg, s, l).frames[l.task] != s.frames[l.task]
    ensures FlightOK(cfg, Step(cfg, s, l).rows, Step(cfg, s, l).frames[l.task], who, lo, hi, ids)
  {
    hide Enabled, Step, Steady, HasOlder, InWindow;
    NewFlight(cfg, s, l, who, lo, hi, ids);
  }

  lemma OthersKeepSettling(cfg: Config, s: Sys, l: Label, who: Party, lo: int, hi: int, ids: set<string>)
    requires Enabled(s, l) && Steady(cfg, s, l, who, lo, hi) && !ActsFor(s, l, who)
    requires Electing(cfg, s, who, lo, hi, ids) && Settling(s, who, hi, ids)
    requires FramesElsewhere(s.frames, Step(cfg, s, l).frames, if IsEnvironment(l.act) then -1 else l.task)
    requires forall id :: id in ids ==> (HasOlder(s.rows, ids, id) <==> HasOlder(Step(cfg, s, l).rows, ids, id))
    requires LiveIds(Step(cfg, s, l).rows, who, hi) == LiveIds(s.rows, who, hi)
    requires forall id :: id in LiveIds(s.rows, who, hi) ==> id in ids
    ensures Settling(Step(cfg, s, l), who, hi, ids)
  {
    hide Enabled, Step, Steady, HasOlder, GrantsSettled, FlightOK, LiveIds, IsEnvironment;
    var s' := Step(cfg, s, l);
    forall t | t in s.frames && Approving(s.frames[t], who)
      ensures t in s'.frames && s'.frames[t] == s.frames[t]
    {
      if t == l.task { TaskStays(cfg, s, l, t); NewFlight(cfg, s, l, who, lo, hi, ids); }
    }
    if t :| t in s.frames && s.frames[t].Converging? && s.frames[t].who == who {
      assert t in s'.frames && s'.frames[t].Converging?;
    } else {
      forall id | id in LiveIds(s'.rows, who, hi) && HasOlder(s'.rows, ids, id)
        ensures exists t :: t in s'.frames && Revokes(s'.frames[t], who, id)
      {
        var t :| t in s.frames && Revokes(s.frames[t], who, id);
        assert t in s'.frames && s'.frames[t] == s.frames[t];
      }
    }
  }

  lemma TaskStays(cfg: Config, s: Sys, l: Label, t: nat)
    requires Enabled(s, l) && t in s.frames
    ensures t in Step(cfg, s, l).frames
  {
    hide ParseScope, FormatScope, IsSnapshot, IsMostRecent, Finds, Keep, AllScopes, Dedup, Usable, Sign, InScopes,
      LatestExpiry, IsPactGrant, CanUse, UpdateGrant, RevokeGrantById, RevokeGrant, RevokeAllGrants, CanTransition,
      DeleteDevicesExpiredBefore, TransitionDevice, MarkPolled;
  }

  // Steps of the converging approvals themselves

  ghost predicate CreatedKept(rows: Rows, rows': Rows, ids: set<string>) {
    forall id :: id in ids ==>
      id in rows.grants && id in rows'.grants && rows'.grants[id].createdAt == rows.grants[id].createdAt
  }

  lemma HasOlderKept(rows: Rows, rows': Rows, ids: set<string>, ids': set<string>)
    requires CreatedKept(rows, rows', ids) && ids <= ids'
    ensures forall id :: id in ids && HasOlder(rows, ids, id) ==> HasOlder(rows', ids', id)
    ensures ids' == ids ==> forall id :: id in ids && HasOlder(rows', ids, id) ==> HasOlder(rows, ids, id)
  {
    forall id | id in ids && HasOlder(rows, ids, id)
      ensures HasOlder(rows', ids', id)
    {
      var h :| h in ids && Older(rows, h, id);
      assert Older(rows', h, id);
    }
  }

  lemma FlightKept(cfg: Config, rows: Rows, rows': Rows, f: Frame, who: Party, lo: int, hi: int,
                   ids: set<string>, ids': set<string>)
    requires FlightOK(cfg, rows, f, who, lo, hi, ids) && ids <= ids'
    requires forall id :: id in ids && HasOlder(rows, ids, id) ==> HasOlder(rows', ids', id)
    ensures FlightOK(cfg, rows', f, who, lo, hi, ids')
  {
    hide HasOlder;
  }

  /** All flights but the stepping one, whose next frame is given. */
  lemma FlightsKept(cfg: Config, s: Sys, s': Sys, t: nat, who: Party, lo: int, hi: int, ids: set<string>,
      ids': set<string>)
    requires Electing(cfg, s, who, lo, hi, ids) && t in s'.frames && s'.frames == s.frames[t := s'.frames[t]]
    requires GrantsSettled(s'.rows, who, lo, hi, ids') && ids <= ids'
    requires forall id :: id in ids && HasOlder(s.rows, ids, id) ==> HasOlder(s'.rows, ids', id)
    requires FlightOK(cfg, s'.rows, s'.frames[t], who, lo, hi, ids')
    ensures Electing(cfg, s', who, lo, hi, ids')
  {
    hide HasOlder, FlightOK, GrantsSettled;
    forall u | u in s'.frames
      ensures FlightOK(cfg, s'.rows, s'.frames[u], who, lo, hi, ids')
    {
      if u != t { FlightKept(cfg, s.rows, s'.rows, s.frames[u], who, lo, hi, ids, ids'); }
    }
  }

  /** Settling survives when no live grant is new and only `gone` leaves the stepping approval's list. */
  lemma SettlingKept(s: Sys, s': Sys, t: nat, who: Party, hi: int, ids: set<string>, gone: set<string>)
    requires Settling(s, who, hi, ids) && t in s.frames && t in s'.frames && s'.frames == s.frames[t := s'.frames[t]]
    requires !s.frames[t].Converging?
    requires forall id :: id in LiveIds(s'.rows, who, hi) ==> id in LiveIds(s.rows, who, hi) && id in ids && id !in gone
    requires forall id :: id in ids && HasOlder(s'.rows, ids, id) ==> HasOlder(s.rows, ids, id)
    requires forall id :: Revokes(s.frames[t], who, id) ==> id in gone || Revokes(s'.frames[t], who, id)
    ensures Settling(s', who, hi, ids)
  {
    hide LiveIds, HasOlder;
    if u :| u in s.frames && s.frames[u].Converging? && s.frames[u].who == who {
      assert u in s'.frames && s'.frames[u].Converging?;
    } else {
      forall id | id in LiveIds(s'.rows, who, hi) && HasOlder(s'.rows, ids, id)
        ensures exists u :: u in s'.frames && Revokes(s'.frames[u], who, id)
      {
        var u :| u in s.frames && Revokes(s.frames[u], who, id);
        assert u in s'.frames && Revokes(s'.frames[u], who, id);
      }
    }
  }

  /** What a step of an approval of `who` owes. */
  ghost predicate ElectionGoesOn(cfg: Config, s: Sys, s': Sys, who: Party, lo: int, hi: int, ids: set<string>) {
    Electing(cfg, s', who, lo, hi, ids) && (Settling(s, who, hi, ids) ==> Settling(s', who, hi, ids))
  }

  lemma FrameStep(cfg: Config, s: Sys, t: nat, f: Frame, who: Party, lo: int, hi: int, ids: set<string>)
    requires Electing(cfg, s, who, lo, hi, ids) && t in s.frames
    requires !s.frames[t].Converging? && !s.frames[t].Merging? && !s.frames[t].RevokingExtras?
    requires FlightOK(cfg, s.rows, f, who, lo, hi, ids)
    ensures ElectionGoesOn(cfg, s, At(s, t, f), who, lo, hi, ids)
  {
    hide FlightOK, HasOlder, LiveIds, Electing;
    FrameStepFlights(cfg, s, t, f, who, lo, hi, ids);
    LiveAmongIds(cfg, s, who, lo, hi, ids);
    if Settling(s, who, hi, ids) { SettlingKept(s, At(s, t, f), t, who, hi, ids, {}); }
  }

  lemma FrameStepFlights(cfg: Config, s: Sys, t: nat, f: Frame, who: Party, lo: int, hi: int, ids: set<string>)
    requires Electing(cfg, s, who, lo, hi, ids) && FlightOK(cfg, s.rows, f, who, lo, hi, ids)
    ensures Electing(cfg, At(s, t, f), who, lo, hi, ids)
  {
    hide FlightOK, HasOlder, GrantsSettled;
  }

  lemma LiveAmongIds(cfg: Config, s: Sys, who: Party, lo: int, hi: int, ids: set<string>)
    requires Electing(cfg, s, who, lo, hi, ids)
    ensures forall id :: id in LiveIds(s.rows, who, hi) <==> id in ids && s.rows.grants[id].revokedAt.None?
  {
    hide FlightOK;
    LiveInWindow(s.rows, who, lo, hi, ids, hi);
  }

  lemma FindExistingElects(cfg: Config, s: Sys, t: nat, f: Frame, choice: Option<string>, who: Party, lo: int,
      hi: int, ids: set<string>)
    requires Electing(cfg, s, who, lo, hi, ids) && t in s.frames && s.frames[t] == f && f.FindingExisting?
    requires f.who == who
    requires IsMostRecent(s.rows, who, f.now, choice)
    ensures ElectionGoesOn(cfg, s, StepFindExisting(s, t, f, choice), who, lo, hi, ids)
  {
    hide ElectionGoesOn, HasOlder, ParseScope, FormatScope, Dedup, GrantsSettled, IsPactGrant;
    LiveInWindow(s.rows, who, lo, hi, ids, f.now);
    FrameStep(cfg, s, t, StepFindExisting(s, t, f, choice).frames[t], who, lo, hi, ids);
  }

  lemma UpdateSettles(rows: Rows, who: Party, lo: int, hi: int, ids: set<string>, id: string, scope: string,
      expiresAt: int, at: int)
    requires GrantsSettled(rows, who, lo, hi, ids) && id in ids && expiresAt > hi
    ensures GrantsSettled(UpdateGrant(rows, id, scope, expiresAt, at), who, lo, hi, ids)
    ensures CreatedKept(rows, UpdateGrant(rows, id, scope, expiresAt, at), ids)
  {
    hide HasOlder, IsPactGrant;
    HasOlderKept(rows, UpdateGrant(rows, id, scope, expiresAt, at), ids, ids);
  }

  /** A step that updates one of `ids` and leaves its list as it is. */
  lemma UpdateStep(cfg: Config, s: Sys, t: nat, f: Frame, id: string, scope: string, expiresAt: int, at: int,
                   who: Party, lo: int, hi: int, ids: set<string>)
    requires Electing(cfg, s, who, lo, hi, ids) && t in s.frames && !s.frames[t].Converging? && id in ids
    requires expiresAt > hi
    requires forall x :: Revokes(s.frames[t], who, x) ==> Revokes(f, who, x)
    requires FlightOK(cfg, s.rows, f, who, lo, hi, ids)
    ensures ElectionGoesOn(cfg, s, At(s, t, f).(rows := UpdateGrant(s.rows, id, scope, expiresAt, at)), who, lo,
      hi, ids)
  {
    hide FlightOK, HasOlder, GrantsSettled, CreatedKept, UpdateGrant, Revokes, LiveIds;
    var s' := At(s, t, f).(rows := UpdateGrant(s.rows, id, scope, expiresAt, at));
    UpdateSettles(s.rows, who, lo, hi, ids, id, scope, expiresAt, at);
    HasOlderKept(s.rows, s'.rows, ids, ids);
    FlightKept(cfg, s.rows, s'.rows, f, who, lo, hi, ids, ids);
    FlightsKept(cfg, s, s', t, who, lo, hi, ids, ids);
    UpdateLive(s.rows, who, lo, hi, ids, id, scope, expiresAt, at);
    if Settling(s, who, hi, ids) { SettlingKept(s, s', t, who, hi, ids, {}); }
  }

  lemma UpdateLive(rows: Rows, who: Party, lo: int, hi: int, ids: set<string>, id: string, scope: string,
      expiresAt: int, at: int)
    requires GrantsSettled(rows, who, lo, hi, ids) && id in ids && expiresAt > hi
    ensures LiveIds(UpdateGrant(rows, id, scope, expiresAt, at), who, hi) == LiveIds(rows, who, hi)
    ensures forall x :: x in LiveIds(rows, who, hi) ==> x in ids
  {
    hide HasOlder, IsPactGrant;
    var rows' := UpdateGrant(rows, id, scope, expiresAt, at);
    LiveInWindow(rows, who, lo, hi, ids, hi);
    assert forall x :: IsLive(rows, who, hi, x) <==> IsLive(rows', who, hi, x);
  }

  lemma WidenElects(cfg: Config, s: Sys, t: nat, f: Frame, who: Party, lo: int, hi: int, ids: set<string>)
    requires Electing(cfg, s, who, lo, hi, ids) && t in s.frames && s.frames[t] == f && f.Widening? && f.who == who
    ensures ElectionGoesOn(cfg, s, StepWiden(cfg, s, t, f), who, lo, hi, ids)
  {
    hide ElectionGoesOn, HasOlder, ParseScope, GrantsSettled, IsPactGrant;
    var f' := StepWiden(cfg, s, t, f).frames[t];
    if Unrevoked(s.rows, f.grantId) {
      UpdateStep(cfg, s, t, f', f.grantId, f.scope, f.now + cfg.grantTtl * 1000, f.now, who, lo, hi, ids);
    } else {
      FrameStep(cfg, s, t, f', who, lo, hi, ids);
    }
  }

  /** A new grant joins the candidates, and its approval is about to converge. */
  lemma InsertElects(cfg: Config, s: Sys, t: nat, f: Frame, id: string, who: Party, lo: int, hi: int, ids: set<string>)
    requires Electing(cfg, s, who, lo, hi, ids) && t in s.frames && s.frames[t] == f && f.InsertingGrant?
    requires f.who == who
    requires id !in s.rows.grants && IsPactGrant(id)
    ensures Electing(cfg, StepInsertGrant(cfg, s, t, f, id), who, lo, hi, ids + {id})
    ensures Settling(StepInsertGrant(cfg, s, t, f, id), who, hi, ids + {id})
  {
    hide HasOlder, FormatScope, IsPactGrant;
    var s' := StepInsertGrant(cfg, s, t, f, id);
    assert CreatedKept(s.rows, s'.rows, ids);
    HasOlderKept(s.rows, s'.rows, ids, ids + {id});
    FlightsKept(cfg, s, s', t, who, lo, hi, ids, ids + {id});
  }

  /** The snapshot is never empty, it starts with the oldest candidate, and it lists every live one that is not. */
  lemma ConvergeElects(cfg: Config, s: Sys, t: nat, f: Frame, live: seq<string>, who: Party, lo: int, hi: int,
      ids: set<string>)
    requires Electing(cfg, s, who, lo, hi, ids) && t in s.frames && s.frames[t] == f && f.Converging? && f.who == who
    requires IsSnapshot(s.rows, who, f.now, live) && forall id :: id in live ==> id in s.rows.grants
    ensures live != [] && IsOldest(s.rows, live[0], ids)
    ensures Electing(cfg, StepConverge(s, t, f, live), who, lo, hi, ids)
    ensures Settling(StepConverge(s, t, f, live), who, hi, ids)
  {
    hide HasOlder, IsPactGrant, ParseScope, FormatScope, Dedup, AllScopes, GrantsSettled, Older, LiveIds, IsOldest;
    var s' := StepConverge(s, t, f, live);
    var m := SnapshotOldest(s.rows, who, lo, hi, ids, f.now, live);
    LiveInWindow(s.rows, who, lo, hi, ids, f.now);
    LiveInWindow(s.rows, who, lo, hi, ids, hi);
    OldestHasNoOlder(s.rows, ids, m);
    FrameStepFlights(cfg, s, t, s'.frames[t], who, lo, hi, ids);
    forall id | id in LiveIds(s.rows, who, hi) && HasOlder(s.rows, ids, id)
      ensures t in s'.frames && Revokes(s'.frames[t], who, id)
    {
      assert id in live && id != live[0];
    }
  }

  lemma SnapshotOldest(rows: Rows, who: Party, lo: int, hi: int, ids: set<string>, now: int, live: seq<string>)
    returns (m: string)
    requires GrantsSettled(rows, who, lo, hi, ids) && ids != {} && lo <= now <= hi && IsSnapshot(rows, who, now, live)
    ensures live != [] && m == live[0] && IsOldest(rows, m, ids)
    ensures forall i :: 0 < i < |live| ==> live[i] in ids && live[i] != m
    ensures |live| > 1 ==> LatestExpiry(rows, live) > hi
  {
    hide Older, IsPactGrant, HasOlder;
    m := OldestExists(rows, ids);
    OldestHasNoOlder(rows, ids, m);
    LiveInWindow(rows, who, lo, hi, ids, now);
    assert m in live;
    var i :| 0 <= i < |live| && live[i] == m;
    assert live[0] in live;
    if i > 0 {
      OlderIsStrict(rows, m, live[0], m);
    }
    forall j | 0 < j < |live|
      ensures live[j] in ids && live[j] != m
    {
      assert live[j] in live;
      OlderIsStrict(rows, m, m, m);
    }
  }

  lemma MergeElects(cfg: Config, s: Sys, t: nat, f: Frame, who: Party, lo: int, hi: int, ids: set<string>)
    requires Electing(cfg, s, who, lo, hi, ids) && t in s.frames && s.frames[t] == f && f.Merging? && f.who == who
    ensures ElectionGoesOn(cfg, s, StepMerge(s, t, f), who, lo, hi, ids)
  {
    hide ElectionGoesOn, HasOlder, ParseScope, GrantsSettled, IsPactGrant;
    UpdateStep(cfg, s, t, StepMerge(s, t, f).frames[t], f.survivor, f.scope, f.expiresAt, f.now, who, lo, hi, ids);
  }

  lemma RevokeSettles(rows: Rows, who: Party, lo: int, hi: int, ids: set<string>, id: string, at: int)
    requires GrantsSettled(rows, who, lo, hi, ids) && id in ids && HasOlder(rows, ids, id)
    ensures GrantsSettled(RevokeGrantById(rows, id, at), who, lo, hi, ids)
    ensures CreatedKept(rows, RevokeGrantById(rows, id, at), ids)
    ensures forall x :: x in LiveIds(RevokeGrantById(rows, id, at), who, hi) ==>
      x in LiveIds(rows, who, hi) && x in ids && x != id
  {
    hide HasOlder, IsPactGrant;
    assert CreatedKept(rows, RevokeGrantById(rows, id, at), ids);
    HasOlderKept(rows, RevokeGrantById(rows, id, at), ids, ids);
    LiveInWindow(rows, who, lo, hi, ids, hi);
  }

  lemma RevokeExtraElects(cfg: Config, s: Sys, t: nat, f: Frame, who: Party, lo: int, hi: int, ids: set<string>)
    requires Electing(cfg, s, who, lo, hi, ids) && t in s.frames && s.frames[t] == f && f.RevokingExtras?
    requires f.who == who
    requires f.extras != []
    ensures ElectionGoesOn(cfg, s, StepRevokeExtra(s, t, f), who, lo, hi, ids)
  {
    hide HasOlder, GrantsSettled, IsPactGrant, CreatedKept, LiveIds, RevokeGrantById;
    var s' := StepRevokeExtra(s, t, f);
    var id := f.extras[0];
    assert id in f.extras && forall x :: x in f.extras[1..] ==> x in f.extras;
    assert forall x :: x in f.extras ==> x == id || x in f.extras[1..];
    RevokeSettles(s.rows, who, lo, hi, ids, id, f.now);
    HasOlderKept(s.rows, s'.rows, ids, ids);
    FlightsKept(cfg, s, s', t, who, lo, hi, ids, ids);
    if Settling(s, who, hi, ids) { SettlingKept(s, s', t, who, hi, ids, {id}); }
  }

  lemma BindElects(cfg: Config, s: Sys, t: nat, f: Frame, who: Party, lo: int, hi: int, ids: set<string>)
    requires Electing(cfg, s, who, lo, hi, ids) && t in s.frames && s.frames[t] == f && f.Binding? && f.who == who
    ensures ElectionGoesOn(cfg, s, StepBind(s, t, f), who, lo, hi, ids)
  {
    hide HasOlder;
    var s' := StepBind(s, t, f);
    assert CreatedKept(s.rows, s'.rows, ids) by { hide FlightOK; }
    HasOlderKept(s.rows, s'.rows, ids, ids);
    HasOlderSame(s.rows, s'.rows, who, ids);
    OthersKeepGrants(s.rows, s'.rows, who, lo, hi, ids);
    FlightsKept(cfg, s, s', t, who, lo, hi, ids, ids);
    if Settling(s, who, hi, ids) { SettlingKept(s, s', t, who, hi, ids, {}); }
  }

  // Runs

  /** The grants of `who` that appeared between two states. */
  ghost function Inserted(rows: Rows, rows': Rows, who: Party): set<string> {
    set id | id in rows'.grants && IsGrantOf(rows'.grants, id, who) && !IsGrantOf(rows.grants, id, who)
  }

  /** One step, whoever takes it. */
  lemma StepElects(cfg: Config, s: Sys, l: Label, who: Party, lo: int, hi: int, ids: set<string>)
      returns (ids': set<string>)
    requires Inv(cfg, s) && Enabled(s, l) && Steady(cfg, s, l, who, lo, hi) && Electing(cfg, s, who, lo, hi, ids)
    ensures ids' == ids + Inserted(s.rows, Step(cfg, s, l).rows, who)
    ensures Electing(cfg, Step(cfg, s, l), who, lo, hi, ids')
    ensures Settling(s, who, hi, ids) || ids' != ids ==> Settling(Step(cfg, s, l), who, hi, ids')
    ensures l.act.Converge? && ActsFor(s, l, who) ==> l.act.live != []
  {
    hide Inv, Steady, Electing, Settling, IsPactGrant, ParseScope, FormatScope, Dedup, AllScopes, IsSnapshot,
      IsMostRecent, LatestExpiry, SameGrants, LiveIds, Inserted, Finds;
    var t := l.task;
    if !ActsFor(s, l, who) {
      OthersKeepElection(cfg, s, l, who, lo, hi, ids);
      OthersLeaveGrants(cfg, s, l, who, lo, hi);
      SameNothingInserted(s.rows, Step(cfg, s, l).rows, who);
      ids' := ids;
    } else if l.act.InsertNewGrant? {
      InsertElects(cfg, s, t, s.frames[t], l.act.grantId, who, lo, hi, ids);
      ids' := ids + {l.act.grantId};
      InsertedOne(cfg, s, t, s.frames[t], l.act.grantId, who);
    } else {
      ActorElects(cfg, s, l, who, lo, hi, ids);
      ids' := ids;
    }
  }

  lemma SameNothingInserted(rows: Rows, rows': Rows, who: Party)
    requires SameGrants(rows, rows', who)
    ensures Inserted(rows, rows', who) == {}
  {
    hide IsPactGrant;
  }

  lemma InsertedOne(cfg: Config, s: Sys, t: nat, f: Frame, id: string, who: Party)
    requires f.InsertingGrant? && f.who == who && id !in s.rows.grants && IsPactGrant(id)
    ensures Inserted(s.rows, StepInsertGrant(cfg, s, t, f, id).rows, who) == {id}
  {
    hide IsPactGrant, FormatScope;
  }

  lemma ActorElects(cfg: Config, s: Sys, l: Label, who: Party, lo: int, hi: int, ids: set<string>)
    requires Enabled(s, l) && ActsFor(s, l, who) && !l.act.InsertNewGrant? && Electing(cfg, s, who, lo, hi, ids)
    ensures Electing(cfg, Step(cfg, s, l), who, lo, hi, ids)
    ensures Settling(s, who, hi, ids) ==> Settling(Step(cfg, s, l), who, hi, ids)
    ensures Inserted(s.rows, Step(cfg, s, l).rows, who) == {}
    ensures l.act.Converge? ==> l.act.live != []
  {
    hide Electing, Settling, IsPactGrant, ParseScope, FormatScope, Dedup, AllScopes, IsMostRecent, LatestExpiry,
      LiveIds;
    var t := l.task;
    if l.act.Converge? { SnapshotIsOfParty(s.rows, s.frames[t].who, s.frames[t].now, l.act.live); }
    match l.act
    case FindExisting(choice) => FindExistingElects(cfg, s, t, s.frames[t], choice, who, lo, hi, ids);
    case Widen => WidenElects(cfg, s, t, s.frames[t], who, lo, hi, ids);
    case Converge(live) => ConvergeElects(cfg, s, t, s.frames[t], live, who, lo, hi, ids);
    case Merge => MergeElects(cfg, s, t, s.frames[t], who, lo, hi, ids);
    case RevokeExtra => RevokeExtraElects(cfg, s, t, s.frames[t], who, lo, hi, ids);
    case Bind => BindElects(cfg, s, t, s.frames[t], who, lo, hi, ids);
  }

  lemma InsertedCompose(rows: Rows, rows': Rows, rows'': Rows, who: Party)
    requires GrantsKept(rows.grants, rows'.grants) && GrantsKept(rows'.grants, rows''.grants)
    ensures Inserted(rows, rows'', who) == Inserted(rows, rows', who) + Inserted(rows', rows'', who)
  {
    hide IsPactGrant;
  }

  lemma {:induction false} RunElects(cfg: Config, s: Sys, run: seq<Label>, who: Party, lo: int, hi: int,
      ids: set<string>)
    returns (ids': set<string>)
    requires Inv(cfg, s) && SteadyRun(cfg, s, run, who, lo, hi) && IsRun(cfg, s, run)
    requires Electing(cfg, s, who, lo, hi, ids)
    ensures ids' == ids + Inserted(s.rows, After(cfg, s, run).rows, who)
    ensures Electing(cfg, After(cfg, s, run), who, lo, hi, ids')
    ensures Settling(s, who, hi, ids) || ids' != ids ==> Settling(After(cfg, s, run), who, hi, ids')
    ensures GrantsKept(s.rows.grants, After(cfg, s, run).rows.grants)
    decreases |run|
  {
    hide Inv, Enabled, Step, Steady, Electing, Settling, Inserted, GrantsKept, LogGrows, TokensKept, NewIsOwn,
      FramesElsewhere, ActsFor;
    if run == [] {
      ids' := ids;
      KeptReflexive(s.rows, who);
    } else {
      var s' := Step(cfg, s, run[0]);
      var mid := StepElects(cfg, s, run[0], who, lo, hi, ids);
      StepKeeps(cfg, s, run[0]);
      ids' := RunElects(cfg, s', run[1..], who, lo, hi, mid);
      InsertedCompose(s.rows, s'.rows, After(cfg, s', run[1..]).rows, who);
      KeptTransitive(s.rows.grants, s'.rows.grants, After(cfg, s', run[1..]).rows.grants);
    }
  }

  lemma KeptReflexive(rows: Rows, who: Party)
    ensures GrantsKept(rows.grants, rows.grants) && Inserted(rows, rows, who) == {}
  {
    hide IsPactGrant;
  }

  lemma KeptTransitive(a: map<string, Grant>, b: map<string, Grant>, c: map<string, Grant>)
    requires GrantsKept(a, b) && GrantsKept(b, c)
    ensures GrantsKept(a, c)
  {
    hide IsPactGrant;
  }

  /**
   * Where a run of approvals may start: none of `who` has claimed a code yet, those looking at one read their
   * clock in the window, and no grant of `who` expires inside the window.
   */
  ghost predicate Quiet(cfg: Config, s: Sys, who: Party, lo: int, hi: int) {
    && lo <= hi
    && (forall t :: t in s.frames ==> !Approving(s.frames[t], who))
    && (forall t :: t in s.frames && s.frames[t].Claiming? && s.frames[t].who == who ==>
      InWindow(cfg, s.frames[t].now, lo, hi))
    && NoneExpires(s.rows, who, lo, hi)
  }

  ghost predicate NoneExpires(rows: Rows, who: Party, lo: int, hi: int) {
    forall id :: IsGrantOf(rows.grants, id, who) && rows.grants[id].revokedAt.None? ==>
      rows.grants[id].expiresAt <= lo || rows.grants[id].expiresAt > hi
  }

  lemma LiveSettled(rows: Rows, who: Party, lo: int, hi: int)
    requires lo <= hi && NoneExpires(rows, who, lo, hi)
    ensures GrantsSettled(rows, who, lo, hi, LiveIds(rows, who, hi))
  {
    hide IsPactGrant, HasOlder;
  }

  lemma QuietElects(cfg: Config, s: Sys, who: Party, lo: int, hi: int)
    requires Quiet(cfg, s, who, lo, hi)
    ensures Electing(cfg, s, who, lo, hi, LiveIds(s.rows, who, hi))
  {
    hide GrantsSettled, HasOlder, LiveIds, InWindow, NoneExpires;
    LiveSettled(s.rows, who, lo, hi);
  }

  /** When nobody of `who` is in flight any more, settling is done. */
  lemma SettledLeavesOldest(cfg: Config, s: Sys, who: Party, lo: int, hi: int, ids: set<string>) returns (m: string)
    requires Electing(cfg, s, who, lo, hi, ids) && Settling(s, who, hi, ids) && ids != {}
    requires forall t :: t in s.frames ==> !Approving(s.frames[t], who)
    ensures IsOldest(s.rows, m, ids) && LiveIds(s.rows, who, hi) == {m}
  {
    hide HasOlder, FlightOK, LiveIds, Older, IsPactGrant;
    m := OldestExists(s.rows, ids);
    OldestHasNoOlder(s.rows, ids, m);
    LiveInWindow(s.rows, who, lo, hi, ids, hi);
    assert forall t, id :: t in s.frames ==> !Revokes(s.frames[t], who, id);
    assert forall id :: id in LiveIds(s.rows, who, hi) ==> !HasOlder(s.rows, ids, id);
    assert m in LiveIds(s.rows, who, hi);
  }

  /**
   * Convergence: after any number of concurrent approvals of one party, in any interleaving, if at least one of
   * them inserted a grant, then once all of them have returned exactly one grant of the party is live, the
   * oldest of those live at the start or inserted.
   */
  lemma OneGrantSurvives(cfg: Config, s: Sys, run: seq<Label>, who: Party, lo: int, hi: int) returns (m: string)
    requires Inv(cfg, s) && SteadyRun(cfg, s, run, who, lo, hi) && IsRun(cfg, s, run) && Quiet(cfg, s, who, lo, hi)
    requires forall t :: t in After(cfg, s, run).frames ==> !Approving(After(cfg, s, run).frames[t], who)
    requires Inserted(s.rows, After(cfg, s, run).rows, who) != {}
    ensures LiveIds(After(cfg, s, run).rows, who, hi) == {m}
    ensures IsOldest(After(cfg, s, run).rows, m,
                     LiveIds(s.rows, who, hi) + Inserted(s.rows, After(cfg, s, run).rows, who))
  {
    hide Inv, Enabled, Step, Steady, Electing, Settling, Quiet, IsOldest, SteadyRun, IsRun, After, GrantsKept;
    QuietElects(cfg, s, who, lo, hi);
    var ids := LiveIds(s.rows, who, hi);
    var ids' := RunElects(cfg, s, run, who, lo, hi, ids);
    InsertedIsNew(s.rows, After(cfg, s, run).rows, who, hi);
    m := SettledLeavesOldest(cfg, After(cfg, s, run), who, lo, hi, ids');
  }

  lemma InsertedIsNew(rows: Rows, rows': Rows, who: Party, hi: int)
    ensures Inserted(rows, rows', who) !! LiveIds(rows, who, hi)
  {
    hide IsPactGrant;
  }

  /**
   * "The grant vanished" cannot happen: wherever in such a run an approval of `who` converges, it sees a live grant.
   */
  lemma NeverVanishes(cfg: Config, s: Sys, run: seq<Label>, l: Label, who: Party, lo: int, hi: int)
    requires Inv(cfg, s) && SteadyRun(cfg, s, run, who, lo, hi) && IsRun(cfg, s, run) && Quiet(cfg, s, who, lo, hi)
    requires Enabled(After(cfg, s, run), l) && l.act.Converge? && ActsFor(After(cfg, s, run), l, who)
    ensures l.act.live != []
  {
    hide Inv, Enabled, Step, Electing, Settling, Quiet, SteadyRun, IsRun, After, GrantsKept;
    QuietElects(cfg, s, who, lo, hi);
    var ids := RunElects(cfg, s, run, who, lo, hi, LiveIds(s.rows, who, hi));
    RunKeeps(cfg, s, run);
    ids := StepElects(cfg, After(cfg, s, run), l, who, lo, hi, ids);
  }
}
