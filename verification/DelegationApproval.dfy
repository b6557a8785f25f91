/**
 * What an approval grants and a denial denies. Over every history: the answer of each approval told from the row it
 * found and its own clock, what it writes to the grants table, how long every grant lives, and that a denied code
 * stays denied.
 */
module DelegationApproval {
  import opened Wrappers
  import opened Scopes
  import opened DelegationRows
  import opened DelegationMachine
  import opened DelegationInvariant
  import opened DelegationPreservation
  import opened DelegationTraces
  import opened DelegationTheorems
  import opened DelegationExchange
  import DelegationConvergence

  predicate IsApprove(f: Frame) {
    f.Claiming? || IsApproval(f) || (f.Done? && f.call.ApproveCall?)
  }

  /** Requested for the code, and ticked. */
  predicate MayGrant(rows: Rows, code: string, ticked: set<string>, x: string)
    requires code in rows.devices
  {
    x in ParseScope(rows.devices[code].requestedScope) && x in ticked
  }

  /** The code found waits for a decision and is in time, and something it asks for is ticked. */
  ghost predicate Decidable(rows: Rows, found: Option<string>, ticked: set<string>, now: int) {
    && found.Some? && found.value in rows.devices
    && rows.devices[found.value].status == Pending && now < rows.devices[found.value].expiresAt
    && exists x :: MayGrant(rows, found.value, ticked, x)
  }

  /** How an approval stands, or how it ended, told from the rows its look-up found at `now`. */
  ghost predicate ApproveTold(
    rows: Rows, found: Option<string>, accountId: string, ticked: set<string>, now: int, f: Frame)
  {
    && IsApprove(f)
    && (!Decidable(rows, found, ticked, now) ==> f == Done(ApproveCall(found, accountId), NotGranted))
    && (f.Done? ==>
          f.call == ApproveCall(found, accountId)
          && (f.outcome.Granted? || f.outcome.NotGranted? || f.outcome == Failed(GrantVanished)))
    && (!f.Done? ==>
          && Decidable(rows, found, ticked, now) && found == Some(f.code)
          && f.who == Party(accountId, rows.devices[f.code].clientId, rows.devices[f.code].agentSub)
          && (!f.Binding? ==> f.now == now))
    && (f.Claiming? || f.FindingExisting? || f.Widening? || f.InsertingGrant? ==>
          IsScopeList(f.granted) && forall x :: x in f.granted <==> MayGrant(rows, found.value, ticked, x))
    && (f.Widening? ==> forall x :: x in f.granted ==> x in ParseScope(f.scope))
  }

  lemma ApproveFindTells(cfg: Config, s: Sys, l: Label)
    requires Enabled(s, l) && l.act.ApproveFind?
    ensures Step(cfg, s, l).rows == s.rows && l.task in Step(cfg, s, l).frames
    ensures
      ApproveTold(s.rows, l.act.found, l.act.accountId, l.act.ticked, l.act.now, Step(cfg, s, l).frames[l.task])
  {
    hide ParseScope, IsPactGrant, IsSnapshot, IsMostRecent, NormalizeUserCode;
    var found, ticked := l.act.found, l.act.ticked;
    if found.Some? {
      var kept := Keep(ParseScope(s.rows.devices[found.value].requestedScope), ticked);
      assert forall x :: x in kept <==> MayGrant(s.rows, found.value, ticked, x);
      if kept != [] { assert kept[0] in kept; }
    }
  }

  lemma KeptIsDecidable(rows: Rows, found: Option<string>, ticked: set<string>, now: int)
    requires found.Some? && found.value in rows.devices && rows.devices[found.value].status == Pending
    requires now < rows.devices[found.value].expiresAt
    requires Keep(ParseScope(rows.devices[found.value].requestedScope), ticked) != []
    ensures Decidable(rows, found, ticked, now)
  {
    hide ParseScope;
    var kept := Keep(ParseScope(rows.devices[found.value].requestedScope), ticked);
    assert kept[0] in kept;
    assert MayGrant(rows, found.value, ticked, kept[0]);
  }

  /** How a call that found a code to decide on may end. */
  lemma DecidableEnds(
      rows: Rows, found: Option<string>, accountId: string, ticked: set<string>, now: int, outcome: Outcome)
    requires Decidable(rows, found, ticked, now)
    requires outcome.Granted? || outcome.NotGranted? || outcome == Failed(GrantVanished)
    ensures ApproveTold(rows, found, accountId, ticked, now, Done(ApproveCall(found, accountId), outcome))
  {
    hide MayGrant;
  }

  predicate IsDecisionAct(act: Action) {
    || act.ClaimCode? || act.FindExisting? || act.Widen? || act.InsertNewGrant? || act.Converge? || act.Merge?
    || act.RevokeExtra? || act.Bind?
  }

  lemma ApproveGoesOn(cfg: Config, s: Sys, l: Label)
    requires Enabled(s, l) && !IsEnvironment(l.act) && !l.act.ApproveFind?
    requires l.task in Step(cfg, s, l).frames && IsApprove(Step(cfg, s, l).frames[l.task])
    ensures l.task in s.frames && IsApprove(s.frames[l.task]) && IsDecisionAct(l.act)
  {
    hide Enabled, Step, IsApprove;
    if IsApproverAct(l.act) {
      ApproverGoesOn(cfg, s, l);
    } else {
      NoApproveOfAgent(cfg, s, l);
    }
  }

  lemma NoApproveOfAgent(cfg: Config, s: Sys, l: Label)
    requires Enabled(s, l) && IsAgentAct(l.act) && l.task in Step(cfg, s, l).frames
    ensures !IsApprove(Step(cfg, s, l).frames[l.task])
  {
    hide IsPactGrant, ParseScope, FormatScope, IsSnapshot, IsMostRecent, Finds, Usable, Sign, InScopes, CanTransition,
      CanUse, InsertDevice, DeleteDevicesExpiredBefore, MarkPolled, TransitionDevice, RevokeGrantById,
      InsertRefreshToken, UseRefreshToken, StepApproveFind, StepClaim, StepFindExisting, StepWiden, StepInsertGrant,
      StepConverge, StepMerge, StepRevokeExtra, StepBind, StepDenyFind, StepDeny;
  }

  lemma ApproverGoesOn(cfg: Config, s: Sys, l: Label)
    requires Enabled(s, l) && IsApproverAct(l.act) && !l.act.ApproveFind?
    requires l.task in Step(cfg, s, l).frames && IsApprove(Step(cfg, s, l).frames[l.task])
    ensures l.task in s.frames && IsApprove(s.frames[l.task]) && IsDecisionAct(l.act)
  {
    hide IsPactGrant, ParseScope, FormatScope, IsSnapshot, IsMostRecent, Finds, Keep, AllScopes, Dedup, CanTransition,
      LatestExpiry, Unrevoked, TransitionDevice, SetDeviceGrant, InsertGrant, UpdateGrant, RevokeGrantById,
      StepRequestDevice, StepInsertCode, StepExchangeFind, StepPoll, StepReadGrant, StepConsume, StepIssueFirst,
      StepRefreshFind, StepCheckRefresh, StepSpend, StepRevokeReused, StepIssueNext, StepVerify;
  }

  lemma ApproveStillTold(
      cfg: Config, s: Sys, l: Label, rows: Rows, found: Option<string>, accountId: string, ticked: set<string>,
        now: int)
    requires Enabled(s, l) && IsDecisionAct(l.act) && l.task in s.frames
    requires ApproveTold(rows, found, accountId, ticked, now, s.frames[l.task])
    ensures l.task in Step(cfg, s, l).frames
    ensures ApproveTold(rows, found, accountId, ticked, now, Step(cfg, s, l).frames[l.task])
  {
    hide ParseScope, FormatScope, IsPactGrant, IsSnapshot, Finds, Dedup, AllScopes, LatestExpiry, CanTransition,
      Unrevoked, TransitionDevice, SetDeviceGrant, InsertGrant, UpdateGrant, RevokeGrantById, Decidable, MayGrant,
      LiveIds, IsMostRecent;
    if l.act.FindExisting? && l.act.choice.Some? {
      ChosenIsStored(s.rows, s.frames[l.task].who, s.frames[l.task].now, l.act.choice);
      var f' := Step(cfg, s, l).frames[l.task];
      MergedScope(s.rows.grants[l.act.choice.value].scope, s.frames[l.task].granted);
      assert forall x :: x in f'.granted ==> x in Elements(f'.granted);
      assert forall x :: x in Elements(ParseScope(f'.scope)) ==> x in ParseScope(f'.scope);
    }
  }

  lemma ChosenIsStored(rows: Rows, who: Party, now: int, choice: Option<string>)
    requires IsMostRecent(rows, who, now, choice)
    ensures choice.Some? ==> choice.value in rows.grants
  {
    hide IsPactGrant;
  }

  /** Over every history, an approval began with a look-up whose rows and clock tell how it stands. */
  lemma {:induction false} ApprovalAnswers(cfg: Config, ss: seq<Sys>, run: seq<Label>, n: nat, t: nat) returns (i: nat)
    requires IsHistory(cfg, ss, run) && n <= |run| && t in ss[n].frames && IsApprove(ss[n].frames[t])
    ensures i < n && run[i].task == t && run[i].act.ApproveFind?
    ensures Finds(ss[i].rows, run[i].act.input, run[i].act.found)
    ensures
      ApproveTold(
        ss[i].rows, run[i].act.found, run[i].act.accountId, run[i].act.ticked, run[i].act.now, ss[n].frames[t])
  {
    hide Inv, Step, ApproveTold, IsApprove, IsEnvironment, Finds, IsSnapshot, IsMostRecent, IsDecisionAct;
    HistoryInv(cfg, ss, run, n);
    var k := LeftBy(cfg, ss, run, n, t);
    MovesOwn(run[k], t);
    if run[k].act.ApproveFind? {
      ApproveFindTells(cfg, ss[k], run[k]);
      i := k;
    } else {
      ApproveGoesOn(cfg, ss[k], run[k]);
      i := ApprovalAnswers(cfg, ss, run, k, t);
      ApproveStillTold(cfg, ss[k], run[k], ss[i].rows, run[i].act.found, run[i].act.accountId, run[i].act.ticked,
                       run[i].act.now);
    }
  }

  // What an approval writes

  /** One step, seen from one of this service's grants. */
  ghost predicate GrantStep(cfg: Config, s: Sys, l: Label, grants': map<string, Grant>, id: string)
    requires id in grants'
  {
    || (id in s.rows.grants && grants'[id].expiresAt == s.rows.grants[id].expiresAt
        && grants'[id].createdAt == s.rows.grants[id].createdAt && grants'[id].accountId == s.rows.grants[id].accountId)
    || (l.act == InsertNewGrant(id) && id !in s.rows.grants && l.task in s.frames && s.frames[l.task].InsertingGrant?
        && var f := s.frames[l.task];
           grants'[id] == Grant(f.who.accountId, f.who.clientId, f.who.agentSub, FormatScope(f.granted),
                                f.now + cfg.grantTtl * 1000, None, f.now, f.now))
    || (id in s.rows.grants && grants'[id].createdAt == s.rows.grants[id].createdAt
        && grants'[id].accountId == s.rows.grants[id].accountId && l.task in s.frames
        && ((l.act.Widen? && s.frames[l.task].Widening? && s.frames[l.task].grantId == id
             && grants'[id].expiresAt == s.frames[l.task].now + cfg.grantTtl * 1000)
            || (l.act.Merge? && s.frames[l.task].Merging? && s.frames[l.task].survivor == id
                && grants'[id].expiresAt == s.frames[l.task].expiresAt)))
  }

  lemma OnGrant(cfg: Config, s: Sys, l: Label, id: string)
    requires Enabled(s, l) && IsPactGrant(id) && id in Step(cfg, s, l).rows.grants
    ensures GrantStep(cfg, s, l, Step(cfg, s, l).rows.grants, id)
  {
    hide Enabled, Step, IsPactGrant, GrantStep, DelegationConvergence.TouchesGrants;
    if !DelegationConvergence.TouchesGrants(l.act) {
      DelegationConvergence.GrantsUntouched(cfg, s, l);
      SameGrant(cfg, s, l, id);
    } else if IsEnvironment(l.act) {
      EnvironmentOnGrant(cfg, s, l, id);
    } else {
      CallOnGrant(cfg, s, l, id);
    }
  }

  lemma SameGrant(cfg: Config, s: Sys, l: Label, id: string)
    requires id in s.rows.grants
    ensures GrantStep(cfg, s, l, s.rows.grants, id)
  {
  }

  lemma EnvironmentOnGrant(cfg: Config, s: Sys, l: Label, id: string)
    requires Enabled(s, l) && IsEnvironment(l.act) && IsPactGrant(id) && id in Step(cfg, s, l).rows.grants
    ensures GrantStep(cfg, s, l, Step(cfg, s, l).rows.grants, id)
  {
    hide IsPactGrant, IsSnapshot, IsMostRecent, Finds, StepRequestDevice, StepInsertCode, StepExchangeFind, StepPoll,
      StepReadGrant, StepConsume, StepIssueFirst, StepRefreshFind, StepCheckRefresh, StepSpend, StepRevokeReused,
      StepIssueNext, StepVerify, StepApproveFind, StepClaim, StepFindExisting, StepWiden, StepInsertGrant,
      StepConverge, StepMerge, StepRevokeExtra, StepBind, StepDenyFind, StepDeny;
  }

  lemma CallOnGrant(cfg: Config, s: Sys, l: Label, id: string)
    requires Enabled(s, l) && !IsEnvironment(l.act) && DelegationConvergence.TouchesGrants(l.act)
    requires id in Step(cfg, s, l).rows.grants
    ensures GrantStep(cfg, s, l, Step(cfg, s, l).rows.grants, id)
  {
    hide IsPactGrant, ParseScope, FormatScope, IsSnapshot, IsMostRecent, Finds, StepRequestDevice, StepInsertCode,
      StepExchangeFind, StepPoll, StepReadGrant, StepConsume, StepIssueFirst, StepRefreshFind, StepCheckRefresh,
      StepSpend, StepIssueNext, StepVerify, StepApproveFind, StepClaim, StepFindExisting, StepConverge, StepBind,
      StepDenyFind, StepDeny;
  }

  /** Some approval by the account read this clock. */
  ghost predicate IsClock(run: seq<Label>, n: nat, accountId: string, at: int)
    requires n <= |run|
  {
    exists i :: 0 <= i < n && run[i].act.ApproveFind? && run[i].act.accountId == accountId && run[i].act.now == at
  }

  lemma ClockOf(cfg: Config, ss: seq<Sys>, run: seq<Label>, n: nat, t: nat)
    requires IsHistory(cfg, ss, run) && n <= |run| && t in ss[n].frames && IsApproval(ss[n].frames[t])
    requires !ss[n].frames[t].Binding?
    ensures IsClock(run, n, ss[n].frames[t].who.accountId, ss[n].frames[t].now)
  {
    hide Inv, Enabled, Step, Finds, Decidable, MayGrant, IsHistory;
    var i := ApprovalAnswers(cfg, ss, run, n, t);
  }

  /** The expiry a merge writes is that of a grant of the same account the election read. */
  lemma MergedExpiry(cfg: Config, ss: seq<Sys>, run: seq<Label>, n: nat, t: nat) returns (k: nat, id: string)
    requires IsHistory(cfg, ss, run) && n <= |run| && t in ss[n].frames && ss[n].frames[t].Merging?
    ensures k < n && id in ss[k].rows.grants && IsPactGrant(id)
    ensures ss[k].rows.grants[id].accountId == ss[n].frames[t].who.accountId
    ensures ss[k].rows.grants[id].expiresAt == ss[n].frames[t].expiresAt
  {
    hide Inv, Enabled, Step, IsPactGrant, IsEnvironment;
    HistoryInv(cfg, ss, run, n);
    k := LeftBy(cfg, ss, run, n, t);
    MovesOwn(run[k], t);
    id := ElectionReads(cfg, ss[k], run[k]);
  }

  lemma ElectionReads(cfg: Config, s: Sys, l: Label) returns (id: string)
    requires Enabled(s, l) && !IsEnvironment(l.act) && l.task in Step(cfg, s, l).frames
    requires Step(cfg, s, l).frames[l.task].Merging?
    ensures id in s.rows.grants && IsPactGrant(id)
    ensures s.rows.grants[id].accountId == Step(cfg, s, l).frames[l.task].who.accountId
    ensures s.rows.grants[id].expiresAt == Step(cfg, s, l).frames[l.task].expiresAt
  {
    hide Enabled, Step, IsPactGrant, LatestExpiry;
    MergingIsElected(cfg, s, l);
    SnapshotIsOfParty(s.rows, s.frames[l.task].who, s.frames[l.task].now, l.act.live);
    id :| id in l.act.live && s.rows.grants[id].expiresAt == LatestExpiry(s.rows, l.act.live);
    OfParty(s.rows, id, s.frames[l.task].who);
  }

  lemma OfParty(rows: Rows, id: string, who: Party)
    requires IsGrantOf(rows.grants, id, who)
    ensures IsPactGrant(id) && id in rows.grants && rows.grants[id].accountId == who.accountId
  {
  }

  lemma MergingIsElected(cfg: Config, s: Sys, l: Label)
    requires Enabled(s, l) && !IsEnvironment(l.act) && l.task in Step(cfg, s, l).frames
    requires Step(cfg, s, l).frames[l.task].Merging?
    ensures l.act.Converge? && l.task in s.frames && s.frames[l.task].Converging? && l.act.live != []
    ensures IsSnapshot(s.rows, s.frames[l.task].who, s.frames[l.task].now, l.act.live)
    ensures forall id :: id in l.act.live ==> id in s.rows.grants
    ensures Step(cfg, s, l).frames[l.task].who == s.frames[l.task].who
    ensures Step(cfg, s, l).frames[l.task].expiresAt == LatestExpiry(s.rows, l.act.live)
  {
    hide Enabled, Step, IsSnapshot, LatestExpiry;
    if IsApproverAct(l.act) { ElectedByConverge(cfg, s, l); } else { NoApproveOfAgent(cfg, s, l); }
  }

  lemma ElectedByConverge(cfg: Config, s: Sys, l: Label)
    requires Enabled(s, l) && IsApproverAct(l.act) && l.task in Step(cfg, s, l).frames
    requires Step(cfg, s, l).frames[l.task].Merging?
    ensures l.act.Converge? && l.task in s.frames && s.frames[l.task].Converging? && l.act.live != []
    ensures IsSnapshot(s.rows, s.frames[l.task].who, s.frames[l.task].now, l.act.live)
    ensures forall id :: id in l.act.live ==> id in s.rows.grants
    ensures Step(cfg, s, l).frames[l.task].who == s.frames[l.task].who
    ensures Step(cfg, s, l).frames[l.task].expiresAt == LatestExpiry(s.rows, l.act.live)
  {
    hide IsPactGrant, ParseScope, FormatScope, IsSnapshot, IsMostRecent, Finds, Keep, AllScopes, Dedup, CanTransition,
      LatestExpiry, Unrevoked, TransitionDevice, SetDeviceGrant, InsertGrant, UpdateGrant, RevokeGrantById,
      StepRequestDevice, StepInsertCode, StepExchangeFind, StepPoll, StepReadGrant, StepConsume, StepIssueFirst,
      StepRefreshFind, StepCheckRefresh, StepSpend, StepRevokeReused, StepIssueNext, StepVerify;
    if l.act.Converge? { SnapshotIsOfParty(s.rows, s.frames[l.task].who, s.frames[l.task].now, l.act.live); }
  }

  /**
   * Over every history: each grant of this service was created at the clock of an approval by its account, and expires
   * the configured time after the clock of an approval by its account.
   */
  lemma {:induction false} GrantClocks(cfg: Config, ss: seq<Sys>, run: seq<Label>, n: nat, id: string) returns (at: int)
    requires IsHistory(cfg, ss, run) && n <= |run| && id in ss[n].rows.grants && IsPactGrant(id)
    ensures IsClock(run, n, ss[n].rows.grants[id].accountId, ss[n].rows.grants[id].createdAt)
    ensures IsClock(run, n, ss[n].rows.grants[id].accountId, at)
    ensures ss[n].rows.grants[id].expiresAt == at + cfg.grantTtl * 1000
    decreases n
  {
    hide Inv, Enabled, Step, IsPactGrant, IsClock;
    var s, l := ss[n - 1], run[n - 1];
    assert Enabled(s, l) && ss[n - 1 + 1] == Step(cfg, s, l);
    OnGrant(cfg, s, l, id);
    HistoryInv(cfg, ss, run, n - 1);
    if id in s.rows.grants {
      at := GrantClocks(cfg, ss, run, n - 1, id);
      LaterClocks(run, n - 1, n);
      if ss[n].rows.grants[id].expiresAt != s.rows.grants[id].expiresAt {
        FrameFact(cfg, s, l.task);
        WrittenParty(s, l.task);
        if l.act.Widen? {
          ClockOf(cfg, ss, run, n - 1, l.task);
          at := s.frames[l.task].now;
        } else {
          var k, other := MergedExpiry(cfg, ss, run, n - 1, l.task);
          at := GrantClocks(cfg, ss, run, k, other);
          LaterClocks(run, k, n);
        }
      }
    } else {
      ClockOf(cfg, ss, run, n - 1, l.task);
      LaterClocks(run, n - 1, n);
      at := s.frames[l.task].now;
    }
  }

  lemma WrittenParty(s: Sys, t: nat)
    requires t in s.frames && FrameOK(s, t, s.frames[t])
    ensures s.frames[t].Widening? ==>
      s.frames[t].grantId in s.rows.grants && s.rows.grants[s.frames[t].grantId].accountId == s.frames[t].who.accountId
    ensures s.frames[t].Merging? ==>
      s.frames[t].survivor in s.rows.grants
        && s.rows.grants[s.frames[t].survivor].accountId == s.frames[t].who.accountId
  {
    hide ParseScope, AllTicked, IsPactGrant, IsScopeList;
  }

  lemma LaterClocks(run: seq<Label>, m: nat, n: nat)
    requires m <= n <= |run|
    ensures forall account, at :: IsClock(run, m, account, at) ==> IsClock(run, n, account, at)
  {
  }

  /**
   * Over every history, the grant an approval inserts is for the approving account, the agent and agent user that asked
   * for the code and exactly the scopes requested and ticked, from the clock of the call for the configured time.
   */
  lemma InsertionExplained(cfg: Config, ss: seq<Sys>, run: seq<Label>, n: nat) returns (i: nat)
    requires IsHistory(cfg, ss, run) && n < |run| && run[n].act.InsertNewGrant?
    ensures i < n && run[i].task == run[n].task && run[i].act.ApproveFind?
    ensures run[n].act.grantId in ss[n + 1].rows.grants
    ensures
      var g, now, found := ss[n + 1].rows.grants[run[n].act.grantId], run[i].act.now, run[i].act.found;
      && Decidable(ss[i].rows, found, run[i].act.ticked, now)
      && PartyOf(g) == Party(run[i].act.accountId, ss[i].rows.devices[found.value].clientId,
                             ss[i].rows.devices[found.value].agentSub)
      && (forall x :: x in ParseScope(g.scope) <==> MayGrant(ss[i].rows, found.value, run[i].act.ticked, x))
      && g.expiresAt == now + cfg.grantTtl * 1000 && g.revokedAt.None? && g.createdAt == g.updatedAt == now
  {
    hide Inv, Enabled, Step, Finds, Decidable, MayGrant, IsHistory, ParseScope, FormatScope, IsPactGrant;
    assert Enabled(ss[n], run[n]) && ss[n + 1] == Step(cfg, ss[n], run[n]) by { HistoryStep(cfg, ss, run, n); }
    InsertingStep(cfg, ss[n], run[n]);
    i := ApprovalAnswers(cfg, ss, run, n, run[n].task);
    ParseFormat(ss[n].frames[run[n].task].granted);
  }

  lemma HistoryStep(cfg: Config, ss: seq<Sys>, run: seq<Label>, n: nat)
    requires IsHistory(cfg, ss, run) && n < |run|
    ensures |ss| == |run| + 1 && Enabled(ss[n], run[n]) && ss[n + 1] == Step(cfg, ss[n], run[n])
  {
    hide Enabled, Step;
  }

  lemma InsertingStep(cfg: Config, s: Sys, l: Label)
    requires Enabled(s, l) && l.act.InsertNewGrant?
    ensures l.task in s.frames && s.frames[l.task].InsertingGrant? && l.act.grantId in Step(cfg, s, l).rows.grants
    ensures
      var f := s.frames[l.task];
      Step(cfg, s, l).rows.grants[l.act.grantId] ==
        Grant(f.who.accountId, f.who.clientId, f.who.agentSub, FormatScope(f.granted), f.now + cfg.grantTtl * 1000,
          None,
              f.now, f.now)
  {
    hide FormatScope, IsPactGrant, IsSnapshot, IsMostRecent, Finds;
  }

  /**
   * Over every history, a widening of a grant that is not revoked adds exactly what was requested and ticked to what it
   * wrote over, or more, makes it last the configured time from the clock of the call, and changes nothing else of it.
   */
  lemma WideningExplained(cfg: Config, ss: seq<Sys>, run: seq<Label>, n: nat) returns (i: nat)
    requires IsHistory(cfg, ss, run) && n < |run| && run[n].act.Widen?
    ensures run[n].task in ss[n].frames && ss[n].frames[run[n].task].Widening?
    ensures i < n && run[i].task == run[n].task && run[i].act.ApproveFind?
    ensures
      var id, now, found := ss[n].frames[run[n].task].grantId, run[i].act.now, run[i].act.found;
      Unrevoked(ss[n].rows, id) ==>
        && Decidable(ss[i].rows, found, run[i].act.ticked, now) && id in ss[n + 1].rows.grants
        && var g, g' := ss[n].rows.grants[id], ss[n + 1].rows.grants[id];
        && (forall x :: MayGrant(ss[i].rows, found.value, run[i].act.ticked, x) ==> x in ParseScope(g'.scope))
        && g' == g.(scope := g'.scope, expiresAt := now + cfg.grantTtl * 1000, updatedAt := now)
  {
    hide Inv, Enabled, Step, Finds, Decidable, MayGrant, IsHistory, ParseScope, FormatScope, IsPactGrant;
    assert Enabled(ss[n], run[n]) && ss[n + 1] == Step(cfg, ss[n], run[n]) by { HistoryStep(cfg, ss, run, n); }
    WideningStep(cfg, ss[n], run[n]);
    i := ApprovalAnswers(cfg, ss, run, n, run[n].task);
  }

  lemma WideningStep(cfg: Config, s: Sys, l: Label)
    requires Enabled(s, l) && l.act.Widen?
    ensures l.task in s.frames && s.frames[l.task].Widening?
    ensures
      var f := s.frames[l.task];
      Unrevoked(s.rows, f.grantId) ==>
        && f.grantId in Step(cfg, s, l).rows.grants
        && Step(cfg, s, l).rows.grants[f.grantId] ==
             s.rows.grants[f.grantId].(scope := f.scope, expiresAt := f.now + cfg.grantTtl * 1000, updatedAt := f.now)
  {
    hide ParseScope, IsPactGrant, IsSnapshot, IsMostRecent, Finds;
  }

  // Denial

  /** A denial is answered yes exactly when the code was still pending; it is then denied, by this account. */
  lemma DeniesExactly(cfg: Config, s: Sys, l: Label)
    requires Enabled(s, l) && l.act.DenyCode?
    ensures l.task in s.frames && s.frames[l.task].Denying? && l.task in Step(cfg, s, l).frames
    ensures
      var f, s' := s.frames[l.task], Step(cfg, s, l);
      var pending := f.code in s.rows.devices && s.rows.devices[f.code].status == Pending;
      && s'.frames[l.task] == Done(DenyCall, Denial(pending))
      && (if pending then
            s'.rows == s.rows.(devices :=
              s.rows.devices[f.code := s.rows.devices[f.code].(status := Denied, accountId := Some(f.accountId))])
          else s'.rows == s.rows)
  {
    hide IsPactGrant, IsSnapshot, IsMostRecent, Finds;
  }

  /** The look-up of a denial: the pending row with that code, else the answer is no at once. */
  lemma DenyFindsExactly(cfg: Config, s: Sys, l: Label)
    requires Enabled(s, l) && l.act.DenyFind?
    ensures l.task in Step(cfg, s, l).frames && Step(cfg, s, l).rows == s.rows
    ensures Finds(s.rows, l.act.input, l.act.found)
    ensures Step(cfg, s, l).frames[l.task] ==
      if l.act.found.Some? && l.act.found.value in s.rows.devices
         && s.rows.devices[l.act.found.value].status == Pending
      then Denying(l.act.found.value, l.act.accountId) else Done(DenyCall, Denial(false))
  {
    hide IsPactGrant, IsSnapshot, IsMostRecent, NormalizeUserCode;
  }

  ghost predicate DeniedIn(s: Sys, code: string) {
    && code in s.log.requests && code !in s.log.claims
    && (code in s.rows.devices ==> s.rows.devices[code].status == Denied) && Settled(s, code)
  }

  lemma DeniedStays(cfg: Config, s: Sys, l: Label, code: string)
    requires Inv(cfg, s) && Enabled(s, l) && DeniedIn(s, code)
    ensures DeniedIn(Step(cfg, s, l), code)
  {
    hide Inv, Enabled, Step, Settled, LogGrows, GrantsKept, TokensKept, FramesElsewhere;
    SettledStays(cfg, s, l, code);
    DeviceMoves(cfg, s, l);
    SettledRequest(Step(cfg, s, l), code);
    if code in Step(cfg, s, l).log.claims { ClaimsPending(cfg, s, l, code); }
  }

  lemma SettledRequest(s: Sys, code: string)
    requires Settled(s, code)
    ensures code in s.log.requests
  {
  }

  lemma ClaimsPending(cfg: Config, s: Sys, l: Label, code: string)
    requires Enabled(s, l) && code in Step(cfg, s, l).log.claims && code !in s.log.claims
    ensures code in s.rows.devices && s.rows.devices[code].status == Pending
  {
    hide Enabled, Step;
    if IsEnvironment(l.act) {
      EnvironmentOnlyRows(cfg, s, l);
    } else if IsApproverAct(l.act) {
      ApproverClaims(cfg, s, l, code);
    } else {
      AgentClaimsNothing(cfg, s, l);
    }
  }

  lemma ApproverClaims(cfg: Config, s: Sys, l: Label, code: string)
    requires Enabled(s, l) && IsApproverAct(l.act) && code in Step(cfg, s, l).log.claims && code !in s.log.claims
    ensures code in s.rows.devices && s.rows.devices[code].status == Pending
  {
    hide IsPactGrant, ParseScope, FormatScope, IsSnapshot, IsMostRecent, Finds, Keep, AllScopes, Dedup,
      LatestExpiry, Unrevoked, TransitionDevice, SetDeviceGrant, InsertGrant, UpdateGrant, RevokeGrantById,
      StepRequestDevice, StepInsertCode, StepExchangeFind, StepPoll, StepReadGrant, StepConsume, StepIssueFirst,
      StepRefreshFind, StepCheckRefresh, StepSpend, StepRevokeReused, StepIssueNext, StepVerify;
  }

  lemma AgentClaimsNothing(cfg: Config, s: Sys, l: Label)
    requires Enabled(s, l) && IsAgentAct(l.act)
    ensures SubMap(Step(cfg, s, l).log.claims, s.log.claims)
  {
    hide Enabled, Step;
    if IsCodeAct(l.act) { CodeActClaimsNothing(cfg, s, l); } else { RefreshClaimsNothing(cfg, s, l); }
  }

  lemma CodeActClaimsNothing(cfg: Config, s: Sys, l: Label)
    requires Enabled(s, l) && IsCodeAct(l.act)
    ensures SubMap(Step(cfg, s, l).log.claims, s.log.claims)
  {
    hide IsPactGrant, ParseScope, FormatScope, IsSnapshot, IsMostRecent, Finds, Usable, Sign, InScopes, CanTransition,
      InsertDevice, DeleteDevicesExpiredBefore, MarkPolled, TransitionDevice, InsertRefreshToken, StepRefreshFind,
      StepCheckRefresh, StepSpend, StepRevokeReused, StepIssueNext, StepApproveFind, StepClaim, StepFindExisting,
      StepWiden, StepInsertGrant, StepConverge, StepMerge, StepRevokeExtra, StepBind, StepDenyFind, StepDeny;
  }

  lemma RefreshClaimsNothing(cfg: Config, s: Sys, l: Label)
    requires Enabled(s, l) && IsRefreshAct(l.act)
    ensures SubMap(Step(cfg, s, l).log.claims, s.log.claims)
  {
    hide IsPactGrant, IsSnapshot, IsMostRecent, Finds, Usable, Sign, CanUse, RevokeGrantById, InsertRefreshToken,
      UseRefreshToken, StepRequestDevice, StepInsertCode, StepExchangeFind, StepPoll, StepReadGrant, StepConsume,
      StepIssueFirst, StepVerify, StepApproveFind, StepClaim, StepFindExisting, StepWiden, StepInsertGrant,
      StepConverge, StepMerge, StepRevokeExtra, StepBind, StepDenyFind, StepDeny;
  }

  lemma {:induction false} DeniedForGood(cfg: Config, ss: seq<Sys>, run: seq<Label>, i: nat, n: nat, code: string)
    requires IsTrace(cfg, ss, run) && Inv(cfg, ss[0]) && i <= n <= |run| && DeniedIn(ss[i], code)
    ensures Inv(cfg, ss[n]) && DeniedIn(ss[n], code)
    decreases n
  {
    hide Inv, Enabled, Step, DeniedIn;
    TraceInv(cfg, ss, run, n);
    if i < n {
      DeniedForGood(cfg, ss, run, i, n - 1, code);
      assert Enabled(ss[n - 1], run[n - 1]) && ss[n - 1 + 1] == Step(cfg, ss[n - 1], run[n - 1]);
      DeniedStays(cfg, ss[n - 1], run[n - 1], code);
    }
  }

  /** Once a denial is answered yes, in every continuation the code stays denied or goes, and never yields tokens. */
  lemma DenialIsFinal(cfg: Config, ss: seq<Sys>, run: seq<Label>, i: nat, n: nat, t: nat)
    requires IsTrace(cfg, ss, run) && Inv(cfg, ss[0]) && i < n <= |run| && run[i].act.DenyCode?
    requires run[i].task in ss[i].frames && ss[i].frames[run[i].task].Denying?
    requires run[i].task in ss[i + 1].frames && ss[i + 1].frames[run[i].task] == Done(DenyCall, Denial(true))
    ensures
      var code := ss[i].frames[run[i].task].code;
      && (code in ss[n].rows.devices ==> ss[n].rows.devices[code].status == Denied)
      && (t in ss[n].frames && HasTokens(ss[n].frames[t]) && ss[n].frames[t].call.ExchangeCall? ==>
            ss[n].frames[t].call.code != code)
  {
    hide Inv, Enabled, Step, Settled;
    var code := ss[i].frames[run[i].task].code;
    assert Enabled(ss[i], run[i]) && ss[i + 1] == Step(cfg, ss[i], run[i]);
    TraceInv(cfg, ss, run, i + 1);
    DeniesExactly(cfg, ss[i], run[i]);
    DeniedRow(cfg, ss[i + 1], code);
    DeniedForGood(cfg, ss, run, i + 1, n, code);
    if t in ss[n].frames && HasTokens(ss[n].frames[t]) && ss[n].frames[t].call.ExchangeCall? {
      TokensAreClaimed(cfg, ss[n], t);
    }
  }

  lemma DeniedRow(cfg: Config, s: Sys, code: string)
    requires Inv(cfg, s) && code in s.rows.devices && s.rows.devices[code].status == Denied
    ensures DeniedIn(s, code)
  {
    hide Inv, Settled, ParseScope;
    DeviceFact(cfg, s, code);
    StoredIsSettled(cfg, s, code);
  }

  lemma TokensAreClaimed(cfg: Config, s: Sys, t: nat)
    requires Inv(cfg, s) && t in s.frames && HasTokens(s.frames[t]) && s.frames[t].call.ExchangeCall?
    ensures s.frames[t].call.code in s.log.claims
  {
    hide Inv, AllTicked;
    FrameFact(cfg, s, t);
    BoundFact(cfg, s, s.frames[t].call.code);
  }

  // Consoles

  /** Which grants a console's statement revokes, and that it changes nothing else. */
  lemma ConsolesRevokeExactly(cfg: Config, s: Sys, l: Label)
    requires Enabled(s, l) && (l.act.AccountRevoke? || l.act.AccountRevokeAll? || l.act.AdminRevoke?)
    ensures
      var grants' := Step(cfg, s, l).rows.grants;
      && Step(cfg, s, l).rows.(grants := s.rows.grants) == s.rows && grants'.Keys == s.rows.grants.Keys
      && forall id :: id in s.rows.grants ==>
           var g := s.rows.grants[id];
           var named :=
             match l.act
             case AccountRevoke(account, grantId, _) => id == grantId && IsPactGrant(id) && g.accountId == account
             case AccountRevokeAll(account, _) => g.accountId == account
             case AdminRevoke(grantId, _) => id == grantId
             case _ => false;
           grants'[id] ==
             if named && g.revokedAt.None? then g.(revokedAt := Some(l.act.now), updatedAt := l.act.now) else g
  {
    hide IsPactGrant, IsSnapshot, IsMostRecent, Finds, StepRequestDevice, StepInsertCode, StepExchangeFind, StepPoll,
      StepReadGrant, StepConsume, StepIssueFirst, StepRefreshFind, StepCheckRefresh, StepSpend, StepRevokeReused,
      StepIssueNext, StepVerify, StepApproveFind, StepClaim, StepFindExisting, StepWiden, StepInsertGrant,
      StepConverge, StepMerge, StepRevokeExtra, StepBind, StepDenyFind, StepDeny;
  }

  // Which grants an approval and this service touch

  /** A grant of this service that is live for the party. */
  predicate LiveGrant(rows: Rows, id: string, who: Party, now: int) {
    && id in rows.grants && IsPactGrant(id) && PartyOf(rows.grants[id]) == who
    && rows.grants[id].revokedAt.None? && now < rows.grants[id].expiresAt
  }

  /**
   * An approval widens if and only if the party has a live grant; it is then one that no other live grant was updated
   * after, and the text to be written is what it stores and what is granted together.
   */
  lemma WidensLastUpdated(cfg: Config, s: Sys, l: Label)
    requires Inv(cfg, s) && Enabled(s, l) && l.act.FindExisting?
    ensures l.task in s.frames && s.frames[l.task].FindingExisting? && l.task in Step(cfg, s, l).frames
    ensures
      var f, f' := s.frames[l.task], Step(cfg, s, l).frames[l.task];
      && (f'.Widening? <==> exists id :: LiveGrant(s.rows, id, f.who, f.now))
      && (f'.InsertingGrant? <==> !f'.Widening?)
      && (f'.Widening? ==>
            && LiveGrant(s.rows, f'.grantId, f.who, f.now)
            && (forall id :: LiveGrant(s.rows, id, f.who, f.now) ==>
                  s.rows.grants[id].updatedAt <= s.rows.grants[f'.grantId].updatedAt)
            && Elements(ParseScope(f'.scope)) ==
                 Elements(ParseScope(s.rows.grants[f'.grantId].scope)) + Elements(f.granted))
  {
    hide Inv, ParseScope, FormatScope, Dedup, IsPactGrant, Finds, IsSnapshot, AllTicked, IsScopeList;
    var f := s.frames[l.task];
    assert forall id :: LiveGrant(s.rows, id, f.who, f.now) <==> id in LiveIds(s.rows, f.who, f.now);
    FrameFact(cfg, s, l.task);
    ClaimFact(cfg, s, f.code);
    if l.act.choice.Some? { MergedScope(s.rows.grants[l.act.choice.value].scope, f.granted); }
  }

  /** The same grant, or none, in both tables. */
  predicate SameRow(grants: map<string, Grant>, grants': map<string, Grant>, id: string) {
    (id in grants <==> id in grants') && (id in grants ==> grants'[id] == grants[id])
  }

  /** Grants of the other protocol, told by their ids, change by its own writes and the consoles that name them only. */
  lemma PoppyLeftAlone(cfg: Config, s: Sys, l: Label, id: string)
    requires Inv(cfg, s) && Enabled(s, l) && "pgrant_" <= id
    requires !l.act.PoppyGrant? && !l.act.AccountRevokeAll? && !(l.act.AdminRevoke? && l.act.grantId == id)
    ensures SameRow(s.rows.grants, Step(cfg, s, l).rows.grants, id)
  {
    hide Inv, Enabled, Step, SameRow;
    assert !IsPactGrant(id);
    hide IsPactGrant;
    if !DelegationConvergence.TouchesGrants(l.act) {
      DelegationConvergence.GrantsUntouched(cfg, s, l);
      SameRows(s.rows.grants, id);
    } else if l.act.AccountRevoke? || l.act.AdminRevoke? {
      ConsoleSparesPoppy(cfg, s, l, id);
    } else {
      FrameOfWriter(s, l);
      FrameFact(cfg, s, l.task);
      CallSparesPoppy(cfg, s, l, id);
    }
  }

  lemma SameRows(grants: map<string, Grant>, id: string)
    ensures SameRow(grants, grants, id)
  {
  }

  lemma FrameOfWriter(s: Sys, l: Label)
    requires Enabled(s, l) && DelegationConvergence.TouchesGrants(l.act) && !IsEnvironment(l.act)
    ensures l.task in s.frames
  {
    hide IsPactGrant, IsSnapshot, IsMostRecent, Finds;
  }

  lemma ConsoleSparesPoppy(cfg: Config, s: Sys, l: Label, id: string)
    requires Enabled(s, l) && !IsPactGrant(id) && (l.act.AccountRevoke? || l.act.AdminRevoke?)
    requires l.act.AdminRevoke? ==> l.act.grantId != id
    ensures SameRow(s.rows.grants, Step(cfg, s, l).rows.grants, id)
  {
    hide IsPactGrant;
    ConsolesRevokeExactly(cfg, s, l);
  }

  lemma CallSparesPoppy(cfg: Config, s: Sys, l: Label, id: string)
    requires Enabled(s, l) && !IsPactGrant(id) && l.task in s.frames && FrameOK(s, l.task, s.frames[l.task])
    requires l.act.Widen? || l.act.InsertNewGrant? || l.act.Merge? || l.act.RevokeExtra? || l.act.RevokeReused?
    ensures SameRow(s.rows.grants, Step(cfg, s, l).rows.grants, id)
  {
    hide IsPactGrant, ParseScope, FormatScope, IsSnapshot, IsMostRecent, Finds, AllTicked, IsScopeList,
      StepRequestDevice, StepInsertCode, StepExchangeFind, StepPoll, StepReadGrant, StepConsume, StepIssueFirst,
      StepRefreshFind, StepCheckRefresh, StepSpend, StepIssueNext, StepVerify, StepApproveFind, StepClaim,
      StepFindExisting, StepConverge, StepBind, StepDenyFind, StepDeny;
    if l.act.RevokeExtra? { assert s.frames[l.task].extras[0] in s.frames[l.task].extras; }
  }
}
