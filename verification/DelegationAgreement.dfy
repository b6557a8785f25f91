/**
 * What converging approvals agree on. Start: some approvals of a party have inserted their grants and none of
 * those in flight has read the live set yet. Then, in every interleaving of what is left, they all return the
 * same grant, and it ends with the union of the scopes and the latest expiry of the grants live at the start.
 * The survivor is updated before the extras are revoked, so that union never shrinks on the way.
 */
module DelegationAgreement {
  import opened Wrappers
  import opened Scopes
  import opened DelegationRows
  import opened DelegationMachine
  import opened DelegationInvariant
  import opened DelegationPreservation
  import opened DelegationConvergence

  ghost function ScopesOf(rows: Rows, ids: set<string>): set<string> {
    set id, x | id in ids && id in rows.grants && x in ParseScope(rows.grants[id].scope) :: x
  }

  ghost predicate IsLatest(rows: Rows, ids: set<string>, e: int) {
    && (exists id :: id in ids && id in rows.grants && rows.grants[id].expiresAt == e)
    && (forall id :: id in ids && id in rows.grants ==> rows.grants[id].expiresAt <= e)
  }

  /** What is agreed on: the survivor, its scopes, its expiry. */
  datatype Deal = Deal(survivor: string, scopes: set<string>, expiresAt: int)

  ghost predicate Merged(rows: Rows, d: Deal) {
    && d.survivor in rows.grants
    && Elements(ParseScope(rows.grants[d.survivor].scope)) == d.scopes
    && rows.grants[d.survivor].expiresAt == d.expiresAt
  }

  /** A call in flight, or finished, that keeps to the deal. */
  ghost predicate KeepsTo(rows: Rows, f: Frame, who: Party, d: Deal) {
    Approving(f, who) ==>
      || f.Converging?
      || (f.Merging? && f.survivor == d.survivor && Elements(ParseScope(f.scope)) == d.scopes
        && f.expiresAt == d.expiresAt)
      || (f.RevokingExtras? && f.survivor == d.survivor && Elements(f.scopes) == d.scopes && Merged(rows, d))
      || (f.Binding? && f.grantId == d.survivor && Elements(f.scopes) == d.scopes)
  }

  predicate ReturnsDeal(f: Frame, d: Deal) {
    f.Done? && f.outcome.Granted? && f.outcome.grantId == d.survivor && (set x | x in f.outcome.scopes) == d.scopes
  }

  ghost predicate LiveSum(rows: Rows, live: set<string>, d: Deal) {
    ScopesOf(rows, live) == d.scopes && IsLatest(rows, live, d.expiresAt)
  }

  ghost predicate Agreeing(s: Sys, who: Party, hi: int, d: Deal, tasks: set<nat>) {
    && LiveSum(s.rows, LiveIds(s.rows, who, hi), d)
    && (forall t :: t in s.frames ==> KeepsTo(s.rows, s.frames[t], who, d))
    && (forall t :: t in tasks ==> t in s.frames && (Approving(s.frames[t], who) || ReturnsDeal(s.frames[t], d)))
  }

  /** No further approval of `who` claims a code. */
  predicate NoNewClaim(s: Sys, l: Label, who: Party) {
    l.act.ClaimCode? && l.task in s.frames && s.frames[l.task].Claiming? ==> s.frames[l.task].who != who
  }

  ghost predicate ClosingRun(cfg: Config, s: Sys, run: seq<Label>, who: Party)
    requires IsRun(cfg, s, run)
    decreases |run|
  {
    run == [] || (NoNewClaim(s, run[0], who) && ClosingRun(cfg, Step(cfg, s, run[0]), run[1..], who))
  }

  // Everybody else

  lemma NewFrameNotOfParty(cfg: Config, s: Sys, l: Label, who: Party)
    requires Enabled(s, l) && !ActsFor(s, l, who) && NoNewClaim(s, l, who)
    requires l.task in Step(cfg, s, l).frames
    ensures (l.task in s.frames && Step(cfg, s, l).frames[l.task] == s.frames[l.task])
      || !Approving(Step(cfg, s, l).frames[l.task], who)
    ensures l.task in s.frames && (Approving(s.frames[l.task], who) || s.frames[l.task].Done?) ==>
      Step(cfg, s, l).frames[l.task] == s.frames[l.task]
  {
    hide Enabled, Step, ActsFor, NoNewClaim, Approving;
    if IsEnvironment(l.act) {
      EnvironmentOnlyRows(cfg, s, l);
    } else {
      if l.task in s.frames { OverTakesNoStep(s, l); }
      if IsApproverAct(l.act) { NewApprovalOfOthers(cfg, s, l, who); } else { AgentFlight(cfg, s, l, who); }
    }
  }

  lemma NewApprovalOfOthers(cfg: Config, s: Sys, l: Label, who: Party)
    requires Enabled(s, l) && IsApproverAct(l.act) && !ActsFor(s, l, who) && NoNewClaim(s, l, who)
    requires l.task in Step(cfg, s, l).frames
    ensures !Approving(Step(cfg, s, l).frames[l.task], who)
    ensures l.task in s.frames ==> !Approving(s.frames[l.task], who)
  {
    hide IsPactGrant, ParseScope, FormatScope, IsSnapshot, IsMostRecent, Finds, Keep, AllScopes, Dedup, CanTransition,
      LatestExpiry, Unrevoked, StepRequestDevice, StepInsertCode, StepExchangeFind, StepPoll, StepReadGrant,
      StepConsume, StepIssueFirst, StepRefreshFind, StepCheckRefresh, StepSpend, StepRevokeReused, StepIssueNext,
      StepVerify;
  }

  lemma OthersKeepSum(rows: Rows, rows': Rows, who: Party, hi: int, d: Deal)
    requires SameGrants(rows, rows', who) && LiveSum(rows, LiveIds(rows, who, hi), d)
    requires IsGrantOf(rows.grants, d.survivor, who)
    ensures LiveSum(rows', LiveIds(rows', who, hi), d)
    ensures Merged(rows, d) ==> Merged(rows', d)
  {
    hide IsPactGrant, ParseScope;
    assert forall id :: IsLive(rows, who, hi, id) <==> IsLive(rows', who, hi, id);
    var live := LiveIds(rows, who, hi);
    assert LiveIds(rows', who, hi) == live;
    assert forall id :: id in live ==> id in rows'.grants && rows'.grants[id] == rows.grants[id];
    assert ScopesOf(rows', live) == ScopesOf(rows, live);
  }

  lemma OthersAgree(cfg: Config, s: Sys, l: Label, who: Party, lo: int, hi: int, d: Deal, tasks: set<nat>)
    requires Inv(cfg, s) && Enabled(s, l) && Steady(cfg, s, l, who, lo, hi)
    requires !ActsFor(s, l, who) && NoNewClaim(s, l, who)
    requires Agreeing(s, who, hi, d, tasks) && IsGrantOf(s.rows.grants, d.survivor, who)
    ensures Agreeing(Step(cfg, s, l), who, hi, d, tasks)
  {
    hide Inv, Enabled, Step, Steady, SameGrants, LogGrows, GrantsKept, TokensKept, NewIsOwn, LiveIds, LiveSum, Merged,
      ActsFor, NoNewClaim;
    var s' := Step(cfg, s, l);
    OthersLeaveGrants(cfg, s, l, who, lo, hi);
    OthersKeepSum(s.rows, s'.rows, who, hi, d);
    StepKeeps(cfg, s, l);
    forall t | t in s'.frames
      ensures KeepsTo(s'.rows, s'.frames[t], who, d)
    {
      if t == l.task { NewFrameNotOfParty(cfg, s, l, who); }
    }
    forall t | t in tasks
      ensures t in s'.frames && (Approving(s'.frames[t], who) || ReturnsDeal(s'.frames[t], d))
    {
      TaskStays(cfg, s, l, t);
      if t == l.task { NewFrameNotOfParty(cfg, s, l, who); }
    }
  }

  // The converging approvals

  lemma FrameAgrees(s: Sys, s': Sys, t: nat, who: Party, hi: int, d: Deal, tasks: set<nat>)
    requires Agreeing(s, who, hi, d, tasks) && t in s'.frames && s'.frames == s.frames[t := s'.frames[t]]
    requires LiveSum(s'.rows, LiveIds(s'.rows, who, hi), d)
    requires Merged(s.rows, d) ==> Merged(s'.rows, d)
    requires KeepsTo(s'.rows, s'.frames[t], who, d)
    requires Approving(s'.frames[t], who) || ReturnsDeal(s'.frames[t], d)
    ensures Agreeing(s', who, hi, d, tasks)
  {
    hide LiveIds, LiveSum, Merged;
  }

  lemma SnapshotSum(rows: Rows, who: Party, lo: int, hi: int, ids: set<string>, now: int, live: seq<string>, d: Deal)
    requires GrantsSettled(rows, who, lo, hi, ids) && lo <= now <= hi && IsSnapshot(rows, who, now, live) && live != []
    requires forall id :: id in live ==> id in rows.grants
    requires LiveSum(rows, LiveIds(rows, who, hi), d)
    ensures Elements(ParseScope(FormatScope(Dedup(AllScopes(rows, live))))) == d.scopes
    ensures LatestExpiry(rows, live) == d.expiresAt
    ensures |live| == 1 ==> Elements(ParseScope(rows.grants[live[0]].scope)) == d.scopes
  {
    hide HasOlder, IsPactGrant, ParseScope, FormatScope, Older;
    LiveInWindow(rows, who, lo, hi, ids, now);
    LiveInWindow(rows, who, lo, hi, ids, hi);
    assert forall id :: id in live <==> id in LiveIds(rows, who, hi);
    assert forall x :: x in AllScopes(rows, live) <==> x in d.scopes;
    ParseFormat(Dedup(AllScopes(rows, live)));
    if |live| == 1 {
      assert live == [live[0]];
      assert forall x :: x in ParseScope(rows.grants[live[0]].scope) <==> x in d.scopes;
    }
  }

  lemma ConvergeAgrees(cfg: Config, s: Sys, t: nat, f: Frame, live: seq<string>, who: Party, lo: int, hi: int,
                       ids: set<string>, d: Deal, tasks: set<nat>)
    requires Electing(cfg, s, who, lo, hi, ids) && IsOldest(s.rows, d.survivor, ids) && Agreeing(s, who, hi, d, tasks)
    requires t in s.frames && s.frames[t] == f && f.Converging? && f.who == who
    requires IsSnapshot(s.rows, who, f.now, live) && forall id :: id in live ==> id in s.rows.grants
    ensures Agreeing(StepConverge(s, t, f, live), who, hi, d, tasks)
  {
    hide HasOlder, IsPactGrant, ParseScope, FormatScope, Dedup, AllScopes, GrantsSettled, Older, LiveIds, IsSnapshot,
      LiveSum, Elements, Agreeing;
    ConvergeElects(cfg, s, t, f, live, who, lo, hi, ids);
    OlderIsStrict(s.rows, d.survivor, live[0], d.survivor);
    assert live[0] == d.survivor;
    AgreeingSum(s, who, hi, d, tasks);
    SnapshotSum(s.rows, who, lo, hi, ids, f.now, live, d);
    FrameAgrees(s, StepConverge(s, t, f, live), t, who, hi, d, tasks);
  }

  lemma AgreeingSum(s: Sys, who: Party, hi: int, d: Deal, tasks: set<nat>)
    requires Agreeing(s, who, hi, d, tasks)
    ensures LiveSum(s.rows, LiveIds(s.rows, who, hi), d)
    ensures forall t :: t in s.frames ==> KeepsTo(s.rows, s.frames[t], who, d)
  {
    hide LiveIds, LiveSum, KeepsTo;
  }

  lemma MergeSum(rows: Rows, who: Party, lo: int, hi: int, ids: set<string>, scope: string, at: int, d: Deal)
    requires GrantsSettled(rows, who, lo, hi, ids) && IsOldest(rows, d.survivor, ids)
    requires LiveSum(rows, LiveIds(rows, who, hi), d) && Elements(ParseScope(scope)) == d.scopes && d.expiresAt > hi
    ensures var rows' := UpdateGrant(rows, d.survivor, scope, d.expiresAt, at);
      LiveSum(rows', LiveIds(rows', who, hi), d) && Merged(rows', d)
  {
    hide IsPactGrant, ParseScope, Older, HasOlder, IsOldest;
    OldestHasNoOlder(rows, ids, d.survivor);
    var rows' := UpdateGrant(rows, d.survivor, scope, d.expiresAt, at);
    assert d.survivor in ids by { OldestIn(rows, d.survivor, ids); }
    UpdateLive(rows, who, lo, hi, ids, d.survivor, scope, d.expiresAt, at);
    var live := LiveIds(rows, who, hi);
    LiveInWindow(rows, who, lo, hi, ids, hi);
    assert d.survivor in live;
    assert forall id :: id in live && id != d.survivor ==> rows'.grants[id] == rows.grants[id];
    assert forall x :: x in ScopesOf(rows', live) ==> x in d.scopes;
    assert forall x :: x in d.scopes ==> x in ParseScope(rows'.grants[d.survivor].scope);
  }

  lemma OldestIn(rows: Rows, m: string, ids: set<string>)
    requires IsOldest(rows, m, ids)
    ensures m in ids
  {
  }

  lemma MergeAgrees(cfg: Config, s: Sys, t: nat, f: Frame, who: Party, lo: int, hi: int, ids: set<string>, d: Deal,
      tasks: set<nat>)
    requires Electing(cfg, s, who, lo, hi, ids) && IsOldest(s.rows, d.survivor, ids) && Agreeing(s, who, hi, d, tasks)
    requires t in s.frames && s.frames[t] == f && f.Merging? && f.who == who
    ensures Agreeing(StepMerge(s, t, f), who, hi, d, tasks)
  {
    hide HasOlder, IsPactGrant, ParseScope, GrantsSettled, IsOldest, LiveIds, LiveSum, Elements, Agreeing, Merged,
      UpdateGrant;
    AgreeingSum(s, who, hi, d, tasks);
    MergeSum(s.rows, who, lo, hi, ids, f.scope, f.now, d);
    FrameAgrees(s, StepMerge(s, t, f), t, who, hi, d, tasks);
  }

  lemma RevokeSum(rows: Rows, who: Party, lo: int, hi: int, ids: set<string>, id: string, at: int, d: Deal)
    requires GrantsSettled(rows, who, lo, hi, ids) && IsOldest(rows, d.survivor, ids) && id in ids
    requires HasOlder(rows, ids, id)
    requires LiveSum(rows, LiveIds(rows, who, hi), d) && Merged(rows, d)
    ensures var rows' := RevokeGrantById(rows, id, at);
      LiveSum(rows', LiveIds(rows', who, hi), d) && Merged(rows', d)
  {
    hide IsPactGrant, ParseScope, Older, HasOlder, IsOldest;
    var rows' := RevokeGrantById(rows, id, at);
    OldestHasNoOlder(rows, ids, d.survivor);
    OldestIn(rows, d.survivor, ids);
    RevokeSettles(rows, who, lo, hi, ids, id, at);
    LiveInWindow(rows, who, lo, hi, ids, hi);
    LiveInWindow(rows', who, lo, hi, ids, hi);
    var live' := LiveIds(rows', who, hi);
    assert d.survivor != id && d.survivor in live';
    assert forall x :: x in live' ==> x in LiveIds(rows, who, hi) && rows'.grants[x] == rows.grants[x];
    assert forall x :: x in d.scopes ==> x in ParseScope(rows'.grants[d.survivor].scope);
    assert ScopesOf(rows', live') == d.scopes;
  }

  lemma RevokeExtraAgrees(cfg: Config, s: Sys, t: nat, f: Frame, who: Party, lo: int, hi: int, ids: set<string>,
      d: Deal, tasks: set<nat>)
    requires Electing(cfg, s, who, lo, hi, ids) && IsOldest(s.rows, d.survivor, ids) && Agreeing(s, who, hi, d, tasks)
    requires t in s.frames && s.frames[t] == f && f.RevokingExtras? && f.who == who && f.extras != []
    ensures Agreeing(StepRevokeExtra(s, t, f), who, hi, d, tasks)
  {
    hide HasOlder, IsPactGrant, ParseScope, GrantsSettled, IsOldest, LiveIds, LiveSum, Elements, Agreeing, Merged,
      RevokeGrantById;
    AgreeingSum(s, who, hi, d, tasks);
    assert f.extras[0] in f.extras;
    RevokeSum(s.rows, who, lo, hi, ids, f.extras[0], f.now, d);
    FrameAgrees(s, StepRevokeExtra(s, t, f), t, who, hi, d, tasks);
  }

  lemma BindAgrees(s: Sys, t: nat, f: Frame, who: Party, hi: int, d: Deal, tasks: set<nat>)
    requires Agreeing(s, who, hi, d, tasks) && t in s.frames && s.frames[t] == f && f.Binding? && f.who == who
    ensures Agreeing(StepBind(s, t, f), who, hi, d, tasks)
  {
    hide IsPactGrant, ParseScope, LiveSum;
    var s' := StepBind(s, t, f);
    assert s'.rows.grants == s.rows.grants;
    assert LiveIds(s'.rows, who, hi) == LiveIds(s.rows, who, hi);
    SumOfGrants(s.rows, s'.rows, LiveIds(s.rows, who, hi), d);
    FrameAgrees(s, s', t, who, hi, d, tasks);
  }

  lemma SumOfGrants(rows: Rows, rows': Rows, live: set<string>, d: Deal)
    requires rows'.grants == rows.grants && LiveSum(rows, live, d)
    ensures LiveSum(rows', live, d)
  {
    hide ParseScope;
    assert ScopesOf(rows', live) == ScopesOf(rows, live);
  }

  /** One step of a closing run, whoever takes it. */
  lemma StepAgrees(cfg: Config, s: Sys, l: Label, who: Party, lo: int, hi: int, ids: set<string>, d: Deal,
      tasks: set<nat>)
    requires Inv(cfg, s) && Enabled(s, l) && Steady(cfg, s, l, who, lo, hi) && NoNewClaim(s, l, who)
    requires Electing(cfg, s, who, lo, hi, ids) && IsOldest(s.rows, d.survivor, ids) && Agreeing(s, who, hi, d, tasks)
    ensures Agreeing(Step(cfg, s, l), who, hi, d, tasks)
    ensures Electing(cfg, Step(cfg, s, l), who, lo, hi, ids)
    ensures Settling(s, who, hi, ids) ==> Settling(Step(cfg, s, l), who, hi, ids)
  {
    hide Inv, Steady, Electing, Settling, IsPactGrant, ParseScope, FormatScope, Dedup, AllScopes, IsMostRecent,
      LatestExpiry, LiveIds, Agreeing, IsOldest, IsGrantOf, Inserted, NoNewClaim, Finds;
    AgreeingSum(s, who, hi, d, tasks);
    OldestIn(s.rows, d.survivor, ids);
    var t := l.task;
    if !ActsFor(s, l, who) {
      CandidateOfParty(cfg, s, who, lo, hi, ids, d.survivor);
      OthersAgree(cfg, s, l, who, lo, hi, d, tasks);
      OthersKeepElection(cfg, s, l, who, lo, hi, ids);
    } else {
      ActorElects(cfg, s, l, who, lo, hi, ids);
      match l.act
      case Converge(live) =>
        SnapshotIsOfParty(s.rows, who, s.frames[t].now, live);
        ConvergeAgrees(cfg, s, t, s.frames[t], live, who, lo, hi, ids, d, tasks);
      case Merge => MergeAgrees(cfg, s, t, s.frames[t], who, lo, hi, ids, d, tasks);
      case RevokeExtra => RevokeExtraAgrees(cfg, s, t, s.frames[t], who, lo, hi, ids, d, tasks);
      case Bind => BindAgrees(s, t, s.frames[t], who, hi, d, tasks);
    }
  }

  lemma CandidateOfParty(cfg: Config, s: Sys, who: Party, lo: int, hi: int, ids: set<string>, id: string)
    requires Electing(cfg, s, who, lo, hi, ids) && id in ids
    ensures IsGrantOf(s.rows.grants, id, who)
  {
  }

  // Runs

  lemma OldestKept(rows: Rows, rows': Rows, who: Party, m: string, ids: set<string>)
    requires GrantsKept(rows.grants, rows'.grants) && IsOldest(rows, m, ids)
    requires forall id :: id in ids ==> IsGrantOf(rows.grants, id, who)
    ensures IsOldest(rows', m, ids)
  {
    hide IsPactGrant;
  }

  lemma {:induction false} RunAgrees(cfg: Config, s: Sys, run: seq<Label>, who: Party, lo: int, hi: int,
                                     ids: set<string>, d: Deal, tasks: set<nat>)
    requires Inv(cfg, s) && SteadyRun(cfg, s, run, who, lo, hi) && IsRun(cfg, s, run) && ClosingRun(cfg, s, run, who)
    requires Electing(cfg, s, who, lo, hi, ids) && Settling(s, who, hi, ids)
    requires IsOldest(s.rows, d.survivor, ids) && Agreeing(s, who, hi, d, tasks)
    ensures Agreeing(After(cfg, s, run), who, hi, d, tasks)
    ensures Electing(cfg, After(cfg, s, run), who, lo, hi, ids) && Settling(After(cfg, s, run), who, hi, ids)
    ensures IsOldest(After(cfg, s, run).rows, d.survivor, ids)
    decreases |run|
  {
    hide Inv, Enabled, Step, Steady, Electing, Settling, Agreeing, GrantsKept, LogGrows, TokensKept, NewIsOwn,
      FramesElsewhere, IsOldest, IsGrantOf;
    if run != [] {
      var s' := Step(cfg, s, run[0]);
      StepAgrees(cfg, s, run[0], who, lo, hi, ids, d, tasks);
      StepKeeps(cfg, s, run[0]);
      forall id | id in ids
        ensures IsGrantOf(s.rows.grants, id, who)
      {
        CandidateOfParty(cfg, s, who, lo, hi, ids, id);
      }
      OldestKept(s.rows, s'.rows, who, d.survivor, ids);
      RunAgrees(cfg, s', run[1..], who, lo, hi, ids, d, tasks);
    }
  }

  /** `s` follows a quiet state, every approval of `who` in flight is about to read the live set, and there is one. */
  ghost predicate AllInserted(cfg: Config, q: Sys, before: seq<Label>, s: Sys, who: Party, lo: int, hi: int) {
    && Inv(cfg, q) && Quiet(cfg, q, who, lo, hi)
    && IsRun(cfg, q, before) && SteadyRun(cfg, q, before, who, lo, hi) && s == After(cfg, q, before)
    && (forall t :: t in s.frames && Approving(s.frames[t], who) ==> s.frames[t].Converging?)
    && (exists t :: t in s.frames && s.frames[t].Converging? && s.frames[t].who == who)
  }

  ghost function InFlight(s: Sys, who: Party): set<nat> {
    set t | t in s.frames && Approving(s.frames[t], who)
  }

  lemma LatestExists(rows: Rows, ids: set<string>) returns (e: int)
    requires ids != {} && forall id :: id in ids ==> id in rows.grants
    ensures IsLatest(rows, ids, e)
    decreases ids
  {
    var x :| x in ids;
    if ids == {x} {
      e := rows.grants[x].expiresAt;
    } else {
      e := LatestExists(rows, ids - {x});
      if e < rows.grants[x].expiresAt { e := rows.grants[x].expiresAt; }
    }
  }

  lemma StartAgrees(cfg: Config, s: Sys, who: Party, lo: int, hi: int, ids: set<string>) returns (d: Deal)
    requires Electing(cfg, s, who, lo, hi, ids) && ids != {}
    requires forall t :: t in s.frames && Approving(s.frames[t], who) ==> s.frames[t].Converging?
    ensures IsOldest(s.rows, d.survivor, ids) && Agreeing(s, who, hi, d, InFlight(s, who))
    ensures d.scopes == ScopesOf(s.rows, LiveIds(s.rows, who, hi))
    ensures IsLatest(s.rows, LiveIds(s.rows, who, hi), d.expiresAt)
  {
    hide FlightOK, HasOlder, IsPactGrant, ParseScope, Older, IsLatest, ScopesOf;
    var m := OldestExists(s.rows, ids);
    OldestHasNoOlder(s.rows, ids, m);
    OldestIn(s.rows, m, ids);
    LiveInWindow(s.rows, who, lo, hi, ids, hi);
    assert m in LiveIds(s.rows, who, hi);
    var e := LatestExists(s.rows, LiveIds(s.rows, who, hi));
    d := Deal(m, ScopesOf(s.rows, LiveIds(s.rows, who, hi)), e);
  }

  /**
   * Agreement: whatever the interleaving from here on, once all approvals of the party have returned, they have
   * all returned the one grant that is left, with the union of the scopes that were live; the grant carries
   * exactly that union and the latest expiry.
   */
  lemma ApprovalsAgree(cfg: Config, q: Sys, before: seq<Label>, s: Sys, run: seq<Label>, who: Party, lo: int, hi: int)
    returns (d: Deal)
    requires AllInserted(cfg, q, before, s, who, lo, hi)
    requires IsRun(cfg, s, run) && SteadyRun(cfg, s, run, who, lo, hi) && ClosingRun(cfg, s, run, who)
    requires forall t :: t in After(cfg, s, run).frames ==> !Approving(After(cfg, s, run).frames[t], who)
    ensures d.scopes == ScopesOf(s.rows, LiveIds(s.rows, who, hi))
    ensures IsLatest(s.rows, LiveIds(s.rows, who, hi), d.expiresAt)
    ensures LiveIds(After(cfg, s, run).rows, who, hi) == {d.survivor} && Merged(After(cfg, s, run).rows, d)
    ensures forall t :: t in InFlight(s, who) ==>
      t in After(cfg, s, run).frames && ReturnsDeal(After(cfg, s, run).frames[t], d)
  {
    hide Inv, Enabled, Step, Electing, Settling, IsRun, SteadyRun, ClosingRun, After, Quiet, Inserted, LiveIds,
      GrantsKept, Agreeing, IsOldest, IsLatest, ScopesOf, Merged, ReturnsDeal;
    var ids := InsertedElects(cfg, q, before, s, who, lo, hi);
    d := StartAgrees(cfg, s, who, lo, hi, ids);
    RunAgrees(cfg, s, run, who, lo, hi, ids, d, InFlight(s, who));
    var m := SettledLeavesOldest(cfg, After(cfg, s, run), who, lo, hi, ids);
    OneOldest(After(cfg, s, run).rows, m, d.survivor, ids);
    AgreedResult(After(cfg, s, run), who, hi, d, InFlight(s, who));
  }

  lemma OneOldest(rows: Rows, m: string, n: string, ids: set<string>)
    requires IsOldest(rows, m, ids) && IsOldest(rows, n, ids)
    ensures m == n
  {
    hide Older;
    OlderIsStrict(rows, m, n, m);
  }

  lemma InsertedElects(cfg: Config, q: Sys, before: seq<Label>, s: Sys, who: Party, lo: int, hi: int)
      returns (ids: set<string>)
    requires AllInserted(cfg, q, before, s, who, lo, hi)
    ensures Inv(cfg, s) && Electing(cfg, s, who, lo, hi, ids) && Settling(s, who, hi, ids) && ids != {}
  {
    hide Inv, Enabled, Step, IsRun, SteadyRun, After, Quiet, Inserted, LiveIds, GrantsKept, GrantsSettled, HasOlder;
    QuietElects(cfg, q, who, lo, hi);
    ids := RunElects(cfg, q, before, who, lo, hi, LiveIds(q.rows, who, hi));
    RunKeeps(cfg, q, before);
  }

  lemma AgreedResult(s: Sys, who: Party, hi: int, d: Deal, tasks: set<nat>)
    requires Agreeing(s, who, hi, d, tasks) && LiveIds(s.rows, who, hi) == {d.survivor}
    requires forall t :: t in s.frames ==> !Approving(s.frames[t], who)
    ensures Merged(s.rows, d)
    ensures forall t :: t in tasks ==> t in s.frames && ReturnsDeal(s.frames[t], d)
  {
    hide IsPactGrant, ParseScope, ReturnsDeal;
    assert d.survivor in LiveIds(s.rows, who, hi);
    assert forall x :: x in ParseScope(s.rows.grants[d.survivor].scope) <==> x in d.scopes;
  }

  // What was live: the grants there were, and one per approval that inserted

  /** Up to here approvals of `who` have only inserted: none has read the live set or widened an existing grant. */
  ghost predicate InsertingRun(cfg: Config, s: Sys, run: seq<Label>, who: Party)
    requires IsRun(cfg, s, run)
    decreases |run|
  {
    run == [] ||
    ((ActsFor(s, run[0], who) ==> !run[0].act.Converge? && !run[0].act.Widen?)
     && InsertingRun(cfg, Step(cfg, s, run[0]), run[1..], who))
  }

  predicate IsEarly(f: Frame, who: Party) {
    Approving(f, who) ==> f.FindingExisting? || f.Widening? || f.InsertingGrant? || f.Converging?
  }

  /** The scopes an approval that has inserted was given. */
  ghost function GivenTo(s: Sys, t: nat, who: Party): seq<string> {
    if t in s.frames && s.frames[t].Converging? && s.frames[t].who == who && s.frames[t].code in s.log.claims
    then s.log.claims[s.frames[t].code].granted
    else []
  }

  ghost function Given(s: Sys, who: Party): set<string> {
    set t, x | t in s.frames && x in GivenTo(s, t, who) :: x
  }

  ghost predicate OnlyInserting(s: Sys, who: Party, hi: int, base: set<string>) {
    && (forall t :: t in s.frames ==> IsEarly(s.frames[t], who))
    && ScopesOf(s.rows, LiveIds(s.rows, who, hi)) == base + Given(s, who)
  }

  lemma OthersKeepScopes(rows: Rows, rows': Rows, who: Party, hi: int)
    requires SameGrants(rows, rows', who)
    ensures ScopesOf(rows', LiveIds(rows', who, hi)) == ScopesOf(rows, LiveIds(rows, who, hi))
  {
    hide IsPactGrant, ParseScope;
    assert forall id :: IsLive(rows, who, hi, id) <==> IsLive(rows', who, hi, id);
    var live := LiveIds(rows, who, hi);
    assert LiveIds(rows', who, hi) == live;
    assert forall id :: id in live ==> id in rows'.grants && rows'.grants[id] == rows.grants[id];
  }

  lemma NewFrameEarly(cfg: Config, s: Sys, l: Label, who: Party)
    requires Enabled(s, l) && (ActsFor(s, l, who) ==> l.act.FindExisting? || l.act.InsertNewGrant?)
    requires l.task in Step(cfg, s, l).frames && (l.task in s.frames ==> IsEarly(s.frames[l.task], who))
    ensures IsEarly(Step(cfg, s, l).frames[l.task], who)
    ensures !l.act.InsertNewGrant? || !ActsFor(s, l, who) ==>
      (Step(cfg, s, l).frames[l.task].Converging? && Step(cfg, s, l).frames[l.task].who == who ==>
        l.task in s.frames && Step(cfg, s, l).frames[l.task] == s.frames[l.task])
    ensures l.task in s.frames && s.frames[l.task].Converging? && s.frames[l.task].who == who ==>
      Step(cfg, s, l).frames[l.task] == s.frames[l.task]
  {
    hide ParseScope, FormatScope, IsSnapshot, IsMostRecent, Finds, Keep, AllScopes, Dedup, Usable, Sign,
      InScopes, LatestExpiry, IsPactGrant, CanUse, UpdateGrant, RevokeGrantById, RevokeGrant, RevokeAllGrants,
      DeleteDevicesExpiredBefore, TransitionDevice, MarkPolled;
  }

  lemma GivenKept(s: Sys, s': Sys, who: Party, t: int)
    requires SubMap(s.log.claims, s'.log.claims) && FramesElsewhere(s.frames, s'.frames, t)
    requires forall u :: u in s.frames && s.frames[u].Converging? && s.frames[u].who == who ==>
      s.frames[u].code in s.log.claims
    requires t >= 0 && t in s.frames && s.frames[t].Converging? && s.frames[t].who == who ==>
      t in s'.frames && s'.frames[t] == s.frames[t]
    requires t >= 0 && t in s'.frames && s'.frames[t].Converging? && s'.frames[t].who == who ==>
      t in s.frames && s'.frames[t] == s.frames[t]
    ensures Given(s', who) == Given(s, who)
  {
    assert forall u: nat :: GivenTo(s', u, who) == GivenTo(s, u, who);
  }

  lemma ConvergingClaimed(cfg: Config, s: Sys, who: Party)
    requires Inv(cfg, s)
    ensures forall u :: u in s.frames && s.frames[u].Converging? && s.frames[u].who == who ==>
      s.frames[u].code in s.log.claims
  {
    hide Inv;
    forall u | u in s.frames && s.frames[u].Converging?
      ensures s.frames[u].code in s.log.claims
    {
      FrameFact(cfg, s, u);
    }
  }

  lemma InsertedScopes(cfg: Config, s: Sys, t: nat, f: Frame, id: string, who: Party, lo: int, hi: int)
    requires Inv(cfg, s) && t in s.frames && s.frames[t] == f && f.InsertingGrant? && f.who == who
    requires InWindow(cfg, f.now, lo, hi) && id !in s.rows.grants && IsPactGrant(id)
    ensures var s' := StepInsertGrant(cfg, s, t, f, id);
      && ScopesOf(s'.rows, LiveIds(s'.rows, who, hi)) ==
        ScopesOf(s.rows, LiveIds(s.rows, who, hi)) + Elements(f.granted)
      && Given(s', who) == Given(s, who) + Elements(f.granted)
  {
    hide Inv, ParseScope, FormatScope, IsPactGrant, AllTicked, IsScopeList;
    FrameFact(cfg, s, t);
    ClaimFact(cfg, s, f.code);
    ParseFormat(f.granted);
    var s' := StepInsertGrant(cfg, s, t, f, id);
    InsertedLive(s.rows, s'.rows, who, hi, id);
    InsertedGiven(s, s', t, who);
  }

  lemma InsertedLive(rows: Rows, rows': Rows, who: Party, hi: int, id: string)
    requires id !in rows.grants && id in rows'.grants && rows'.grants == rows.grants[id := rows'.grants[id]]
    requires IsLive(rows', who, hi, id)
    ensures ScopesOf(rows', LiveIds(rows', who, hi))
      == ScopesOf(rows, LiveIds(rows, who, hi)) + Elements(ParseScope(rows'.grants[id].scope))
  {
    hide ParseScope, IsPactGrant;
    assert forall x :: x in rows.grants ==> (IsLive(rows, who, hi, x) <==> IsLive(rows', who, hi, x));
    assert LiveIds(rows', who, hi) == LiveIds(rows, who, hi) + {id};
  }

  lemma InsertedGiven(s: Sys, s': Sys, t: nat, who: Party)
    requires s'.log == s.log && t in s.frames && s.frames[t].InsertingGrant? && s.frames[t].who == who
    requires t in s'.frames && s'.frames == s.frames[t := s'.frames[t]]
    requires s'.frames[t].Converging? && s'.frames[t].who == who && s'.frames[t].code == s.frames[t].code
    requires s.frames[t].code in s.log.claims && s.log.claims[s.frames[t].code].granted == s.frames[t].granted
    ensures Given(s', who) == Given(s, who) + Elements(s.frames[t].granted)
  {
    assert GivenTo(s', t, who) == s.frames[t].granted && GivenTo(s, t, who) == [];
    assert forall u :: u in s.frames && u != t ==> GivenTo(s', u, who) == GivenTo(s, u, who);
  }

  lemma InsertingStep(cfg: Config, s: Sys, l: Label, who: Party, lo: int, hi: int, ids: set<string>, base: set<string>)
    requires Inv(cfg, s) && Enabled(s, l) && Steady(cfg, s, l, who, lo, hi) && Electing(cfg, s, who, lo, hi, ids)
    requires OnlyInserting(s, who, hi, base)
    requires ActsFor(s, l, who) ==> !l.act.Converge? && !l.act.Widen?
    ensures OnlyInserting(Step(cfg, s, l), who, hi, base)
  {
    hide Inv, Enabled, Step, Steady, SameGrants, GrantsKept, TokensKept, NewIsOwn, LiveIds, ScopesOf, Given,
      IsPactGrant, Electing, InWindow;
    var s' := Step(cfg, s, l);
    OnlyEarlyActs(s, l, who);
    StepKeeps(cfg, s, l);
    ConvergingClaimed(cfg, s, who);
    forall t | t in s'.frames
      ensures IsEarly(s'.frames[t], who)
    {
      if t == l.task { NewFrameEarly(cfg, s, l, who); }
    }
    if ActsFor(s, l, who) && l.act.InsertNewGrant? {
      StepIsInsert(cfg, s, l, who);
      FlightInWindow(cfg, s, l.task, who, lo, hi, ids);
      InsertedScopes(cfg, s, l.task, s.frames[l.task], l.act.grantId, who, lo, hi);
    } else {
      if l.task in s'.frames { NewFrameEarly(cfg, s, l, who); }
      if l.task in s.frames { TaskStays(cfg, s, l, l.task); }
      GivenKept(s, s', who, l.task);
      OtherOrReading(cfg, s, l, who, lo, hi);
      OthersKeepScopes(s.rows, s'.rows, who, hi);
    }
  }

  lemma OtherOrReading(cfg: Config, s: Sys, l: Label, who: Party, lo: int, hi: int)
    requires Inv(cfg, s) && Enabled(s, l) && Steady(cfg, s, l, who, lo, hi)
    requires ActsFor(s, l, who) ==> l.act.FindExisting?
    ensures SameGrants(s.rows, Step(cfg, s, l).rows, who)
  {
    hide Inv, Steady, ParseScope, FormatScope, Dedup, IsMostRecent, IsPactGrant;
    if !ActsFor(s, l, who) { OthersLeaveGrants(cfg, s, l, who, lo, hi); } else { GrantsUntouched(cfg, s, l); }
  }

  lemma OnlyEarlyActs(s: Sys, l: Label, who: Party)
    requires Enabled(s, l) && forall t :: t in s.frames ==> IsEarly(s.frames[t], who)
    requires ActsFor(s, l, who) ==> !l.act.Converge? && !l.act.Widen?
    ensures ActsFor(s, l, who) ==> l.act.FindExisting? || l.act.InsertNewGrant?
  {
    hide IsSnapshot, IsMostRecent, Finds, IsPactGrant;
  }

  lemma StepIsInsert(cfg: Config, s: Sys, l: Label, who: Party)
    requires Enabled(s, l) && l.act.InsertNewGrant? && ActsFor(s, l, who)
    ensures l.task in s.frames && s.frames[l.task].InsertingGrant? && s.frames[l.task].who == who
    ensures l.act.grantId !in s.rows.grants && IsPactGrant(l.act.grantId)
    ensures Step(cfg, s, l) == StepInsertGrant(cfg, s, l.task, s.frames[l.task], l.act.grantId)
  {
    hide FormatScope, IsPactGrant, StepInsertGrant;
  }

  lemma FlightInWindow(cfg: Config, s: Sys, t: nat, who: Party, lo: int, hi: int, ids: set<string>)
    requires Electing(cfg, s, who, lo, hi, ids) && t in s.frames && s.frames[t].InsertingGrant?
    requires s.frames[t].who == who
    ensures InWindow(cfg, s.frames[t].now, lo, hi)
  {
    hide InWindow, GrantsSettled;
  }

  lemma {:induction false} InsertingScopes(cfg: Config, s: Sys, run: seq<Label>, who: Party, lo: int, hi: int,
                                           ids: set<string>, base: set<string>)
    requires Inv(cfg, s) && IsRun(cfg, s, run) && SteadyRun(cfg, s, run, who, lo, hi) && InsertingRun(cfg, s, run, who)
    requires Electing(cfg, s, who, lo, hi, ids) && OnlyInserting(s, who, hi, base)
    ensures OnlyInserting(After(cfg, s, run), who, hi, base)
    decreases |run|
  {
    hide Inv, Enabled, Step, Steady, Electing, Settling, OnlyInserting, GrantsKept, LogGrows, TokensKept, NewIsOwn,
      FramesElsewhere, ActsFor;
    if run != [] {
      StepKeeps(cfg, s, run[0]);
      InsertingStep(cfg, s, run[0], who, lo, hi, ids, base);
      var ids' := StepElects(cfg, s, run[0], who, lo, hi, ids);
      InsertingScopes(cfg, Step(cfg, s, run[0]), run[1..], who, lo, hi, ids', base);
    }
  }

  /**
   * No scope is lost: when the approvals only inserted before any of them converged, what all of them return,
   * and what the surviving grant carries, is every scope live before plus every scope any of them was given.
   */
  lemma NothingLost(cfg: Config, q: Sys, before: seq<Label>, s: Sys, run: seq<Label>, who: Party, lo: int, hi: int)
    returns (d: Deal)
    requires AllInserted(cfg, q, before, s, who, lo, hi) && IsRun(cfg, q, before) && InsertingRun(cfg, q, before, who)
    requires IsRun(cfg, s, run) && SteadyRun(cfg, s, run, who, lo, hi) && ClosingRun(cfg, s, run, who)
    requires forall t :: t in After(cfg, s, run).frames ==> !Approving(After(cfg, s, run).frames[t], who)
    ensures d.scopes == ScopesOf(q.rows, LiveIds(q.rows, who, hi)) + Given(s, who)
    ensures LiveIds(After(cfg, s, run).rows, who, hi) == {d.survivor} && Merged(After(cfg, s, run).rows, d)
    ensures forall t :: t in InFlight(s, who) ==>
      t in After(cfg, s, run).frames && ReturnsDeal(After(cfg, s, run).frames[t], d)
  {
    hide Inv, Enabled, Step, Electing, Settling, IsRun, SteadyRun, ClosingRun, InsertingRun, After, Quiet, LiveIds,
      IsLatest, ScopesOf, Merged, ReturnsDeal, OnlyInserting, Given;
    d := ApprovalsAgree(cfg, q, before, s, run, who, lo, hi);
    QuietElects(cfg, q, who, lo, hi);
    QuietOnlyInserting(cfg, q, who, lo, hi);
    InsertingScopes(cfg, q, before, who, lo, hi, LiveIds(q.rows, who, hi), ScopesOf(q.rows, LiveIds(q.rows, who, hi)));
    OnlyInsertingScopes(s, who, hi, ScopesOf(q.rows, LiveIds(q.rows, who, hi)));
  }

  lemma QuietOnlyInserting(cfg: Config, q: Sys, who: Party, lo: int, hi: int)
    requires Quiet(cfg, q, who, lo, hi)
    ensures OnlyInserting(q, who, hi, ScopesOf(q.rows, LiveIds(q.rows, who, hi)))
  {
    hide ScopesOf, LiveIds, InWindow, NoneExpires;
    assert Given(q, who) == {};
  }

  lemma OnlyInsertingScopes(s: Sys, who: Party, hi: int, base: set<string>)
    requires OnlyInserting(s, who, hi, base)
    ensures ScopesOf(s.rows, LiveIds(s.rows, who, hi)) == base + Given(s, who)
  {
  }

  // Why the hypotheses are needed

  /**
   * Two approvals that widen one existing grant read it before either writes: the second write wins. The grant
   * ends with what was there plus the second approval's scopes, so nothing is lost exactly when the first
   * approval's scopes were all there already or all given to the second as well.
   */
  lemma WideningRace(cfg: Config, s: Sys, t: nat, u: nat, id: string)
    requires t != u && t in s.frames && u in s.frames && s.frames[t].FindingExisting? && s.frames[u].FindingExisting?
    requires s.frames[t].who == s.frames[u].who && Unrevoked(s.rows, id)
    requires IsScopeList(s.frames[t].granted) && IsScopeList(s.frames[u].granted)
    requires IsMostRecent(s.rows, s.frames[t].who, s.frames[t].now, Some(id))
    requires IsMostRecent(s.rows, s.frames[u].who, s.frames[u].now, Some(id))
    ensures var stored := Elements(ParseScope(s.rows.grants[id].scope));
      var s1 := Step(cfg, s, Label(t, FindExisting(Some(id))));
      Enabled(s1, Label(u, FindExisting(Some(id))))
      && var s2 := Step(cfg, s1, Label(u, FindExisting(Some(id))));
      var s3 := Step(cfg, s2, Label(t, Widen));
      var s4 := Step(cfg, s3, Label(u, Widen));
      && id in s4.rows.grants
      && var result := Elements(ParseScope(s4.rows.grants[id].scope));
         && result == stored + Elements(s.frames[u].granted)
         && s4.frames[t].Binding? && Elements(s4.frames[t].scopes) == stored + Elements(s.frames[t].granted)
         && ((Elements(s.frames[t].granted) <= result) <==>
             Elements(s.frames[t].granted) <= stored + Elements(s.frames[u].granted))
  {
    hide ParseScope, FormatScope, Dedup, IsMostRecent, IsSnapshot, IsScopeList, Finds;
    MergedScope(s.rows.grants[id].scope, s.frames[t].granted);
    MergedScope(s.rows.grants[id].scope, s.frames[u].granted);
  }

  /**
   * An approval that converges before another inserts returns its own grant; if the later one's clock is the
   * older, that grant is then on the later one's list of extras: the two calls return different grants.
   */
  lemma LateInsertDisagrees(cfg: Config, s: Sys, t: nat, u: nat, a: string, b: string)
    requires t != u && t in s.frames && u in s.frames && s.frames[t].InsertingGrant? && s.frames[u].InsertingGrant?
    requires s.frames[t].who == s.frames[u].who && LiveIds(s.rows, s.frames[t].who, s.frames[t].now) == {}
    requires LiveIds(s.rows, s.frames[u].who, s.frames[u].now) == {}
    requires a !in s.rows.grants && b !in s.rows.grants && a != b && IsPactGrant(a) && IsPactGrant(b)
    requires s.frames[u].now < s.frames[t].now < s.frames[u].now + cfg.grantTtl * 1000
    ensures var s1 := StepInsertGrant(cfg, s, t, s.frames[t], a);
      IsSnapshot(s1.rows, s.frames[t].who, s.frames[t].now, [a])
      && var s2 := StepConverge(s1, t, s1.frames[t], [a]);
      var s3 := StepInsertGrant(cfg, s2, u, s2.frames[u], b);
      IsSnapshot(s3.rows, s.frames[u].who, s.frames[u].now, [b, a])
      && var s4 := StepConverge(s3, u, s3.frames[u], [b, a]);
      && s4.frames[t].Binding? && s4.frames[t].grantId == a
      && s4.frames[u].Merging? && s4.frames[u].survivor == b && s4.frames[u].extras == [a]
  {
    hide ParseScope, FormatScope, Dedup, AllScopes, LatestExpiry, IsPactGrant, LiveIds;
    var who := s.frames[t].who;
    var s1 := StepInsertGrant(cfg, s, t, s.frames[t], a);
    LiveAfterInsert(s.rows, a, s1.rows.grants[a], who, s.frames[t].now);
    LiveAfterInsert(s.rows, a, s1.rows.grants[a], who, s.frames[u].now);
    var s2 := StepConverge(s1, t, s1.frames[t], [a]);
    var s3 := StepInsertGrant(cfg, s2, u, s2.frames[u], b);
    LiveAfterInsert(s2.rows, b, s3.rows.grants[b], who, s.frames[u].now);
  }

  lemma LiveAfterInsert(rows: Rows, id: string, g: Grant, who: Party, now: int)
    requires id !in rows.grants && IsPactGrant(id) && PartyOf(g) == who && g.revokedAt.None? && g.expiresAt > now
    ensures LiveIds(InsertGrant(rows, id, g), who, now) == LiveIds(rows, who, now) + {id}
  {
    hide IsPactGrant;
    var rows' := InsertGrant(rows, id, g);
    assert forall x :: x in rows.grants ==> (IsLive(rows, who, now, x) <==> IsLive(rows', who, now, x));
  }
}
