/**
 * What each caller of `approve` is told. Exactly one grant of the party survives concurrent approvals; here, for
 * every run, which calls return it: an election if and only if the survivor existed when it read, a widening if and
 * only if no candidate is older than the grant it widened.
 */
module DelegationSurvivor {
  import opened Wrappers
  import opened Scopes
  import opened DelegationRows
  import opened DelegationMachine
  import opened DelegationInvariant
  import opened DelegationPreservation
  import opened DelegationConvergence
  import opened DelegationAgreement

  /** The call has settled on the grant it will return, or has returned it. */
  predicate SettledOn(f: Frame, who: Party, id: string) {
    || (f.Merging? && f.who == who && f.survivor == id && f.extras != [])
    || (f.RevokingExtras? && f.who == who && f.survivor == id && f.extras != [])
    || (f.Binding? && f.who == who && f.grantId == id)
    || (f.Done? && f.outcome.Granted? && f.outcome.grantId == id)
  }

  lemma SettledStep(cfg: Config, s: Sys, l: Label, who: Party, id: string)
    requires Enabled(s, l) && l.task in s.frames && SettledOn(s.frames[l.task], who, id)
    ensures l.task in Step(cfg, s, l).frames && SettledOn(Step(cfg, s, l).frames[l.task], who, id)
  {
    hide ParseScope, FormatScope, IsSnapshot, IsMostRecent, Finds, Keep, AllScopes, Dedup, Usable, Sign, InScopes,
      LatestExpiry, IsPactGrant, CanTransition, CanUse, Unrevoked,
      InsertDevice, DeleteDevicesExpiredBefore, MarkPolled, TransitionDevice, SetDeviceGrant, InsertGrant, UpdateGrant,
      RevokeGrantById, RevokeGrant, RevokeAllGrants, InsertRefreshToken, UseRefreshToken;
  }

  lemma {:induction false} SettledRun(cfg: Config, s: Sys, run: seq<Label>, t: nat, who: Party, id: string)
    requires Inv(cfg, s) && IsRun(cfg, s, run) && t in s.frames && SettledOn(s.frames[t], who, id)
    ensures t in After(cfg, s, run).frames && SettledOn(After(cfg, s, run).frames[t], who, id)
    decreases |run|
  {
    hide Inv, Enabled, Step, SettledOn;
    if run != [] {
      StepKeeps(cfg, s, run[0]);
      TaskStays(cfg, s, run[0], t);
      if run[0].task == t { SettledStep(cfg, s, run[0], who, id); }
      SettledRun(cfg, Step(cfg, s, run[0]), run[1..], t, who, id);
    }
  }

  /** Once no approval of the party is in flight, it has returned that grant. */
  lemma SettledReturns(f: Frame, who: Party, id: string)
    requires SettledOn(f, who, id) && !Approving(f, who)
    ensures f.Done? && f.outcome.Granted? && f.outcome.grantId == id
  {
  }

  /** A steady run from a quiet state, cut at one step: the state before it, the step, and the rest of the run. */
  ghost predicate CutRun(cfg: Config, q: Sys, before: seq<Label>, l: Label, after: seq<Label>, who: Party, lo: int,
      hi: int) {
    && Inv(cfg, q) && Quiet(cfg, q, who, lo, hi)
    && IsRun(cfg, q, before) && SteadyRun(cfg, q, before, who, lo, hi)
    && var s := After(cfg, q, before);
    && Enabled(s, l) && Steady(cfg, s, l, who, lo, hi) && ActsFor(s, l, who)
    && IsRun(cfg, Step(cfg, s, l), after) && SteadyRun(cfg, Step(cfg, s, l), after, who, lo, hi)
    && forall t :: t in After(cfg, Step(cfg, s, l), after).frames ==>
      !Approving(After(cfg, Step(cfg, s, l), after).frames[t], who)
  }

  /** What the election reads, and how the run goes on from there. */
  lemma AroundElection(cfg: Config, s: Sys, l: Label, after: seq<Label>, who: Party, lo: int, hi: int, ids: set<string>)
    returns (m: string, ids': set<string>)
    requires Inv(cfg, s) && Electing(cfg, s, who, lo, hi, ids) && Enabled(s, l) && Steady(cfg, s, l, who, lo, hi)
    requires ActsFor(s, l, who) && l.act.Converge?
    requires IsRun(cfg, Step(cfg, s, l), after) && SteadyRun(cfg, Step(cfg, s, l), after, who, lo, hi)
    requires forall t :: t in After(cfg, Step(cfg, s, l), after).frames ==>
      !Approving(After(cfg, Step(cfg, s, l), after).frames[t], who)
    ensures l.act.live != [] && IsOldest(s.rows, l.act.live[0], ids)
    ensures ids' == ids + Inserted(Step(cfg, s, l).rows, After(cfg, Step(cfg, s, l), after).rows, who)
    ensures LiveIds(After(cfg, Step(cfg, s, l), after).rows, who, hi) == {m}
    ensures IsOldest(After(cfg, Step(cfg, s, l), after).rows, m, ids')
    ensures GrantsKept(s.rows.grants, After(cfg, Step(cfg, s, l), after).rows.grants)
    ensures Step(cfg, s, l).rows == s.rows
    ensures l.task in Step(cfg, s, l).frames && SettledOn(Step(cfg, s, l).frames[l.task], who, l.act.live[0])
  {
    hide Inv, Steady, Electing, Settling, SteadyRun, IsRun, After, GrantsKept, Inserted, IsOldest, LiveIds, IsSnapshot,
      ParseScope, FormatScope, Dedup, AllScopes, LatestExpiry, IsPactGrant, LogGrows, TokensKept, NewIsOwn;
    var s1 := Step(cfg, s, l);
    SnapshotIsOfParty(s.rows, who, s.frames[l.task].now, l.act.live);
    ConvergeElects(cfg, s, l.task, s.frames[l.task], l.act.live, who, lo, hi, ids);
    StepKeeps(cfg, s, l);
    ids' := RunElects(cfg, s1, after, who, lo, hi, ids);
    OldestIn(s.rows, l.act.live[0], ids);
    m := SettledLeavesOldest(cfg, After(cfg, s1, after), who, lo, hi, ids');
    SettledRun(cfg, s1, after, l.task, who, l.act.live[0]);
  }

  /**
   * In every such run an election picks the grant that survives if and only if that grant was there when it read; and
   * its caller is told the grant it picked.
   */
  lemma ElectionTellsSurvivor(
      cfg: Config, q: Sys, before: seq<Label>, l: Label, after: seq<Label>, who: Party, lo: int, hi: int)
        returns (m: string)
    requires CutRun(cfg, q, before, l, after, who, lo, hi) && l.act.Converge?
    ensures var s, end := After(cfg, q, before), After(cfg, Step(cfg, After(cfg, q, before), l), after);
      && LiveIds(end.rows, who, hi) == {m}
      && l.act.live != [] && (l.act.live[0] == m <==> m in s.rows.grants)
      && l.task in end.frames && end.frames[l.task].Done? && end.frames[l.task].outcome.Granted?
      && end.frames[l.task].outcome.grantId == l.act.live[0]
  {
    hide Inv, Enabled, Step, Steady, Electing, Settling, Quiet, SteadyRun, IsRun, After, GrantsKept, Inserted, IsOldest,
      ActsFor, Approving, LiveIds;
    QuietElects(cfg, q, who, lo, hi);
    var ids := RunElects(cfg, q, before, who, lo, hi, LiveIds(q.rows, who, hi));
    RunKeeps(cfg, q, before);
    var s := After(cfg, q, before);
    var ids';
    m, ids' := AroundElection(cfg, s, l, after, who, lo, hi, ids);
    var end := After(cfg, Step(cfg, s, l), after);
    StepKeeps(cfg, s, l);
    SettledRun(cfg, Step(cfg, s, l), after, l.task, who, l.act.live[0]);
    SettledReturns(end.frames[l.task], who, l.act.live[0]);
    CandidatesOfParty(cfg, s, who, lo, hi, ids);
    OldestWasThere(s.rows, end.rows, who, ids, ids', l.act.live[0], m);
  }

  lemma CandidatesOfParty(cfg: Config, s: Sys, who: Party, lo: int, hi: int, ids: set<string>)
    requires Electing(cfg, s, who, lo, hi, ids)
    ensures forall id :: id in ids ==> IsGrantOf(s.rows.grants, id, who)
  {
    hide FlightOK, HasOlder;
  }

  /**
   * Between two states candidates only join: the oldest of the early ones is the oldest of all iff that one was
   * there.
   */
  lemma OldestWasThere(rows: Rows, rows': Rows, who: Party, ids: set<string>, ids': set<string>, early: string,
      m: string)
    requires forall id :: id in ids ==> IsGrantOf(rows.grants, id, who)
    requires ids' == ids + Inserted(rows, rows', who) && GrantsKept(rows.grants, rows'.grants)
    requires IsOldest(rows, early, ids) && IsOldest(rows', m, ids')
    ensures early == m <==> m in rows.grants
  {
    hide Older, IsPactGrant, GrantsKept, Inserted;
    OldestIn(rows, early, ids);
    OldestIn(rows', m, ids');
    if m in rows.grants {
      ThereNotInserted(rows, rows', who, m);
      OldestKept(rows, rows', who, early, ids);
      OlderIsStrict(rows', early, m, early);
    }
  }

  lemma ThereNotInserted(rows: Rows, rows': Rows, who: Party, m: string)
    requires GrantsKept(rows.grants, rows'.grants) && m in rows.grants
    ensures m !in Inserted(rows, rows', who)
  {
    hide IsPactGrant;
  }

  /** The step that widens: its frame, and that it settles on the grant it writes. */
  lemma WidenSettles(cfg: Config, s: Sys, l: Label, who: Party)
    requires Enabled(s, l) && ActsFor(s, l, who) && l.act.Widen? && Unrevoked(s.rows, s.frames[l.task].grantId)
    ensures l.task in s.frames && s.frames[l.task].Widening? && s.frames[l.task].who == who
    ensures l.task in Step(cfg, s, l).frames
    ensures SettledOn(Step(cfg, s, l).frames[l.task], who, s.frames[l.task].grantId)
  {
    hide ParseScope, UpdateGrant;
  }

  lemma WidensCandidate(cfg: Config, s: Sys, t: nat, who: Party, lo: int, hi: int, ids: set<string>)
    requires Electing(cfg, s, who, lo, hi, ids) && t in s.frames && s.frames[t].Widening? && s.frames[t].who == who
    ensures s.frames[t].grantId in ids
  {
    hide GrantsSettled, HasOlder, InWindow;
  }

  /**
   * A widening that finds its grant unrevoked returns it; that grant is the one that survives an insertion anywhere in
   * the run if and only if none of the grants live at the start or inserted is older.
   */
  lemma WideningTellsSurvivor(
      cfg: Config, q: Sys, before: seq<Label>, l: Label, after: seq<Label>, who: Party, lo: int, hi: int)
        returns (m: string)
    requires CutRun(cfg, q, before, l, after, who, lo, hi) && l.act.Widen?
    requires Unrevoked(After(cfg, q, before).rows, After(cfg, q, before).frames[l.task].grantId)
    requires Inserted(q.rows, After(cfg, Step(cfg, After(cfg, q, before), l), after).rows, who) != {}
    ensures var s, end := After(cfg, q, before), After(cfg, Step(cfg, After(cfg, q, before), l), after);
      && LiveIds(end.rows, who, hi) == {m}
      && l.task in end.frames && end.frames[l.task].Done? && end.frames[l.task].outcome.Granted?
      && end.frames[l.task].outcome.grantId == s.frames[l.task].grantId
      && (s.frames[l.task].grantId == m <==>
          !HasOlder(end.rows, LiveIds(q.rows, who, hi) + Inserted(q.rows, end.rows, who), s.frames[l.task].grantId))
  {
    hide Inv, Enabled, Step, Steady, Electing, Settling, Quiet, SteadyRun, IsRun, After, GrantsKept, Inserted, IsOldest,
      ActsFor, Approving, LiveIds, HasOlder, Unrevoked;
    QuietElects(cfg, q, who, lo, hi);
    var ids := RunElects(cfg, q, before, who, lo, hi, LiveIds(q.rows, who, hi));
    RunKeeps(cfg, q, before);
    var s := After(cfg, q, before);
    var s1 := Step(cfg, s, l);
    WidenSettles(cfg, s, l, who);
    StepKeeps(cfg, s, l);
    var ids1 := StepElects(cfg, s, l, who, lo, hi, ids);
    var ids' := RunElects(cfg, s1, after, who, lo, hi, ids1);
    var end := After(cfg, s1, after);
    InsertedCompose(s.rows, s1.rows, end.rows, who);
    KeptTransitive(s.rows.grants, s1.rows.grants, end.rows.grants);
    InsertedCompose(q.rows, s.rows, end.rows, who);
    InsertedIsNew(q.rows, end.rows, who, hi);
    m := SettledLeavesOldest(cfg, end, who, lo, hi, ids');
    SettledRun(cfg, s1, after, l.task, who, s.frames[l.task].grantId);
    SettledReturns(end.frames[l.task], who, s.frames[l.task].grantId);
    WidensCandidate(cfg, s, l.task, who, lo, hi, ids);
    assert ids' == LiveIds(q.rows, who, hi) + Inserted(q.rows, end.rows, who);
    OldestHasNoOlder(end.rows, ids', m);
  }
}
