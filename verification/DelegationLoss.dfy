/**
 * When scopes are lost. The text of a grant is written by two statements, the widening and the merge of an election,
 * and neither compares it with what it read: whatever others wrote in between is overwritten. Here, for every run:
 * what one such write drops, and that nothing is ever lost if and only if none of them drops anything.
 */
module DelegationLoss {
  import opened Wrappers
  import opened Scopes
  import opened DelegationRows
  import opened DelegationMachine
  import opened DelegationInvariant
  import opened DelegationPreservation
  import opened DelegationTraces
  import opened DelegationConvergence
  import opened DelegationAgreement

  ghost function Text(scope: string): set<string> {
    Elements(ParseScope(scope))
  }

  ghost function StoredScopes(s: Sys, id: string): set<string>
    requires id in s.rows.grants
  {
    Text(s.rows.grants[id].scope)
  }

  /** The step overwrites the text of `id`. */
  predicate Writes(s: Sys, l: Label, id: string) {
    && l.task in s.frames && Unrevoked(s.rows, id)
    && (|| (l.act.Widen? && s.frames[l.task].Widening? && s.frames[l.task].grantId == id)
        || (l.act.Merge? && s.frames[l.task].Merging? && s.frames[l.task].survivor == id))
  }

  /** With this text. */
  function WrittenText(s: Sys, l: Label): string
    requires l.task in s.frames && (s.frames[l.task].Widening? || s.frames[l.task].Merging?)
  {
    s.frames[l.task].scope
  }

  /** The step reads the text of `id` for a later write: a widening chooses it, or an election elects it. */
  predicate Reads(s: Sys, l: Label, id: string) {
    && l.task in s.frames
    && (|| (s.frames[l.task].FindingExisting? && l.act == FindExisting(Some(id)))
        || (s.frames[l.task].Converging? && l.act.Converge? && |l.act.live| > 1 && l.act.live[0] == id))
  }

  /** The call is between such a read and its write. */
  predicate WaitsToWrite(f: Frame, id: string) {
    (f.Widening? && f.grantId == id) || (f.Merging? && f.survivor == id)
  }

  // One step

  lemma WriteStep(cfg: Config, s: Sys, l: Label, id: string)
    requires Enabled(s, l) && Writes(s, l, id)
    ensures id in s.rows.grants && id in Step(cfg, s, l).rows.grants
    ensures Step(cfg, s, l).rows.grants[id].scope == WrittenText(s, l)
  {
    hide ParseScope;
  }

  lemma OtherStep(cfg: Config, s: Sys, l: Label, id: string)
    requires Enabled(s, l) && id in s.rows.grants && IsPactGrant(id) && !Writes(s, l, id)
    ensures id in Step(cfg, s, l).rows.grants && Step(cfg, s, l).rows.grants[id].scope == s.rows.grants[id].scope
  {
    hide Enabled, Step, IsPactGrant, Writes;
    if !TouchesGrants(l.act) {
      GrantsUntouched(cfg, s, l);
    } else if IsConsoleAct(l.act) {
      ConsoleKeepsText(cfg, s, l, id);
    } else {
      CallKeepsText(cfg, s, l, id);
    }
  }

  lemma ConsoleKeepsText(cfg: Config, s: Sys, l: Label, id: string)
    requires Enabled(s, l) && id in s.rows.grants && IsPactGrant(id) && IsConsoleAct(l.act)
    ensures id in Step(cfg, s, l).rows.grants && Step(cfg, s, l).rows.grants[id].scope == s.rows.grants[id].scope
  {
    hide IsPactGrant, IsSnapshot, IsMostRecent, Finds, StepRequestDevice, StepInsertCode, StepExchangeFind, StepPoll,
      StepReadGrant, StepConsume, StepIssueFirst, StepRefreshFind, StepCheckRefresh, StepSpend, StepRevokeReused,
      StepIssueNext, StepVerify, StepApproveFind, StepClaim, StepFindExisting, StepWiden, StepInsertGrant,
      StepConverge, StepMerge, StepRevokeExtra, StepBind, StepDenyFind, StepDeny;
  }

  lemma CallKeepsText(cfg: Config, s: Sys, l: Label, id: string)
    requires Enabled(s, l) && id in s.rows.grants && IsPactGrant(id) && !Writes(s, l, id)
    requires TouchesGrants(l.act) && !IsConsoleAct(l.act)
    ensures id in Step(cfg, s, l).rows.grants && Step(cfg, s, l).rows.grants[id].scope == s.rows.grants[id].scope
  {
    hide IsPactGrant, ParseScope, FormatScope, IsSnapshot, IsMostRecent, Finds, RevokeGrant, RevokeAllGrants,
      StepRequestDevice, StepInsertCode, StepExchangeFind, StepPoll, StepReadGrant, StepConsume, StepIssueFirst,
      StepRefreshFind, StepCheckRefresh, StepSpend, StepIssueNext, StepVerify, StepApproveFind, StepClaim,
      StepFindExisting, StepConverge, StepBind, StepDenyFind, StepDeny;
  }

  /** A read leaves the call waiting to write a text that has all it read. */
  lemma ReadStep(cfg: Config, s: Sys, l: Label, id: string)
    requires Inv(cfg, s) && Enabled(s, l) && Reads(s, l, id)
    ensures Moves(l, l.task) && id in s.rows.grants && l.task in Step(cfg, s, l).frames
    ensures WaitsToWrite(Step(cfg, s, l).frames[l.task], id)
    ensures StoredScopes(s, id) <= Text(Step(cfg, s, l).frames[l.task].scope)
  {
    hide Inv, IsSnapshot, IsMostRecent, ParseScope, FormatScope, Dedup, LatestExpiry, IsPactGrant, IsScopeList,
      AllTicked;
    if l.act.Converge? {
      ElectionReadsAll(s.rows, s.frames[l.task].who, s.frames[l.task].now, l.act.live);
    } else {
      ChoiceIsGrant(s.rows, s.frames[l.task].who, s.frames[l.task].now, id);
      FrameFact(cfg, s, l.task);
      ClaimFact(cfg, s, s.frames[l.task].code);
      MergedScope(s.rows.grants[id].scope, s.frames[l.task].granted);
    }
  }

  lemma ChoiceIsGrant(rows: Rows, who: Party, now: int, id: string)
    requires IsMostRecent(rows, who, now, Some(id))
    ensures id in rows.grants
  {
    hide IsPactGrant;
  }

  lemma ElectionReadsAll(rows: Rows, who: Party, now: int, live: seq<string>)
    requires IsSnapshot(rows, who, now, live)
    ensures forall id :: id in live ==> id in rows.grants
    ensures forall id :: id in live ==> Text(rows.grants[id].scope) <= Text(FormatScope(Dedup(AllScopes(rows, live))))
  {
    hide IsPactGrant, ParseScope, FormatScope, Older;
    assert forall id :: id in live ==> id in rows.grants;
    ParseFormat(Dedup(AllScopes(rows, live)));
  }

  // Writes over a trace

  /** The last step from `i` on and before `n` that writes the text of `id`. */
  ghost function LastWrite(ss: seq<Sys>, run: seq<Label>, i: nat, n: nat, id: string): (r: Option<nat>)
    requires i <= n <= |run| && |ss| == |run| + 1
    ensures r.Some? ==> i <= r.value < n && Writes(ss[r.value], run[r.value], id)
    ensures forall j :: i <= j < n && Writes(ss[j], run[j], id) ==> r.Some? && j <= r.value
  {
    if i == n then None
    else if Writes(ss[n - 1], run[n - 1], id) then Some(n - 1)
    else LastWrite(ss, run, i, n - 1, id)
  }

  /** What a grant stores is the text last written, or what it stored before. */
  lemma {:induction false} StoredIsLastWritten(cfg: Config, ss: seq<Sys>, run: seq<Label>, i: nat, n: nat, id: string)
    requires IsTrace(cfg, ss, run) && i <= n <= |run| && id in ss[i].rows.grants && IsPactGrant(id)
    ensures id in ss[n].rows.grants
    ensures
      var last := LastWrite(ss, run, i, n, id);
      ss[n].rows.grants[id].scope ==
        if last.Some? then WrittenText(ss[last.value], run[last.value]) else ss[i].rows.grants[id].scope
    decreases n
  {
    hide Enabled, Step, IsPactGrant, Writes, WrittenText;
    if i < n {
      StoredIsLastWritten(cfg, ss, run, i, n - 1, id);
      var s, l := ss[n - 1], run[n - 1];
      assert Enabled(s, l) && ss[n - 1 + 1] == Step(cfg, s, l);
      if Writes(s, l, id) {
        WriteStep(cfg, s, l, id);
      } else {
        OtherStep(cfg, s, l, id);
      }
    }
  }

  // A read and the write that goes back to it

  /** Step `n` writes what the same call read at step `i`; the call did nothing in between. */
  ghost predicate ReadThenWrite(ss: seq<Sys>, run: seq<Label>, i: nat, n: nat, id: string)
    requires |ss| == |run| + 1
  {
    && i < n < |run| && run[i].task == run[n].task
    && Reads(ss[i], run[i], id) && Writes(ss[n], run[n], id)
    && forall j :: i < j < n ==> !Moves(run[j], run[i].task)
  }

  /** The scopes the last write in between stored: what the waiting call does not know of. */
  ghost function WrittenSince(ss: seq<Sys>, run: seq<Label>, i: nat, n: nat, id: string): set<string>
    requires i < n <= |run| && |ss| == |run| + 1
  {
    var last := LastWrite(ss, run, i + 1, n, id);
    if last.Some? then Text(WrittenText(ss[last.value], run[last.value])) else {}
  }

  /**
   * In every run, a write drops exactly the scopes that the last other write of that grant since its own read stored
   * and that are not in its own text.
   */
  lemma WriteDropsExactly(cfg: Config, ss: seq<Sys>, run: seq<Label>, i: nat, n: nat, id: string)
    requires IsTrace(cfg, ss, run) && Inv(cfg, ss[0]) && ReadThenWrite(ss, run, i, n, id) && IsPactGrant(id)
    ensures id in ss[n].rows.grants && id in ss[n + 1].rows.grants
    ensures StoredScopes(ss[n + 1], id) == Text(WrittenText(ss[n], run[n]))
    ensures StoredScopes(ss[n], id) - StoredScopes(ss[n + 1], id)
      == WrittenSince(ss, run, i, n, id) - Text(WrittenText(ss[n], run[n]))
  {
    hide Inv, Enabled, Step, IsPactGrant, Reads, Writes, ParseScope, Moves;
    TraceInv(cfg, ss, run, i);
    assert Enabled(ss[i], run[i]) && ss[i + 1] == Step(cfg, ss[i], run[i]);
    assert Enabled(ss[n], run[n]) && ss[n + 1] == Step(cfg, ss[n], run[n]);
    ReadStep(cfg, ss[i], run[i], id);
    ReadWritesNothing(ss[i], run[i], id);
    OtherStep(cfg, ss[i], run[i], id);
    FrameWaits(cfg, ss, run, i + 1, n, run[i].task);
    StoredIsLastWritten(cfg, ss, run, i + 1, n, id);
    WriteStep(cfg, ss[n], run[n], id);
  }

  lemma ReadWritesNothing(s: Sys, l: Label, id: string)
    requires Reads(s, l, id)
    ensures !Writes(s, l, id)
  {
  }

  /** Who waits to write in a run that started with none waiting, read in that run and has done nothing since. */
  lemma {:induction false} WaitingHasRead(cfg: Config, ss: seq<Sys>, run: seq<Label>, n: nat, t: nat, id: string)
    returns (i: nat)
    requires IsTrace(cfg, ss, run) && Inv(cfg, ss[0]) && n <= |run| && t in ss[n].frames
    requires WaitsToWrite(ss[n].frames[t], id)
    requires t in ss[0].frames && ss[0].frames[t] == ss[n].frames[t] ==> !WaitsToWrite(ss[0].frames[t], id)
    ensures i < n && run[i].task == t && Reads(ss[i], run[i], id)
    ensures forall j :: i < j < n ==> !Moves(run[j], t)
  {
    hide Inv, Enabled, Step, LogGrows, GrantsKept, TokensKept, NewIsOwn, IsEnvironment, Reads, WaitsToWrite;
    var s, l := ss[n - 1], run[n - 1];
    assert Enabled(s, l) && ss[n - 1 + 1] == Step(cfg, s, l);
    TraceInv(cfg, ss, run, n - 1);
    StepKeeps(cfg, s, l);
    if Moves(l, t) {
      StartsWaiting(cfg, s, l, id);
      i := n - 1;
    } else {
      i := WaitingHasRead(cfg, ss, run, n - 1, t, id);
    }
  }

  lemma StartsWaiting(cfg: Config, s: Sys, l: Label, id: string)
    requires Enabled(s, l) && !IsEnvironment(l.act) && l.task in Step(cfg, s, l).frames
    requires WaitsToWrite(Step(cfg, s, l).frames[l.task], id)
    ensures Reads(s, l, id)
  {
    hide ParseScope, FormatScope, IsSnapshot, IsMostRecent, Finds, Keep, AllScopes, Dedup, Usable, Sign, InScopes,
      LatestExpiry, IsPactGrant, CanTransition, CanUse, Unrevoked,
      InsertDevice, DeleteDevicesExpiredBefore, MarkPolled, TransitionDevice, SetDeviceGrant, InsertGrant, UpdateGrant,
      RevokeGrantById, RevokeGrant, RevokeAllGrants, InsertRefreshToken, UseRefreshToken;
  }

  // One grant over a run

  /** A write over others' scopes: read at `i`, written at `n`, and in between something was stored that it drops. */
  ghost predicate StaleWrite(ss: seq<Sys>, run: seq<Label>, i: nat, n: nat, id: string)
    requires |ss| == |run| + 1
  {
    ReadThenWrite(ss, run, i, n, id) && !(WrittenSince(ss, run, i, n, id) <= Text(WrittenText(ss[n], run[n])))
  }

  /** The stored scopes of the grant do not shrink at step `k`. */
  ghost predicate KeepsAt(ss: seq<Sys>, k: nat, id: string)
    requires k + 1 < |ss|
  {
    id in ss[k].rows.grants && id in ss[k + 1].rows.grants ==> StoredScopes(ss[k], id) <= StoredScopes(ss[k + 1], id)
  }

  /**
   * In every run that starts with no approval waiting to write this grant, the grant never loses a scope if and only if
   * no write drops what others wrote between its read and itself.
   */
  lemma GrantKeepsScopesExactly(cfg: Config, ss: seq<Sys>, run: seq<Label>, id: string)
    requires IsTrace(cfg, ss, run) && Inv(cfg, ss[0]) && IsPactGrant(id)
    requires forall t :: t in ss[0].frames ==> !WaitsToWrite(ss[0].frames[t], id)
    ensures (forall k: nat :: k < |run| ==> KeepsAt(ss, k, id)) <==>
      !(exists i: nat, n: nat :: StaleWrite(ss, run, i, n, id))
  {
    hide Inv, Enabled, Step, IsPactGrant, ParseScope, WaitsToWrite, ReadThenWrite, WrittenSince, StoredScopes,
      WrittenText;
    if i: nat, n: nat :| StaleWrite(ss, run, i, n, id) {
      ReadBefore(ss, run, i, n, id);
      WriteDropsExactly(cfg, ss, run, i, n, id);
      DropsNothing(StoredScopes(ss[n], id), StoredScopes(ss[n + 1], id), WrittenSince(ss, run, i, n, id));
      assert !KeepsAt(ss, n, id);
    }
    if !(exists i: nat, n: nat :: StaleWrite(ss, run, i, n, id)) {
      forall k: nat | k < |run|
        ensures KeepsAt(ss, k, id)
      {
        if id in ss[k].rows.grants { NotStaleKeeps(cfg, ss, run, k, id); }
      }
    }
  }

  lemma DropsNothing(before: set<string>, after: set<string>, since: set<string>)
    requires before - after == since - after
    ensures before <= after <==> since <= after
  {
    forall x
      ensures x in before && x !in after <==> x in since && x !in after
    {
      assert x in before - after <==> x in since - after;
    }
  }

  lemma ReadBefore(ss: seq<Sys>, run: seq<Label>, i: nat, n: nat, id: string)
    requires |ss| == |run| + 1 && ReadThenWrite(ss, run, i, n, id)
    ensures i < n < |run|
  {
    hide Reads, Writes, Moves;
  }

  lemma NotStaleKeeps(cfg: Config, ss: seq<Sys>, run: seq<Label>, k: nat, id: string)
    requires IsTrace(cfg, ss, run) && Inv(cfg, ss[0]) && IsPactGrant(id) && k < |run| && id in ss[k].rows.grants
    requires forall t :: t in ss[0].frames ==> !WaitsToWrite(ss[0].frames[t], id)
    requires !(exists i: nat, n: nat :: StaleWrite(ss, run, i, n, id))
    ensures KeepsAt(ss, k, id)
  {
    hide Inv, Enabled, Step, IsPactGrant, ParseScope, Reads, Moves, WrittenSince, WrittenText;
    assert Enabled(ss[k], run[k]) && ss[k + 1] == Step(cfg, ss[k], run[k]);
    if Writes(ss[k], run[k], id) {
      var i := WaitingHasRead(cfg, ss, run, k, run[k].task, id);
      assert ReadThenWrite(ss, run, i, k, id);
      assert !StaleWrite(ss, run, i, k, id);
      WriteDropsExactly(cfg, ss, run, i, k, id);
      DropsNothing(StoredScopes(ss[k], id), StoredScopes(ss[k + 1], id), WrittenSince(ss, run, i, k, id));
    } else {
      OtherStep(cfg, ss[k], run[k], id);
    }
  }

  // The party over a run

  /** What the live grants of the party allow together. */
  ghost function PartyScopes(s: Sys, who: Party, hi: int): set<string> {
    ScopesOf(s.rows, LiveIds(s.rows, who, hi))
  }

  /** What they allow without `id`. */
  ghost function OtherScopes(s: Sys, who: Party, hi: int, id: string): set<string> {
    ScopesOf(s.rows, LiveIds(s.rows, who, hi) - {id})
  }

  /** The grant a step revokes after an election, if it is still unrevoked. */
  predicate RevokesExtra(s: Sys, l: Label, id: string) {
    && l.act.RevokeExtra? && l.task in s.frames && s.frames[l.task].RevokingExtras? && s.frames[l.task].extras != []
    && s.frames[l.task].extras[0] == id && Unrevoked(s.rows, id)
  }

  /** What the step takes from its grant is still allowed: by the new text, or by another live grant. */
  ghost predicate Covers(s: Sys, l: Label, who: Party, hi: int) {
    && (forall id :: Writes(s, l, id) ==> StoredScopes(s, id) <= Text(WrittenText(s, l)) + OtherScopes(s, who, hi, id))
    && (forall id :: RevokesExtra(s, l, id) ==> StoredScopes(s, id) <= OtherScopes(s, who, hi, id))
  }

  lemma ScopesSplit(rows: Rows, live: set<string>, id: string)
    requires id in live && id in rows.grants
    ensures ScopesOf(rows, live) == Text(rows.grants[id].scope) + ScopesOf(rows, live - {id})
  {
    hide ParseScope;
  }

  lemma SameScopes(rows: Rows, rows': Rows, ids: set<string>)
    requires forall id :: id in ids ==>
      id in rows.grants && id in rows'.grants && rows'.grants[id].scope == rows.grants[id].scope
    ensures ScopesOf(rows', ids) == ScopesOf(rows, ids)
  {
    hide ParseScope;
  }

  /** One live grant gets another text. */
  lemma UpdateScopes(rows: Rows, who: Party, lo: int, hi: int, ids: set<string>, id: string, scope: string,
      expiresAt: int, at: int)
    requires GrantsSettled(rows, who, lo, hi, ids) && id in ids && expiresAt > hi && Unrevoked(rows, id)
    ensures var live, rows' := LiveIds(rows, who, hi), UpdateGrant(rows, id, scope, expiresAt, at);
      && id in live && LiveIds(rows', who, hi) == live
      && ScopesOf(rows, live) == Text(rows.grants[id].scope) + ScopesOf(rows, live - {id})
      && ScopesOf(rows', live) == Text(scope) + ScopesOf(rows, live - {id})
  {
    hide HasOlder, IsPactGrant, ParseScope, LiveIds, GrantsSettled;
    var live, rows' := LiveIds(rows, who, hi), UpdateGrant(rows, id, scope, expiresAt, at);
    SettledWindow(rows, who, lo, hi, ids);
    LiveInWindow(rows, who, lo, hi, ids, hi);
    UpdateLive(rows, who, lo, hi, ids, id, scope, expiresAt, at);
    ScopesSplit(rows, live, id);
    ScopesSplit(rows', live, id);
    SameScopes(rows, rows', live - {id});
  }

  lemma SettledWindow(rows: Rows, who: Party, lo: int, hi: int, ids: set<string>)
    requires GrantsSettled(rows, who, lo, hi, ids)
    ensures lo <= hi && forall id :: id in ids ==> id in rows.grants
  {
    hide HasOlder, IsPactGrant;
  }

  /** One live grant goes. */
  lemma RevokeScopes(rows: Rows, who: Party, lo: int, hi: int, ids: set<string>, id: string, at: int)
    requires GrantsSettled(rows, who, lo, hi, ids) && id in ids && HasOlder(rows, ids, id) && Unrevoked(rows, id)
    ensures var live, rows' := LiveIds(rows, who, hi), RevokeGrantById(rows, id, at);
      && id in live && LiveIds(rows', who, hi) == live - {id}
      && ScopesOf(rows, live) == Text(rows.grants[id].scope) + ScopesOf(rows, live - {id})
      && ScopesOf(rows', live - {id}) == ScopesOf(rows, live - {id})
  {
    hide HasOlder, IsPactGrant, ParseScope, LiveIds, GrantsSettled;
    var live, rows' := LiveIds(rows, who, hi), RevokeGrantById(rows, id, at);
    SettledWindow(rows, who, lo, hi, ids);
    RevokeSettles(rows, who, lo, hi, ids, id, at);
    LiveInWindow(rows, who, lo, hi, ids, hi);
    LiveInWindow(rows', who, lo, hi, ids, hi);
    ScopesSplit(rows, live, id);
    SameScopes(rows, rows', live - {id});
  }

  /** A widening or a merge keeps what the party may do exactly if it covers what it overwrites. */
  lemma WriteKeepsExactly(cfg: Config, s: Sys, l: Label, who: Party, lo: int, hi: int, ids: set<string>, id: string)
    requires Electing(cfg, s, who, lo, hi, ids) && Enabled(s, l) && ActsFor(s, l, who) && Writes(s, l, id)
    ensures PartyScopes(s, who, hi) <= PartyScopes(Step(cfg, s, l), who, hi) <==>
      StoredScopes(s, id) <= Text(WrittenText(s, l)) + OtherScopes(s, who, hi, id)
  {
    hide Electing, ParseScope, LiveIds, ScopesOf, UpdateGrant, IsPactGrant;
    var f := s.frames[l.task];
    WriterKnows(cfg, s, l, who, lo, hi, ids, id);
    var expiresAt := if f.Widening? then f.now + cfg.grantTtl * 1000 else f.expiresAt;
    UpdateScopes(s.rows, who, lo, hi, ids, id, f.scope, expiresAt, f.now);
  }

  lemma WriterKnows(cfg: Config, s: Sys, l: Label, who: Party, lo: int, hi: int, ids: set<string>, id: string)
    requires Electing(cfg, s, who, lo, hi, ids) && ActsFor(s, l, who) && Writes(s, l, id)
    ensures var f := s.frames[l.task];
      && GrantsSettled(s.rows, who, lo, hi, ids) && id in ids
      && (if f.Widening? then f.now + cfg.grantTtl * 1000 > hi else f.expiresAt > hi)
  {
    hide HasOlder, GrantsSettled, ParseScope;
  }

  lemma RevokeKeepsExactly(cfg: Config, s: Sys, l: Label, who: Party, lo: int, hi: int, ids: set<string>, id: string)
    requires Electing(cfg, s, who, lo, hi, ids) && Enabled(s, l) && ActsFor(s, l, who) && RevokesExtra(s, l, id)
    ensures PartyScopes(s, who, hi) <= PartyScopes(Step(cfg, s, l), who, hi) <==>
      StoredScopes(s, id) <= OtherScopes(s, who, hi, id)
  {
    hide Electing, ParseScope, LiveIds, ScopesOf, RevokeGrantById, IsPactGrant;
    RevokerKnows(cfg, s, l, who, lo, hi, ids, id);
    RevokeScopes(s.rows, who, lo, hi, ids, id, s.frames[l.task].now);
  }

  lemma RevokerKnows(cfg: Config, s: Sys, l: Label, who: Party, lo: int, hi: int, ids: set<string>, id: string)
    requires Electing(cfg, s, who, lo, hi, ids) && ActsFor(s, l, who) && RevokesExtra(s, l, id)
    ensures GrantsSettled(s.rows, who, lo, hi, ids) && id in ids && HasOlder(s.rows, ids, id)
  {
    hide HasOlder, GrantsSettled, ParseScope;
    assert id in s.frames[l.task].extras;
  }

  /** Every other step of an approval, and of anybody else, takes nothing away. */
  lemma OtherKeeps(cfg: Config, s: Sys, l: Label, who: Party, lo: int, hi: int, ids: set<string>)
    requires Inv(cfg, s) && Electing(cfg, s, who, lo, hi, ids) && Enabled(s, l) && Steady(cfg, s, l, who, lo, hi)
    requires ActsFor(s, l, who) ==> forall id :: !Writes(s, l, id) && !RevokesExtra(s, l, id)
    ensures PartyScopes(s, who, hi) <= PartyScopes(Step(cfg, s, l), who, hi)
  {
    hide Inv, Enabled, Step, Electing, Steady, LiveIds, ScopesOf, SameGrants, ActsFor, IsPactGrant;
    if !ActsFor(s, l, who) {
      OthersLeaveGrants(cfg, s, l, who, lo, hi);
      OthersKeepScopes(s.rows, Step(cfg, s, l).rows, who, hi);
    } else if l.act.InsertNewGrant? {
      StepIsInsert(cfg, s, l, who);
      FlightInWindow(cfg, s, l.task, who, lo, hi, ids);
      InsertedScopes(cfg, s, l.task, s.frames[l.task], l.act.grantId, who, lo, hi);
    } else {
      NoWriteNoChange(cfg, s, l, who);
      SameLive(s.rows, Step(cfg, s, l).rows, who, hi);
    }
  }

  lemma NoWriteNoChange(cfg: Config, s: Sys, l: Label, who: Party)
    requires Enabled(s, l) && ActsFor(s, l, who) && !l.act.InsertNewGrant?
    requires forall id :: !Writes(s, l, id) && !RevokesExtra(s, l, id)
    ensures Step(cfg, s, l).rows.grants == s.rows.grants
  {
    hide ParseScope, FormatScope, IsSnapshot, IsMostRecent, Dedup, AllScopes, LatestExpiry, IsPactGrant;
    if l.act.Widen? { assert !Writes(s, l, s.frames[l.task].grantId); }
    if l.act.Merge? { assert !Writes(s, l, s.frames[l.task].survivor); }
    if l.act.RevokeExtra? { assert !RevokesExtra(s, l, s.frames[l.task].extras[0]); }
  }

  lemma SameLive(rows: Rows, rows': Rows, who: Party, hi: int)
    requires rows'.grants == rows.grants
    ensures ScopesOf(rows', LiveIds(rows', who, hi)) == ScopesOf(rows, LiveIds(rows, who, hi))
  {
    hide ParseScope, IsPactGrant;
    assert LiveIds(rows', who, hi) == LiveIds(rows, who, hi);
  }

  /** A step that does not act for the party takes nothing from it, whatever it writes. */
  ghost predicate CoversParty(s: Sys, l: Label, who: Party, hi: int) {
    ActsFor(s, l, who) ==> Covers(s, l, who, hi)
  }

  lemma StepKeepsExactly(cfg: Config, s: Sys, l: Label, who: Party, lo: int, hi: int, ids: set<string>)
    requires Inv(cfg, s) && Electing(cfg, s, who, lo, hi, ids) && Enabled(s, l) && Steady(cfg, s, l, who, lo, hi)
    ensures PartyScopes(s, who, hi) <= PartyScopes(Step(cfg, s, l), who, hi) <==> CoversParty(s, l, who, hi)
  {
    hide Inv, Enabled, Step, Electing, Steady, ActsFor, PartyScopes, OtherScopes, StoredScopes, Text, Writes,
      RevokesExtra, WrittenText;
    if !ActsFor(s, l, who) || forall id :: !Writes(s, l, id) && !RevokesExtra(s, l, id) {
      OtherKeeps(cfg, s, l, who, lo, hi, ids);
    } else if id :| Writes(s, l, id) {
      OneTarget(s, l, id);
      WriteKeepsExactly(cfg, s, l, who, lo, hi, ids, id);
    } else {
      var id :| RevokesExtra(s, l, id);
      OneTarget(s, l, id);
      RevokeKeepsExactly(cfg, s, l, who, lo, hi, ids, id);
    }
  }

  lemma OneTarget(s: Sys, l: Label, id: string)
    requires Writes(s, l, id) || RevokesExtra(s, l, id)
    ensures forall other :: Writes(s, l, other) || RevokesExtra(s, l, other) ==> other == id
    ensures Writes(s, l, id) ==> !RevokesExtra(s, l, id)
  {
  }

  ghost predicate SteadyTrace(cfg: Config, ss: seq<Sys>, run: seq<Label>, who: Party, lo: int, hi: int) {
    IsTrace(cfg, ss, run) && forall k :: 0 <= k < |run| ==> Steady(cfg, ss[k], run[k], who, lo, hi)
  }

  lemma {:induction false} TraceElects(cfg: Config, ss: seq<Sys>, run: seq<Label>, who: Party, lo: int, hi: int, n: nat)
    returns (ids: set<string>)
    requires SteadyTrace(cfg, ss, run, who, lo, hi) && Inv(cfg, ss[0]) && Quiet(cfg, ss[0], who, lo, hi) && n < |ss|
    ensures Inv(cfg, ss[n]) && Electing(cfg, ss[n], who, lo, hi, ids)
  {
    hide Inv, Enabled, Step, Steady, Electing, Settling, Quiet, Inserted;
    if n == 0 {
      QuietElects(cfg, ss[0], who, lo, hi);
      ids := LiveIds(ss[0].rows, who, hi);
    } else {
      ids := TraceElects(cfg, ss, run, who, lo, hi, n - 1);
      assert Enabled(ss[n - 1], run[n - 1]) && ss[n - 1 + 1] == Step(cfg, ss[n - 1], run[n - 1]);
      ids := StepElects(cfg, ss[n - 1], run[n - 1], who, lo, hi, ids);
      StepKeeps(cfg, ss[n - 1], run[n - 1]);
    }
  }

  lemma WriterHasText(s: Sys, l: Label, id: string)
    requires Writes(s, l, id)
    ensures l.task in s.frames && (s.frames[l.task].Widening? || s.frames[l.task].Merging?)
  {
  }

  /** What a write takes that it does not write itself is what was written since it read. */
  lemma WriteCoversExactly(cfg: Config, ss: seq<Sys>, run: seq<Label>, i: nat, n: nat, id: string, who: Party, hi: int)
    requires IsTrace(cfg, ss, run) && Inv(cfg, ss[0]) && ReadThenWrite(ss, run, i, n, id) && IsPactGrant(id)
    ensures Covers(ss[n], run[n], who, hi) <==> WriteCovers(ss, run, i, n, id, who, hi)
  {
    hide Inv, Enabled, Step, IsPactGrant, Reads, Moves, OtherScopes, ParseScope, WrittenSince, WrittenText, Writes,
      RevokesExtra;
    WriteDropsExactly(cfg, ss, run, i, n, id);
    WriterHasText(ss[n], run[n], id);
    OneTarget(ss[n], run[n], id);
    var own, others := Text(WrittenText(ss[n], run[n])), OtherScopes(ss[n], who, hi, id);
    forall x
      ensures x in StoredScopes(ss[n], id) && x !in own <==> x in WrittenSince(ss, run, i, n, id) && x !in own
    {
      assert x in StoredScopes(ss[n], id) - own <==> x in WrittenSince(ss, run, i, n, id) - own;
    }
  }

  /**
   * What others stored in the grant between the read and the write is in the text written, or in another live grant.
   */
  ghost predicate WriteCovers(ss: seq<Sys>, run: seq<Label>, i: nat, n: nat, id: string, who: Party, hi: int)
    requires |ss| == |run| + 1 && ReadThenWrite(ss, run, i, n, id)
  {
    WrittenSince(ss, run, i, n, id) <= Text(WrittenText(ss[n], run[n])) + OtherScopes(ss[n], who, hi, id)
  }

  /** What a grant revoked after an election stores is in another live grant. */
  ghost predicate ExtraCovers(s: Sys, l: Label, who: Party, hi: int) {
    forall id :: RevokesExtra(s, l, id) ==> StoredScopes(s, id) <= OtherScopes(s, who, hi, id)
  }

  /** Every write of the party's approvals at step `n` covers, whenever it read. */
  ghost predicate WritesCover(ss: seq<Sys>, run: seq<Label>, n: nat, who: Party, hi: int)
    requires |ss| == |run| + 1
  {
    forall i: nat, id: string :: ReadThenWrite(ss, run, i, n, id) ==> WriteCovers(ss, run, i, n, id, who, hi)
  }

  lemma CoversSinceRead(cfg: Config, ss: seq<Sys>, run: seq<Label>, who: Party, lo: int, hi: int, n: nat)
    requires SteadyTrace(cfg, ss, run, who, lo, hi) && Inv(cfg, ss[0]) && Quiet(cfg, ss[0], who, lo, hi) && n < |run|
    requires ActsFor(ss[n], run[n], who)
    ensures Covers(ss[n], run[n], who, hi) <==> WritesCover(ss, run, n, who, hi) && ExtraCovers(ss[n], run[n], who, hi)
  {
    hide Inv, Enabled, Step, Steady, Electing, Quiet, Reads, Moves, OtherScopes, StoredScopes, Text, WrittenSince,
      WrittenText, Writes, RevokesExtra, WriteCovers, ActsFor, IsPactGrant;
    if id :| Writes(ss[n], run[n], id) {
      var ids := TraceElects(cfg, ss, run, who, lo, hi, n);
      WriterIsPact(cfg, ss[n], run[n], who, lo, hi, ids, id);
      OneTarget(ss[n], run[n], id);
      NotWaitingAtStart(cfg, ss, run, who, lo, hi, n, id);
      var i := WaitingHasRead(cfg, ss, run, n, run[n].task, id);
      assert ReadThenWrite(ss, run, i, n, id);
      forall j: nat, other: string | ReadThenWrite(ss, run, j, n, other)
        ensures other == id && (Covers(ss[n], run[n], who, hi) <==> WriteCovers(ss, run, j, n, other, who, hi))
      {
        WriteCoversExactly(cfg, ss, run, j, n, other, who, hi);
      }
    }
  }

  lemma WriterIsPact(cfg: Config, s: Sys, l: Label, who: Party, lo: int, hi: int, ids: set<string>, id: string)
    requires Electing(cfg, s, who, lo, hi, ids) && ActsFor(s, l, who) && Writes(s, l, id)
    ensures IsPactGrant(id)
  {
    hide Electing, Writes, ActsFor, IsPactGrant;
    WriterKnows(cfg, s, l, who, lo, hi, ids, id);
    assert IsGrantOf(s.rows.grants, id, who) by { hide IsGrantOf, HasOlder; }
  }

  lemma NotWaitingAtStart(cfg: Config, ss: seq<Sys>, run: seq<Label>, who: Party, lo: int, hi: int, n: nat, id: string)
    requires |ss| == |run| + 1 && n < |run| && Quiet(cfg, ss[0], who, lo, hi)
    requires ActsFor(ss[n], run[n], who) && Writes(ss[n], run[n], id)
    ensures var t := run[n].task;
      && t in ss[n].frames && WaitsToWrite(ss[n].frames[t], id)
      && (t in ss[0].frames ==> ss[0].frames[t] != ss[n].frames[t])
  {
    hide NoneExpires, InWindow;
  }

  /**
   * Over every steady run from a quiet state: what the live grants of the party allow together never shrinks if and
   * only if every write by its approvals leaves what others stored in the grant since the read behind it, and every
   * revocation of an extra what the extra stores, to the text it writes or to another live grant.
   */
  lemma NothingLostExactly(cfg: Config, ss: seq<Sys>, run: seq<Label>, who: Party, lo: int, hi: int)
    requires SteadyTrace(cfg, ss, run, who, lo, hi) && Inv(cfg, ss[0]) && Quiet(cfg, ss[0], who, lo, hi)
    ensures
      (forall a: nat, b: nat :: a <= b < |ss| ==> PartyScopes(ss[a], who, hi) <= PartyScopes(ss[b], who, hi)) <==>
      (forall n: nat :: n < |run| && ActsFor(ss[n], run[n], who) ==>
         WritesCover(ss, run, n, who, hi) && ExtraCovers(ss[n], run[n], who, hi))
  {
    hide Inv, Enabled, Step, Steady, Electing, Quiet, PartyScopes, Covers, WritesCover, ExtraCovers, ActsFor;
    forall k: nat | k < |run|
      ensures PartyScopes(ss[k], who, hi) <= PartyScopes(ss[k + 1], who, hi) <==>
        (ActsFor(ss[k], run[k], who) ==> WritesCover(ss, run, k, who, hi) && ExtraCovers(ss[k], run[k], who, hi))
    {
      var ids := TraceElects(cfg, ss, run, who, lo, hi, k);
      StepKeepsExactly(cfg, ss[k], run[k], who, lo, hi, ids);
      if ActsFor(ss[k], run[k], who) { CoversSinceRead(cfg, ss, run, who, lo, hi, k); }
    }
    AlwaysAscending(ss, who, hi);
    if NeverShrinks(ss, who, hi) {
      forall n: nat | n < |run| && ActsFor(ss[n], run[n], who)
        ensures WritesCover(ss, run, n, who, hi) && ExtraCovers(ss[n], run[n], who, hi)
      {
        assert PartyScopes(ss[n], who, hi) <= PartyScopes(ss[n + 1], who, hi);
      }
    }
  }

  ghost predicate NeverShrinks(ss: seq<Sys>, who: Party, hi: int) {
    forall k: nat :: k + 1 < |ss| ==> PartyScopes(ss[k], who, hi) <= PartyScopes(ss[k + 1], who, hi)
  }

  lemma AlwaysAscending(ss: seq<Sys>, who: Party, hi: int)
    ensures NeverShrinks(ss, who, hi) <==>
      forall a: nat, b: nat :: a <= b < |ss| ==> PartyScopes(ss[a], who, hi) <= PartyScopes(ss[b], who, hi)
  {
    hide PartyScopes;
    if NeverShrinks(ss, who, hi) {
      forall a: nat, b: nat | a <= b < |ss|
        ensures PartyScopes(ss[a], who, hi) <= PartyScopes(ss[b], who, hi)
      {
        Ascending(ss, who, hi, a, b);
      }
    }
    if forall a: nat, b: nat :: a <= b < |ss| ==> PartyScopes(ss[a], who, hi) <= PartyScopes(ss[b], who, hi) {
      forall k: nat | k + 1 < |ss|
        ensures PartyScopes(ss[k], who, hi) <= PartyScopes(ss[k + 1], who, hi)
      {
        var next: nat := k + 1;
        assert PartyScopes(ss[k], who, hi) <= PartyScopes(ss[next], who, hi);
      }
    }
  }

  lemma {:induction false} Ascending(ss: seq<Sys>, who: Party, hi: int, a: nat, b: nat)
    requires a <= b < |ss| && NeverShrinks(ss, who, hi)
    ensures PartyScopes(ss[a], who, hi) <= PartyScopes(ss[b], who, hi)
    decreases b
  {
    hide PartyScopes;
    if a < b {
      Ascending(ss, who, hi, a, b - 1);
      assert PartyScopes(ss[b - 1], who, hi) <= PartyScopes(ss[b - 1 + 1], who, hi);
    }
  }

  // Two ways to lose what a single widening added

  /**
   * An election reads the live grants, an approval widens the oldest of them, and then the election writes what it
   * read: the approval is told scopes that its grant no longer has, unless the election read them all somewhere.
   */
  lemma MergeOverwritesWidening(cfg: Config, s: Sys, t: nat, u: nat, live: seq<string>)
    requires t != u && t in s.frames && u in s.frames && s.frames[t].Converging? && s.frames[u].Widening?
    requires IsSnapshot(s.rows, s.frames[t].who, s.frames[t].now, live) && |live| > 1
    requires s.frames[u].who == s.frames[t].who && s.frames[u].grantId == live[0]
    ensures (forall id :: id in live ==> id in s.rows.grants)
      && var s1 := StepConverge(s, t, s.frames[t], live);
      var s2 := StepWiden(cfg, s1, u, s1.frames[u]);
      var s3 := StepMerge(s2, t, s2.frames[t]);
      && live[0] in s2.rows.grants && StoredScopes(s2, live[0]) == Text(s.frames[u].scope)
      && s2.frames[u].Binding? && s2.frames[u].grantId == live[0]
        && Elements(s2.frames[u].scopes) == Text(s.frames[u].scope)
      && live[0] in s3.rows.grants && StoredScopes(s3, live[0]) == ScopesOf(s.rows, Elements(live))
      && (StoredScopes(s2, live[0]) <= StoredScopes(s3, live[0]) <==>
          Text(s.frames[u].scope) <= ScopesOf(s.rows, Elements(live)))
  {
    hide ParseScope, FormatScope, Dedup, IsPactGrant, Older, AllScopes, LatestExpiry, IsSnapshot, ScopesOf, LiveIds;
    SnapshotIsOfParty(s.rows, s.frames[t].who, s.frames[t].now, live);
    SnapshotText(s.rows, s.frames[t].who, s.frames[t].now, live);
    HeadUnrevoked(s.rows, s.frames[t].who, s.frames[t].now, live, 0);
  }

  lemma SnapshotText(rows: Rows, who: Party, now: int, live: seq<string>)
    requires IsSnapshot(rows, who, now, live) && forall id :: id in live ==> id in rows.grants
    ensures Text(FormatScope(Dedup(AllScopes(rows, live)))) == ScopesOf(rows, Elements(live))
  {
    hide ParseScope, FormatScope, IsPactGrant, Older;
    ParseFormat(Dedup(AllScopes(rows, live)));
  }

  lemma HeadUnrevoked(rows: Rows, who: Party, now: int, live: seq<string>, i: nat)
    requires IsSnapshot(rows, who, now, live) && i < |live|
    ensures Unrevoked(rows, live[i])
  {
    hide IsPactGrant, Older;
    assert live[i] in live;
  }

  /**
   * Or the approval widens a grant that the election has listed as an extra: the grant is revoked with what was added
   * to it, and the oldest one gets what the election had read.
   */
  lemma WidenedExtraRevoked(cfg: Config, s: Sys, t: nat, u: nat, live: seq<string>)
    requires t != u && t in s.frames && u in s.frames && s.frames[t].Converging? && s.frames[u].Widening?
    requires IsSnapshot(s.rows, s.frames[t].who, s.frames[t].now, live) && |live| == 2
    requires s.frames[u].who == s.frames[t].who && s.frames[u].grantId == live[1]
    ensures (forall id :: id in live ==> id in s.rows.grants)
      && var s1 := StepConverge(s, t, s.frames[t], live);
      var s2 := StepWiden(cfg, s1, u, s1.frames[u]);
      var s3 := StepMerge(s2, t, s2.frames[t]);
      var s4 := StepRevokeExtra(s3, t, s3.frames[t]);
      && s4.frames[u].Binding? && s4.frames[u].grantId == live[1]
        && Elements(s4.frames[u].scopes) == Text(s.frames[u].scope)
      && !Unrevoked(s4.rows, live[1])
      && s4.frames[t].Binding? && s4.frames[t].grantId == live[0]
      && live[0] in s4.rows.grants && StoredScopes(s4, live[0]) == ScopesOf(s.rows, Elements(live))
  {
    hide ParseScope, FormatScope, Dedup, IsPactGrant, Older, AllScopes, LatestExpiry, IsSnapshot, ScopesOf, LiveIds;
    SnapshotIsOfParty(s.rows, s.frames[t].who, s.frames[t].now, live);
    SnapshotText(s.rows, s.frames[t].who, s.frames[t].now, live);
    SnapshotDistinct(s.rows, s.frames[t].who, s.frames[t].now, live);
    HeadUnrevoked(s.rows, s.frames[t].who, s.frames[t].now, live, 0);
    HeadUnrevoked(s.rows, s.frames[t].who, s.frames[t].now, live, 1);
  }

  lemma SnapshotDistinct(rows: Rows, who: Party, now: int, live: seq<string>)
    requires IsSnapshot(rows, who, now, live) && |live| == 2
    ensures live[0] != live[1]
  {
    hide IsPactGrant;
    OlderIsStrict(rows, live[0], live[1], live[0]);
  }
}
