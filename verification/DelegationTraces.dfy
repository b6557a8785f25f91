/**
 * Runs with all their states. A trace lists the states a run goes through, so that a property of a state can name the
 * step that brought it about.
 */
module DelegationTraces {
  import opened DelegationRows
  import opened DelegationMachine
  import opened DelegationInvariant
  import opened DelegationPreservation

  ghost predicate IsTrace(cfg: Config, ss: seq<Sys>, run: seq<Label>) {
    |ss| == |run| + 1 && forall j :: 0 <= j < |run| ==> Enabled(ss[j], run[j]) && ss[j + 1] == Step(cfg, ss[j], run[j])
  }

  ghost function TraceOf(cfg: Config, s: Sys, run: seq<Label>): (ss: seq<Sys>)
    requires IsRun(cfg, s, run)
    ensures |ss| == |run| + 1 && ss[0] == s
    decreases |run|
  {
    if run == [] then [s] else [s] + TraceOf(cfg, Step(cfg, s, run[0]), run[1..])
  }

  /** A run is its trace, so what holds of traces holds of runs. */
  lemma {:induction false} RunIsTrace(cfg: Config, s: Sys, run: seq<Label>)
    requires IsRun(cfg, s, run)
    ensures IsTrace(cfg, TraceOf(cfg, s, run), run) && TraceOf(cfg, s, run)[|run|] == After(cfg, s, run)
    decreases |run|
  {
    hide Enabled, Step;
    if run != [] {
      RunIsTrace(cfg, Step(cfg, s, run[0]), run[1..]);
      var rest := TraceOf(cfg, Step(cfg, s, run[0]), run[1..]);
      assert forall j :: 0 < j < |run| ==> run[j] == run[1..][j - 1] && TraceOf(cfg, s, run)[j] == rest[j - 1];
    }
  }

  lemma {:induction false} TraceInv(cfg: Config, ss: seq<Sys>, run: seq<Label>, n: nat)
    requires IsTrace(cfg, ss, run) && Inv(cfg, ss[0]) && n < |ss|
    ensures Inv(cfg, ss[n])
  {
    hide Inv, Enabled, Step;
    if n > 0 {
      TraceInv(cfg, ss, run, n - 1);
      assert Enabled(ss[n - 1], run[n - 1]) && ss[n - 1 + 1] == Step(cfg, ss[n - 1], run[n - 1]);
      StepKeeps(cfg, ss[n - 1], run[n - 1]);
    }
  }

  /** A step of this call, not of a console. */
  predicate Moves(l: Label, t: nat) {
    !IsEnvironment(l.act) && l.task == t
  }

  lemma {:induction false} FrameWaits(cfg: Config, ss: seq<Sys>, run: seq<Label>, i: nat, n: nat, t: nat)
    requires IsTrace(cfg, ss, run) && Inv(cfg, ss[0]) && i <= n <= |run| && t in ss[i].frames
    requires forall j :: i <= j < n ==> !Moves(run[j], t)
    ensures t in ss[n].frames && ss[n].frames[t] == ss[i].frames[t]
    decreases n
  {
    hide Inv, Enabled, Step, LogGrows, GrantsKept, TokensKept, NewIsOwn, IsEnvironment;
    if i < n {
      FrameWaits(cfg, ss, run, i, n - 1, t);
      TraceInv(cfg, ss, run, n - 1);
      assert Enabled(ss[n - 1], run[n - 1]) && ss[n - 1 + 1] == Step(cfg, ss[n - 1], run[n - 1]);
      StepKeeps(cfg, ss[n - 1], run[n - 1]);
    }
  }

  /** A frame that was not there at the start was left by the last step of its own call. */
  lemma {:induction false} LeftBy(cfg: Config, ss: seq<Sys>, run: seq<Label>, n: nat, t: nat) returns (k: nat)
    requires IsTrace(cfg, ss, run) && Inv(cfg, ss[0]) && n <= |run| && t in ss[n].frames
    requires t in ss[0].frames ==> ss[0].frames[t] != ss[n].frames[t]
    ensures k < n && Moves(run[k], t) && Enabled(ss[k], run[k]) && ss[k + 1] == Step(cfg, ss[k], run[k])
    ensures t in ss[k + 1].frames && ss[k + 1].frames[t] == ss[n].frames[t]
  {
    hide Inv, Enabled, Step, LogGrows, GrantsKept, TokensKept, NewIsOwn, IsEnvironment;
    var s, l := ss[n - 1], run[n - 1];
    assert Enabled(s, l) && ss[n - 1 + 1] == Step(cfg, s, l);
    if Moves(l, t) {
      k := n - 1;
    } else {
      TraceInv(cfg, ss, run, n - 1);
      StepKeeps(cfg, s, l);
      k := LeftBy(cfg, ss, run, n - 1, t);
    }
  }

  /** A trace from the empty tables: the whole history of its last state. */
  ghost predicate IsHistory(cfg: Config, ss: seq<Sys>, run: seq<Label>) {
    IsTrace(cfg, ss, run) && ss[0] == EMPTY
  }

  lemma HistoryInv(cfg: Config, ss: seq<Sys>, run: seq<Label>, n: nat)
    requires IsHistory(cfg, ss, run) && n <= |run|
    ensures Inv(cfg, ss[0]) && Inv(cfg, ss[n])
  {
    hide Inv, Enabled, Step;
    ReachableInv(cfg, EMPTY) by { assert IsRun(cfg, EMPTY, []) && After(cfg, EMPTY, []) == EMPTY; }
    TraceInv(cfg, ss, run, n);
  }

  /** Every reachable state has one. */
  lemma ReachableHasHistory(cfg: Config, s: Sys) returns (ss: seq<Sys>, run: seq<Label>)
    requires Reachable(cfg, s)
    ensures IsHistory(cfg, ss, run) && ss[|run|] == s
  {
    hide Enabled, Step;
    run :| IsRun(cfg, EMPTY, run) && After(cfg, EMPTY, run) == s;
    RunIsTrace(cfg, EMPTY, run);
    ss := TraceOf(cfg, EMPTY, run);
  }
}
