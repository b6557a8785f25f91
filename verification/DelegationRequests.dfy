/**
 * Device requests, user codes and polling. Over every history: where a stored code comes from and how long it lasts,
 * when a poll is told to slow down, when a code is deleted; and what an account may type for a user code.
 */
module DelegationRequests {
  import opened Wrappers
  import opened Scopes
  import opened DelegationRows
  import opened DelegationMachine
  import opened DelegationInvariant
  import opened DelegationPreservation
  import opened DelegationTraces
  import opened DelegationTheorems
  import opened DelegationExchange

  // Requests

  /** Some scope is asked for, and each is configured or the name of a property every object inherits. */
  ghost predicate Acceptable(cfg: Config, scope: string) {
    ParseScope(scope) != [] && forall x :: x in ParseScope(scope) ==> x in cfg.scopes || x in INHERITED_NAMES
  }

  /** Of the rows, those stay that have not expired before `now`. */
  ghost predicate Swept(before: Rows, after: Rows, now: int) {
    && after.(devices := before.devices) == before
    && (forall c :: c in after.devices <==> c in before.devices && now <= before.devices[c].expiresAt)
    && (forall c :: c in after.devices ==> after.devices[c] == before.devices[c])
  }

  lemma RequestsExactly(cfg: Config, s: Sys, l: Label)
    requires Enabled(s, l) && l.act.RequestDevice?
    ensures l.task in Step(cfg, s, l).frames
    ensures
      var s' := Step(cfg, s, l);
      if Acceptable(cfg, l.act.scope) then
        && s'.frames[l.task] == InsertingDevice(l.act.agent, ParseScope(l.act.scope), l.act.now, l.act.code, 0)
        && Swept(s.rows, s'.rows, l.act.now)
      else s'.frames[l.task] == Done(RequestCall(l.act.agent), Failed(InvalidScope)) && s'.rows == s.rows
  {
    hide ParseScope, IsPactGrant, IsSnapshot, IsMostRecent, Finds, INHERITED_NAMES;
  }

  /** The row is stored under the first user code that is free, of at most three; then the request fails. */
  lemma InsertsExactly(cfg: Config, s: Sys, l: Label)
    requires Enabled(s, l) && l.act.InsertCode?
    ensures l.task in s.frames && s.frames[l.task].InsertingDevice? && l.task in Step(cfg, s, l).frames
    ensures
      var f, s' := s.frames[l.task], Step(cfg, s, l);
      if l.act.ok then
        && s'.frames[l.task] == Done(RequestCall(f.agent), DeviceIssued(f.code, l.act.userCode))
        && s'.rows == s.rows.(devices := s.rows.devices[f.code :=
             Device(l.act.userCode, f.agent.issuer, f.agent.sub, FormatScope(f.scopes), Pending, None, None,
                    cfg.pollInterval, None, f.now + cfg.deviceCodeTtl * 1000)])
        && forall c :: c in s.rows.devices ==> s.rows.devices[c].userCode != l.act.userCode
      else
        && s'.rows == s.rows
        && s'.frames[l.task] ==
             if f.attempt < 2 then f.(attempt := f.attempt + 1) else Done(RequestCall(f.agent), Failed(ServerError))
  {
    hide FormatScope, IsPactGrant, IsSnapshot, IsMostRecent, Finds;
  }

  lemma WhoRequested(cfg: Config, s: Sys, l: Label)
    requires Enabled(s, l) && l.task in Step(cfg, s, l).frames && Step(cfg, s, l).frames[l.task].InsertingDevice?
    requires !IsEnvironment(l.act)
    ensures l.act.RequestDevice? || l.act.InsertCode?
  {
    hide Enabled, Step;
    WhoInserts(cfg, s, l, l.task);
    if !l.act.RequestDevice? { InserterInserts(cfg, s, l); }
  }

  lemma InserterInserts(cfg: Config, s: Sys, l: Label)
    requires Enabled(s, l) && !IsEnvironment(l.act) && l.task in s.frames && s.frames[l.task].InsertingDevice?
    ensures l.act.InsertCode?
  {
    hide IsPactGrant, IsSnapshot, IsMostRecent, Finds;
  }

  /** A call about to store a code made the request at `i`. */
  ghost predicate RequestedAt(run: seq<Label>, i: nat, f: Frame) {
    && i < |run| && run[i].act.RequestDevice? && f.InsertingDevice?
    && run[i].act.agent == f.agent && run[i].act.code == f.code && run[i].act.now == f.now
    && ParseScope(run[i].act.scope) == f.scopes
  }

  lemma {:induction false} InsertingWasRequested(cfg: Config, ss: seq<Sys>, run: seq<Label>, n: nat, t: nat)
    returns (i: nat)
    requires IsHistory(cfg, ss, run) && n <= |run| && t in ss[n].frames && ss[n].frames[t].InsertingDevice?
    ensures i < n && RequestedAt(run, i, ss[n].frames[t])
  {
    hide Inv, Enabled, Step, IsEnvironment, ParseScope, FormatScope;
    HistoryInv(cfg, ss, run, n);
    var k := LeftBy(cfg, ss, run, n, t);
    MovesOwn(run[k], t);
    WhoRequested(cfg, ss[k], run[k]);
    if run[k].act.RequestDevice? {
      RequestsExactly(cfg, ss[k], run[k]);
      i := k;
    } else {
      InsertsExactly(cfg, ss[k], run[k]);
      i := InsertingWasRequested(cfg, ss, run, k, t);
    }
  }

  /**
   * Over every history, a stored code is that of a request by its agent for the same scopes; it expires the configured
   * time after the clock of that request, and its polling interval is the configured one.
   */
  lemma {:induction false} DeviceExplained(cfg: Config, ss: seq<Sys>, run: seq<Label>, n: nat, code: string)
    returns (i: nat)
    requires IsHistory(cfg, ss, run) && n <= |run| && code in ss[n].rows.devices
    ensures i < n && run[i].act.RequestDevice? && run[i].act.code == code
    ensures
      var row, asked := ss[n].rows.devices[code], run[i].act;
      && Agent(row.clientId, row.agentSub) == asked.agent && ParseScope(row.requestedScope) == ParseScope(asked.scope)
      && row.expiresAt == asked.now + cfg.deviceCodeTtl * 1000 && row.intervalSeconds == cfg.pollInterval
  {
    hide Inv, Enabled, Step, ParseScope, FormatScope;
    HistoryInv(cfg, ss, run, n - 1);
    var s, l := ss[n - 1], run[n - 1];
    assert Enabled(s, l) && ss[n - 1 + 1] == Step(cfg, s, l);
    DeviceMoves(cfg, s, l);
    if code in s.rows.devices {
      i := DeviceExplained(cfg, ss, run, n - 1, code);
    } else {
      InsertsOwnCode(cfg, s, l);
      InsertsExactly(cfg, s, l);
      i := InsertingWasRequested(cfg, ss, run, n - 1, l.task);
      ParseFormat(ParseScope(run[i].act.scope));
    }
  }

  /** Codes go only when another request is accepted, and then exactly those expired before its clock. */
  lemma CodesLeaveExactly(cfg: Config, s: Sys, l: Label, code: string)
    requires Enabled(s, l) && code in s.rows.devices
    ensures code !in Step(cfg, s, l).rows.devices <==>
      l.act.RequestDevice? && Acceptable(cfg, l.act.scope) && s.rows.devices[code].expiresAt < l.act.now
  {
    hide Enabled, Step, Acceptable;
    if l.act.RequestDevice? {
      RequestsExactly(cfg, s, l);
    } else if TouchesDevices(l.act) {
      WritesKeepCodes(cfg, s, l);
    } else {
      DevicesUntouched(cfg, s, l);
    }
  }

  lemma WritesKeepCodes(cfg: Config, s: Sys, l: Label)
    requires Enabled(s, l) && TouchesDevices(l.act) && !l.act.RequestDevice?
    ensures s.rows.devices.Keys <= Step(cfg, s, l).rows.devices.Keys
  {
    hide ParseScope, FormatScope, IsPactGrant, IsSnapshot, IsMostRecent, Finds;
  }

  // Polling

  /** Step `k` is a poll of the stored code, by the clock `at` of its call. */
  ghost predicate PollsAt(ss: seq<Sys>, run: seq<Label>, k: int, code: string, at: int) {
    && 0 <= k < |run| && |ss| == |run| + 1 && run[k].act.Poll? && run[k].task in ss[k].frames
    && ss[k].frames[run[k].task].Polling? && ss[k].frames[run[k].task].code == code
    && ss[k].frames[run[k].task].now == at && code in ss[k].rows.devices
  }

  /** And the last one before `n`. */
  ghost predicate LastPoll(ss: seq<Sys>, run: seq<Label>, k: int, n: nat, code: string, at: int) {
    k < n && PollsAt(ss, run, k, code, at) && forall j, other :: k < j < n ==> !PollsAt(ss, run, j, code, other)
  }

  /** What a step makes of the time of the last poll. */
  lemma PollOnRow(cfg: Config, s: Sys, l: Label, code: string)
    requires Inv(cfg, s) && Enabled(s, l) && code in Step(cfg, s, l).rows.devices && code in s.rows.devices
    ensures
      Step(cfg, s, l).rows.devices[code].lastPolledAt ==
        if l.act.Poll? && s.frames[l.task].code == code then Some(s.frames[l.task].now)
        else s.rows.devices[code].lastPolledAt
    ensures l.act.Poll? ==> l.task in s.frames && s.frames[l.task].Polling?
  {
    hide Inv, Enabled, Step;
    if !TouchesDevices(l.act) {
      DevicesUntouched(cfg, s, l);
    } else {
      TouchedPoll(cfg, s, l, code);
      if l.act.InsertCode? {
        InsertsExactly(cfg, s, l);
        FrameFact(cfg, s, l.task);
      }
    }
  }

  lemma TouchedPoll(cfg: Config, s: Sys, l: Label, code: string)
    requires Enabled(s, l) && code in Step(cfg, s, l).rows.devices && TouchesDevices(l.act)
    ensures l.act.Poll? ==> l.task in s.frames && s.frames[l.task].Polling?
    ensures code in s.rows.devices ==>
      Step(cfg, s, l).rows.devices[code].lastPolledAt ==
        if l.act.Poll? && s.frames[l.task].code == code then Some(s.frames[l.task].now)
        else if l.act.InsertCode? && l.act.ok && s.frames[l.task].code == code then None
        else s.rows.devices[code].lastPolledAt
  {
    hide ParseScope, FormatScope, IsPactGrant, IsSnapshot, IsMostRecent, Finds, InScopes, StepExchangeFind,
      StepReadGrant, StepIssueFirst, StepRefreshFind, StepCheckRefresh, StepSpend, StepRevokeReused, StepIssueNext,
      StepVerify, StepApproveFind, StepFindExisting, StepWiden, StepInsertGrant, StepConverge, StepMerge,
      StepRevokeExtra, StepDenyFind;
  }

  lemma {:induction false} SettledForGood(cfg: Config, ss: seq<Sys>, run: seq<Label>, i: nat, n: nat, code: string)
    requires IsTrace(cfg, ss, run) && Inv(cfg, ss[0]) && i <= n <= |run| && Settled(ss[i], code)
    ensures Settled(ss[n], code)
    decreases n
  {
    hide Inv, Enabled, Step, Settled;
    if i < n {
      SettledForGood(cfg, ss, run, i, n - 1, code);
      TraceInv(cfg, ss, run, n - 1);
      assert Enabled(ss[n - 1], run[n - 1]) && ss[n - 1 + 1] == Step(cfg, ss[n - 1], run[n - 1]);
      SettledStays(cfg, ss[n - 1], run[n - 1], code);
    }
  }

  /** A code that is new in `n + 1` has never been polled. */
  lemma NewIsUnpolled(cfg: Config, ss: seq<Sys>, run: seq<Label>, n: nat, code: string)
    requires IsHistory(cfg, ss, run) && n < |run| && code !in ss[n].rows.devices && code in ss[n + 1].rows.devices
    ensures ss[n + 1].rows.devices[code].lastPolledAt.None?
    ensures forall k, at :: k <= n ==> !PollsAt(ss, run, k, code, at)
  {
    hide Inv, Enabled, Step, Settled;
    HistoryInv(cfg, ss, run, n);
    assert Enabled(ss[n], run[n]) && ss[n + 1] == Step(cfg, ss[n], run[n]);
    DeviceMoves(cfg, ss[n], run[n]);
    InsertsOwnCode(cfg, ss[n], run[n]);
    InsertsExactly(cfg, ss[n], run[n]);
    if k, at :| k <= n && PollsAt(ss, run, k, code, at) {
      HistoryInv(cfg, ss, run, k);
      StoredIsSettled(cfg, ss[k], code);
      SettledForGood(cfg, ss, run, k, n, code);
      NotInserting(ss[n], code, run[n].task);
    }
  }

  lemma NotInserting(s: Sys, code: string, t: nat)
    requires Settled(s, code) && t in s.frames && s.frames[t].InsertingDevice?
    ensures s.frames[t].code != code
  {
  }

  /** Over every history, the time in a stored row is that of the last poll of it, or none if it was never polled. */
  lemma {:induction false} LastPolled(cfg: Config, ss: seq<Sys>, run: seq<Label>, n: nat, code: string)
    requires IsHistory(cfg, ss, run) && n <= |run| && code in ss[n].rows.devices
    ensures
      match ss[n].rows.devices[code].lastPolledAt
      case None => forall k, at :: k < n ==> !PollsAt(ss, run, k, code, at)
      case Some(at) => exists k :: LastPoll(ss, run, k, n, code, at)
  {
    hide Inv, Enabled, Step, PollsAt;
    HistoryInv(cfg, ss, run, n - 1);
    var s, l := ss[n - 1], run[n - 1];
    assert Enabled(s, l) && ss[n - 1 + 1] == Step(cfg, s, l);
    if code !in s.rows.devices {
      NewIsUnpolled(cfg, ss, run, n - 1, code);
    } else {
      LastPolled(cfg, ss, run, n - 1, code);
      PollOnRow(cfg, s, l, code);
      PollsNow(ss, run, n - 1, code);
      if l.act.Poll? && s.frames[l.task].code == code {
        assert LastPoll(ss, run, n - 1, n, code, s.frames[l.task].now);
      } else if s.rows.devices[code].lastPolledAt.Some? {
        var at := s.rows.devices[code].lastPolledAt.value;
        var k :| LastPoll(ss, run, k, n - 1, code, at);
        assert LastPoll(ss, run, k, n, code, at);
      }
    }
  }

  lemma PollsNow(ss: seq<Sys>, run: seq<Label>, n: nat, code: string)
    requires |ss| == |run| + 1 && n < |run| && code in ss[n].rows.devices
    requires run[n].act.Poll? ==> run[n].task in ss[n].frames && ss[n].frames[run[n].task].Polling?
    ensures forall at :: PollsAt(ss, run, n, code, at) <==>
      run[n].act.Poll? && ss[n].frames[run[n].task].code == code && ss[n].frames[run[n].task].now == at
  {
  }

  /**
   * Over every history, an exchange that is told to wait is told to slow down if and only if the last poll of the code
   * before its look-up is less than the configured interval ago, by the clocks of the two calls.
   */
  lemma PollsArePaced(cfg: Config, ss: seq<Sys>, run: seq<Label>, n: nat, t: nat) returns (i: nat)
    requires IsHistory(cfg, ss, run) && n <= |run| && t in ss[n].frames && IsExchange(ss[n].frames[t])
    requires Ended(ss[n].frames[t], SlowDown) || Ended(ss[n].frames[t], AuthorizationPending)
    ensures i < n && run[i].task == t && run[i].act.ExchangeFind?
    ensures Awaited(ss[i].rows, run[i].act.agent, run[i].act.code, run[i].act.now)
    ensures Ended(ss[n].frames[t], SlowDown) <==>
      exists k, at ::
        LastPoll(ss, run, k, i, run[i].act.code, at) && run[i].act.now < at + cfg.pollInterval * 1000
  {
    hide Inv, Enabled, Step, LastPoll;
    i := ExchangeAnswers(cfg, ss, run, n, t);
    var code := run[i].act.code;
    LastPolled(cfg, ss, run, i, code);
    var asked := DeviceExplained(cfg, ss, run, i, code);
    var row := ss[i].rows.devices[code];
    forall k, at | LastPoll(ss, run, k, i, code, at)
      ensures row.lastPolledAt == Some(at)
    {
      OneLastPoll(ss, run, i, code, k, at, row.lastPolledAt);
    }
  }

  lemma OneLastPoll(ss: seq<Sys>, run: seq<Label>, n: nat, code: string, k: int, at: int, last: Option<int>)
    requires LastPoll(ss, run, k, n, code, at)
    requires
      match last
      case None => forall j, a :: j < n ==> !PollsAt(ss, run, j, code, a)
      case Some(b) => exists j :: LastPoll(ss, run, j, n, code, b)
    ensures last == Some(at)
  {
    if last.Some? {
      var j :| LastPoll(ss, run, j, n, code, last.value);
      assert j == k;
    }
  }

  // User codes

  /** The character is the letter, in upper or lower case. */
  predicate Folds(c: char, letter: char) {
    'A' <= letter <= 'Z' && (c == letter || c as int == letter as int + 32)
  }

  predicate IsLetter(c: char) {
    'A' <= c <= 'Z' || 'a' <= c <= 'z'
  }

  /** The letters in the text are these, whatever their case and whatever stands between them. */
  ghost predicate Spells(input: string, letters: string)
    decreases |letters|
  {
    if letters == "" then forall c :: c in input ==> !IsLetter(c)
    else exists i ::
      && 0 <= i < |input| && Folds(input[i], letters[0])
      && (forall c :: c in input[..i] ==> !IsLetter(c)) && Spells(input[i + 1..], letters[1..])
  }

  lemma {:induction false} UpperLettersSpells(input: string, letters: string)
    ensures UpperLetters(input) == letters <==> Spells(input, letters)
    decreases |input|
  {
    if input == "" {
      assert UpperLetters(input) == "";
    } else if IsLetter(input[0]) {
      LetterFirst(input, letters);
      if letters != "" { UpperLettersSpells(input[1..], letters[1..]); }
    } else {
      UpperLettersSpells(input[1..], letters);
      OtherFirst(input, letters);
    }
  }

  lemma LetterFirst(input: string, letters: string)
    requires input != "" && IsLetter(input[0])
    ensures Spells(input, letters) <==>
      letters != "" && Folds(input[0], letters[0]) && Spells(input[1..], letters[1..])
    ensures UpperLetters(input) == letters <==>
      letters != "" && Folds(input[0], letters[0]) && UpperLetters(input[1..]) == letters[1..]
  {
    if letters == "" {
      assert input[0] in input;
    } else {
      assert forall i :: 0 < i < |input| ==> input[0] in input[..i];
      assert letters == [letters[0]] + letters[1..];
    }
  }

  lemma OtherFirst(input: string, letters: string)
    requires input != "" && !IsLetter(input[0])
    ensures Spells(input, letters) <==> Spells(input[1..], letters)
  {
    var rest := input[1..];
    if letters == "" {
      assert forall c :: c in input <==> c == input[0] || c in rest;
    } else {
      forall i | 0 <= i < |rest|
        ensures input[i + 1] == rest[i] && input[i + 2..] == rest[i + 1..]
        ensures (forall c :: c in input[..i + 1] ==> !IsLetter(c)) <==> (forall c :: c in rest[..i] ==> !IsLetter(c))
      {
        assert input[..i + 1] == [input[0]] + rest[..i];
      }
      assert !Folds(input[0], letters[0]);
      if Spells(input, letters) {
        var i :| 0 <= i < |input| && Folds(input[i], letters[0])
          && (forall c :: c in input[..i] ==> !IsLetter(c)) && Spells(input[i + 1..], letters[1..]);
        assert rest[i - 1] == input[i];
      }
      if Spells(rest, letters) {
        var i :| 0 <= i < |rest| && Folds(rest[i], letters[0])
          && (forall c :: c in rest[..i] ==> !IsLetter(c)) && Spells(rest[i + 1..], letters[1..]);
        assert input[i + 1] == rest[i];
      }
    }
  }

  /**
   * What is typed normalises to a user code exactly if its letters are the eight of the code, in any case and with
   * anything but letters around them.
   */
  lemma NormalizesSpelling(input: string, letters: string)
    requires |letters| == 8
    ensures NormalizeUserCode(input) == Some(letters[..4] + "-" + letters[4..]) <==> Spells(input, letters)
    ensures NormalizeUserCode(input).None? <==> forall eight: string :: |eight| == 8 ==> !Spells(input, eight)
  {
    hide Spells;
    var typed := UpperLetters(input);
    UpperLettersSpells(input, letters);
    UpperLettersSpells(input, typed);
    if |typed| == 8 {
      var a, b := typed[..4] + "-" + typed[4..], letters[..4] + "-" + letters[4..];
      assert a[..4] == typed[..4] && b[..4] == letters[..4] && a[5..] == typed[4..] && b[5..] == letters[4..];
      assert typed == typed[..4] + typed[4..] && letters == letters[..4] + letters[4..];
    }
    forall eight: string | Spells(input, eight)
      ensures eight == typed
    {
      UpperLettersSpells(input, eight);
    }
  }
}
