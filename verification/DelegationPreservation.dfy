/** Every step keeps the invariant, so it holds in every reachable state. */
module DelegationPreservation {
  import opened Wrappers
  import opened Scopes
  import opened DelegationRows
  import opened DelegationMachine
  import opened DelegationInvariant

  /** What each step owes: the invariant again, and only growth for everybody else. */
  ghost predicate Good(cfg: Config, s: Sys, s': Sys, t: int) {
    Inv(cfg, s') && Grows(s, s', t)
  }

  // Single facts out of the invariant

  lemma FrameFact(cfg: Config, s: Sys, t: nat)
    requires Inv(cfg, s)
    requires t in s.frames
    ensures FrameOK(s, t, s.frames[t])
  {
    hide RequestsOK, ClaimsOK, BoundOK, DevicesOK, TokensOK, GrantsOK, SignedOK, OneHeir, FrameOK, AllTicked;
  }

  lemma DeviceFact(cfg: Config, s: Sys, code: string)
    requires Inv(cfg, s)
    requires code in s.rows.devices
    ensures DeviceOK(s.rows.devices[code], code, s.log.requests, s.log.claims, s.log.bound, s.log.consumed)
  {
    hide RequestsOK, ClaimsOK, BoundOK, TokensOK, GrantsOK, SignedOK, OneHeir, FramesOK, FrameOK, AllTicked;
  }

  lemma TokenFact(cfg: Config, s: Sys, token: string)
    requires Inv(cfg, s)
    requires token in s.rows.refreshTokens
    ensures TokenOK(token, s.rows.refreshTokens[token], s.log.root, s.log.bound, s.log.consumed, s.log.spent)
  {
    hide RequestsOK, ClaimsOK, BoundOK, DevicesOK, GrantsOK, SignedOK, OneHeir, FramesOK, FrameOK, AllTicked;
  }

  lemma GrantFact(cfg: Config, s: Sys, id: string)
    requires Inv(cfg, s)
    requires id in s.rows.grants && IsPactGrant(id)
    ensures AllTicked(s.log.claims, PartyOf(s.rows.grants[id]), ParseScope(s.rows.grants[id].scope))
  {
    hide RequestsOK, ClaimsOK, BoundOK, DevicesOK, TokensOK, SignedOK, OneHeir, FramesOK, FrameOK, AllTicked;
  }

  lemma AccessFact(cfg: Config, s: Sys, a: AccessToken)
    requires Inv(cfg, s)
    requires a in s.log.signed
    ensures AccessOK(a, s.rows.grants, s.log.claims)
  {
    hide RequestsOK, ClaimsOK, BoundOK, DevicesOK, TokensOK, GrantsOK, OneHeir, FramesOK, FrameOK, AllTicked;
  }

  lemma BoundFact(cfg: Config, s: Sys, code: string)
    requires Inv(cfg, s)
    requires code in s.log.bound
    ensures code in s.log.claims && IsGrantOf(s.rows.grants, s.log.bound[code], s.log.claims[code].who)
  {
    hide RequestsOK, ClaimsOK, DevicesOK, TokensOK, GrantsOK, SignedOK, OneHeir, FramesOK, FrameOK, AllTicked;
  }

  lemma ClaimFact(cfg: Config, s: Sys, code: string)
    requires Inv(cfg, s)
    requires code in s.log.claims
    ensures code in s.log.requests && Owns(s.log.requests[code].agent, s.log.claims[code].who)
    ensures IsScopeList(s.log.claims[code].granted)
    ensures forall x :: x in s.log.claims[code].granted ==> x in s.log.requests[code].scopes
  {
    hide RequestsOK, BoundOK, DevicesOK, TokensOK, GrantsOK, SignedOK, OneHeir, FramesOK, FrameOK, AllTicked;
  }

  lemma RequestFact(cfg: Config, s: Sys, code: string)
    requires Inv(cfg, s)
    requires code in s.log.requests
    ensures IsScopeList(s.log.requests[code].scopes)
    ensures forall x :: x in s.log.requests[code].scopes ==> InScopes(cfg, x)
  {
    hide ClaimsOK, BoundOK, DevicesOK, TokensOK, GrantsOK, SignedOK, OneHeir, FramesOK, FrameOK, AllTicked;
  }

  lemma BoundIsPactFact(cfg: Config, s: Sys)
    requires Inv(cfg, s)
    ensures BoundIsPact(s.log.bound)
  {
    hide RequestsOK, ClaimsOK, DevicesOK, TokensOK, GrantsOK, SignedOK, OneHeir, FramesOK, FrameOK, AllTicked;
  }

  /** The invariant's parts, each still folded. */
  lemma Parts(cfg: Config, s: Sys)
    requires Inv(cfg, s)
    ensures RequestsOK(cfg, s.log.requests) && ClaimsOK(s.log.requests, s.log.claims)
    ensures BoundOK(s.rows.grants, s.log.claims, s.log.bound)
    ensures DevicesOK(s.rows.devices, s.log.requests, s.log.claims, s.log.bound, s.log.consumed)
    ensures TokensOK(s.rows.refreshTokens, s.log.root, s.log.bound, s.log.consumed, s.log.spent)
    ensures GrantsOK(s.rows.grants, s.log.claims) && SignedOK(s.log.signed, s.rows.grants, s.log.claims)
    ensures OneHeir(s.rows.refreshTokens, s.log.root, s.frames)
    ensures FramesOK(s)
  {
    hide RequestsOK, ClaimsOK, BoundOK, DevicesOK, TokensOK, GrantsOK, SignedOK, OneHeir, FramesOK;
  }

  // What steps of the same shape have in common

  lemma Assemble(cfg: Config, s: Sys, s': Sys, t: int)
    requires Inv(cfg, s) && Grows(s, s', t)
    requires RequestsOK(cfg, s'.log.requests) && ClaimsOK(s'.log.requests, s'.log.claims)
    requires BoundOK(s'.rows.grants, s'.log.claims, s'.log.bound)
    requires DevicesOK(s'.rows.devices, s'.log.requests, s'.log.claims, s'.log.bound, s'.log.consumed)
    requires TokensOK(s'.rows.refreshTokens, s'.log.root, s'.log.bound, s'.log.consumed, s'.log.spent)
    requires GrantsOK(s'.rows.grants, s'.log.claims) && SignedOK(s'.log.signed, s'.rows.grants, s'.log.claims)
    requires OneHeir(s'.rows.refreshTokens, s'.log.root, s'.frames)
    requires t >= 0 && t in s'.frames ==> FrameOK(s', t, s'.frames[t])
    ensures Good(cfg, s, s', t)
  {
    hide RequestsOK, ClaimsOK, BoundOK, DevicesOK, TokensOK, GrantsOK, SignedOK, OneHeir, FrameOK, Grows, BoundIsPact;
    Parts(cfg, s);
    BoundIsPactFact(cfg, s);
    OthersKept(cfg, s, s', t);
  }

  /** The two issuing frames are all that rotation sees of the calls in flight. */
  lemma HeirsElsewhere(s: Sys, t: nat, f: Frame)
    requires OneHeir(s.rows.refreshTokens, s.log.root, s.frames)
    requires !f.IssuingFirst? && !f.IssuingNext?
    ensures OneHeir(s.rows.refreshTokens, s.log.root, s.frames[t := f])
  {
    var frames' := s.frames[t := f];
    forall u | IsIssuing(frames', s.log.root, u)
      ensures u != t && IsIssuing(s.frames, s.log.root, u) && frames'[u] == s.frames[u]
    {
    }
  }

  /** A step that changes no table and no history: only its own next frame has to be justified. */
  lemma FrameOnly(cfg: Config, s: Sys, t: nat, f: Frame)
    requires Inv(cfg, s) && !f.IssuingFirst? && !f.IssuingNext?
    requires FrameOK(At(s, t, f), t, f)
    ensures Good(cfg, s, At(s, t, f), t)
  {
    hide Inv, Good, FrameOK, OneHeir, GrantsOK, SignedOK, DevicesOK, TokensOK, RequestsOK, ClaimsOK, BoundOK, FramesOK;
    Parts(cfg, s);
    HeirsElsewhere(s, t, f);
    Assemble(cfg, s, At(s, t, f), t);
  }

  lemma GrantsGrow(s: Sys, t: nat, f: Frame, grants': map<string, Grant>)
    requires GrantsKept(s.rows.grants, grants')
    ensures Grows(s, At(s, t, f).(rows := s.rows.(grants := grants')), t)
  {
    hide GrantsKept;
  }

  /** A step that changes the grants table only. */
  lemma GrantsStep(cfg: Config, s: Sys, t: nat, f: Frame, grants': map<string, Grant>)
    requires Inv(cfg, s) && !f.IssuingFirst? && !f.IssuingNext?
    requires GrantsKept(s.rows.grants, grants') && GrantsOK(grants', s.log.claims)
    requires FrameOK(At(s, t, f).(rows := s.rows.(grants := grants')), t, f)
    ensures Good(cfg, s, At(s, t, f).(rows := s.rows.(grants := grants')), t)
  {
    hide Inv, Good, RequestsOK, ClaimsOK, BoundOK, DevicesOK, TokensOK, SignedOK, OneHeir, FramesOK, GrantsOK,
      GrantsKept, FrameOK, Grows;
    var s' := At(s, t, f).(rows := s.rows.(grants := grants'));
    Parts(cfg, s);
    GrantsStable(s.rows.grants, grants', s.log.claims, s.log.bound, s.log.signed);
    HeirsElsewhere(s, t, f);
    GrantsGrow(s, t, f, grants');
    Assemble(cfg, s, s', t);
  }

  /** A step that changes the devices table only, adding at most its own code. */
  lemma DevicesStep(cfg: Config, s: Sys, t: nat, f: Frame, devices': map<string, Device>)
    requires Inv(cfg, s) && !f.IssuingFirst? && !f.IssuingNext?
    requires DevicesOK(devices', s.log.requests, s.log.claims, s.log.bound, s.log.consumed)
    requires forall code :: code in devices' && code !in s.rows.devices ==>
      code in s.log.requests && s.log.requests[code].task == t
    requires FrameOK(At(s, t, f).(rows := s.rows.(devices := devices')), t, f)
    ensures Good(cfg, s, At(s, t, f).(rows := s.rows.(devices := devices')), t)
  {
    hide Inv, Good, RequestsOK, ClaimsOK, BoundOK, DevicesOK, TokensOK, SignedOK, OneHeir, FramesOK, GrantsOK, FrameOK;
    Parts(cfg, s);
    HeirsElsewhere(s, t, f);
    Assemble(cfg, s, At(s, t, f).(rows := s.rows.(devices := devices')), t);
  }

  // Device authorization

  /** A code nobody asked for yet is nowhere in the tables or the history. */
  lemma NewCode(cfg: Config, s: Sys, code: string)
    requires Inv(cfg, s)
    requires code !in s.log.requests
    ensures code !in s.rows.devices && code !in s.log.claims && code !in s.log.bound && code !in s.log.consumed
  {
    hide RequestsOK, GrantsOK, SignedOK, OneHeir, FramesOK, FrameOK, AllTicked;
  }

  lemma RequestRows(cfg: Config, s: Sys, code: string, request: Request, before: int)
    requires Inv(cfg, s) && code !in s.log.requests
    requires IsScopeList(request.scopes) && forall x :: x in request.scopes ==> InScopes(cfg, x)
    ensures RequestsOK(cfg, s.log.requests[code := request]) && ClaimsOK(s.log.requests[code := request], s.log.claims)
    ensures DevicesOK(DeleteDevicesExpiredBefore(s.rows, before).devices, s.log.requests[code := request],
                      s.log.claims, s.log.bound, s.log.consumed)
  {
    hide Inv, InScopes, IsScopeList, ParseScope;
    NewCode(cfg, s, code);
    Parts(cfg, s);
  }

  lemma RequestDeviceKeeps(cfg: Config, s: Sys, t: nat, agent: Agent, scope: string, code: string, now: int)
    requires Inv(cfg, s)
    requires t !in s.frames && code !in s.log.requests
    ensures Good(cfg, s, StepRequestDevice(cfg, s, t, agent, scope, code, now), t)
  {
    hide Inv, Good, OneHeir, GrantsOK, SignedOK, TokensOK, BoundOK, RequestsOK, ClaimsOK, DevicesOK, FramesOK,
      ParseScope;
    var s' := StepRequestDevice(cfg, s, t, agent, scope, code, now);
    if s'.log == s.log {
      FrameOnly(cfg, s, t, s'.frames[t]);
    } else {
      NewCode(cfg, s, code);
      Parts(cfg, s);
      RequestRows(cfg, s, code, Request(t, agent, ParseScope(scope)), now);
      HeirsElsewhere(s, t, s'.frames[t]);
      Assemble(cfg, s, s', t);
    }
  }

  lemma InsertCodeRows(cfg: Config, s: Sys, t: nat, f: Frame, userCode: string)
    requires Inv(cfg, s) && t in s.frames && s.frames[t] == f && f.InsertingDevice?
    ensures DevicesOK(StepInsertCode(cfg, s, t, f, userCode, true).rows.devices,
                      s.log.requests, s.log.claims, s.log.bound, s.log.consumed)
    ensures f.code in s.log.requests && s.log.requests[f.code].task == t
  {
    hide Inv, ParseScope, FormatScope;
    FrameFact(cfg, s, t);
    Parts(cfg, s);
    RequestFact(cfg, s, f.code);
    ParseFormat(f.scopes);
  }

  lemma InsertCodeKeeps(cfg: Config, s: Sys, t: nat, f: Frame, userCode: string, ok: bool)
    requires Inv(cfg, s)
    requires t in s.frames && s.frames[t] == f && f.InsertingDevice?
    ensures Good(cfg, s, StepInsertCode(cfg, s, t, f, userCode, ok), t)
  {
    hide Inv, Good, DevicesOK;
    var s' := StepInsertCode(cfg, s, t, f, userCode, ok);
    FrameFact(cfg, s, t);
    if ok {
      InsertCodeRows(cfg, s, t, f, userCode);
      DevicesStep(cfg, s, t, s'.frames[t], s'.rows.devices);
    } else {
      FrameOnly(cfg, s, t, s'.frames[t]);
    }
  }

  // Exchange

  lemma ExchangeFindKeeps(cfg: Config, s: Sys, t: nat, agent: Agent, code: string, now: int)
    requires Inv(cfg, s)
    requires t !in s.frames
    ensures Good(cfg, s, StepExchangeFind(s, t, agent, code, now), t)
  {
    hide Inv, Good, AllTicked, ParseScope, IsPactGrant, ReadOK;
    if code in s.rows.devices { DeviceFact(cfg, s, code); }
    FrameOnly(cfg, s, t, StepExchangeFind(s, t, agent, code, now).frames[t]);
  }

  /** Polling and denying keep every device row consistent. */
  lemma PolledRows(rows: Rows, log: History, code: string, at: int, account: string)
    requires DevicesOK(rows.devices, log.requests, log.claims, log.bound, log.consumed)
    ensures DevicesOK(MarkPolled(rows, code, at).devices, log.requests, log.claims, log.bound, log.consumed)
    ensures DevicesOK(TransitionDevice(rows, code, Pending, Denied, Some(account)).devices,
                      log.requests, log.claims, log.bound, log.consumed)
  {
    hide ParseScope;
    if code in rows.devices {
      assert DeviceOK(rows.devices[code], code, log.requests, log.claims, log.bound, log.consumed);
    }
  }

  lemma PollKeeps(cfg: Config, s: Sys, t: nat, f: Frame)
    requires Inv(cfg, s)
    requires t in s.frames && s.frames[t] == f && f.Polling?
    ensures Good(cfg, s, StepPoll(s, t, f), t)
  {
    hide Inv, Good, OneHeir, GrantsOK, SignedOK, TokensOK, BoundOK, RequestsOK, ClaimsOK, DevicesOK, FramesOK;
    var s' := StepPoll(s, t, f);
    Parts(cfg, s);
    PolledRows(s.rows, s.log, f.code, f.now, "");
    DevicesStep(cfg, s, t, s'.frames[t], s'.rows.devices);
  }

  /** A fresh signature over a grant just read. */
  lemma SignedRows(cfg: Config, s: Sys, id: string, g: Grant, now: int)
    requires Inv(cfg, s) && IsGrantOf(s.rows.grants, id, PartyOf(g))
    requires AllTicked(s.log.claims, PartyOf(g), ParseScope(g.scope))
    ensures SignedOK(s.log.signed + {Sign(cfg, id, g, now)}, s.rows.grants, s.log.claims)
  {
    hide Inv, AllTicked, ParseScope;
    Parts(cfg, s);
  }

  lemma ReadGrantKeeps(cfg: Config, s: Sys, t: nat, f: Frame, active: bool, signed: bool)
    requires Inv(cfg, s)
    requires t in s.frames && s.frames[t] == f && f.ReadingGrant?
    ensures Good(cfg, s, StepReadGrant(cfg, s, t, f, active, signed), t)
  {
    hide Inv, IsPactGrant, Good, OneHeir, GrantsOK, SignedOK, TokensOK, BoundOK, RequestsOK, ClaimsOK, DevicesOK,
      FramesOK, AllTicked, ParseScope;
    var s' := StepReadGrant(cfg, s, t, f, active, signed);
    FrameFact(cfg, s, t);
    if s'.log == s.log && !s'.frames[t].Consuming? {
      FrameOnly(cfg, s, t, s'.frames[t]);
    } else {
      BoundFact(cfg, s, f.code);
      GrantFact(cfg, s, f.grantId);
      SignedRows(cfg, s, f.grantId, s.rows.grants[f.grantId], f.now);
      Parts(cfg, s);
      HeirsElsewhere(s, t, s'.frames[t]);
      Assemble(cfg, s, s', t);
    }
  }

  lemma RootsConsumed(cfg: Config, s: Sys)
    requires Inv(cfg, s)
    ensures forall a :: IsUnused(s.rows.refreshTokens, s.log.root, a) ==> s.log.root[a] in s.log.consumed
    ensures forall u :: IsIssuing(s.frames, s.log.root, u) ==>
      IssuingRoot(s.frames[u], s.log.root).value in s.log.consumed
    ensures forall u :: u in s.frames && s.frames[u].IssuingNext? ==> s.frames[u].token in s.log.root
  {
    hide Inv, IsPactGrant, AllTicked, ParseScope;
    forall a | IsUnused(s.rows.refreshTokens, s.log.root, a)
      ensures s.log.root[a] in s.log.consumed
    {
      TokenFact(cfg, s, a);
    }
    forall u | u in s.frames && (s.frames[u].IssuingFirst? || s.frames[u].IssuingNext?)
      ensures s.frames[u].IssuingNext? ==> s.frames[u].token in s.log.root
      ensures IssuingRoot(s.frames[u], s.log.root).Some?
      ensures IssuingRoot(s.frames[u], s.log.root).value in s.log.consumed
    {
      FrameFact(cfg, s, u);
      if s.frames[u].IssuingNext? { TokenFact(cfg, s, s.frames[u].token); }
    }
  }

  /** A code that was not consumed has no heir yet. */
  lemma ConsumeHeirs(tokens: map<string, RefreshToken>, root: map<string, string>, frames: map<nat, Frame>,
                     consumed: map<string, nat>, t: nat, f: Frame)
    requires OneHeir(tokens, root, frames) && f.IssuingFirst? && f.code !in consumed
    requires forall a :: IsUnused(tokens, root, a) ==> root[a] in consumed
    requires forall u :: IsIssuing(frames, root, u) ==> IssuingRoot(frames[u], root).value in consumed
    ensures OneHeir(tokens, root, frames[t := f])
  {
    var frames' := frames[t := f];
    forall u | IsIssuing(frames', root, u) && u != t
      ensures IsIssuing(frames, root, u) && frames'[u] == frames[u]
    {
    }
  }

  lemma ConsumeDevices(rows: Rows, log: History, t: nat, code: string)
    requires DevicesOK(rows.devices, log.requests, log.claims, log.bound, log.consumed)
    requires CanTransition(rows, code, Approved)
    ensures code !in log.consumed
    ensures DevicesOK(TransitionDevice(rows, code, Approved, Consumed, None).devices,
                      log.requests, log.claims, log.bound, log.consumed[code := t])
  {
    hide ParseScope;
    assert DeviceOK(rows.devices[code], code, log.requests, log.claims, log.bound, log.consumed);
    forall other | other in rows.devices && other != code
      ensures DeviceOK(rows.devices[other], other, log.requests, log.claims, log.bound, log.consumed[code := t])
    {
      assert DeviceOK(rows.devices[other], other, log.requests, log.claims, log.bound, log.consumed);
    }
  }

  lemma ConsumeTokens(tokens: map<string, RefreshToken>, root: map<string, string>, bound: map<string, string>,
                      consumed: map<string, nat>, spent: map<string, nat>, t: nat, code: string)
    requires TokensOK(tokens, root, bound, consumed, spent) && code in bound
    ensures TokensOK(tokens, root, bound, consumed[code := t], spent)
  {
    hide IsPactGrant;
    forall token | token in tokens
      ensures TokenOK(token, tokens[token], root, bound, consumed[code := t], spent)
    {
      assert TokenOK(token, tokens[token], root, bound, consumed, spent);
    }
  }

  lemma ConsumeGrows(s: Sys, t: nat, f: Frame)
    requires f.Consuming? && CanTransition(s.rows, f.code, Approved) && f.code !in s.log.consumed
    ensures Grows(s, StepConsume(s, t, f), t)
  {
  }

  lemma ConsumeKeeps(cfg: Config, s: Sys, t: nat, f: Frame)
    requires Inv(cfg, s)
    requires t in s.frames && s.frames[t] == f && f.Consuming?
    ensures Good(cfg, s, StepConsume(s, t, f), t)
  {
    hide Inv, IsPactGrant, Good, OneHeir, GrantsOK, SignedOK, TokensOK, BoundOK, RequestsOK, ClaimsOK, DevicesOK,
      FramesOK, AllTicked, ParseScope, Grows;
    var s' := StepConsume(s, t, f);
    FrameFact(cfg, s, t);
    if CanTransition(s.rows, f.code, Approved) {
      RootsConsumed(cfg, s);
      Parts(cfg, s);
      ConsumeDevices(s.rows, s.log, t, f.code);
      ConsumeTokens(s.rows.refreshTokens, s.log.root, s.log.bound, s.log.consumed, s.log.spent, t, f.code);
      ConsumeHeirs(s.rows.refreshTokens, s.log.root, s.frames, s.log.consumed, t, s'.frames[t]);
      ConsumeGrows(s, t, f);
      Assemble(cfg, s, s', t);
    } else {
      FrameOnly(cfg, s, t, s'.frames[t]);
    }
  }

  /** The new token takes over from the call that issued it. */
  lemma IssueHeirs(tokens: map<string, RefreshToken>, root: map<string, string>, frames: map<nat, Frame>,
                   t: nat, token: string, row: RefreshToken, done: Frame)
    requires OneHeir(tokens, root, frames) && IsIssuing(frames, root, t) && done.Done?
    requires token !in root
    requires forall u :: u in frames && frames[u].IssuingNext? ==> frames[u].token in root
    ensures OneHeir(tokens[token := row], root[token := IssuingRoot(frames[t], root).value], frames[t := done])
  {
    var tokens', frames' := tokens[token := row], frames[t := done];
    var root' := root[token := IssuingRoot(frames[t], root).value];
    forall a | IsUnused(tokens', root', a) && a != token
      ensures IsUnused(tokens, root, a) && root'[a] == root[a]
    {
    }
    forall u | IsIssuing(frames', root', u)
      ensures u != t && IsIssuing(frames, root, u) && IssuingRoot(frames'[u], root') == IssuingRoot(frames[u], root)
    {
    }
  }

  /** A new refresh token of the grant its root code was bound to. */
  lemma IssueRows(tokens: map<string, RefreshToken>, root: map<string, string>, bound: map<string, string>,
                  consumed: map<string, nat>, spent: map<string, nat>, token: string, code: string, row: RefreshToken)
    requires TokensOK(tokens, root, bound, consumed, spent) && token !in tokens
    requires code in consumed && code in bound && bound[code] == row.grantId
    requires IsPactGrant(row.grantId) && row.usedAt.None?
    ensures token !in root
    ensures TokensOK(tokens[token := row], root[token := code], bound, consumed, spent)
  {
    hide IsPactGrant;
    forall other | other in tokens
      ensures TokenOK(other, tokens[other], root[token := code], bound, consumed, spent)
    {
      assert TokenOK(other, tokens[other], root, bound, consumed, spent);
    }
  }

  /** A token that was not there before and a signature: nothing else of what others see changes. */
  lemma IssueGrows(s: Sys, t: nat, f: Frame, token: string, row: RefreshToken, code: string, signed: set<AccessToken>)
    requires token !in s.log.root && signed >= s.log.signed
    ensures Grows(s, At(s, t, f).(rows := InsertRefreshToken(s.rows, token, row),
                                  log := s.log.(signed := signed, root := s.log.root[token := code])), t)
  {
  }

  lemma IssueFirstKeeps(cfg: Config, s: Sys, t: nat, f: Frame, token: string)
    requires Inv(cfg, s)
    requires t in s.frames && s.frames[t] == f && f.IssuingFirst?
    requires token !in s.rows.refreshTokens
    ensures Good(cfg, s, StepIssueFirst(s, t, f, token), t)
  {
    hide Inv, IsPactGrant, Good, OneHeir, GrantsOK, SignedOK, TokensOK, BoundOK, RequestsOK, ClaimsOK, DevicesOK,
      FramesOK, AllTicked, ParseScope, Grows;
    var s' := StepIssueFirst(s, t, f, token);
    FrameFact(cfg, s, t);
    RootsConsumed(cfg, s);
    Parts(cfg, s);
    IssueRows(s.rows.refreshTokens, s.log.root, s.log.bound, s.log.consumed, s.log.spent, token, f.code,
              s'.rows.refreshTokens[token]);
    IssueHeirs(s.rows.refreshTokens, s.log.root, s.frames, t, token, s'.rows.refreshTokens[token], s'.frames[t]);
    IssueGrows(s, t, s'.frames[t], token, s'.rows.refreshTokens[token], f.code, s.log.signed);
    Assemble(cfg, s, s', t);
  }

  // Refresh

  lemma RefreshFindKeeps(cfg: Config, s: Sys, t: nat, agent: Agent, token: string, now: int)
    requires Inv(cfg, s)
    requires t !in s.frames
    ensures Good(cfg, s, StepRefreshFind(s, t, agent, token, now), t)
  {
    hide Inv, Good;
    if token in s.rows.refreshTokens { TokenFact(cfg, s, token); }
    FrameOnly(cfg, s, t, StepRefreshFind(s, t, agent, token, now).frames[t]);
  }

  lemma CheckRefreshKeeps(cfg: Config, s: Sys, t: nat, f: Frame, active: bool)
    requires Inv(cfg, s)
    requires t in s.frames && s.frames[t] == f && f.CheckingRefresh?
    ensures Good(cfg, s, StepCheckRefresh(s, t, f, active), t)
  {
    hide Inv, Good, AllTicked;
    FrameFact(cfg, s, t);
    var id := f.row.grantId;
    if id in s.rows.grants && IsPactGrant(id) { GrantFact(cfg, s, id); }
    FrameOnly(cfg, s, t, StepCheckRefresh(s, t, f, active).frames[t]);
  }

  /** The call that spends an unused token takes over from it. */
  lemma SpendHeirs(tokens: map<string, RefreshToken>, root: map<string, string>, frames: map<nat, Frame>,
                   t: nat, token: string, row: RefreshToken, f: Frame)
    requires OneHeir(tokens, root, frames) && IsUnused(tokens, root, token) && row.usedAt.Some?
    requires f.IssuingNext? && f.token == token
    ensures OneHeir(tokens[token := row], root, frames[t := f])
  {
    var tokens', frames' := tokens[token := row], frames[t := f];
    forall a | IsUnused(tokens', root, a)
      ensures a != token && IsUnused(tokens, root, a)
    {
    }
    forall u | IsIssuing(frames', root, u) && u != t
      ensures IsIssuing(frames, root, u) && frames'[u] == frames[u]
    {
    }
  }

  lemma SpendRows(tokens: map<string, RefreshToken>, root: map<string, string>, bound: map<string, string>,
                  consumed: map<string, nat>, spent: map<string, nat>, t: nat, token: string, at: int)
    requires TokensOK(tokens, root, bound, consumed, spent)
    requires token in tokens && tokens[token].usedAt.None? && token in root
    ensures TokensOK(tokens[token := tokens[token].(usedAt := Some(at))], root, bound, consumed, spent[token := t])
    ensures token !in spent
  {
    hide IsPactGrant;
    assert TokenOK(token, tokens[token], root, bound, consumed, spent);
    forall other | other in tokens && other != token
      ensures TokenOK(other, tokens[other], root, bound, consumed, spent[token := t])
    {
      assert TokenOK(other, tokens[other], root, bound, consumed, spent);
    }
  }

  lemma SpendKeeps(cfg: Config, s: Sys, t: nat, f: Frame)
    requires Inv(cfg, s)
    requires t in s.frames && s.frames[t] == f && f.Spending?
    ensures Good(cfg, s, StepSpend(s, t, f), t)
  {
    hide Inv, IsPactGrant, Good, OneHeir, GrantsOK, SignedOK, TokensOK, BoundOK, RequestsOK, ClaimsOK, DevicesOK,
      FramesOK, AllTicked, ParseScope;
    var s' := StepSpend(s, t, f);
    FrameFact(cfg, s, t);
    if CanUse(s.rows, f.token) {
      Parts(cfg, s);
      SpendRows(s.rows.refreshTokens, s.log.root, s.log.bound, s.log.consumed, s.log.spent, t, f.token, f.now);
      SpendHeirs(s.rows.refreshTokens, s.log.root, s.frames, t, f.token, s'.rows.refreshTokens[f.token], s'.frames[t]);
      Assemble(cfg, s, s', t);
    } else {
      TokenFact(cfg, s, f.token);
      FrameOnly(cfg, s, t, s'.frames[t]);
    }
  }

  /** Revoking a grant, one or all of an account's, changes nothing else about the grants. */
  lemma RevokedRows(cfg: Config, s: Sys, account: string, id: string, at: int)
    requires Inv(cfg, s)
    ensures GrantsKept(s.rows.grants, RevokeGrantById(s.rows, id, at).grants)
    ensures GrantsOK(RevokeGrantById(s.rows, id, at).grants, s.log.claims)
    ensures GrantsKept(s.rows.grants, RevokeAllGrants(s.rows, account, at).grants)
    ensures GrantsOK(RevokeAllGrants(s.rows, account, at).grants, s.log.claims)
  {
    hide Inv, AllTicked, ParseScope;
    Parts(cfg, s);
  }

  lemma RevokeReusedKeeps(cfg: Config, s: Sys, t: nat, f: Frame)
    requires Inv(cfg, s)
    requires t in s.frames && s.frames[t] == f && f.RevokingReused?
    ensures Good(cfg, s, StepRevokeReused(s, t, f), t)
  {
    hide Inv, Good, GrantsOK, GrantsKept;
    var s' := StepRevokeReused(s, t, f);
    FrameFact(cfg, s, t);
    RevokedRows(cfg, s, "", f.grantId, f.now);
    GrantsStep(cfg, s, t, s'.frames[t], s'.rows.grants);
  }

  lemma IssueNextKeeps(cfg: Config, s: Sys, t: nat, f: Frame, signed: bool, token: string)
    requires Inv(cfg, s)
    requires t in s.frames && s.frames[t] == f && f.IssuingNext?
    requires token !in s.rows.refreshTokens
    ensures Good(cfg, s, StepIssueNext(cfg, s, t, f, signed, token), t)
  {
    hide Inv, IsPactGrant, Good, OneHeir, GrantsOK, SignedOK, TokensOK, BoundOK, RequestsOK, ClaimsOK, DevicesOK,
      FramesOK, AllTicked, ParseScope, Grows;
    var s' := StepIssueNext(cfg, s, t, f, signed, token);
    FrameFact(cfg, s, t);
    if signed {
      TokenFact(cfg, s, f.token);
      SignedRows(cfg, s, f.grantId, f.grant, f.now);
      RootsConsumed(cfg, s);
      Parts(cfg, s);
      IssueRows(s.rows.refreshTokens, s.log.root, s.log.bound, s.log.consumed, s.log.spent, token,
                s.log.root[f.token], s'.rows.refreshTokens[token]);
      IssueHeirs(s.rows.refreshTokens, s.log.root, s.frames, t, token, s'.rows.refreshTokens[token], s'.frames[t]);
      IssueGrows(s, t, s'.frames[t], token, s'.rows.refreshTokens[token], s.log.root[f.token], s'.log.signed);
      Assemble(cfg, s, s', t);
    } else {
      FrameOnly(cfg, s, t, s'.frames[t]);
    }
  }

  // Approve

  lemma ApproveFindKeeps(cfg: Config, s: Sys, t: nat, accountId: string, ticked: set<string>,
      found: Option<string>, now: int)
    requires Inv(cfg, s)
    requires t !in s.frames && (found.Some? ==> found.value in s.rows.devices)
    ensures Good(cfg, s, StepApproveFind(s, t, accountId, ticked, found, now), t)
  {
    hide Inv, Good;
    if found.Some? { DeviceFact(cfg, s, found.value); }
    FrameOnly(cfg, s, t, StepApproveFind(s, t, accountId, ticked, found, now).frames[t]);
  }

  lemma TicksGrow(grants: map<string, Grant>, signed: set<AccessToken>, claims: map<string, Claim>,
      claims': map<string, Claim>)
    requires GrantsOK(grants, claims) && SignedOK(signed, grants, claims) && SubMap(claims, claims')
    ensures GrantsOK(grants, claims') && SignedOK(signed, grants, claims')
  {
    hide AllTicked, ParseScope, SubMap;
    forall id | id in grants && IsPactGrant(id)
      ensures AllTicked(claims', PartyOf(grants[id]), ParseScope(grants[id].scope))
    {
      TickedKept(claims, claims', PartyOf(grants[id]), ParseScope(grants[id].scope));
    }
    forall a | a in signed
      ensures AccessOK(a, grants, claims')
    {
      assert AccessOK(a, grants, claims);
      TickedKept(claims, claims', PartyOf(grants[a.grantId]), ParseScope(a.scope));
    }
  }

  lemma ClaimDevices(rows: Rows, log: History, code: string, claim: Claim)
    requires DevicesOK(rows.devices, log.requests, log.claims, log.bound, log.consumed)
    requires BoundOK(rows.grants, log.claims, log.bound)
    requires CanTransition(rows, code, Pending)
    ensures code !in log.claims && code !in log.bound
    ensures DevicesOK(TransitionDevice(rows, code, Pending, Approved, Some(claim.who.accountId)).devices,
                      log.requests, log.claims[code := claim], log.bound, log.consumed)
  {
    hide ParseScope, IsGrantOf;
    assert DeviceOK(rows.devices[code], code, log.requests, log.claims, log.bound, log.consumed);
    forall other | other in rows.devices && other != code
      ensures DeviceOK(rows.devices[other], other, log.requests, log.claims[code := claim], log.bound, log.consumed)
    {
      assert DeviceOK(rows.devices[other], other, log.requests, log.claims, log.bound, log.consumed);
    }
  }

  lemma ClaimHistory(grants: map<string, Grant>, requests: map<string, Request>, claims: map<string, Claim>,
                     bound: map<string, string>, code: string, claim: Claim)
    requires ClaimsOK(requests, claims) && BoundOK(grants, claims, bound) && code !in bound
    requires code in requests && Owns(requests[code].agent, claim.who)
    requires IsScopeList(claim.granted) && forall x :: x in claim.granted ==> x in requests[code].scopes
    ensures ClaimsOK(requests, claims[code := claim]) && BoundOK(grants, claims[code := claim], bound)
  {
    hide IsScopeList, IsGrantOf;
  }

  lemma ClaimKeeps(cfg: Config, s: Sys, t: nat, f: Frame)
    requires Inv(cfg, s)
    requires t in s.frames && s.frames[t] == f && f.Claiming?
    ensures Good(cfg, s, StepClaim(s, t, f), t)
  {
    hide Inv, IsPactGrant, Good, OneHeir, GrantsOK, SignedOK, TokensOK, BoundOK, RequestsOK, ClaimsOK, DevicesOK,
      FramesOK, AllTicked, ParseScope, IsScopeList;
    var s' := StepClaim(s, t, f);
    FrameFact(cfg, s, t);
    if CanTransition(s.rows, f.code, Pending) {
      Parts(cfg, s);
      ClaimDevices(s.rows, s.log, f.code, Claim(t, f.who, f.granted));
      ClaimHistory(s.rows.grants, s.log.requests, s.log.claims, s.log.bound, f.code, Claim(t, f.who, f.granted));
      TicksGrow(s.rows.grants, s.log.signed, s.log.claims, s'.log.claims);
      HeirsElsewhere(s, t, s'.frames[t]);
      Assemble(cfg, s, s', t);
    } else {
      FrameOnly(cfg, s, t, s'.frames[t]);
    }
  }

  /** What a claimant granted is ticked, alone and merged into ticked scopes, also as one scope text. */
  lemma GrantedTicked(cfg: Config, s: Sys, t: nat, code: string, who: Party, xs: seq<string>)
    requires Inv(cfg, s) && ClaimOK(s, t, code, who)
    requires AllTicked(s.log.claims, who, xs) && forall x :: x in xs ==> IsToken(x)
    ensures AllTicked(s.log.claims, who, ParseScope(FormatScope(s.log.claims[code].granted)))
    ensures AllTicked(s.log.claims, who, ParseScope(FormatScope(Dedup(xs + s.log.claims[code].granted))))
  {
    hide Inv, ParseScope, FormatScope, Dedup;
    ClaimFact(cfg, s, code);
    ParseFormat(s.log.claims[code].granted);
    ParseFormat(Dedup(xs + s.log.claims[code].granted));
  }

  lemma FindExistingKeeps(cfg: Config, s: Sys, t: nat, f: Frame, choice: Option<string>)
    requires Inv(cfg, s)
    requires t in s.frames && s.frames[t] == f && f.FindingExisting?
    requires choice.Some? ==> IsGrantOf(s.rows.grants, choice.value, f.who)
    ensures Good(cfg, s, StepFindExisting(s, t, f, choice), t)
  {
    hide Inv, Good, AllTicked, ParseScope, FormatScope, Dedup;
    FrameFact(cfg, s, t);
    if choice.Some? {
      GrantFact(cfg, s, choice.value);
      GrantedTicked(cfg, s, t, f.code, f.who, ParseScope(s.rows.grants[choice.value].scope));
    }
    FrameOnly(cfg, s, t, StepFindExisting(s, t, f, choice).frames[t]);
  }

  /** Updating a grant of the right party to ticked scopes is harmless to everybody. */
  lemma UpdatedRows(cfg: Config, s: Sys, id: string, who: Party, scope: string, expiresAt: int, at: int)
    requires Inv(cfg, s) && IsGrantOf(s.rows.grants, id, who) && AllTicked(s.log.claims, who, ParseScope(scope))
    ensures GrantsKept(s.rows.grants, UpdateGrant(s.rows, id, scope, expiresAt, at).grants)
    ensures GrantsOK(UpdateGrant(s.rows, id, scope, expiresAt, at).grants, s.log.claims)
  {
    hide Inv, AllTicked, ParseScope;
    Parts(cfg, s);
  }

  lemma WidenKeeps(cfg: Config, s: Sys, t: nat, f: Frame)
    requires Inv(cfg, s)
    requires t in s.frames && s.frames[t] == f && f.Widening?
    ensures Good(cfg, s, StepWiden(cfg, s, t, f), t)
  {
    hide Inv, Good, GrantsOK, GrantsKept, AllTicked, ParseScope;
    var s' := StepWiden(cfg, s, t, f);
    FrameFact(cfg, s, t);
    UpdatedRows(cfg, s, f.grantId, f.who, f.scope, f.now + cfg.grantTtl * 1000, f.now);
    if Unrevoked(s.rows, f.grantId) {
      GrantsStep(cfg, s, t, s'.frames[t], s'.rows.grants);
    } else {
      FrameOnly(cfg, s, t, s'.frames[t]);
    }
  }

  lemma InsertedRows(cfg: Config, s: Sys, id: string, g: Grant)
    requires Inv(cfg, s) && id !in s.rows.grants
    requires AllTicked(s.log.claims, PartyOf(g), ParseScope(g.scope)) || !IsPactGrant(id)
    ensures GrantsKept(s.rows.grants, s.rows.grants[id := g])
    ensures GrantsOK(s.rows.grants[id := g], s.log.claims)
  {
    hide Inv, AllTicked, ParseScope;
    Parts(cfg, s);
  }

  lemma InsertGrantKeeps(cfg: Config, s: Sys, t: nat, f: Frame, id: string)
    requires Inv(cfg, s)
    requires t in s.frames && s.frames[t] == f && f.InsertingGrant?
    requires id !in s.rows.grants && IsPactGrant(id)
    ensures Good(cfg, s, StepInsertGrant(cfg, s, t, f, id), t)
  {
    hide Inv, Good, GrantsOK, GrantsKept, AllTicked, ParseScope, FormatScope;
    var s' := StepInsertGrant(cfg, s, t, f, id);
    FrameFact(cfg, s, t);
    NothingTicked(s.log.claims, f.who);
    GrantedTicked(cfg, s, t, f.code, f.who, []);
    InsertedRows(cfg, s, id, s'.rows.grants[id]);
    GrantsStep(cfg, s, t, s'.frames[t], s'.rows.grants);
  }

  lemma NothingTicked(claims: map<string, Claim>, who: Party)
    ensures AllTicked(claims, who, [])
  {
  }

  lemma LiveTicked(cfg: Config, s: Sys, who: Party, live: seq<string>)
    requires Inv(cfg, s) && live != []
    requires forall id :: id in live ==> id in s.rows.grants && IsGrantOf(s.rows.grants, id, who)
    ensures AllTicked(s.log.claims, who, ParseScope(FormatScope(Dedup(AllScopes(s.rows, live)))))
    ensures AllTicked(s.log.claims, who, ParseScope(s.rows.grants[live[0]].scope))
  {
    hide Inv, Ticked, ParseScope, FormatScope, Dedup;
    assert live[0] in live;
    GrantFact(cfg, s, live[0]);
    ParseFormat(Dedup(AllScopes(s.rows, live)));
    forall x | x in AllScopes(s.rows, live)
      ensures Ticked(s.log.claims, who, x)
    {
      var id :| id in live && x in ParseScope(s.rows.grants[id].scope);
      GrantFact(cfg, s, id);
    }
  }

  lemma ConvergeKeeps(cfg: Config, s: Sys, t: nat, f: Frame, live: seq<string>)
    requires Inv(cfg, s)
    requires t in s.frames && s.frames[t] == f && f.Converging?
    requires forall id :: id in live ==> id in s.rows.grants && IsGrantOf(s.rows.grants, id, f.who)
    ensures Good(cfg, s, StepConverge(s, t, f, live), t)
  {
    hide Inv, Good, AllTicked, ParseScope, FormatScope, Dedup, AllScopes;
    FrameFact(cfg, s, t);
    if live != [] {
      assert live[0] in live && forall id :: id in live[1..] ==> id in live;
      LiveTicked(cfg, s, f.who, live);
    }
    FrameOnly(cfg, s, t, StepConverge(s, t, f, live).frames[t]);
  }

  lemma MergeKeeps(cfg: Config, s: Sys, t: nat, f: Frame)
    requires Inv(cfg, s)
    requires t in s.frames && s.frames[t] == f && f.Merging?
    ensures Good(cfg, s, StepMerge(s, t, f), t)
  {
    hide Inv, Good, GrantsOK, AllTicked, ParseScope;
    var s' := StepMerge(s, t, f);
    FrameFact(cfg, s, t);
    UpdatedRows(cfg, s, f.survivor, f.who, f.scope, f.expiresAt, f.now);
    GrantsStep(cfg, s, t, s'.frames[t], s'.rows.grants);
  }

  lemma RevokeExtraKeeps(cfg: Config, s: Sys, t: nat, f: Frame)
    requires Inv(cfg, s)
    requires t in s.frames && s.frames[t] == f && f.RevokingExtras?
    requires f.extras != []
    ensures Good(cfg, s, StepRevokeExtra(s, t, f), t)
  {
    hide Inv, IsPactGrant, Good, GrantsOK, AllTicked, ParseScope;
    var s' := StepRevokeExtra(s, t, f);
    FrameFact(cfg, s, t);
    assert f.extras[0] in f.extras && forall id :: id in f.extras[1..] ==> id in f.extras;
    RevokedRows(cfg, s, "", f.extras[0], f.now);
    GrantsStep(cfg, s, t, s'.frames[t], s'.rows.grants);
  }

  lemma BindDevices(rows: Rows, log: History, code: string, id: string)
    requires DevicesOK(rows.devices, log.requests, log.claims, log.bound, log.consumed)
    requires code in log.claims && code !in log.bound
    ensures DevicesOK(SetDeviceGrant(rows, code, id).devices, log.requests, log.claims, log.bound[code := id],
      log.consumed)
  {
    hide ParseScope;
    var devices' := SetDeviceGrant(rows, code, id).devices;
    forall other | other in devices'
      ensures DeviceOK(devices'[other], other, log.requests, log.claims, log.bound[code := id], log.consumed)
    {
      assert DeviceOK(rows.devices[other], other, log.requests, log.claims, log.bound, log.consumed);
    }
  }

  lemma BindTokens(tokens: map<string, RefreshToken>, root: map<string, string>, bound: map<string, string>,
                   consumed: map<string, nat>, spent: map<string, nat>, code: string, id: string)
    requires TokensOK(tokens, root, bound, consumed, spent) && code !in bound
    ensures TokensOK(tokens, root, bound[code := id], consumed, spent)
  {
    hide IsPactGrant;
    forall token | token in tokens
      ensures TokenOK(token, tokens[token], root, bound[code := id], consumed, spent)
    {
      assert TokenOK(token, tokens[token], root, bound, consumed, spent);
    }
  }

  lemma BindBound(grants: map<string, Grant>, claims: map<string, Claim>, bound: map<string, string>, code: string,
      id: string)
    requires BoundOK(grants, claims, bound) && code in claims && IsGrantOf(grants, id, claims[code].who)
    ensures BoundOK(grants, claims, bound[code := id])
  {
    hide IsGrantOf;
  }

  lemma BindKeeps(cfg: Config, s: Sys, t: nat, f: Frame)
    requires Inv(cfg, s)
    requires t in s.frames && s.frames[t] == f && f.Binding?
    ensures Good(cfg, s, StepBind(s, t, f), t)
  {
    hide Inv, IsPactGrant, Good, OneHeir, GrantsOK, SignedOK, TokensOK, BoundOK, RequestsOK, ClaimsOK, DevicesOK,
      FramesOK, AllTicked, ParseScope;
    var s' := StepBind(s, t, f);
    FrameFact(cfg, s, t);
    Parts(cfg, s);
    BindDevices(s.rows, s.log, f.code, f.grantId);
    BindTokens(s.rows.refreshTokens, s.log.root, s.log.bound, s.log.consumed, s.log.spent, f.code, f.grantId);
    BindBound(s.rows.grants, s.log.claims, s.log.bound, f.code, f.grantId);
    HeirsElsewhere(s, t, s'.frames[t]);
    Assemble(cfg, s, s', t);
  }

  // Deny, verify, revocations, Poppy

  lemma DenyFindKeeps(cfg: Config, s: Sys, t: nat, accountId: string, found: Option<string>)
    requires Inv(cfg, s)
    requires t !in s.frames && (found.Some? ==> found.value in s.rows.devices)
    ensures Good(cfg, s, StepDenyFind(s, t, accountId, found), t)
  {
    hide Inv, Good;
    FrameOnly(cfg, s, t, StepDenyFind(s, t, accountId, found).frames[t]);
  }

  lemma DenyKeeps(cfg: Config, s: Sys, t: nat, f: Frame)
    requires Inv(cfg, s)
    requires t in s.frames && s.frames[t] == f && f.Denying?
    ensures Good(cfg, s, StepDeny(s, t, f), t)
  {
    hide Inv, Good, OneHeir, GrantsOK, SignedOK, TokensOK, BoundOK, RequestsOK, ClaimsOK, DevicesOK, FramesOK;
    var s' := StepDeny(s, t, f);
    Parts(cfg, s);
    PolledRows(s.rows, s.log, f.code, 0, f.accountId);
    DevicesStep(cfg, s, t, s'.frames[t], s'.rows.devices);
  }

  lemma VerifyKeeps(cfg: Config, s: Sys, t: nat, agent: Agent, access: AccessToken, active: bool, now: int)
    requires Inv(cfg, s)
    requires t !in s.frames
    ensures Good(cfg, s, StepVerify(s, t, agent, access, active, now), t)
  {
    hide Inv, Good, AllTicked, ParseScope;
    if access in s.log.signed { AccessFact(cfg, s, access); }
    FrameOnly(cfg, s, t, StepVerify(s, t, agent, access, active, now).frames[t]);
  }

  /** Steps of the calls an agent makes: every action is one of these, of an approver's or of the environment's. */
  predicate IsAgentAct(act: Action) {
    IsCodeAct(act) || IsRefreshAct(act)
  }

  predicate IsCodeAct(act: Action) {
    || act.RequestDevice? || act.InsertCode? || act.ExchangeFind? || act.Poll? || act.ReadGrant? || act.Consume?
    || act.IssueFirst? || act.Verify?
  }

  predicate IsRefreshAct(act: Action) {
    act.RefreshFind? || act.CheckRefresh? || act.Spend? || act.RevokeReused? || act.IssueNext?
  }

  /** Steps of the calls that approve or deny a code. */
  predicate IsApproverAct(act: Action) {
    || act.ApproveFind? || act.ClaimCode? || act.FindExisting? || act.Widen? || act.InsertNewGrant? || act.Converge?
    || act.Merge? || act.RevokeExtra? || act.Bind? || act.DenyFind? || act.DenyCode?
  }

  /** Writes that belong to no call of this service. */
  predicate IsEnvironment(act: Action) {
    act.AccountRevoke? || act.AccountRevokeAll? || act.AdminRevoke? || act.PoppyGrant? || act.PoppyToken?
  }

  /** Nor do they move any call or add to the history. */
  lemma EnvironmentOnlyRows(cfg: Config, s: Sys, l: Label)
    requires Enabled(s, l) && IsEnvironment(l.act)
    ensures Step(cfg, s, l).log == s.log && Step(cfg, s, l).frames == s.frames
  {
    hide IsPactGrant, InsertGrant, RevokeGrantById, RevokeGrant, RevokeAllGrants, InsertRefreshToken,
      StepRequestDevice, StepInsertCode, StepExchangeFind, StepPoll, StepReadGrant, StepConsume, StepIssueFirst,
      StepRefreshFind, StepCheckRefresh, StepSpend, StepRevokeReused, StepIssueNext, StepApproveFind, StepClaim,
      StepFindExisting, StepWiden, StepInsertGrant, StepConverge, StepMerge, StepRevokeExtra, StepBind, StepDenyFind,
      StepDeny;
  }

  /** A call that is over takes no step. */
  lemma OverTakesNoStep(s: Sys, l: Label)
    requires Enabled(s, l) && !IsEnvironment(l.act) && l.task in s.frames
    ensures !s.frames[l.task].Done?
  {
    hide IsPactGrant, IsSnapshot, IsMostRecent, Finds;
  }

  lemma GrantsElsewhere(cfg: Config, s: Sys, grants': map<string, Grant>)
    requires Inv(cfg, s) && GrantsKept(s.rows.grants, grants') && GrantsOK(grants', s.log.claims)
    ensures Good(cfg, s, s.(rows := s.rows.(grants := grants')), -1)
  {
    hide Inv, Good, RequestsOK, ClaimsOK, BoundOK, DevicesOK, TokensOK, SignedOK, OneHeir, FramesOK, GrantsOK,
      GrantsKept;
    Parts(cfg, s);
    GrantsStable(s.rows.grants, grants', s.log.claims, s.log.bound, s.log.signed);
    Assemble(cfg, s, s.(rows := s.rows.(grants := grants')), -1);
  }

  lemma PoppyGrantKeeps(cfg: Config, s: Sys, id: string, g: Grant)
    requires Inv(cfg, s) && !IsPactGrant(id)
    ensures Good(cfg, s, s.(rows := InsertGrant(s.rows, id, g)), -1)
  {
    hide Inv, Good, AllTicked, ParseScope;
    Parts(cfg, s);
    GrantsElsewhere(cfg, s, s.rows.grants[id := g]);
  }

  /** A row of a token that no code of ours is the root of. */
  lemma ForeignToken(cfg: Config, s: Sys, token: string, row: RefreshToken)
    requires Inv(cfg, s) && !IsPactGrant(row.grantId)
    requires token in s.rows.refreshTokens ==> !IsPactGrant(s.rows.refreshTokens[token].grantId)
    ensures token !in s.log.root
    ensures TokensOK(s.rows.refreshTokens[token := row], s.log.root, s.log.bound, s.log.consumed, s.log.spent)
    ensures OneHeir(s.rows.refreshTokens[token := row], s.log.root, s.frames)
  {
    hide Inv, IsPactGrant, GrantsOK, SignedOK, BoundOK, RequestsOK, ClaimsOK, DevicesOK, FramesOK;
    Parts(cfg, s);
    if token in s.rows.refreshTokens { TokenFact(cfg, s, token); }
    var tokens' := s.rows.refreshTokens[token := row];
    assert token !in s.log.root;
    assert forall a :: IsUnused(tokens', s.log.root, a) ==> IsUnused(s.rows.refreshTokens, s.log.root, a);
  }

  lemma PoppyTokenKeeps(cfg: Config, s: Sys, token: string, row: RefreshToken)
    requires Inv(cfg, s) && !IsPactGrant(row.grantId)
    requires token in s.rows.refreshTokens ==> !IsPactGrant(s.rows.refreshTokens[token].grantId)
    ensures Good(cfg, s, s.(rows := InsertRefreshToken(s.rows, token, row)), -1)
  {
    hide Inv, IsPactGrant, Good, GrantsOK, SignedOK, BoundOK, RequestsOK, ClaimsOK, DevicesOK, FramesOK, TokensOK,
      OneHeir;
    Parts(cfg, s);
    ForeignToken(cfg, s, token, row);
    Assemble(cfg, s, s.(rows := InsertRefreshToken(s.rows, token, row)), -1);
  }

  lemma EnvironmentKeeps(cfg: Config, s: Sys, l: Label)
    requires Inv(cfg, s) && Enabled(s, l) && IsEnvironment(l.act)
    ensures Good(cfg, s, Step(cfg, s, l), -1)
  {
    hide Inv, Good, GrantsOK, GrantsKept;
    match l.act
    case PoppyGrant(id, g) => PoppyGrantKeeps(cfg, s, id, g);
    case PoppyToken(token, row) => PoppyTokenKeeps(cfg, s, token, row);
    case AccountRevoke(account, id, at) =>
      RevokedRows(cfg, s, account, id, at);
      GrantsSame(cfg, s);
      GrantsElsewhere(cfg, s, Step(cfg, s, l).rows.grants);
    case AccountRevokeAll(account, at) =>
      RevokedRows(cfg, s, account, "", at);
      GrantsElsewhere(cfg, s, Step(cfg, s, l).rows.grants);
    case AdminRevoke(id, at) =>
      RevokedRows(cfg, s, "", id, at);
      GrantsElsewhere(cfg, s, Step(cfg, s, l).rows.grants);
  }

  lemma GrantsSame(cfg: Config, s: Sys)
    requires Inv(cfg, s)
    ensures GrantsKept(s.rows.grants, s.rows.grants) && GrantsOK(s.rows.grants, s.log.claims)
  {
    hide Inv, GrantsOK;
    Parts(cfg, s);
  }

  /** One step, whichever it is. */
  lemma StepKeeps(cfg: Config, s: Sys, l: Label)
    requires Inv(cfg, s) && Enabled(s, l)
    ensures Inv(cfg, Step(cfg, s, l))
    ensures Grows(s, Step(cfg, s, l), if IsEnvironment(l.act) then -1 else l.task)
  {
    hide Inv, Grows;
    var t := l.task;
    match l.act
    case RequestDevice(agent, scope, code, now) => RequestDeviceKeeps(cfg, s, t, agent, scope, code, now);
    case InsertCode(userCode, ok) => InsertCodeKeeps(cfg, s, t, s.frames[t], userCode, ok);
    case ExchangeFind(agent, code, now) => ExchangeFindKeeps(cfg, s, t, agent, code, now);
    case Poll => PollKeeps(cfg, s, t, s.frames[t]);
    case ReadGrant(active, signed) => ReadGrantKeeps(cfg, s, t, s.frames[t], active, signed);
    case Consume => ConsumeKeeps(cfg, s, t, s.frames[t]);
    case IssueFirst(token) => IssueFirstKeeps(cfg, s, t, s.frames[t], token);
    case RefreshFind(agent, token, now) => RefreshFindKeeps(cfg, s, t, agent, token, now);
    case CheckRefresh(active) => CheckRefreshKeeps(cfg, s, t, s.frames[t], active);
    case Spend => SpendKeeps(cfg, s, t, s.frames[t]);
    case RevokeReused => RevokeReusedKeeps(cfg, s, t, s.frames[t]);
    case IssueNext(signed, token) => IssueNextKeeps(cfg, s, t, s.frames[t], signed, token);
    case ApproveFind(_, account, ticked, found, now) => ApproveFindKeeps(cfg, s, t, account, ticked, found, now);
    case ClaimCode => ClaimKeeps(cfg, s, t, s.frames[t]);
    case FindExisting(choice) => FindExistingKeeps(cfg, s, t, s.frames[t], choice);
    case Widen => WidenKeeps(cfg, s, t, s.frames[t]);
    case InsertNewGrant(id) => InsertGrantKeeps(cfg, s, t, s.frames[t], id);
    case Converge(live) =>
      SnapshotIsOfParty(s.rows, s.frames[t].who, s.frames[t].now, live);
      ConvergeKeeps(cfg, s, t, s.frames[t], live);
    case Merge => MergeKeeps(cfg, s, t, s.frames[t]);
    case RevokeExtra => RevokeExtraKeeps(cfg, s, t, s.frames[t]);
    case Bind => BindKeeps(cfg, s, t, s.frames[t]);
    case DenyFind(_, account, found) => DenyFindKeeps(cfg, s, t, account, found);
    case DenyCode => DenyKeeps(cfg, s, t, s.frames[t]);
    case Verify(agent, access, active, now) => VerifyKeeps(cfg, s, t, agent, access, active, now);
    case _ => EnvironmentKeeps(cfg, s, l);
  }

  lemma SnapshotIsOfParty(rows: Rows, who: Party, now: int, live: seq<string>)
    requires IsSnapshot(rows, who, now, live)
    ensures forall id :: id in live ==> id in rows.grants && IsGrantOf(rows.grants, id, who)
  {
  }

  lemma {:induction false} RunKeeps(cfg: Config, s: Sys, run: seq<Label>)
    requires Inv(cfg, s) && IsRun(cfg, s, run)
    ensures Inv(cfg, After(cfg, s, run))
    decreases |run|
  {
    hide Inv, Enabled, Step, Grows;
    if run != [] {
      StepKeeps(cfg, s, run[0]);
      RunKeeps(cfg, Step(cfg, s, run[0]), run[1..]);
    }
  }

  /** The invariant holds in every state any interleaving can reach from empty tables. */
  lemma ReachableInv(cfg: Config, s: Sys)
    requires Reachable(cfg, s)
    ensures Inv(cfg, s)
  {
    hide Enabled, Step, Grows, IsRun, After;
    var run :| IsRun(cfg, EMPTY, run) && After(cfg, EMPTY, run) == s;
    assert Inv(cfg, EMPTY);
    RunKeeps(cfg, EMPTY, run);
  }
}
