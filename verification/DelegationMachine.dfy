/**
 * Personal-agent delegation as a state machine. Every call of the service is a task; every `await` on the
 * store ends a step, so a run of the machine is an interleaving of the atomic store statements of any number
 * of concurrent calls, of revocations from the consoles, and of Poppy's own writes to the shared tables.
 * Signing and the account check touch no table, so their outcome is part of the step they follow. Each call
 * reads its own clock: nothing is assumed about the clocks of different calls.
 */
module DelegationMachine {
  import opened Wrappers
  import opened Scopes
  import opened DelegationRows

  datatype Agent = Agent(issuer: string, sub: string)

  /** TTLs are in seconds. */
  datatype Config = Config(
    scopes: set<string>, accessTokenTtl: int, grantTtl: int, deviceCodeTtl: int, pollInterval: int)

  datatype AccessToken = AccessToken(sub: string, clientId: string, scope: string, grantId: string, expiresAt: int)

  datatype OAuthError =
    | InvalidRequest | InvalidGrant | InvalidScope | AuthorizationPending | SlowDown | AccessDenied | ExpiredToken
    | GrantVanished | ServerError

  /** Which call a finished task was, and how it ended. `usable` is the grant a refresh found usable. */
  datatype Call =
    | RequestCall(agent: Agent)
    | ExchangeCall(agent: Agent, code: string)
    | RefreshCall(agent: Agent, token: string, usable: Option<string>)
    | ApproveCall(pending: Option<string>, accountId: string)
    | DenyCall
    | VerifyCall(agent: Agent)

  datatype Outcome =
    | DeviceIssued(code: string, userCode: string)
    | Tokens(grantId: string, access: AccessToken, refresh: string)
    | Granted(grantId: string, scopes: seq<string>)
    | NotGranted
    | Denial(denied: bool)
    | Context(who: Party, scopes: seq<string>, grantId: string)
    | NoContext
    | Failed(error: OAuthError)

  /** Where a call stands: the statement it is about to run, with the locals it still needs. */
  datatype Frame =
    | InsertingDevice(agent: Agent, scopes: seq<string>, now: int, code: string, attempt: nat)
    | Polling(agent: Agent, code: string, now: int, tooSoon: bool)
    | ReadingGrant(agent: Agent, code: string, grantId: string, now: int)
    | Consuming(agent: Agent, code: string, grantId: string, grant: Grant, access: AccessToken, now: int)
    | IssuingFirst(agent: Agent, code: string, grantId: string, grant: Grant, access: AccessToken, now: int)
    | CheckingRefresh(agent: Agent, token: string, row: RefreshToken, now: int)
    | Spending(agent: Agent, token: string, grantId: string, grant: Grant, now: int)
    | RevokingReused(agent: Agent, token: string, grantId: string, now: int)
    | IssuingNext(agent: Agent, token: string, grantId: string, grant: Grant, now: int)
    | Claiming(code: string, who: Party, granted: seq<string>, now: int)
    | FindingExisting(code: string, who: Party, granted: seq<string>, now: int)
    | Widening(code: string, who: Party, granted: seq<string>, now: int, grantId: string, scope: string)
    | InsertingGrant(code: string, who: Party, granted: seq<string>, now: int)
    | Converging(code: string, who: Party, now: int)
    | Merging(code: string, who: Party, now: int, survivor: string, extras: seq<string>, scope: string, expiresAt: int)
    | RevokingExtras(code: string, who: Party, now: int, survivor: string, extras: seq<string>, scopes: seq<string>)
    | Binding(code: string, who: Party, grantId: string, scopes: seq<string>)
    | Denying(code: string, accountId: string)
    | Done(call: Call, outcome: Outcome)

  datatype Request = Request(task: nat, agent: Agent, scopes: seq<string>)
  datatype Claim = Claim(task: nat, who: Party, granted: seq<string>)

  /**
   * What happened so far; it only grows. Device rows are deleted when they expire, the history keeps them:
   * who asked for a code and what, who approved it and what was ticked, which grant it was bound to, which
   * exchange consumed it, which call spent a refresh token, and the device code a refresh token descends from.
   */
  datatype History = History(
    requests: map<string, Request>, claims: map<string, Claim>, bound: map<string, string>,
    consumed: map<string, nat>, spent: map<string, nat>, root: map<string, string>, signed: set<AccessToken>)

  datatype Sys = Sys(rows: Rows, frames: map<nat, Frame>, log: History)

  const EMPTY := Sys(Rows(map[], map[], map[]), map[], History(map[], map[], map[], map[], map[], map[], {}))

  // Pure helpers of the service

  /** Properties every JavaScript object inherits: `id in cfg.scopes` holds for them too. */
  const INHERITED_NAMES := {
    "constructor", "hasOwnProperty", "isPrototypeOf", "propertyIsEnumerable", "toLocaleString", "toString",
    "valueOf", "__proto__", "__defineGetter__", "__defineSetter__", "__lookupGetter__", "__lookupSetter__"}

  predicate InScopes(cfg: Config, id: string) {
    id in cfg.scopes || id in INHERITED_NAMES
  }

  function UpperLetters(input: string): (letters: string)
    ensures forall c :: c in letters ==> 'A' <= c <= 'Z'
  {
    if input == "" then ""
    else if 'A' <= input[0] <= 'Z' then [input[0]] + UpperLetters(input[1..])
    else if 'a' <= input[0] <= 'z' then [input[0] - 'a' + 'A'] + UpperLetters(input[1..])
    else UpperLetters(input[1..])
  }

  function NormalizeUserCode(input: string): Option<string> {
    var letters := UpperLetters(input);
    if |letters| != 8 then None else Some(letters[..4] + "-" + letters[4..])
  }

  /** `requested.filter((id) => ticked.includes(id))`. */
  function Keep(requested: seq<string>, ticked: set<string>): (kept: seq<string>)
    requires IsScopeList(requested)
    ensures IsScopeList(kept)
    ensures forall x :: x in kept <==> x in requested && x in ticked
  {
    if requested == [] then []
    else
      assert requested == [requested[0]] + requested[1..];
      var rest := Keep(requested[1..], ticked);
      if requested[0] in ticked then [requested[0]] + rest else rest
  }

  /** `live.flatMap((g) => parseScope(g.scope))`. */
  function AllScopes(rows: Rows, ids: seq<string>): (xs: seq<string>)
    requires forall id :: id in ids ==> id in rows.grants
    ensures forall x :: x in xs ==> IsToken(x)
    ensures forall x :: x in xs <==> exists id :: id in ids && x in ParseScope(rows.grants[id].scope)
  {
    if ids == [] then []
    else
      assert ids == [ids[0]] + ids[1..];
      ParseScope(rows.grants[ids[0]].scope) + AllScopes(rows, ids[1..])
  }

  function LatestExpiry(rows: Rows, ids: seq<string>): (latest: int)
    requires ids != []
    requires forall id :: id in ids ==> id in rows.grants
    ensures exists id :: id in ids && rows.grants[id].expiresAt == latest
    ensures forall id :: id in ids ==> rows.grants[id].expiresAt <= latest
  {
    assert ids == [ids[0]] + ids[1..];
    var first := rows.grants[ids[0]].expiresAt;
    if |ids| == 1 then first
    else
      var rest := LatestExpiry(rows, ids[1..]);
      if first < rest then rest else first
  }

  /** `#grantUsable`; `active` is the answer of the account check. */
  predicate Usable(id: string, g: Grant, agent: Agent, now: int, active: bool) {
    && IsPactGrant(id)
    && g.revokedAt.None?
    && g.expiresAt > now
    && g.clientId == agent.issuer
    && g.agentSub == agent.sub
    && active
  }

  function Sign(cfg: Config, id: string, g: Grant, now: int): AccessToken {
    AccessToken(g.accountId, g.clientId, g.scope, id, now / 1000 + cfg.accessTokenTtl)
  }

  // Steps

  datatype Action =
    | RequestDevice(agent: Agent, scope: string, code: string, now: int)
    | InsertCode(userCode: string, ok: bool)
    | ExchangeFind(agent: Agent, code: string, now: int)
    | Poll
    | ReadGrant(active: bool, signed: bool)
    | Consume
    | IssueFirst(token: string)
    | RefreshFind(agent: Agent, token: string, now: int)
    | CheckRefresh(active: bool)
    | Spend
    | RevokeReused
    | IssueNext(signed: bool, token: string)
    | ApproveFind(input: string, accountId: string, ticked: set<string>, found: Option<string>, now: int)
    | ClaimCode
    | FindExisting(choice: Option<string>)
    | Widen
    | InsertNewGrant(grantId: string)
    | Converge(live: seq<string>)
    | Merge
    | RevokeExtra
    | Bind
    | DenyFind(input: string, accountId: string, found: Option<string>)
    | DenyCode
    | Verify(agent: Agent, access: AccessToken, active: bool, now: int)
    | AccountRevoke(accountId: string, grantId: string, now: int)
    | AccountRevokeAll(accountId: string, now: int)
    | AdminRevoke(grantId: string, now: int)
    | PoppyGrant(grantId: string, grant: Grant)
    | PoppyToken(token: string, row: RefreshToken)

  datatype Label = Label(task: nat, act: Action)

  /** Lookup by user code: only a well-formed code is looked up at all. */
  predicate Finds(rows: Rows, input: string, found: Option<string>) {
    match NormalizeUserCode(input)
    case None => found.None?
    case Some(userCode) => FindsUserCode(rows, userCode, found)
  }

  /**
   * When a step can happen. A call starts under a task number never used before. Random codes, ids and
   * tokens are new; an insert that succeeds did not collide on the unique `user_code`. Poppy touches only
   * grants with its own prefix and refresh tokens bound to those.
   */
  ghost predicate Enabled(s: Sys, l: Label) {
    var t := l.task;
    match l.act
    case RequestDevice(_, _, code, _) => t !in s.frames && code !in s.log.requests
    case InsertCode(userCode, ok) =>
      && t in s.frames && s.frames[t].InsertingDevice?
      && (ok ==> forall c :: c in s.rows.devices ==> s.rows.devices[c].userCode != userCode)
    case ExchangeFind(_, _, _) => t !in s.frames
    case Poll => t in s.frames && s.frames[t].Polling?
    case ReadGrant(_, _) => t in s.frames && s.frames[t].ReadingGrant?
    case Consume => t in s.frames && s.frames[t].Consuming?
    case IssueFirst(token) => t in s.frames && s.frames[t].IssuingFirst? && token !in s.rows.refreshTokens
    case RefreshFind(_, _, _) => t !in s.frames
    case CheckRefresh(_) => t in s.frames && s.frames[t].CheckingRefresh?
    case Spend => t in s.frames && s.frames[t].Spending?
    case RevokeReused => t in s.frames && s.frames[t].RevokingReused?
    case IssueNext(_, token) => t in s.frames && s.frames[t].IssuingNext? && token !in s.rows.refreshTokens
    case ApproveFind(input, _, _, found, _) => t !in s.frames && Finds(s.rows, input, found)
    case ClaimCode => t in s.frames && s.frames[t].Claiming?
    case FindExisting(choice) =>
      && t in s.frames && s.frames[t].FindingExisting?
      && IsMostRecent(s.rows, s.frames[t].who, s.frames[t].now, choice)
    case Widen => t in s.frames && s.frames[t].Widening?
    case InsertNewGrant(id) =>
      t in s.frames && s.frames[t].InsertingGrant? && id !in s.rows.grants && IsPactGrant(id)
    case Converge(live) =>
      && t in s.frames && s.frames[t].Converging?
      && IsSnapshot(s.rows, s.frames[t].who, s.frames[t].now, live)
    case Merge => t in s.frames && s.frames[t].Merging?
    case RevokeExtra => t in s.frames && s.frames[t].RevokingExtras? && s.frames[t].extras != []
    case Bind => t in s.frames && s.frames[t].Binding?
    case DenyFind(input, _, found) => t !in s.frames && Finds(s.rows, input, found)
    case DenyCode => t in s.frames && s.frames[t].Denying?
    case Verify(_, _, _, _) => t !in s.frames
    case AccountRevoke(_, _, _) => true
    case AccountRevokeAll(_, _) => true
    case AdminRevoke(_, _) => true
    case PoppyGrant(id, _) => !IsPactGrant(id)
    case PoppyToken(token, row) =>
      && !IsPactGrant(row.grantId)
      && (token in s.rows.refreshTokens ==> !IsPactGrant(s.rows.refreshTokens[token].grantId))
  }

  /** `s` with task `t` now at `f`. */
  function At(s: Sys, t: nat, f: Frame): Sys {
    s.(frames := s.frames[t := f])
  }

  function StepRequestDevice(cfg: Config, s: Sys, t: nat, agent: Agent, scope: string, code: string, now: int): Sys {
    var scopes := ParseScope(scope);
    if scopes == [] || exists id :: id in scopes && !InScopes(cfg, id) then
      At(s, t, Done(RequestCall(agent), Failed(InvalidScope)))
    else
      At(s, t, InsertingDevice(agent, scopes, now, code, 0))
        .(rows := DeleteDevicesExpiredBefore(s.rows, now),
          log := s.log.(requests := s.log.requests[code := Request(t, agent, scopes)]))
  }

  function StepInsertCode(cfg: Config, s: Sys, t: nat, f: Frame, userCode: string, ok: bool): Sys
    requires f.InsertingDevice?
  {
    if ok then
      var device := Device(userCode, f.agent.issuer, f.agent.sub, FormatScope(f.scopes), Pending, None, None,
                           cfg.pollInterval, None, f.now + cfg.deviceCodeTtl * 1000);
      At(s, t, Done(RequestCall(f.agent), DeviceIssued(f.code, userCode)))
        .(rows := InsertDevice(s.rows, f.code, device))
    else if f.attempt >= 2 then At(s, t, Done(RequestCall(f.agent), Failed(ServerError)))
    else At(s, t, f.(attempt := f.attempt + 1))
  }

  function StepExchangeFind(s: Sys, t: nat, agent: Agent, code: string, now: int): Sys {
    var call := ExchangeCall(agent, code);
    if code == "" then At(s, t, Done(call, Failed(InvalidRequest)))
    else if code !in s.rows.devices then At(s, t, Done(call, Failed(InvalidGrant)))
    else
      var row := s.rows.devices[code];
      if row.clientId != agent.issuer || row.agentSub != agent.sub then At(s, t, Done(call, Failed(InvalidGrant)))
      else if row.status == Denied then At(s, t, Done(call, Failed(AccessDenied)))
      else if row.status == Consumed then At(s, t, Done(call, Failed(InvalidGrant)))
      else if row.expiresAt <= now then At(s, t, Done(call, Failed(ExpiredToken)))
      else if row.status == Pending || row.grantId.None? then
        At(s, t, Polling(agent, code, now,
                         row.lastPolledAt.Some? && now - row.lastPolledAt.value < row.intervalSeconds * 1000))
      else At(s, t, ReadingGrant(agent, code, row.grantId.value, now))
  }

  function StepPoll(s: Sys, t: nat, f: Frame): Sys
    requires f.Polling?
  {
    At(s, t, Done(ExchangeCall(f.agent, f.code), Failed(if f.tooSoon then SlowDown else AuthorizationPending)))
      .(rows := MarkPolled(s.rows, f.code, f.now))
  }

  function StepReadGrant(cfg: Config, s: Sys, t: nat, f: Frame, active: bool, signed: bool): Sys
    requires f.ReadingGrant?
  {
    var call := ExchangeCall(f.agent, f.code);
    if f.grantId !in s.rows.grants || !Usable(f.grantId, s.rows.grants[f.grantId], f.agent, f.now, active) then
      At(s, t, Done(call, Failed(InvalidGrant)))
    else if !signed then At(s, t, Done(call, Failed(ServerError)))
    else
      var grant := s.rows.grants[f.grantId];
      var access := Sign(cfg, f.grantId, grant, f.now);
      At(s, t, Consuming(f.agent, f.code, f.grantId, grant, access, f.now))
        .(log := s.log.(signed := s.log.signed + {access}))
  }

  function StepConsume(s: Sys, t: nat, f: Frame): Sys
    requires f.Consuming?
  {
    if CanTransition(s.rows, f.code, Approved) then
      At(s, t, IssuingFirst(f.agent, f.code, f.grantId, f.grant, f.access, f.now))
        .(rows := TransitionDevice(s.rows, f.code, Approved, Consumed, None),
          log := s.log.(consumed := s.log.consumed[f.code := t]))
    else At(s, t, Done(ExchangeCall(f.agent, f.code), Failed(InvalidGrant)))
  }

  function StepIssueFirst(s: Sys, t: nat, f: Frame, token: string): Sys
    requires f.IssuingFirst?
  {
    At(s, t, Done(ExchangeCall(f.agent, f.code), Tokens(f.grantId, f.access, token)))
      .(rows := InsertRefreshToken(s.rows, token, RefreshToken(f.grantId, f.grant.expiresAt, None)),
        log := s.log.(root := s.log.root[token := f.code]))
  }

  function StepRefreshFind(s: Sys, t: nat, agent: Agent, token: string, now: int): Sys {
    var call := RefreshCall(agent, token, None);
    if token == "" then At(s, t, Done(call, Failed(InvalidRequest)))
    else if token !in s.rows.refreshTokens || s.rows.refreshTokens[token].expiresAt <= now then
      At(s, t, Done(call, Failed(InvalidGrant)))
    else At(s, t, CheckingRefresh(agent, token, s.rows.refreshTokens[token], now))
  }

  function StepCheckRefresh(s: Sys, t: nat, f: Frame, active: bool): Sys
    requires f.CheckingRefresh?
  {
    var id := f.row.grantId;
    if id !in s.rows.grants || !Usable(id, s.rows.grants[id], f.agent, f.now, active) then
      At(s, t, Done(RefreshCall(f.agent, f.token, None), Failed(InvalidGrant)))
    else if f.row.usedAt.Some? then At(s, t, RevokingReused(f.agent, f.token, id, f.now))
    else At(s, t, Spending(f.agent, f.token, id, s.rows.grants[id], f.now))
  }

  function StepSpend(s: Sys, t: nat, f: Frame): Sys
    requires f.Spending?
  {
    if CanUse(s.rows, f.token) then
      At(s, t, IssuingNext(f.agent, f.token, f.grantId, f.grant, f.now))
        .(rows := UseRefreshToken(s.rows, f.token, f.now), log := s.log.(spent := s.log.spent[f.token := t]))
    else At(s, t, RevokingReused(f.agent, f.token, f.grantId, f.now))
  }

  function StepRevokeReused(s: Sys, t: nat, f: Frame): Sys
    requires f.RevokingReused?
  {
    At(s, t, Done(RefreshCall(f.agent, f.token, Some(f.grantId)), Failed(InvalidGrant)))
      .(rows := RevokeGrantById(s.rows, f.grantId, f.now))
  }

  function StepIssueNext(cfg: Config, s: Sys, t: nat, f: Frame, signed: bool, token: string): Sys
    requires f.IssuingNext?
  {
    var call := RefreshCall(f.agent, f.token, Some(f.grantId));
    if !signed then At(s, t, Done(call, Failed(ServerError)))
    else
      var access := Sign(cfg, f.grantId, f.grant, f.now);
      At(s, t, Done(call, Tokens(f.grantId, access, token)))
        .(rows := InsertRefreshToken(s.rows, token, RefreshToken(f.grantId, f.grant.expiresAt, None)),
          log := s.log.(signed := s.log.signed + {access},
                        root := if f.token in s.log.root then s.log.root[token := s.log.root[f.token]] else s.log.root))
  }

  function StepApproveFind(
    s: Sys, t: nat, accountId: string, ticked: set<string>, found: Option<string>, now: int): Sys
    requires found.Some? ==> found.value in s.rows.devices
  {
    var none := At(s, t, Done(ApproveCall(found, accountId), NotGranted));
    if found.None? then none
    else
      var row := s.rows.devices[found.value];
      if row.status != Pending || row.expiresAt <= now then none
      else
        var granted := Keep(ParseScope(row.requestedScope), ticked);
        if granted == [] then none
        else At(s, t, Claiming(found.value, Party(accountId, row.clientId, row.agentSub), granted, now))
  }

  function StepClaim(s: Sys, t: nat, f: Frame): Sys
    requires f.Claiming?
  {
    if CanTransition(s.rows, f.code, Pending) then
      At(s, t, FindingExisting(f.code, f.who, f.granted, f.now))
        .(rows := TransitionDevice(s.rows, f.code, Pending, Approved, Some(f.who.accountId)),
          log := s.log.(claims := s.log.claims[f.code := Claim(t, f.who, f.granted)]))
    else At(s, t, Done(ApproveCall(Some(f.code), f.who.accountId), NotGranted))
  }

  function StepFindExisting(s: Sys, t: nat, f: Frame, choice: Option<string>): Sys
    requires f.FindingExisting?
    requires choice.Some? ==> choice.value in s.rows.grants
  {
    if choice.None? then At(s, t, InsertingGrant(f.code, f.who, f.granted, f.now))
    else
      var scope := FormatScope(Dedup(ParseScope(s.rows.grants[choice.value].scope) + f.granted));
      At(s, t, Widening(f.code, f.who, f.granted, f.now, choice.value, scope))
  }

  function StepWiden(cfg: Config, s: Sys, t: nat, f: Frame): Sys
    requires f.Widening?
  {
    if Unrevoked(s.rows, f.grantId) then
      At(s, t, Binding(f.code, f.who, f.grantId, ParseScope(f.scope)))
        .(rows := UpdateGrant(s.rows, f.grantId, f.scope, f.now + cfg.grantTtl * 1000, f.now))
    else At(s, t, InsertingGrant(f.code, f.who, f.granted, f.now))
  }

  function StepInsertGrant(cfg: Config, s: Sys, t: nat, f: Frame, id: string): Sys
    requires f.InsertingGrant?
  {
    var grant := Grant(f.who.accountId, f.who.clientId, f.who.agentSub, FormatScope(f.granted),
                       f.now + cfg.grantTtl * 1000, None, f.now, f.now);
    At(s, t, Converging(f.code, f.who, f.now)).(rows := InsertGrant(s.rows, id, grant))
  }

  function StepConverge(s: Sys, t: nat, f: Frame, live: seq<string>): Sys
    requires f.Converging?
    requires forall id :: id in live ==> id in s.rows.grants
  {
    if live == [] then
      At(s, t, Done(ApproveCall(Some(f.code), f.who.accountId), Failed(GrantVanished)))
    else if |live| == 1 then
      At(s, t, Binding(f.code, f.who, live[0], ParseScope(s.rows.grants[live[0]].scope)))
    else
      At(s, t, Merging(f.code, f.who, f.now, live[0], live[1..],
                       FormatScope(Dedup(AllScopes(s.rows, live))), LatestExpiry(s.rows, live)))
  }

  function StepMerge(s: Sys, t: nat, f: Frame): Sys
    requires f.Merging?
  {
    At(s, t, RevokingExtras(f.code, f.who, f.now, f.survivor, f.extras, ParseScope(f.scope)))
      .(rows := UpdateGrant(s.rows, f.survivor, f.scope, f.expiresAt, f.now))
  }

  function StepRevokeExtra(s: Sys, t: nat, f: Frame): Sys
    requires f.RevokingExtras? && f.extras != []
  {
    At(s, t, if |f.extras| == 1 then Binding(f.code, f.who, f.survivor, f.scopes) else f.(extras := f.extras[1..]))
      .(rows := RevokeGrantById(s.rows, f.extras[0], f.now))
  }

  function StepBind(s: Sys, t: nat, f: Frame): Sys
    requires f.Binding?
  {
    At(s, t, Done(ApproveCall(Some(f.code), f.who.accountId), Granted(f.grantId, f.scopes)))
      .(rows := SetDeviceGrant(s.rows, f.code, f.grantId),
        log := s.log.(bound := s.log.bound[f.code := f.grantId]))
  }

  function StepDenyFind(s: Sys, t: nat, accountId: string, found: Option<string>): Sys
    requires found.Some? ==> found.value in s.rows.devices
  {
    if found.None? || s.rows.devices[found.value].status != Pending then At(s, t, Done(DenyCall, Denial(false)))
    else At(s, t, Denying(found.value, accountId))
  }

  function StepDeny(s: Sys, t: nat, f: Frame): Sys
    requires f.Denying?
  {
    At(s, t, Done(DenyCall, Denial(CanTransition(s.rows, f.code, Pending))))
      .(rows := TransitionDevice(s.rows, f.code, Pending, Denied, Some(f.accountId)))
  }

  /** A token is genuine only if this service signed it, and `exp` is compared in whole seconds. */
  function StepVerify(s: Sys, t: nat, agent: Agent, token: AccessToken, active: bool, now: int): Sys {
    var ok :=
      && token in s.log.signed
      && token.expiresAt > now / 1000
      && token.clientId == agent.issuer
      && token.grantId in s.rows.grants
      && s.rows.grants[token.grantId].accountId == token.sub
      && Usable(token.grantId, s.rows.grants[token.grantId], agent, now, active);
    At(s, t, Done(VerifyCall(agent),
                  if ok then Context(Party(token.sub, agent.issuer, agent.sub), ParseScope(token.scope), token.grantId)
                  else NoContext))
  }

  ghost function Step(cfg: Config, s: Sys, l: Label): Sys
    requires Enabled(s, l)
  {
    var t := l.task;
    match l.act
    case RequestDevice(agent, scope, code, now) => StepRequestDevice(cfg, s, t, agent, scope, code, now)
    case InsertCode(userCode, ok) => StepInsertCode(cfg, s, t, s.frames[t], userCode, ok)
    case ExchangeFind(agent, code, now) => StepExchangeFind(s, t, agent, code, now)
    case Poll => StepPoll(s, t, s.frames[t])
    case ReadGrant(active, signed) => StepReadGrant(cfg, s, t, s.frames[t], active, signed)
    case Consume => StepConsume(s, t, s.frames[t])
    case IssueFirst(token) => StepIssueFirst(s, t, s.frames[t], token)
    case RefreshFind(agent, token, now) => StepRefreshFind(s, t, agent, token, now)
    case CheckRefresh(active) => StepCheckRefresh(s, t, s.frames[t], active)
    case Spend => StepSpend(s, t, s.frames[t])
    case RevokeReused => StepRevokeReused(s, t, s.frames[t])
    case IssueNext(signed, token) => StepIssueNext(cfg, s, t, s.frames[t], signed, token)
    case ApproveFind(_, accountId, ticked, found, now) => StepApproveFind(s, t, accountId, ticked, found, now)
    case ClaimCode => StepClaim(s, t, s.frames[t])
    case FindExisting(choice) => StepFindExisting(s, t, s.frames[t], choice)
    case Widen => StepWiden(cfg, s, t, s.frames[t])
    case InsertNewGrant(id) => StepInsertGrant(cfg, s, t, s.frames[t], id)
    case Converge(live) => StepConverge(s, t, s.frames[t], live)
    case Merge => StepMerge(s, t, s.frames[t])
    case RevokeExtra => StepRevokeExtra(s, t, s.frames[t])
    case Bind => StepBind(s, t, s.frames[t])
    case DenyFind(_, accountId, found) => StepDenyFind(s, t, accountId, found)
    case DenyCode => StepDeny(s, t, s.frames[t])
    case Verify(agent, token, active, now) => StepVerify(s, t, agent, token, active, now)
    case AccountRevoke(accountId, id, now) =>
      if IsPactGrant(id) then s.(rows := RevokeGrant(s.rows, accountId, id, now)) else s
    case AccountRevokeAll(accountId, now) => s.(rows := RevokeAllGrants(s.rows, accountId, now))
    case AdminRevoke(id, now) => s.(rows := RevokeGrantById(s.rows, id, now))
    case PoppyGrant(id, grant) => s.(rows := InsertGrant(s.rows, id, grant))
    case PoppyToken(token, row) => s.(rows := InsertRefreshToken(s.rows, token, row))
  }

  /** Every label of `run` is enabled where it happens, starting from `s`. */
  ghost predicate IsRun(cfg: Config, s: Sys, run: seq<Label>)
    decreases |run|
  {
    run == [] || (Enabled(s, run[0]) && IsRun(cfg, Step(cfg, s, run[0]), run[1..]))
  }

  ghost function After(cfg: Config, s: Sys, run: seq<Label>): Sys
    requires IsRun(cfg, s, run)
    decreases |run|
  {
    if run == [] then s else After(cfg, Step(cfg, s, run[0]), run[1..])
  }

  /** A state some run reaches from the empty tables. */
  ghost predicate Reachable(cfg: Config, s: Sys) {
    exists run :: IsRun(cfg, EMPTY, run) && After(cfg, EMPTY, run) == s
  }
}
