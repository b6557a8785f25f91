/**
 * `DelegationService` as written: store statements one after the other, other calls running in between. Beside its
 * tables the service carries the state of the machine; every method moves its own task through it, statement by
 * statement, so whatever it returns is an outcome of a reachable state, and every theorem about those applies to it.
 */
module DelegationServices {
  import opened Wrappers
  import opened Scopes
  import opened DelegationRows
  import opened DelegationMachine
  import DelegationTheorems
  import opened DelegationExchange
  import opened DelegationRefresh
  import opened DelegationApproval
  import opened DelegationRequests
  import DelegationConvergence

  class DelegationService {
    const cfg: Config
    var rows: Rows
    ghost var sys: Sys

    ghost predicate Valid()
      reads this
    {
      sys.rows == rows && Reachable(cfg, sys)
    }

    /** The call numbered `me` has got as far as `f`. */
    ghost predicate Stands(me: nat, f: Frame)
      reads this
    {
      me in sys.frames && sys.frames[me] == f
    }

    constructor (cfg: Config)
      ensures Valid() && this.cfg == cfg && sys == EMPTY
    {
      this.cfg, rows, sys := cfg, Rows(map[], map[], map[]), EMPTY;
      new;
      assert IsRun(cfg, EMPTY, []) && After(cfg, EMPTY, []) == EMPTY;
    }

    ghost method Advance(l: Label)
      requires Reachable(cfg, sys) && Enabled(sys, l)
      modifies `sys
      ensures sys == Step(cfg, old(sys), l) && Reachable(cfg, sys)
    {
      DelegationTheorems.ReachableStep(cfg, sys, l);
      sys := Step(cfg, sys, l);
    }

    /** Other calls run: callers know only that the state is reachable and that their own call has not moved. */
    method Others(me: nat, ghost f: Frame)
      requires Valid() && Stands(me, f)
      modifies this
      ensures Valid() && Stands(me, f)
    {
    }

    /** A random token the store does not hold yet. */
    method RandomToken() returns (token: string)
      ensures token !in rows.refreshTokens
    {
      FreshText(rows.refreshTokens.Keys);
      token :| token !in rows.refreshTokens;
    }

    method ExchangeDeviceCode(me: nat, agent: Agent, code: string, now: int, active: bool, signed: bool)
      returns (outcome: Outcome)
      requires Valid() && me !in sys.frames
      modifies this
      ensures Valid() && Stands(me, Done(ExchangeCall(agent, code), outcome))
      ensures Told(old(rows), agent, code, now, Done(ExchangeCall(agent, code), outcome))
    {
      hide Reachable, Told;
      FindTells(cfg, sys, Label(me, ExchangeFind(agent, code, now)));
      Advance(Label(me, ExchangeFind(agent, code, now)));
      if code == "" {
        return Failed(InvalidRequest);
      }
      if code !in rows.devices {
        return Failed(InvalidGrant);
      }
      var row := rows.devices[code];
      if row.clientId != agent.issuer || row.agentSub != agent.sub {
        return Failed(InvalidGrant);
      }
      if row.status == Denied {
        return Failed(AccessDenied);
      }
      if row.status == Consumed {
        return Failed(InvalidGrant);
      }
      if row.expiresAt <= now {
        return Failed(ExpiredToken);
      }
      if row.status == Pending || row.grantId.None? {
        var tooSoon := row.lastPolledAt.Some? && now - row.lastPolledAt.value < row.intervalSeconds * 1000;
        AwaitedEnds(rows, agent, code, now);
        Others(me, Polling(agent, code, now, tooSoon));
        rows := MarkPolled(rows, code, now);
        Advance(Label(me, Poll));
        return Failed(if tooSoon then SlowDown else AuthorizationPending);
      }

      assert Ready(rows, agent, code, now, row.grantId.value);
      ghost var was := rows;
      outcome := ReadAndConsume(me, agent, code, row.grantId.value, now, active, signed);
      ReadyEnds(was, agent, code, now, row.grantId.value, outcome);
    }

    /** An exchange of a code that is approved: the grant is read and the access token signed. */
    method ReadAndConsume(
        me: nat, agent: Agent, code: string, grantId: string, now: int, active: bool, signed: bool)
      returns (outcome: Outcome)
      requires Valid() && Stands(me, ReadingGrant(agent, code, grantId, now))
      modifies this
      ensures Valid() && Stands(me, Done(ExchangeCall(agent, code), outcome))
      ensures if outcome.Tokens? then outcome.grantId == grantId
        else outcome in {Failed(InvalidGrant), Failed(ServerError)}
    {
      hide Reachable;
      Others(me, ReadingGrant(agent, code, grantId, now));
      Advance(Label(me, ReadGrant(active, signed)));
      if grantId !in rows.grants || !Usable(grantId, rows.grants[grantId], agent, now, active) {
        return Failed(InvalidGrant);
      }
      if !signed {
        return Failed(ServerError);
      }
      var grant := rows.grants[grantId];
      var access := Sign(cfg, grantId, grant, now);

      outcome := Consume(me, agent, code, grantId, grant, access, now);
    }

    /** The end of an exchange: the code is consumed, or another exchange was faster. */
    method Consume(me: nat, agent: Agent, code: string, grantId: string, grant: Grant, access: AccessToken, now: int)
      returns (outcome: Outcome)
      requires Valid() && Stands(me, Consuming(agent, code, grantId, grant, access, now))
      modifies this
      ensures Valid() && Stands(me, Done(ExchangeCall(agent, code), outcome))
      ensures if outcome.Tokens? then outcome.grantId == grantId && outcome.access == access
        else outcome == Failed(InvalidGrant)
    {
      hide Reachable;
      Others(me, Consuming(agent, code, grantId, grant, access, now));
      var consumed := CanTransition(rows, code, Approved);
      rows := TransitionDevice(rows, code, Approved, Consumed, None);
      Advance(Label(me, Action.Consume));
      if !consumed {
        return Failed(InvalidGrant);
      }

      Others(me, IssuingFirst(agent, code, grantId, grant, access, now));
      var token := RandomToken();
      rows := InsertRefreshToken(rows, token, RefreshToken(grantId, grant.expiresAt, None));
      Advance(Label(me, IssueFirst(token)));
      return Tokens(grantId, access, token);
    }

    /** The call ends as a refresh of `refreshToken`, whether or not it found the grant usable, as `was` tells it. */
    ghost predicate Refreshed(me: nat, was: Rows, agent: Agent, refreshToken: string, now: int, outcome: Outcome)
      reads this
    {
      exists usable ::
        && Stands(me, Done(RefreshCall(agent, refreshToken, usable), outcome))
        && RefreshTold(was, agent, refreshToken, now, Done(RefreshCall(agent, refreshToken, usable), outcome))
    }

    method Refresh(me: nat, agent: Agent, refreshToken: string, now: int, active: bool, signed: bool)
      returns (outcome: Outcome)
      requires Valid() && me !in sys.frames
      modifies this
      ensures Valid() && Refreshed(me, old(rows), agent, refreshToken, now, outcome)
    {
      hide Reachable, RefreshTold;
      ghost var was := rows;
      LookUpTells(cfg, sys, Label(me, RefreshFind(agent, refreshToken, now)));
      Advance(Label(me, RefreshFind(agent, refreshToken, now)));
      if refreshToken == "" {
        assert Stands(me, Done(RefreshCall(agent, refreshToken, None), Failed(InvalidRequest)));
        return Failed(InvalidRequest);
      }
      if refreshToken !in rows.refreshTokens || rows.refreshTokens[refreshToken].expiresAt <= now {
        assert Stands(me, Done(RefreshCall(agent, refreshToken, None), Failed(InvalidGrant)));
        return Failed(InvalidGrant);
      }
      var row := rows.refreshTokens[refreshToken];
      CheckEnds(was, agent, refreshToken, now);

      Others(me, CheckingRefresh(agent, refreshToken, row, now));
      Advance(Label(me, CheckRefresh(active)));
      if row.grantId !in rows.grants || !Usable(row.grantId, rows.grants[row.grantId], agent, now, active) {
        assert Stands(me, Done(RefreshCall(agent, refreshToken, None), Failed(InvalidGrant)));
        return Failed(InvalidGrant);
      }
      var grant := rows.grants[row.grantId];
      outcome := SpendOrRevoke(me, agent, refreshToken, row, grant, now, signed);
      ValidEnds(was, agent, refreshToken, now, outcome);
      assert Stands(me, Done(RefreshCall(agent, refreshToken, Some(row.grantId)), outcome));
    }

    /** A second use revokes the grant; the first one rotates the token. */
    method SpendOrRevoke(
        me: nat, agent: Agent, refreshToken: string, row: RefreshToken, grant: Grant, now: int, signed: bool)
      returns (outcome: Outcome)
      requires Valid()
      requires Stands(me, if row.usedAt.Some? then RevokingReused(agent, refreshToken, row.grantId, now)
                          else Spending(agent, refreshToken, row.grantId, grant, now))
      modifies this
      ensures Valid() && Stands(me, Done(RefreshCall(agent, refreshToken, Some(row.grantId)), outcome))
      ensures outcome.Tokens? ==> outcome.grantId == row.grantId && row.usedAt.None?
      ensures !outcome.Tokens? ==> outcome in {Failed(InvalidGrant), Failed(ServerError)}
    {
      hide Reachable;
      var id := row.grantId;
      var spent := false;
      if row.usedAt.None? {
        Others(me, Spending(agent, refreshToken, id, grant, now));
        spent := CanUse(rows, refreshToken);
        rows := UseRefreshToken(rows, refreshToken, now);
        Advance(Label(me, Spend));
      }
      if !spent {
        Others(me, RevokingReused(agent, refreshToken, id, now));
        rows := RevokeGrantById(rows, id, now);
        Advance(Label(me, RevokeReused));
        return Failed(InvalidGrant);
      }

      Others(me, IssuingNext(agent, refreshToken, id, grant, now));
      var token := RandomToken();
      if signed {
        rows := InsertRefreshToken(rows, token, RefreshToken(id, grant.expiresAt, None));
      }
      Advance(Label(me, IssueNext(signed, token)));
      return if signed then Tokens(id, Sign(cfg, id, grant, now), token) else Failed(ServerError);
    }

    // Consent

    /** `findDeviceByUserCode`, only for input that normalises to a code. */
    method FindByUserCode(input: string) returns (found: Option<string>)
      ensures Finds(rows, input, found)
    {
      var normalized := NormalizeUserCode(input);
      if normalized.None? {
        return None;
      }
      var left := rows.devices.Keys;
      while left != {}
        invariant left <= rows.devices.Keys
        invariant forall code :: code in rows.devices && code !in left ==>
          rows.devices[code].userCode != normalized.value
        decreases |left|
      {
        var code :| code in left;
        if rows.devices[code].userCode == normalized.value {
          return Some(code);
        }
        left := left - {code};
      }
      return None;
    }

    /** The call ends as an approval, of the code `was` has for the input if it has one, as `was` tells it. */
    ghost predicate Decided(
      me: nat, was: Rows, input: string, accountId: string, ticked: set<string>, now: int, outcome: Outcome)
      reads this
    {
      exists pending ::
        && Finds(was, input, pending) && Stands(me, Done(ApproveCall(pending, accountId), outcome))
        && ApproveTold(was, pending, accountId, ticked, now, Done(ApproveCall(pending, accountId), outcome))
    }

    method Approve(me: nat, input: string, accountId: string, ticked: set<string>, now: int) returns (outcome: Outcome)
      requires Valid() && me !in sys.frames
      modifies this
      ensures Valid() && Decided(me, old(rows), input, accountId, ticked, now, outcome)
    {
      hide Reachable, ApproveTold, MayGrant, NormalizeUserCode;
      var found := FindByUserCode(input);
      ghost var was := rows;
      ApproveFindTells(cfg, sys, Label(me, ApproveFind(input, accountId, ticked, found, now)));
      Advance(Label(me, ApproveFind(input, accountId, ticked, found, now)));
      if found.None? || rows.devices[found.value].status != Pending || rows.devices[found.value].expiresAt <= now {
        assert Stands(me, Done(ApproveCall(found, accountId), NotGranted));
        return NotGranted;
      }
      var row := rows.devices[found.value];
      var granted := Keep(ParseScope(row.requestedScope), ticked);
      if granted == [] {
        assert Stands(me, Done(ApproveCall(found, accountId), NotGranted));
        return NotGranted;
      }
      KeptIsDecidable(was, found, ticked, now);
      outcome := Claim(me, found.value, Party(accountId, row.clientId, row.agentSub), granted, now);
      DecidableEnds(was, found, accountId, ticked, now, outcome);
    }

    /** Of several approvals of one code, one gets past this. */
    method Claim(me: nat, code: string, who: Party, granted: seq<string>, now: int) returns (outcome: Outcome)
      requires Valid() && Stands(me, Claiming(code, who, granted, now))
      modifies this
      ensures Valid() && Stands(me, Done(ApproveCall(Some(code), who.accountId), outcome))
      ensures outcome.Granted? || outcome.NotGranted? || outcome == Failed(GrantVanished)
    {
      hide Reachable;
      Others(me, Claiming(code, who, granted, now));
      var claimed := CanTransition(rows, code, Pending);
      rows := TransitionDevice(rows, code, Pending, Approved, Some(who.accountId));
      Advance(Label(me, ClaimCode));
      if !claimed {
        return NotGranted;
      }
      outcome := WidenOrInsert(me, code, who, granted, now);
    }

    /** Adds to the live grant updated last, unless there is none or it is revoked meanwhile. */
    method WidenOrInsert(me: nat, code: string, who: Party, granted: seq<string>, now: int) returns (outcome: Outcome)
      requires Valid() && Stands(me, FindingExisting(code, who, granted, now))
      modifies this
      ensures Valid() && Stands(me, Done(ApproveCall(Some(code), who.accountId), outcome))
      ensures outcome.Granted? || outcome == Failed(GrantVanished)
    {
      hide Reachable;
      Others(me, FindingExisting(code, who, granted, now));
      var existing := MostRecentLive(who, now);
      Advance(Label(me, FindExisting(existing)));
      if existing.Some? {
        var scope := FormatScope(Dedup(ParseScope(rows.grants[existing.value].scope) + granted));
        outcome := Widen(me, code, who, granted, now, existing.value, scope);
      } else {
        outcome := InsertAndConverge(me, code, who, granted, now);
      }
    }

    method Widen(me: nat, code: string, who: Party, granted: seq<string>, now: int, grantId: string, scope: string)
      returns (outcome: Outcome)
      requires Valid() && Stands(me, Widening(code, who, granted, now, grantId, scope))
      modifies this
      ensures Valid() && Stands(me, Done(ApproveCall(Some(code), who.accountId), outcome))
      ensures outcome.Granted? || outcome == Failed(GrantVanished)
    {
      hide Reachable;
      Others(me, Widening(code, who, granted, now, grantId, scope));
      var updated := Unrevoked(rows, grantId);
      rows := UpdateGrant(rows, grantId, scope, now + cfg.grantTtl * 1000, now);
      Advance(Label(me, Action.Widen));
      if updated {
        outcome := Bind(me, code, who, grantId, ParseScope(scope));
      } else {
        outcome := InsertAndConverge(me, code, who, granted, now);
      }
    }

    method InsertAndConverge(me: nat, code: string, who: Party, granted: seq<string>, now: int)
        returns (outcome: Outcome)
      requires Valid() && Stands(me, InsertingGrant(code, who, granted, now))
      modifies this
      ensures Valid() && Stands(me, Done(ApproveCall(Some(code), who.accountId), outcome))
      ensures outcome.Granted? || outcome == Failed(GrantVanished)
    {
      hide Reachable;
      Others(me, InsertingGrant(code, who, granted, now));
      var id := RandomGrantId();
      var grant := Grant(who.accountId, who.clientId, who.agentSub, FormatScope(granted),
                         now + cfg.grantTtl * 1000, None, now, now);
      rows := InsertGrant(rows, id, grant);
      Advance(Label(me, InsertNewGrant(id)));
      outcome := Converge(me, code, who, now);
    }

    /** `#converge`: elect the oldest, merge into it, then revoke the others one by one. */
    method Converge(me: nat, code: string, who: Party, now: int) returns (outcome: Outcome)
      requires Valid() && Stands(me, Converging(code, who, now))
      modifies this
      ensures Valid() && Stands(me, Done(ApproveCall(Some(code), who.accountId), outcome))
      ensures outcome.Granted? || outcome == Failed(GrantVanished)
    {
      hide Reachable;
      Others(me, Converging(code, who, now));
      var live := LiveOldestFirst(who, now);
      Advance(Label(me, Action.Converge(live)));
      if live == [] {
        return Failed(GrantVanished);
      }
      var survivor, extras := live[0], live[1..];
      assert survivor in live;
      if extras == [] {
        outcome := Bind(me, code, who, survivor, ParseScope(rows.grants[survivor].scope));
        return;
      }
      var scope := FormatScope(Dedup(AllScopes(rows, live)));
      var expiresAt := LatestExpiry(rows, live);
      outcome := MergeAndRevoke(me, code, who, now, survivor, extras, scope, expiresAt);
    }

    method MergeAndRevoke(me: nat, code: string, who: Party, now: int, survivor: string, extras: seq<string>,
        scope: string, expiresAt: int)
      returns (outcome: Outcome)
      requires Valid() && extras != [] && Stands(me, Merging(code, who, now, survivor, extras, scope, expiresAt))
      modifies this
      ensures Valid() && Stands(me, Done(ApproveCall(Some(code), who.accountId), outcome))
      ensures outcome.Granted? || outcome == Failed(GrantVanished)
    {
      hide Reachable;
      Others(me, Merging(code, who, now, survivor, extras, scope, expiresAt));
      rows := UpdateGrant(rows, survivor, scope, expiresAt, now);
      Advance(Label(me, Merge));
      var scopes := ParseScope(scope);
      for i := 0 to |extras|
        invariant Valid()
        invariant Stands(me, if i < |extras| then RevokingExtras(code, who, now, survivor, extras[i..], scopes)
                             else Binding(code, who, survivor, scopes))
      {
        assert extras[i..][1..] == extras[i + 1..];
        RevokeFirst(me, code, who, now, survivor, extras[i..], scopes);
      }
      outcome := Bind(me, code, who, survivor, scopes);
    }

    method RevokeFirst(
        me: nat, code: string, who: Party, now: int, survivor: string, extras: seq<string>, scopes: seq<string>)
      requires Valid() && extras != [] && Stands(me, RevokingExtras(code, who, now, survivor, extras, scopes))
      modifies this
      ensures Valid()
      ensures Stands(me, if |extras| == 1 then Binding(code, who, survivor, scopes)
                         else RevokingExtras(code, who, now, survivor, extras[1..], scopes))
    {
      hide Reachable;
      Others(me, RevokingExtras(code, who, now, survivor, extras, scopes));
      rows := RevokeGrantById(rows, extras[0], now);
      Advance(Label(me, RevokeExtra));
    }

    /** From here on polling sees the approval. */
    method Bind(me: nat, code: string, who: Party, grantId: string, scopes: seq<string>) returns (outcome: Outcome)
      requires Valid() && Stands(me, Binding(code, who, grantId, scopes))
      modifies this
      ensures Valid() && Stands(me, Done(ApproveCall(Some(code), who.accountId), outcome))
      ensures outcome == Granted(grantId, scopes)
    {
      hide Reachable;
      Others(me, Binding(code, who, grantId, scopes));
      rows := SetDeviceGrant(rows, code, grantId);
      Advance(Label(me, Action.Bind));
      return Granted(grantId, scopes);
    }

    method Deny(me: nat, input: string, accountId: string) returns (denied: bool)
      requires Valid() && me !in sys.frames
      modifies this
      ensures Valid() && Stands(me, Done(DenyCall, Denial(denied)))
      ensures denied ==> exists code ::
        Finds(old(rows), input, Some(code)) && old(rows).devices[code].status == Pending
        && code in rows.devices && rows.devices[code].status == Denied
          && rows.devices[code].accountId == Some(accountId)
    {
      hide Reachable;
      var found := FindByUserCode(input);
      Advance(Label(me, DenyFind(input, accountId, found)));
      if found.None? || rows.devices[found.value].status != Pending {
        return false;
      }

      Others(me, Denying(found.value, accountId));
      denied := CanTransition(rows, found.value, Pending);
      rows := TransitionDevice(rows, found.value, Pending, Denied, Some(accountId));
      Advance(Label(me, DenyCode));
    }

    // Device requests

    method RequestDevice(me: nat, agent: Agent, scope: string, code: string, userCodes: seq<string>, now: int)
      returns (outcome: Outcome)
      requires Valid() && me !in sys.frames && code !in sys.log.requests && |userCodes| == 3
      modifies this
      ensures Valid() && Stands(me, Done(RequestCall(agent), outcome))
      ensures outcome == Failed(InvalidScope) <==> !Acceptable(cfg, scope)
      ensures outcome.DeviceIssued? ==> outcome.code == code && outcome.userCode in userCodes
      ensures outcome.DeviceIssued? || outcome in {Failed(InvalidScope), Failed(ServerError)}
    {
      hide Reachable, ParseScope;
      var scopes := ParseScope(scope);
      if scopes == [] || exists id :: id in scopes && !InScopes(cfg, id) {
        Advance(Label(me, Action.RequestDevice(agent, scope, code, now)));
        return Failed(InvalidScope);
      }
      rows := DeleteDevicesExpiredBefore(rows, now);
      Advance(Label(me, Action.RequestDevice(agent, scope, code, now)));
      outcome := InsertWithRetry(me, agent, scopes, code, userCodes, now);
    }

    /** Two collisions of the random user code are retried, a third is an error. */
    method InsertWithRetry(me: nat, agent: Agent, scopes: seq<string>, code: string, userCodes: seq<string>, now: int)
      returns (outcome: Outcome)
      requires Valid() && |userCodes| == 3 && Stands(me, InsertingDevice(agent, scopes, now, code, 0))
      modifies this
      ensures Valid() && Stands(me, Done(RequestCall(agent), outcome))
      ensures if outcome.DeviceIssued? then outcome.code == code && outcome.userCode in userCodes
        else outcome == Failed(ServerError)
    {
      hide Reachable;
      var attempt := 0;
      while true
        invariant Valid() && 0 <= attempt <= 2 && Stands(me, InsertingDevice(agent, scopes, now, code, attempt))
        decreases 2 - attempt
      {
        Others(me, InsertingDevice(agent, scopes, now, code, attempt));
        var userCode := userCodes[attempt];
        var free := forall c :: c in rows.devices ==> rows.devices[c].userCode != userCode;
        if free {
          rows := InsertDevice(rows, code,
            Device(userCode, agent.issuer, agent.sub, FormatScope(scopes), Pending, None, None,
                                                  cfg.pollInterval, None, now + cfg.deviceCodeTtl * 1000));
        }
        Advance(Label(me, InsertCode(userCode, free)));
        if free {
          return DeviceIssued(code, userCode);
        }
        if attempt >= 2 {
          return Failed(ServerError);
        }
        attempt := attempt + 1;
      }
    }

    // Resource server and consoles

    /** `genuine` says that the signature is good and the token this service's own. */
    method Verify(me: nat, agent: Agent, token: AccessToken, genuine: bool, active: bool, now: int)
        returns (outcome: Outcome)
      requires Valid() && me !in sys.frames && (genuine <==> token in sys.log.signed)
      modifies this
      ensures Valid() && Stands(me, Done(VerifyCall(agent), outcome)) && rows == old(rows)
      ensures outcome ==
        if genuine && now / 1000 < token.expiresAt && token.clientId == agent.issuer
           && LiveFor(rows, token.grantId, agent, now) && rows.grants[token.grantId].accountId == token.sub && active
        then Context(Party(token.sub, agent.issuer, agent.sub), ParseScope(token.scope), token.grantId) else NoContext
    {
      hide Reachable, ParseScope;
      Advance(Label(me, Action.Verify(agent, token, active, now)));
      if !genuine || token.expiresAt <= now / 1000 || token.clientId != agent.issuer {
        return NoContext;
      }
      if token.grantId !in rows.grants {
        return NoContext;
      }
      var grant := rows.grants[token.grantId];
      if grant.accountId != token.sub || !Usable(token.grantId, grant, agent, now, active) {
        return NoContext;
      }
      return Context(Party(token.sub, agent.issuer, agent.sub), ParseScope(token.scope), token.grantId);
    }

    method RevokeGrant(me: nat, accountId: string, grantId: string, now: int) returns (revoked: bool)
      requires Valid()
      modifies this
      ensures Valid() && sys == Step(cfg, old(sys), Label(me, AccountRevoke(accountId, grantId, now)))
      ensures revoked <==>
        IsPactGrant(grantId) && Unrevoked(old(rows), grantId) && old(rows).grants[grantId].accountId == accountId
      ensures revoked ==> grantId in rows.grants && rows.grants[grantId].revokedAt == Some(now)
    {
      hide Reachable;
      Advance(Label(me, AccountRevoke(accountId, grantId, now)));
      if !IsPactGrant(grantId) {
        return false;
      }
      revoked := Unrevoked(rows, grantId) && rows.grants[grantId].accountId == accountId;
      rows := DelegationRows.RevokeGrant(rows, accountId, grantId, now);
    }

    // What the store does for a query

    method RandomGrantId() returns (id: string)
      ensures id !in rows.grants && IsPactGrant(id)
    {
      FreshGrantId(rows.grants.Keys);
      id :| id !in rows.grants && IsPactGrant(id);
    }

    /** The live grant updated last. */
    method MostRecentLive(who: Party, now: int) returns (choice: Option<string>)
      ensures IsMostRecent(rows, who, now, choice)
    {
      var live := LiveIds(rows, who, now);
      if live == {} {
        return None;
      }
      var best :| best in live;
      var left := live;
      while left != {}
        invariant left <= live && best in live
        invariant forall id :: id in live && id !in left ==> rows.grants[id].updatedAt <= rows.grants[best].updatedAt
        decreases |left|
      {
        var id :| id in left;
        if rows.grants[best].updatedAt < rows.grants[id].updatedAt {
          best := id;
        }
        left := left - {id};
      }
      return Some(best);
    }

    /** The live grants, oldest first. */
    method LiveOldestFirst(who: Party, now: int) returns (live: seq<string>)
      ensures IsSnapshot(rows, who, now, live)
    {
      hide Older, LiveIds;
      var left := LiveIds(rows, who, now);
      LiveAreGrants(rows, who, now);
      live := [];
      while left != {}
        invariant left <= LiveIds(rows, who, now)
        invariant forall id :: id in live <==> id in LiveIds(rows, who, now) && id !in left
        invariant forall i, j :: 0 <= i < j < |live| ==> Older(rows, live[i], live[j])
        invariant forall i, id :: 0 <= i < |live| && id in left ==> Older(rows, live[i], id)
        decreases |left|
      {
        var m := Oldest(left);
        live := live + [m];
        left := left - {m};
      }
    }

    method Oldest(ids: set<string>) returns (m: string)
      requires ids != {} && forall id :: id in ids ==> id in rows.grants
      ensures DelegationConvergence.IsOldest(rows, m, ids)
    {
      hide Older;
      m :| m in ids;
      var left := ids - {m};
      while left != {}
        invariant left <= ids && m in ids - left
        invariant forall id :: id in ids && id !in left && id != m ==> Older(rows, m, id)
        decreases |left|
      {
        var id :| id in left;
        left := left - {id};
        DelegationConvergence.OlderIsStrict(rows, m, id, m);
        if Older(rows, id, m) {
          forall x | x in ids && x !in left && x != id
            ensures Older(rows, id, x)
          {
            DelegationConvergence.OlderIsStrict(rows, id, m, x);
          }
          m := id;
        }
      }
    }
  }

  lemma LiveAreGrants(rows: Rows, who: Party, now: int)
    ensures forall id :: id in LiveIds(rows, who, now) ==> id in rows.grants
  {
  }

  lemma FreshGrantId(keys: set<string>)
    ensures exists id: string :: id !in keys && IsPactGrant(id)
  {
    var n := LengthsBounded(keys);
    var id := "agrant_" + seq(n, i => '0');
    assert id !in keys;
    assert POPPY_PREFIX[0] == 'p' && id[0] == 'a';
  }

  lemma {:induction false} LengthsBounded(keys: set<string>) returns (n: nat)
    ensures forall k :: k in keys ==> |k| < n
  {
    n := 0;
    if keys != {} {
      var x :| x in keys;
      n := LengthsBounded(keys - {x});
      if n <= |x| { n := |x| + 1; }
    }
  }

  lemma FreshText(keys: set<string>)
    ensures exists t: string :: t !in keys
  {
    var n := LengthsBounded(keys);
    var t := seq(n, i => 'a');
    assert t !in keys;
  }
}
