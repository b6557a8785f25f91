/** What every step of the delegation machine keeps, and hence what holds in every reachable state. */
module DelegationInvariant {
  import opened Wrappers
  import opened Scopes
  import opened DelegationRows
  import opened DelegationMachine

  /** `who.accountId` ticked `x` when it approved a code that this agent, for this agent user, had asked for. */
  ghost predicate Ticked(claims: map<string, Claim>, who: Party, x: string) {
    exists code :: code in claims && claims[code].who == who && x in claims[code].granted
  }

  ghost predicate AllTicked(claims: map<string, Claim>, who: Party, xs: seq<string>) {
    forall x :: x in xs ==> Ticked(claims, who, x)
  }

  ghost predicate IsGrantOf(grants: map<string, Grant>, id: string, who: Party) {
    id in grants && IsPactGrant(id) && PartyOf(grants[id]) == who
  }

  ghost predicate Owns(agent: Agent, who: Party) {
    agent.issuer == who.clientId && agent.sub == who.agentSub
  }

  // The history

  ghost predicate RequestsOK(cfg: Config, requests: map<string, Request>) {
    forall code :: code in requests ==>
      IsScopeList(requests[code].scopes) && forall x :: x in requests[code].scopes ==> InScopes(cfg, x)
  }

  ghost predicate ClaimsOK(requests: map<string, Request>, claims: map<string, Claim>) {
    forall code :: code in claims ==>
      && code in requests
      && Owns(requests[code].agent, claims[code].who)
      && IsScopeList(claims[code].granted)
      && forall x :: x in claims[code].granted ==> x in requests[code].scopes
  }

  ghost predicate BoundOK(grants: map<string, Grant>, claims: map<string, Claim>, bound: map<string, string>) {
    forall code :: code in bound ==>
      code in claims && IsGrantOf(grants, bound[code], claims[code].who)
  }

  // The rows

  ghost predicate DeviceOK(
    d: Device, code: string, requests: map<string, Request>, claims: map<string, Claim>,
    bound: map<string, string>, consumed: map<string, nat>)
  {
    && code in requests
    && Agent(d.clientId, d.agentSub) == requests[code].agent
    && ParseScope(d.requestedScope) == requests[code].scopes
    && (d.status == Pending ==> d.accountId.None? && d.grantId.None? && code !in claims)
    && (d.status == Denied ==> d.accountId.Some? && d.grantId.None? && code !in claims)
    && (d.status == Approved || d.status == Consumed ==>
          && code in claims
          && d.accountId == Some(claims[code].who.accountId)
          && d.grantId == (if code in bound then Some(bound[code]) else None))
    && (d.status == Consumed <==> code in consumed)
  }

  ghost predicate DevicesOK(
    devices: map<string, Device>, requests: map<string, Request>, claims: map<string, Claim>,
    bound: map<string, string>, consumed: map<string, nat>)
  {
    forall code :: code in devices ==> DeviceOK(devices[code], code, requests, claims, bound, consumed)
  }

  /** A PACT refresh token descends from a consumed code and belongs to the grant that code was bound to. */
  ghost predicate TokenOK(
    token: string, r: RefreshToken, root: map<string, string>, bound: map<string, string>,
    consumed: map<string, nat>, spent: map<string, nat>)
  {
    if IsPactGrant(r.grantId) then
      && token in root && root[token] in consumed && root[token] in bound && bound[root[token]] == r.grantId
      && (r.usedAt.Some? <==> token in spent)
    else token !in root
  }

  ghost predicate TokensOK(
    tokens: map<string, RefreshToken>, root: map<string, string>, bound: map<string, string>,
    consumed: map<string, nat>, spent: map<string, nat>)
  {
    && (forall token :: token in tokens ==> TokenOK(token, tokens[token], root, bound, consumed, spent))
    && (forall token :: token in root ==> token in tokens)
    && (forall token :: token in spent ==> token in root)
    && (forall code :: code in consumed ==> code in bound)
  }

  ghost predicate GrantsOK(grants: map<string, Grant>, claims: map<string, Claim>) {
    forall id :: id in grants && IsPactGrant(id) ==>
      AllTicked(claims, PartyOf(grants[id]), ParseScope(grants[id].scope))
  }

  ghost predicate AccessOK(a: AccessToken, grants: map<string, Grant>, claims: map<string, Claim>) {
    && a.grantId in grants && IsPactGrant(a.grantId)
    && grants[a.grantId].accountId == a.sub && grants[a.grantId].clientId == a.clientId
    && AllTicked(claims, PartyOf(grants[a.grantId]), ParseScope(a.scope))
  }

  ghost predicate SignedOK(signed: set<AccessToken>, grants: map<string, Grant>, claims: map<string, Claim>) {
    forall a :: a in signed ==> AccessOK(a, grants, claims)
  }

  // The calls in flight

  /** A grant read by an exchange or a refresh of `agent`: the snapshot it will sign and issue from. */
  ghost predicate ReadOK(s: Sys, agent: Agent, id: string, g: Grant) {
    && IsGrantOf(s.rows.grants, id, PartyOf(g))
    && Owns(agent, PartyOf(g))
    && AllTicked(s.log.claims, PartyOf(g), ParseScope(g.scope))
  }

  ghost predicate ExchangeOK(s: Sys, agent: Agent, code: string, id: string) {
    && code in s.log.bound && s.log.bound[code] == id
    && code in s.log.requests && s.log.requests[code].agent == agent
  }

  /** The refresh token is one of this service's, bound to `id`. */
  ghost predicate RefreshOK(s: Sys, token: string, id: string) {
    && token in s.log.root && s.log.root[token] in s.log.bound
    && s.log.bound[s.log.root[token]] == id
    && token in s.rows.refreshTokens && s.rows.refreshTokens[token].grantId == id
  }

  /** The one approval that claimed `code`, before it binds the code to a grant. */
  ghost predicate ClaimOK(s: Sys, t: nat, code: string, who: Party) {
    && code in s.log.claims && s.log.claims[code].task == t && s.log.claims[code].who == who
    && code !in s.log.bound
  }

  ghost predicate DoneOK(s: Sys, t: nat, call: Call, outcome: Outcome) {
    && (outcome.Tokens? ==> call.ExchangeCall? || (call.RefreshCall? && call.usable.Some?))
    && (call.ExchangeCall? && outcome.Tokens? ==>
          && ExchangeOK(s, call.agent, call.code, outcome.grantId)
          && call.code in s.log.consumed && s.log.consumed[call.code] == t
          && outcome.access in s.log.signed && outcome.access.grantId == outcome.grantId)
    && (call.RefreshCall? && call.usable.Some? ==>
          && RefreshOK(s, call.token, call.usable.value)
          && call.usable.value in s.rows.grants
          && Owns(call.agent, PartyOf(s.rows.grants[call.usable.value]))
          && call.token in s.log.spent
          && (s.log.spent[call.token] == t || s.rows.grants[call.usable.value].revokedAt.Some?))
    && (call.RefreshCall? && outcome.Tokens? ==>
          && call.usable == Some(outcome.grantId)
          && s.log.spent[call.token] == t
          && outcome.access in s.log.signed && outcome.access.grantId == outcome.grantId)
    && (outcome.Granted? ==>
          && call.ApproveCall? && call.pending.Some?
          && call.pending.value in s.log.bound && s.log.bound[call.pending.value] == outcome.grantId
          && call.pending.value in s.log.claims && s.log.claims[call.pending.value].task == t
          && s.log.claims[call.pending.value].who.accountId == call.accountId
          && AllTicked(s.log.claims, s.log.claims[call.pending.value].who, outcome.scopes))
    && (outcome.Context? ==>
          && call.VerifyCall? && Owns(call.agent, outcome.who)
          && IsGrantOf(s.rows.grants, outcome.grantId, outcome.who)
          && AllTicked(s.log.claims, outcome.who, outcome.scopes))
  }

  ghost predicate FrameOK(s: Sys, t: nat, f: Frame) {
    match f
    case InsertingDevice(agent, scopes, _, code, _) =>
      && code in s.log.requests && s.log.requests[code] == Request(t, agent, scopes)
      && code !in s.rows.devices && code !in s.log.claims && code !in s.log.consumed
    case Polling(agent, code, _, _) => code in s.log.requests && s.log.requests[code].agent == agent
    case ReadingGrant(agent, code, id, _) => ExchangeOK(s, agent, code, id)
    case Consuming(agent, code, id, g, access, _) =>
      ExchangeOK(s, agent, code, id) && ReadOK(s, agent, id, g) && access in s.log.signed && access.grantId == id
    case IssuingFirst(agent, code, id, g, access, _) =>
      && ExchangeOK(s, agent, code, id) && ReadOK(s, agent, id, g) && access in s.log.signed && access.grantId == id
      && code in s.log.consumed && s.log.consumed[code] == t
    case CheckingRefresh(_, token, row, _) =>
      IsPactGrant(row.grantId) ==>
        RefreshOK(s, token, row.grantId) && (row.usedAt.Some? ==> token in s.log.spent)
    case Spending(agent, token, id, g, _) => RefreshOK(s, token, id) && ReadOK(s, agent, id, g)
    case RevokingReused(agent, token, id, _) =>
      && RefreshOK(s, token, id) && token in s.log.spent && IsPactGrant(id)
      && id in s.rows.grants && Owns(agent, PartyOf(s.rows.grants[id]))
    case IssuingNext(agent, token, id, g, _) =>
      RefreshOK(s, token, id) && ReadOK(s, agent, id, g) && token in s.log.spent && s.log.spent[token] == t
    case Claiming(code, who, granted, _) =>
      && code in s.log.requests && Owns(s.log.requests[code].agent, who)
      && IsScopeList(granted) && forall x :: x in granted ==> x in s.log.requests[code].scopes
    case FindingExisting(code, who, granted, _) => ClaimOK(s, t, code, who) && granted == s.log.claims[code].granted
    case Widening(code, who, granted, _, id, scope) =>
      && ClaimOK(s, t, code, who) && granted == s.log.claims[code].granted
      && IsGrantOf(s.rows.grants, id, who) && AllTicked(s.log.claims, who, ParseScope(scope))
    case InsertingGrant(code, who, granted, _) => ClaimOK(s, t, code, who) && granted == s.log.claims[code].granted
    case Converging(code, who, _) => ClaimOK(s, t, code, who)
    case Merging(code, who, _, survivor, extras, scope, _) =>
      && ClaimOK(s, t, code, who) && IsGrantOf(s.rows.grants, survivor, who) && extras != []
      && (forall id :: id in extras ==> IsGrantOf(s.rows.grants, id, who))
      && AllTicked(s.log.claims, who, ParseScope(scope))
    case RevokingExtras(code, who, _, survivor, extras, scopes) =>
      && ClaimOK(s, t, code, who) && IsGrantOf(s.rows.grants, survivor, who) && extras != []
      && (forall id :: id in extras ==> IsGrantOf(s.rows.grants, id, who))
      && AllTicked(s.log.claims, who, scopes)
    case Binding(code, who, id, scopes) =>
      ClaimOK(s, t, code, who) && IsGrantOf(s.rows.grants, id, who) && AllTicked(s.log.claims, who, scopes)
    case Denying(_, _) => true
    case Done(call, outcome) => DoneOK(s, t, call, outcome)
  }

  ghost predicate FramesOK(s: Sys) {
    forall t :: t in s.frames ==> FrameOK(s, t, s.frames[t])
  }

  // Rotation

  predicate IsUnused(tokens: map<string, RefreshToken>, root: map<string, string>, token: string) {
    token in root && token in tokens && tokens[token].usedAt.None?
  }

  /** The device code a refresh token about to be issued descends from. */
  function IssuingRoot(f: Frame, root: map<string, string>): Option<string> {
    if f.IssuingFirst? then Some(f.code)
    else if f.IssuingNext? && f.token in root then Some(root[f.token])
    else None
  }

  predicate IsIssuing(frames: map<nat, Frame>, root: map<string, string>, t: nat) {
    t in frames && IssuingRoot(frames[t], root).Some?
  }

  /** Each device code has at most one heir: one unused refresh token, or one call about to issue it. */
  ghost predicate OneHeir(tokens: map<string, RefreshToken>, root: map<string, string>, frames: map<nat, Frame>) {
    && (forall a, b :: IsUnused(tokens, root, a) && IsUnused(tokens, root, b) && a != b ==> root[a] != root[b])
    && (forall t, a :: IsIssuing(frames, root, t) && IsUnused(tokens, root, a) ==>
          IssuingRoot(frames[t], root) != Some(root[a]))
    && (forall t, u :: IsIssuing(frames, root, t) && IsIssuing(frames, root, u) && t != u ==>
          IssuingRoot(frames[t], root) != IssuingRoot(frames[u], root))
  }

  ghost predicate Inv(cfg: Config, s: Sys) {
    && RequestsOK(cfg, s.log.requests)
    && ClaimsOK(s.log.requests, s.log.claims)
    && BoundOK(s.rows.grants, s.log.claims, s.log.bound)
    && DevicesOK(s.rows.devices, s.log.requests, s.log.claims, s.log.bound, s.log.consumed)
    && TokensOK(s.rows.refreshTokens, s.log.root, s.log.bound, s.log.consumed, s.log.spent)
    && GrantsOK(s.rows.grants, s.log.claims)
    && SignedOK(s.log.signed, s.rows.grants, s.log.claims)
    && OneHeir(s.rows.refreshTokens, s.log.root, s.frames)
    && FramesOK(s)
  }

  // What one task may rely on while the others step

  ghost predicate SubMap<K, V>(m: map<K, V>, n: map<K, V>) {
    forall k :: k in m ==> k in n && n[k] == m[k]
  }

  ghost predicate LogGrows(h: History, h': History) {
    && SubMap(h.requests, h'.requests) && SubMap(h.claims, h'.claims) && SubMap(h.bound, h'.bound)
    && SubMap(h.consumed, h'.consumed) && SubMap(h.spent, h'.spent) && SubMap(h.root, h'.root)
    && h.signed <= h'.signed
  }

  /** Grants keep their party and birthday for good, and a revocation is final. */
  ghost predicate GrantsKept(grants: map<string, Grant>, grants': map<string, Grant>) {
    forall id :: id in grants && IsPactGrant(id) ==>
      && id in grants' && PartyOf(grants'[id]) == PartyOf(grants[id]) && grants'[id].createdAt == grants[id].createdAt
      && (grants[id].revokedAt.Some? ==> grants'[id].revokedAt.Some?)
  }

  ghost predicate TokensKept(tokens: map<string, RefreshToken>, tokens': map<string, RefreshToken>,
      root: map<string, string>) {
    forall token :: token in root && token in tokens ==>
      token in tokens' && tokens'[token].grantId == tokens[token].grantId
  }

  /** What is new in the tables and the history is task `t`'s own. */
  ghost predicate NewIsOwn(s: Sys, s': Sys, t: int) {
    && (forall code :: code in s'.rows.devices && code !in s.rows.devices ==>
          code in s'.log.requests && s'.log.requests[code].task == t)
    && (forall code :: code in s'.log.claims && code !in s.log.claims ==> code in s.rows.devices)
    && (forall code :: code in s'.log.consumed && code !in s.log.consumed ==> code in s.rows.devices)
    && (forall code :: code in s'.log.bound && code !in s.log.bound ==>
          code in s.log.claims && s.log.claims[code].task == t)
  }

  ghost predicate FramesElsewhere(frames: map<nat, Frame>, frames': map<nat, Frame>, t: int) {
    forall u: nat :: u != t ==> (u in frames <==> u in frames') && (u in frames ==> frames'[u] == frames[u])
  }

  ghost predicate Grows(s: Sys, s': Sys, t: int) {
    && LogGrows(s.log, s'.log)
    && GrantsKept(s.rows.grants, s'.rows.grants)
    && TokensKept(s.rows.refreshTokens, s'.rows.refreshTokens, s.log.root)
    && NewIsOwn(s, s', t)
    && FramesElsewhere(s.frames, s'.frames, t)
  }

  lemma TickedKept(claims: map<string, Claim>, claims': map<string, Claim>, who: Party, xs: seq<string>)
    requires SubMap(claims, claims') && AllTicked(claims, who, xs)
    ensures AllTicked(claims', who, xs)
  {
    forall x | x in xs
      ensures Ticked(claims', who, x)
    {
      var code :| code in claims && claims[code].who == who && x in claims[code].granted;
      assert code in claims' && claims'[code] == claims[code];
    }
  }

  lemma ReadKept(s: Sys, s': Sys, t: int, agent: Agent, id: string, g: Grant)
    requires Grows(s, s', t) && ReadOK(s, agent, id, g)
    ensures ReadOK(s', agent, id, g)
  {
    TickedKept(s.log.claims, s'.log.claims, PartyOf(g), ParseScope(g.scope));
  }

  lemma ClaimKept(s: Sys, s': Sys, t: int, u: nat, code: string, who: Party)
    requires Grows(s, s', t) && u != t && ClaimOK(s, u, code, who)
    ensures ClaimOK(s', u, code, who)
    ensures s'.log.claims[code] == s.log.claims[code]
  {
  }

  ghost predicate BoundIsPact(bound: map<string, string>) {
    forall code :: code in bound ==> IsPactGrant(bound[code])
  }

  lemma DoneKept(s: Sys, s': Sys, t: int, u: nat, call: Call, outcome: Outcome)
    requires Grows(s, s', t) && DoneOK(s, u, call, outcome)
    requires BoundIsPact(s.log.bound)
    ensures DoneOK(s', u, call, outcome)
  {
    if outcome.Granted? {
      TickedKept(s.log.claims, s'.log.claims, s.log.claims[call.pending.value].who, outcome.scopes);
    }
    if outcome.Context? {
      TickedKept(s.log.claims, s'.log.claims, outcome.who, outcome.scopes);
    }
  }

  predicate IsApproval(f: Frame) {
    f.FindingExisting? || f.Widening? || f.InsertingGrant? || f.Converging? || f.Binding? || HasElected(f)
  }

  predicate HasElected(f: Frame) {
    f.Merging? || f.RevokingExtras?
  }

  /** Past the claim, an approval is consistent because nobody rewrites a claim or a grant's party. */
  lemma ApprovalKept(s: Sys, s': Sys, t: int, u: nat, f: Frame)
    requires Grows(s, s', t) && u != t && FrameOK(s, u, f)
    requires f.FindingExisting? || f.Widening? || f.InsertingGrant? || f.Converging? || f.Binding?
    ensures FrameOK(s', u, f)
  {
    hide AllTicked, ParseScope, IsPactGrant, TokensKept, FramesElsewhere, NewIsOwn;
    ClaimKept(s, s', t, u, f.code, f.who);
    if f.Widening? { TickedKept(s.log.claims, s'.log.claims, f.who, ParseScope(f.scope)); }
    if f.Binding? { TickedKept(s.log.claims, s'.log.claims, f.who, f.scopes); }
  }

  lemma ElectedKept(s: Sys, s': Sys, t: int, u: nat, f: Frame)
    requires Grows(s, s', t) && u != t && FrameOK(s, u, f) && HasElected(f)
    ensures FrameOK(s', u, f)
  {
    hide AllTicked, ParseScope, IsPactGrant, TokensKept, FramesElsewhere, NewIsOwn;
    ClaimKept(s, s', t, u, f.code, f.who);
    TickedKept(s.log.claims, s'.log.claims, f.who, if f.Merging? then ParseScope(f.scope) else f.scopes);
  }

  /** The calls of agents, and those that have not claimed or are over. */
  lemma CallKept(s: Sys, s': Sys, t: int, u: nat, f: Frame)
    requires Grows(s, s', t) && u in s.frames && s.frames[u] == f && u != t && FrameOK(s, u, f)
    requires BoundIsPact(s.log.bound)
    requires !IsApproval(f)
    ensures FrameOK(s', u, f)
  {
    hide AllTicked, ParseScope;
    match f
    case Consuming(agent, _, id, g, _, _) => ReadKept(s, s', t, agent, id, g);
    case IssuingFirst(agent, _, id, g, _, _) => ReadKept(s, s', t, agent, id, g);
    case Spending(agent, _, id, g, _) => ReadKept(s, s', t, agent, id, g);
    case IssuingNext(agent, _, id, g, _) => ReadKept(s, s', t, agent, id, g);
    case Done(call, outcome) => DoneKept(s, s', t, u, call, outcome);
    case _ =>
  }

  /** The other calls stay consistent whatever one step does. */
  lemma OtherKept(s: Sys, s': Sys, t: int, u: nat)
    requires Grows(s, s', t) && u in s.frames && u != t
    requires FrameOK(s, u, s.frames[u])
    requires BoundIsPact(s.log.bound)
    ensures FrameOK(s', u, s'.frames[u])
  {
    assert s'.frames[u] == s.frames[u];
    hide Grows, FrameOK, BoundIsPact;
    var f := s.frames[u];
    if HasElected(f) {
      ElectedKept(s, s', t, u, f);
    } else if IsApproval(f) {
      ApprovalKept(s, s', t, u, f);
    } else {
      CallKept(s, s', t, u, f);
    }
  }

  lemma OthersKept(cfg: Config, s: Sys, s': Sys, t: int)
    requires FramesOK(s) && Grows(s, s', t) && BoundIsPact(s.log.bound)
    ensures forall u :: u in s'.frames && u != t ==> FrameOK(s', u, s'.frames[u])
  {
    assert FramesElsewhere(s.frames, s'.frames, t);
    hide Grows, FrameOK, BoundIsPact;
    forall u | u in s'.frames && u != t
      ensures FrameOK(s', u, s'.frames[u])
    {
      OtherKept(s, s', t, u);
    }
  }

  /** Whatever happens to the grants table, codes stay bound to grants of the right party, tokens stay genuine. */
  lemma GrantsStable(grants: map<string, Grant>, grants': map<string, Grant>,
                     claims: map<string, Claim>, bound: map<string, string>, signed: set<AccessToken>)
    requires BoundOK(grants, claims, bound) && SignedOK(signed, grants, claims)
    requires GrantsKept(grants, grants')
    ensures BoundOK(grants', claims, bound) && SignedOK(signed, grants', claims)
  {
    hide AllTicked;
    forall a | a in signed
      ensures AccessOK(a, grants', claims)
    {
      assert AccessOK(a, grants, claims);
      assert PartyOf(grants[a.grantId]) == PartyOf(grants'[a.grantId]);
    }
  }
}
