/**
 * One browser session of the relying party: the slot of the live token set, the slot where an impersonator's own token
 * set is parked, and the slot of a login under way. The steps are the routes, the middleware and the manager's methods,
 * plus arbitrary writes by the host application to the live slot.
 */
module RelyingParty {
  import opened Wrappers

  datatype Tokens = Tokens(idToken: string, accessToken: string, refreshToken: Option<string>, expiresAt: Option<int>)

  /** `binding` ties a live token set to the record parked with it. */
  datatype TokenSet = TokenSet(tokens: Tokens, binding: Option<string>)

  /** Versions before 0.15 parked a bare token set. */
  datatype Parked = Empty | Legacy | Record(tokenSet: TokenSet, binding: string)

  datatype Pending = Pending(state: string, nonce: string, codeVerifier: string)

  datatype Slots = Slots(live: Option<TokenSet>, parked: Parked, pending: Option<Pending>)

  // The callback

  datatype CallbackParams = CallbackParams(
    state: Option<string>, iss: Option<string>, error: Option<string>, code: Option<string>)

  /** What the IdP does during one callback: `discovered` is false when its endpoints cannot be found. */
  datatype Idp = Idp(discovered: bool, issuer: string, exchanged: Option<Tokens>, idTokenValid: bool)

  datatype Outcome =
    | Completed(tokens: Tokens)
    | MissingPending | StateMismatch | IdpError | MissingCode
    | Undiscovered | IssuerMismatch | TokenExchangeFailed | MissingIdToken | InvalidIdToken

  /** A query parameter counts when it is a string and not empty. */
  function Str(v: Option<string>): Option<string> {
    if v == Some("") then None else v
  }

  /** `assertCallbackBelongs`: decided before anything is asked of the IdP. */
  function Belongs(pending: Option<Pending>, q: CallbackParams): Option<Outcome> {
    if pending.None? || pending.value.state == "" || pending.value.nonce == "" || pending.value.codeVerifier == "" then
      Some(MissingPending)
    else if Str(q.state) != Some(pending.value.state) then Some(StateMismatch)
    else None
  }

  /** The callback answers the pending request, and every check of it and of the IdP's answers passes. */
  predicate Completes(pending: Option<Pending>, q: CallbackParams, idp: Idp) {
    && pending.Some? && pending.value.state != "" && pending.value.nonce != "" && pending.value.codeVerifier != ""
    && q.state == Some(pending.value.state)
    && idp.discovered && (q.iss.None? || q.iss.value in {"", idp.issuer})
    && (q.error.None? || q.error.value == "") && q.code.Some? && q.code.value != ""
    && idp.exchanged.Some? && idp.exchanged.value.idToken != "" && idp.idTokenValid
  }

  function CompleteAuthorization(pending: Option<Pending>, q: CallbackParams, idp: Idp): (o: Outcome)
    ensures o.Completed? <==> Completes(pending, q, idp)
    ensures o.Completed? ==> o.tokens == idp.exchanged.value
  {
    if Belongs(pending, q).Some? then Belongs(pending, q).value
    else if !idp.discovered then Undiscovered
    else if Str(q.iss).Some? && Str(q.iss) != Some(idp.issuer) then IssuerMismatch
    else if Str(q.error).Some? then IdpError
    else if Str(q.code).None? then MissingCode
    else if idp.exchanged.None? then TokenExchangeFailed
    else if idp.exchanged.value.idToken == "" then MissingIdToken
    else if !idp.idTokenValid then InvalidIdToken
    else Completed(idp.exchanged.value)
  }

  /** Which error a callback that does not complete ends with: the first check that fails, in this order. */
  lemma CallbackErrors(pending: Option<Pending>, q: CallbackParams, idp: Idp)
    ensures
      var o := CompleteAuthorization(pending, q, idp);
      var asked := pending.Some? && pending.value.state != "" && pending.value.nonce != ""
        && pending.value.codeVerifier != "";
      var own := asked && q.state == Some(pending.value.state);
      var issued := own && idp.discovered && (q.iss.None? || q.iss.value in {"", idp.issuer});
      var granted := issued && (q.error.None? || q.error.value == "");
      var coded := granted && q.code.Some? && q.code.value != "";
      && (o == MissingPending <==> !asked)
      && (o == StateMismatch <==> asked && !own)
      && (o == Undiscovered <==> own && !idp.discovered)
      && (o == IssuerMismatch <==> own && idp.discovered && !issued)
      && (o == IdpError <==> issued && !granted)
      && (o == MissingCode <==> granted && !coded)
      && (o == TokenExchangeFailed <==> coded && idp.exchanged.None?)
      && (o == MissingIdToken <==> coded && idp.exchanged.Some? && idp.exchanged.value.idToken == "")
      && (o == InvalidIdToken <==>
            coded && idp.exchanged.Some? && idp.exchanged.value.idToken != "" && !idp.idTokenValid)
  {
  }

  // The steps

  datatype Step =
    | BeginLogin(request: Pending)
    | Callback(query: CallbackParams, idp: Idp)
    | Logout
    | CheckRevocation(revoked: bool)
    | Refresh(next: Option<Tokens>)
    | Adopt(renewed: TokenSet)
    | Impersonate(target: Option<Tokens>, nonce: string)
    | Stop
    | HostPut(tokenSet: TokenSet)
    | HostForget

  function Started(s: Slots, tokens: Tokens): Slots {
    s.(live := Some(TokenSet(tokens, None)), parked := Empty)
  }

  function Ended(s: Slots): Slots {
    s.(live := None, parked := Empty)
  }

  /** A refresh keeps what the IdP does not issue again, and the binding. */
  function Merge(own: TokenSet, next: Tokens): TokenSet {
    TokenSet(
      Tokens(
        if next.idToken != "" then next.idToken else own.tokens.idToken, next.accessToken,
        if next.refreshToken.Some? then next.refreshToken else own.tokens.refreshToken, next.expiresAt),
      own.binding)
  }

  /** The tokens of `next`; the id and refresh tokens the IdP did not issue again are those there were. */
  predicate Renewed(own: Tokens, next: Tokens, tokens: Tokens) {
    && tokens.accessToken == next.accessToken && tokens.expiresAt == next.expiresAt
    && tokens.idToken == (if next.idToken == "" then own.idToken else next.idToken)
    && tokens.refreshToken == (if next.refreshToken.None? then own.refreshToken else next.refreshToken)
  }

  /** A request that waited for another request's refresh keeps its own binding, or takes the other's if it has none. */
  function AdoptInto(own: TokenSet, renewed: TokenSet): TokenSet {
    TokenSet(renewed.tokens, if own.binding.Some? then own.binding else renewed.binding)
  }

  predicate Readable(p: Parked) {
    p.Record? && p.binding != ""
  }

  /** The parked record belongs to the live token set. */
  predicate Bound(s: Slots) {
    Readable(s.parked) && s.live.Some? && s.live.value.binding == Some(s.parked.binding)
  }

  /** `stopImpersonating`: the answer and the new slots. A refusal drops both. */
  function Stopping(s: Slots): (r: (bool, Slots)) {
    if s.parked == Empty then (false, s)
    else if !Bound(s) then (false, Ended(s))
    else (true, s.(live := Some(s.parked.tokenSet.(binding := None)), parked := Empty))
  }

  /** `isImpersonating`. */
  predicate IsImpersonating(s: Slots) {
    Readable(s.parked) && (if s.live.Some? then s.live.value.binding else None) == Some(s.parked.binding)
  }

  /** Somebody is logged in, and the token exchange for the target succeeds. */
  predicate Impersonates(s: Slots, step: Step) {
    step.Impersonate? && step.target.Some? && s.live.Some? && s.live.value.tokens.accessToken != ""
  }

  function Apply(s: Slots, step: Step): Slots {
    match step
    case BeginLogin(request) => s.(pending := Some(request))
    case Callback(query, idp) =>
      var outcome := CompleteAuthorization(s.pending, query, idp);
      var used := s.(pending := None);
      if outcome.Completed? then Started(used, outcome.tokens) else used
    case Logout => Ended(s)
    case CheckRevocation(revoked) =>
      if revoked && s.live.Some? && s.live.value.tokens.idToken != "" then Ended(s) else s
    case Refresh(next) => if s.live.Some? && next.Some? then s.(live := Some(Merge(s.live.value, next.value))) else s
    case Adopt(renewed) => if s.live.Some? then s.(live := Some(AdoptInto(s.live.value, renewed))) else s
    case Impersonate(target, nonce) =>
      if Impersonates(s, step)
      then s.(live := Some(TokenSet(target.value, Some(nonce))), parked := Record(s.live.value, nonce))
      else s
    case Stop => Stopping(s).1
    case HostPut(tokenSet) => s.(live := Some(tokenSet))
    case HostForget => s.(live := None)
  }

  ghost predicate IsRun(ss: seq<Slots>, steps: seq<Step>) {
    |ss| == |steps| + 1 && forall j :: 0 <= j < |steps| ==> ss[j + 1] == Apply(ss[j], steps[j])
  }

  // Impersonation

  /** The banner shows exactly when stopping would give the impersonator back, whatever the slots hold. */
  lemma BannerMeansStopWorks(s: Slots)
    ensures IsImpersonating(s) <==> Stopping(s).0
  {
  }

  /** A nonce of this run, not empty, as `randomUUID` makes it. */
  ghost predicate IsNonce(steps: seq<Step>, nonce: string) {
    exists k :: 0 <= k < |steps| && steps[k].Impersonate? && steps[k].nonce == nonce
  }

  /**
   * Nonces are not empty, and neither the host nor another request's refresh brings one of them into a set without
   * it.
   */
  ghost predicate NoncesStayInside(ss: seq<Slots>, steps: seq<Step>)
    requires |ss| == |steps| + 1
  {
    forall j :: 0 <= j < |steps| ==>
      match steps[j]
      case Impersonate(_, nonce) => nonce != ""
      case HostPut(tokenSet) => tokenSet.binding.Some? ==> !IsNonce(steps, tokenSet.binding.value)
      case Adopt(renewed) =>
        ss[j].live.Some? && ss[j].live.value.binding.None? && renewed.binding.Some? ==>
          !IsNonce(steps, renewed.binding.value)
      case _ => true
  }

  /** A refresh, or a step that leaves the two token slots alone. */
  predicate KeepsSession(s: Slots, step: Step) {
    step.Refresh? || step.Adopt? || Apply(s, step).(pending := s.pending) == s
  }

  /** From the impersonation at `k` up to `n` the live slot was only refreshed. */
  ghost predicate RefreshedSince(ss: seq<Slots>, steps: seq<Step>, k: nat, n: nat)
    requires n <= |steps| && |ss| == |steps| + 1
  {
    k < n && Impersonates(ss[k], steps[k]) && forall j :: k < j < n ==> KeepsSession(ss[j], steps[j])
  }

  /** A readable record was parked by an impersonation of this run. */
  lemma {:induction false} ParkedInThisRun(ss: seq<Slots>, steps: seq<Step>, n: nat)
    requires IsRun(ss, steps) && !Readable(ss[0].parked) && n < |ss|
    ensures Readable(ss[n].parked) ==> IsNonce(steps, ss[n].parked.binding)
  {
    if n > 0 {
      ParkedInThisRun(ss, steps, n - 1);
      assert ss[n - 1 + 1] == Apply(ss[n - 1], steps[n - 1]);
    }
  }

  lemma {:induction false} BoundMeansRefreshed(ss: seq<Slots>, steps: seq<Step>, n: nat)
    requires IsRun(ss, steps) && !Readable(ss[0].parked) && NoncesStayInside(ss, steps) && n < |ss|
    ensures Bound(ss[n]) ==> exists k: nat :: RefreshedSince(ss, steps, k, n)
  {
    if n > 0 && Bound(ss[n]) {
      var s, step := ss[n - 1], steps[n - 1];
      assert ss[n - 1 + 1] == Apply(s, step);
      if Impersonates(s, step) {
        assert RefreshedSince(ss, steps, n - 1, n);
      } else {
        BoundMeansRefreshed(ss, steps, n - 1);
        ParkedInThisRun(ss, steps, n - 1);
        assert Bound(s) && KeepsSession(s, step);
        var k: nat :| RefreshedSince(ss, steps, k, n - 1);
        assert RefreshedSince(ss, steps, k, n);
      }
    }
  }

  lemma {:induction false} RefreshedMeansBound(ss: seq<Slots>, steps: seq<Step>, k: nat, n: nat)
    requires IsRun(ss, steps) && NoncesStayInside(ss, steps) && n < |ss|
    requires RefreshedSince(ss, steps, k, n)
    ensures Bound(ss[n]) && ss[n].parked == Record(ss[k].live.value, steps[k].nonce)
    decreases n
  {
    assert ss[n - 1 + 1] == Apply(ss[n - 1], steps[n - 1]);
    if k + 1 < n {
      assert KeepsSession(ss[n - 1], steps[n - 1]);
      RefreshedMeansBound(ss, steps, k, n - 1);
    } else {
      assert steps[k].nonce != "";
    }
  }

  /**
   * Over every run, from a session with nothing parked or a record of an old version: stopping gives a token set back
   * if and only if every write to the live slot since an impersonation was a refresh, and then it gives back the set
   * that was live at that impersonation, without its binding. Otherwise whatever was parked is dropped, with the
   * session.
   */
  lemma StopRestoresTheActor(ss: seq<Slots>, steps: seq<Step>, n: nat)
    requires IsRun(ss, steps) && !Readable(ss[0].parked) && NoncesStayInside(ss, steps) && n < |ss|
    ensures Stopping(ss[n]).0 <==> exists k: nat :: RefreshedSince(ss, steps, k, n)
    ensures forall k: nat :: RefreshedSince(ss, steps, k, n) ==>
      Stopping(ss[n]).1 == ss[n].(live := Some(ss[k].live.value.(binding := None)), parked := Empty)
    ensures !Stopping(ss[n]).0 && ss[n].parked != Empty ==>
      Stopping(ss[n]).1 == ss[n].(live := None, parked := Empty)
  {
    BoundMeansRefreshed(ss, steps, n);
    forall k: nat | RefreshedSince(ss, steps, k, n)
      ensures Bound(ss[n]) && ss[n].parked == Record(ss[k].live.value, steps[k].nonce)
    {
      RefreshedMeansBound(ss, steps, k, n);
    }
  }

  // Stopping under any host

  function LiveBinding(s: Slots): Option<string> {
    if s.live.Some? then s.live.value.binding else None
  }

  /** A step that rewrites the binding of the live slot and nothing else of the impersonation: the binding it writes. */
  function BindingWrite(s: Slots, step: Step): Option<Option<string>> {
    match step
    case HostPut(tokenSet) => Some(tokenSet.binding)
    case HostForget => Some(None)
    case Adopt(renewed) => if s.live.Some? && s.live.value.binding.None? then Some(renewed.binding) else None
    case _ => None
  }

  /** A step that parks another record or drops the one there is. */
  predicate Unparks(s: Slots, step: Step) {
    match step
    case Callback(query, idp) => CompleteAuthorization(s.pending, query, idp).Completed?
    case Logout => true
    case CheckRevocation(revoked) => revoked && s.live.Some? && s.live.value.tokens.idToken != ""
    case Impersonate(_, _) => Impersonates(s, step)
    case Stop => true
    case _ => false
  }

  /** What the impersonation at `k` parked is still parked at `n`. */
  ghost predicate StillParked(ss: seq<Slots>, steps: seq<Step>, k: nat, n: nat)
    requires n <= |steps| && |ss| == |steps| + 1
  {
    k < n && Impersonates(ss[k], steps[k]) && forall j :: k < j < n ==> !Unparks(ss[j], steps[j])
  }

  /** Nobody wrote the live binding since `k`, or who did last wrote the nonce of `k`. */
  ghost predicate NonceWrittenLast(ss: seq<Slots>, steps: seq<Step>, k: nat, n: nat)
    requires n <= |steps| && |ss| == |steps| + 1 && k < n && steps[k].Impersonate?
  {
    || (forall j :: k < j < n ==> BindingWrite(ss[j], steps[j]).None?)
    || (exists w: nat ::
          && k < w < n && BindingWrite(ss[w], steps[w]) == Some(Some(steps[k].nonce))
          && forall j :: w < j < n ==> BindingWrite(ss[j], steps[j]).None?)
  }

  lemma {:induction false} ParkedByImpersonation(ss: seq<Slots>, steps: seq<Step>, n: nat)
    requires IsRun(ss, steps) && !Readable(ss[0].parked) && n < |ss|
    ensures Readable(ss[n].parked) ==> exists k: nat :: StillParked(ss, steps, k, n)
  {
    if n > 0 && Readable(ss[n].parked) {
      var s, step := ss[n - 1], steps[n - 1];
      assert ss[n - 1 + 1] == Apply(s, step);
      if Impersonates(s, step) {
        assert StillParked(ss, steps, n - 1, n);
      } else {
        ParkedByImpersonation(ss, steps, n - 1);
        var k: nat :| StillParked(ss, steps, k, n - 1);
        assert StillParked(ss, steps, k, n);
      }
    }
  }

  lemma {:induction false} StillParkedFacts(ss: seq<Slots>, steps: seq<Step>, k: nat, n: nat)
    requires IsRun(ss, steps) && n < |ss| && StillParked(ss, steps, k, n)
    ensures ss[n].parked == Record(ss[k].live.value, steps[k].nonce)
    ensures LiveBinding(ss[n]) == Some(steps[k].nonce) <==> NonceWrittenLast(ss, steps, k, n)
    decreases n
  {
    var s, step := ss[n - 1], steps[n - 1];
    assert ss[n - 1 + 1] == Apply(s, step);
    if k + 1 < n {
      StillParkedFacts(ss, steps, k, n - 1);
      assert !Unparks(s, step);
      if BindingWrite(s, step).Some? {
        assert LiveBinding(ss[n]) == BindingWrite(s, step).value;
      } else {
        assert LiveBinding(ss[n]) == LiveBinding(s);
        if NonceWrittenLast(ss, steps, k, n - 1) && exists j :: k < j < n && BindingWrite(ss[j], steps[j]).Some? {
          var w: nat :| k < w < n - 1 && BindingWrite(ss[w], steps[w]) == Some(Some(steps[k].nonce))
            && forall j :: w < j < n - 1 ==> BindingWrite(ss[j], steps[j]).None?;
          assert forall j :: w < j < n ==> BindingWrite(ss[j], steps[j]).None?;
        }
      }
    }
  }

  /**
   * Over every run, whatever the host and other requests' refreshes write to the live slot: stopping gives a token
   * set back if and only if the record of some impersonation is still parked and the live binding was not rewritten
   * since, or last to that impersonation's nonce. It is then the set that was live at that impersonation, without its
   * binding.
   */
  lemma StopRestoresExactly(ss: seq<Slots>, steps: seq<Step>, n: nat)
    requires IsRun(ss, steps) && !Readable(ss[0].parked) && n < |ss|
    ensures Stopping(ss[n]).0 <==>
      exists k: nat :: StillParked(ss, steps, k, n) && steps[k].nonce != "" && NonceWrittenLast(ss, steps, k, n)
    ensures forall k: nat :: StillParked(ss, steps, k, n) && Stopping(ss[n]).0 ==>
      Stopping(ss[n]).1 == ss[n].(live := Some(ss[k].live.value.(binding := None)), parked := Empty)
    ensures !Stopping(ss[n]).0 && ss[n].parked != Empty ==> Stopping(ss[n]).1 == ss[n].(live := None, parked := Empty)
  {
    ParkedByImpersonation(ss, steps, n);
    forall k: nat | StillParked(ss, steps, k, n)
      ensures ss[n].parked == Record(ss[k].live.value, steps[k].nonce)
      ensures Bound(ss[n]) <==> steps[k].nonce != "" && NonceWrittenLast(ss, steps, k, n)
    {
      StillParkedFacts(ss, steps, k, n);
    }
  }

  /** If the host copies a binding back, the actor returns although the session was replaced in between. */
  lemma CopiedBindingRestores()
    ensures exists ss: seq<Slots>, steps: seq<Step> ::
      && IsRun(ss, steps) && |steps| == 4
        && ss[0] == Slots(Some(TokenSet(Tokens("i", "a", None, None), None)), Empty, None)
      && steps[1] == HostForget && steps[3] == Stop
      && Stopping(ss[3]).0 && ss[4].live == ss[0].live
      && !exists k: nat :: RefreshedSince(ss, steps, k, 3)
  {
    var actor, target := TokenSet(Tokens("i", "a", None, None), None), Tokens("j", "b", None, None);
    var steps := [Impersonate(Some(target), "n"), HostForget, HostPut(TokenSet(target, Some("n"))), Stop];
    var s0 := Slots(Some(actor), Empty, None);
    var s1 := Apply(s0, steps[0]);
    var s2 := Apply(s1, steps[1]);
    var s3 := Apply(s2, steps[2]);
    var ss := [s0, s1, s2, s3, Apply(s3, steps[3])];
    assert ss[3] == s3 && ss[2] == s2 && ss[1] == s1;
    assert forall k: nat :: RefreshedSince(ss, steps, k, 3) ==> k == 0 && KeepsSession(ss[1], steps[1]);
    assert IsRun(ss, steps);
  }

  // Library steps only

  /** No host writes, and refreshes of one session agree on its binding. */
  predicate IsLibraryStep(s: Slots, step: Step) {
    match step
    case HostPut(_) => false
    case HostForget => false
    case Adopt(renewed) => s.live.Some? ==> s.live.value.binding.Some? || renewed.binding.None?
    case Impersonate(_, nonce) => nonce != ""
    case _ => true
  }

  /** A record is parked if and only if the live set carries a binding, and then its own. */
  predicate Coherent(s: Slots) {
    match s.parked
    case Empty => s.live.Some? ==> s.live.value.binding.None?
    case Legacy => false
    case Record(_, _) => Bound(s)
  }

  /** With library steps only, from a session that was never impersonating, the two slots never disagree. */
  lemma {:induction false} LibraryKeepsCoherence(ss: seq<Slots>, steps: seq<Step>, n: nat)
    requires IsRun(ss, steps) && Coherent(ss[0]) && n < |ss|
    requires forall j :: 0 <= j < |steps| ==> IsLibraryStep(ss[j], steps[j])
    ensures Coherent(ss[n])
    ensures IsImpersonating(ss[n]) <==> ss[n].parked.Record?
  {
    if n > 0 {
      LibraryKeepsCoherence(ss, steps, n - 1);
      assert ss[n - 1 + 1] == Apply(ss[n - 1], steps[n - 1]);
    }
  }

  // Logins

  predicate CompletesLogin(s: Slots, step: Step) {
    step.Callback? && CompleteAuthorization(s.pending, step.query, step.idp).Completed?
  }

  /** The login request a callback answers, and nothing has used since. */
  ghost predicate Answers(ss: seq<Slots>, steps: seq<Step>, b: nat, n: nat)
    requires n < |steps| && |ss| == |steps| + 1
  {
    b < n && steps[b].BeginLogin? && ss[n].pending == Some(steps[b].request)
    && forall j :: b < j < n ==> !steps[j].BeginLogin? && !steps[j].Callback?
  }

  lemma {:induction false} PendingIsUnused(ss: seq<Slots>, steps: seq<Step>, n: nat)
    requires IsRun(ss, steps) && ss[0].pending.None? && n < |steps| && ss[n].pending.Some?
    ensures exists b: nat :: Answers(ss, steps, b, n)
  {
    if n > 0 {
      assert ss[n - 1 + 1] == Apply(ss[n - 1], steps[n - 1]);
      if steps[n - 1].BeginLogin? {
        assert Answers(ss, steps, n - 1, n);
      } else {
        PendingIsUnused(ss, steps, n - 1);
        var b: nat :| Answers(ss, steps, b, n - 1);
        assert Answers(ss, steps, b, n);
      }
    }
  }

  /**
   * Each login request completes at most one callback, one with its own `state`, and no other callback came between:
   * a callback replayed, or never asked for, changes neither token slot.
   */
  lemma LoginsAnswerRequests(ss: seq<Slots>, steps: seq<Step>, n: nat)
    requires IsRun(ss, steps) && ss[0].pending.None? && n < |steps| && steps[n].Callback?
    ensures CompletesLogin(ss[n], steps[n]) ==>
      exists b: nat :: Answers(ss, steps, b, n) && steps[n].query.state == Some(steps[b].request.state)
    ensures !CompletesLogin(ss[n], steps[n]) ==> ss[n + 1].live == ss[n].live && ss[n + 1].parked == ss[n].parked
    ensures ss[n + 1].pending.None?
  {
    assert ss[n + 1] == Apply(ss[n], steps[n]);
    if CompletesLogin(ss[n], steps[n]) {
      PendingIsUnused(ss, steps, n);
      var b: nat :| Answers(ss, steps, b, n);
      assert steps[n].query.state == Some(steps[b].request.state);
    }
  }

  // The session object and what acts on it

  datatype Claims = Claims(sid: Option<string>, sub: Option<string>, iat: Option<int>)

  class Session {
    var token: Option<TokenSet>
    var impersonator: Parked
    var pkce: Option<Pending>

    function State(): Slots
      reads this
    {
      Slots(token, impersonator, pkce)
    }

    constructor ()
      ensures State() == Slots(None, Empty, None)
    {
      token, impersonator, pkce := None, Empty, None;
    }
  }

  class AuthkitClientManager {
    method StartSession(session: Session, tokens: Tokens)
      modifies session
      ensures session.State() == Started(old(session.State()), tokens)
    {
      session.impersonator := Empty;
      session.token := Some(TokenSet(tokens, None));
    }

    method EndSession(session: Session)
      modifies session
      ensures session.State() == Ended(old(session.State()))
    {
      session.token := None;
      session.impersonator := Empty;
    }

    /** `target` is what the token exchange answers; the call fails without a live access token or without it. */
    method Impersonate(session: Session, target: Option<Tokens>, nonce: string) returns (ok: bool)
      modifies session
      ensures session.State() == Apply(old(session.State()), Step.Impersonate(target, nonce))
      ensures ok <==> Impersonates(old(session.State()), Step.Impersonate(target, nonce))
    {
      if session.token.None? || session.token.value.tokens.accessToken == "" {
        return false;
      }
      var current := session.token.value;
      if target.None? {
        return false;
      }
      session.impersonator := Record(current, nonce);
      session.token := Some(TokenSet(target.value, Some(nonce)));
      return true;
    }

    method StopImpersonating(session: Session) returns (restored: bool)
      modifies session
      ensures (restored, session.State()) == Stopping(old(session.State()))
    {
      var raw := session.impersonator;
      if raw.Empty? {
        return false;
      }
      var live := session.token;
      if !Readable(raw) || live.None? || live.value.binding.None? || live.value.binding.value == ""
          || live.value.binding.value != raw.binding {
        session.impersonator := Empty;
        session.token := None;
        return false;
      }
      session.token := Some(raw.tokenSet.(binding := None));
      session.impersonator := Empty;
      return true;
    }

    /** The login route stores the request; the callback uses it up first, whatever the outcome. */
    method LoginRoute(session: Session, request: Pending)
      modifies session
      ensures session.State() == Apply(old(session.State()), BeginLogin(request))
    {
      session.pkce := Some(request);
    }

    method CallbackRoute(session: Session, query: CallbackParams, idp: Idp) returns (outcome: Outcome)
      modifies session
      ensures session.State() == Apply(old(session.State()), Callback(query, idp))
      ensures outcome == CompleteAuthorization(old(session.pkce), query, idp)
    {
      var pending := session.pkce;
      session.pkce := None;
      outcome := CompleteAuthorization(pending, query, idp);
      if outcome.Completed? {
        StartSession(session, outcome.tokens);
      }
    }

    method LogoutRoute(session: Session) returns (idTokenHint: Option<string>)
      modifies session
      ensures session.State() == Apply(old(session.State()), Logout)
      ensures idTokenHint ==
        if old(session.token).Some? then Str(Some(old(session.token).value.tokens.idToken)) else None
    {
      idTokenHint := if session.token.Some? then Str(Some(session.token.value.tokens.idToken)) else None;
      EndSession(session);
    }

    /** The revocation middleware: `decode` reads an id token's claims, `isRevoked` is the revocation store, if any. */
    method CheckRevocation(session: Session, decode: string -> Option<Claims>, isRevoked: Option<Claims -> bool>)
      modifies session
      ensures
        var live := old(session.token);
        var claims := if live.Some? then decode(live.value.tokens.idToken) else None;
        var named := claims.Some? && (Str(claims.value.sid).Some? || Str(claims.value.sub).Some?);
        session.State() == Apply(old(session.State()),
          Step.CheckRevocation(isRevoked.Some? && named && isRevoked.value(claims.value)))
    {
      if isRevoked.None? || session.token.None? {
        return;
      }
      var idToken := session.token.value.tokens.idToken;
      if idToken == "" {
        return;
      }
      var claims := decode(idToken);
      if claims.Some? && (Str(claims.value.sid).Some? || Str(claims.value.sub).Some?) && isRevoked.value(claims.value) {
        EndSession(session);
      }
    }
  }
}
