/**
 * Who is signed in. Over every run of the session's steps: when the live slot holds a token set, whose tokens those
 * are, and that a logout or a revocation ends it for good. Nothing here speaks of how the steps are computed.
 */
module SignedIn {
  import opened Wrappers
  import opened RelyingParty

  /** The step puts a token set into the live slot whatever was there: a completed login, or the host. */
  predicate SignsIn(s: Slots, step: Step) {
    match step
    case Callback(query, idp) => Completes(s.pending, query, idp)
    case HostPut(_) => true
    case _ => false
  }

  /** The live set carries the binding of the record parked with it. */
  predicate Tied(s: Slots) {
    && s.parked.Record? && s.parked.binding != ""
    && s.live.Some? && s.live.value.binding == Some(s.parked.binding)
  }

  /** The revocation store has revoked the session, and the live set says which session that is. */
  predicate Revoked(s: Slots, step: Step) {
    step.CheckRevocation? && step.revoked && s.live.Some? && s.live.value.tokens.idToken != ""
  }

  /** The step empties the live slot: logout, revocation, the host, or a stop that finds an orphaned record. */
  predicate SignsOut(s: Slots, step: Step) {
    match step
    case Logout => true
    case CheckRevocation(_) => Revoked(s, step)
    case HostForget => true
    case Stop => s.parked != Empty && !Tied(s)
    case _ => false
  }

  lemma StepSigns(s: Slots, step: Step)
    ensures Apply(s, step).live.Some? <==> SignsIn(s, step) || (s.live.Some? && !SignsOut(s, step))
  {
  }

  /** Over every run: somebody is signed in if and only if the last step that signs in or out signs in. */
  lemma {:induction false} SignedInExactly(ss: seq<Slots>, steps: seq<Step>, n: nat)
    requires IsRun(ss, steps) && ss[0].live.None? && n < |ss|
    ensures ss[n].live.Some? <==>
      exists w :: 0 <= w < n && SignsIn(ss[w], steps[w]) && forall j :: w < j < n ==> !SignsOut(ss[j], steps[j])
  {
    hide Apply, SignsIn, SignsOut;
    if n > 0 {
      SignedInExactly(ss, steps, n - 1);
      assert ss[n - 1 + 1] == Apply(ss[n - 1], steps[n - 1]);
      StepSigns(ss[n - 1], steps[n - 1]);
      if !SignsIn(ss[n - 1], steps[n - 1]) && ss[n].live.Some? {
        var w :| 0 <= w < n - 1 && SignsIn(ss[w], steps[w]) && forall j :: w < j < n - 1 ==> !SignsOut(ss[j], steps[j]);
        assert forall j :: w < j < n ==> !SignsOut(ss[j], steps[j]);
      }
    }
  }

  predicate EndsSession(s: Slots, step: Step) {
    step.Logout? || Revoked(s, step)
  }

  /**
   * After a logout, or a revocation of the session the id token names, both slots are empty, and they stay so until a
   * login completes or the host itself puts a token set there.
   */
  lemma {:induction false} EndedStaysEnded(ss: seq<Slots>, steps: seq<Step>, r: nat, n: nat)
    requires IsRun(ss, steps) && r < n < |ss| && EndsSession(ss[r], steps[r])
    requires forall j :: r < j < n ==> !SignsIn(ss[j], steps[j])
    ensures ss[n].live.None? && ss[n].parked == Empty
    decreases n
  {
    assert ss[n - 1 + 1] == Apply(ss[n - 1], steps[n - 1]);
    if n > r + 1 { EndedStaysEnded(ss, steps, r, n - 1); }
  }

  /** The step leaves `put` in the live slot, and this is where it has it from. */
  predicate Wrote(s: Slots, step: Step, put: TokenSet) {
    match step
    case Callback(query, idp) => Completes(s.pending, query, idp) && put == TokenSet(idp.exchanged.value, None)
    case Refresh(next) =>
      && s.live.Some? && next.Some?
      && Renewed(s.live.value.tokens, next.value, put.tokens) && put.binding == s.live.value.binding
    case Adopt(renewed) =>
      && s.live.Some? && put.tokens == renewed.tokens
      && put.binding == (if s.live.value.binding.None? then renewed.binding else s.live.value.binding)
    case Impersonate(target, nonce) =>
      && s.live.Some? && s.live.value.tokens.accessToken != "" && target.Some?
      && put == TokenSet(target.value, Some(nonce))
    case Stop => Tied(s) && put == TokenSet(s.parked.tokenSet.tokens, None)
    case HostPut(tokenSet) => put == tokenSet
    case _ => false
  }

  lemma StepWrites(s: Slots, step: Step)
    ensures Apply(s, step).live.Some? ==>
      Wrote(s, step, Apply(s, step).live.value) || Apply(s, step).live == s.live
    ensures forall put :: Wrote(s, step, put) ==> Apply(s, step).live == Some(put)
    ensures SignsIn(s, step) && step.Callback? ==> Apply(s, step).parked == Empty && Apply(s, step).pending.None?
    ensures step.Impersonate? && (exists put :: Wrote(s, step, put)) ==>
      Apply(s, step).parked == Record(s.live.value, step.nonce)
  {
    if step.Refresh? && s.live.Some? && step.next.Some? {
      forall put | Wrote(s, step, put)
        ensures Apply(s, step).live == Some(put)
      {
        assert put.tokens == Apply(s, step).live.value.tokens;
      }
    }
  }

  /**
   * Over every run: the live token set is the one the last step that wrote one wrote: the tokens of the login
   * completed, of the IdP's answer to the refresh, of the refresh waited for, of the target impersonated, of the
   * actor restored, or of the host.
   */
  lemma {:induction false} LiveTellsLastWrite(ss: seq<Slots>, steps: seq<Step>, n: nat)
    requires IsRun(ss, steps) && ss[0].live.None? && n < |ss| && ss[n].live.Some?
    ensures exists w ::
      && 0 <= w < n && Wrote(ss[w], steps[w], ss[n].live.value)
      && forall j :: w < j < n ==> ss[j].live == ss[n].live
  {
    hide Apply, Wrote, SignsIn;
    assert n > 0;
    assert ss[n - 1 + 1] == Apply(ss[n - 1], steps[n - 1]);
    StepWrites(ss[n - 1], steps[n - 1]);
    if !Wrote(ss[n - 1], steps[n - 1], ss[n].live.value) {
      LiveTellsLastWrite(ss, steps, n - 1);
      var w :| 0 <= w < n - 1 && Wrote(ss[w], steps[w], ss[n - 1].live.value)
        && forall j :: w < j < n - 1 ==> ss[j].live == ss[n - 1].live;
      assert forall j :: w < j < n ==> ss[j].live == ss[n].live;
    }
  }
}
