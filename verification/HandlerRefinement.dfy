/** A handler call of the runtime object is a run of the transition system in which only the handler moves. */
module HandlerRefinement {
  import opened Options
  import opened ServiceState
  import opened ServiceSystem
  import opened ServiceRuntime

  function StatusesOf(published: seq<Publication>): seq<Status> {
    seq(|published|, i requires 0 <= i < |published| => published[i].status)
  }

  ghost predicate OnlyHandler(run: seq<Action>) {
    forall i :: 0 <= i < |run| ==> run[i].HandlerActionOf?
  }

  lemma StatusesSnoc(published: seq<Publication>, next: Publication)
    ensures StatusesOf(published + [next]) == StatusesOf(published) + [next.status]
  {
  }

  lemma HandlerPublishes(h: ScmHistory, pc: HandlerPc, turn: HandlerTurn)
    ensures StatusesOf(HandlerScm(h, pc, turn).published) == StatusesOf(h.published) + Prepend(turn.published, [])
  {
    if turn.published.Some? {
      StatusesSnoc(h.published, Publication(turn.published.value, HandlerSource(pc)));
    }
  }

  /** One step of the handler, and what is left of the call then. */
  lemma ContinueOnce(s: State, scm: bool, event: bool) returns (t: State)
    requires !s.handler.Idle?
    ensures Step(s, HandlerActionOf(Continue(CallSucceeds(s.handler, scm, event)))) == Some(t)
    ensures HandlerRank(t.handler) < HandlerRank(s.handler)
    ensures HandlerRest(s.shared, s.handler, scm, event).0 == HandlerRest(t.shared, t.handler, scm, event).0
    ensures StatusesOf(t.scm.published) + HandlerRest(t.shared, t.handler, scm, event).1
         == StatusesOf(s.scm.published) + HandlerRest(s.shared, s.handler, scm, event).1
  {
    var turn := HandlerContinue(s.shared, s.handler, CallSucceeds(s.handler, scm, event));
    t := Step(s, HandlerActionOf(Continue(CallSucceeds(s.handler, scm, event)))).value;
    HandlerPublishes(s.scm, s.handler, turn);
    RestStep(s.shared, s.handler, scm, event);
    PrependSplits(StatusesOf(s.scm.published), turn.published, HandlerRest(t.shared, t.handler, scm, event).1);
  }

  lemma PrependSplits(before: seq<Status>, published: Option<Status>, rest: seq<Status>)
    ensures (before + Prepend(published, [])) + rest == before + Prepend(published, rest)
  {
  }

  lemma {:induction false} RestIsRun(s: State, scm: bool, event: bool) returns (run: seq<Action>, t: State)
    ensures Leads(s, run, t) && OnlyHandler(run) && t.handler.Idle?
    ensures t.shared == HandlerRest(s.shared, s.handler, scm, event).0
    ensures StatusesOf(t.scm.published) == StatusesOf(s.scm.published) + HandlerRest(s.shared, s.handler, scm, event).1
    decreases HandlerRank(s.handler)
  {
    if s.handler.Idle? {
      run, t := [], s;
    } else {
      var a := HandlerActionOf(Continue(CallSucceeds(s.handler, scm, event)));
      var u := ContinueOnce(s, scm, event);
      var rest;
      rest, t := RestIsRun(u, scm, event);
      run := [a] + rest;
      LeadsCons(s, a, u, rest, t);
    }
  }

  /**
    In every state in which the handler is idle and may receive `control`, letting only the handler move leads to the
    shared fields and the published records that the method `HandleControl` computes in one go.
   */
  lemma HandleControlIsRun(s: State, control: ServiceControl, scm: bool, event: bool)
    requires s.handler.Idle? && MayReceive(s, control)
    ensures exists run, t ::
              && Leads(s, run, t) && OnlyHandler(run) && t.handler.Idle?
              && t.shared == HandlerCall(s.shared, control, scm, event).0
              && StatusesOf(t.scm.published) == StatusesOf(s.scm.published) + HandlerCall(s.shared, control, scm, event).1
  {
    var a := HandlerActionOf(Receive(control, scm));
    var turn := HandlerEntry(s.shared, control, scm);
    var u := Step(s, a).value;
    HandlerPublishes(s.scm, Idle, turn);
    var rest, t := RestIsRun(u, scm, event);
    var run := [a] + rest;
    LeadsCons(s, a, u, rest, t);
    assert Leads(s, run, t) && OnlyHandler(run);
  }

  // ----- Every run is a call -----

  /** Steps that go on with a call. */
  ghost predicate OnlyContinue(run: seq<Action>) {
    forall i :: 0 <= i < |run| ==> run[i].HandlerActionOf? && run[i].handler.Continue?
  }

  /** No SCM call is left in the rest of the call. */
  predicate PastReport(pc: HandlerPc) {
    pc.Idle? || pc.StopSignal? || pc.PreshutdownSignal? || pc.PreshutdownRollback?
  }

  lemma ScmSpent(sh: Shared, pc: HandlerPc, scm: bool, scm2: bool, event: bool)
    requires PastReport(pc)
    ensures HandlerRest(sh, pc, scm, event).0 == HandlerRest(sh, pc, scm2, event).0
    ensures HandlerRest(sh, pc, scm, event).1 == HandlerRest(sh, pc, scm2, event).1
    decreases HandlerRank(pc)
  {
    if !pc.Idle? {
      RestStep(sh, pc, scm, event);
      RestStep(sh, pc, scm2, event);
      var turn := HandlerContinue(sh, pc, event);
      ScmSpent(turn.shared, turn.pc, scm, scm2, event);
    }
  }

  lemma EventSpent(sh: Shared, pc: HandlerPc, scm: bool, event: bool, event2: bool)
    requires pc.Idle? || pc.PreshutdownRollback?
    ensures HandlerRest(sh, pc, scm, event).0 == HandlerRest(sh, pc, scm, event2).0
    ensures HandlerRest(sh, pc, scm, event).1 == HandlerRest(sh, pc, scm, event2).1
  {
    if !pc.Idle? {
      RestStep(sh, pc, scm, event);
      RestStep(sh, pc, scm, event2);
    }
  }

  /** What the rest of the call does from `s` is what it does to `t`. */
  ghost predicate Concludes(s: State, t: State, scm: bool, event: bool) {
    && t.shared == HandlerRest(s.shared, s.handler, scm, event).0
    && StatusesOf(t.scm.published) == StatusesOf(s.scm.published) + HandlerRest(s.shared, s.handler, scm, event).1
  }

  /** A step at which the SCM or the event call succeeds as `scm` and `event` say keeps the conclusion. */
  lemma StepConcludes(s: State, u: State, t: State, scm: bool, event: bool)
    requires !s.handler.Idle? && Concludes(u, t, scm, event)
    requires Step(s, HandlerActionOf(Continue(CallSucceeds(s.handler, scm, event)))) == Some(u)
    ensures Concludes(s, t, scm, event)
  {
    var v := ContinueOnce(s, scm, event);
    assert v == u;
  }

  /** At a position without a call of its own the outcome does not matter. */
  lemma OutcomeIgnored(sh: Shared, pc: HandlerPc, ok: bool, ok2: bool)
    requires pc.StopSignal? || pc.PreshutdownClaim? || pc.PreshutdownRollback?
    ensures HandlerContinue(sh, pc, ok) == HandlerContinue(sh, pc, ok2)
  {
  }

  lemma AfterCall(sh: Shared, pc: HandlerPc, ok: bool)
    requires !pc.Idle?
    ensures pc.StopReport? || pc.PreshutdownReport? ==> PastReport(HandlerContinue(sh, pc, ok).pc)
    ensures pc.PreshutdownSignal? ==>
              HandlerContinue(sh, pc, ok).pc.Idle? || HandlerContinue(sh, pc, ok).pc.PreshutdownRollback?
  {
  }

  lemma ConcludesWith(s: State, u: State, t: State, ok: bool, scm: bool, event: bool) returns (scm2: bool, event2: bool)
    requires !s.handler.Idle? && Step(s, HandlerActionOf(Continue(ok))) == Some(u) && Concludes(u, t, scm, event)
    ensures Concludes(s, t, scm2, event2)
  {
    scm2, event2 := scm, event;
    AfterCall(s.shared, s.handler, ok);
    if s.handler.StopReport? || s.handler.PreshutdownReport? {
      scm2 := ok;
      ScmSpent(u.shared, u.handler, scm, scm2, event);
    } else if s.handler.PreshutdownSignal? {
      event2 := ok;
      EventSpent(u.shared, u.handler, scm, event, event2);
    } else {
      OutcomeIgnored(s.shared, s.handler, ok, CallSucceeds(s.handler, scm, event));
    }
    StepConcludes(s, u, t, scm2, event2);
  }

  lemma {:induction false} RunConcludes(s: State, run: seq<Action>, t: State) returns (scm: bool, event: bool)
    requires Leads(s, run, t) && OnlyContinue(run) && t.handler.Idle?
    ensures Concludes(s, t, scm, event)
    ensures s.handler.Idle? ==> t == s
    decreases |run|
  {
    if run == [] {
      scm, event := true, true;
    } else {
      var u := LeadsFirst(s, run, t);
      var scm1, event1 := RunConcludes(u, run[1..], t);
      scm, event := ConcludesWith(s, u, t, run[0].handler.ok, scm1, event1);
    }
  }

  lemma EntryConcludes(s: State, u: State, t: State, control: ServiceControl, scm: bool, event: bool)
    requires Step(s, HandlerActionOf(Receive(control, scm))) == Some(u) && Concludes(u, t, scm, event)
    ensures t.shared == HandlerCall(s.shared, control, scm, event).0
    ensures StatusesOf(t.scm.published) == StatusesOf(s.scm.published) + HandlerCall(s.shared, control, scm, event).1
  {
    var turn := HandlerEntry(s.shared, control, scm);
    HandlerPublishes(s.scm, Idle, turn);
    PrependSplits(StatusesOf(s.scm.published), turn.published, HandlerRest(u.shared, u.handler, scm, event).1);
  }

  /** Only INTERROGATE talks to the SCM in its first step, and it has no other. */
  lemma EntryOutcome(sh: Shared, control: ServiceControl, ok: bool, ok2: bool)
    ensures control.Interrogate? ==> HandlerEntry(sh, control, ok).pc.Idle?
    ensures !control.Interrogate? ==> HandlerEntry(sh, control, ok) == HandlerEntry(sh, control, ok2)
  {
  }

  /**
    And every run in which the handler alone receives `control` and goes on until it is idle again is a call, for some
    answers of the SCM and of the event call.
   */
  lemma RunIsHandleControl(s: State, control: ServiceControl, ok: bool, rest: seq<Action>, t: State)
    requires Leads(s, [HandlerActionOf(Receive(control, ok))] + rest, t) && OnlyContinue(rest) && t.handler.Idle?
    ensures exists scm, event ::
              && t.shared == HandlerCall(s.shared, control, scm, event).0
              && StatusesOf(t.scm.published) == StatusesOf(s.scm.published) + HandlerCall(s.shared, control, scm, event).1
  {
    var a := HandlerActionOf(Receive(control, ok));
    assert ([a] + rest)[0] == a && ([a] + rest)[1..] == rest;
    var u := LeadsFirst(s, [a] + rest, t);
    var scm, event := RunConcludes(u, rest, t);
    EntryOutcome(s.shared, control, ok, scm);
    if control.Interrogate? {
      ScmSpent(u.shared, u.handler, scm, ok, event);
      EntryConcludes(s, u, t, control, ok, event);
    } else {
      EntryConcludes(s, u, t, control, scm, event);
    }
  }
}
