/** The smaller controls, and when a handler call throws. */
module HandlerCalls {
  import opened ServiceState
  import opened ServiceRuntime

  /** A session change raises the agent-needed event for a console connect, a remote connect and a logon, and does nothing else. */
  lemma SessionChangeCall(sh: Shared, eventType: nat, scm: bool, event: bool)
    ensures HandlerCall(sh, SessionChange(eventType), scm, event)
         == (if eventType == 1 || eventType == 3 || eventType == 5 then sh.(agentNeeded := true) else sh, [])
  {
  }

  /** INTERROGATE hands exactly the stored record to the SCM and changes nothing; other controls do nothing at all. */
  lemma InterrogateCall(sh: Shared, scm: bool, event: bool)
    ensures HandlerCall(sh, Interrogate, scm, event) == (sh, if scm then [sh.status] else [])
    ensures HandlerCall(sh, OtherControl, scm, event) == (sh, [])
  {
    assert [sh.status] + [] == [sh.status];
  }

  /** A call throws exactly if an SCM or event call that it makes fails; what is already under way makes none. */
  lemma WhenCallsThrow(sh: Shared, control: ServiceControl, scm: bool, event: bool)
    ensures HandlerThrows(sh, control, scm, event)
       <==> || (control.Interrogate? && !scm)
            || (control.StopControl? && !sh.preshutdownStarted && !scm)
            || (control.PreshutdownControl? && !sh.preshutdownStarted && (!scm || !event))
  {
  }
}
