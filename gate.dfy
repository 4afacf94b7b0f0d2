/** The stage-label gate the handler runs before any step. */
module Gate {
  import opened Outcomes
  import opened Store

  datatype Step = CreateSecret | SetSecret | TestSecret | FinishSecret

  /** The step named by the request, if it is one of the four. */
  function ParseStep(name: string): (r: Option<Step>)
    ensures r == Some(CreateSecret) <==> name == "createSecret"
    ensures r == Some(SetSecret) <==> name == "setSecret"
    ensures r == Some(TestSecret) <==> name == "testSecret"
    ensures r == Some(FinishSecret) <==> name == "finishSecret"
  {
    if name == "createSecret" then Some(CreateSecret)
    else if name == "setSecret" then Some(SetSecret)
    else if name == "testSecret" then Some(TestSecret)
    else if name == "finishSecret" then Some(FinishSecret)
    else None
  }

  datatype Decision = Reject(error: RotationError) | AlreadyCurrent | Dispatch(step: Step)

  /** The gate: rotation must not be switched off, the token must be a
      version of the secret, a version that is already current ends the
      invocation successfully (whatever the step), and otherwise the version
      must be pending; only then is the step name looked at. */
  function Decide(s: Secret, token: Token, step: string): (d: Decision)
    ensures d == Reject(RotationNotEnabled) <==> s.rotationEnabled == Some(false)
    ensures d == Reject(NoStageForToken) <==> s.rotationEnabled != Some(false) && token !in s.stages
    ensures d == AlreadyCurrent <==> s.rotationEnabled != Some(false) && Holds(s.stages, token, Current)
    ensures d == Reject(NotPending) <==>
              s.rotationEnabled != Some(false) && token in s.stages
              && !Holds(s.stages, token, Current) && !Holds(s.stages, token, Pending)
    ensures d == Reject(InvalidStep(step)) <==>
              s.rotationEnabled != Some(false) && !Holds(s.stages, token, Current)
              && Holds(s.stages, token, Pending) && ParseStep(step).None?
    ensures d.Dispatch? <==>
              s.rotationEnabled != Some(false) && !Holds(s.stages, token, Current)
              && Holds(s.stages, token, Pending) && ParseStep(step).Some?
    ensures d.Dispatch? ==> ParseStep(step) == Some(d.step)
  {
    if s.rotationEnabled == Some(false) then Reject(RotationNotEnabled)
    else if token !in s.stages then Reject(NoStageForToken)
    else if Current in s.stages[token] then AlreadyCurrent
    else if Pending !in s.stages[token] then Reject(NotPending)
    else match ParseStep(step)
      case None => Reject(InvalidStep(step))
      case Some(st) => Dispatch(st)
  }
}
