/** The copy of the hardware bridge kept with the extension. Its port
    selection and serial framing are the same as the top-level bridge's
    and are reused from it; its `/status` accepts only the two task
    states and sets no CORS headers. */
module ExtensionBridge {

  import opened Wrappers
  import Bridge

  const AcceptedStates: seq<string> := ["on_task", "off_task"]

  /** The decision of this copy's `status`: only `on_task` and `off_task`
      are forwarded and answered with 200. */
  function StatusOutcome(state: Option<string>): (o: Bridge.Outcome)
    ensures o.code == 200 || o.code == 400
    ensures o.code == 200 <==> state == Some("on_task") || state == Some("off_task")
    ensures o.forwarded.Some? <==> o.code == 200
    ensures o.forwarded.Some? ==> o.forwarded == state
  {
    if state.Some? && state.value in AcceptedStates then Bridge.Outcome(200, state)
    else Bridge.Outcome(400, None)
  }

  /** The two copies agree on every state but `break_time`, which only the
      top-level bridge forwards. */
  lemma CopiesDifferOnlyOnBreakTime(state: Option<string>)
    ensures StatusOutcome(state) != Bridge.StatusOutcome(state) <==> state == Some("break_time")
    ensures StatusOutcome(state).code == 200 ==> Bridge.StatusOutcome(state).code == 200
  {
  }

  /** `status`: forwards an accepted state and returns the body and status
      code, with no headers added. */
  method Status(ser: Bridge.SerialLink, state: Option<string>) returns (body: string, code: int, headers: map<string, string>)
    modifies ser
    ensures code == StatusOutcome(state).code
    ensures body == Bridge.BodyFor(code)
    ensures headers == map[]
    ensures ser.written == old(ser.written) +
              (if StatusOutcome(state).forwarded.Some? then Bridge.Frame(state.value) else "")
  {
    var outcome := StatusOutcome(state);
    if outcome.forwarded.Some? {
      Bridge.SendToArduino(ser, outcome.forwarded.value);
      return "OK", 200, map[];
    } else {
      return "Invalid state", 400, map[];
    }
  }
}
