/** The hardware bridge (the top-level bridge script): picks the Arduino's
    serial port, forwards accepted states to it as newline-terminated
    commands, and answers the extension's `/status` requests. */
module Bridge {

  import opened Wrappers
  import opened Text

  // ---------------------------------------------------------------------
  // Port selection

  /** A listed serial port: its description and its device name. */
  datatype Port = Port(description: string, device: string)

  /** The description markers of an Arduino or a common USB-serial chip. */
  const ArduinoMarkers: seq<string> := ["Arduino", "CH340", "USB Serial"]

  /** A port looks like an Arduino when its description contains one of the
      markers; the shortest marker has five characters. */
  function LooksLikeArduino(p: Port): (r: bool)
    ensures r <==> exists m :: m in ArduinoMarkers && Contains(p.description, m)
    ensures r ==> |p.description| >= 5
  {
    var a, c, u := Contains(p.description, "Arduino"), Contains(p.description, "CH340"), Contains(p.description, "USB Serial");
    assert forall m :: m in ArduinoMarkers ==> m == "Arduino" || m == "CH340" || m == "USB Serial";
    assert a ==> "Arduino" in ArduinoMarkers;
    assert c ==> "CH340" in ArduinoMarkers;
    assert u ==> "USB Serial" in ArduinoMarkers;
    a || c || u
  }

  /** `find_arduino_port`: the device of the first port that looks like an
      Arduino; failing that, the first port's device; `None` when there is
      no port at all. */
  method FindArduinoPort(ports: seq<Port>) returns (device: Option<string>)
    ensures device.Some? <==> |ports| > 0
    ensures forall i :: 0 <= i < |ports| && LooksLikeArduino(ports[i])
              && (forall j :: 0 <= j < i ==> !LooksLikeArduino(ports[j]))
              ==> device == Some(ports[i].device)
    ensures (|ports| > 0 && forall i :: 0 <= i < |ports| ==> !LooksLikeArduino(ports[i]))
              ==> device == Some(ports[0].device)
  {
    for i := 0 to |ports|
      invariant forall j :: 0 <= j < i ==> !LooksLikeArduino(ports[j])
    {
      if LooksLikeArduino(ports[i]) {
        return Some(ports[i].device);
      }
    }
    if |ports| > 0 {
      return Some(ports[0].device);
    }
    return None;
  }

  // ---------------------------------------------------------------------
  // Serial framing

  /** `cmd + "\n"`: a command as written to the serial port. */
  function Frame(cmd: string): (f: string)
    ensures |f| == |cmd| + 1 && f[..|cmd|] == cmd && f[|cmd|] == '\n'
  {
    cmd + "\n"
  }

  /** Every frame of a run of commands, one after the other. */
  function FrameAll(cmds: seq<string>): string {
    if cmds == [] then "" else Frame(cmds[0]) + FrameAll(cmds[1..])
  }

  /** The index of the first newline of `s`, or `|s|` when there is none. */
  function FirstNewline(s: string): (k: nat)
    ensures k <= |s| && (k < |s| ==> s[k] == '\n')
    ensures forall j :: 0 <= j < k ==> s[j] != '\n'
  {
    if s == [] || s[0] == '\n' then 0 else 1 + FirstNewline(s[1..])
  }

  /** How a line reader splits what it receives into lines. */
  function Lines(s: string): seq<string>
    decreases |s|
  {
    if s == [] then []
    else
      var k := FirstNewline(s);
      if k == |s| then [s] else [s[..k]] + Lines(s[k + 1..])
  }

  /** Newline framing is unambiguous: a reader that splits the stream at
      newlines gets back exactly the commands written, in order, as long as
      no command contains a newline itself. */
  lemma {:induction false} FramingRoundTrip(cmds: seq<string>)
    requires forall i :: 0 <= i < |cmds| ==> '\n' !in cmds[i]
    ensures Lines(FrameAll(cmds)) == cmds
  {
    if cmds != [] {
      LinesOfFrame(cmds[0], FrameAll(cmds[1..]));
      FramingRoundTrip(cmds[1..]);
    }
  }

  /** The reader takes one framed command off the front of the stream. */
  lemma LinesOfFrame(c: string, rest: string)
    requires '\n' !in c
    ensures Lines(Frame(c) + rest) == [c] + Lines(rest)
  {
    var s := Frame(c) + rest;
    assert s[..|c|] == c && s[|c|] == '\n';
    var k := FirstNewline(s);
    assert k == |c|;
    assert s[..k] == c;
    assert s[k + 1..] == rest;
  }

  /** The serial connection: everything written to it so far. */
  class SerialLink {
    var written: string

    constructor ()
      ensures written == ""
    {
      written := "";
    }

    method Write(bytes: string)
      modifies this
      ensures written == old(written) + bytes
    {
      written := written + bytes;
    }
  }

  /** `send_to_arduino`: writes the command's frame to the port. */
  method SendToArduino(ser: SerialLink, cmd: string)
    modifies ser
    ensures ser.written == old(ser.written) + Frame(cmd)
  {
    ser.Write(Frame(cmd));
  }

  // ---------------------------------------------------------------------
  // The /status handler

  /** What a `/status` request leads to: the status code and the command
      forwarded to the Arduino, if any. */
  datatype Outcome = Outcome(code: int, forwarded: Option<string>)

  const AcceptedStates: seq<string> := ["on_task", "off_task", "break_time"]

  /** The decision of `status`: a listed state is forwarded and answered
      with 200; any other state, or none, with 400 and nothing forwarded. */
  function StatusOutcome(state: Option<string>): (o: Outcome)
    ensures o.code == 200 || o.code == 400
    ensures o.code == 200 <==> state.Some? && state.value in AcceptedStates
    ensures o.forwarded.Some? <==> o.code == 200
    ensures o.forwarded.Some? ==> o.forwarded == state
  {
    if state.Some? && state.value in AcceptedStates then Outcome(200, state) else Outcome(400, None)
  }

  /** The response body for a status code. */
  function BodyFor(code: int): (body: string)
    ensures body == "OK" <==> code == 200
  {
    if code == 200 then "OK" else "Invalid state"
  }

  /** The three CORS headers both branches carry. */
  const CorsHeaders: map<string, string> := map[
    "Access-Control-Allow-Origin" := "*",
    "Access-Control-Allow-Methods" := "GET, POST, OPTIONS",
    "Access-Control-Allow-Headers" := "Content-Type"]

  /** A response made by `make_response`, whose headers are set afterwards.
      `headers` holds only the headers the handler itself adds; the ones
      Flask supplies by default (`Content-Type`, `Content-Length`) are not
      modelled. */
  class HttpResponse {
    const body: string
    const code: int
    var headers: map<string, string>

    constructor (body: string, code: int)
      ensures this.body == body && this.code == code && headers == map[]
    {
      this.body, this.code := body, code;
      headers := map[];
    }

    method SetHeader(name: string, value: string)
      modifies this
      ensures headers == old(headers)[name := value]
    {
      headers := headers[name := value];
    }
  }

  /** `status`: decides, forwards an accepted state over the serial link,
      and answers with the CORS headers set on either branch. */
  method Status(ser: SerialLink, state: Option<string>) returns (response: HttpResponse)
    modifies ser
    ensures fresh(response)
    ensures response.code == StatusOutcome(state).code
    ensures response.body == BodyFor(response.code)
    ensures response.headers == CorsHeaders
    ensures ser.written == old(ser.written) +
              (if StatusOutcome(state).forwarded.Some? then Frame(state.value) else "")
  {
    var outcome := StatusOutcome(state);
    if outcome.forwarded.Some? {
      SendToArduino(ser, outcome.forwarded.value);
      response := new HttpResponse("OK", 200);
    } else {
      response := new HttpResponse("Invalid state", 400);
    }
    response.SetHeader("Access-Control-Allow-Origin", "*");
    response.SetHeader("Access-Control-Allow-Methods", "GET, POST, OPTIONS");
    response.SetHeader("Access-Control-Allow-Headers", "Content-Type");
  }

  /** Every state the handler forwards is a framed line the Arduino reads
      back unchanged. */
  lemma ForwardedStatesFrameCleanly(states: seq<string>)
    requires forall i :: 0 <= i < |states| ==> states[i] in AcceptedStates
    ensures Lines(FrameAll(states)) == states
  {
    forall i | 0 <= i < |states| ensures '\n' !in states[i] {
      AcceptedStateIsOneLine(states[i]);
    }
    FramingRoundTrip(states);
  }

  lemma AcceptedStateIsOneLine(state: string)
    requires state in AcceptedStates
    ensures '\n' !in state
  {
  }
}
