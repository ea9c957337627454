/**
 * The drop-connection middleware: a handler built from a "start-end" status
 * range that runs the next handler against a buffering writer and then either
 * replays the buffered response or hijacks and closes the client connection.
 */
module DropConnection {
  import opened Wrappers
  import opened Strings
  import opened Strconv

  type byte = x: int | 0 <= x < 256

  const StatusOK := 200
  const StatusInternalServerError := 500

  // ---------------------------------------------------------------------
  // Configuration and construction
  // ---------------------------------------------------------------------

  /** The plugin configuration: one option holding the range, such as "300-599". */
  datatype Config = Config(statusCode: string)

  /** Why `New` refused a configuration; the start token is checked before the end token. */
  datatype ConfigError =
    | MappingError                      // not exactly two '-'-separated tokens
    | StartCodeError(cause: NumError)   // the first token is not an int
    | EndCodeError(cause: NumError)     // the second token is not an int

  /** The handler `New` builds: the inclusive range of statuses that cause a drop. */
  datatype Handler = Handler(statusCodeStart: int, statusCodeEnd: int)

  /** `New`: the range bounds exactly as written, in order, or the first error met. */
  function New(config: Config): (r: Result<Handler, ConfigError>)
    ensures r.Success? ==> 0 <= r.value.statusCodeStart <= MaxInt64 && 0 <= r.value.statusCodeEnd <= MaxInt64
    ensures config.statusCode == [] ==> r == Success(Handler(0, 0))
    ensures config.statusCode != [] ==> (r == Failure(MappingError) <==> Count(config.statusCode, '-') != 1)
  {
    if |config.statusCode| == 0 then Success(Handler(0, 0))
    else
      var codes := Split(config.statusCode, '-');
      if |codes| != 2 then Failure(MappingError)
      else match Atoi(codes[0])
        case Failure(e) => Failure(StartCodeError(e))
        case Success(start) =>
          match Atoi(codes[1])
          case Failure(e) => Failure(EndCodeError(e))
          case Success(end) => Success(Handler(start, end))
  }

  /**
   * For a string with exactly one '-', the outcome is decided by the two tokens
   * alone: a bad start token is reported whatever the end token is, and on
   * success the bounds are the two parsed tokens in the order written.
   */
  lemma NewTokens(a: string, b: string)
    requires '-' !in a && '-' !in b
    ensures Atoi(a).Failure? ==> New(Config(a + "-" + b)) == Failure(StartCodeError(Atoi(a).error))
    ensures Atoi(a).Success? && Atoi(b).Failure? ==> New(Config(a + "-" + b)) == Failure(EndCodeError(Atoi(b).error))
    ensures New(Config(a + "-" + b)).Success? <==> Atoi(a).Success? && Atoi(b).Success?
    ensures New(Config(a + "-" + b)).Success? ==>
              New(Config(a + "-" + b)).value == Handler(Atoi(a).value, Atoi(b).value)
  {
    SplitPair(a, b, '-');
  }

  /** Round trip: printing two int64 bounds as "start-end" and parsing them gives back those bounds. */
  lemma NewItoa(start: nat, end: nat)
    requires start <= MaxInt64 && end <= MaxInt64
    ensures New(Config(Itoa(start) + "-" + Itoa(end))) == Success(Handler(start, end))
  {
    ItoaAtoi(start);
    ItoaAtoi(end);
    NewTokens(Itoa(start), Itoa(end));
  }

  /** A successful non-empty configuration is exactly the printed form of some pair of tokens. */
  lemma NewSplitsOnce(config: Config)
    requires config.statusCode != [] && New(config).Success?
    ensures var codes := Split(config.statusCode, '-');
            |codes| == 2 && config.statusCode == codes[0] + "-" + codes[1] &&
            New(config).value == Handler(Atoi(codes[0]).value, Atoi(codes[1]).value)
  {
    JoinSplit(config.statusCode, '-');
  }

  // ---------------------------------------------------------------------
  // The writers
  // ---------------------------------------------------------------------

  /** The real response writer, as far as dropping is concerned: can it give up its connection, and what then happens. */
  datatype Writer =
    | Plain                                       // not an http.Hijacker
    | Hijackable(hijackOk: bool, closeOk: bool)   // Hijack and then conn.Close succeed or fail

  /** One call the next handler makes on the writer it is given. */
  datatype Event = WriteHeader(code: int) | Write(p: seq<byte>)

  /** One call that reaches the real writer or its raw connection. */
  datatype Action = SendHeader(code: int) | SendBody(data: seq<byte>) | Hijack | Close

  /** The capture sink: records the status and buffers the body; nothing is passed to the real writer. */
  class ResponseWriter {
    var buffer: seq<byte>
    var statusCode: int
    const responseWriter: Writer

    constructor (rw: Writer)
      ensures buffer == [] && statusCode == 0 && responseWriter == rw
    {
      buffer := [];
      statusCode := 0;
      responseWriter := rw;
    }

    /** The last status written wins; the body is untouched. */
    method WriteHeader(code: int)
      modifies this
      ensures statusCode == code && buffer == old(buffer)
    {
      statusCode := code;
    }

    /** Appends `p` to the buffer and reports all of it written, with no error. */
    method Write(p: seq<byte>) returns (n: int, err: Option<string>)
      modifies this
      ensures buffer == old(buffer) + p && statusCode == old(statusCode)
      ensures n == |p| && err == None
    {
      buffer := buffer + p;
      n, err := |p|, None;
    }
  }

  // ---------------------------------------------------------------------
  // What the next handler leaves in the capture sink
  // ---------------------------------------------------------------------

  /** The status recorded by the last WriteHeader, or 0 when there was none. */
  function RecordedStatus(events: seq<Event>): int
    decreases |events|
  {
    if events == [] then 0
    else match events[|events| - 1]
      case WriteHeader(code) => code
      case Write(_) => RecordedStatus(events[..|events| - 1])
  }

  /** Every byte written, in the order written. */
  function Captured(events: seq<Event>): seq<byte>
    decreases |events|
  {
    if events == [] then []
    else Captured(events[..|events| - 1]) +
         match events[|events| - 1]
         case WriteHeader(_) => []
         case Write(p) => p
  }

  /** The status the decision uses: an unset (zero) status counts as 200. */
  function EffectiveStatus(events: seq<Event>): int
  {
    var code := RecordedStatus(events);
    if code == 0 then StatusOK else code
  }

  /** The last WriteHeader wins, whatever is written after it. */
  lemma {:induction false} LastWriteHeaderWins(events: seq<Event>, i: nat)
    requires i < |events| && events[i].WriteHeader?
    requires forall j :: i < j < |events| ==> events[j].Write?
    ensures RecordedStatus(events) == events[i].code
    decreases |events|
  {
    if i < |events| - 1 {
      LastWriteHeaderWins(events[..|events| - 1], i);
    }
  }

  /** A next handler that never calls WriteHeader is taken to have answered 200. */
  lemma {:induction false} NoWriteHeaderMeansOK(events: seq<Event>)
    requires forall j :: 0 <= j < |events| ==> events[j].Write?
    ensures RecordedStatus(events) == 0 && EffectiveStatus(events) == StatusOK
    decreases |events|
  {
    if events != [] {
      NoWriteHeaderMeansOK(events[..|events| - 1]);
    }
  }

  /** The buffer is the concatenation of the writes: writes split into two runs buffer the two parts in order. */
  lemma {:induction false} CapturedAppend(a: seq<Event>, b: seq<Event>)
    ensures Captured(a + b) == Captured(a) + Captured(b)
    decreases |b|
  {
    if b == [] {
      assert a + b == a;
    } else {
      var init := b[..|b| - 1];
      assert (a + b)[..|a + b| - 1] == a + init;
      CapturedAppend(a, init);
    }
  }

  /** Plays the next handler's calls against the capture sink. */
  method RunNext(w: ResponseWriter, next: seq<Event>)
    requires w.statusCode == 0 && w.buffer == []
    modifies w
    ensures w.statusCode == RecordedStatus(next) && w.buffer == Captured(next)
  {
    var i := 0;
    while i < |next|
      invariant i <= |next|
      invariant w.statusCode == RecordedStatus(next[..i])
      invariant w.buffer == Captured(next[..i])
    {
      assert next[..i + 1][..i] == next[..i];
      match next[i] {
        case WriteHeader(code) =>
          w.WriteHeader(code);
        case Write(p) =>
          var _, _ := w.Write(p);
      }
      i := i + 1;
    }
    assert next[..i] == next;
  }

  // ---------------------------------------------------------------------
  // The decision
  // ---------------------------------------------------------------------

  /** The gate is on only when both bounds are non-zero; "0-599" parses but leaves it off. */
  predicate Enabled(h: Handler)
  {
    h.statusCodeStart != 0 && h.statusCodeEnd != 0
  }

  /** Statuses inside the inclusive range are dropped. */
  predicate InRange(h: Handler, status: int)
  {
    h.statusCodeStart <= status <= h.statusCodeEnd
  }

  /** The buffered response is replayed only when the gate is on and the status lies outside the range. */
  predicate Replays(h: Handler, status: int)
  {
    Enabled(h) && !InRange(h, status)
  }

  /** Why `resetConn` could not close the connection. */
  datatype ResetError = NotHijacker | HijackFailed | CloseFailed

  /** `resetConn`: hijack the connection and close it, reporting the first step that fails. */
  method ResetConn(w: Writer) returns (actions: seq<Action>, err: Option<ResetError>)
    ensures err == None <==> w == Hijackable(true, true)
    ensures err == Some(NotHijacker) <==> w.Plain?
    ensures err == Some(HijackFailed) <==> w.Hijackable? && !w.hijackOk
    ensures err == Some(CloseFailed) <==> w.Hijackable? && w.hijackOk && !w.closeOk
    ensures Hijack in actions <==> w.Hijackable?
    ensures Close in actions <==> w.Hijackable? && w.hijackOk
    ensures forall i :: 0 <= i < |actions| ==> actions[i] == Hijack || actions[i] == Close
    ensures forall i :: 0 <= i < |actions| && actions[i] == Close ==> 0 < i && actions[i - 1] == Hijack
    ensures actions + (if err.Some? then [SendHeader(StatusInternalServerError)] else []) == DropTrace(w)
  {
    actions := [];
    if w.Hijackable? {
      actions := actions + [Hijack];
      if !w.hijackOk {
        return actions, Some(HijackFailed);
      }
      actions := actions + [Close];
      if !w.closeOk {
        return actions, Some(CloseFailed);
      }
    } else {
      return actions, Some(NotHijacker);
    }
    return actions, None;
  }

  /** Everything that reaches the real writer on the drop path: the reset, then a 500 if it failed. */
  function DropTrace(w: Writer): seq<Action>
  {
    match w
    case Plain => [SendHeader(StatusInternalServerError)]
    case Hijackable(false, _) => [Hijack, SendHeader(StatusInternalServerError)]
    case Hijackable(true, false) => [Hijack, Close, SendHeader(StatusInternalServerError)]
    case Hijackable(true, true) => [Hijack, Close]
  }

  /** Everything that reaches the real writer for one request. */
  function Served(h: Handler, rw: Writer, next: seq<Event>): seq<Action>
  {
    var status := EffectiveStatus(next);
    if Replays(h, status) then [SendHeader(status), SendBody(Captured(next))]
    else DropTrace(rw)
  }

  /** `ServeHTTP`: run the next handler into a fresh capture sink, then replay or drop. */
  method ServeHTTP(h: Handler, rw: Writer, next: seq<Event>) returns (actions: seq<Action>)
    ensures actions == Served(h, rw, next)
  {
    actions := [];
    if h.statusCodeStart != 0 && h.statusCodeEnd != 0 {
      var wrappedWriter := new ResponseWriter(rw);
      RunNext(wrappedWriter, next);
      var statusCode := wrappedWriter.statusCode;
      if statusCode == 0 {
        statusCode := StatusOK;
      }
      var bodyBytes := wrappedWriter.buffer;
      if statusCode < h.statusCodeStart || h.statusCodeEnd < statusCode {
        actions := actions + [SendHeader(statusCode)];
        actions := actions + [SendBody(bodyBytes)];
        return;
      }
    }
    var resetActions, err := ResetConn(rw);
    actions := actions + resetActions;
    if err.Some? {
      actions := actions + [SendHeader(StatusInternalServerError)];
    }
  }

  // ---------------------------------------------------------------------
  // Properties of one request
  // ---------------------------------------------------------------------

  /**
   * How a request ended, read off the calls that reached the real writer. A
   * trailing 500 after a successful hijack is recorded as an error response
   * although net/http does not deliver it on a hijacked connection.
   */
  datatype Outcome = Replayed(status: int, body: seq<byte>) | Terminated | ErrorResponse(status: int)

  predicate NoBody(actions: seq<Action>)
  {
    forall i :: 0 <= i < |actions| ==> !actions[i].SendBody?
  }

  function Observe(actions: seq<Action>): Option<Outcome>
  {
    if |actions| == 2 && actions[0].SendHeader? && actions[1].SendBody? then
      Some(Replayed(actions[0].code, actions[1].data))
    else if actions == [Hijack, Close] then Some(Terminated)
    else if actions != [] && actions[|actions| - 1].SendHeader? && NoBody(actions) then
      Some(ErrorResponse(actions[|actions| - 1].code))
    else None
  }

  /**
   * The calls of every request read as one of the three outcomes, and which
   * one is decided by the gate and the writer: the captured status and body
   * replayed, the connection closed, or a trailing 500.
   */
  lemma OutcomeCharacterised(h: Handler, rw: Writer, next: seq<Event>)
    ensures Observe(Served(h, rw, next)).Some?
    ensures (Observe(Served(h, rw, next)) == Some(Replayed(EffectiveStatus(next), Captured(next))))
            <==> Replays(h, EffectiveStatus(next))
    ensures (Observe(Served(h, rw, next)) == Some(Terminated))
            <==> !Replays(h, EffectiveStatus(next)) && rw == Hijackable(true, true)
    ensures (Observe(Served(h, rw, next)) == Some(ErrorResponse(StatusInternalServerError)))
            <==> !Replays(h, EffectiveStatus(next)) && rw != Hijackable(true, true)
  {
  }

  /** Replaying and dropping exclude each other: the body is never sent on a connection that was hijacked. */
  lemma ReplayOrDrop(h: Handler, rw: Writer, next: seq<Event>)
    ensures var actions := Served(h, rw, next);
            !(Hijack in actions && !NoBody(actions))
    ensures var actions := Served(h, rw, next);
            NoBody(actions) <==> !Replays(h, EffectiveStatus(next))
  {
    var actions := Served(h, rw, next);
    if Replays(h, EffectiveStatus(next)) {
      assert actions[1].SendBody?;
    }
  }

  /** With the gate off, the next handler's behaviour does not matter and no body is ever sent. */
  lemma DisabledAlwaysDrops(h: Handler, rw: Writer, next1: seq<Event>, next2: seq<Event>)
    requires !Enabled(h)
    ensures Served(h, rw, next1) == Served(h, rw, next2)
    ensures NoBody(Served(h, rw, next1))
  {
  }
}
