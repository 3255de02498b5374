/**
  One failed request from the admin console to the API and back: client,
  middleware, filter, logger, client.
 */
module RequestTrace {
  import opened Wrappers
  import opened CorrelationId

  // ---- the server's objects

  /** A request header as Node delivers it. */
  datatype Header = Absent | One(value: string) | Many(values: seq<string>)

  datatype Detail = Detail(path: string, message: string)

  datatype Envelope = Envelope(
    code: string, message: string, details: Option<seq<Detail>>, correlationId: string, timestamp: string)

  /** The payload of an HttpException: its `code`, `message` and `details` if they have the right type. */
  datatype Payload =
    | Fields(code: Option<string>, message: Option<string>, details: Option<seq<Detail>>)
    | Plain(text: string)
    | Neither

  datatype Exception = Http(status: nat, payload: Payload) | NotHttp(description: string)

  datatype LogLine = LogLine(
    level: Level, message: string, correlationId: Option<string>, context: Option<string>, stack: Option<string>)

  datatype Level = Debug | Info | Warn | Error

  function Rank(level: Level): nat {
    match level
    case Debug => 10
    case Info => 20
    case Warn => 30
    case Error => 40
  }

  const INTERNAL_ERROR := "INTERNAL_ERROR"
  const NOT_FOUND := "NOT_FOUND"
  const DEPENDENCY_UNAVAILABLE := "DEPENDENCY_UNAVAILABLE"
  const VALIDATION_FAILED := "VALIDATION_FAILED"
  const UNEXPECTED := "An unexpected error occurred."
  const UNHANDLED := "unhandled_error"

  /** `supplied`, or its first value. */
  function Candidate(supplied: Header): Option<string> {
    match supplied
    case Absent => None
    case One(value) => Some(value)
    case Many(values) => if values == [] then None else Some(values[0])
  }

  /** The id the middleware assigns; `random` is what `randomUUID` would return. */
  function AssignedId(supplied: Header, random: string): string {
    if Candidate(supplied).Some? && IsValid(Candidate(supplied).value) then Candidate(supplied).value else random
  }

  function StatusOf(e: Exception): nat {
    if e.Http? then e.status else 500
  }

  /** The code of the envelope: the exception's own, or one derived from the status. */
  function CodeOf(e: Exception): string {
    if e.NotHttp? then INTERNAL_ERROR
    else if e.payload.Fields? && e.payload.code.GetOr(INTERNAL_ERROR) != INTERNAL_ERROR then e.payload.code.value
    else if e.status == 404 then NOT_FOUND
    else if e.status == 503 then DEPENDENCY_UNAVAILABLE
    else if e.status < 500 then VALIDATION_FAILED
    else INTERNAL_ERROR
  }

  /** What may be shown of the message: nothing of the exception from 500 on. */
  function MessageOf(e: Exception): string {
    if StatusOf(e) >= 500 then UNEXPECTED
    else match e.payload
      case Fields(_, message, _) => message.GetOr(UNEXPECTED)
      case Plain(text) => text
      case Neither => UNEXPECTED
  }

  function DetailsOf(e: Exception): Option<seq<Detail>> {
    if StatusOf(e) < 500 && e.payload.Fields? then e.payload.details else None
  }

  function EnvelopeOf(e: Exception, id: string, now: string): Envelope {
    Envelope(CodeOf(e), MessageOf(e), DetailsOf(e), id, now)
  }

  /** The field of a line for a value that is written only when truthy. */
  function Truthy(value: Option<string>): Option<string> {
    if value == Some("") then None else value
  }

  /** The id of the envelope: the ambient one, else the request's, else the response header's. */
  function EnvelopeId(store: Option<string>, requestId: Option<string>, header: Option<string>): string {
    store.GetOr(requestId.GetOr(header.GetOr("unknown")))
  }

  /** What is logged of a failure: the full detail, once, from status 500 on. Everything below is the caller's fault. */
  function FailureLog(e: Exception, stack: string, id: Option<string>): seq<LogLine> {
    if StatusOf(e) < 500 then []
    else [LogLine(Error, UNHANDLED, Truthy(id), Some("exception"), Truthy(Some(stack)))]
  }

  /** Request and response of one exchange, with the ambient store of the code that handles it. */
  class Exchange {
    const supplied: Header
    const minLevel: Level
    var store: Option<string>
    var requestId: Option<string>
    var responseHeader: Option<string>
    var status: Option<nat>
    var body: Option<Envelope>
    var log: seq<LogLine>

    constructor (supplied: Header, minLevel: Level)
      ensures this.supplied == supplied && this.minLevel == minLevel
      ensures store == None && requestId == None && responseHeader == None
      ensures status == None && body == None && log == []
    {
      this.supplied := supplied;
      this.minLevel := minLevel;
      store, requestId, responseHeader, status, body, log := None, None, None, None, None, [];
    }

    /** `CorrelationMiddleware.use`, up to the call of `next` inside the new context. */
    method Use(random: string)
      modifies this
      ensures store == requestId == responseHeader == Some(AssignedId(supplied, random))
      ensures supplied.One? && IsValid(supplied.value) ==> requestId == Some(supplied.value)
      ensures supplied.Many? && supplied.values != [] && IsValid(supplied.values[0]) ==>
                requestId == Some(supplied.values[0])
      ensures requestId == Some(random)
              || (supplied.One? && IsValid(supplied.value))
              || (supplied.Many? && supplied.values != [] && IsValid(supplied.values[0]))
      ensures status == old(status) && body == old(body) && log == old(log)
    {
      var candidate := Candidate(supplied);
      var id := if candidate.Some? && IsValid(candidate.value) then candidate.value else random;
      responseHeader := Some(id);
      requestId := Some(id);
      store := Some(id);
    }

    /** `StructuredLogger.emit`: a field is written when its value is truthy. */
    method Emit(level: Level, message: string, context: Option<string>, stack: Option<string>)
      modifies this`log
      ensures if (level.Debug? && !minLevel.Debug?) || (level.Info? && (minLevel.Warn? || minLevel.Error?))
                 || (level.Warn? && minLevel.Error?)
              then log == old(log)
              else log == old(log) + [LogLine(level, message,
                                              if store == Some("") then None else store,
                                              if context == Some("") then None else context,
                                              if stack == Some("") then None else stack)]
    {
      if Rank(level) < Rank(minLevel) { return; }
      var line := LogLine(level, message, None, None, None);
      if store.Some? && store.value != "" { line := line.(correlationId := store); }
      if context.Some? && context.value != "" { line := line.(context := context); }
      if stack.Some? && stack.value != "" { line := line.(stack := stack); }
      log := log + [line];
    }

    /** `AllExceptionsFilter.catch`. */
    method Catch(e: Exception, stack: string, now: string) returns (id: string)
      modifies this
      ensures id == EnvelopeId(store, requestId, responseHeader)
      ensures status == Some(StatusOf(e)) && body == Some(EnvelopeOf(e, id, now))
      ensures store == old(store) && requestId == old(requestId) && responseHeader == old(responseHeader)
      ensures log == old(log) + FailureLog(e, stack, store)
      // The same, case by case.
      ensures id == if store.Some? then store.value else if requestId.Some? then requestId.value
                    else if responseHeader.Some? then responseHeader.value else "unknown"
      ensures status == Some(if e.Http? then e.status else 500)
      ensures body.Some? && body.value.correlationId == id && body.value.timestamp == now
      ensures status.value >= 500 ==>
                && body.value.message == "An unexpected error occurred." && body.value.details == None
                && log == old(log) + [LogLine(Error, "unhandled_error", if store == Some("") then None else store,
                                              Some("exception"), if stack == "" then None else Some(stack))]
      ensures status.value < 500 ==>
                && log == old(log)
                && body.value.details == (if e.payload.Fields? then e.payload.details else None)
                && body.value.message ==
                     if e.payload.Plain? then e.payload.text
                     else if e.payload.Fields? && e.payload.message.Some? then e.payload.message.value
                     else "An unexpected error occurred."
      ensures e.Http? && e.payload.Fields? && e.payload.code.Some? && e.payload.code != Some("INTERNAL_ERROR") ==>
                body.value.code == e.payload.code.value
      ensures e.Http? && (!e.payload.Fields? || e.payload.code.None? || e.payload.code == Some("INTERNAL_ERROR")) ==>
                body.value.code == if e.status == 404 then "NOT_FOUND"
                                   else if e.status == 503 then "DEPENDENCY_UNAVAILABLE"
                                   else if e.status < 500 then "VALIDATION_FAILED"
                                   else "INTERNAL_ERROR"
      ensures e.NotHttp? ==> body.value.code == "INTERNAL_ERROR"
    {
      id := store.GetOr(requestId.GetOr(responseHeader.GetOr("unknown")));
      var st := 500;
      var code := INTERNAL_ERROR;
      var message := UNEXPECTED;
      var details := None;
      if e.Http? {
        st := e.status;
        match e.payload {
          case Fields(c, m, d) =>
            if c.Some? { code := c.value; }
            if m.Some? { message := m.value; }
            if d.Some? { details := d; }
          case Plain(text) => message := text;
          case Neither =>
        }
        if code == INTERNAL_ERROR {
          if st == 404 { code := NOT_FOUND; }
          else if st == 503 { code := DEPENDENCY_UNAVAILABLE; }
          else if st < 500 { code := VALIDATION_FAILED; }
        }
      }
      if st >= 500 {
        Emit(Error, UNHANDLED, Some("exception"), Some(stack));
        message := UNEXPECTED;
        details := None;
      }
      body := Some(Envelope(code, message, details, id, now));
      status := Some(st);
    }
  }

  /** The code an exception brings along; `INTERNAL_ERROR` counts as none. */
  function OwnCode(e: Exception): Option<string> {
    if e.Http? && e.payload.Fields? && e.payload.code != Some(INTERNAL_ERROR) then e.payload.code else None
  }

  /**
    Message, details and stack do not ship from status 500 on, but the code
    does: two failures with one status give the same envelope exactly if their
    exceptions bring along the same code, or one of them the code that stands
    for none. An exception that is no HttpException looks like one without a code.
   */
  lemma ServerErrorsDifferByCodeOnly(e: Exception, f: Exception, id: string, now: string)
    requires StatusOf(e) == StatusOf(f) >= 500
    ensures var none := if StatusOf(e) == 503 then DEPENDENCY_UNAVAILABLE else INTERNAL_ERROR;
            EnvelopeOf(e, id, now) == EnvelopeOf(f, id, now) <==> OwnCode(e).GetOr(none) == OwnCode(f).GetOr(none)
  {
  }

  /** For one: a code of the database layer ships with status 500, and tells its failure from one without a code. */
  lemma CodeShipsWithServerErrors(id: string, now: string)
    ensures var e := Http(500, Fields(Some("DB_TIMEOUT"), Some("statement timeout"), None));
            && EnvelopeOf(e, id, now).code == "DB_TIMEOUT" && EnvelopeOf(e, id, now).message == UNEXPECTED
            && EnvelopeOf(e, id, now) != EnvelopeOf(Http(500, Neither), id, now)
  {
    ServerErrorsDifferByCodeOnly(
      Http(500, Fields(Some("DB_TIMEOUT"), Some("statement timeout"), None)), Http(500, Neither), id, now);
    assert "DB_TIMEOUT"[0] != INTERNAL_ERROR[0];
  }

  // ---- the client

  /** What `JSON.parse` makes of the response text; `error` is absent when the body is not the envelope. */
  datatype Body = Json(error: Option<Envelope>) | Unparseable

  datatype Reply = Reply(status: nat, header: Option<string>, body: Body)

  datatype ApiError = ApiError(status: nat, code: string, message: string, correlationId: string)

  predicate Succeeded(status: nat) {
    200 <= status < 300
  }

  /** `newCorrelationId`; an absent or empty answer of Web Crypto falls back to the clock. */
  function NewId(crypto: Option<string>, clock: nat): string {
    if crypto.Some? && crypto.value != "" then crypto.value else FallbackId(clock)
  }

  /** The message for a reply that is not the envelope; `Digits` prints the status. */
  function StatusMessage(status: nat): string {
    "Request failed with status " + Digits(status)
  }

  function Digits(n: nat): string {
    if n < 10 then ['0' + n as char] else Digits(n / 10) + ['0' + (n % 10) as char]
  }

  /** What a decimal numeral denotes, read from its last digit. */
  function Denoted(digits: string): int {
    if digits == "" then 0 else 10 * Denoted(digits[..|digits| - 1]) + (digits[|digits| - 1] as int - '0' as int)
  }

  /** The digits denote the number, and there is no leading zero. */
  lemma {:induction false} DigitsDenote(n: nat)
    ensures Digits(n) != "" && Denoted(Digits(n)) == n
    ensures forall c :: c in Digits(n) ==> '0' <= c <= '9'
    ensures Digits(n)[0] == '0' <==> n == 0
  {
    if n >= 10 {
      DigitsDenote(n / 10);
      assert Digits(n)[..|Digits(n)| - 1] == Digits(n / 10);
      assert Digits(n)[0] == Digits(n / 10)[0];
    } else {
      assert Digits(n)[..0] == "";
    }
  }

  /** The failing half of `request`: what it throws for a reply, having sent `sent`. */
  method Receive(reply: Reply, sent: string) returns (thrown: Option<ApiError>)
    ensures thrown.None? <==> 200 <= reply.status < 300
    ensures thrown.Some? ==>
              && thrown.value.status == reply.status
              && thrown.value.correlationId == (if reply.header.Some? then reply.header.value else sent)
              && (reply.body.Json? && reply.body.error.Some? ==>
                    thrown.value.code == reply.body.error.value.code
                    && thrown.value.message == reply.body.error.value.message)
              && (!(reply.body.Json? && reply.body.error.Some?) ==>
                    && thrown.value.code == "UNKNOWN"
                    && thrown.value.message == "Request failed with status " + Digits(reply.status))
  {
    if Succeeded(reply.status) { return None; }
    var code := "UNKNOWN";
    var message := StatusMessage(reply.status);
    if reply.body.Json? && reply.body.error.Some? {
      code := reply.body.error.value.code;
      message := reply.body.error.value.message;
    }
    return Some(ApiError(reply.status, code, message, reply.header.GetOr(sent)));
  }

  /** The id of Web Crypto if there is one, else a UUID whose last digits tell the clock. */
  lemma NewIdIsCryptosOrUuid(crypto: Option<string>, clock: nat)
    ensures var id := NewId(crypto, clock);
            if crypto.Some? && crypto.value != "" then id == crypto.value
            else IsValid(id) && LowerHex(id[24..]) && ValueOf(id[24..]) == clock % Power16(12)
  {
    FallbackIdIsUuid(clock);
  }

  // ---- end to end

  /** What happens to the reply on the way: whether the script may read the header, and whether the body survives. */
  datatype Way = Way(headerReadable: bool, bodyIntact: bool)

  /**
    A failed request, end to end. `contextLost` says that the async context was
    gone when the filter ran.
   */
  method FailedRequest(crypto: Option<string>, clock: nat, random: string, e: Exception, stack: string, now: string,
                       contextLost: bool, way: Way)
    returns (sent: string, server: Exchange, thrown: Option<ApiError>)
    requires IsValid(random) && !Succeeded(StatusOf(e))
    ensures sent == NewId(crypto, clock)
    ensures if crypto.Some? && crypto.value != "" then sent == crypto.value else IsValid(sent)
    ensures thrown.Some? && server.body.Some? && server.status == Some(thrown.value.status)
    ensures thrown.value.status == if e.Http? then e.status else 500
    // What the server did is consistent, whatever was sent.
    ensures server.responseHeader == server.requestId == Some(AssignedId(One(sent), random))
    ensures server.body.value == EnvelopeOf(e, AssignedId(One(sent), random), now)
    // The one line logged from 500 on carries the id, unless the context was lost: then it carries none.
    ensures server.log == if thrown.value.status < 500 then []
                          else [LogLine(Error, "unhandled_error",
                                        if contextLost then None else server.requestId, Some("exception"),
                                        if stack == "" then None else Some(stack))]
    // The error shown is traceable exactly if the id sent was a UUID or the header can be read.
    ensures thrown.value.correlationId == server.body.value.correlationId <==> IsValid(sent) || way.headerReadable
    ensures IsValid(sent) ==> thrown.value.correlationId == sent
    // An intact envelope comes back as it was written.
    ensures way.bodyIntact ==> thrown.value.code == CodeOf(e) && thrown.value.message == MessageOf(e)
  {
    sent := NewId(crypto, clock);
    NewIdIsCryptosOrUuid(crypto, clock);
    server := new Exchange(One(sent), Info);
    server.Use(random);
    if contextLost {
      server.store := None;
    }
    assert IsValid(AssignedId(One(sent), random));
    var id := server.Catch(e, stack, now);
    var header := if way.headerReadable then server.responseHeader else None;
    var body := if way.bodyIntact then Json(server.body) else Unparseable;
    thrown := Receive(Reply(server.status.value, header, body), sent);
  }

  /** Without Web Crypto too: the fallback id is a UUID, so the middleware keeps it. */
  lemma FallbackIdIsKept(clock: nat, random: string)
    ensures AssignedId(One(NewId(None, clock)), random) == NewId(None, clock)
  {
    FallbackIdIsUuid(clock);
  }

  /** An id that is not a UUID is never kept: the server's is one in every case. */
  lemma AssignedIdIsUuid(supplied: Header, random: string)
    requires IsValid(random)
    ensures IsValid(AssignedId(supplied, random))
  {
  }
}
