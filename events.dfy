/**
 * The event envelope of the job worker (event.go): the `event` and
 * `eventPayload` records, the field layout `json.Marshal` gives them, the
 * status rule of `sendEvent`, and the tee writer `eventWriter` that turns a
 * failed write into a `progress` event.
 *
 * A Go string is a sequence of bytes; here it is a `string` whose every
 * character holds one byte value.
 */
module Events {
  import opened Wrappers

  newtype byte = x: int | 0 <= x < 256

  /** Go's `string(p)`: the same bytes, one character per byte. */
  function BytesToString(p: seq<byte>): (s: string)
    ensures |s| == |p|
    ensures forall k :: 0 <= k < |p| ==> s[k] as int == p[k] as int
  {
    if p == [] then "" else [(p[0] as int) as char] + BytesToString(p[1..])
  }

  datatype EventPayload = EventPayload(evidencePath: string, progress: string)

  datatype Event = Event(eventType: string, payload: EventPayload)

  // ---------------------------------------------------------------------------
  // The JSON envelope, as a value tree: `{"type": ..., "payload": {...}}`.
  // ---------------------------------------------------------------------------

  datatype Json = JString(str: string) | JObject(members: seq<(string, Json)>)

  /**
   * The value of the first member named `key`, if any. `json.Unmarshal`
   * keeps the last of duplicate keys instead; the objects built here never
   * repeat a key, so the two agree on them.
   */
  function Lookup(members: seq<(string, Json)>, key: string): Option<Json>
  {
    if members == [] then None
    else if members[0].0 == key then Some(members[0].1)
    else Lookup(members[1..], key)
  }

  /**
   * The payload object: `evidencePath` is always written, `progress` carries
   * `omitempty` and is left out when it is the empty string.
   */
  function PayloadToJson(p: EventPayload): (j: Json)
    ensures j.JObject?
    ensures Lookup(j.members, "evidencePath") == Some(JString(p.evidencePath))
    ensures Lookup(j.members, "progress") == if p.progress == "" then None else Some(JString(p.progress))
    ensures forall k :: 0 <= k < |j.members| ==> j.members[k].0 in ["evidencePath", "progress"]
  {
    JObject([("evidencePath", JString(p.evidencePath))]
            + (if p.progress == "" then [] else [("progress", JString(p.progress))]))
  }

  /**
   * Reading a string field back into a Go struct, as `json.Unmarshal` does
   * for objects without duplicate keys: an absent field keeps its zero value
   * "", a value of another kind is an error.
   */
  function StringField(members: seq<(string, Json)>, key: string): Option<string>
  {
    match Lookup(members, key)
    case None => Some("")
    case Some(JString(s)) => Some(s)
    case Some(JObject(_)) => None
  }

  function PayloadFromJson(j: Json): Option<EventPayload>
  {
    match j
    case JString(_) => None
    case JObject(ms) =>
      match (StringField(ms, "evidencePath"), StringField(ms, "progress"))
      case (Some(e), Some(p)) => Some(EventPayload(e, p))
      case _ => None
  }

  function EventFromJson(j: Json): Option<Event>
  {
    match j
    case JString(_) => None
    case JObject(ms) =>
      var payload := match Lookup(ms, "payload")
                     case None => Some(EventPayload("", ""))
                     case Some(pj) => PayloadFromJson(pj);
      match (StringField(ms, "type"), payload)
      case (Some(t), Some(p)) => Some(Event(t, p))
      case _ => None
  }

  /** The envelope of an event, fields in declaration order. */
  function EventToJson(ev: Event): (j: Json)
    ensures j.JObject? && |j.members| == 2
    ensures j.members[0].0 == "type" && j.members[1].0 == "payload"
    ensures Lookup(j.members, "type") == Some(JString(ev.eventType))
  {
    JObject([("type", JString(ev.eventType)), ("payload", PayloadToJson(ev.payload))])
  }

  /** Decoding an envelope gives the event back: leaving out an empty `progress` loses nothing. */
  lemma EnvelopeRoundTrip(ev: Event)
    ensures EventFromJson(EventToJson(ev)) == Some(ev)
  {
    var ms := EventToJson(ev).members;
    assert Lookup(ms, "payload") == Some(PayloadToJson(ev.payload)) by {
      assert ms[1..][0] == ("payload", PayloadToJson(ev.payload));
    }
    var pms := PayloadToJson(ev.payload).members;
    assert StringField(pms, "progress") == Some(ev.payload.progress);
  }

  // ---------------------------------------------------------------------------
  // sendEvent: what the HTTP exchange answered decides the error.
  // ---------------------------------------------------------------------------

  const StatusOK: int := 200

  /** The outcome of `http.Post` for one envelope: no response, or a status code. */
  datatype PostOutcome = TransportError(reason: string) | Response(status: int)

  datatype SendError = PostFailed(reason: string) | StatusNotOk(status: int)

  /**
   * `sendEvent(URL, ev)`: the envelope `EventToJson(ev)` is posted to `url`,
   * and `outcome` is what that post produced. A transport error is returned
   * as is; a response is an error unless its status is exactly 200.
   */
  function SendEvent(url: string, ev: Event, outcome: PostOutcome): (r: Option<SendError>)
    ensures outcome.TransportError? ==> r == Some(PostFailed(outcome.reason))
    ensures outcome.Response? ==> (r.None? <==> outcome.status == StatusOK)
    ensures outcome.Response? && r.Some? ==> r.value == StatusNotOk(outcome.status)
  {
    match outcome
    case TransportError(reason) => Some(PostFailed(reason))
    case Response(status) => if status != StatusOK then Some(StatusNotOk(status)) else None
  }

  /** Any status other than 200, a 2xx one included, fails the send. */
  lemma NoContentIsAnError(url: string, ev: Event)
    ensures SendEvent(url, ev, Response(204)) == Some(StatusNotOk(204))
    ensures SendEvent(url, ev, Response(201)).Some?
  {
  }

  // ---------------------------------------------------------------------------
  // eventWriter: a tee that forwards to an inner writer.
  // ---------------------------------------------------------------------------

  /** An error reported by the inner `io.Writer`. */
  datatype IoError = IoError(reason: string)

  /** What the inner writer's `Write(p)` returned: a count and an error. */
  datatype WriteOutcome = WriteOutcome(n: int, err: Option<IoError>)

  /** The progress event a failed write of `p` that got through `n` bytes enqueues. */
  function FailedWriteEvent(evidencePath: string, p: seq<byte>, n: nat): (ev: Event)
    requires n <= |p|
    ensures ev.eventType == "progress" && ev.payload.evidencePath == evidencePath
    ensures |ev.payload.progress| == n
    ensures forall k :: 0 <= k < n ==> ev.payload.progress[k] as int == p[k] as int
  {
    Event("progress", EventPayload(evidencePath, BytesToString(p[..n])))
  }

  /**
   * The writer. `events` is the sequence of events that `Write` has handed
   * to a goroutine for sending on the `events` channel, in the order of the
   * `Write` calls; when, in which order, and whether those sends complete is
   * not modelled. The inner writer is represented by the outcome it reports.
   */
  class EventWriter {
    const url: string
    const evidencePath: string
    var events: seq<Event>

    constructor (url: string, evidencePath: string)
      ensures this.url == url && this.evidencePath == evidencePath && events == []
    {
      this.url := url;
      this.evidencePath := evidencePath;
      events := [];
    }

    /**
     * `Write(p)`: the inner writer's count and error come back unchanged;
     * only when that write failed is one `progress` event with the bytes
     * `p[:n]` that did get written enqueued.
     */
    method Write(p: seq<byte>, inner: WriteOutcome) returns (n: int, err: Option<IoError>)
      requires inner.err.Some? ==> 0 <= inner.n <= |p|
      modifies this`events
      ensures n == inner.n && err == inner.err
      ensures inner.err.None? ==> events == old(events)
      ensures inner.err.Some? ==> events == old(events) + [FailedWriteEvent(evidencePath, p, inner.n)]
    {
      n, err := inner.n, inner.err;
      if err.Some? {
        var ev := FailedWriteEvent(evidencePath, p, n);
        events := events + [ev];
      }
    }
  }
}
