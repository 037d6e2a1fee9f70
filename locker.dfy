/**
 * The remote locker (remoteLocker.go): a process-wide record of the
 * evidence path being processed, guarded by a mutex, that announces every
 * acquisition and release to a remote lock service with `sendEvent`.
 *
 * The mutex is the ghost flag `held`: acquiring it when it is held would
 * block, so `Lock` requires it free, and `Unlock` requires it held. What
 * the lock service answers to each post is a parameter of the call; the
 * ghost sequence `sent` records every event handed to `sendEvent`, with the
 * URL it went to.
 */
module Locker {
  import opened Wrappers
  import opened Events

  /** One call of `sendEvent`: where it posted, and what. */
  datatype Delivery = Delivery(url: string, ev: Event)

  /** The answer of the readiness handler: a status code and a body. */
  datatype Probe = Probe(status: int, body: string)

  const StatusServiceUnavailable: int := 503

  const LockType: string := "LOCK"
  const UnlockType: string := "UNLOCK"

  /**
   * The event `Lock` and `Unlock` send: its type (`LOCK` or `UNLOCK`) and
   * the evidence path, with no progress text.
   */
  function Announcement(eventType: string, evidencePath: string): (ev: Event)
    ensures ev.eventType == eventType && ev.payload.evidencePath == evidencePath && ev.payload.progress == ""
  {
    Event(eventType, EventPayload(evidencePath, ""))
  }

  /**
   * What the lock service reads from an announcement: the envelope decodes
   * to the same type and evidence path, and its payload has no `progress`
   * member at all, since an empty one is omitted.
   */
  lemma AnnouncementReadsBack(eventType: string, evidencePath: string)
    ensures EventFromJson(EventToJson(Announcement(eventType, evidencePath)))
      == Some(Event(eventType, EventPayload(evidencePath, "")))
    ensures Lookup(PayloadToJson(Announcement(eventType, evidencePath).payload).members, "progress") == None
  {
    EnvelopeRoundTrip(Announcement(eventType, evidencePath));
  }

  class RemoteLocker {
    ghost var held: bool
    var url: string
    var evidencePath: string
    ghost var sent: seq<Delivery>

    /** `remoteLocker{URL: url}`: the mutex free, no evidence path. */
    constructor (url: string)
      ensures this.url == url && evidencePath == "" && !held && sent == []
    {
      this.url := url;
      evidencePath := "";
      held := false;
      sent := [];
    }

    /**
     * The readiness handler: 503 "not ready" while an evidence path is
     * recorded, 200 "ok" otherwise. It reads the field only, not the mutex.
     */
    function Readiness(): (r: Probe)
      reads this
      ensures r.status == StatusOK <==> evidencePath == ""
      ensures r.status == StatusOK || r.status == StatusServiceUnavailable
    {
      if evidencePath != "" then Probe(StatusServiceUnavailable, "not ready\n") else Probe(StatusOK, "ok")
    }

    /**
     * `Lock(p)`: take the mutex, record `p`, send one LOCK event for `p` to
     * the lock service. If the send fails, the record is cleared again and the
     * send's error returned; the mutex stays taken either way.
     */
    method Lock(p: string, outcome: PostOutcome) returns (err: Option<SendError>)
      requires !held
      modifies this
      ensures held
      ensures url == old(url)
      ensures sent == old(sent) + [Delivery(url, Announcement(LockType, p))]
      ensures err == SendEvent(url, Announcement(LockType, p), outcome)
      ensures evidencePath == if err.None? then p else ""
    {
      held := true;
      evidencePath := p;
      var body := Announcement(LockType, evidencePath);
      err := SendEvent(url, body, outcome);
      sent := sent + [Delivery(url, body)];
      if err.Some? {
        evidencePath := "";
      }
    }

    /**
     * `Unlock()`: send one UNLOCK event for the recorded path and return the
     * send's error; whatever it was, the record is then cleared and the
     * mutex released (the deferred cleanup).
     */
    method Unlock(outcome: PostOutcome) returns (err: Option<SendError>)
      requires held
      modifies this
      ensures !held && evidencePath == ""
      ensures url == old(url)
      ensures sent == old(sent) + [Delivery(url, Announcement(UnlockType, old(evidencePath)))]
      ensures err == SendEvent(url, Announcement(UnlockType, old(evidencePath)), outcome)
    {
      var body := Announcement(UnlockType, evidencePath);
      err := SendEvent(url, body, outcome);
      sent := sent + [Delivery(url, body)];
      evidencePath := "";
      held := false;
    }
  }

  /**
   * One job's lock cycle on a free locker: a successful `Lock(p)` makes the
   * worker report "not ready" (for a non-empty `p`); the `Unlock` that ends
   * the job makes it ready again and frees the mutex, whatever the lock
   * service answers, after exactly a LOCK and an UNLOCK for `p`.
   */
  method LockCycle(l: RemoteLocker, p: string, unlockOutcome: PostOutcome)
    returns (lockErr: Option<SendError>, during: Probe, unlockErr: Option<SendError>)
    requires !l.held
    modifies l
    ensures lockErr == None
    ensures during.status == StatusOK <==> p == ""
    ensures !l.held && l.evidencePath == "" && l.Readiness().status == StatusOK
    ensures l.url == old(l.url)
    ensures l.sent == old(l.sent) + [Delivery(l.url, Announcement(LockType, p)), Delivery(l.url, Announcement(UnlockType, p))]
    ensures unlockErr == SendEvent(l.url, Announcement(UnlockType, p), unlockOutcome)
  {
    lockErr := l.Lock(p, Response(StatusOK));
    during := l.Readiness();
    unlockErr := l.Unlock(unlockOutcome);
  }

  /**
   * A failed `Lock` reports ready again, yet the mutex is still taken: a
   * second `Lock` cannot proceed until `Unlock` is called.
   */
  method FailedLock(l: RemoteLocker, p: string, reason: string) returns (err: Option<SendError>)
    requires !l.held
    modifies l
    ensures err == Some(PostFailed(reason))
    ensures l.evidencePath == "" && l.Readiness().status == StatusOK
    ensures l.held
    ensures l.sent == old(l.sent) + [Delivery(l.url, Announcement(LockType, p))]
  {
    err := l.Lock(p, TransportError(reason));
  }
}
