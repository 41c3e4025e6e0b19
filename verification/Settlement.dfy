/** Deciding what a money event may do at billing: which events may settle, under
    which key, with what request, and how billing's answer is read. */
module Settlement {
  import opened CounterStore

  /** When an event says its resource stopped: not at all, unreadably, or at a time. */
  datatype Stop = Missing | Garbled | At(t: int)

  datatype Payload = Payload(org: string, started: Option<int>, stopped: Stop, rate: string)

  /** What an event is, apart from its delivery state.  `payload` is None when it does not parse. */
  datatype Content = Content(eventType: string, reservation: string, payload: Option<Payload>)

  datatype Request = Request(org: string, settlementKey: string, started: int, stopped: int, rate: string)

  const TERMINAL := {"resource.stopped", "resource.deleted"}

  /** The characters that count as white space. */
  predicate Space(ch: char) {
    || ch in {' ', '\t', '\n', '\U{0B}', '\U{0C}', '\r', '\U{85}', '\U{A0}', '\U{1680}'}
    || '\U{2000}' <= ch <= '\U{200A}'
    || ch in {'\U{2028}', '\U{2029}', '\U{202F}', '\U{205F}', '\U{3000}'}
  }

  /** By code point: the White_Space property of the Unicode Standard. */
  lemma SpacesByNumber(ch: char)
    ensures Space(ch) <==>
              var n := ch as int;
              9 <= n <= 13 || n in {32, 133, 160, 5760, 8232, 8233, 8239, 8287, 12288} || 8192 <= n < 8203
  {
  }

  predicate Blank(s: string) {
    forall i :: 0 <= i < |s| ==> Space(s[i])
  }

  /** What is decided before billing is called. */
  datatype Course = NotApplicable | Unsettleable(detail: string) | Ask(req: Request)

  function Plan(c: Content, firstTs: int, settler: bool, now: int): Course {
    if !settler || c.eventType !in TERMINAL then NotApplicable
    else if c.payload.None? then Unsettleable("event_unparseable")
    else if Blank(c.reservation) then Unsettleable("no_settlement_key")
    else
      var p := c.payload.value;
      if p.org == "" then Unsettleable("no org_id")
      else if p.started.None? then Unsettleable("no parseable started_at")
      else
        var stop := if p.stopped.At? then p.stopped.t else if p.stopped.Missing? && firstTs > 0 then firstTs else now;
        if stop < p.started.value then Unsettleable("lifetime runs backwards")
        else Ask(Request(p.org, c.reservation, p.started.value, stop, p.rate))
  }

  /** The event may be put to billing at all: terminal, readable, and naming what billing needs. */
  predicate CanAsk(c: Content) {
    && c.eventType in TERMINAL && c.payload.Some? && !Blank(c.reservation)
    && c.payload.value.org != "" && c.payload.value.started.Some?
  }

  /** It also says when the resource stopped, and not before it started. */
  predicate AlwaysAsks(c: Content) {
    CanAsk(c) && c.payload.value.stopped.At? && c.payload.value.stopped.t >= c.payload.value.started.value
  }

  /** An event is asked about only if it can be; it is asked about whenever it comes up
      exactly when its own lifetime is in order. */
  lemma AlwaysAsksIff(c: Content)
    ensures forall f, settler, n :: Plan(c, f, settler, n).Ask? ==> settler && CanAsk(c)
    ensures (forall f, n :: Plan(c, f, true, n).Ask?) <==> AlwaysAsks(c)
  {
    if !CanAsk(c) {
      assert !Plan(c, 0, true, 0).Ask?;
    } else if !AlwaysAsks(c) {
      assert !Plan(c, 0, true, c.payload.value.started.value - 1).Ask?;
    }
  }

  // ----- billing's answers -----

  /** 200, an HTTP error with whether its body names a missing billing account, or silence. */
  datatype Answer = Ok | Http(status: int, noAccount: bool) | NoResponse

  datatype Verdict = Settled | Retry | Permanent

  /** Only a 400, a 422 and billing's own missing-account 404 are final; an opaque 409 and
      anything unrecognised are retried. */
  function Classify(a: Answer): Verdict {
    match a
    case Ok => Settled
    case NoResponse => Retry
    case Http(status, noAccount) =>
      if status == 409 then Retry
      else if status == 404 then (if noAccount then Permanent else Retry)
      else if status == 400 || status == 422 then Permanent
      else Retry
  }

  /** Which events are put to billing, and for what.  A terminal event that parses, carries a
      reservation id with some visible character, an org and a start is asked about, under
      that id and with that org, start and rate, for a lifetime that ends at the event's own
      stop time if it is readable, else when the event entered the outbox if the stop is
      missing, else now; unless that lifetime runs backwards. */
  lemma PlanMeans(c: Content, firstTs: int, settler: bool, now: int)
    ensures var course := Plan(c, firstTs, settler, now);
            var terminal := c.eventType == "resource.stopped" || c.eventType == "resource.deleted";
            && (course.NotApplicable? <==> !settler || !terminal)
            && (course.Ask? <==>
                  && settler && terminal && c.payload.Some?
                  && (exists i :: 0 <= i < |c.reservation| && !Space(c.reservation[i]))
                  && c.payload.value.org != "" && c.payload.value.started.Some?
                  && c.payload.value.started.value <= StopFor(c.payload.value, firstTs, now))
            && (course.Ask? ==>
                  var p := c.payload.value;
                  && course.req.org == p.org && course.req.settlementKey == c.reservation && course.req.rate == p.rate
                  && Some(course.req.started) == p.started && course.req.stopped == StopFor(p, firstTs, now))
  {
  }

  /** Why a terminal event is not put to billing: the first of these that applies, by the
      leading words of its detail. */
  lemma PlanRefuses(c: Content, firstTs: int, now: int)
    requires c.eventType == "resource.stopped" || c.eventType == "resource.deleted"
    ensures var course := Plan(c, firstTs, true, now);
            && (c.payload.None? ==> course == Unsettleable("event_unparseable"))
            && (c.payload.Some? && Blank(c.reservation) ==> course == Unsettleable("no_settlement_key"))
            && (c.payload.Some? && !Blank(c.reservation) ==>
                  var p := c.payload.value;
                  && (p.org == "" ==> course == Unsettleable("no org_id"))
                  && (p.org != "" && p.started.None? ==> course == Unsettleable("no parseable started_at"))
                  && (p.org != "" && p.started.Some? && !course.Ask? ==>
                        course == Unsettleable("lifetime runs backwards")))
  {
  }

  /** The end of the lifetime: the stated stop; the entry into the outbox; or now. */
  function StopFor(p: Payload, firstTs: int, now: int): (stop: int)
    ensures p.stopped.At? ==> stop == p.stopped.t
    ensures p.stopped.Missing? && firstTs > 0 ==> stop == firstTs
    ensures p.stopped.Garbled? || (p.stopped.Missing? && firstTs <= 0) ==> stop == now
  {
    match p.stopped
    case At(t) => t
    case Missing => if firstTs > 0 then firstTs else now
    case Garbled => now
  }

  /** A settlement is only ever asked for a terminal event, under its own non-blank
      reservation id, for a lifetime that does not run backwards; and the request of an
      event that says when it stopped does not depend on when it is asked. */
  lemma AskIsSound(c: Content, firstTs: int, settler: bool, now: int)
    ensures var p := Plan(c, firstTs, settler, now);
            && (p.Ask? ==> && settler && c.eventType in TERMINAL && !Blank(c.reservation)
                           && p.req.settlementKey == c.reservation && p.req.started <= p.req.stopped)
            && (Stamped(c) ==> forall f, n :: Plan(c, f, settler, n) == p)
  {
  }

  /** The event carries its stop time (or cannot be settled at all). */
  predicate Stamped(c: Content) {
    c.payload.Some? ==> c.payload.value.stopped.At?
  }

  /** Voiding is the answer to a final refusal only: every other answer, in particular a
      409, a credential error, a route 404, a rate limit, a server error and silence, is
      retried, and only a 200 retires the event. */
  lemma OnlyFinalRefusalsVoid(a: Answer)
    ensures Classify(a) == Settled <==> a == Ok
    ensures Classify(a) == Permanent <==> a.Http? && (a.status in {400, 422} || (a.status == 404 && a.noAccount))
    ensures a.Http? && a.status in {401, 403, 408, 409, 429} ==> Classify(a) == Retry
    ensures a.Http? && a.status >= 500 ==> Classify(a) == Retry
  {
  }
}
