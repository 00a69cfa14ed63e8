/** The idempotency protocol of one cache key: every Redis command is a step, requests interleave, and
    the stored entry may expire at any moment. The hash of a request body is modelled as the body. */
module Idempotency {
  import opened IdempotencyBodies
  import opened Options
  import opened Selection

  /** The text form of a stored body. */
  datatype Codec = Codec(decode: Bytes -> string, encode: string -> Bytes)

  datatype Entry =
    | InFlight(fingerprint: Bytes)
    | Unreplayable(fingerprint: Bytes)
    | Cached(fingerprint: Bytes, status: int, headers: seq<Header>, text: string)

  /** An execution of the handler: what it was for, what it sent, whether it then raised. */
  datatype Execution = Execution(fingerprint: Bytes, messages: seq<Outgoing>, raised: bool)

  datatype Answer =
    | InFlightConflict | AlreadyCompleted | BodyConflict   // the three 409 answers
    | Replay(entry: Entry)
    | FromHandler(execution: Execution)

  datatype Phase =
    | Arrived | Missed | Contended       // before the first get; before set-if-absent; before the second get
    | Executing | Settling(execution: Execution)
    | Answered(answer: Answer)

  datatype Request = Request(fingerprint: Bytes, phase: Phase)

  /** `executions` are those whose handler is done; `starts` counts how often the handler was called. */
  datatype State = State(entry: Option<Entry>, requests: seq<Request>, executions: seq<Execution>, starts: nat)

  // ----- Headers -----

  function LowerChar(c: char): char {
    if 'A' <= c <= 'Z' then (c as int + 32) as char else c
  }

  function Lower(s: string): (r: string)
    ensures |r| == |s|
  {
    if s == [] then [] else [LowerChar(s[0])] + Lower(s[1..])
  }

  predicate Sensitive(h: Header) {
    Lower(h.name) == "content-length" || Lower(h.name) == "set-cookie"
  }

  function WithoutSensitive(headers: seq<Header>): (r: seq<Header>)
    ensures forall h :: h in r <==> h in headers && Lower(h.name) != "content-length" && Lower(h.name) != "set-cookie"
  {
    if headers == [] then []
    else if Sensitive(headers[0]) then WithoutSensitive(headers[1..])
    else [headers[0]] + WithoutSensitive(headers[1..])
  }

  predicate Harmless(h: Header) {
    Lower(h.name) != "content-length" && Lower(h.name) != "set-cookie"
  }

  /** The headers that are kept keep their order. */
  lemma {:induction false} HarmlessStay(headers: seq<Header>)
    ensures Leaves(headers, Harmless, WithoutSensitive(headers))
  {
    if headers == [] {
      NothingLeft(Harmless);
    } else {
      HarmlessStay(headers[1..]);
      FirstLeft(headers[0], headers[1..], Harmless, WithoutSensitive(headers[1..]));
      assert headers == [headers[0]] + headers[1..];
      hide Leaves, Lower;
    }
  }

  /** Names are compared without regard to the case of their ASCII letters. */
  lemma {:induction false} LowerMeans(s: string)
    ensures forall i :: 0 <= i < |s| ==>
              if 'A' <= s[i] <= 'Z' then Lower(s)[i] as int == s[i] as int + 32 else Lower(s)[i] == s[i]
  {
    if s != [] {
      LowerMeans(s[1..]);
    }
  }

  // ----- Steps -----

  /** `oneTime`: the route's responses must not be stored, which the key's method and path decide. */
  datatype Route = Route(oneTime: bool, codec: Codec)

  datatype Event =
    | Arrive(fingerprint: Bytes)
    | Look(who: nat)                                        // the first get
    | Claim(who: nat)                                       // set-if-absent
    | LookAgain(who: nat)                                   // the second get
    | Finish(who: nat, messages: seq<Outgoing>, raised: bool) // the handler returns or raises
    | Settle(who: nat)                                      // store or delete
    | Expire

  function Judge(e: Entry, fingerprint: Bytes): Answer {
    match e
    case InFlight(_) => InFlightConflict
    case Unreplayable(_) => AlreadyCompleted
    case Cached(f, _, _, _) => if f != fingerprint then BodyConflict else Replay(e)
  }

  predicate Success(status: int) {
    200 <= status < 300
  }

  /** What a finished execution leaves under the key; None: the key is deleted. */
  function Outcome(x: Execution, route: Route): Option<Entry> {
    var r := RecordAll(x.messages);
    if x.raised then None
    else if Success(r.status) && r.cacheable && !route.oneTime then
      Some(Cached(x.fingerprint, r.status, WithoutSensitive(r.headers), route.codec.decode(Concat(r.chunks))))
    else if Success(r.status) && route.oneTime then Some(Unreplayable(x.fingerprint))
    else None
  }

  predicate Allowed(s: State, e: Event) {
    match e
    case Arrive(_) => true
    case Look(i) => i < |s.requests| && s.requests[i].phase == Arrived
    case Claim(i) => i < |s.requests| && s.requests[i].phase == Missed
    case LookAgain(i) => i < |s.requests| && s.requests[i].phase == Contended
    case Finish(i, _, _) => i < |s.requests| && s.requests[i].phase == Executing
    case Settle(i) => i < |s.requests| && s.requests[i].phase.Settling?
    case Expire => true
  }

  function Move(s: State, i: nat, p: Phase): State
    requires i < |s.requests|
  {
    s.(requests := s.requests[i := s.requests[i].(phase := p)])
  }

  function Apply(s: State, e: Event, route: Route): State
    requires Allowed(s, e)
  {
    match e
    case Arrive(f) => s.(requests := s.requests + [Request(f, Arrived)])
    case Look(i) => (
      match s.entry
      case None => Move(s, i, Missed)
      case Some(entry) => Move(s, i, Answered(Judge(entry, s.requests[i].fingerprint))))
    case Claim(i) =>
      if s.entry.None? then
        Move(s.(entry := Some(InFlight(s.requests[i].fingerprint)), starts := s.starts + 1), i, Executing)
      else Move(s, i, Contended)
    case LookAgain(i) => (
      match s.entry
      case None => Move(s.(starts := s.starts + 1), i, Executing)
      case Some(entry) => Move(s, i, Answered(Judge(entry, s.requests[i].fingerprint))))
    case Finish(i, messages, raised) =>
      var x := Execution(s.requests[i].fingerprint, messages, raised);
      Move(s.(executions := s.executions + [x]), i, Settling(x))
    case Settle(i) =>
      var x := s.requests[i].phase.execution;
      Move(s.(entry := Outcome(x, route)), i, Answered(FromHandler(x)))
    case Expire => s.(entry := None)
  }

  predicate Feasible(s: State, run: seq<Event>, route: Route)
    decreases |run|
  {
    run == [] || (Allowed(s, run[0]) && Feasible(Apply(s, run[0], route), run[1..], route))
  }

  function After(s: State, run: seq<Event>, route: Route): State
    requires Feasible(s, run, route)
    decreases |run|
  {
    if run == [] then s else After(Apply(s, run[0], route), run[1..], route)
  }

  const EMPTY := State(None, [], [], 0)

  // ----- Replays are genuine -----

  /** Python's `str` of a natural number. */
  function Decimal(n: nat): string {
    if n < 10 then [(48 + n) as char] else Decimal(n / 10) + [(48 + n % 10) as char]
  }

  predicate Digits(s: string) {
    forall i | 0 <= i < |s| :: '0' <= s[i] <= '9'
  }

  function Value(s: string): nat
    requires Digits(s)
  {
    if s == "" then 0 else 10 * Value(s[..|s| - 1]) + (s[|s| - 1] as int - 48)
  }

  /** The digits of a number stand for it, so a client reads the length that was meant. */
  lemma {:induction false} DecimalMeans(n: nat)
    ensures Digits(Decimal(n)) && Value(Decimal(n)) == n
  {
    if n >= 10 {
      DecimalMeans(n / 10);
      var front, last := Decimal(n / 10), (48 + n % 10) as char;
      assert (front + [last])[..|front|] == front;
    } else {
      assert [(48 + n) as char][..0] == "";
    }
  }

  /** What `_send_cached` sends. */
  function ReplayedHeaders(e: Entry, codec: Codec): seq<Header>
    requires e.Cached?
  {
    WithoutSensitive(e.headers)
    + [Header("idempotency-key-replayed", "true"), Header("content-length", Decimal(|ReplayedBody(e, codec)|))]
  }

  function ReplayedBody(e: Entry, codec: Codec): Bytes
    requires e.Cached?
  {
    codec.encode(e.text)
  }

  /** The execution ended in a response that may be stored, and the entry is that response. */
  predicate Produced(x: Execution, e: Entry, route: Route) {
    && e.Cached? && !route.oneTime && !x.raised
    && e.fingerprint == x.fingerprint
    && Success(e.status) && e.status == RecordAll(x.messages).status
    && e.headers == WithoutSensitive(RecordAll(x.messages).headers)
    && |SentBody(x.messages)| <= MAX_CACHED_BODY_BYTES
    && e.text == route.codec.decode(SentBody(x.messages))
  }

  predicate Genuine(s: State, e: Entry, route: Route) {
    e.Cached? ==> exists x <- s.executions :: Produced(x, e, route)
  }

  predicate AllGenuine(s: State, route: Route) {
    && (s.entry.Some? ==> Genuine(s, s.entry.value, route))
    && forall r <- s.requests ::
         && (r.phase.Answered? && r.phase.answer.Replay? ==>
              && r.phase.answer.entry.Cached? && r.phase.answer.entry.fingerprint == r.fingerprint
              && Genuine(s, r.phase.answer.entry, route))
         && (r.phase.Settling? ==> r.phase.execution in s.executions)
  }

  lemma OutcomeIsProduced(x: Execution, route: Route)
    requires Outcome(x, route).Some? && Outcome(x, route).value.Cached?
    ensures Produced(x, Outcome(x, route).value, route)
  {
    RecordingIsWholeOrNothing(x.messages);
    hide RecordAll, SentBody, Concat, WithoutSensitive;
  }

  lemma ApplyKeepsGenuine(s: State, e: Event, route: Route)
    requires Allowed(s, e) && AllGenuine(s, route)
    ensures AllGenuine(Apply(s, e, route), route)
  {
    hide Produced, Outcome;
    var s1 := Apply(s, e, route);
    if e.Settle? {
      var x := s.requests[e.who].phase.execution;
      if Outcome(x, route).Some? && Outcome(x, route).value.Cached? {
        OutcomeIsProduced(x, route);
      }
    }
    assert forall x <- s.executions :: x in s1.executions;
  }

  lemma {:induction false} RunKeepsGenuine(s: State, run: seq<Event>, route: Route)
    requires Feasible(s, run, route) && AllGenuine(s, route)
    ensures AllGenuine(After(s, run, route), route)
    decreases |run|
  {
    hide AllGenuine, Apply, Allowed;
    if run != [] {
      ApplyKeepsGenuine(s, run[0], route);
      RunKeepsGenuine(Apply(s, run[0], route), run[1..], route);
    }
  }

  /** A replay carries the length of its own body and no other, and no cookie. */
  lemma ReplayHasOneLength(e: Entry, codec: Codec)
    requires e.Cached?
    ensures var headers := ReplayedHeaders(e, codec);
            var n := |headers| - 1;
            && n >= 1 && headers[n] == Header("content-length", Decimal(|ReplayedBody(e, codec)|))
            && headers[n - 1] == Header("idempotency-key-replayed", "true")
            && forall h <- headers[..n] :: Harmless(h)
  {
    hide *;
    var mark, length := Header("idempotency-key-replayed", "true"), Header("content-length", Decimal(|ReplayedBody(e, codec)|));
    KeptAreHarmless(e.headers);
    MarkIsHarmless();
    ReplayedEndInTwo(e, codec, mark, length);
    TwoAtTheEnd(WithoutSensitive(e.headers), mark, length);
  }

  lemma ReplayedEndInTwo(e: Entry, codec: Codec, mark: Header, length: Header)
    requires e.Cached? && mark == Header("idempotency-key-replayed", "true")
    requires length == Header("content-length", Decimal(|ReplayedBody(e, codec)|))
    ensures ReplayedHeaders(e, codec) == WithoutSensitive(e.headers) + [mark, length]
  {
    hide WithoutSensitive, Decimal, ReplayedBody;
  }

  lemma KeptAreHarmless(headers: seq<Header>)
    ensures forall h <- WithoutSensitive(headers) :: Harmless(h)
  {
    hide WithoutSensitive, Lower;
  }

  lemma MarkIsHarmless()
    ensures Harmless(Header("idempotency-key-replayed", "true"))
  {
    hide Lower;
    assert |Lower("idempotency-key-replayed")| == 24;
  }

  lemma TwoAtTheEnd<T>(kept: seq<T>, x: T, y: T)
    ensures var s := kept + [x, y];
            |s| == |kept| + 2 && s[|kept| + 1] == y && s[|kept|] == x && s[..|kept| + 1] == kept + [x]
  {}

  /** When the entry has expired, a request finds the key empty, whatever was stored, and runs its handler. */
  lemma ExpiryForgets(s: State, f: Bytes, route: Route)
    ensures var n := |s.requests|;
            var run := [Expire, Arrive(f), Look(n), Claim(n)];
            && Feasible(s, run, route)
            && var t := After(s, run, route);
               |t.requests| == n + 1 && t.requests[n].phase == Executing && t.starts == s.starts + 1
  {
    var n := |s.requests|;
    var run := [Expire, Arrive(f), Look(n), Claim(n)];
    var s1 := Apply(s, Expire, route);
    var s2 := Apply(s1, Arrive(f), route);
    var s3 := Apply(s2, Look(n), route);
    var s4 := Apply(s3, Claim(n), route);
    hide Apply, Allowed, Feasible, After;
    Unfold(s4, run[4..], route);
    Unfold(s3, run[3..], route);
    Unfold(s2, run[2..], route);
    Unfold(s1, run[1..], route);
    Unfold(s, run, route);
  }

  /** Every replayed response is that of a finished execution for the same key and the same request
      body: its status, its headers without the sensitive ones followed by the mark of a replay and the
      length of the body sent now, and the whole body it sent, at most 64 KiB, byte for byte where the
      text form loses nothing. */
  lemma ReplaysAreGenuine(run: seq<Event>, route: Route, who: nat)
    requires Feasible(EMPTY, run, route)
    requires var s := After(EMPTY, run, route);
             && who < |s.requests| && s.requests[who].phase.Answered? && s.requests[who].phase.answer.Replay?
    ensures var s := After(EMPTY, run, route);
            var e := s.requests[who].phase.answer.entry;
            e.Cached? && exists x <- s.executions ::
              && !x.raised && x.fingerprint == s.requests[who].fingerprint
              && e.status == RecordAll(x.messages).status && Success(e.status)
              && ReplayedHeaders(e, route.codec) == WithoutSensitive(RecordAll(x.messages).headers)
                   + [Header("idempotency-key-replayed", "true"),
                      Header("content-length", Decimal(|ReplayedBody(e, route.codec)|))]
              && |SentBody(x.messages)| <= MAX_CACHED_BODY_BYTES
              && (route.codec.encode(route.codec.decode(SentBody(x.messages))) == SentBody(x.messages) ==>
                    ReplayedBody(e, route.codec) == SentBody(x.messages))
  {
    RunKeepsGenuine(EMPTY, run, route);
    var s := After(EMPTY, run, route);
    var r := s.requests[who];
    var e := r.phase.answer.entry;
    assert r in s.requests && Genuine(s, e, route);
    var x :| x in s.executions && Produced(x, e, route);
    WithoutSensitiveTwice(RecordAll(x.messages).headers);
  }

  lemma {:induction false} WithoutSensitiveTwice(headers: seq<Header>)
    ensures WithoutSensitive(WithoutSensitive(headers)) == WithoutSensitive(headers)
  {
    if headers != [] {
      WithoutSensitiveTwice(headers[1..]);
    }
  }

  // ----- At most one execution -----

  /** An execution whose result stays: a 2xx response that is stored, or that is marked as given. */
  predicate Lasting(x: Execution, route: Route) {
    !x.raised && Success(RecordAll(x.messages).status)
    && (route.oneTime || |SentBody(x.messages)| <= MAX_CACHED_BODY_BYTES)
  }

  predicate Calm(s: State, e: Event, route: Route)
    requires Allowed(s, e)
  {
    !e.Expire? && (e.Finish? ==> Lasting(Execution(s.requests[e.who].fingerprint, e.messages, e.raised), route))
  }

  predicate AllCalm(s: State, run: seq<Event>, route: Route)
    requires Feasible(s, run, route)
    decreases |run|
  {
    run == [] || (Calm(s, run[0], route) && AllCalm(Apply(s, run[0], route), run[1..], route))
  }

  /** The key is taken from the first start on, and nobody waits for the second look before that. */
  predicate Once(s: State, route: Route) {
    && s.starts == (if s.entry.Some? then 1 else 0)
    && (forall r <- s.requests ::
          && (r.phase == Contended || r.phase == Executing || r.phase.Settling? ==> s.entry.Some?)
          && (r.phase.Settling? ==> Lasting(r.phase.execution, route)))
  }

  lemma LastingStays(x: Execution, route: Route)
    ensures Outcome(x, route).Some? <==> Lasting(x, route)
  {
    RecordingIsWholeOrNothing(x.messages);
    hide RecordAll, SentBody, Concat, WithoutSensitive;
  }

  lemma ApplyKeepsOnce(s: State, e: Event, route: Route)
    requires Allowed(s, e) && Calm(s, e, route) && Once(s, route)
    ensures Once(Apply(s, e, route), route)
  {
    if e.Settle? {
      LastingStays(s.requests[e.who].phase.execution, route);
      assert s.requests[e.who] in s.requests;
    }
    hide Lasting, Outcome;
    match e
    case LookAgain(i) => assert s.requests[i] in s.requests;
    case _ =>
  }

  /** If nothing expires and every execution ends in a lasting response, the handler is called at most
      once, in any interleaving of any number of requests. */
  lemma {:induction false} HandlerRunsOnce(s: State, run: seq<Event>, route: Route)
    requires Feasible(s, run, route) && AllCalm(s, run, route) && Once(s, route)
    ensures Once(After(s, run, route), route) && After(s, run, route).starts <= 1
    decreases |run|
  {
    hide Apply, Allowed, Calm;
    if run != [] {
      ApplyKeepsOnce(s, run[0], route);
      HandlerRunsOnce(Apply(s, run[0], route), run[1..], route);
    }
  }

  lemma AtMostOnceFromTheStart(run: seq<Event>, route: Route)
    requires Feasible(EMPTY, run, route) && AllCalm(EMPTY, run, route)
    ensures After(EMPTY, run, route).starts <= 1
  {
    HandlerRunsOnce(EMPTY, run, route);
  }

  // ----- When executions overlap -----

  predicate Active(p: Phase) {
    p == Executing || p.Settling?
  }

  /** Steps that leave nobody running without a sentinel: no expiry, and no second look that finds the
      key empty. */
  predicate Guarded(s: State, e: Event) {
    !e.Expire? && !(e.LookAgain? && s.entry.None?)
  }

  predicate AllGuarded(s: State, run: seq<Event>, route: Route)
    requires Feasible(s, run, route)
    decreases |run|
  {
    run == [] || (Guarded(s, run[0]) && AllGuarded(Apply(s, run[0], route), run[1..], route))
  }

  predicate Exclusive(s: State) {
    && (forall i, j | 0 <= i < |s.requests| && 0 <= j < |s.requests| ::
          Active(s.requests[i].phase) && Active(s.requests[j].phase) ==> i == j)
    && (forall i :: 0 <= i < |s.requests| && Active(s.requests[i].phase) ==>
          s.entry == Some(InFlight(s.requests[i].fingerprint)))
  }

  lemma ApplyKeepsExclusive(s: State, e: Event, route: Route)
    requires Allowed(s, e) && Guarded(s, e) && Exclusive(s)
    ensures Exclusive(Apply(s, e, route))
  {
    hide Outcome, Judge;
  }

  /** Failed and uncacheable executions included: as long as no entry expires and no second look finds
      the key empty, two executions never overlap. */
  lemma {:induction false} ExecutionsDoNotOverlap(s: State, run: seq<Event>, route: Route)
    requires Feasible(s, run, route) && AllGuarded(s, run, route) && Exclusive(s)
    ensures Exclusive(After(s, run, route))
    decreases |run|
  {
    hide Apply, Allowed, Guarded, Exclusive;
    if run != [] {
      ApplyKeepsExclusive(s, run[0], route);
      ExecutionsDoNotOverlap(Apply(s, run[0], route), run[1..], route);
    }
  }

  /** The second look is where it breaks: whenever it finds the key empty, the next request is let
      through as well, and two executions are under way. */
  lemma SecondLookLetsTwoIn(s: State, i: nat, f: Bytes, route: Route)
    requires i < |s.requests| && s.requests[i].phase == Contended && s.entry.None?
    ensures var n := |s.requests|;
            var run := [LookAgain(i), Arrive(f), Look(n), Claim(n)];
            && Feasible(s, run, route)
            && var end := After(s, run, route);
               && n < |end.requests| && end.requests[i].phase == Executing && end.requests[n].phase == Executing
               && end.starts == s.starts + 2
  {
    var n := |s.requests|;
    var run := [LookAgain(i), Arrive(f), Look(n), Claim(n)];
    var s1 := Apply(s, run[0], route);
    var s2 := Apply(s1, run[1], route);
    var s3 := Apply(s2, run[2], route);
    var s4 := Apply(s3, run[3], route);
    assert run[1..] == [Arrive(f), Look(n), Claim(n)];
    assert run[1..][1..] == [Look(n), Claim(n)];
    assert run[1..][1..][1..] == [Claim(n)];
    assert run[1..][1..][1..][1..] == [];
    assert Feasible(s4, [], route) && After(s4, [], route) == s4;
    assert Feasible(s3, run[1..][1..][1..], route) && After(s3, run[1..][1..][1..], route) == s4;
    assert Feasible(s2, run[1..][1..], route) && After(s2, run[1..][1..], route) == s4;
    assert Feasible(s1, run[1..], route) && After(s1, run[1..], route) == s4;
  }

  /** And it can come to that without any expiry: an execution that fails between another request's
      failed set-if-absent and its second look leaves the key empty. */
  lemma FailureLeavesTheKeyEmpty(f: Bytes, route: Route)
    ensures var run := [Arrive(f), Arrive(f), Look(0), Look(1), Claim(0), Claim(1), Finish(0, [], true), Settle(0)];
            && Feasible(EMPTY, run, route)
            && After(EMPTY, run, route).entry.None?
            && |After(EMPTY, run, route).requests| == 2 && After(EMPTY, run, route).requests[1].phase == Contended
  {
    var run := [Arrive(f), Arrive(f), Look(0), Look(1), Claim(0), Claim(1), Finish(0, [], true), Settle(0)];
    var x := Execution(f, [], true);
    var s1 := Apply(EMPTY, run[0], route);
    assert s1 == State(None, [Request(f, Arrived)], [], 0);
    var s2 := Apply(s1, run[1], route);
    assert s2 == State(None, [Request(f, Arrived), Request(f, Arrived)], [], 0);
    var s3 := Apply(s2, run[2], route);
    assert s3 == State(None, [Request(f, Missed), Request(f, Arrived)], [], 0);
    var s4 := Apply(s3, run[3], route);
    assert s4 == State(None, [Request(f, Missed), Request(f, Missed)], [], 0);
    var s5 := Apply(s4, run[4], route);
    assert s5 == State(Some(InFlight(f)), [Request(f, Executing), Request(f, Missed)], [], 1);
    var s6 := Apply(s5, run[5], route);
    assert s6 == State(Some(InFlight(f)), [Request(f, Executing), Request(f, Contended)], [], 1);
    var s7 := Apply(s6, run[6], route);
    assert s7 == State(Some(InFlight(f)), [Request(f, Settling(x)), Request(f, Contended)], [x], 1);
    var s8 := Apply(s7, run[7], route);
    assert s8 == State(None, [Request(f, Answered(FromHandler(x))), Request(f, Contended)], [x], 1);
    hide Apply, Allowed, Feasible, After;
    Unfold(s8, run[8..], route);
    Unfold(s7, run[7..], route);
    Unfold(s6, run[6..], route);
    Unfold(s5, run[5..], route);
    Unfold(s4, run[4..], route);
    Unfold(s3, run[3..], route);
    Unfold(s2, run[2..], route);
    Unfold(s1, run[1..], route);
    Unfold(EMPTY, run, route);
  }

  lemma Unfold(s: State, run: seq<Event>, route: Route)
    ensures run == [] ==> Feasible(s, run, route) && After(s, run, route) == s
    ensures run != [] && Allowed(s, run[0]) && Feasible(Apply(s, run[0], route), run[1..], route) ==>
              Feasible(s, run, route) && After(s, run, route) == After(Apply(s, run[0], route), run[1..], route)
  {}

  // ----- After the first answer -----

  /** A result is stored; by exclusion nobody is executing. */
  predicate Settled(s: State) {
    s.entry.Some? && !s.entry.value.InFlight? && Exclusive(s)
  }

  /** Whoever has not been answered in `s` but has been in `t` was answered from the entry `e`. */
  predicate AnsweredFrom(s: State, t: State, e: Entry) {
    && |s.requests| <= |t.requests|
    && (forall i | 0 <= i < |s.requests| ::
          && t.requests[i].fingerprint == s.requests[i].fingerprint
          && (s.requests[i].phase.Answered? ==> t.requests[i] == s.requests[i]))
    && (forall i | 0 <= i < |t.requests| ::
          t.requests[i].phase.Answered? && (i < |s.requests| ==> !s.requests[i].phase.Answered?) ==>
            TellsOf(e, t.requests[i].fingerprint, t.requests[i].phase.answer))
  }

  /** The answer to a request for a stored entry: its replay if and only if it is the response to the same
      body; otherwise the conflict that fits the entry. */
  predicate TellsOf(e: Entry, fingerprint: Bytes, answer: Answer) {
    && (e.InFlight? ==> answer == InFlightConflict)
    && (e.Unreplayable? ==> answer == AlreadyCompleted)
    && (e.Cached? && e.fingerprint == fingerprint ==> answer == Replay(e))
    && (e.Cached? && e.fingerprint != fingerprint ==> answer == BodyConflict)
  }

  lemma JudgeTells(e: Entry, fingerprint: Bytes)
    ensures TellsOf(e, fingerprint, Judge(e, fingerprint))
  {}

  lemma SettledStep(s: State, e: Event, route: Route)
    requires Allowed(s, e) && !e.Expire? && Settled(s)
    ensures var t := Apply(s, e, route);
            Settled(t) && t.entry == s.entry && t.starts == s.starts && AnsweredFrom(s, t, s.entry.value)
  {
    if e.Look? || e.LookAgain? {
      JudgeTells(s.entry.value, s.requests[e.who].fingerprint);
    }
    hide Outcome, Judge, TellsOf;
    assert forall i | 0 <= i < |s.requests| :: !Active(s.requests[i].phase);
  }

  lemma AnsweredOn(s: State, t: State, u: State, e: Entry)
    requires AnsweredFrom(s, t, e) && AnsweredFrom(t, u, e)
    ensures AnsweredFrom(s, u, e)
  {
    hide TellsOf;
    forall i | 0 <= i < |u.requests| && u.requests[i].phase.Answered? && (i < |s.requests| ==> !s.requests[i].phase.Answered?)
      ensures TellsOf(e, u.requests[i].fingerprint, u.requests[i].phase.answer)
    {
      if i < |t.requests| && t.requests[i].phase.Answered? {
        assert u.requests[i] == t.requests[i];
      }
    }
  }

  /** Once a result is stored, and until it expires, the handler is not called again, the entry does not
      change, and every request answered from then on is answered from it: the same replay for the same
      body, a conflict for any other. */
  lemma {:induction false} StoredResultRules(s: State, run: seq<Event>, route: Route)
    requires Feasible(s, run, route) && Settled(s) && Expire !in run
    ensures var t := After(s, run, route);
            t.entry == s.entry && t.starts == s.starts && AnsweredFrom(s, t, s.entry.value)
    decreases |run|
  {
    if run != [] {
      SettledStep(s, run[0], route);
      hide Apply, Allowed, Settled;
      var t := Apply(s, run[0], route);
      assert forall e <- run[1..] :: e in run;
      StoredResultRules(t, run[1..], route);
      AnsweredOn(s, t, After(t, run[1..], route), s.entry.value);
      hide AnsweredFrom;
    } else {
      hide TellsOf;
    }
  }

  // ----- The middleware -----

  class Middleware {
    const route: Route
    var entry: Option<Entry>

    constructor (route: Route)
      ensures this.route == route && entry == None
    {
      this.route := route;
      entry := None;
    }

    /** One request with nobody in between. The handler is given by what it sends and whether it raises
        in the end; it is called exactly when nothing is stored, and then decides what is stored. */
    method Call(fingerprint: Bytes, handler: seq<Outgoing>, raises: bool) returns (answer: Answer)
      modifies this
      ensures old(entry).Some? ==> entry == old(entry) && answer == Judge(old(entry).value, fingerprint)
      ensures old(entry).Some? && old(entry).value.InFlight? ==> answer == InFlightConflict
      ensures old(entry).Some? && old(entry).value.Unreplayable? ==> answer == AlreadyCompleted
      ensures old(entry).Some? && old(entry).value.Cached? ==>
                answer == if old(entry).value.fingerprint == fingerprint then Replay(old(entry).value) else BodyConflict
      ensures old(entry).None? ==>
                var x := Execution(fingerprint, handler, raises);
                answer == FromHandler(x) && entry == Outcome(x, route)
    {
      if entry.Some? {
        match entry.value {
          case InFlight(_) => return InFlightConflict;
          case Unreplayable(_) => return AlreadyCompleted;
          case Cached(stored, _, _, _) =>
            if stored != fingerprint {
              return BodyConflict;
            }
            return Replay(entry.value);
        }
      }
      entry := Some(InFlight(fingerprint));
      var recorder := new ResponseRecorder();
      for i := 0 to |handler|
        invariant recorder.Valid() && fresh(recorder) && recorder.sent == handler[..i]
        invariant old(entry).None?
      {
        recorder.Send(handler[i]);
        assert handler[..i + 1] == handler[..i] + [handler[i]];
      }
      assert handler[..|handler|] == handler;
      hide RecordAll;
      var status := recorder.statusCode;
      if raises {
        entry := None;
      } else if 200 <= status < 300 && recorder.cacheableBody && !route.oneTime {
        var body := Concat(recorder.bodyChunks);
        entry := Some(Cached(fingerprint, status, WithoutSensitive(recorder.responseHeaders), route.codec.decode(body)));
      } else if 200 <= status < 300 && route.oneTime {
        entry := Some(Unreplayable(fingerprint));
      } else {
        entry := None;
      }
      answer := FromHandler(Execution(fingerprint, handler, raises));
    }
  }

  /** Alone, the steps of a request amount to the same: what the middleware answers and stores is what
      the protocol says. */
  lemma AloneIsTheProtocol(s: State, f: Bytes, messages: seq<Outgoing>, raised: bool, route: Route)
    requires s.entry.None?
    ensures var n := |s.requests|;
            var run := [Arrive(f), Look(n), Claim(n), Finish(n, messages, raised), Settle(n)];
            && Feasible(s, run, route)
            && var end := After(s, run, route);
               && n < |end.requests|
               && end.requests[n].phase == Answered(FromHandler(Execution(f, messages, raised)))
               && end.entry == Outcome(Execution(f, messages, raised), route)
               && end.requests[..n] == s.requests
  {
    var n := |s.requests|;
    var run := [Arrive(f), Look(n), Claim(n), Finish(n, messages, raised), Settle(n)];
    var s1 := Apply(s, run[0], route);
    var s2 := Apply(s1, run[1], route);
    var s3 := Apply(s2, run[2], route);
    var s4 := Apply(s3, run[3], route);
    var s5 := Apply(s4, run[4], route);
    assert s5.requests[..n] == s.requests;
    hide Apply, Allowed, Feasible, After, Outcome;
    Unfold(s5, run[5..], route);
    Unfold(s4, run[4..], route);
    Unfold(s3, run[3..], route);
    Unfold(s2, run[2..], route);
    Unfold(s1, run[1..], route);
    Unfold(s, run, route);
  }

  /** What is stored after a request alone, in plain terms: nothing after a failure or an answer that is not
      2xx; the mark of a one-time route; nothing for a body over 64 KiB; otherwise status, headers and body
      as they were sent. */
  lemma OutcomeIs(x: Execution, route: Route)
    ensures x.raised || !(200 <= RecordAll(x.messages).status < 300) ==> Outcome(x, route) == None
    ensures !x.raised && 200 <= RecordAll(x.messages).status < 300 && route.oneTime ==>
              Outcome(x, route) == Some(Unreplayable(x.fingerprint))
    ensures !x.raised && 200 <= RecordAll(x.messages).status < 300 && !route.oneTime ==>
              Outcome(x, route) ==
                if |SentBody(x.messages)| > 64 * 1024 then None
                else Some(Cached(x.fingerprint, RecordAll(x.messages).status,
                                 WithoutSensitive(RecordAll(x.messages).headers),
                                 route.codec.decode(SentBody(x.messages))))
  {
    RecordingIsWholeOrNothing(x.messages);
    hide RecordAll, SentBody, WithoutSensitive, Concat;
  }

  lemma {:induction false} RunsJoin(s: State, a: seq<Event>, b: seq<Event>, route: Route)
    requires Feasible(s, a, route) && Feasible(After(s, a, route), b, route)
    ensures Feasible(s, a + b, route) && After(s, a + b, route) == After(After(s, a, route), b, route)
    decreases |a|
  {
    hide Apply, Allowed;
    if a == [] {
      assert a + b == b;
    } else {
      assert (a + b)[0] == a[0] && (a + b)[1..] == a[1..] + b;
      RunsJoin(Apply(s, a[0], route), a[1..], b, route);
    }
  }

  /** A retry is answered by a replay: after a request that ended in a 2xx response of at most 64 KiB, on a
      route whose responses may be stored, the next request with the same body gets that response, and one
      with another body a conflict; the handler is not called for either. */
  lemma RetryIsReplayed(f: Bytes, messages: seq<Outgoing>, g: Bytes, route: Route)
    requires 200 <= RecordAll(messages).status < 300 && |SentBody(messages)| <= 64 * 1024 && !route.oneTime
    ensures var run := [Arrive(f), Look(0), Claim(0), Finish(0, messages, false), Settle(0)] + [Arrive(g), Look(1)];
            && Feasible(EMPTY, run, route)
            && var end := After(EMPTY, run, route);
               && |end.requests| == 2 && end.starts == 1
               && var stored := Cached(f, RecordAll(messages).status, WithoutSensitive(RecordAll(messages).headers),
                                       route.codec.decode(SentBody(messages)));
                  end.requests[1].phase == Answered(if g == f then Replay(stored) else BodyConflict)
  {
    var first := [Arrive(f), Look(0), Claim(0), Finish(0, messages, false), Settle(0)];
    var second := [Arrive(g), Look(1)];
    AloneIsTheProtocol(EMPTY, f, messages, false, route);
    OneStart(f, messages, route);
    OutcomeIs(Execution(f, messages, false), route);
    var s5 := After(EMPTY, first, route);
    var s6 := Apply(s5, Arrive(g), route);
    assert s6.requests[1] == Request(g, Arrived);
    var s7 := Apply(s6, Look(1), route);
    hide RecordAll, SentBody, WithoutSensitive, Feasible, After, Apply, Allowed, Outcome;
    Unfold(s7, [], route);
    Unfold(s6, [Look(1)], route);
    Unfold(s5, second, route);
    assert second[1..] == [Look(1)] && [Look(1)][1..] == [];
    RunsJoin(EMPTY, first, second, route);
  }

  lemma OneStart(f: Bytes, messages: seq<Outgoing>, route: Route)
    ensures var run := [Arrive(f), Look(0), Claim(0), Finish(0, messages, false), Settle(0)];
            && Feasible(EMPTY, run, route)
            && |After(EMPTY, run, route).requests| == 1 && After(EMPTY, run, route).starts == 1
  {
    var run := [Arrive(f), Look(0), Claim(0), Finish(0, messages, false), Settle(0)];
    var s1 := Apply(EMPTY, run[0], route);
    var s2 := Apply(s1, run[1], route);
    var s3 := Apply(s2, run[2], route);
    var s4 := Apply(s3, run[3], route);
    var s5 := Apply(s4, run[4], route);
    hide Apply, Allowed, Feasible, After, Outcome;
    Unfold(s5, run[5..], route);
    Unfold(s4, run[4..], route);
    Unfold(s3, run[3..], route);
    Unfold(s2, run[2..], route);
    Unfold(s1, run[1..], route);
    Unfold(EMPTY, run, route);
  }
}
