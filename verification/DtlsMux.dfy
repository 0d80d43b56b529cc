/**
  Demultiplexing DTLS, SRTP and SRTCP from one socket into three bounded queues.

  Events are the atomic actions of the read loop (a packet read, then one case of its
  select), of the three readers, and of whoever closes the mux or an endpoint. Closing
  the mux and closing its endpoints are separate actions, so readers and the read loop
  may run in between.
*/
module DtlsMux {
  import opened Prelude

  type Byte = b: int | 0 <= b < 256
  type Packet = seq<Byte>

  const CAPACITY := 128

  datatype Class = Dtls | Srtp | Srtcp

  /** The class of a packet by its first two bytes; None is dropped. */
  function Classify(p: Packet): (c: Option<Class>)
    ensures c.Some? <==> p != [] && (20 <= p[0] <= 63 || 128 <= p[0] <= 191)
    ensures c == Some(Dtls) <==> p != [] && 20 <= p[0] <= 63
    ensures c == Some(Srtcp) <==> |p| > 1 && 128 <= p[0] <= 191 && 192 <= p[1] <= 223
  {
    if |p| == 0 then None
    else if 20 <= p[0] <= 63 then Some(Dtls)
    else if 128 <= p[0] <= 191 then
      if |p| > 1 && 192 <= p[1] <= 223 then Some(Srtcp) else Some(Srtp)
    else None
  }

  datatype Endpoint = Endpoint(queue: seq<Packet>, delivered: seq<Packet>, closed: bool) {
    /** Everything that reached this endpoint, in order. */
    function Got(): seq<Packet> { delivered + queue }
  }

  datatype Endpoints = Endpoints(dtls: Endpoint, srtp: Endpoint, srtcp: Endpoint) {
    function Get(c: Class): Endpoint {
      match c case Dtls => dtls case Srtp => srtp case Srtcp => srtcp
    }
    function Set(c: Class, e: Endpoint): (r: Endpoints)
      ensures forall d :: r.Get(d) == if d == c then e else Get(d)
    {
      match c case Dtls => this.(dtls := e) case Srtp => this.(srtp := e) case Srtcp => this.(srtcp := e)
    }
  }

  datatype State = State(
    handled: seq<Packet>,        // packets the read loop is done with
    hand: Option<Packet>,        // the classified packet it is blocked on
    ends: Endpoints,
    closed: bool,
    exited: bool)

  datatype Event =
    | Read(p: Packet)
    | ReadFails
    | Enqueue
    | DiscardClosed
    | Exit
    | Receive(c: Class)
    | CloseEndpoint(c: Class)
    | CloseMux

  const Empty := Endpoint([], [], false)
  const Init := State([], None, Endpoints(Empty, Empty, Empty), false, false)

  /** The endpoint the packet in hand is for. */
  function Target(s: State): Option<Class> { if s.hand.Some? then Classify(s.hand.value) else None }

  function PutDown(s: State): State
    requires s.hand.Some?
  {
    s.(handled := s.handled + [s.hand.value], hand := None)
  }

  function Push(s: State, c: Class): State
    requires s.hand.Some?
  {
    var e := s.ends.Get(c);
    PutDown(s).(ends := s.ends.Set(c, e.(queue := e.queue + [s.hand.value])))
  }

  function Pop(s: State, c: Class): State
    requires s.ends.Get(c).queue != []
  {
    var e := s.ends.Get(c);
    s.(ends := s.ends.Set(c, e.(queue := e.queue[1..], delivered := e.delivered + [e.queue[0]])))
  }

  /** One step; an event that is not enabled leaves the state alone. */
  function Step(s: State, e: Event): State {
    match e
    case Read(p) =>
      if s.exited || s.hand.Some? then s
      else if Classify(p).None? then s.(handled := s.handled + [p])
      else s.(hand := Some(p))
    case ReadFails => if s.exited || s.hand.Some? then s else s.(closed := true, exited := true)
    case Enqueue =>
      if Target(s).None? || s.exited || |s.ends.Get(Target(s).value).queue| >= CAPACITY then s
      else Push(s, Target(s).value)
    case DiscardClosed =>
      if Target(s).None? || s.exited || !s.ends.Get(Target(s).value).closed then s else PutDown(s)
    case Exit => if s.hand.None? || s.exited || !s.closed then s else PutDown(s).(exited := true)
    case Receive(c) => if s.ends.Get(c).queue == [] then s else Pop(s, c)
    case CloseEndpoint(c) => s.(ends := s.ends.Set(c, s.ends.Get(c).(closed := true)))
    case CloseMux => s.(closed := true)
  }

  /** The packets of one class, in order. */
  function Routed(c: Class, ps: seq<Packet>): seq<Packet> {
    if ps == [] then []
    else
      var r, p := Routed(c, ps[..|ps|-1]), ps[|ps|-1];
      if Classify(p) == Some(c) then r + [p] else r
  }

  /** a is b with some elements left out. */
  predicate IsSubsequence(a: seq<Packet>, b: seq<Packet>) {
    || a == []
    || (b != [] && (IsSubsequence(a, b[..|b|-1]) || (a[|a|-1] == b[|b|-1] && IsSubsequence(a[..|a|-1], b[..|b|-1]))))
  }

  lemma {:induction false} SubsequenceOfSelf(a: seq<Packet>)
    ensures IsSubsequence(a, a)
  {
    if a != [] { SubsequenceOfSelf(a[..|a|-1]); }
  }

  lemma SubsequenceSnoc(a: seq<Packet>, b: seq<Packet>, p: Packet)
    requires IsSubsequence(a, b)
    ensures IsSubsequence(a, b + [p]) && IsSubsequence(a + [p], b + [p])
  {
    assert (b + [p])[..|b|] == b && (a + [p])[..|a|] == a;
  }

  lemma RoutedSnoc(c: Class, ps: seq<Packet>, p: Packet)
    ensures Routed(c, ps + [p]) == Routed(c, ps) + if Classify(p) == Some(c) then [p] else []
  {
    assert (ps + [p])[..|ps|] == ps;
  }

  predicate EndpointInv(c: Class, s: State) {
    var e := s.ends.Get(c);
    && |e.queue| <= CAPACITY
    && IsSubsequence(e.Got(), Routed(c, s.handled))
    && (!e.closed && !s.closed ==> e.Got() == Routed(c, s.handled))
  }

  ghost predicate Inv(s: State) {
    && (s.hand.Some? ==> Classify(s.hand.value).Some?)
    && (s.exited ==> s.hand.None? && s.closed)
    && forall c :: EndpointInv(c, s)
  }

  /** Finishing with the packet in hand, delivered to its class or lost to a close. */
  lemma {:induction false} HandledKeepsEndpoint(c: Class, s: State, t: State, p: Packet)
    requires EndpointInv(c, s) && t.handled == s.handled + [p]
    requires t.closed == s.closed || t.closed
    requires var e, f := s.ends.Get(c), t.ends.Get(c);
             || (f == e && (Classify(p) == Some(c) ==> e.closed || t.closed))
             || (f == e.(queue := e.queue + [p]) && Classify(p) == Some(c) && |f.queue| <= CAPACITY)
    ensures EndpointInv(c, t)
  {
    RoutedSnoc(c, s.handled, p);
    SubsequenceSnoc(s.ends.Get(c).Got(), Routed(c, s.handled), p);
    var e, f := s.ends.Get(c), t.ends.Get(c);
    if f != e { assert f.Got() == e.Got() + [p]; }
  }

  /** Handing a packet over to the reader. */
  lemma {:induction false} PopKeepsEndpoint(c: Class, s: State, d: Class)
    requires EndpointInv(c, s) && s.ends.Get(d).queue != []
    ensures EndpointInv(c, Pop(s, d))
  {
    if c == d { assert Pop(s, d).ends.Get(c).Got() == s.ends.Get(c).Got(); }
  }

  /** Being done with the packet in hand without delivering it. */
  lemma {:induction false} PutDownKeepsEndpoint(c: Class, s: State)
    requires EndpointInv(c, s) && s.hand.Some? && (Target(s) == Some(c) ==> s.ends.Get(c).closed || s.closed)
    ensures EndpointInv(c, PutDown(s))
  {
    HandledKeepsEndpoint(c, s, PutDown(s), s.hand.value);
  }

  lemma {:induction false} PushKeepsEndpoint(c: Class, s: State)
    requires EndpointInv(c, s) && Target(s).Some? && |s.ends.Get(Target(s).value).queue| < CAPACITY
    ensures EndpointInv(c, Push(s, Target(s).value))
  {
    HandledKeepsEndpoint(c, s, Push(s, Target(s).value), s.hand.value);
  }

  lemma {:induction false} ReadKeepsEndpoint(c: Class, s: State, p: Packet)
    requires EndpointInv(c, s)
    ensures EndpointInv(c, Step(s, Read(p)))
  {
    if Step(s, Read(p)).handled != s.handled { HandledKeepsEndpoint(c, s, Step(s, Read(p)), p); }
  }

  lemma {:induction false} CloseKeepsEndpoint(c: Class, s: State, d: Class)
    requires EndpointInv(c, s)
    ensures EndpointInv(c, Step(s, CloseEndpoint(d)))
  {
    assert Step(s, CloseEndpoint(d)).ends.Get(c).Got() == s.ends.Get(c).Got();
  }

  lemma {:induction false} StepKeepsEndpoint(c: Class, s: State, e: Event)
    requires EndpointInv(c, s)
    ensures EndpointInv(c, Step(s, e))
  {
    match e
    case Read(p) => ReadKeepsEndpoint(c, s, p);
    case Enqueue =>
      if Step(s, e) != s { PushKeepsEndpoint(c, s); }
    case DiscardClosed =>
      if Step(s, e) != s { PutDownKeepsEndpoint(c, s); }
    case Exit =>
      if Step(s, e) != s { PutDownKeepsEndpoint(c, s); }
    case Receive(d) =>
      if Step(s, e) != s { PopKeepsEndpoint(c, s, d); }
    case CloseEndpoint(d) => CloseKeepsEndpoint(c, s, d);
    case ReadFails =>
    case CloseMux =>
  }

  lemma {:induction false} StepKeepsInv(s: State, e: Event)
    requires Inv(s)
    ensures Inv(Step(s, e))
  {
    forall c ensures EndpointInv(c, Step(s, e)) {
      assert EndpointInv(c, s);
      StepKeepsEndpoint(c, s, e);
    }
  }

  /** The state after an arbitrary schedule. */
  function Run(es: seq<Event>): State {
    if es == [] then Init else Step(Run(es[..|es|-1]), es[|es|-1])
  }

  lemma {:induction false} RunKeepsInv(es: seq<Event>)
    ensures Inv(Run(es))
  {
    if es == [] {
      forall c ensures EndpointInv(c, Init) { assert Init.ends.Get(c) == Empty; }
    } else {
      RunKeepsInv(es[..|es|-1]);
      StepKeepsInv(Run(es[..|es|-1]), es[|es|-1]);
    }
  }

  /** The packets the read loop took off the socket: it reads only when it holds none and has not exited. */
  function Arrivals(es: seq<Event>): seq<Packet> {
    if es == [] then []
    else
      var s, e := Run(es[..|es|-1]), es[|es|-1];
      Arrivals(es[..|es|-1]) + if e.Read? && !s.exited && s.hand.None? then [e.p] else []
  }

  function InHand(s: State): seq<Packet> { if s.hand.Some? then [s.hand.value] else [] }

  lemma {:induction false} StepAccounts(s: State, e: Event)
    ensures Step(s, e).handled + InHand(Step(s, e)) ==
            s.handled + InHand(s) + if e.Read? && !s.exited && s.hand.None? then [e.p] else []
  {
    var t := Step(s, e);
    if t.hand == s.hand { assert t.handled == s.handled || e.Read?; }
  }

  lemma {:induction false} EveryArrivalIsAccountedFor(es: seq<Event>)
    ensures Arrivals(es) == Run(es).handled + InHand(Run(es))
  {
    if es != [] {
      EveryArrivalIsAccountedFor(es[..|es|-1]);
      StepAccounts(Run(es[..|es|-1]), es[|es|-1]);
    }
  }

  /**
    Every schedule: an endpoint has received, in order, packets of its own class only, and all of them except
    the one in hand while it and the mux are open; its queue stays bounded.
  */
  lemma {:induction false} EachEndpointGetsItsClass(es: seq<Event>, c: Class)
    ensures var s := Run(es);
            var e := s.ends.Get(c);
            && IsSubsequence(e.delivered + e.queue, Routed(c, Arrivals(es)))
            && (!s.closed && !e.closed ==>
                  Routed(c, Arrivals(es)) ==
                  e.delivered + e.queue + if Target(s) == Some(c) then [s.hand.value] else [])
            && |e.queue| <= 128
  {
    EveryArrivalIsAccountedFor(es);
    RunKeepsInv(es);
    var s := Run(es);
    assert EndpointInv(c, s);
    if s.hand.Some? {
      RoutedSnoc(c, s.handled, s.hand.value);
      SubsequenceSnoc(s.ends.Get(c).Got(), Routed(c, s.handled), s.hand.value);
    } else {
      assert s.handled + [] == s.handled;
    }
  }

  lemma {:induction false} SubsequenceCounts(a: seq<Packet>, b: seq<Packet>, p: Packet)
    requires IsSubsequence(a, b)
    ensures multiset(a)[p] <= multiset(b)[p]
    decreases |b|
  {
    if a != [] {
      var b' := b[..|b|-1];
      assert b == b' + [b[|b|-1]] && a == a[..|a|-1] + [a[|a|-1]];
      if IsSubsequence(a, b') { SubsequenceCounts(a, b', p); } else { SubsequenceCounts(a[..|a|-1], b', p); }
    }
  }

  lemma {:induction false} RoutedCounts(c: Class, ps: seq<Packet>, p: Packet)
    ensures multiset(Routed(c, ps))[p] == if Classify(p) == Some(c) then multiset(ps)[p] else 0
  {
    if ps != [] {
      RoutedCounts(c, ps[..|ps|-1], p);
      assert ps == ps[..|ps|-1] + [ps[|ps|-1]];
    }
  }

  /** How often an endpoint received a packet. */
  function Times(s: State, c: Class, p: Packet): nat { multiset(s.ends.Get(c).Got())[p] }

  lemma {:induction false} EndpointCounts(es: seq<Event>, c: Class, p: Packet)
    ensures Times(Run(es), c, p) <= if Classify(p) == Some(c) then multiset(Arrivals(es))[p] else 0
  {
    EachEndpointGetsItsClass(es, c);
    SubsequenceCounts(Run(es).ends.Get(c).Got(), Routed(c, Arrivals(es)), p);
    RoutedCounts(c, Arrivals(es), p);
  }

  /**
    Every schedule and every packet: an endpoint of another class never receives it, and the three together no more
    often than it arrived, so no arrival reaches two endpoints or one endpoint twice.
  */
  lemma {:induction false} NoPacketTwice(es: seq<Event>, p: Packet)
    ensures forall c :: Classify(p) != Some(c) ==> Times(Run(es), c, p) == 0
    ensures Times(Run(es), Dtls, p) + Times(Run(es), Srtp, p) + Times(Run(es), Srtcp, p) <= multiset(Arrivals(es))[p]
  {
    forall c ensures Times(Run(es), c, p) <= if Classify(p) == Some(c) then multiset(Arrivals(es))[p] else 0 {
      EndpointCounts(es, c, p);
    }
  }

  // ---- closing, and what is not held back ----

  predicate Happened(es: seq<Event>, e: Event) { es != [] && (es[|es|-1] == e || Happened(es[..|es|-1], e)) }

  lemma {:induction false} StepFlags(s: State, e: Event, c: Class)
    ensures Step(s, e).ends.Get(c).closed == (s.ends.Get(c).closed || e == CloseEndpoint(c))
    ensures Step(s, e).closed ==> s.closed || e.CloseMux? || e.ReadFails?
    ensures s.closed || e.CloseMux? ==> Step(s, e).closed
    ensures Step(s, e).exited ==> s.exited || e.ReadFails? || s.closed
  {
  }

  /** Every schedule: an endpoint is closed exactly by closing it, the mux only by closing it or by a failed read. */
  lemma {:induction false} ClosedOnlyByClosing(es: seq<Event>, c: Class)
    ensures Run(es).ends.Get(c).closed <==> Happened(es, CloseEndpoint(c))
    ensures Happened(es, CloseMux) ==> Run(es).closed
    ensures Run(es).closed || Run(es).exited ==> Happened(es, CloseMux) || Happened(es, ReadFails)
  {
    if es != [] {
      ClosedOnlyByClosing(es[..|es|-1], c);
      StepFlags(Run(es[..|es|-1]), es[|es|-1], c);
    }
  }

  /** Every schedule without a close: each endpoint has its whole class, up to the packet in hand. */
  lemma {:induction false} CompleteWhileOpen(es: seq<Event>, c: Class)
    requires !Happened(es, CloseMux) && !Happened(es, ReadFails) && !Happened(es, CloseEndpoint(c))
    ensures var s := Run(es);
            var e := s.ends.Get(c);
            Routed(c, Arrivals(es)) == e.delivered + e.queue + if Target(s) == Some(c) then [s.hand.value] else []
  {
    ClosedOnlyByClosing(es, c);
    EachEndpointGetsItsClass(es, c);
  }

  /** The packet in hand waits only for room in its own queue. */
  lemma {:induction false} HandIsEmptied(es: seq<Event>, c: Class)
    requires Target(Run(es)) == Some(c) && |Run(es).ends.Get(c).queue| < 128
    ensures var s, t := Run(es), Run(es + [Enqueue]);
            t.hand.None? && t.ends.Get(c).queue == s.ends.Get(c).queue + [s.hand.value]
  {
    RunKeepsInv(es);
    assert (es + [Enqueue])[..|es|] == es;
  }

  /** A reader gets the oldest packet of its queue, open or not. */
  lemma {:induction false} ReaderGetsTheOldest(es: seq<Event>, c: Class)
    requires Run(es).ends.Get(c).queue != []
    ensures var s, t := Run(es), Run(es + [Receive(c)]);
            && t.ends.Get(c).delivered == s.ends.Get(c).delivered + [s.ends.Get(c).queue[0]]
            && t.ends.Get(c).queue == s.ends.Get(c).queue[1..]
  {
    assert (es + [Receive(c)])[..|es|] == es;
  }

  /** A closed mux lets go of the packet in hand and stops reading. */
  lemma {:induction false} ClosedMuxExits(es: seq<Event>)
    requires Happened(es, CloseMux) && Run(es).hand.Some?
    ensures Run(es + [Exit]).exited && Run(es + [Exit]).hand.None?
  {
    ClosedOnlyByClosing(es, Dtls);
    RunKeepsInv(es);
    assert (es + [Exit])[..|es|] == es;
  }

  /** A failed read ends the loop and closes the mux. */
  lemma {:induction false} FailedReadEnds(es: seq<Event>)
    requires Run(es).hand.None? && !Run(es).exited
    ensures Run(es + [ReadFails]).exited && Run(es + [ReadFails]).closed
  {
    assert (es + [ReadFails])[..|es|] == es;
  }

  /** A packet for a closed endpoint does not hold up the others, however full its queue. */
  lemma {:induction false} ClosedEndpointHoldsNothingUp(es: seq<Event>, c: Class)
    requires Target(Run(es)) == Some(c) && Happened(es, CloseEndpoint(c))
    ensures var s, t := Run(es), Run(es + [DiscardClosed]); t.hand.None? && t.ends == s.ends
  {
    ClosedOnlyByClosing(es, c);
    RunKeepsInv(es);
    assert (es + [DiscardClosed])[..|es|] == es;
  }
}
