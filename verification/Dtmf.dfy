/**
  Telephone events. A key press arrives as a run of RTP packets carrying one timestamp and
  one event code; the media port must report it once, whichever packets of the run the
  network loses.
*/
module Dtmf {
  import opened Prelude

  type U8 = x: int | 0 <= x < 0x100

  // What the payload decoder yields; `detail` stands for volume, duration and the end bit, which vary within a run.
  datatype Event = Event(code: U8, detail: int)
  datatype Packet = Packet(timestamp: U32, event: Event)

  /** A key press: the run of its packets, of which those with the given details got through. */
  datatype Press = Press(timestamp: U32, code: U8, details: seq<int>)

  const NO_EVENT: nat := 0xFFFF_FFFF_FFFF_FFFF

  /** The timestamp shifted left by eight bits with the code in the freed byte. */
  function EventId(timestamp: U32, code: U8): nat {
    timestamp * 0x100 + code
  }

  /**
    The combined id tells any two (timestamp, code) pairs apart, fits 64 bits, and is never taken for "nothing yet".
  */
  lemma EventIdIsFaithful(t: U32, c: U8, u: U32, d: U8)
    ensures EventId(t, c) == EventId(u, d) <==> t == u && c == d
    ensures EventId(t, c) < NO_EVENT
  {
    assert EventId(t, c) / 0x100 == t && EventId(u, d) / 0x100 == u;
  }

  function Id(p: Packet): nat {
    EventId(p.timestamp, p.event.code)
  }

  function LastId(heard: seq<Packet>): nat {
    if heard == [] then NO_EVENT else Id(heard[|heard|-1])
  }

  /** The reports owed for a packet stream: one for each packet that differs from the packet before it. */
  function Reports(heard: seq<Packet>): (r: seq<Event>)
    ensures |r| <= |heard|
  {
    if heard == [] then []
    else
      var before := heard[..|heard|-1];
      Reports(before) + if Id(heard[|heard|-1]) == LastId(before) then [] else [heard[|heard|-1].event]
  }

  class Port {
    var lastDTMFEvent: nat
    ghost var heard: seq<Packet>       // decodable packets that arrived while a handler was installed
    ghost var reported: seq<Event>     // calls of the handler

    ghost predicate Valid()
      reads this
    {
      lastDTMFEvent == LastId(heard) && reported == Reports(heard)
    }

    constructor ()
      ensures Valid() && heard == [] && reported == []
    {
      lastDTMFEvent, heard, reported := NO_EVENT, [], [];
    }

    method DtmfHandler(installed: bool, timestamp: U32, decoded: Option<Event>)
      requires Valid()
      modifies this
      ensures Valid()
      ensures heard == old(heard) + if installed && decoded.Some? then [Packet(timestamp, decoded.value)] else []
    {
      if !installed || decoded.None? { return; }
      var id := EventId(timestamp, decoded.value.code);
      ghost var before := heard;
      heard := heard + [Packet(timestamp, decoded.value)];
      assert heard[..|heard|-1] == before;
      if id == lastDTMFEvent { return; }
      lastDTMFEvent := id;
      reported := reported + [decoded.value];
    }
  }

  function Survivors(p: Press): (r: seq<Packet>)
    ensures |r| == |p.details|
    ensures r != [] ==> LastId(r) == EventId(p.timestamp, p.code)
    decreases |p.details|
  {
    if p.details == [] then []
    else
      Survivors(p.(details := p.details[..|p.details|-1])) +
      [Packet(p.timestamp, Event(p.code, p.details[|p.details|-1]))]
  }

  function Received(presses: seq<Press>): seq<Packet> {
    if presses == [] then [] else Received(presses[..|presses|-1]) + Survivors(presses[|presses|-1])
  }

  function Firsts(presses: seq<Press>): seq<Event>
    requires AllHeard(presses)
  {
    if presses == [] then []
    else
      var p := presses[|presses|-1];
      Firsts(presses[..|presses|-1]) + [Event(p.code, p.details[0])]
  }

  predicate AllHeard(presses: seq<Press>) {
    forall i | 0 <= i < |presses| :: presses[i].details != []
  }

  predicate SamePress(p: Press, q: Press) {
    p.timestamp == q.timestamp && p.code == q.code
  }

  predicate Distinct(presses: seq<Press>) {
    forall i | 0 < i < |presses| :: !SamePress(presses[i-1], presses[i])
  }

  /** A run adds one report, its first surviving packet, unless it is lost whole or repeats the id before it. */
  lemma {:induction false} RunAddsOne(heard: seq<Packet>, p: Press)
    ensures var id := EventId(p.timestamp, p.code);
            Reports(heard + Survivors(p)) ==
            Reports(heard) + if p.details == [] || id == LastId(heard) then [] else [Event(p.code, p.details[0])]
    ensures p.details != [] ==> LastId(heard + Survivors(p)) == EventId(p.timestamp, p.code)
    ensures p.details == [] ==> heard + Survivors(p) == heard
    decreases |p.details|
  {
    if p.details != [] {
      var shorter := p.(details := p.details[..|p.details|-1]);
      RunAddsOne(heard, shorter);
      var all := heard + Survivors(p);
      assert all[..|all|-1] == heard + Survivors(shorter);
      assert all[|all|-1].event == Event(p.code, p.details[|p.details|-1]);
    } else {
      assert heard + Survivors(p) == heard;
    }
  }

  /** When every run keeps a packet and neighbours differ, the handler sees each press once, in order. */
  lemma {:induction false} EachPressOnce(presses: seq<Press>)
    requires AllHeard(presses) && Distinct(presses)
    ensures Reports(Received(presses)) == Firsts(presses)
    ensures presses != [] ==>
              LastId(Received(presses)) == EventId(presses[|presses|-1].timestamp, presses[|presses|-1].code)
  {
    if presses != [] {
      var n := |presses| - 1;
      var before := presses[..n];
      EachPressOnce(before);
      RunAddsOne(Received(before), presses[n]);
      if n == 0 {
        EventIdIsFaithful(presses[n].timestamp, presses[n].code, 0, 0);
      } else {
        assert !SamePress(presses[n-1], presses[n]);
        EventIdIsFaithful(presses[n-1].timestamp, presses[n-1].code, presses[n].timestamp, presses[n].code);
      }
    }
  }

  predicate Good(presses: seq<Press>) {
    AllHeard(presses) && Distinct(presses)
  }

  lemma GoodExtends(presses: seq<Press>)
    requires presses != []
    ensures var n := |presses| - 1;
            Good(presses) <==>
            Good(presses[..n]) && presses[n].details != [] && (n == 0 || !SamePress(presses[n-1], presses[n]))
  {
    var n := |presses| - 1;
    var before := presses[..n];
    if Good(presses) {
      forall i | 0 < i < n ensures !SamePress(before[i-1], before[i]) {
        assert !SamePress(presses[i-1], presses[i]);
      }
    }
    if Good(before) {
      forall i | 0 < i < n ensures !SamePress(presses[i-1], presses[i]) {
        assert !SamePress(before[i-1], before[i]);
      }
    }
  }

  lemma {:induction false} AtMostOneMore(presses: seq<Press>)
    requires presses != []
    ensures |Reports(Received(presses))| <= |Reports(Received(presses[..|presses|-1]))| + 1
  {
    RunAddsOne(Received(presses[..|presses|-1]), presses[|presses|-1]);
  }

  /** After presses that were all reported, the next one is reported exactly if it is heard and new. */
  lemma {:induction false} OneMoreExactlyWhen(presses: seq<Press>)
    requires presses != [] && Good(presses[..|presses|-1])
    ensures var n := |presses| - 1;
            |Reports(Received(presses))| == |Reports(Received(presses[..n]))| + 1 <==>
            presses[n].details != [] && (n == 0 || !SamePress(presses[n-1], presses[n]))
  {
    var n := |presses| - 1;
    var before, p := presses[..n], presses[n];
    RunAddsOne(Received(before), p);
    EachPressOnce(before);
    if n == 0 {
      EventIdIsFaithful(p.timestamp, p.code, 0, 0);
    } else {
      EventIdIsFaithful(before[n-1].timestamp, before[n-1].code, p.timestamp, p.code);
    }
  }

  /**
    Nothing is reported too often, and as many presses are reported as were made exactly when each run keeps a
    packet and no two neighbouring presses share both timestamp and code.
  */
  lemma {:induction false} NoneMissedExactlyWhen(presses: seq<Press>)
    ensures |Reports(Received(presses))| <= |presses|
    ensures |Reports(Received(presses))| == |presses| <==> Good(presses)
  {
    if presses != [] {
      NoneMissedExactlyWhen(presses[..|presses|-1]);
      GoodExtends(presses);
      AtMostOneMore(presses);
      if Good(presses[..|presses|-1]) { OneMoreExactlyWhen(presses); }
    }
  }
}
