/**
  Filling gaps left by silence suppression: consecutive sequence numbers with a jump in
  the RTP timestamp. Sequence numbers are 16 bits wide and timestamps 32, and both wrap.
*/
module SilenceFiller {
  import opened Prelude

  datatype Packet = Packet(sn: U16, ts: U32)

  /** What reaches the decoder's side: a generated frame, or a packet passed on. */
  datatype Item = Silence | Forward(p: Packet)

  function Quotient(a: nat, b: nat): nat
    requires b > 0
  {
    a / b
  }

  /** The number of frames isSilenceSuppression reports missing between two packets. */
  function Missed(last: Packet, p: Packet, frame: nat): nat
    requires frame > 0
  {
    var expectedSeq := Wrap16(last.sn + 1);
    var expectedTS := Wrap32(last.ts + frame);
    var seqDiff := Wrap16(p.sn - expectedSeq);
    var tsDiff := Wrap32(p.ts - expectedTS);
    if seqDiff != 0 then 0 else Quotient(tsDiff, frame)
  }

  /** The number of silent frames written before packet p. */
  function Fill(before: seq<Packet>, p: Packet, frame: nat, maxGap: nat): (n: nat)
    requires frame > 0
    ensures n <= maxGap
  {
    if before == [] then 0
    else
      var n := Missed(before[|before|-1], p, frame);
      if n <= maxGap then n else 0
  }

  function Silences(n: nat): (s: seq<Item>)
    ensures |s| == n
  {
    if n == 0 then [] else Silences(n - 1) + [Silence]
  }

  /** Everything written for a stream of packets. */
  function Output(ps: seq<Packet>, frame: nat, maxGap: nat): seq<Item>
    requires frame > 0
  {
    if ps == [] then []
    else
      var before, p := ps[..|ps|-1], ps[|ps|-1];
      Output(before, frame, maxGap) + Silences(Fill(before, p, frame, maxGap)) + [Forward(p)]
  }

  /** The gaps a stream shows, and the frames they miss; a gap of more than a hundred times the limit is not one. */
  datatype Gaps = Gaps(count: nat, sum: nat)

  function GapsOf(ps: seq<Packet>, frame: nat, maxGap: nat): Gaps
    requires frame > 0
  {
    if |ps| <= 1 then Gaps(0, 0)
    else
      var g, n := GapsOf(ps[..|ps|-1], frame, maxGap), Missed(ps[|ps|-2], ps[|ps|-1], frame);
      if 0 < n <= maxGap * 100 then Gaps(g.count + 1, g.sum + n) else g
  }

  lemma GapsSnoc(ps: seq<Packet>, p: Packet, frame: nat, maxGap: nat)
    requires frame > 0
    ensures var g, n := GapsOf(ps, frame, maxGap), if ps == [] then 0 else Missed(ps[|ps|-1], p, frame);
            GapsOf(ps + [p], frame, maxGap) == if 0 < n <= maxGap * 100 then Gaps(g.count + 1, g.sum + n) else g
  {
    assert (ps + [p])[..|ps|] == ps;
  }

  lemma OutputSnoc(ps: seq<Packet>, p: Packet, frame: nat, maxGap: nat)
    requires frame > 0
    ensures Output(ps + [p], frame, maxGap) ==
              Output(ps, frame, maxGap) + Silences(Fill(ps, p, frame, maxGap)) + [Forward(p)]
  {
    assert (ps + [p])[..|ps|] == ps;
  }

  class Filler {
    const frame: nat                 // RTP clock ticks per frame
    const maxGapSize: nat
    var lastSeq: U16
    var lastTS: U32
    var packets: nat
    var gapCount: nat
    var gapSizeSum: nat
    var out: seq<Item>
    ghost var input: seq<Packet>
    ghost var failed: bool           // some silent frame could not be written

    ghost predicate Valid()
      reads this
    {
      && frame > 0 && packets == |input|
      && (input != [] ==> lastSeq == input[|input|-1].sn && lastTS == input[|input|-1].ts)
      && (!failed ==> out == Output(input, frame, maxGapSize))
      && Gaps(gapCount, gapSizeSum) == GapsOf(input, frame, maxGapSize)
    }

    constructor (ticks: nat, maxGap: nat)
      requires ticks > 0
      ensures Valid() && frame == ticks && maxGapSize == maxGap && input == [] && out == [] && !failed
    {
      frame, maxGapSize := ticks, maxGap;
      lastSeq, lastTS, packets, gapCount, gapSizeSum, out, input, failed := 0, 0, 0, 0, 0, [], [], false;
    }

    method IsSilenceSuppression(p: Packet) returns (suppressed: bool, missing: nat)
      requires frame > 0
      modifies this`packets, this`lastSeq, this`lastTS
      ensures packets == old(packets) + 1 && lastSeq == p.sn && lastTS == p.ts
      ensures suppressed <==> missing > 0
      ensures missing == if old(packets) == 0 then 0 else Missed(Packet(old(lastSeq), old(lastTS)), p, frame)
    {
      packets := packets + 1;
      var seq0: int, ts0: int := lastSeq, lastTS;
      lastSeq, lastTS := p.sn, p.ts;
      if packets == 1 { return false, 0; }
      var expectedSeq := Wrap16(seq0 + 1);
      var expectedTS := Wrap32(ts0 + frame);
      var seqDiff := Wrap16(p.sn - expectedSeq);
      var tsDiff := Wrap32(p.ts - expectedTS);
      if seqDiff != 0 { return false, 0; }
      var missedFrames := Quotient(tsDiff, frame);
      if missedFrames == 0 { return false, 0; }
      return true, missedFrames;
    }

    /** Writes n silent frames, unless the writer fails after `capacity` of them. */
    method FillWithSilence(n: nat, capacity: nat) returns (ok: bool)
      modifies this`out
      ensures ok <==> n <= capacity
      ensures ok ==> out == old(out) + Silences(n)
      ensures !ok ==> out == old(out) + Silences(capacity)
    {
      var left := n;
      while left > 0
        invariant 0 <= left <= n && n - left <= capacity
        invariant out == old(out) + Silences(n - left)
      {
        if n - left == capacity { return false; }
        out := out + [Silence];
        left := left - 1;
      }
      return true;
    }

    /** Counts a gap, and fills it if it is not too large. */
    method HandleGap(missing: nat, capacity: nat) returns (ok: bool)
      modifies this`gapCount, this`gapSizeSum, this`out
      ensures gapCount == old(gapCount) + 1 && gapSizeSum == old(gapSizeSum) + missing
      ensures var n := if missing <= maxGapSize then missing else 0;
              (ok <==> n <= capacity) && out == old(out) + Silences(if ok then n else capacity)
    {
      gapCount, gapSizeSum := gapCount + 1, gapSizeSum + missing;
      ok := true;
      if missing <= maxGapSize {
        ok := FillWithSilence(missing, capacity);
      }
    }

    /** Writes the frames a packet skipped and then the packet, unless the writer fails before. */
    method Emit(p: Packet, missing: nat, capacity: nat) returns (ok: bool)
      modifies this`gapCount, this`gapSizeSum, this`out
      ensures Gaps(gapCount, gapSizeSum) ==
              if 0 < missing <= maxGapSize * 100 then Gaps(old(gapCount) + 1, old(gapSizeSum) + missing)
              else Gaps(old(gapCount), old(gapSizeSum))
      ensures var n := if missing <= maxGapSize then missing else 0;
              && (ok <==> n <= capacity)
              && out == old(out) + if ok then Silences(n) + [Forward(p)] else Silences(capacity)
    {
      ok := true;
      if 0 < missing <= maxGapSize * 100 {
        ok := HandleGap(missing, capacity);
      }
      if ok {
        out := out + [Forward(p)];
      }
    }

    /** A packet is passed on after the frames it skipped, and dropped exactly if one of those could not be written. */
    method HandleRTP(p: Packet, capacity: nat) returns (ok: bool)
      requires Valid()
      modifies this
      ensures Valid() && input == old(input) + [p]
      ensures var n := Fill(old(input), p, frame, maxGapSize);
              && (ok <==> n <= capacity)
              && out == old(out) + if ok then Silences(n) + [Forward(p)] else Silences(capacity)
      ensures failed <==> old(failed) || !ok
    {
      ghost var n := Fill(input, p, frame, maxGapSize);
      OutputSnoc(input, p, frame, maxGapSize);
      GapsSnoc(input, p, frame, maxGapSize);
      var suppressed, missing := IsSilenceSuppression(p);
      assert n == if missing <= maxGapSize then missing else 0;
      input := input + [p];
      ok := Emit(p, if suppressed then missing else 0, capacity);
      if !ok { failed := true; }
    }
  }

  // ---- arbitrary input ----

  function Forwarded(out: seq<Item>): seq<Packet> {
    if out == [] then []
    else Forwarded(out[..|out|-1]) + if out[|out|-1].Forward? then [out[|out|-1].p] else []
  }

  lemma {:induction false} SilenceForwardsNothing(out: seq<Item>, n: nat)
    ensures Forwarded(out + Silences(n)) == Forwarded(out)
  {
    if n == 0 {
      assert out + Silences(0) == out;
    } else {
      SilenceForwardsNothing(out, n - 1);
      assert (out + Silences(n))[..|out + Silences(n)|-1] == out + Silences(n - 1);
    }
  }

  /** Any stream at all: every packet is passed on exactly once and in order. */
  lemma {:induction false} EveryPacketOnce(ps: seq<Packet>, frame: nat, maxGap: nat)
    requires frame > 0
    ensures Forwarded(Output(ps, frame, maxGap)) == ps
  {
    if ps != [] {
      var before, p := ps[..|ps|-1], ps[|ps|-1];
      EveryPacketOnce(before, frame, maxGap);
      var out := Output(before, frame, maxGap);
      var n := Fill(before, p, frame, maxGap);
      SilenceForwardsNothing(out, n);
      assert (out + Silences(n) + [Forward(p)])[..|out| + n] == out + Silences(n);
    }
  }

  /** Any stream at all: at most maxGap silent frames per packet. */
  lemma {:induction false} BoundedSilence(ps: seq<Packet>, frame: nat, maxGap: nat)
    requires frame > 0
    ensures |Output(ps, frame, maxGap)| <= |ps| * (maxGap + 1)
  {
    if ps != [] {
      BoundedSilence(ps[..|ps|-1], frame, maxGap);
      assert |ps| * (maxGap + 1) == (|ps| - 1) * (maxGap + 1) + (maxGap + 1);
    }
  }

  // ---- the timeline ----

  /** A sender's own view, without wrap-around: sample clock of each packet, in frames skipped before it. */
  ghost predicate Timeline(ts: seq<nat>, gaps: seq<nat>, frame: nat, maxGap: nat) {
    && |ts| == |gaps|
    && forall i | 0 < i < |ts| ::
         gaps[i] <= maxGap && gaps[i] * frame < TWO32 && ts[i] == ts[i-1] + frame + gaps[i] * frame
  }

  /** What of it travels in packet headers, the first packet carrying sequence number sn0. */
  function OnTheWire(ts: seq<nat>, sn0: nat): seq<Packet> {
    seq(|ts|, i requires 0 <= i < |ts| => Packet(Wrap16(sn0 + i), Wrap32(ts[i])))
  }

  lemma {:induction false} Scale(a: nat, b: nat, frame: nat)
    requires a < b
    ensures a * frame + frame <= b * frame
  {
    if a + 1 < b { Scale(a, b - 1, frame); }
    OneMore(b - 1, frame);
  }

  lemma OneMore(a: nat, frame: nat)
    ensures (a + 1) * frame == a * frame + frame
  {
  }

  lemma {:induction false} DivideBack(g: nat, frame: nat)
    requires frame > 0
    ensures Quotient(g * frame, frame) == g
  {
    var k := g * frame;
    var q := k / frame;
    assert k == q * frame + k % frame;
    if q < g {
      Scale(q, g, frame);
      assert false;
    } else if g < q {
      Scale(g, q, frame);
      assert false;
    }
  }

  lemma OneStep(before: nat, g: nat, frame: nat)
    ensures (before + g) * frame == (before - 1) * frame + frame + g * frame
  {
  }

  lemma SequenceStep(sn: nat)
    ensures Wrap16(Wrap16(sn) + 1) == Wrap16(sn + 1)
  {
  }

  lemma MissedFrom(last: Packet, p: Packet, frame: nat, k: nat)
    requires frame > 0 && p.sn == Wrap16(last.sn + 1) && Wrap32(p.ts - Wrap32(last.ts + frame)) == k
    ensures Missed(last, p, frame) == Quotient(k, frame)
  {
  }

  /** Across any wrap, the frames reported missing are the frames skipped. */
  lemma MissedIsTheGap(sn: nat, t: nat, g: nat, frame: nat)
    requires frame > 0 && g * frame < TWO32
    ensures Missed(Packet(Wrap16(sn), Wrap32(t)), Packet(Wrap16(sn + 1), Wrap32(t + frame + g * frame)), frame) == g
  {
    var k := g * frame;
    TimestampGap(t, frame, k);
    SequenceStep(sn);
    MissedFrom(Packet(Wrap16(sn), Wrap32(t)), Packet(Wrap16(sn + 1), Wrap32(t + frame + k)), frame, k);
    DivideBack(g, frame);
  }

  lemma TimestampGap(t: nat, frame: nat, k: nat)
    requires k < TWO32
    ensures Wrap32(Wrap32(t + frame + k) - Wrap32(Wrap32(t) + frame)) == k
  {
    var b := t + frame;
    Wrap32Sum(t, frame);
    Wrap32Difference(b + k, b);
    Wrap32Small(k);
  }

  lemma {:induction false} FillIsTheGap(ts: seq<nat>, gaps: seq<nat>, sn0: nat, frame: nat, maxGap: nat)
    requires frame > 0 && |ts| > 1 && Timeline(ts, gaps, frame, maxGap)
    ensures var ps := OnTheWire(ts, sn0); Fill(ps[..|ps|-1], ps[|ps|-1], frame, maxGap) == gaps[|gaps|-1]
  {
    MissedIsTheGap(sn0 + |ts| - 2, ts[|ts|-2], gaps[|gaps|-1], frame);
  }

  lemma {:induction false} OutputGrows(ts: seq<nat>, gaps: seq<nat>, sn0: nat, frame: nat, maxGap: nat)
    requires frame > 0 && |ts| > 1 && Timeline(ts, gaps, frame, maxGap)
    ensures |Output(OnTheWire(ts, sn0), frame, maxGap)| ==
              |Output(OnTheWire(ts[..|ts|-1], sn0), frame, maxGap)| + gaps[|gaps|-1] + 1
  {
    FillIsTheGap(ts, gaps, sn0, frame, maxGap);
    assert OnTheWire(ts, sn0)[..|ts|-1] == OnTheWire(ts[..|ts|-1], sn0);
  }

  /**
    The filler restores the timeline: for consecutive sequence numbers and frame-aligned gaps of at most maxGap
    frames, packet n is preceded by exactly (T_n - T_0) / frame items, across any number of wraps.
  */
  lemma {:induction false} RestoresTimeline(ts: seq<nat>, gaps: seq<nat>, sn0: nat, frame: nat, maxGap: nat)
    requires frame > 0 && ts != [] && Timeline(ts, gaps, frame, maxGap)
    ensures ts[|ts|-1] == ts[0] + (|Output(OnTheWire(ts, sn0), frame, maxGap)| - 1) * frame
  {
    var n := |ts| - 1;
    if n == 0 {
      assert OnTheWire(ts, sn0)[..0] == [];
      assert |Output(OnTheWire(ts, sn0), frame, maxGap)| == 1;
    } else {
      RestoresTimeline(ts[..n], gaps[..n], sn0, frame, maxGap);
      OutputGrows(ts, gaps, sn0, frame, maxGap);
      OneStep(|Output(OnTheWire(ts[..n], sn0), frame, maxGap)|, gaps[n], frame);
    }
  }

  // ---- any two packets ----

  /** Only consecutive sequence numbers can show suppressed silence; a loss or a reordering never does. */
  lemma SkippedNumbersAreNoSilence(last: Packet, p: Packet, frame: nat)
    requires frame > 0 && p.sn != Wrap16(last.sn + 1)
    ensures Missed(last, p, frame) == 0
  {
    assert -0x1_0000 < p.sn - Wrap16(last.sn + 1) < 0x1_0000;
  }

  lemma QuotientBounds(a: nat, b: nat)
    requires b > 0
    ensures Quotient(a, b) * b <= a < Quotient(a, b) * b + b
  {
    assert a == (a / b) * b + a % b;
  }

  /** Across any wrap, a jump that is no whole number of frames counts as the whole frames it contains. */
  lemma MissedRoundsDown(sn: nat, t: nat, k: nat, frame: nat)
    requires frame > 0 && k < TWO32
    ensures var n := Missed(Packet(Wrap16(sn), Wrap32(t)), Packet(Wrap16(sn + 1), Wrap32(t + frame + k)), frame);
            n * frame <= k < n * frame + frame
  {
    TimestampGap(t, frame, k);
    SequenceStep(sn);
    MissedFrom(Packet(Wrap16(sn), Wrap32(t)), Packet(Wrap16(sn + 1), Wrap32(t + frame + k)), frame, k);
    QuotientBounds(k, frame);
  }

  /** A gap above the limit is not filled at all, not even in part. */
  lemma TooLargeIsNotFilled(ps: seq<Packet>, p: Packet, frame: nat, maxGap: nat)
    requires frame > 0 && ps != [] && Missed(ps[|ps|-1], p, frame) > maxGap
    ensures Output(ps + [p], frame, maxGap) == Output(ps, frame, maxGap) + [Forward(p)]
  {
    OutputSnoc(ps, p, frame, maxGap);
    assert Output(ps, frame, maxGap) + Silences(0) == Output(ps, frame, maxGap);
  }

  /** The first packet is passed on as it is. */
  lemma FirstIsForwarded(p: Packet, frame: nat, maxGap: nat)
    requires frame > 0
    ensures Output([p], frame, maxGap) == [Forward(p)]
  {
    assert [p][..0] == [];
  }
}
