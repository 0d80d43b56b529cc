/** Accounting of RTP sequence numbers: gaps, late packets and resets, over 16-bit numbers that wrap. */
module RtpStats {
  import opened Prelude

  const FRAMES_PER_SEC := 50
  const MAX_POSITIVE := 30 * FRAMES_PER_SEC
  const MAX_NEGATIVE := -5 * FRAMES_PER_SEC

  /** The difference of two sequence numbers as a signed 16-bit value. */
  function Diff16(cur: U16, prev: U16): (d: int)
    ensures -0x8000 <= d < 0x8000
    ensures Wrap16(prev + d) == cur
  {
    var u := Wrap16(cur - prev);
    if u >= 0x8000 then u - TWO16 else u
  }

  /** Every way a packet can follow the one before it. */
  datatype Totals = Totals(units: nat, duplicates: nat, gaps: nat, gapsSum: nat, late: nat, lateSum: nat, resets: nat,
                           resetSum: int)

  const Zero := Totals(0, 0, 0, 0, 0, 0, 0, 0)

  function Add(t: Totals, d: int): Totals {
    if d > MAX_POSITIVE || d < MAX_NEGATIVE then t.(resets := t.resets + 1, resetSum := t.resetSum + d)
    else if d < 0 then t.(late := t.late + 1, lateSum := t.lateSum - d)
    else if d == 0 then t.(duplicates := t.duplicates + 1)
    else if d == 1 then t.(units := t.units + 1)
    else t.(gaps := t.gaps + 1, gapsSum := t.gapsSum + d)
  }

  /** The totals of a whole stream. */
  function Account(sns: seq<U16>): Totals {
    if |sns| <= 1 then Zero
    else Add(Account(sns[..|sns|-1]), Diff16(sns[|sns|-1], sns[|sns|-2]))
  }

  lemma {:induction false} AccountSnoc(sns: seq<U16>, sn: U16)
    ensures Account(sns + [sn]) == if sns == [] then Zero else Add(Account(sns), Diff16(sn, sns[|sns|-1]))
  {
    assert (sns + [sn])[..|sns|] == sns;
  }

  const RAPID_BELOW := 10      // milliseconds: half a frame
  const DELAYED_ABOVE := 30    // milliseconds: a frame and a half

  /** How the arrival times of a stream are spread. */
  datatype Timing = Timing(rapid: nat, delayed: nat, delayedSum: int)

  function TimingOf(times: seq<int>): Timing {
    if |times| <= 1 then Timing(0, 0, 0)
    else
      var t, since := TimingOf(times[..|times|-1]), times[|times|-1] - times[|times|-2];
      if since < RAPID_BELOW then t.(rapid := t.rapid + 1)
      else if since > DELAYED_ABOVE then t.(delayed := t.delayed + 1, delayedSum := t.delayedSum + since)
      else t
  }

  lemma {:induction false} TimingSnoc(times: seq<int>, now: int)
    requires times != []
    ensures var t, since := TimingOf(times), now - times[|times|-1];
            TimingOf(times + [now]) ==
            if since < RAPID_BELOW then t.(rapid := t.rapid + 1)
            else if since > DELAYED_ABOVE then t.(delayed := t.delayed + 1, delayedSum := t.delayedSum + since)
            else t
  {
    assert (times + [now])[..|times|] == times;
  }

  predicate Ascending(times: seq<int>) { forall i | 0 < i < |times| :: times[i-1] <= times[i] }

  /**
    Any stream on a clock that does not run backwards: the delays fit into its duration, and each exceeds the
    threshold.
  */
  lemma {:induction false} DelaysFitTheDuration(times: seq<int>)
    requires times != [] && Ascending(times)
    ensures var t := TimingOf(times);
            && t.rapid + t.delayed <= |times| - 1
            && DELAYED_ABOVE * t.delayed <= t.delayedSum <= times[|times|-1] - times[0]
  {
    if |times| > 1 {
      DelaysFitTheDuration(times[..|times|-1]);
      assert times[|times|-2] <= times[|times|-1];
    }
  }

  class StreamStats {
    var packets: nat
    var lastSeq: U16
    var bytes: nat
    var resets: nat
    var gaps: nat
    var gapsSum: nat
    var late: nat
    var lateSum: nat
    var lastPacket: int
    var rapidPackets: nat
    var delayedPackets: nat
    var delayedSum: int
    ghost var seen: seq<U16>
    ghost var times: seq<int>    // arrival times, milliseconds

    ghost predicate Counted()
      reads this
    {
      var t := Account(seen);
      && packets == |seen| && (seen != [] ==> lastSeq == seen[|seen|-1])
      && resets == t.resets && gaps == t.gaps && gapsSum == t.gapsSum && late == t.late && lateSum == t.lateSum
    }

    ghost predicate Timed()
      reads this
    {
      && packets == |times| && (times != [] ==> lastPacket == times[|times|-1])
      && Timing(rapidPackets, delayedPackets, delayedSum) == TimingOf(times)
    }

    ghost predicate Valid()
      reads this
    {
      Counted() && Timed()
    }

    constructor ()
      ensures Valid() && seen == [] && times == [] && bytes == 0
    {
      packets, lastSeq, bytes, resets, gaps, gapsSum, late, lateSum, seen := 0, 0, 0, 0, 0, 0, 0, 0, [];
      lastPacket, rapidPackets, delayedPackets, delayedSum, times := 0, 0, 0, 0, [];
    }

    /** The part of HandleRTP that looks at the sequence number. */
    method CountSequence(sn: U16)
      requires Counted()
      modifies this`packets, this`lastSeq, this`resets, this`gaps, this`gapsSum, this`late, this`lateSum, this`seen
      ensures Counted() && seen == old(seen) + [sn]
    {
      packets := packets + 1;
      var prev := lastSeq;
      lastSeq := sn;
      if packets > 1 {
        var diff := Diff16(sn, prev);
        if diff > MAX_POSITIVE || diff < MAX_NEGATIVE {
          resets := resets + 1;
        } else if diff < 0 {
          late, lateSum := late + 1, lateSum - diff;
        } else if diff > 1 {
          gaps, gapsSum := gaps + 1, gapsSum + diff;
        }
      }
      AccountSnoc(seen, sn);
      seen := seen + [sn];
    }

    /** The part of it that looks at the clock; the packet itself has been counted. */
    method CountTime(now: int)
      requires packets == |times| + 1 && (times != [] ==> lastPacket == times[|times|-1])
      requires Timing(rapidPackets, delayedPackets, delayedSum) == TimingOf(times)
      modifies this`lastPacket, this`rapidPackets, this`delayedPackets, this`delayedSum, this`times
      ensures Timed() && times == old(times) + [now]
    {
      var last := lastPacket;
      lastPacket := now;
      if packets > 1 {
        TimingSnoc(times, now);
        var since := now - last;
        if since < RAPID_BELOW {
          rapidPackets := rapidPackets + 1;
        } else if since > DELAYED_ABOVE {
          delayedPackets, delayedSum := delayedPackets + 1, delayedSum + since;
        }
      }
      times := times + [now];
    }

    method HandleRTP(sn: U16, payload: nat, now: int)
      requires Valid()
      modifies this
      ensures Valid() && seen == old(seen) + [sn] && times == old(times) + [now] && bytes == old(bytes) + payload
    {
      bytes := bytes + payload;
      CountSequence(sn);
      CountTime(now);
    }
  }

  /** Any stream: every packet after the first is counted in exactly one way. */
  lemma {:induction false} EveryPacketCountedOnce(sns: seq<U16>)
    requires sns != []
    ensures var t := Account(sns); t.units + t.duplicates + t.gaps + t.late + t.resets == |sns| - 1
  {
    if |sns| > 1 { EveryPacketCountedOnce(sns[..|sns|-1]); }
  }

  /** Any stream: the sums account for the distance travelled, modulo the width of the field. */
  lemma {:induction false} SumsMatchDistance(sns: seq<U16>)
    requires sns != []
    ensures var t := Account(sns);
            && Wrap16(sns[0] + t.gapsSum - t.lateSum + t.units + t.resetSum) == sns[|sns|-1]
            && (t.resets == 0 ==> t.resetSum == 0)
  {
    if |sns| > 1 {
      SumsMatchDistance(sns[..|sns|-1]);
      var t, d := Account(sns[..|sns|-1]), Diff16(sns[|sns|-1], sns[|sns|-2]);
      Advance(sns[0] + t.gapsSum - t.lateSum + t.units + t.resetSum, sns[|sns|-2], d);
    }
  }

  lemma Advance(x: int, prev: U16, d: int)
    requires Wrap16(x) == prev
    ensures Wrap16(x + d) == Wrap16(prev + d)
  {
  }

  /** The sender's own numbering, without wrap-around, with every step inside the window. */
  predicate InWindow(xs: seq<int>) {
    forall i | 0 < i < |xs| :: MAX_NEGATIVE <= xs[i] - xs[i-1] <= MAX_POSITIVE
  }

  function OnTheWire(xs: seq<int>): seq<U16> { seq(|xs|, i requires 0 <= i < |xs| => Wrap16(xs[i])) }

  lemma StepSurvivesWrap(x: int, y: int)
    requires MAX_NEGATIVE <= y - x <= MAX_POSITIVE
    ensures Diff16(Wrap16(y), Wrap16(x)) == y - x
  {
    Wrap16Difference(y, x);
  }

  /** Inside the window the sums are the true distance, whatever wraps lie between, and nothing counts as a reset. */
  lemma {:induction false} SumsAreTheTrueDistance(xs: seq<int>)
    requires xs != [] && InWindow(xs)
    ensures var t := Account(OnTheWire(xs));
            t.resets == 0 && t.gapsSum - t.lateSum + t.units == xs[|xs|-1] - xs[0]
  {
    var n := |xs| - 1;
    if n > 0 {
      SumsAreTheTrueDistance(xs[..n]);
      StepSurvivesWrap(xs[n-1], xs[n]);
      assert OnTheWire(xs)[..n] == OnTheWire(xs[..n]);
    }
  }

  // ---- any step ----

  lemma StepSurvivesHalfWrap(x: int, y: int)
    requires -0x8000 <= y - x < 0x8000
    ensures Diff16(Wrap16(y), Wrap16(x)) == y - x
  {
    Wrap16Difference(y, x);
  }

  /**
    What one more packet adds, by its distance in the sender's own numbering: 0 is a duplicate, 1 the next packet, up
    to 1500 ahead a gap of that size, up to 250 back late by that much, and anything further, either way, a reset.
  */
  lemma {:induction false} StepIsClassified(sns: seq<U16>, x: int, y: int)
    requires sns != [] && sns[|sns|-1] == Wrap16(x) && -0x8000 <= y - x < 0x8000
    ensures var t, u, d := Account(sns), Account(sns + [Wrap16(y)]), y - x;
            && (d == 0 ==> u == t.(duplicates := t.duplicates + 1))
            && (d == 1 ==> u == t.(units := t.units + 1))
            && (2 <= d <= 1500 ==> u == t.(gaps := t.gaps + 1, gapsSum := t.gapsSum + d))
            && (-250 <= d <= -1 ==> u == t.(late := t.late + 1, lateSum := t.lateSum - d))
            && (d > 1500 || d < -250 ==> u == t.(resets := t.resets + 1, resetSum := t.resetSum + d))
  {
    StepSurvivesHalfWrap(x, y);
    AccountSnoc(sns, Wrap16(y));
  }
}
