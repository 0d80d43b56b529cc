/**
  Draining a media port after a call: swallow late RTP until the port has been quiet for
  the idle timeout or a hard limit is reached, then close it. The socket and the clock are
  the environment: a list of reads, each with the time its deadline was computed, the time
  it returned, and how.
*/
module DrainPort {
  import opened Prelude

  const SECOND := 1_000_000_000

  datatype ReadKind = GotPacket | DeadlineExceeded | Failed
  datatype Read = Read(began: int, returned: int, kind: ReadKind)
  datatype Reason = MaxDuration | IdleTimeout | ReadError
  datatype Outcome = ClosedAtOnce | Released(reason: Reason) | StillDraining
  datatype Effect = CloseConn | CloseDone

  /** Timeouts in force: the idle one is stretched beyond the hard limit when disabled. */
  datatype Limits = Limits(start: int, idleTimeout: int, maxDuration: int) {
    predicate Active() { idleTimeout > 0 || maxDuration > 0 }

    function Idle(): int {
      if idleTimeout <= 0 then maxDuration + SECOND else idleTimeout
    }

    function HardLimit(): int { start + maxDuration }

    function Deadline(began: int): int {
      if maxDuration > 0 && HardLimit() < began + Idle() then HardLimit() else began + Idle()
    }

    /** What a read decides: nothing for a packet, or for an interruption before its own deadline has passed. */
    function Verdict(r: Read): Option<Reason> {
      match r.kind
      case GotPacket => None
      case Failed => Some(ReadError)
      case DeadlineExceeded =>
        if maxDuration > 0 && r.returned > HardLimit() then Some(MaxDuration)
        else if r.returned > Deadline(r.began) then Some(IdleTimeout)
        else None
    }
  }

  /** Time does not run backwards. */
  predicate Ordered(start: int, rs: seq<Read>) {
    && (forall i | 0 <= i < |rs| :: start <= rs[i].began <= rs[i].returned)
    && (forall i, j | 0 <= i < j < |rs| :: rs[i].returned <= rs[j].began)
  }

  /** A read never yields a packet once its deadline is over. */
  predicate DeadlinesHold(l: Limits, rs: seq<Read>) {
    forall i | 0 <= i < |rs| && rs[i].kind.GotPacket? :: rs[i].returned <= l.Deadline(rs[i].began)
  }

  function Packets(rs: seq<Read>): nat {
    if rs == [] then 0
    else Packets(rs[..|rs|-1]) + if rs[|rs|-1].kind.GotPacket? then 1 else 0
  }

  predicate Undecided(l: Limits, rs: seq<Read>) {
    forall i | 0 <= i < |rs| :: l.Verdict(rs[i]).None?
  }

  /** Drains until a read decides, and always closes the socket before it signals completion. */
  method DrainPort(l: Limits, hasDone: bool, rs: seq<Read>)
    returns (o: Outcome, used: nat, packets: nat, effects: seq<Effect>)
    ensures o.ClosedAtOnce? <==> !l.Active()
    ensures used <= |rs| && (o.ClosedAtOnce? ==> used == 0)
    ensures packets == Packets(rs[..used])
    ensures o.StillDraining? ==> used == |rs| && Undecided(l, rs)
    ensures o.Released? ==> used > 0 && Undecided(l, rs[..used-1]) && l.Verdict(rs[used-1]) == Some(o.reason)
    ensures effects == if o.StillDraining? then [] else [CloseConn] + if hasDone then [CloseDone] else []
  {
    used, packets, effects := 0, 0, [];
    var closing := if hasDone then [CloseConn, CloseDone] else [CloseConn];
    if l.idleTimeout <= 0 && l.maxDuration <= 0 {
      return ClosedAtOnce, used, packets, closing;
    }
    var idle := if l.idleTimeout <= 0 then l.maxDuration + SECOND else l.idleTimeout;
    while used < |rs|
      invariant used <= |rs| && packets == Packets(rs[..used]) && Undecided(l, rs[..used])
    {
      var r := rs[used];
      var currentDeadline := r.began + idle;
      if l.maxDuration > 0 && l.start + l.maxDuration < currentDeadline {
        currentDeadline := l.start + l.maxDuration;
      }
      used := used + 1;
      assert rs[..used][..used-1] == rs[..used-1];
      if r.kind.GotPacket? {
        packets := packets + 1;
      } else {
        var reason := ReadError;
        if r.kind.DeadlineExceeded? {
          if l.maxDuration > 0 && r.returned > l.start + l.maxDuration {
            reason := MaxDuration;
          } else if r.returned > currentDeadline {
            reason := IdleTimeout;
          } else {
            continue;
          }
        }
        return Released(reason), used, packets, closing;
      }
    }
    assert rs[..used] == rs;
    o := StillDraining;
  }

  /**
    A port released as idle had an idle timeout, has heard nothing for longer than it, and is within the hard limit.
  */
  lemma IdleMeansQuiet(l: Limits, rs: seq<Read>)
    requires l.Active() && Ordered(l.start, rs) && rs != []
    requires l.Verdict(rs[|rs|-1]) == Some(IdleTimeout)
    ensures l.idleTimeout > 0 && (l.maxDuration > 0 ==> rs[|rs|-1].returned <= l.HardLimit())
    ensures forall j | 0 <= j < |rs| && rs[j].kind.GotPacket? ::
              rs[|rs|-1].returned - rs[j].returned > l.idleTimeout
  {
    var last := rs[|rs|-1];
    assert last.returned > l.Deadline(last.began);
    forall j | 0 <= j < |rs| && rs[j].kind.GotPacket? ensures last.returned - rs[j].returned > l.idleTimeout {
      assert rs[j].returned <= last.began;
    }
  }

  /**
    Draining cannot go on past the hard limit: every read before the deciding one returned by then, so at most one
    read begins after it, and that one swallows no packet.
  */
  lemma HardLimitHolds(l: Limits, rs: seq<Read>, used: nat)
    requires l.maxDuration > 0 && Ordered(l.start, rs) && DeadlinesHold(l, rs) && used <= |rs|
    requires used > 0 ==> Undecided(l, rs[..used-1])
    ensures forall j | 0 <= j < used - 1 :: rs[j].returned <= l.HardLimit()
    ensures forall j | 0 <= j < used && rs[j].kind.GotPacket? :: rs[j].returned <= l.HardLimit()
    ensures used > 0 && rs[used-1].began > l.HardLimit() ==>
              l.Verdict(rs[used-1]) in {Some(MaxDuration), Some(ReadError)}
  {
    forall j | 0 <= j < used - 1 ensures rs[j].returned <= l.HardLimit() {
      assert rs[..used-1][j] == rs[j];
    }
  }

  /** Without a usable idle timeout a port is never given up for being quiet: the hard limit or an error ends it. */
  lemma OnlyTheHardLimit(l: Limits, rs: seq<Read>, j: nat)
    requires l.idleTimeout <= 0 < l.maxDuration && Ordered(l.start, rs) && j < |rs|
    ensures l.Verdict(rs[j]) == Some(MaxDuration) <==>
              rs[j].kind.DeadlineExceeded? && rs[j].returned > l.Deadline(rs[j].began)
    ensures l.Verdict(rs[j]) != Some(IdleTimeout)
  {
    assert l.Deadline(rs[j].began) == l.HardLimit();
  }

  /** A read that its own idle deadline ended releases the port. */
  lemma QuietIsReleased(l: Limits, r: Read)
    requires l.idleTimeout > 0 && r.kind.DeadlineExceeded? && r.returned > r.began + l.idleTimeout
    ensures l.Verdict(r) ==
            Some(if l.maxDuration > 0 && r.returned > l.start + l.maxDuration then MaxDuration else IdleTimeout)
  {
  }

  /** An interruption before any deadline is over changes nothing. */
  lemma EarlyInterruptionIsIgnored(l: Limits, r: Read)
    requires l.idleTimeout > 0 && r.kind.DeadlineExceeded? && r.returned <= r.began + l.idleTimeout
    requires l.maxDuration > 0 ==> r.returned <= l.start + l.maxDuration
    ensures l.Verdict(r) == None
  {
  }
}
