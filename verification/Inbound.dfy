/**
  The inbound dialog (user agent server): the fields the bridge updates under its
  mutex, and the operations on them. Each operation is atomic; the ghost trace records
  what it put on the wire. Sending a response does not fail.
*/
module Inbound {
  import opened Prelude
  import opened InboundTrace
  import opened Numbering

  const RETRY_INTERVAL := 250          // milliseconds
  const RETRY_INTERVAL_MAX := 3_000
  const RETRY_ATTEMPTS := 5
  const RETRY_ATTEMPTS_NO_ACK := 2

  /** The bridge's three stages of a call, as far as this object is concerned. */
  datatype Stage = Pending | Established | Over

  datatype AcceptError = AlreadyRejected | NoACK

  function MaxRetries(udp: bool, waitAck: bool): nat {
    if !udp then 1 else if waitAck then RETRY_ATTEMPTS else RETRY_ATTEMPTS_NO_ACK
  }

  function MaxCopies(udp: bool, waitAck: bool): nat {
    if !udp && !waitAck then 1 else MaxRetries(udp, waitAck) + 1
  }

  /** How long the k-th copy of the 200 waits for an ACK. */
  function Interval(udp: bool, k: nat): nat {
    if k <= 1 then if udp then RETRY_INTERVAL else RETRY_INTERVAL_MAX
    else if 2 * Interval(udp, k - 1) < RETRY_INTERVAL_MAX then 2 * Interval(udp, k - 1) else RETRY_INTERVAL_MAX
  }

  /** When the k-th copy is sent, counted from the first. */
  function SentAt(udp: bool, k: nat): nat {
    if k <= 1 then 0 else SentAt(udp, k - 1) + Interval(udp, k - 1)
  }

  /** When ACKs are not waited for, all copies leave within 750 ms; otherwise within 6.75 s. */
  lemma CopiesLeaveInTime(udp: bool, waitAck: bool, k: nat)
    requires 1 <= k <= MaxCopies(udp, waitAck)
    ensures SentAt(udp, k) <= if waitAck then 6_750 else 750
  {
    if udp {
      assert Interval(true, 1) == 250 && SentAt(true, 2) == 250;
      assert Interval(true, 2) == 500 && SentAt(true, 3) == 750;
      assert Interval(true, 3) == 1_000 && SentAt(true, 4) == 1_750;
      assert Interval(true, 4) == 2_000 && SentAt(true, 5) == 3_750;
      assert Interval(true, 5) == 3_000 && SentAt(true, 6) == 6_750;
    }
  }

  /** The retry schedule, copy by copy: over UDP at 0, 250, 750, 1750, 3750 and 6750 ms; otherwise at 0 and 3000 ms. */
  lemma CopyTimes()
    ensures MaxCopies(true, true) == 6 && MaxCopies(true, false) == 3
    ensures MaxCopies(false, true) == 2 && MaxCopies(false, false) == 1
    ensures SentAt(true, 1) == 0 && SentAt(true, 2) == 250 && SentAt(true, 3) == 750
    ensures SentAt(true, 4) == 1_750 && SentAt(true, 5) == 3_750 && SentAt(true, 6) == 6_750
    ensures SentAt(false, 1) == 0 && SentAt(false, 2) == 3_000
  {
    assert Interval(true, 1) == 250 && Interval(true, 2) == 500 && Interval(true, 3) == 1_000;
    assert Interval(true, 4) == 2_000 && Interval(true, 5) == 3_000;
  }

  function Oks(n: nat): seq<Msg> { if n == 0 then [] else Oks(n - 1) + [Response(200)] }

  /** Any number of copies up to the limit keeps a ringing dialog within the grammar. */
  lemma {:induction false} OksAreLegal(trace: seq<Msg>, n: nat, first: CSeq, maxCopies: nat)
    requires Judge(trace, first, maxCopies) == Some(Early) && 1 <= n <= maxCopies
    ensures Judge(trace + Oks(n), first, maxCopies) == Some(Answered(n, false, first))
  {
    if n == 1 {
      assert Oks(1) == [Response(200)];
    } else {
      OksAreLegal(trace, n - 1, first, maxCopies);
      assert trace + Oks(n) == trace + Oks(n - 1) + [Response(200)];
    }
    JudgeSnoc(trace + Oks(n - 1), Response(200), first, maxCopies) by { assert trace + Oks(0) == trace; }
  }

  class SipInbound {
    const inviteCSeq: CSeq
    const udp: bool
    const waitAck: bool              // the InboundWaitACK option
    var invite: bool                 // not nil
    var inviteTx: bool
    var inviteOk: bool
    var nextRequestCSeq: CSeq
    var referCSeq: CSeq
    var ringing: Option<nat>         // the current stop channel
    var channels: nat                // stop channels made so far
    ghost var closedChannels: seq<nat>
    ghost var sent: seq<Msg>
    ghost var byesAnswered: nat      // 200s to the remote's BYEs
    ghost var terminated: nat        // how often the INVITE transaction was terminated

    function First(): CSeq { Bump(inviteCSeq) }
    function Limit(): nat { MaxCopies(udp, waitAck) }

    function Stage(): Stage
      reads `inviteTx, `inviteOk
    {
      if inviteTx then Pending else if inviteOk then Established else Over
    }

    /** What holds between any two statements. */
    ghost predicate Sound()
      reads `inviteTx, `ringing, `channels, `closedChannels, `sent, `terminated
    {
      && Legal(sent, First(), Limit())
      && terminated <= 1 && (inviteTx ==> terminated == 0)
      && (ringing.Some? ==> inviteTx && ringing.value < channels && ringing.value !in closedChannels)
      && (forall c | c in closedChannels :: c < channels)
      && (forall i, j | 0 <= i < j < |closedChannels| :: closedChannels[i] != closedChannels[j])
    }

    /** What holds whenever the mutex is free. */
    ghost predicate Valid()
      reads `invite, `inviteTx, `inviteOk, `nextRequestCSeq, `ringing, `channels, `closedChannels, `sent, `terminated
    {
      && Sound()
      && match Stage()
         case Pending => invite && !inviteOk && nextRequestCSeq == First() && Judge(sent, First(), Limit()).value.Early?
         case Established =>
           && invite && Judge(sent, First(), Limit()).value.Answered?
           && Judge(sent, First(), Limit()).value.next == nextRequestCSeq
         case Over => !invite && nextRequestCSeq == 0
    }

    constructor (cseq: CSeq, overUdp: bool, wait: bool)
      ensures Valid() && Stage() == Pending && sent == [] && terminated == 0
      ensures inviteCSeq == cseq && udp == overUdp && waitAck == wait
    {
      inviteCSeq, udp, waitAck := cseq, overUdp, wait;
      invite, inviteTx, inviteOk := true, true, false;
      nextRequestCSeq, referCSeq := Bump(cseq), 0;
      ringing, channels, closedChannels, sent, terminated, byesAnswered := None, 0, [], [], 0, 0;
    }

    method StopRinging()
      requires Sound()
      modifies this`ringing, this`closedChannels
      ensures Sound() && ringing.None?
      ensures closedChannels == old(closedChannels) + if old(ringing).Some? then [old(ringing).value] else []
    {
      if ringing.Some? {
        closedChannels := closedChannels + [ringing.value];
        ringing := None;
      }
    }

    method Drop()
      requires Sound()
      modifies this
      ensures byesAnswered == old(byesAnswered)
      ensures Valid() && Stage() == Over && sent == old(sent)
      ensures terminated == old(terminated) + if old(inviteTx) then 1 else 0
    {
      StopRinging();
      if inviteTx { terminated := terminated + 1; }
      inviteTx, invite, inviteOk, nextRequestCSeq := false, false, false, 0;
    }

    /** Puts a message the grammar allows on the wire. */
    method Record(m: Msg)
      requires Sound() && Follow(Judge(sent, First(), Limit()).value, m, First(), Limit()).Some?
      modifies `sent
      ensures Sound() && sent == old(sent) + [m]
      ensures Judge(sent, First(), Limit()) == Follow(old(Judge(sent, First(), Limit()).value), m, First(), Limit())
    {
      JudgeSnoc(sent, m, First(), Limit());
      sent := sent + [m];
    }

    /** A response to the INVITE, while its transaction is still ours. */
    method Respond(code: nat)
      requires Valid()
      modifies this`sent
      ensures sent == old(sent) + if inviteTx then [Response(code)] else []
      ensures Sound() && (code < 200 ==> Valid())
    {
      if inviteTx {
        Record(Response(code));
      }
    }

    method Processing()
      requires Valid()
      modifies this`sent
      ensures Valid() && sent == old(sent) + if inviteTx then [Response(100)] else []
    {
      Respond(100);
    }

    method StartRinging()
      requires Valid() && inviteTx
      modifies this
      ensures Valid() && Stage() == Pending && ringing.Some?
      ensures sent == old(sent) + [Response(180)]
    {
      Respond(180);
      assert channels !in closedChannels;
      ringing := Some(channels);
      channels := channels + 1;
    }

    /** A tick of the ringing goroutine; it may still run once after the stop channel is closed. */
    method RingTick()
      requires Valid()
      modifies this`sent
      ensures Valid() && sent == old(sent) + if inviteTx then [Response(180)] else []
    {
      Respond(180);
    }

    method RespondAndDrop(status: nat)
      requires Valid()
      modifies this
      ensures Valid() && Stage() == Over
      ensures sent == old(sent) + if old(inviteTx) then [Response(status)] else []
    {
      StopRinging();
      Respond(status);
      Drop();
    }

    /**
      The retry loop of Accept: repeats the 200 until an ACK arrives, which it does while the copy number
      `ackOn` waits for one (0: never), or the attempts are used up.
    */
    method SendOks(ackOn: nat) returns (noAck: bool, copies: nat, lastAt: nat)
      modifies this`sent
      ensures sent == old(sent) + Oks(copies) && 1 <= copies <= Limit()
      ensures lastAt == SentAt(udp, copies)
      ensures copies == if 1 <= ackOn <= Limit() then ackOn else Limit()
      ensures noAck <==> waitAck && !(1 <= ackOn <= Limit())
    {
      var retryAfter := if udp then RETRY_INTERVAL else RETRY_INTERVAL_MAX;
      var maxRetries := MaxRetries(udp, waitAck);
      noAck, copies, lastAt := false, 1, 0;
      while true
        invariant 1 <= copies <= maxRetries + 1 && (copies == 1 || Limit() == maxRetries + 1)
        invariant retryAfter == Interval(udp, copies) && lastAt == SentAt(udp, copies)
        invariant sent == old(sent) + Oks(copies - 1)
        invariant !noAck && !(1 <= ackOn < copies)
        decreases maxRetries + 1 - copies
      {
        sent := sent + [Response(200)];
        assert sent == old(sent) + Oks(copies);
        if !udp && !waitAck { break; }
        if copies == ackOn { break; }
        if copies > maxRetries {
          noAck := waitAck;
          break;
        }
        lastAt := lastAt + retryAfter;
        retryAfter := if 2 * retryAfter < RETRY_INTERVAL_MAX then 2 * retryAfter else RETRY_INTERVAL_MAX;
        copies := copies + 1;
      }
    }

    /** The 200 went out: the dialog is established, and a missing ACK does not undo that. */
    method Accepted(copies: nat)
      requires Sound() && inviteTx && ringing.None? && invite && nextRequestCSeq == First()
      requires Judge(sent, First(), Limit()) == Some(Answered(copies, false, First()))
      modifies this`inviteOk, this`inviteTx
      ensures Valid() && Stage() == Established
    {
      inviteOk, inviteTx := true, false;
    }

    /** The accepting end: the copies, and the dialog established whether or not an ACK came. */
    method Answer(ackOn: nat) returns (noAck: bool, copies: nat, lastAt: nat)
      requires Valid() && inviteTx && ringing.None?
      modifies this`sent, this`inviteOk, this`inviteTx
      ensures Valid() && Stage() == Established && sent == old(sent) + Oks(copies)
      ensures 1 <= copies == if 1 <= ackOn <= Limit() then ackOn else Limit()
      ensures lastAt == SentAt(udp, copies) && (noAck <==> waitAck && !(1 <= ackOn <= Limit()))
    {
      ghost var was := sent;
      noAck, copies, lastAt := SendOks(ackOn);
      OksAreLegal(was, copies, First(), Limit());
      Accepted(copies);
    }

    method Accept(ackOn: nat) returns (err: Option<AcceptError>, copies: nat, lastAt: nat)
      requires Valid()
      modifies this
      ensures Valid()
      ensures !old(inviteTx) ==> err == Some(AlreadyRejected) && unchanged(this)
      ensures old(inviteTx) ==> Stage() == Established && sent == old(sent) + Oks(copies)
      ensures old(inviteTx) ==> copies == if 1 <= ackOn <= Limit() then ackOn else Limit()
      ensures old(inviteTx) ==> lastAt == SentAt(udp, copies) <= if waitAck then 6_750 else 750
      ensures old(inviteTx) ==> err == if waitAck && !(1 <= ackOn <= Limit()) then Some(NoACK) else None
    {
      if !inviteTx { return Some(AlreadyRejected), 0, 0; }
      StopRinging();
      var noAck;
      noAck, copies, lastAt := Answer(ackOn);
      assert SentAt(udp, copies) <= if waitAck then 6_750 else 750 by { CopiesLeaveInTime(udp, waitAck, copies); }
      err := if noAck then Some(NoACK) else None;
    }

    method AcceptBye()
      requires Valid()
      modifies this
      ensures Valid() && Stage() == Over && sent == old(sent) + [ByeTaken] && byesAnswered == old(byesAnswered) + 1
    {
      byesAnswered := byesAnswered + 1;
      Drop();
      Record(ByeTaken);
    }

    method TakeCSeq() returns (cseq: CSeq)
      modifies this`nextRequestCSeq
      ensures cseq == old(nextRequestCSeq) && nextRequestCSeq == Bump(cseq)
    {
      cseq := nextRequestCSeq;
      nextRequestCSeq := Bump(nextRequestCSeq);
    }

    method SendBye()
      requires Valid()
      modifies this
      ensures Valid()
      ensures !old(inviteOk) ==> unchanged(this)
      ensures old(inviteOk) ==> Stage() == Over && sent == old(sent) + [Bye(old(nextRequestCSeq))]
    {
      if !inviteOk || !invite { return; }
      var cseq := TakeCSeq();
      Drop();
      Record(Bye(cseq));
    }

    /** A zero code becomes 503. */
    method SendStatus(code: nat)
      requires Valid()
      modifies this
      ensures Valid()
      ensures !old(inviteTx) ==> unchanged(this)
      ensures old(inviteTx) ==> Stage() == Over && sent == old(sent) + [Response(if code == 0 then 503 else code)]
    {
      if inviteOk || !inviteTx { return; }
      Respond(if code == 0 then 503 else code);
      Drop();
    }

    method CloseWithStatus(code: nat)
      requires Valid()
      modifies this
      ensures Valid() && Stage() == Over
      ensures sent == old(sent) + match old(Stage())
                                  case Pending => [Response(if code == 0 then 503 else code)]
                                  case Established => [Bye(old(nextRequestCSeq))]
                                  case Over => []
    {
      if inviteOk { SendBye(); } else if inviteTx { SendStatus(code); } else { Drop(); }
    }

    method NewReferReq() returns (ok: bool)
      requires Valid()
      modifies this
      ensures Valid() && Stage() == old(Stage())
      ensures ok <==> Stage() == Established
      ensures sent == old(sent) + if ok then [Refer(old(nextRequestCSeq))] else []
      ensures ok ==> referCSeq == old(nextRequestCSeq)
    {
      if !invite || !inviteOk { return false; }
      var cseq := TakeCSeq();
      referCSeq := cseq;
      Record(Refer(cseq));
      return true;
    }
  }

  // ---- whole calls ----

  datatype Op =
    | DoProcessing | DoStartRinging | DoRingTick | DoRespondAndDrop(status: nat) | DoAccept(ackOn: nat)
    | DoAcceptBye | DoCloseWithStatus(code: nat) | DoRefer | DoDrop

  /** Every sequence of operations on a fresh inbound dialog puts a legal trace on the wire. */
  method Drive(cseq: CSeq, udp: bool, waitAck: bool, ops: seq<Op>) returns (c: SipInbound)
    ensures fresh(c) && c.Valid() && c.inviteCSeq == cseq && c.udp == udp && c.waitAck == waitAck
    ensures Legal(c.sent, Bump(cseq), MaxCopies(udp, waitAck)) && c.terminated <= 1
    ensures forall i, j | 0 <= i < j < |c.closedChannels| :: c.closedChannels[i] != c.closedChannels[j]
    ensures OneFinalResponse(c.sent) && NothingAfterTheEnd(c.sent) && RequestsInDialog(c.sent)
    ensures Counted(c.sent, Bump(cseq), MaxCopies(udp, waitAck))
  {
    c := new SipInbound(cseq, udp, waitAck);
    for i := 0 to |ops|
      invariant fresh(c) && c.Valid() && c.inviteCSeq == cseq && c.udp == udp && c.waitAck == waitAck
    {
      match ops[i] {
        case DoProcessing => c.Processing();
        case DoStartRinging => if c.inviteTx { c.StartRinging(); }
        case DoRingTick => c.RingTick();
        case DoRespondAndDrop(status) => c.RespondAndDrop(status);
        case DoAccept(ackOn) => var _, _, _ := c.Accept(ackOn);
        case DoAcceptBye => c.AcceptBye();
        case DoCloseWithStatus(code) => c.CloseWithStatus(code);
        case DoRefer => var _ := c.NewReferReq();
        case DoDrop => c.Drop();
      }
    }
    LegalMeansOneFinalResponse(c.sent, c.First(), c.Limit());
    LegalMeansNothingAfterTheEnd(c.sent, c.First(), c.Limit());
    LegalMeansRequestsInDialog(c.sent, c.First(), c.Limit());
    LegalTraceSummary(c.sent, c.First(), c.Limit());
  }
}
