/**
  What a user agent server may put on the wire for one INVITE, independent of how the
  bridge decides to: the reference the inbound dialog is proved against. Sections
  12, 13.3.1.4, 15 and 17.2.1 of RFC 3261.
*/
module InboundTrace {
  import opened Numbering
  import opened Prelude

  datatype Msg =
    | Response(code: nat)      // to the INVITE
    | Refer(cseq: CSeq)
    | Bye(cseq: CSeq)
    | ByeTaken                 // the remote's BYE took effect

  datatype Progress =
    | Early
    | Answered(copies: nat, referred: bool, next: CSeq)
    | Ended

  /** The dialog's message grammar, one message at a time; None is a violation. */
  function Follow(p: Progress, m: Msg, first: CSeq, maxCopies: nat): Option<Progress> {
    match (p, m)
    case (_, ByeTaken) => Some(Ended)
    case (Early, Response(code)) =>
      if code < 200 then Some(Early)
      else if code == 200 && maxCopies > 0 then Some(Answered(1, false, first))
      else if code == 200 then None
      else Some(Ended)
    case (Answered(copies, referred, next), Response(code)) =>
      if code == 200 && copies < maxCopies && !referred then Some(Answered(copies + 1, false, next)) else None
    case (Answered(copies, _, next), Refer(cseq)) =>
      if cseq == next then Some(Answered(copies, true, Bump(next))) else None
    case (Answered(_, _, next), Bye(cseq)) => if cseq == next then Some(Ended) else None
    case _ => None
  }

  /** Where a trace leads; None if it breaks the grammar. */
  function Judge(trace: seq<Msg>, first: CSeq, maxCopies: nat): Option<Progress> {
    if trace == [] then Some(Early)
    else
      var p := Judge(trace[..|trace|-1], first, maxCopies);
      if p.None? then None else Follow(p.value, trace[|trace|-1], first, maxCopies)
  }

  predicate Legal(trace: seq<Msg>, first: CSeq, maxCopies: nat) { Judge(trace, first, maxCopies).Some? }

  lemma JudgeSnoc(trace: seq<Msg>, m: Msg, first: CSeq, maxCopies: nat)
    requires Legal(trace, first, maxCopies)
    ensures Judge(trace + [m], first, maxCopies) == Follow(Judge(trace, first, maxCopies).value, m, first, maxCopies)
  {
    assert (trace + [m])[..|trace|] == trace;
  }

  // ---- what the grammar means, message by message ----

  predicate IsFinal(m: Msg) { m.Response? && m.code >= 200 }
  predicate IsRequest(m: Msg) { m.Refer? || m.Bye? }

  /** The CSeq numbers of the requests sent in the dialog. */
  function CSeqs(trace: seq<Msg>): seq<CSeq> {
    if trace == [] then []
    else CSeqs(trace[..|trace|-1]) + if IsRequest(trace[|trace|-1]) then [trace[|trace|-1].cseq] else []
  }

  function Copies(trace: seq<Msg>): nat {
    if trace == [] then 0
    else Copies(trace[..|trace|-1]) + if trace[|trace|-1] == Response(200) then 1 else 0
  }

  /** A final response is the last response, except that our 200 may be repeated. */
  ghost predicate OneFinalResponse(trace: seq<Msg>) {
    forall i, j | 0 <= i < j < |trace| && IsFinal(trace[i]) && trace[j].Response? ::
      trace[j] == trace[i] == Response(200)
  }

  /** Our BYE, the remote's, or a rejection. */
  predicate Ends(m: Msg) { m.Bye? || m.ByeTaken? || (IsFinal(m) && m.code != 200) }

  /** After the end nothing is sent. */
  ghost predicate NothingAfterTheEnd(trace: seq<Msg>) {
    forall i, j | 0 <= i < j < |trace| && Ends(trace[i]) :: trace[j].ByeTaken?
  }

  predicate Counted(trace: seq<Msg>, first: CSeq, maxCopies: nat) {
    && (forall k | 0 <= k < |CSeqs(trace)| :: CSeqs(trace)[k] == Nth(first, k))
    && Copies(trace) <= maxCopies
  }

  /** The grammar's state summarises the trace. */
  ghost predicate Summary(trace: seq<Msg>, p: Progress, first: CSeq) {
    match p
    case Early => Copies(trace) == 0 && CSeqs(trace) == [] && forall m | m in trace :: m.Response? && m.code < 200
    case Answered(copies, referred, next) =>
      && Response(200) in trace
      && (forall m | m in trace :: m.Refer? || m == Response(200) || (m.Response? && m.code < 200))
      && copies == Copies(trace) && next == Nth(first, |CSeqs(trace)|)
    case Ended => true
  }

  lemma {:induction false} CountsSnoc(trace: seq<Msg>, m: Msg)
    ensures CSeqs(trace + [m]) == CSeqs(trace) + if IsRequest(m) then [m.cseq] else []
    ensures Copies(trace + [m]) == Copies(trace) + if m == Response(200) then 1 else 0
  {
    assert (trace + [m])[..|trace|] == trace;
  }

  lemma {:induction false} EarlySnoc(trace: seq<Msg>, m: Msg, first: CSeq, maxCopies: nat)
    requires Summary(trace, Early, first) && Follow(Early, m, first, maxCopies).Some?
    ensures Summary(trace + [m], Follow(Early, m, first, maxCopies).value, first)
  {
    CountsSnoc(trace, m);
  }

  lemma {:induction false} AnsweredSnoc(trace: seq<Msg>, p: Progress, m: Msg, first: CSeq, maxCopies: nat)
    requires p.Answered? && Summary(trace, p, first) && Follow(p, m, first, maxCopies).Some?
    ensures Summary(trace + [m], Follow(p, m, first, maxCopies).value, first)
  {
    CountsSnoc(trace, m);
    assert Response(200) in trace + [m];
  }

  lemma {:induction false} SummarySnoc(trace: seq<Msg>, p: Progress, m: Msg, first: CSeq, maxCopies: nat)
    requires Summary(trace, p, first) && Follow(p, m, first, maxCopies).Some?
    ensures Summary(trace + [m], Follow(p, m, first, maxCopies).value, first)
  {
    match p
    case Early => EarlySnoc(trace, m, first, maxCopies);
    case Answered(_, _, _) => AnsweredSnoc(trace, p, m, first, maxCopies);
    case Ended => assert Follow(p, m, first, maxCopies) == Some(Ended);
  }

  lemma {:induction false} CountedSnoc(trace: seq<Msg>, p: Progress, m: Msg, first: CSeq, maxCopies: nat)
    requires Summary(trace, p, first) && Counted(trace, first, maxCopies) && Follow(p, m, first, maxCopies).Some?
    ensures Counted(trace + [m], first, maxCopies)
  {
    CountsSnoc(trace, m);
  }

  lemma {:induction false} LegalTraceSummary(trace: seq<Msg>, first: CSeq, maxCopies: nat)
    requires Legal(trace, first, maxCopies)
    ensures Summary(trace, Judge(trace, first, maxCopies).value, first)
    ensures Counted(trace, first, maxCopies)
  {
    if trace != [] {
      var t, m := trace[..|trace|-1], trace[|trace|-1];
      LegalTraceSummary(t, first, maxCopies);
      SummarySnoc(t, Judge(t, first, maxCopies).value, m, first, maxCopies);
      CountedSnoc(t, Judge(t, first, maxCopies).value, m, first, maxCopies);
      assert trace == t + [m];
    }
  }

  lemma {:induction false} LegalMeansOneFinalResponse(trace: seq<Msg>, first: CSeq, maxCopies: nat)
    requires Legal(trace, first, maxCopies)
    ensures OneFinalResponse(trace)
  {
    if trace != [] {
      LegalTraceSummary(trace[..|trace|-1], first, maxCopies);
      LegalMeansOneFinalResponse(trace[..|trace|-1], first, maxCopies);
    }
  }

  lemma {:induction false} LegalMeansNothingAfterTheEnd(trace: seq<Msg>, first: CSeq, maxCopies: nat)
    requires Legal(trace, first, maxCopies)
    ensures NothingAfterTheEnd(trace)
  {
    if trace != [] {
      LegalTraceSummary(trace[..|trace|-1], first, maxCopies);
      LegalMeansNothingAfterTheEnd(trace[..|trace|-1], first, maxCopies);
    }
  }

  lemma {:induction false} PrefixLegal(trace: seq<Msg>, k: nat, first: CSeq, maxCopies: nat)
    requires Legal(trace, first, maxCopies) && k <= |trace|
    ensures Legal(trace[..k], first, maxCopies)
  {
    if k == |trace| {
      assert trace[..k] == trace;
    } else {
      PrefixLegal(trace[..|trace|-1], k, first, maxCopies);
      assert trace[..|trace|-1][..k] == trace[..k];
    }
  }

  /** A REFER or BYE is sent only after our 200, and neither after our own BYE nor after the remote's. */
  lemma {:induction false} LegalRequestIsInDialog(trace: seq<Msg>, j: nat, first: CSeq, maxCopies: nat)
    requires Legal(trace, first, maxCopies) && j < |trace| && IsRequest(trace[j])
    ensures Response(200) in trace[..j]
    ensures forall i | 0 <= i < j :: !Ends(trace[i])
  {
    PrefixLegal(trace, j + 1, first, maxCopies);
    assert trace[..j+1][..j] == trace[..j];
    LegalTraceSummary(trace[..j], first, maxCopies);
    LegalMeansNothingAfterTheEnd(trace, first, maxCopies);
  }

  /** Requests come after our 200 and before any end. */
  ghost predicate RequestsInDialog(trace: seq<Msg>) {
    forall j | 0 <= j < |trace| && IsRequest(trace[j]) ::
      Response(200) in trace[..j] && forall i | 0 <= i < j :: !Ends(trace[i])
  }

  lemma {:induction false} LegalMeansRequestsInDialog(trace: seq<Msg>, first: CSeq, maxCopies: nat)
    requires Legal(trace, first, maxCopies)
    ensures RequestsInDialog(trace)
  {
    forall j | 0 <= j < |trace| && IsRequest(trace[j])
      ensures Response(200) in trace[..j] && forall i | 0 <= i < j :: !Ends(trace[i])
    {
      LegalRequestIsInDialog(trace, j, first, maxCopies);
    }
  }

  /** Without a 32-bit wrap the sequence numbers of a dialog are contiguous. */
  lemma {:induction false} CSeqsIncrease(trace: seq<Msg>, first: CSeq, maxCopies: nat, i: nat, j: nat)
    requires Legal(trace, first, maxCopies) && i < j < |CSeqs(trace)| && first + |CSeqs(trace)| <= TWO32
    ensures CSeqs(trace)[j] as int == CSeqs(trace)[i] as int + j - i
  {
    LegalTraceSummary(trace, first, maxCopies);
    NthWithoutWrap(first, i);
    NthWithoutWrap(first, j);
  }
}
