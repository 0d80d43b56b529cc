/**
  The outbound dialog (user agent client), and the call that dials it. Operations of the
  dialog are atomic under its mutex; dialing holds the call's mutex throughout, so only
  the remote's BYE can reach the dialog in between.
*/
module Outbound {
  import opened Numbering
  import opened Prelude
  import opened OutboundTx

  const MAX_TRIES := 5

  datatype Method = INVITE | REFER | BYE

  /** A request that took its number from the dialog's counter. */
  datatype Request = Request(kind: Method, cseq: CSeq)

  /** What happens in the dialog, outside INVITE transactions. */
  datatype Msg =
    | Ack
    | Refer(cseq: CSeq)
    | Bye(cseq: CSeq)
    | ShutdownBye                // written without waiting, with the number the INVITE implies
    | ByeTaken                   // the remote's BYE took effect

  /** From position `mark` on, the numbers run on from `first` without a hole, up to `next`. */
  predicate Numbered(rs: seq<Request>, mark: nat, first: CSeq, next: CSeq) {
    && mark <= |rs| && next == Wrap32(first + |rs| - mark)
    && forall k | mark <= k < |rs| :: rs[k].cseq == Wrap32(first + k - mark)
  }

  lemma {:induction false} TakeNumber(rs: seq<Request>, m: Method, mark: nat, first: CSeq, next: CSeq)
    requires Numbered(rs, mark, first, next)
    ensures Numbered(rs + [Request(m, next)], mark, first, Bump(next))
  {
  }

  /** `rs` goes on from `was` with n INVITEs, numbered on from c up to `next`. */
  predicate InvitesAfter(rs: seq<Request>, was: seq<Request>, n: nat, c: CSeq, next: CSeq) {
    && was <= rs && |rs| == |was| + n && Numbered(rs, |was|, c, next)
    && forall k | |was| <= k < |rs| :: rs[k].kind.INVITE?
  }

  lemma {:induction false} OneMoreInvite(rs: seq<Request>, was: seq<Request>, n: nat, c: CSeq, next: CSeq)
    requires InvitesAfter(rs, was, n, c, next)
    ensures InvitesAfter(rs + [Request(INVITE, next)], was, n + 1, c, Bump(next))
  {
    TakeNumber(rs, INVITE, |was|, c, next);
  }

  datatype InviteResult = InviteOk | AnsweredWithoutTag | Rejected(code: nat) | AuthFailed | NoAnswer | TooManyTries

  predicate Challenged(code: Option<nat>) { code.Some? && (code.value == 401 || code.value == 407) }

  /** What the authentication loop makes of one attempt; None means try again with a digest. */
  function Verdict(code: Option<nat>, canAuthenticate: bool): Option<InviteResult> {
    match code
    case None => Some(NoAnswer)
    case Some(c) =>
      if c == 200 then Some(InviteOk)
      else if !Challenged(code) then Some(Rejected(c))
      else if !canAuthenticate then Some(AuthFailed)
      else None
  }

  /** The loop's view of an attempt. */
  function VerdictOn(a: Attempt, hasCredentials: bool): Option<InviteResult> {
    Verdict(Outcome(a), hasCredentials && a.challengeOk)
  }

  /** Some attempt within the limit is answered with 200 after nothing but challenges that could be met. */
  ghost predicate Answers(attempts: seq<Attempt>, hasCredentials: bool) {
    exists n: nat :: n < |attempts| && n < MAX_TRIES && Outcome(attempts[n]) == Some(200)
                     && forall i: nat | i < n :: VerdictOn(attempts[i], hasCredentials) == None
  }

  lemma {:induction false} AnswersAtTheEnd(attempts: seq<Attempt>, hasCredentials: bool, tries: nat)
    requires |attempts| == MAX_TRIES && 1 <= tries <= MAX_TRIES
    requires forall i: nat | i + 1 < tries :: VerdictOn(attempts[i], hasCredentials) == None
    requires VerdictOn(attempts[tries - 1], hasCredentials).None? ==> tries == MAX_TRIES
    ensures Answers(attempts, hasCredentials) <==> Outcome(attempts[tries - 1]) == Some(200)
  {
    if Answers(attempts, hasCredentials) {
      var n: nat :| n < |attempts| && n < MAX_TRIES && Outcome(attempts[n]) == Some(200)
                    && forall i: nat | i < n :: VerdictOn(attempts[i], hasCredentials) == None;
      assert n == tries - 1;
    }
  }

  function VerdictsOn(attempts: seq<Attempt>, hasCredentials: bool): (vs: seq<Option<InviteResult>>)
    ensures |vs| == |attempts| && forall i | 0 <= i < |vs| :: vs[i] == VerdictOn(attempts[i], hasCredentials)
  {
    if attempts == [] then []
    else VerdictsOn(attempts[..|attempts|-1], hasCredentials) + [VerdictOn(attempts[|attempts|-1], hasCredentials)]
  }

  /** One past the first verdict from a position on, or the length if there is none. */
  function FirstVerdict(vs: seq<Option<InviteResult>>, from: nat): (n: nat)
    requires from < |vs|
    ensures from < n <= |vs| && (vs[n - 1].None? ==> n == |vs|)
    ensures forall i | from <= i < n - 1 :: vs[i].None?
    decreases |vs| - from
  {
    if vs[from].Some? || from + 1 == |vs| then from + 1 else FirstVerdict(vs, from + 1)
  }

  /** How many attempts are made: up to the first that decides, or all of them. */
  function Tried(attempts: seq<Attempt>, hasCredentials: bool): (n: nat)
    requires attempts != []
    ensures 0 < n <= |attempts|
  {
    FirstVerdict(VerdictsOn(attempts, hasCredentials), 0)
  }

  /** Verdicts of the first attempts. */
  predicate VerdictsMatch(got: seq<Option<InviteResult>>, attempts: seq<Attempt>, hasCredentials: bool) {
    |got| <= |attempts| && forall i | 0 <= i < |got| :: got[i] == VerdictOn(attempts[i], hasCredentials)
  }

  /** All but the last ask for another attempt. */
  predicate ChallengedSoFar(got: seq<Option<InviteResult>>) {
    forall i | 0 <= i < |got| - 1 :: got[i].None?
  }

  lemma {:induction false} OneMoreVerdict(got: seq<Option<InviteResult>>, attempts: seq<Attempt>, hasCredentials: bool,
                                          v: Option<InviteResult>)
    requires VerdictsMatch(got, attempts, hasCredentials) && ChallengedSoFar(got) && |got| < |attempts|
    requires (got != [] ==> got[|got|-1].None?) && v == VerdictOn(attempts[|got|], hasCredentials)
    ensures VerdictsMatch(got + [v], attempts, hasCredentials) && ChallengedSoFar(got + [v])
  {
  }

  lemma {:induction false} FirstVerdictIs(vs: seq<Option<InviteResult>>, n: nat, from: nat)
    requires from < n <= |vs| && (vs[n - 1].None? ==> n == |vs|) && forall i | 0 <= i < n - 1 :: vs[i].None?
    ensures FirstVerdict(vs, from) == n
    decreases n - from
  {
    if from + 1 < n { FirstVerdictIs(vs, n, from + 1); }
  }

  /** The loop stops where it should. */
  lemma {:induction false} GotIsTried(got: seq<Option<InviteResult>>, attempts: seq<Attempt>, hasCredentials: bool)
    requires got != [] && VerdictsMatch(got, attempts, hasCredentials) && ChallengedSoFar(got)
    requires got[|got|-1].None? ==> |got| == |attempts|
    ensures |got| == Tried(attempts, hasCredentials)
    ensures got[|got|-1] == VerdictsOn(attempts, hasCredentials)[|got|-1]
  {
    var vs := VerdictsOn(attempts, hasCredentials);
    assert forall i | 0 <= i < |got| :: vs[i] == got[i];
    FirstVerdictIs(vs, |got|, 0);
  }

  /** What becomes of a dial, by the final response of its last attempt. */
  function ResultOf(code: Option<nat>, canAuthenticate: bool, tagOk: bool): InviteResult {
    if code.None? then NoAnswer
    else if code.value == 200 then if tagOk then InviteOk else AnsweredWithoutTag
    else if code.value == 401 || code.value == 407 then if canAuthenticate then TooManyTries else AuthFailed
    else Rejected(code.value)
  }

  /** Another attempt follows exactly a 401 or a 407 that can be answered. */
  lemma {:induction false} RetriesExactlyChallenges(a: Attempt, hasCredentials: bool)
    ensures VerdictOn(a, hasCredentials) == None <==>
              Outcome(a) in {Some(401), Some(407)} && hasCredentials && a.challengeOk
  {
  }

  lemma {:induction false} VerdictMeans(a: Attempt, hasCredentials: bool)
    ensures VerdictOn(a, hasCredentials) == Some(InviteOk) <==> Outcome(a) == Some(200)
    ensures VerdictOn(a, hasCredentials).None? ==> Challenged(Outcome(a))
  {
  }

  /** The last attempt tells whether the dial is answered at all; those before it were challenged. */
  lemma {:induction false} TriedTells(attempts: seq<Attempt>, hasCredentials: bool)
    requires |attempts| == MAX_TRIES
    ensures var n := Tried(attempts, hasCredentials);
            && (Answers(attempts, hasCredentials) <==> Outcome(attempts[n - 1]) == Some(200))
            && (Answers(attempts, hasCredentials) <==> VerdictsOn(attempts, hasCredentials)[n - 1] == Some(InviteOk))
            && (forall i: nat | i + 1 < n :: Challenged(Outcome(attempts[i])))
  {
    var n, vs := Tried(attempts, hasCredentials), VerdictsOn(attempts, hasCredentials);
    forall i: nat | i + 1 < n
      ensures VerdictOn(attempts[i], hasCredentials) == None && Challenged(Outcome(attempts[i]))
    {
      assert vs[i].None?;
      VerdictMeans(attempts[i], hasCredentials);
    }
    VerdictMeans(attempts[n - 1], hasCredentials);
    AnswersAtTheEnd(attempts, hasCredentials, n);
  }

  /** What the verdicts gathered by the loop say about the dial. */
  lemma {:induction false} LoopTells(got: seq<Option<InviteResult>>, attempts: seq<Attempt>, hasCredentials: bool)
    requires got != [] && VerdictsMatch(got, attempts, hasCredentials) && ChallengedSoFar(got)
    requires |attempts| == MAX_TRIES && (got[|got|-1].None? ==> |got| == MAX_TRIES)
    ensures |got| == Tried(attempts, hasCredentials)
    ensures Answers(attempts, hasCredentials) <==> got[|got|-1] == Some(InviteOk)
    ensures forall i: nat | i + 1 < |got| :: Challenged(Outcome(attempts[i]))
  {
    GotIsTried(got, attempts, hasCredentials);
    TriedTells(attempts, hasCredentials);
  }

  class SipOutbound {
    var invite: bool                 // not nil
    var inviteOk: bool
    var nextCSeq: CSeq
    var referCSeq: CSeq
    var closing: bool                // the client is shutting down
    var txs: nat                     // INVITE transactions asked for so far
    ghost var requests: seq<Request> // every numbered request, in order
    ghost var wire: seq<TxMsg>       // what was done with the INVITE transactions
    ghost var dialog: seq<Msg>       // what happened in the dialog
    ghost var byesAnswered: nat      // 200s to the remote's BYEs
    ghost var started: set<nat>      // the transactions that could be started
    ghost var mark: nat              // how many numbers were taken before the last drop
    ghost var first: CSeq            // the number the series after it begins with

    /** Numbers and transactions are in order. */
    ghost predicate InOrder()
      reads `nextCSeq, `txs, `requests, `wire, `started, `mark, `first
    {
      && Numbered(requests, mark, first, nextCSeq)
      && AllSettled(wire, started)
      && forall t | t in started :: t < txs
    }

    ghost predicate Valid()
      reads `invite, `inviteOk, `nextCSeq, `txs, `requests, `wire, `started, `mark, `first
    {
      invite == inviteOk && InOrder()
    }

    constructor ()
      ensures Valid() && !invite && !closing && nextCSeq == first == 1 && mark == 0
      ensures requests == [] && wire == [] && dialog == []
    {
      invite, inviteOk, nextCSeq, referCSeq, closing := false, false, 1, 0, false;
      txs, requests, wire, dialog, started, mark, first, byesAnswered := 0, [], [], [], {}, 0, 1, 0;
    }

    method Drop()
      requires Valid()
      modifies this`invite, this`inviteOk, this`nextCSeq, this`mark, this`first
      ensures Valid() && !invite
    {
      invite, inviteOk, nextCSeq := false, false, 0;
      mark, first := |requests|, 0;
    }

    method AcceptBye()
      requires Valid()
      modifies this`invite, this`inviteOk, this`nextCSeq, this`mark, this`first, this`dialog, this`byesAnswered
      ensures Valid() && !invite && dialog == old(dialog) + [ByeTaken] && byesAnswered == old(byesAnswered) + 1
    {
      byesAnswered := byesAnswered + 1;
      dialog := dialog + [ByeTaken];
      Drop();
    }

    /** setCSeq. */
    method TakeCSeq(m: Method) returns (cseq: CSeq)
      requires Valid()
      modifies this`nextCSeq, this`requests
      ensures Valid() && cseq == old(nextCSeq) && nextCSeq == Bump(cseq)
      ensures requests == old(requests) + [Request(m, cseq)]
    {
      TakeNumber(requests, m, mark, first, nextCSeq);
      cseq := nextCSeq;
      requests := requests + [Request(m, nextCSeq)];
      nextCSeq := Bump(nextCSeq);
    }

    method SendBye()
      requires Valid()
      modifies this`invite, this`inviteOk, this`nextCSeq, this`mark, this`first, this`dialog, this`requests
      ensures Valid()
      ensures !old(invite) ==> unchanged(this)
      ensures old(invite) && !closing ==> !invite && dialog == old(dialog) + [Bye(old(nextCSeq))]
                                          && requests == old(requests) + [Request(BYE, old(nextCSeq))]
      ensures old(invite) && closing ==> invite && dialog == old(dialog) + [ShutdownBye] && requests == old(requests)
                                         && mark == old(mark) && first == old(first)
    {
      if !invite || !inviteOk { return; }
      if closing {
        dialog := dialog + [ShutdownBye];
        return;
      }
      var cseq := TakeCSeq(BYE);
      Drop();
      dialog := dialog + [Bye(cseq)];
    }

    /** The branch that would call sendCancel is dead, since invite and inviteOk are set together. */
    method Close()
      requires Valid()
      modifies this`invite, this`inviteOk, this`nextCSeq, this`mark, this`first, this`dialog, this`requests
      ensures Valid()
      ensures invite <==> old(invite) && closing
      ensures invite ==> mark == old(mark) && first == old(first)
      ensures dialog == old(dialog) +
                        if !old(invite) then [] else if closing then [ShutdownBye] else [Bye(old(nextCSeq))]
      ensures requests == old(requests) + if old(invite) && !closing then [Request(BYE, old(nextCSeq))] else []
    {
      if inviteOk { SendBye(); } else if invite { assert false; } else { Drop(); }
    }

    method TransferCall() returns (ok: bool)
      requires Valid()
      modifies this`nextCSeq, this`referCSeq, this`dialog, this`requests
      ensures Valid()
      ensures ok <==> invite && !closing
      ensures dialog == old(dialog) + if ok then [Refer(old(nextCSeq))] else []
      ensures requests == old(requests) + if ok then [Request(REFER, old(nextCSeq))] else []
      ensures ok ==> referCSeq == old(nextCSeq)
    {
      if !invite || !inviteOk { return false; }
      if closing { return false; }
      var cseq := TakeCSeq(REFER);
      referCSeq := cseq;
      dialog := dialog + [Refer(cseq)];
      return true;
    }

    method AckInviteOK(writeOk: bool) returns (ok: bool)
      requires Valid()
      modifies this`dialog
      ensures Valid()
      ensures ok <==> invite && writeOk
      ensures dialog == old(dialog) + if ok then [Ack] else []
    {
      if !invite || !inviteOk { return false; }
      if writeOk { dialog := dialog + [Ack]; }
      return writeOk;
    }

    method AttemptInvite(a: Attempt) returns (code: Option<nat>)
      requires Valid()
      modifies this`nextCSeq, this`txs, this`requests, this`wire, this`started
      ensures Valid()
      ensures requests == old(requests) + [Request(INVITE, old(nextCSeq))] && nextCSeq == Bump(old(nextCSeq))
      ensures txs == old(txs) + 1 && started == old(started) + Own(old(txs), a)
      ensures wire == old(wire) + AfterInvite(old(txs), a)
      ensures code == Outcome(a)
    {
      var _ := TakeCSeq(INVITE);
      var out;
      out, code := RunTransaction(txs, a);
      SettledConcat(wire, out, started, Own(txs, a));
      wire := wire + out;
      started := started + Own(txs, a);
      txs := txs + 1;
    }

    /** One turn of the authentication loop. */
    method TryInvite(a: Attempt, hasCredentials: bool) returns (verdict: Option<InviteResult>)
      requires Valid()
      modifies this`nextCSeq, this`txs, this`requests, this`wire, this`started
      ensures Valid() && requests == old(requests) + [Request(INVITE, old(nextCSeq))] && nextCSeq == Bump(old(nextCSeq))
      ensures verdict == VerdictOn(a, hasCredentials)
    {
      var code := AttemptInvite(a);
      verdict := Verdict(code, hasCredentials && a.challengeOk);
    }

    /** The authentication loop: up to five attempts, each but the last answered by a challenge. */
    method TryInvites(attempts: seq<Attempt>, hasCredentials: bool)
      returns (verdict: Option<InviteResult>, tries: nat, ghost got: seq<Option<InviteResult>>)
      requires Valid() && |attempts| == MAX_TRIES
      modifies this`nextCSeq, this`txs, this`requests, this`wire, this`started
      ensures Valid() && InvitesAfter(requests, old(requests), tries, old(nextCSeq), nextCSeq)
      ensures 1 <= tries == |got| <= MAX_TRIES && verdict == got[tries - 1] && (verdict.None? ==> tries == MAX_TRIES)
      ensures ChallengedSoFar(got) && VerdictsMatch(got, attempts, hasCredentials)
    {
      tries, verdict, got := 0, None, [];
      while verdict.None? && tries < MAX_TRIES
        invariant Valid() && InvitesAfter(requests, old(requests), tries, old(nextCSeq), nextCSeq)
        invariant tries == |got| <= MAX_TRIES && verdict == if got == [] then None else got[tries - 1]
        invariant ChallengedSoFar(got) && VerdictsMatch(got, attempts, hasCredentials)
        decreases MAX_TRIES - tries
      {
        OneMoreInvite(requests, old(requests), tries, old(nextCSeq), nextCSeq);
        verdict := TryInvite(attempts[tries], hasCredentials);
        OneMoreVerdict(got, attempts, hasCredentials, verdict);
        got := got + [verdict];
        tries := tries + 1;
      }
    }

    /** What the loop makes of the dial: the last attempt decides, and only challenges came before it. */
    method Attempts(attempts: seq<Attempt>, hasCredentials: bool) returns (r: InviteResult, tries: nat)
      requires Valid() && |attempts| == MAX_TRIES
      modifies this`nextCSeq, this`txs, this`requests, this`wire, this`started
      ensures Valid() && 1 <= tries <= MAX_TRIES
      ensures InvitesAfter(requests, old(requests), tries, old(nextCSeq), nextCSeq)
      ensures tries == Tried(attempts, hasCredentials)
      ensures forall i: nat | i + 1 < tries :: Challenged(Outcome(attempts[i]))
      ensures r.InviteOk? <==> Answers(attempts, hasCredentials)
      ensures r.TooManyTries? ==> tries == MAX_TRIES
      ensures r == ResultOf(Outcome(attempts[tries - 1]), hasCredentials && attempts[tries - 1].challengeOk, true)
    {
      var verdict;
      ghost var got;
      verdict, tries, got := TryInvites(attempts, hasCredentials);
      LoopTells(got, attempts, hasCredentials);
      r := if verdict.None? then TooManyTries else verdict.value;
    }

    /** The dialog exists as soon as an attempt is answered with 200. */
    method Invite(attempts: seq<Attempt>, hasCredentials: bool, tagOk: bool) returns (r: InviteResult, tries: nat)
      requires Valid() && !invite && |attempts| == MAX_TRIES
      modifies this`invite, this`inviteOk, this`nextCSeq, this`txs, this`requests, this`wire, this`started
      ensures Valid() && 1 <= tries <= MAX_TRIES
      ensures InvitesAfter(requests, old(requests), tries, old(nextCSeq), nextCSeq)
      ensures forall i: nat | i + 1 < tries :: Challenged(Outcome(attempts[i]))
      ensures tries == Tried(attempts, hasCredentials)
      ensures invite <==> Answers(attempts, hasCredentials)
      ensures r.InviteOk? <==> invite && tagOk
      ensures tries <= 5 && (r.TooManyTries? ==> tries == 5)
      ensures r == ResultOf(Outcome(attempts[tries - 1]), hasCredentials && attempts[tries - 1].challengeOk, tagOk)
    {
      r, tries := Attempts(attempts, hasCredentials);
      if r.InviteOk? {
        invite, inviteOk := true, true;
        if !tagOk { r := AnsweredWithoutTag; }
      }
    }
  }

  // ---- whole dialogs ----

  datatype Op = DoAck(writeOk: bool) | DoTransfer | DoClose | DoAcceptBye | DoDrop | DoShutdown

  /** A BYE of either side that ended the dialog. */
  predicate IsEnd(m: Msg) { m.Bye? || m.ByeTaken? }

  /** What may follow a BYE written while shutting down, which leaves the dialog in place. */
  predicate MayFollowShutdown(m: Msg) { m.Ack? || m.ShutdownBye? || m.ByeTaken? }

  /**
    Once the dialog has ended nothing is sent in it; once it was hung up for shutdown, no REFER and no numbered BYE.
  */
  ghost predicate EndsQuietly(dialog: seq<Msg>) {
    && (forall i, j | 0 <= i < j < |dialog| && IsEnd(dialog[i]) :: dialog[j].ByeTaken?)
    && (forall i, j | 0 <= i < j < |dialog| && dialog[i].ShutdownBye? :: MayFollowShutdown(dialog[j]))
  }

  /** The dialog's messages so far, seen from its present state. */
  ghost predicate Orderly(dialog: seq<Msg>, invite: bool, closing: bool) {
    && EndsQuietly(dialog)
    && (invite ==> forall i | 0 <= i < |dialog| :: !IsEnd(dialog[i]))
    && (!closing ==> forall i | 0 <= i < |dialog| :: !dialog[i].ShutdownBye?)
  }

  lemma {:induction false} OrderlyGrows(dialog: seq<Msg>, invite: bool, closing: bool, m: Msg)
    requires Orderly(dialog, invite, closing)
    requires m.ByeTaken? || (invite && if closing then m.Ack? || m.ShutdownBye? else !m.ShutdownBye?)
    ensures Orderly(dialog + [m], invite && !IsEnd(m), closing)
  {
  }

  /** INVITEs, then REFERs, then at most one BYE, numbered 1, 2, 3, ... without a hole. */
  ghost predicate Disciplined(rs: seq<Request>, tries: nat) {
    && tries <= |rs|
    && (forall k | 0 <= k < |rs| :: rs[k].cseq == Wrap32(1 + k))
    && (forall k | 0 <= k < |rs| :: rs[k].kind.INVITE? <==> k < tries)
    && (forall k | 0 <= k < |rs| && rs[k].kind.BYE? :: k == |rs| - 1)
  }

  /** What every use of a dialog dialed once keeps. */
  ghost predicate OnCourse(c: SipOutbound, tries: nat)
    reads c
  {
    && c.Valid() && Disciplined(c.requests, tries) && Orderly(c.dialog, c.invite, c.closing)
    && (c.invite ==> c.mark == 0 && c.first == 1 && forall k | 0 <= k < |c.requests| :: !c.requests[k].kind.BYE?)
  }

  method ApplyAck(c: SipOutbound, writeOk: bool, ghost tries: nat)
    requires OnCourse(c, tries)
    modifies c`dialog
    ensures OnCourse(c, tries)
  {
    ghost var dialog := c.dialog;
    var ok := c.AckInviteOK(writeOk);
    if ok { OrderlyGrows(dialog, c.invite, c.closing, Ack); }
  }

  method ApplyTransfer(c: SipOutbound, ghost tries: nat)
    requires OnCourse(c, tries)
    modifies c
    ensures OnCourse(c, tries)
  {
    ghost var dialog, next := c.dialog, c.nextCSeq;
    var ok := c.TransferCall();
    if ok { OrderlyGrows(dialog, c.invite, c.closing, Msg.Refer(next)); }
  }

  method ApplyClose(c: SipOutbound, ghost tries: nat)
    requires OnCourse(c, tries)
    modifies c
    ensures OnCourse(c, tries)
  {
    ghost var dialog, invite, next := c.dialog, c.invite, c.nextCSeq;
    c.Close();
    if invite { OrderlyGrows(dialog, invite, c.closing, if c.closing then ShutdownBye else Bye(next)); }
  }

  method ApplyBye(c: SipOutbound, ghost tries: nat)
    requires OnCourse(c, tries)
    modifies c
    ensures OnCourse(c, tries)
  {
    ghost var dialog, invite := c.dialog, c.invite;
    c.AcceptBye();
    OrderlyGrows(dialog, invite, c.closing, ByeTaken);
  }

  method Apply(c: SipOutbound, op: Op, ghost tries: nat)
    requires OnCourse(c, tries)
    modifies c
    ensures OnCourse(c, tries)
  {
    match op {
      case DoAck(writeOk) => ApplyAck(c, writeOk, tries);
      case DoTransfer => ApplyTransfer(c, tries);
      case DoClose => ApplyClose(c, tries);
      case DoAcceptBye => ApplyBye(c, tries);
      case DoDrop => c.Drop();
      case DoShutdown => c.closing := true;
    }
  }

  method DialOnce(attempts: seq<Attempt>, hasCredentials: bool, tagOk: bool) returns (c: SipOutbound, tries: nat)
    requires |attempts| == MAX_TRIES
    ensures fresh(c) && OnCourse(c, tries) && 1 <= tries <= MAX_TRIES && tries == Tried(attempts, hasCredentials)
  {
    c := new SipOutbound();
    var r;
    r, tries := c.Invite(attempts, hasCredentials, tagOk);
  }

  /** A dialog dialed once and then used in any way at all, including shutdown of the client at any moment. */
  method Drive(attempts: seq<Attempt>, hasCredentials: bool, tagOk: bool, ops: seq<Op>)
    returns (c: SipOutbound, tries: nat)
    requires |attempts| == MAX_TRIES
    ensures fresh(c) && c.Valid() && 1 <= tries <= MAX_TRIES && Disciplined(c.requests, tries)
    ensures EndsQuietly(c.dialog)
  {
    c, tries := DialOnce(attempts, hasCredentials, tagOk);
    for i := 0 to |ops|
      invariant fresh(c) && OnCourse(c, tries)
    {
      Apply(c, ops[i], tries);
    }
  }

  // ---- dialing ----

  /** One run of connectSIP, as the environment plays it. */
  datatype Dial = Dial(
    offerOk: bool,
    attempts: seq<Attempt>,
    hasCredentials: bool,
    tagOk: bool,                 // the 200 carries a To header with a tag
    // When the remote's BYE lands: after 1 INVITE, 2 answer applied, 3 ACK, 4 sipSignal, or 5 before close; 0 never.
    byeAfter: nat,
    answerOk: bool,
    ackOk: bool,
    contextLive: bool,           // when looked at after the ACK
    digitsOk: bool)

  ghost predicate Answered(d: Dial) { d.offerOk && Answers(d.attempts, d.hasCredentials) }

  /** The response the last attempt ends with. */
  function LastCode(d: Dial): Option<nat>
    requires d.attempts != []
  {
    Outcome(d.attempts[Tried(d.attempts, d.hasCredentials) - 1])
  }

  predicate Success(code: Option<nat>) { code.Some? && 200 <= code.value < 300 }

  // What becomes of a call answered with a usable 200.

  predicate Acked(d: Dial) { d.answerOk && d.byeAfter != 1 && d.byeAfter != 2 && d.ackOk }

  predicate Healthy(d: Dial) { Acked(d) && d.contextLive && d.digitsOk }

  /** The remote's BYE lands before sipSignal ends. */
  predicate HungUpEarly(d: Dial) { d.byeAfter == 1 || (d.answerOk && d.byeAfter == 2) || (Acked(d) && d.byeAfter == 3) }

  /** The remote's BYE lands before the call is closed. */
  predicate HungUp(d: Dial) {
    || HungUpEarly(d)
    || (Acked(d) && d.contextLive && d.byeAfter == 4)
    || (!Healthy(d) && d.byeAfter == 5)
  }

  /** The BYEs of ours that a dial leads to. */
  ghost function ByesFor(d: Dial, stopped: bool, closing: bool): nat {
    if !Answered(d) then 0
    else if !d.tagOk then if d.byeAfter == 1 then 0 else if closing && !stopped && d.byeAfter != 5 then 2 else 1
    else if !Healthy(d) && !HungUp(d) && !stopped then 1
    else 0
  }

  ghost predicate AckFor(d: Dial) { Answered(d) && d.tagOk && Acked(d) }

  /** The remote's BYE takes effect. */
  ghost predicate TakenFor(d: Dial) { Answered(d) && if d.tagOk then HungUp(d) else d.byeAfter == 1 || d.byeAfter == 5 }

  /**
    A call that the remote answers with any 2xx, dialed by a call not stopped before: it is acknowledged or hung up,
    by us or by the remote, if and only if the code is 200. Any other 2xx is left hanging.
  */
  lemma {:induction false} SuccessHandledExactlyFor200(d: Dial, closing: bool)
    requires d.offerOk && |d.attempts| == MAX_TRIES && Success(LastCode(d))
    ensures AckFor(d) || ByesFor(d, false, closing) > 0 || TakenFor(d) <==> LastCode(d) == Some(200)
  {
    TriedTells(d.attempts, d.hasCredentials);
  }

  predicate IsBye(m: Msg) { m.Bye? || m.ShutdownBye? }

  function Byes(log: seq<Msg>): nat {
    if log == [] then 0 else Byes(log[..|log|-1]) + if IsBye(log[|log|-1]) then 1 else 0
  }

  lemma {:induction false} ByesConcat(a: seq<Msg>, b: seq<Msg>)
    ensures Byes(a + b) == Byes(a) + Byes(b)
  {
    if b == [] {
      assert a + b == a;
    } else {
      ByesConcat(a, b[..|b|-1]);
      assert (a + b)[..|a + b|-1] == a + b[..|b|-1];
    }
  }

  lemma {:induction false} Joined(a: seq<Msg>, b: seq<Msg>)
    ensures Byes(a + b) == Byes(a) + Byes(b)
    ensures ByeTaken in a + b <==> ByeTaken in a || ByeTaken in b
    ensures Ack in a + b <==> Ack in a || Ack in b
  {
    ByesConcat(a, b);
  }

  /** The call was hung up, by us or by the remote. */
  predicate Ended(log: seq<Msg>) { Byes(log) > 0 || ByeTaken in log }

  function When(c: bool, m: Msg): (r: seq<Msg>)
    ensures Byes(r) == if c && IsBye(m) then 1 else 0
  {
    if c then [m] else []
  }

  /** What happens in the dialog from a usable 200 to the end of sipSignal. */
  function ConfirmLog(d: Dial): seq<Msg> {
    When(d.byeAfter == 1, ByeTaken) +
    When(d.answerOk && d.byeAfter == 2, ByeTaken) +
    When(Acked(d), Ack) +
    When(Acked(d) && d.byeAfter == 3, ByeTaken)
  }

  lemma {:induction false} ConfirmLogIs(d: Dial)
    ensures Byes(ConfirmLog(d)) == 0 && (Ack in ConfirmLog(d) <==> Acked(d))
    ensures ByeTaken in ConfirmLog(d) <==> HungUpEarly(d)
  {
    var a, b := When(d.byeAfter == 1, ByeTaken), When(d.answerOk && d.byeAfter == 2, ByeTaken);
    var c, e := When(Acked(d), Ack), When(Acked(d) && d.byeAfter == 3, ByeTaken);
    ByesConcat(a, b);
    ByesConcat(a + b, c);
    ByesConcat(a + b + c, e);
  }

  class OutboundCall {
    const cc: SipOutbound
    var stopped: bool
    var started: bool

    constructor (dialog: SipOutbound)
      ensures cc == dialog && !stopped && !started
    {
      cc, stopped, started := dialog, false, false;
    }

    method RemoteBye(now: bool)
      requires cc.Valid()
      modifies cc
      ensures cc.Valid() && cc.closing == old(cc.closing)
      ensures cc.dialog == old(cc.dialog) + When(now, ByeTaken)
      ensures cc.invite == (old(cc.invite) && !now)
    {
      if now { cc.AcceptBye(); }
    }

    /** The part of sipSignal after a usable 200: answer applied, ACK, check of the context. */
    method Confirm(d: Dial) returns (ok: bool)
      requires cc.Valid() && cc.invite
      modifies cc
      ensures cc.Valid() && cc.closing == old(cc.closing)
      ensures cc.dialog == old(cc.dialog) + ConfirmLog(d)
      ensures cc.invite <==> !HungUpEarly(d)
      ensures ok <==> Acked(d) && d.contextLive
    {
      RemoteBye(d.byeAfter == 1);
      ok := d.answerOk;
      if ok {
        RemoteBye(d.byeAfter == 2);
        ok := cc.AckInviteOK(d.ackOk);
        RemoteBye(ok && d.byeAfter == 3);
        ok := ok && d.contextLive;
      }
    }

    /** The failing end of sipSignal's INVITE: the dialog is closed, if one exists after all. */
    method Abandon(hungUp: bool) returns (ghost log: seq<Msg>)
      requires cc.Valid() && (hungUp ==> cc.invite)
      modifies cc
      ensures cc.Valid() && cc.closing == old(cc.closing) && cc.dialog == old(cc.dialog) + log
      ensures !old(cc.invite) ==> log == []
      ensures old(cc.invite) ==>
                && |log| == 1
                && if hungUp then log[0].ByeTaken? else if cc.closing then log[0].ShutdownBye? else log[0].Bye?
      ensures cc.invite <==> old(cc.invite) && cc.closing && !hungUp
    {
      RemoteBye(hungUp);
      log := if hungUp then [ByeTaken]
             else if !cc.invite then []
             else if cc.closing then [ShutdownBye]
             else [Bye(cc.nextCSeq)];
      cc.Close();
    }

    /** sipSignal; `log` is what happened in the dialog meanwhile. */
    method SipSignal(d: Dial) returns (ok: bool, answered: bool, ghost log: seq<Msg>)
      requires cc.Valid() && !cc.invite && |d.attempts| == MAX_TRIES
      modifies cc
      ensures cc.Valid() && cc.closing == old(cc.closing) && cc.dialog == old(cc.dialog) + log
      ensures answered == Answered(d)
      ensures ok <==> Answered(d) && d.tagOk && Acked(d) && d.contextLive
      ensures !Answered(d) ==> !cc.invite && log == []
      ensures Answered(d) && d.tagOk ==> log == ConfirmLog(d) && (cc.invite <==> !HungUpEarly(d))
      ensures Answered(d) && !d.tagOk ==>
                && |log| == 1
                && (if d.byeAfter == 1 then log[0].ByeTaken?
                    else if cc.closing then log[0].ShutdownBye?
                    else log[0].Bye?)
                && (cc.invite <==> cc.closing && d.byeAfter != 1)
    {
      ok, answered, log := false, false, [];
      if !d.offerOk { return; }
      var r, tries := cc.Invite(d.attempts, d.hasCredentials, d.tagOk);
      answered := cc.invite;
      if r.InviteOk? {
        ok := Confirm(d);
        log := ConfirmLog(d);
      } else {
        log := Abandon(answered && d.byeAfter == 1);
      }
    }

    /** close, as far as the dialog is concerned: only the first call has an effect. */
    method CloseCall() returns (ghost log: seq<Msg>)
      requires cc.Valid()
      modifies this`stopped, cc
      ensures cc.Valid() && cc.closing == old(cc.closing) && stopped && cc.dialog == old(cc.dialog) + log
      ensures log == [] <==> old(stopped) || !old(cc.invite)
      ensures log != [] ==> |log| == 1 && (if cc.closing then log[0].ShutdownBye? else log[0].Bye?)
    {
      log := [];
      if !stopped {
        stopped := true;
        log := if !cc.invite then [] else if cc.closing then [ShutdownBye] else [Bye(cc.nextCSeq)];
        cc.Close();
      }
    }

    /** The failing end of a dial: the call is closed, unless it already was, and the remote may hang up first. */
    method GiveUp(hungUp: bool) returns (ghost log: seq<Msg>)
      requires cc.Valid()
      modifies this`stopped, cc
      ensures cc.Valid() && cc.closing == old(cc.closing) && cc.dialog == old(cc.dialog) + log
      ensures Ack !in log && (ByeTaken in log <==> hungUp)
      ensures Byes(log) == if !old(stopped) && old(cc.invite) && !hungUp then 1 else 0
      ensures !hungUp && !old(cc.invite) ==> log == []
    {
      RemoteBye(hungUp);
      ghost var more := CloseCall();
      Joined(When(hungUp, ByeTaken), more);
      log := When(hungUp, ByeTaken) + more;
    }

    /** The part of connectSIP after sipSignal: digits, then started or closed. */
    method Settle(d: Dial, answered: bool, signalled: bool) returns (ok: bool, ghost log: seq<Msg>)
      requires cc.Valid()
      modifies this, cc
      ensures cc.Valid() && cc.closing == old(cc.closing) && cc.dialog == old(cc.dialog) + log
      ensures ok <==> signalled && d.digitsOk
      ensures ok ==> started && (cc.invite <==> old(cc.invite) && d.byeAfter != 4)
      ensures ByeTaken in log <==> (signalled && d.byeAfter == 4) || (answered && !ok && d.byeAfter == 5)
      ensures Byes(log) == if !ok && !old(stopped) && old(cc.invite) && ByeTaken !in log then 1 else 0
      ensures Ack !in log && (!signalled && !answered && !old(cc.invite) ==> log == [])
    {
      RemoteBye(signalled && d.byeAfter == 4);
      log := When(signalled && d.byeAfter == 4, ByeTaken);
      ok := signalled && d.digitsOk;
      started := started || ok;
      if !ok {
        ghost var first := log;
        ghost var more := GiveUp(answered && d.byeAfter == 5);
        Joined(first, more);
        log := first + more;
      }
    }

    /**
      connectSIP. A call that was answered but neither established nor hung up is orphaned: that happens exactly
      to calls that were stopped before dialing began, and then fail after a usable 200 with no BYE from the remote.
    */
    method ConnectSIP(d: Dial) returns (ok: bool, answered: bool, ghost log: seq<Msg>)
      requires cc.Valid() && !cc.invite && |d.attempts| == MAX_TRIES
      modifies this, cc
      ensures cc.Valid() && cc.closing == old(cc.closing) && cc.dialog == old(cc.dialog) + log
      ensures answered == Answered(d) && (ok <==> answered && d.tagOk && Healthy(d))
      ensures ok ==> started && (cc.invite <==> ByeTaken !in log)
      ensures !answered ==> log == []
      ensures Ack in log <==> AckFor(d)
      ensures answered && !ok && !Ended(log) <==> old(stopped) && Answered(d) && d.tagOk && !Healthy(d) && !HungUp(d)
      ensures Byes(log) == ByesFor(d, old(stopped), cc.closing) && (ByeTaken in log <==> TakenFor(d))
    {
      ok, answered, log := SipSignal(d);
      ghost var first := log;
      ConfirmLogIs(d);
      ghost var more;
      ok, more := Settle(d, answered, ok);
      Joined(first, more);
      log := first + more;
    }
  }
}
