/**
  Transfer requests: one worker and any number of waiting RPCs per pending transfer.

  Each event is one atomic action of one goroutine: a request taking the service
  mutex, the worker offering its outcome to the one-slot channel, storing it, closing
  the channel and deleting the map entry, and a waiter receiving, re-reading the
  stored outcome, or giving up. A schedule is any sequence of events.
*/
module Transfer {
  import opened Prelude
  import Refer

  // ---- outcomes and responses ----

  datatype Error =
    | FromRefer(e: Refer.ReferError)
    | UnknownCall
    | TransferredElsewhere
    | WaiterGaveUp(deadline: bool)
    | OtherError

  datatype Outcome = Outcome(id: string, err: Option<Error>)

  /** What a receive from a closed, drained channel yields. */
  const ZERO := Outcome("", None)

  datatype Reason = Completed | Unspecified | CallEnded | SubscriptionTerminated | Rejected | RingingTimeout
  datatype Response = Response(id: string, successful: bool, reason: Reason, sipStatus: Option<nat>)

  function TransferResponse(out: Outcome): (r: Response)
    ensures r.id == out.id
    ensures r.successful <==> out.err.None?
    ensures r.successful <==> r.reason.Completed?
    ensures r.sipStatus.Some? <==> r.reason.Rejected?
    ensures forall code: nat :: r.sipStatus == Some(code) <==> out.err == Some(FromRefer(Refer.FinalStatus(code)))
    ensures r.reason.CallEnded? <==> out.err == Some(FromRefer(Refer.CallEnded))
    ensures r.reason.SubscriptionTerminated? <==>
              out.err.Some? && out.err.value.FromRefer? && out.err.value.e.SubscriptionTerminated?
    ensures r.reason.RingingTimeout? <==>
              out.err == Some(FromRefer(Refer.ContextDone(true))) || out.err == Some(WaiterGaveUp(true))
  {
    match out.err
    case None => Response(out.id, true, Completed, None)
    case Some(FromRefer(CallEnded)) => Response(out.id, false, CallEnded, None)
    case Some(FromRefer(SubscriptionTerminated(_))) => Response(out.id, false, SubscriptionTerminated, None)
    case Some(FromRefer(FinalStatus(code))) => Response(out.id, false, Rejected, Some(code))
    case Some(FromRefer(ContextDone(deadline))) =>
      Response(out.id, false, if deadline then RingingTimeout else Unspecified, None)
    case Some(WaiterGaveUp(deadline)) => Response(out.id, false, if deadline then RingingTimeout else Unspecified, None)
    case Some(_) => Response(out.id, false, Unspecified, None)
  }

  /** The public RPC: a call that ended first is reported in the response only. */
  function Reply(out: Outcome): (r: (Response, Option<Error>))
    ensures r.1.None? <==> r.0.successful || r.0.reason.CallEnded?
    ensures r.1.Some? ==> r.1 == out.err
  {
    if out.err == Some(FromRefer(Refer.CallEnded)) then (TransferResponse(out), None)
    else (TransferResponse(out), out.err)
  }

  // ---- the protocol ----

  datatype Pending = Pending(callId: string, transferTo: string, slot: Option<Outcome>, closed: bool,
                             stored: Option<Outcome>)

  /** The worker goroutine's program counter, with its outcome once it has one. */
  datatype Worker =
    | Working | Offered(out: Outcome) | Stored(out: Outcome) | Closed(out: Outcome) | Finished(out: Outcome)

  datatype Phase = Waiting(p: nat) | Took(p: nat, got: Outcome) | Returned(p: nat, out: Outcome) | Refused | GaveUp
  datatype Waiter = Waiter(callId: string, transferTo: string, phase: Phase)

  datatype State = State(
    pendingTransfers: map<string, nat>,   // call ID to index of its pending transfer
    transfers: seq<Pending>,              // every pending transfer ever created
    workers: seq<Worker>,                 // the worker of each
    waiters: seq<Waiter>,                 // every RPC ever received
    tooMany: bool)                        // the "more than one error" branch was taken

  datatype Event =
    | Request(callId: string, transferTo: string)
    | Offer(p: nat, out: Outcome)
    | Store(p: nat)
    | CloseDone(p: nat)
    | Forget(p: nat)
    | Receive(w: nat)
    | Return(w: nat)
    | GiveUp(w: nat)

  const Init := State(map[], [], [], [], false)

  ghost predicate Shaped(s: State) {
    && |s.transfers| == |s.workers|
    && (forall w | 0 <= w < |s.waiters| &&
                   (s.waiters[w].phase.Waiting? || s.waiters[w].phase.Took? || s.waiters[w].phase.Returned?) ::
          s.waiters[w].phase.p < |s.transfers|)
    && (forall c | c in s.pendingTransfers :: s.pendingTransfers[c] < |s.transfers|)
  }

  ghost function OnRequest(s: State, callId: string, transferTo: string): State
    requires Shaped(s)
  {
    if callId in s.pendingTransfers then
      var p := s.pendingTransfers[callId];
      var phase := if s.transfers[p].transferTo != transferTo then Refused else Waiting(p);
      s.(waiters := s.waiters + [Waiter(callId, transferTo, phase)])
    else
      var p := |s.transfers|;
      s.(pendingTransfers := s.pendingTransfers[callId := p],
         transfers := s.transfers + [Pending(callId, transferTo, None, false, None)],
         workers := s.workers + [Working],
         waiters := s.waiters + [Waiter(callId, transferTo, Waiting(p))])
  }

  ghost function WithWorker(s: State, p: nat, t: Pending, w: Worker): State
    requires Shaped(s) && p < |s.workers|
  {
    s.(transfers := s.transfers[p := t], workers := s.workers[p := w])
  }

  ghost function OnWorker(s: State, e: Event): State
    requires Shaped(s) && (e.Offer? || e.Store? || e.CloseDone? || e.Forget?) && e.p < |s.workers|
  {
    var t, w := s.transfers[e.p], s.workers[e.p];
    match e
    case Offer(p, out) =>
      if !w.Working? then s
      else if t.slot.None? then WithWorker(s, p, t.(slot := Some(out)), Offered(out))
      else WithWorker(s, p, t, Offered(out)).(tooMany := true)
    case Store(p) => if !w.Offered? then s else WithWorker(s, p, t.(stored := Some(w.out)), Stored(w.out))
    case CloseDone(p) => if !w.Stored? then s else WithWorker(s, p, t.(closed := true), Closed(w.out))
    case Forget(p) =>
      if !w.Closed? then s
      else WithWorker(s, p, t, Finished(w.out)).(pendingTransfers := s.pendingTransfers - {t.callId})
  }

  ghost function OnWaiter(s: State, e: Event): State
    requires Shaped(s) && (e.Receive? || e.Return? || e.GiveUp?) && e.w < |s.waiters|
  {
    var w := s.waiters[e.w];
    match e
    case Receive(i) =>
      if !w.phase.Waiting? then s
      else
        var t := s.transfers[w.phase.p];
        if t.slot.Some? then
          s.(transfers := s.transfers[w.phase.p := t.(slot := None)],
             waiters := s.waiters[i := w.(phase := Took(w.phase.p, t.slot.value))])
        else if t.closed then s.(waiters := s.waiters[i := w.(phase := Took(w.phase.p, ZERO))])
        else s
    case Return(i) =>
      if !w.phase.Took? then s
      else
        var t := s.transfers[w.phase.p];
        var out := if w.phase.got.err.None? && t.stored.Some? then t.stored.value else w.phase.got;
        s.(waiters := s.waiters[i := w.(phase := Returned(w.phase.p, out))])
    case GiveUp(i) => if !w.phase.Waiting? then s else s.(waiters := s.waiters[i := w.(phase := GaveUp)])
  }

  /** One step; an event that is not enabled leaves the state alone. */
  ghost function Step(s: State, e: Event): State
    requires Shaped(s)
  {
    match e
    case Request(callId, transferTo) => OnRequest(s, callId, transferTo)
    case Receive(w) => if w < |s.waiters| then OnWaiter(s, e) else s
    case Return(w) => if w < |s.waiters| then OnWaiter(s, e) else s
    case GiveUp(w) => if w < |s.waiters| then OnWaiter(s, e) else s
    case _ => if e.p < |s.workers| then OnWorker(s, e) else s
  }

  // ---- what every schedule keeps ----

  /** A pending transfer agrees with where its worker stands. */
  predicate WorkerAgrees(t: Pending, w: Worker) {
    && (w.Working? ==> t.slot.None?)
    && (!w.Working? ==> t.slot in {None, Some(w.out)})
    && t.stored == (if w.Working? || w.Offered? then None else Some(w.out))
    && t.closed == (w.Closed? || w.Finished?)
  }

  /** What a waiter holds comes from its worker, or is the zero value of a closed channel whose outcome is stored. */
  predicate WaiterAgrees(w: Waiter, t: Pending, k: Worker) {
    && t.callId == w.callId && t.transferTo == w.transferTo
    && (w.phase.Took? ==> !k.Working? && (w.phase.got == k.out || (w.phase.got == ZERO && t.closed)))
    && (w.phase.Returned? ==> !k.Working? && w.phase.out == k.out)
  }

  ghost predicate Inv(s: State) {
    && Shaped(s)
    && !s.tooMany
    && (forall p | 0 <= p < |s.transfers| :: WorkerAgrees(s.transfers[p], s.workers[p]))
    && (forall p | 0 <= p < |s.transfers| && !s.workers[p].Finished? ::
          s.transfers[p].callId in s.pendingTransfers && s.pendingTransfers[s.transfers[p].callId] == p)
    && (forall c | c in s.pendingTransfers ::
          s.transfers[s.pendingTransfers[c]].callId == c && !s.workers[s.pendingTransfers[c]].Finished?)
    && (forall w | 0 <= w < |s.waiters| && !s.waiters[w].phase.Refused? && !s.waiters[w].phase.GaveUp? ::
          WaiterAgrees(s.waiters[w], s.transfers[s.waiters[w].phase.p], s.workers[s.waiters[w].phase.p]))
  }

  lemma {:induction false} JoinKeepsInv(s: State, callId: string, transferTo: string)
    requires Inv(s) && callId in s.pendingTransfers
    ensures Inv(OnRequest(s, callId, transferTo))
  {
  }

  lemma {:induction false} CreateKeepsInv(s: State, callId: string, transferTo: string)
    requires Inv(s) && callId !in s.pendingTransfers
    ensures Inv(OnRequest(s, callId, transferTo))
  {
  }

  lemma {:induction false} RequestKeepsInv(s: State, callId: string, transferTo: string)
    requires Inv(s)
    ensures Inv(OnRequest(s, callId, transferTo))
  {
    if callId in s.pendingTransfers {
      JoinKeepsInv(s, callId, transferTo);
    } else {
      CreateKeepsInv(s, callId, transferTo);
    }
  }

  lemma {:induction false} OfferKeepsInv(s: State, p: nat, out: Outcome)
    requires Inv(s) && p < |s.workers|
    ensures Inv(OnWorker(s, Offer(p, out)))
  {
  }

  lemma {:induction false} StoreKeepsInv(s: State, p: nat)
    requires Inv(s) && p < |s.workers|
    ensures Inv(OnWorker(s, Store(p)))
  {
  }

  lemma {:induction false} CloseKeepsInv(s: State, p: nat)
    requires Inv(s) && p < |s.workers|
    ensures Inv(OnWorker(s, CloseDone(p)))
  {
  }

  lemma {:induction false} ForgetKeepsInv(s: State, p: nat)
    requires Inv(s) && p < |s.workers|
    ensures Inv(OnWorker(s, Forget(p)))
  {
  }

  /** The value is in the slot. */
  lemma {:induction false} ReceiveValueKeepsInv(s: State, w: nat)
    requires Inv(s) && w < |s.waiters| && s.waiters[w].phase.Waiting?
    requires s.transfers[s.waiters[w].phase.p].slot.Some?
    ensures Inv(OnWaiter(s, Receive(w)))
  {
  }

  /** The slot is empty; the channel may be closed. */
  lemma {:induction false} ReceiveCloseKeepsInv(s: State, w: nat)
    requires Inv(s) && w < |s.waiters| && s.waiters[w].phase.Waiting?
    requires s.transfers[s.waiters[w].phase.p].slot.None?
    ensures Inv(OnWaiter(s, Receive(w)))
  {
  }

  lemma {:induction false} ReceiveKeepsInv(s: State, w: nat)
    requires Inv(s) && w < |s.waiters|
    ensures Inv(OnWaiter(s, Receive(w)))
  {
    if s.waiters[w].phase.Waiting? {
      if s.transfers[s.waiters[w].phase.p].slot.Some? {
        ReceiveValueKeepsInv(s, w);
      } else {
        ReceiveCloseKeepsInv(s, w);
      }
    }
  }

  lemma {:induction false} ReturnKeepsInv(s: State, w: nat)
    requires Inv(s) && w < |s.waiters|
    ensures Inv(OnWaiter(s, Return(w))) && Inv(OnWaiter(s, GiveUp(w)))
  {
  }

  lemma {:induction false} StepKeepsInv(s: State, e: Event)
    requires Inv(s)
    ensures Inv(Step(s, e))
  {
    match e
    case Request(callId, transferTo) => RequestKeepsInv(s, callId, transferTo);
    case Offer(p, out) => if p < |s.workers| { OfferKeepsInv(s, p, out); }
    case Store(p) => if p < |s.workers| { StoreKeepsInv(s, p); }
    case CloseDone(p) => if p < |s.workers| { CloseKeepsInv(s, p); }
    case Forget(p) => if p < |s.workers| { ForgetKeepsInv(s, p); }
    case Receive(w) => if w < |s.waiters| { ReceiveKeepsInv(s, w); }
    case Return(w) => if w < |s.waiters| { ReturnKeepsInv(s, w); }
    case GiveUp(w) => if w < |s.waiters| { ReturnKeepsInv(s, w); }
  }

  lemma {:induction false} StepKeepsShaped(s: State, e: Event)
    requires Shaped(s)
    ensures Shaped(Step(s, e))
  {
  }

  /** The state after an arbitrary schedule. */
  ghost function Run(es: seq<Event>): (s: State)
    ensures Shaped(s)
  {
    if es == [] then Init
    else
      var s, e := Run(es[..|es|-1]), es[|es|-1];
      StepKeepsShaped(s, e);
      Step(s, e)
  }

  // ---- theorems over all schedules ----

  /** Every schedule keeps transfers, workers, waiters and the map of pending transfers in agreement. */
  lemma {:induction false} RunKeepsInv(es: seq<Event>)
    ensures Inv(Run(es))
  {
    if es != [] {
      RunKeepsInv(es[..|es|-1]);
      StepKeepsInv(Run(es[..|es|-1]), es[|es|-1]);
    }
  }

  /**
    Every RPC that returns a transfer's outcome returns its worker's, for the call and target it asked for; so all of
    them agree.
  */
  lemma {:induction false} EveryWaiterReturnsTheWorkersOutcome(es: seq<Event>, i: nat, j: nat)
    requires var s := Run(es);
             && i < |s.waiters| && s.waiters[i].phase.Returned?
             && j < |s.waiters| && s.waiters[j].phase.Returned? && s.waiters[j].phase.p == s.waiters[i].phase.p
    ensures var s := Run(es);
            var p := s.waiters[i].phase.p;
            && p < |s.workers| && !s.workers[p].Working?
            && s.waiters[i].phase.out == s.waiters[j].phase.out == s.workers[p].out
            && s.transfers[p].callId == s.waiters[i].callId == s.waiters[j].callId
            && s.transfers[p].transferTo == s.waiters[i].transferTo == s.waiters[j].transferTo
  {
    RunKeepsInv(es);
  }

  /** A worker never finds its one-slot channel full. */
  lemma {:induction false} ChannelNeverFull(es: seq<Event>)
    ensures !Run(es).tooMany
  {
    RunKeepsInv(es);
  }

  /** At most one worker per call ID has not finished. */
  lemma {:induction false} OneLiveWorkerPerCall(es: seq<Event>, p: nat, q: nat)
    requires var s := Run(es);
             && p < |s.workers| && q < |s.workers| && p != q
             && !s.workers[p].Finished? && !s.workers[q].Finished?
    ensures Run(es).transfers[p].callId != Run(es).transfers[q].callId
  {
    RunKeepsInv(es);
  }

  lemma {:induction false} Snoc(es: seq<Event>, e: Event)
    ensures Run(es + [e]) == Step(Run(es), e)
  {
    assert (es + [e])[..|es|] == es;
  }

  /** The event is no step of RPC w. */
  predicate NotOf(w: nat, e: Event) { (e.Receive? || e.Return? || e.GiveUp?) ==> e.w != w }

  predicate NoneOf(w: nat, es: seq<Event>) { es == [] || (NotOf(w, es[0]) && NoneOf(w, es[1..])) }

  /** RPC w is in the given phase, and the worker it waits for has closed the channel with the given outcome. */
  ghost predicate Served(s: State, w: nat, phase: Phase, out: Outcome) {
    && w < |s.waiters| && s.waiters[w].phase == phase && (phase.Waiting? || phase.Took?)
    && phase.p < |s.workers| && (s.workers[phase.p].Closed? || s.workers[phase.p].Finished?)
    && s.workers[phase.p].out == out
  }

  lemma {:induction false} RequestKeepsServed(s: State, callId: string, transferTo: string, w: nat, phase: Phase,
                                              out: Outcome)
    requires Shaped(s) && Served(s, w, phase, out)
    ensures Served(OnRequest(s, callId, transferTo), w, phase, out)
  {
  }

  lemma {:induction false} WorkerKeepsServed(s: State, e: Event, w: nat, phase: Phase, out: Outcome)
    requires Shaped(s) && (e.Offer? || e.Store? || e.CloseDone? || e.Forget?) && e.p < |s.workers|
    requires Served(s, w, phase, out)
    ensures Served(OnWorker(s, e), w, phase, out)
  {
  }

  lemma {:induction false} WaiterKeepsServed(s: State, e: Event, w: nat, phase: Phase, out: Outcome)
    requires Shaped(s) && (e.Receive? || e.Return? || e.GiveUp?) && e.w < |s.waiters|
    requires NotOf(w, e) && Served(s, w, phase, out)
    ensures Served(OnWaiter(s, e), w, phase, out)
  {
  }

  lemma {:induction false} StepKeepsServed(s: State, e: Event, w: nat, phase: Phase, out: Outcome)
    requires Shaped(s) && NotOf(w, e) && Served(s, w, phase, out)
    ensures Served(Step(s, e), w, phase, out)
  {
    if e.Request? {
      RequestKeepsServed(s, e.callId, e.transferTo, w, phase, out);
    } else if e.Receive? || e.Return? || e.GiveUp? {
      if e.w < |s.waiters| { WaiterKeepsServed(s, e, w, phase, out); }
    } else if e.p < |s.workers| {
      WorkerKeepsServed(s, e, w, phase, out);
    }
  }

  /** Nothing the others do takes it away again. */
  lemma {:induction false} OthersKeepServed(es: seq<Event>, more: seq<Event>, w: nat, phase: Phase, out: Outcome)
    requires Served(Run(es), w, phase, out) && NoneOf(w, more)
    ensures Served(Run(es + more), w, phase, out)
    decreases |more|
  {
    if more == [] {
      assert es + more == es;
    } else {
      var next, rest := es + [more[0]], more[1..];
      assert es + more == next + rest;
      OtherKeepsServed(es, more[0], w, phase, out);
      OthersKeepServed(next, rest, w, phase, out);
    }
  }

  lemma {:induction false} OtherKeepsServed(es: seq<Event>, e: Event, w: nat, phase: Phase, out: Outcome)
    requires Served(Run(es), w, phase, out) && NotOf(w, e)
    ensures Served(Run(es + [e]), w, phase, out)
  {
    Snoc(es, e);
    StepKeepsServed(Run(es), e, w, phase, out);
  }

  /** The receive of a served RPC takes the outcome, or the zero value of the closed channel. */
  lemma {:induction false} ReceiveServed(s: State, w: nat, p: nat, out: Outcome) returns (got: Outcome)
    requires Inv(s) && Served(s, w, Waiting(p), out)
    ensures Served(Step(s, Receive(w)), w, Took(p, got), out)
  {
    assert WorkerAgrees(s.transfers[p], s.workers[p]);
    got := if s.transfers[p].slot.Some? then s.transfers[p].slot.value else ZERO;
  }

  lemma {:induction false} ReturnServed(s: State, w: nat, p: nat, got: Outcome, out: Outcome)
    requires Inv(s) && Served(s, w, Took(p, got), out)
    ensures var t := Step(s, Return(w)); w < |t.waiters| && t.waiters[w].phase == Returned(p, out)
  {
    assert WorkerAgrees(s.transfers[p], s.workers[p]);
    assert WaiterAgrees(s.waiters[w], s.transfers[p], s.workers[p]);
  }

  /**
    Once the channel is closed no waiter is stranded: whatever the others do before, between and after, its own next
    two steps return the worker's outcome.
  */
  lemma {:induction false} NoWaiterStranded(es: seq<Event>, before: seq<Event>, between: seq<Event>, w: nat)
    requires var s := Run(es);
             w < |s.waiters| && s.waiters[w].phase.Waiting? && s.transfers[s.waiters[w].phase.p].closed
    requires NoneOf(w, before) && NoneOf(w, between)
    ensures var s := Run(es);
            var t := Run(es + before + [Receive(w)] + between + [Return(w)]);
            && (s.workers[s.waiters[w].phase.p].Closed? || s.workers[s.waiters[w].phase.p].Finished?)
            && w < |t.waiters|
            && t.waiters[w].phase == Returned(s.waiters[w].phase.p, s.workers[s.waiters[w].phase.p].out)
  {
    RunKeepsInv(es);
    var p := Run(es).waiters[w].phase.p;
    var out := ClosedMeansServed(Run(es), w);
    OthersKeepServed(es, before, w, Waiting(p), out);
    var a := es + before;
    RunKeepsInv(a);
    var got := ReceiveServed(Run(a), w, p, out);
    Snoc(a, Receive(w));
    var b := a + [Receive(w)];
    OthersKeepServed(b, between, w, Took(p, got), out);
    Snoc(b + between, Return(w));
    RunKeepsInv(b + between);
    ReturnServed(Run(b + between), w, p, got, out);
  }

  lemma {:induction false} ClosedMeansServed(s: State, w: nat) returns (out: Outcome)
    requires Inv(s) && w < |s.waiters| && s.waiters[w].phase.Waiting? && s.transfers[s.waiters[w].phase.p].closed
    ensures Served(s, w, s.waiters[w].phase, out) && out == s.workers[s.waiters[w].phase.p].out
  {
    assert WorkerAgrees(s.transfers[s.waiters[w].phase.p], s.workers[s.waiters[w].phase.p]);
    out := s.workers[s.waiters[w].phase.p].out;
  }

  // ---- requests and what becomes of them ----

  /** The call IDs and targets of the requests of a schedule. */
  function Requests(es: seq<Event>): seq<(string, string)> {
    if es == [] then []
    else
      var e := es[|es|-1];
      Requests(es[..|es|-1]) + if e.Request? then [(e.callId, e.transferTo)] else []
  }

  /** The waiters' requests. */
  function Asked(ws: seq<Waiter>): (r: seq<(string, string)>)
    ensures |r| == |ws|
  {
    if ws == [] then [] else Asked(ws[..|ws|-1]) + [(ws[|ws|-1].callId, ws[|ws|-1].transferTo)]
  }

  lemma {:induction false} AskedUpdate(ws: seq<Waiter>, i: nat, w: Waiter)
    requires i < |ws| && w.callId == ws[i].callId && w.transferTo == ws[i].transferTo
    ensures Asked(ws[i := w]) == Asked(ws)
  {
    var n := |ws| - 1;
    if i < n {
      AskedUpdate(ws[..n], i, w);
      assert ws[i := w][..n] == ws[..n][i := w];
    } else {
      assert ws[i := w][..n] == ws[..n];
    }
  }

  lemma {:induction false} StepAsks(s: State, e: Event)
    requires Shaped(s)
    ensures Asked(Step(s, e).waiters) == Asked(s.waiters) + if e.Request? then [(e.callId, e.transferTo)] else []
  {
    var ws := Step(s, e).waiters;
    if e.Request? {
      assert ws[..|s.waiters|] == s.waiters;
    } else if (e.Receive? || e.Return? || e.GiveUp?) && e.w < |s.waiters| {
      assert ws == s.waiters[e.w := ws[e.w]];
      AskedUpdate(s.waiters, e.w, ws[e.w]);
    }
  }

  /** Every schedule: there is one RPC for every request, in order, and none changes what it asked for. */
  lemma {:induction false} EveryRequestIsAnRpc(es: seq<Event>)
    ensures Asked(Run(es).waiters) == Requests(es)
  {
    if es != [] {
      EveryRequestIsAnRpc(es[..|es|-1]);
      StepAsks(Run(es[..|es|-1]), es[|es|-1]);
    }
  }

  /** Every schedule: a request for a call whose worker is at work joins it, or is refused for another target. */
  lemma {:induction false} RepeatedRequestJoins(es: seq<Event>, callId: string, transferTo: string, p: nat)
    requires var s := Run(es); p < |s.workers| && !s.workers[p].Finished? && s.transfers[p].callId == callId
    ensures var s, t := Run(es), Run(es + [Request(callId, transferTo)]);
            && t.transfers == s.transfers && t.workers == s.workers
            && |t.waiters| == |s.waiters| + 1
            && t.waiters[|s.waiters|].phase == if s.transfers[p].transferTo == transferTo then Waiting(p) else Refused
  {
    RunKeepsInv(es);
    Snoc(es, Request(callId, transferTo));
  }

  /** Every schedule: a request for a call without one starts a worker and waits for it. */
  lemma {:induction false} FirstRequestStarts(es: seq<Event>, callId: string, transferTo: string)
    requires var s := Run(es);
             forall p | 0 <= p < |s.workers| && s.transfers[p].callId == callId :: s.workers[p].Finished?
    ensures var s, t := Run(es), Run(es + [Request(callId, transferTo)]);
            && |t.transfers| == |s.transfers| + 1 == |t.workers| && t.workers[|s.workers|].Working?
            && t.transfers[|s.transfers|].callId == callId && t.transfers[|s.transfers|].transferTo == transferTo
            && |t.waiters| == |s.waiters| + 1 && t.waiters[|s.waiters|].phase == Waiting(|s.transfers|)
  {
    RunKeepsInv(es);
    Snoc(es, Request(callId, transferTo));
  }

  predicate ForAnother(t: Pending, w: Waiter) { t.callId == w.callId && t.transferTo != w.transferTo }

  /** Every refusal has its reason. */
  ghost predicate RefusalsJustified(s: State) {
    forall w | 0 <= w < |s.waiters| && s.waiters[w].phase.Refused? ::
      exists p | 0 <= p < |s.transfers| :: ForAnother(s.transfers[p], s.waiters[w])
  }

  /** A transfer keeps its call and target for good. */
  lemma {:induction false} TransfersKeepTheirCall(s: State, e: Event, p: nat)
    requires Shaped(s) && p < |s.transfers|
    ensures var t := Step(s, e);
            && p < |t.transfers|
            && t.transfers[p].callId == s.transfers[p].callId && t.transfers[p].transferTo == s.transfers[p].transferTo
  {
  }

  /** Only a request is refused, and only for another target than the pending one. */
  lemma {:induction false} NewRefusal(s: State, e: Event, w: nat)
    requires Inv(s) && w < |Step(s, e).waiters| && Step(s, e).waiters[w].phase.Refused?
    requires w >= |s.waiters| || !s.waiters[w].phase.Refused?
    ensures exists p | 0 <= p < |s.transfers| :: ForAnother(s.transfers[p], Step(s, e).waiters[w])
  {
    var p := s.pendingTransfers[e.callId];
    assert ForAnother(s.transfers[p], Step(s, e).waiters[w]);
  }

  lemma {:induction false} OldRefusal(s: State, e: Event, w: nat)
    requires Shaped(s) && w < |s.waiters| && s.waiters[w].phase.Refused?
    ensures w < |Step(s, e).waiters| && Step(s, e).waiters[w] == s.waiters[w]
  {
  }

  lemma {:induction false} StepJustifiesRefusals(s: State, e: Event)
    requires Inv(s) && RefusalsJustified(s)
    ensures RefusalsJustified(Step(s, e))
  {
    var t := Step(s, e);
    forall w | 0 <= w < |t.waiters| && t.waiters[w].phase.Refused?
      ensures exists p | 0 <= p < |t.transfers| :: ForAnother(t.transfers[p], t.waiters[w])
    {
      if w < |s.waiters| && s.waiters[w].phase.Refused? { OldRefusal(s, e, w); } else { NewRefusal(s, e, w); }
      var p :| 0 <= p < |s.transfers| && ForAnother(s.transfers[p], t.waiters[w]);
      TransfersKeepTheirCall(s, e, p);
      assert ForAnother(t.transfers[p], t.waiters[w]);
    }
  }

  /** Every schedule: an RPC is refused only if its call is being transferred elsewhere. */
  lemma {:induction false} RefusedOnlyForAnotherTarget(es: seq<Event>)
    ensures RefusalsJustified(Run(es))
  {
    if es != [] {
      RefusedOnlyForAnotherTarget(es[..|es|-1]);
      RunKeepsInv(es[..|es|-1]);
      StepJustifiesRefusals(Run(es[..|es|-1]), es[|es|-1]);
    }
  }

  predicate Happened(es: seq<Event>, e: Event) { es != [] && (es[|es|-1] == e || Happened(es[..|es|-1], e)) }

  lemma {:induction false} StepGivesUp(s: State, e: Event, w: nat)
    requires Shaped(s) && w < |Step(s, e).waiters| && Step(s, e).waiters[w].phase.GaveUp?
    ensures (w < |s.waiters| && s.waiters[w].phase.GaveUp?) || e == GiveUp(w)
  {
  }

  /** Every schedule: an RPC gives up only when its own context is done. */
  lemma {:induction false} GivesUpOnlyItself(es: seq<Event>, w: nat)
    requires w < |Run(es).waiters| && Run(es).waiters[w].phase.GaveUp?
    ensures Happened(es, GiveUp(w))
  {
    if es != [] {
      var s := Run(es[..|es|-1]);
      StepGivesUp(s, es[|es|-1], w);
      if w < |s.waiters| && s.waiters[w].phase.GaveUp? { GivesUpOnlyItself(es[..|es|-1], w); }
    }
  }

  lemma {:induction false} StepOffers(s: State, e: Event, p: nat)
    requires Shaped(s) && p < |Step(s, e).workers| && !Step(s, e).workers[p].Working?
    ensures var out := Step(s, e).workers[p].out;
            (p < |s.workers| && !s.workers[p].Working? && s.workers[p].out == out) || e == Offer(p, out)
  {
  }

  /** Every schedule: a worker's outcome is one it offered. */
  lemma {:induction false} OutcomeIsOffered(es: seq<Event>, p: nat)
    requires p < |Run(es).workers| && !Run(es).workers[p].Working?
    ensures Happened(es, Offer(p, Run(es).workers[p].out))
  {
    if es != [] {
      var s := Run(es[..|es|-1]);
      StepOffers(s, es[|es|-1], p);
      if p < |s.workers| && !s.workers[p].Working? { OutcomeIsOffered(es[..|es|-1], p); }
    }
  }

  // ---- from the NOTIFY to the response ----

  /** The response for a transfer that ended with a NOTIFY's verdict. */
  function ResponseTo(id: string, v: Refer.Verdict): Response {
    TransferResponse(Outcome(id, if v.None? then None else Some(FromRefer(v.value))))
  }

  /**
    A NOTIFY addressed to the REFER is reported with its own code: as a success, or as a rejection with that status.
  */
  lemma {:induction false} StatusIsReported(info: Refer.NotifyInfo, referCSeq: nat, id: string)
    requires info.cseq in {0, referCSeq} && info.status >= 200
    ensures var v := Refer.Classify(info, referCSeq);
            && v.Some?
            && var r := ResponseTo(id, v.value);
            && (r.successful <==> info.status == 200)
            && r.sipStatus == (if info.status == 200 then None else Some(info.status))
  {
  }

  // ---- progress ----

  /** What the worker does next, and where that leaves it. */
  predicate Moves(w: Worker, p: nat, e: Event, next: Worker) {
    match e
    case Offer(q, out) => q == p && w.Working? && next == Offered(out)
    case Store(q) => q == p && w.Offered? && next == Stored(w.out)
    case CloseDone(q) => q == p && w.Stored? && next == Closed(w.out)
    case Forget(q) => q == p && w.Closed? && next == Finished(w.out)
    case _ => false
  }

  lemma {:induction false} WorkerStep(s: State, p: nat, e: Event, next: Worker)
    requires Shaped(s) && p < |s.workers| && Moves(s.workers[p], p, e, next)
    ensures var t := Step(s, e); p < |t.workers| && t.workers[p] == next && t.waiters == s.waiters
  {
  }

  lemma {:induction false} WorkerMoves(es: seq<Event>, p: nat, e: Event, next: Worker)
    requires p < |Run(es).workers| && Moves(Run(es).workers[p], p, e, next)
    ensures var t := Run(es + [e]); p < |t.workers| && t.workers[p] == next && t.waiters == Run(es).waiters
  {
    Snoc(es, e);
    WorkerStep(Run(es), p, e, next);
  }

  /** The steps of a worker from its result on. */
  function WorkerSteps(p: nat, out: Outcome): seq<Event> { [Offer(p, out)] + [Store(p)] + [CloseDone(p)] + [Forget(p)] }

  lemma {:induction false} WorkerStepsRun(es: seq<Event>, p: nat, out: Outcome)
    requires p < |Run(es).workers| && Run(es).workers[p].Working?
    ensures var t := Run(es + WorkerSteps(p, out));
            p < |t.workers| && t.workers[p] == Finished(out) && t.waiters == Run(es).waiters
  {
    var a := es + [Offer(p, out)];
    var b := a + [Store(p)];
    var c := b + [CloseDone(p)];
    WorkerMoves(es, p, Offer(p, out), Offered(out));
    WorkerMoves(a, p, Store(p), Stored(out));
    WorkerMoves(b, p, CloseDone(p), Closed(out));
    WorkerMoves(c, p, Forget(p), Finished(out));
    assert c + [Forget(p)] == es + WorkerSteps(p, out);
  }

  /** Every schedule: a worker with a result closes the channel and leaves the map, with the result stored. */
  lemma {:induction false} WorkerFinishes(es: seq<Event>, p: nat, out: Outcome)
    requires p < |Run(es).workers| && Run(es).workers[p].Working?
    ensures var t := Run(es + WorkerSteps(p, out));
            && p < |t.workers| == |t.transfers| && t.workers[p] == Finished(out)
            && t.transfers[p].closed && t.transfers[p].stored == Some(out) && t.waiters == Run(es).waiters
  {
    WorkerStepsRun(es, p, out);
    RunKeepsInv(es + WorkerSteps(p, out));
    var t := Run(es + WorkerSteps(p, out));
    assert WorkerAgrees(t.transfers[p], t.workers[p]);
  }

  /** Every schedule: whoever waits for a worker at work gets the result it then comes to. */
  lemma {:induction false} WaiterGetsTheResult(es: seq<Event>, w: nat, out: Outcome)
    requires w < |Run(es).waiters| && Run(es).waiters[w].phase.Waiting?
    requires Run(es).workers[Run(es).waiters[w].phase.p].Working?
    ensures var p := Run(es).waiters[w].phase.p;
            var t := Run(es + WorkerSteps(p, out) + [] + [Receive(w)] + [] + [Return(w)]);
            w < |t.waiters| && t.waiters[w].phase == Returned(p, out)
  {
    var p := Run(es).waiters[w].phase.p;
    WorkerFinishes(es, p, out);
    NoWaiterStranded(es + WorkerSteps(p, out), [], [], w);
  }

  /** Every schedule: an RPC that is still waiting can give up, and that changes nothing for the others. */
  lemma {:induction false} WaiterCanGiveUp(es: seq<Event>, w: nat)
    requires w < |Run(es).waiters| && Run(es).waiters[w].phase.Waiting?
    ensures var s, t := Run(es), Run(es + [GiveUp(w)]);
            && t == s.(waiters := s.waiters[w := s.waiters[w].(phase := GaveUp)])
  {
    Snoc(es, GiveUp(w));
  }
}
