/**
  INVITE transactions as the outbound dialog uses them, and what the bridge sends for
  each. The transaction layer is an environment: each transaction delivers a sequence of
  events, one of which settles it. The watcher of a cancelled INVITE runs in the
  background in the source; its messages concern its own transaction only and are
  recorded when the transaction is handed to it. Sections 9.1, 13.2.2.4 and 17.1.1 of
  RFC 3261.
*/
module OutboundTx {
  import opened Prelude

  /** What the bridge does with INVITE transaction tx. */
  datatype TxMsg =
    | Cancel(tx: nat)
    | Terminate(tx: nat)
    | WatchAck(tx: nat)          // by the watcher of a cancelled INVITE
    | WatchBye(tx: nat)

  // ---- transactions ----

  /** Expired: the waiter's own context, or the watcher's timer, ran out; Stopping: the client shuts down. */
  datatype TxEvent = Expired | Stopping | TxDone | NoResponse | Resp(code: nat)

  predicate Provisional(e: TxEvent) { e.Resp? && e.code / 100 == 1 }

  /** The number of provisional responses before the event that settles the transaction. */
  function Leading(es: seq<TxEvent>): (n: nat)
    ensures n <= |es|
    ensures forall k | 0 <= k < n :: Provisional(es[k])
    ensures n < |es| ==> !Provisional(es[n])
  {
    if es == [] || !Provisional(es[0]) then 0 else 1 + Leading(es[1..])
  }

  /** The environment eventually settles the transaction: the dial has a ringing timeout, the watcher a timer. */
  predicate Settles(es: seq<TxEvent>) { Leading(es) < |es| }

  function Settling(es: seq<TxEvent>): TxEvent
    requires Settles(es)
  {
    es[Leading(es)]
  }

  datatype TxResult = Cancelled | ShuttingDown | TimedOut(provisional: nat) | Final(code: nat)

  /** sipResponse: the first event that is not a provisional response decides. */
  method SipResponse(es: seq<TxEvent>) returns (r: TxResult, cancel: bool)
    requires Settles(es)
    ensures cancel <==> Settling(es).Expired? || Settling(es).Stopping?
    ensures r == match Settling(es)
                 case Expired => Cancelled
                 case Stopping => ShuttingDown
                 case Resp(code) => Final(code)
                 case _ => TimedOut(Leading(es))
  {
    var cnt := 0;
    while true
      invariant cnt <= Leading(es)
      decreases |es| - cnt
    {
      match es[cnt]
      case Expired => return Cancelled, true;
      case Stopping => return ShuttingDown, true;
      case TxDone => return TimedOut(cnt), false;
      case NoResponse => return TimedOut(cnt), false;
      case Resp(code) =>
        if code / 100 != 1 { return Final(code), false; }
        cnt := cnt + 1;
    }
  }

  /** What the watcher of a cancelled INVITE does about the event that settles its watch. */
  function WatchTrace(tx: nat, es: seq<TxEvent>): seq<TxMsg>
    requires Settles(es)
  {
    (if Settling(es).Resp? && Settling(es).code / 100 == 2 then [WatchAck(tx), WatchBye(tx)] else []) + [Terminate(tx)]
  }

  method WatchCancelledInvite(tx: nat, es: seq<TxEvent>) returns (out: seq<TxMsg>)
    requires Settles(es)
    ensures out == WatchTrace(tx, es)
  {
    var i := 0;
    out := [];
    while true
      invariant i <= Leading(es) && out == []
      decreases |es| - i
    {
      if es[i].Resp? {
        if es[i].code / 100 == 1 {
          i := i + 1;
          continue;
        }
        if es[i].code / 100 == 2 { out := [WatchAck(tx), WatchBye(tx)]; }
      }
      break;
    }
    out := out + [Terminate(tx)];
  }

  // ---- one attempt ----

  /** One INVITE attempt, as the environment plays it. */
  datatype RawAttempt = Attempt(
    requestOk: bool,             // the transaction could be started
    events: seq<TxEvent>,        // what it delivers to the dialing goroutine
    cancelled: bool,             // the context is done or the client closing, when the result is inspected
    watched: seq<TxEvent>,       // what it delivers to the watcher, should it be handed over
    challengeOk: bool)           // a 401 or 407 carries a challenge that can be answered

  /** Both waits settle, and a wait that ended by cancellation is seen as cancelled afterwards. */
  predicate Fair(a: RawAttempt) {
    && Settles(a.events) && Settles(a.watched)
    && (Settling(a.events).Expired? || Settling(a.events).Stopping? ==> a.cancelled)
  }

  type Attempt = a: RawAttempt | Fair(a) witness Attempt(false, [TxDone], false, [TxDone], false)

  /** The final response an attempt yields, if any. */
  function Outcome(a: Attempt): Option<nat> {
    if a.requestOk && Settling(a.events).Resp? then Some(Settling(a.events).code) else None
  }

  /** What follows the INVITE of one attempt. */
  function AfterInvite(tx: nat, a: Attempt): seq<TxMsg>
  {
    if !a.requestOk then []
    else
      (if Settling(a.events).Expired? || Settling(a.events).Stopping? then [Cancel(tx)] else []) +
      if !Settling(a.events).Resp? && a.cancelled then WatchTrace(tx, a.watched) else [Terminate(tx)]
  }

  /**
    Transaction t was terminated once if it was started, else never, and a watcher acknowledged at most one 2xx and
    ended that call.
  */
  ghost predicate Settled(trace: seq<TxMsg>, t: nat, started: set<nat>) {
    && multiset(trace)[Terminate(t)] == (if t in started then 1 else 0)
    && multiset(trace)[WatchAck(t)] == multiset(trace)[WatchBye(t)] <= multiset(trace)[Terminate(t)]
  }

  ghost predicate AllSettled(trace: seq<TxMsg>, started: set<nat>) {
    forall t: nat :: Settled(trace, t, started)
  }

  lemma {:induction false} SettledConcat(a: seq<TxMsg>, b: seq<TxMsg>, s: set<nat>, t: set<nat>)
    requires AllSettled(a, s) && AllSettled(b, t) && s !! t
    ensures AllSettled(a + b, s + t)
  {
    forall u: nat ensures Settled(a + b, u, s + t) {
      assert Settled(a, u, s) && Settled(b, u, t);
    }
  }

  /** The transactions an attempt starts. */
  function Own(tx: nat, a: Attempt): set<nat> { if a.requestOk then {tx} else {} }

  lemma {:induction false} WatchSettles(tx: nat, es: seq<TxEvent>)
    requires Settles(es)
    ensures AllSettled(WatchTrace(tx, es), {tx})
  {
    TerminateSettles(tx);
    if Settling(es).Resp? && Settling(es).code / 100 == 2 {
      AcknowledgedSettles(tx);
      assert WatchTrace(tx, es) == [WatchAck(tx), WatchBye(tx), Terminate(tx)];
    } else {
      assert WatchTrace(tx, es) == [Terminate(tx)];
    }
  }

  lemma {:induction false} TerminateSettles(tx: nat)
    ensures AllSettled([Terminate(tx)], {tx})
  {
    forall t: nat ensures Settled([Terminate(tx)], t, {tx}) {}
  }

  lemma {:induction false} AcknowledgedSettles(tx: nat)
    ensures AllSettled([WatchAck(tx), WatchBye(tx), Terminate(tx)], {tx})
  {
    forall t: nat ensures Settled([WatchAck(tx), WatchBye(tx), Terminate(tx)], t, {tx}) {}
  }

  /** An attempt terminates its own transaction exactly once if it got one, and touches no other. */
  lemma {:induction false} AttemptSettles(tx: nat, a: Attempt)
    ensures AllSettled(AfterInvite(tx, a), Own(tx, a))
  {
    if a.requestOk {
      var head := if Settling(a.events).Expired? || Settling(a.events).Stopping? then [Cancel(tx)] else [];
      var rest := if !Settling(a.events).Resp? && a.cancelled then WatchTrace(tx, a.watched) else [Terminate(tx)];
      WatchSettles(tx, a.watched);
      assert AllSettled(head, {}) && AllSettled(rest, {tx});
      SettledConcat(head, rest, {}, {tx});
      assert {} + {tx} == {tx};
    }
  }

  /** The transaction part of attemptInvite. */
  method RunTransaction(tx: nat, a: Attempt) returns (out: seq<TxMsg>, code: Option<nat>)
    ensures out == AfterInvite(tx, a) && AllSettled(out, Own(tx, a))
    ensures code == Outcome(a)
  {
    AttemptSettles(tx, a);
    if !a.requestOk { return [], None; }
    var r, cancel := SipResponse(a.events);
    out := if cancel then [Cancel(tx)] else [];
    if !r.Final? && a.cancelled {
      var w := WatchCancelledInvite(tx, a.watched);
      out := out + w;
    } else {
      out := out + [Terminate(tx)];
    }
    code := if r.Final? then Some(r.code) else None;
  }

  // ---- what the responses mean, by their codes ----

  /** The event at position k settles the wait: only responses from 100 to 199 come before it, and it is none. */
  predicate SettlesAt(es: seq<TxEvent>, k: nat) {
    && k < |es| && (forall i | 0 <= i < k :: es[i].Resp? && 100 <= es[i].code <= 199)
    && !(es[k].Resp? && 100 <= es[k].code <= 199)
  }

  lemma {:induction false} LeadingIs(es: seq<TxEvent>, k: nat)
    requires SettlesAt(es, k)
    ensures Leading(es) == k
  {
    if k > 0 {
      assert es[0].Resp? && 100 <= es[0].code <= 199;
      LeadingIs(es[1..], k - 1);
    }
  }

  /** What the watcher owes: an ACK and a BYE for a response from 200 to 299, and in any case the termination. */
  function Owed(tx: nat, e: TxEvent): seq<TxMsg> {
    if e.Resp? && 200 <= e.code <= 299 then [WatchAck(tx), WatchBye(tx), Terminate(tx)] else [Terminate(tx)]
  }

  /** A cancelled INVITE that is answered after all is acknowledged and hung up, and only then. */
  lemma {:induction false} LateAnswerIsHungUp(tx: nat, es: seq<TxEvent>, k: nat)
    requires SettlesAt(es, k)
    ensures Settles(es) && WatchTrace(tx, es) == Owed(tx, es[k])
  {
    LeadingIs(es, k);
    if es[k].Resp? { assert es[k].code / 100 == 2 <==> 200 <= es[k].code <= 299; }
  }

  /**
    A whole attempt, by the events that settle its two waits: a CANCEL exactly if its own time or the client's ran out,
    a watcher exactly if it ended without a response while cancelled, and the code of its final response.
  */
  lemma {:induction false} AttemptActs(tx: nat, a: Attempt, k: nat, j: nat)
    requires SettlesAt(a.events, k) && SettlesAt(a.watched, j)
    ensures var e := a.events[k];
            AfterInvite(tx, a) ==
            if !a.requestOk then []
            else if e.Expired? || e.Stopping? then [Cancel(tx)] + Owed(tx, a.watched[j])
            else if !e.Resp? && a.cancelled then Owed(tx, a.watched[j])
            else [Terminate(tx)]
    ensures Outcome(a) == if a.requestOk && a.events[k].Resp? then Some(a.events[k].code) else None
  {
    LeadingIs(a.events, k);
    LateAnswerIsHungUp(tx, a.watched, j);
  }
}
