/**
  The outcome of one accepted REFER: which NOTIFY decides it, and how that
  decision races with the end of the call.

  The NOTIFY handlers and the waiting goroutine meet on an unbuffered channel, so
  the race is a state machine whose events are the scheduler's choices: a handler
  that finds no receiver parks, in order, until its acknowledgement timer runs out;
  a receiver that finds a parked handler takes the oldest one at once. Times are
  milliseconds.
*/
module Refer {
  import opened Prelude

  const NOTIFY_ACK_TIMEOUT := 5_000
  const REFER_RESULT_GRACE := 1_000

  /** What handleNotify extracts from a NOTIFY; status 0 means "no body". */
  datatype RawNotifyInfo = NotifyInfo(cseq: nat, status: nat, terminated: bool)
  type NotifyInfo = i: RawNotifyInfo | i.status == 0 || 100 <= i.status <= 699 witness NotifyInfo(0, 0, false)

  datatype ReferError =
    | FinalStatus(code: nat)
    | SubscriptionTerminated(lastStatus: nat)
    | CallEnded
    | ContextDone(deadline: bool)

  /** None is success. */
  type Verdict = Option<ReferError>

  predicate FromPeer(v: Verdict) { v.Some? ==> v.value.FinalStatus? || v.value.SubscriptionTerminated? }

  /** Addressed to this REFER, and either a final status or the end of the subscription. */
  predicate Decides(info: NotifyInfo, referCSeq: nat) {
    info.cseq in {0, referCSeq} && (info.status >= 200 || info.terminated)
  }

  /** The classification made by handleReferNotify: None when the handler returns without reporting. */
  function Classify(info: NotifyInfo, referCSeq: nat): (r: Option<Verdict>)
    ensures r.Some? <==> Decides(info, referCSeq)
    ensures r.Some? ==> (r.value.None? <==> info.status == 200)
    ensures r.Some? ==> FromPeer(r.value)
    ensures r.Some? && r.value.Some? ==> (r.value.value.FinalStatus? <==> info.status >= 200)
    ensures r.Some? && r.value.Some? && r.value.value.FinalStatus? ==> r.value.value.code == info.status
    ensures r.Some? && r.value.Some? && r.value.value.SubscriptionTerminated? ==>
              r.value.value.lastStatus == info.status
  {
    if info.cseq != 0 && info.cseq != referCSeq then None
    else if info.status == 200 then Some(None)
    else if info.status == 0 || 100 <= info.status < 200 then
      if !info.terminated then None else Some(Some(SubscriptionTerminated(info.status)))
    else Some(Some(FinalStatus(info.status)))
  }

  // ---- the handoff ----

  datatype Decision = Decision(verdict: Verdict, at: nat)

  datatype Phase =
    | Unsent                       // the REFER is not accepted yet: nobody receives
    | Waiting                      // blocked in the outer select
    | Grace(since: nat)            // blocked in the inner select
    | Done(verdict: Verdict, source: Option<nat>, seen: nat, at: nat)

  datatype State = State(
    now: nat,
    phase: Phase,
    acceptedAt: nat,               // when the wait began; follows the clock until then
    decisions: seq<Decision>,      // every decision reported so far, in order of arrival
    queue: seq<nat>,               // indices of the decisions whose handlers are parked, oldest first
    endedAt: Option<nat>,          // when callDone was closed
    ctx: Option<bool>)             // Some(true) when the deadline passed, Some(false) when cancelled

  /** Which ready case the outer select picks when several are ready on entry. */
  datatype Choice = TakeContext | TakeResult | TakeCallEnd

  datatype Event =
    | Notify(info: NotifyInfo)
    | HandlerTimeout(k: nat)
    | Accepted(choice: Choice)
    | EndCall
    | CancelContext(deadline: bool)
    | GraceExpires
    | Tick(d: nat)

  const Init := State(0, Unsent, 0, [], [], None, None)

  predicate Linked(s: State) { forall i | 0 <= i < |s.queue| :: s.queue[i] < |s.decisions| }

  function Finish(s: State, verdict: Verdict, source: Option<nat>): State {
    s.(phase := Done(verdict, source, |s.decisions|, s.now))
  }

  function TakeOldest(s: State): State
    requires Linked(s) && s.queue != []
  {
    Finish(s, s.decisions[s.queue[0]].verdict, Some(s.queue[0])).(queue := s.queue[1..])
  }

  /** Entering the inner select: a parked result is ready, the fresh timer is not. */
  function OnCallEnd(s: State): State
    requires Linked(s)
  {
    if s.queue != [] then TakeOldest(s) else s.(phase := Grace(s.now))
  }

  /** A handler reports a decision: handed over if somebody receives, parked otherwise. */
  function Report(s: State, verdict: Verdict): State {
    var t := s.(decisions := s.decisions + [Decision(verdict, s.now)]);
    if s.phase.Waiting? || s.phase.Grace?
    then Finish(t, verdict, Some(|s.decisions|))
    else t.(queue := s.queue + [|s.decisions|])
  }

  /** One step; an event that is not enabled leaves the state alone. */
  function Step(s: State, e: Event, referCSeq: nat): State
    requires Linked(s)
  {
    match e
    case Notify(info) =>
      var c := Classify(info, referCSeq);
      if c.None? then s else Report(s, c.value)
    case HandlerTimeout(k) =>
      if k < |s.queue| && s.decisions[s.queue[k]].at + NOTIFY_ACK_TIMEOUT <= s.now
      then s.(queue := s.queue[..k] + s.queue[k+1..])
      else s
    case Accepted(choice) =>
      if !s.phase.Unsent? then s
      else if choice.TakeContext? && s.ctx.Some? then Finish(s, Some(ContextDone(s.ctx.value)), None)
      else if choice.TakeResult? && s.queue != [] then TakeOldest(s)
      else if choice.TakeCallEnd? && s.endedAt.Some? then OnCallEnd(s)
      else if s.ctx.Some? || s.queue != [] || s.endedAt.Some? then s   // some ready case must be picked
      else s.(phase := Waiting)
    case EndCall =>
      if s.endedAt.Some? then s
      else
        var t := s.(endedAt := Some(s.now));
        if s.phase.Waiting? then OnCallEnd(t) else t
    case CancelContext(deadline) =>
      if s.ctx.Some? then s
      else
        var t := s.(ctx := Some(deadline));
        if s.phase.Waiting? then Finish(t, Some(ContextDone(deadline)), None) else t
    case GraceExpires =>
      if s.phase.Grace? && s.phase.since + REFER_RESULT_GRACE <= s.now
      then Finish(s, Some(CallEnded), None)
      else s
    case Tick(d) =>
      s.(now := s.now + d, acceptedAt := if s.phase.Unsent? then s.now + d else s.acceptedAt)
  }

  /** The handler of the decision waited out its whole timer before anybody started to receive. */
  predicate Abandoned(d: Decision, acceptedAt: nat) { d.at + NOTIFY_ACK_TIMEOUT <= acceptedAt }

  /** What a finished wait is entitled to have concluded. */
  ghost predicate Settled(s: State)
    requires s.phase.Done?
  {
    && s.phase.seen <= |s.decisions|
    && match s.phase.source
       case Some(k) =>
         && k < s.phase.seen && s.phase.verdict == s.decisions[k].verdict
         && forall j | 0 <= j < k :: Abandoned(s.decisions[j], s.acceptedAt)
       case None =>
         || (s.ctx.Some? && s.phase.verdict == Some(ContextDone(s.ctx.value)))
         || (&& s.phase.verdict == Some(CallEnded) && s.endedAt.Some?
             && s.endedAt.value + REFER_RESULT_GRACE <= s.phase.at
             && s.acceptedAt + REFER_RESULT_GRACE <= s.phase.at
             && forall j | 0 <= j < s.phase.seen :: Abandoned(s.decisions[j], s.acceptedAt))
  }

  ghost predicate Inv(s: State) {
    && Linked(s)
    && s.acceptedAt <= s.now
    && (s.endedAt.Some? ==> s.endedAt.value <= s.now)
    && (forall n | 0 <= n < |s.decisions| :: FromPeer(s.decisions[n].verdict))
    && (forall i, j | 0 <= i < j < |s.queue| :: s.queue[i] < s.queue[j])
    && (s.phase.Unsent? ==> s.acceptedAt == s.now)
    && (s.phase.Waiting? ==> s.endedAt.None? && s.ctx.None?)
    && (s.phase.Waiting? || s.phase.Grace? ==> s.queue == [])
    && (s.phase.Grace? ==> s.endedAt.Some? && s.endedAt.value <= s.phase.since && s.acceptedAt <= s.phase.since)
    && (!s.phase.Done? ==> forall n | 0 <= n < |s.decisions| :: n in s.queue || Abandoned(s.decisions[n], s.acceptedAt))
    && (s.phase.Done? ==> Settled(s))
  }

  lemma {:induction false} DropKeepsMembers(q: seq<nat>, k: nat, n: nat)
    requires k < |q| && n in q && n != q[k]
    ensures n in q[..k] + q[k+1..]
  {
    var i :| 0 <= i < |q| && q[i] == n;
    assert if i < k then (q[..k] + q[k+1..])[i] == n else (q[..k] + q[k+1..])[i - 1] == n;
  }

  lemma {:induction false} TakeOldestKeepsInv(s: State)
    requires Inv(s) && s.queue != [] && !s.phase.Done?
    ensures Inv(TakeOldest(s))
  {
    forall j | 0 <= j < s.queue[0] ensures Abandoned(s.decisions[j], s.acceptedAt) {
      if j in s.queue {
        var i :| 0 <= i < |s.queue| && s.queue[i] == j;
        assert false;
      }
    }
  }

  lemma {:induction false} ReportKeepsInv(s: State, verdict: Verdict)
    requires Inv(s) && FromPeer(verdict)
    ensures Inv(Report(s, verdict))
  {
  }

  lemma {:induction false} TimeoutKeepsInv(s: State, k: nat, referCSeq: nat)
    requires Inv(s)
    ensures Inv(Step(s, HandlerTimeout(k), referCSeq))
  {
    var t := Step(s, HandlerTimeout(k), referCSeq);
    if t != s && !s.phase.Done? {
      forall n | 0 <= n < |t.decisions| ensures n in t.queue || Abandoned(t.decisions[n], t.acceptedAt) {
        if n in s.queue && n != s.queue[k] { DropKeepsMembers(s.queue, k, n); }
      }
    }
  }

  lemma {:induction false} AcceptedKeepsInv(s: State, choice: Choice, referCSeq: nat)
    requires Inv(s)
    ensures Inv(Step(s, Accepted(choice), referCSeq))
  {
    if s.phase.Unsent? && s.queue != [] { TakeOldestKeepsInv(s); }
  }

  lemma {:induction false} EndCallKeepsInv(s: State, referCSeq: nat)
    requires Inv(s)
    ensures Inv(Step(s, EndCall, referCSeq))
  {
  }

  lemma {:induction false} StepKeepsInv(s: State, e: Event, referCSeq: nat)
    requires Inv(s)
    ensures Inv(Step(s, e, referCSeq))
  {
    match e
    case Notify(info) => if Classify(info, referCSeq).Some? { ReportKeepsInv(s, Classify(info, referCSeq).value); }
    case HandlerTimeout(k) => TimeoutKeepsInv(s, k, referCSeq);
    case Accepted(choice) => AcceptedKeepsInv(s, choice, referCSeq);
    case EndCall => EndCallKeepsInv(s, referCSeq);
    case CancelContext(_) =>
    case GraceExpires =>
    case Tick(_) =>
  }

  // ---- whole runs ----

  /** The state after an arbitrary schedule. */
  function Run(es: seq<Event>, referCSeq: nat): (s: State)
    ensures Inv(s)
  {
    if es == [] then Init
    else
      var s := Run(es[..|es|-1], referCSeq);
      StepKeepsInv(s, es[|es|-1], referCSeq);
      Step(s, es[|es|-1], referCSeq)
  }

  /** The verdicts of the deciding NOTIFYs of a schedule, in order of arrival. */
  function Deciding(es: seq<Event>, referCSeq: nat): seq<Verdict> {
    if es == [] then []
    else
      var vs, e := Deciding(es[..|es|-1], referCSeq), es[|es|-1];
      if e.Notify? && Decides(e.info, referCSeq) then vs + [Classify(e.info, referCSeq).value] else vs
  }

  lemma {:induction false} StepDecides(s: State, e: Event, referCSeq: nat)
    requires Linked(s)
    ensures Step(s, e, referCSeq).decisions ==
            if e.Notify? && Decides(e.info, referCSeq)
            then s.decisions + [Decision(Classify(e.info, referCSeq).value, s.now)]
            else s.decisions
  {
  }

  lemma {:induction false} DecisionsAreTheDecidingNotifies(es: seq<Event>, referCSeq: nat)
    ensures |Run(es, referCSeq).decisions| == |Deciding(es, referCSeq)|
    ensures forall k | 0 <= k < |Deciding(es, referCSeq)| ::
              Run(es, referCSeq).decisions[k].verdict == Deciding(es, referCSeq)[k]
  {
    if es != [] {
      DecisionsAreTheDecidingNotifies(es[..|es|-1], referCSeq);
      StepDecides(Run(es[..|es|-1], referCSeq), es[|es|-1], referCSeq);
    }
  }

  /**
    Every schedule: a wait that ends with a NOTIFY's verdict ends with the first deciding one, unless that
    one's handler had already given up before the REFER was accepted; and it succeeds exactly on a 200.
  */
  lemma {:induction false} FirstDecidingNotifyWins(es: seq<Event>, referCSeq: nat)
    requires Run(es, referCSeq).phase.Done? && Run(es, referCSeq).phase.source.Some?
    ensures var s := Run(es, referCSeq);
            var k := s.phase.source.value;
            && k < |Deciding(es, referCSeq)| && s.phase.verdict == Deciding(es, referCSeq)[k]
            && (forall j | 0 <= j < k :: s.decisions[j].at + NOTIFY_ACK_TIMEOUT <= s.acceptedAt)
            && (s.acceptedAt < s.decisions[0].at + NOTIFY_ACK_TIMEOUT ==> s.phase.verdict == Deciding(es, referCSeq)[0])
  {
    DecisionsAreTheDecidingNotifies(es, referCSeq);
  }

  lemma {:induction false} SettledMeans(s: State)
    requires Inv(s) && s.phase.Done?
    ensures s.phase.source.None? <==>
              s.phase.verdict.Some? && (s.phase.verdict.value.CallEnded? || s.phase.verdict.value.ContextDone?)
    ensures s.phase.verdict.Some? && s.phase.verdict.value.ContextDone? ==>
              s.ctx == Some(s.phase.verdict.value.deadline)
    ensures s.phase.seen <= |s.decisions|
    ensures s.phase.verdict == Some(CallEnded) ==>
              && s.endedAt.Some? && s.endedAt.value + REFER_RESULT_GRACE <= s.phase.at
              && s.acceptedAt + REFER_RESULT_GRACE <= s.phase.at
              && forall j | 0 <= j < s.phase.seen :: s.decisions[j].at + NOTIFY_ACK_TIMEOUT <= s.acceptedAt
  {
  }

  /**
    Every schedule: the wait ends with a NOTIFY's verdict, with the end of its context, or with "call ended", and
    the last only after the full grace, with no deciding NOTIFY parked when the call ended or arriving before the
    grace ran out (all those reported by then had been given up before the wait began).
  */
  lemma {:induction false} ResultBeatsCallEnd(es: seq<Event>, referCSeq: nat)
    requires Run(es, referCSeq).phase.Done?
    ensures var s := Run(es, referCSeq);
            var v := s.phase.verdict;
            && (s.phase.source.None? <==> v.Some? && (v.value.CallEnded? || v.value.ContextDone?))
            && (v.Some? && v.value.ContextDone? ==> s.ctx == Some(v.value.deadline))
            && s.phase.seen <= |Deciding(es, referCSeq)| == |s.decisions|
            && (v == Some(CallEnded) ==>
                  && s.endedAt.Some? && s.endedAt.value + 1_000 <= s.phase.at
                  && s.acceptedAt + 1_000 <= s.phase.at
                  && forall j | 0 <= j < s.phase.seen :: s.decisions[j].at + NOTIFY_ACK_TIMEOUT <= s.acceptedAt)
  {
    DecisionsAreTheDecidingNotifies(es, referCSeq);
    SettledMeans(Run(es, referCSeq));
  }

  lemma Snoc(es: seq<Event>, e: Event, referCSeq: nat)
    ensures Run(es + [e], referCSeq) == Step(Run(es, referCSeq), e, referCSeq)
  {
    assert (es + [e])[..|es|] == es;
  }

  lemma {:induction false} ParkedAndGivenUp(a: NotifyInfo, gap: nat, referCSeq: nat)
    requires Decides(a, referCSeq) && gap >= NOTIFY_ACK_TIMEOUT
    ensures var d := Decision(Classify(a, referCSeq).value, 0);
            var parked, late := State(0, Unsent, 0, [d], [0], None, None),
                State(gap, Unsent, gap, [d], [0], None, None);
            && Step(Init, Notify(a), referCSeq) == parked
            && Step(parked, Tick(gap), referCSeq) == late
            && Step(late, HandlerTimeout(0), referCSeq) == State(gap, Unsent, gap, [d], [], None, None)
  {
  }

  /** A deciding NOTIFY whose handler gives up, `gap` after it arrived and before the REFER is accepted. */
  lemma {:induction false} LostBeforeAcceptance(a: NotifyInfo, gap: nat, referCSeq: nat) returns (es: seq<Event>)
    requires Decides(a, referCSeq) && gap >= NOTIFY_ACK_TIMEOUT
    ensures Run(es, referCSeq) == State(gap, Unsent, gap, [Decision(Classify(a, referCSeq).value, 0)], [], None, None)
  {
    ParkedAndGivenUp(a, gap, referCSeq);
    var one := [] + [Notify(a)];
    Snoc([], Notify(a), referCSeq);
    var two := one + [Tick(gap)];
    Snoc(one, Tick(gap), referCSeq);
    es := two + [HandlerTimeout(0)];
    Snoc(two, HandlerTimeout(0), referCSeq);
  }

  lemma {:induction false} SecondIsTaken(d: Decision, b: NotifyInfo, gap: nat, referCSeq: nat)
    requires Decides(b, referCSeq)
    ensures var v := Classify(b, referCSeq).value;
            var idle := State(gap, Unsent, gap, [d], [], None, None);
            var waiting := State(gap, Waiting, gap, [d], [], None, None);
            && Step(idle, Accepted(TakeResult), referCSeq) == waiting
            && Step(waiting, Notify(b), referCSeq) ==
               State(gap, Done(v, Some(1), 2, gap), gap, [d] + [Decision(v, gap)], [], None, None)
  {
  }

  /** How long before acceptance the first decision was reported; negative if it came after. */
  function Gap(s: State): int
    requires s.decisions != []
  {
    s.acceptedAt - s.decisions[0].at
  }

  /** The wait ended with the verdict of some deciding NOTIFY. */
  predicate EndedByNotify(s: State) { s.phase.Done? && s.phase.source.Some? && s.decisions != [] }

  /**
    Without the proviso the promise is false: for every gap from the handlers' timeout on, and for any two deciding
    NOTIFYs, there is a schedule in which the first is lost and the second decides.
  */
  lemma {:induction false} EarlyResultCanBeLost(a: NotifyInfo, b: NotifyInfo, gap: nat, referCSeq: nat)
    returns (es: seq<Event>)
    requires Decides(a, referCSeq) && Decides(b, referCSeq) && gap >= NOTIFY_ACK_TIMEOUT
    ensures var s := Run(es, referCSeq);
            && EndedByNotify(s) && Gap(s) == gap && s.phase.source == Some(1)
            && s.phase.verdict == Classify(b, referCSeq).value
            && s.decisions[0].verdict == Classify(a, referCSeq).value
  {
    var lost := LostBeforeAcceptance(a, gap, referCSeq);
    SecondIsTaken(Decision(Classify(a, referCSeq).value, 0), b, gap, referCSeq);
    var waiting := lost + [Accepted(TakeResult)];
    Snoc(lost, Accepted(TakeResult), referCSeq);
    Snoc(waiting, Notify(b), referCSeq);
    es := waiting + [Notify(b)];
  }

  /** With a gap of this size the first deciding NOTIFY decides, in every schedule that ends with a NOTIFY's verdict. */
  ghost predicate FirstAlwaysWins(gap: int, referCSeq: nat) {
    forall es: seq<Event> :: EndedByNotify(Run(es, referCSeq)) && Gap(Run(es, referCSeq)) == gap ==>
                               Run(es, referCSeq).phase.source == Some(0)
  }

  /** The handlers' timeout is the exact threshold. */
  lemma {:induction false} FirstWinsExactlyWithinTheTimeout(gap: int, referCSeq: nat)
    ensures FirstAlwaysWins(gap, referCSeq) <==> gap < 5_000
  {
    if gap < NOTIFY_ACK_TIMEOUT {
      forall es: seq<Event> | EndedByNotify(Run(es, referCSeq)) && Gap(Run(es, referCSeq)) == gap
        ensures Run(es, referCSeq).phase.source == Some(0)
      {
        FirstDecidingNotifyWins(es, referCSeq);
      }
    } else {
      var success := NotifyInfo(0, 200, true);
      var es := EarlyResultCanBeLost(success, success, gap, referCSeq);
      assert EndedByNotify(Run(es, referCSeq));
    }
  }

  // ---- the wait against the schedule ----

  function Clock(es: seq<Event>): nat {
    if es == [] then 0 else Clock(es[..|es|-1]) + if es[|es|-1].Tick? then es[|es|-1].d else 0
  }

  /** When the call first ended. */
  function EndedAt(es: seq<Event>): Option<nat> {
    if es == [] then None
    else
      var before := EndedAt(es[..|es|-1]);
      if before.None? && es[|es|-1].EndCall? then Some(Clock(es[..|es|-1])) else before
  }

  /** How the context first ended. */
  function ContextOf(es: seq<Event>): Option<bool> {
    if es == [] then None
    else
      var before := ContextOf(es[..|es|-1]);
      if before.None? && es[|es|-1].CancelContext? then Some(es[|es|-1].deadline) else before
  }

  lemma {:induction false} StepFields(s: State, e: Event, referCSeq: nat)
    requires Linked(s)
    ensures var t := Step(s, e, referCSeq);
            && t.now == s.now + (if e.Tick? then e.d else 0)
            && t.endedAt == (if s.endedAt.None? && e.EndCall? then Some(s.now) else s.endedAt)
            && t.ctx == (if s.ctx.None? && e.CancelContext? then Some(e.deadline) else s.ctx)
  {
  }

  /** The clock, the end of the call and the context are those of the schedule. */
  lemma {:induction false} FieldsFollowTheSchedule(es: seq<Event>, referCSeq: nat)
    ensures var s := Run(es, referCSeq); s.now == Clock(es) && s.endedAt == EndedAt(es) && s.ctx == ContextOf(es)
  {
    if es != [] {
      FieldsFollowTheSchedule(es[..|es|-1], referCSeq);
      StepFields(Run(es[..|es|-1], referCSeq), es[|es|-1], referCSeq);
    }
  }

  /** Every schedule: the wait blocks only while nothing it waits for is there. */
  lemma {:induction false} BlocksOnlyOnNothing(es: seq<Event>, referCSeq: nat)
    ensures var s := Run(es, referCSeq);
            && (s.phase.Waiting? ==> s.queue == [] && EndedAt(es).None? && ContextOf(es).None?)
            && (s.phase.Grace? ==> s.queue == [] && EndedAt(es).Some?)
  {
    FieldsFollowTheSchedule(es, referCSeq);
  }

  lemma {:induction false} GraceStep(s: State, referCSeq: nat)
    requires Linked(s) && s.phase.Grace? && s.phase.since + 1_000 <= s.now
    ensures var t := Step(s, GraceExpires, referCSeq); t.phase.Done? && t.phase.verdict == Some(CallEnded)
  {
  }

  /** A wait in its grace is over when the grace is. */
  lemma {:induction false} GraceEnds(es: seq<Event>, referCSeq: nat)
    requires var s := Run(es, referCSeq); s.phase.Grace? && s.phase.since + 1_000 <= Clock(es)
    ensures var t := Run(es + [GraceExpires], referCSeq); t.phase.Done? && t.phase.verdict == Some(CallEnded)
  {
    FieldsFollowTheSchedule(es, referCSeq);
    Snoc(es, GraceExpires, referCSeq);
    GraceStep(Run(es, referCSeq), referCSeq);
  }

  lemma {:induction false} AcceptStep(s: State, referCSeq: nat) returns (choice: Choice)
    requires Linked(s) && s.phase.Unsent?
    ensures var t := Step(s, Accepted(choice), referCSeq);
            && !t.phase.Unsent? && t.acceptedAt == s.acceptedAt
            && (t.phase.Waiting? <==> s.queue == [] && s.endedAt.None? && s.ctx.None?)
  {
    choice := if s.queue != [] then TakeResult else if s.endedAt.Some? then TakeCallEnd else TakeContext;
  }

  /** Acceptance starts the wait: with a ready case if there is one, and otherwise blocked. */
  lemma {:induction false} AcceptanceStartsTheWait(es: seq<Event>, referCSeq: nat) returns (choice: Choice)
    requires Run(es, referCSeq).phase.Unsent?
    ensures var s, t := Run(es, referCSeq), Run(es + [Accepted(choice)], referCSeq);
            && !t.phase.Unsent? && t.acceptedAt == Clock(es)
            && (t.phase.Waiting? <==> s.queue == [] && EndedAt(es).None? && ContextOf(es).None?)
  {
    FieldsFollowTheSchedule(es, referCSeq);
    choice := AcceptStep(Run(es, referCSeq), referCSeq);
    Snoc(es, Accepted(choice), referCSeq);
  }
}
