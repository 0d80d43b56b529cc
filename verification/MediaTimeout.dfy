/**
  The media timeout loop against a monotone clock.

  Events are the atomic actions of the loop and of everybody else: packets arriving,
  the timeout being armed, re-armed or disarmed, the clock advancing, and the loop
  waking (by kick, by timer, or spuriously), reading the shared fields, and then
  deciding with a fresh clock reading. Packets and re-arms may land between the
  reading and the decision. Times are in any unit of time.Duration.
*/
module MediaTimeout {
  import opened Prelude

  const DEFAULT_INITIAL := 30_000_000_000
  const DEFAULT_GENERAL := 15_000_000_000
  const DISABLED_PARK := 3_600_000_000_000

  /** The shared fields the loop reads: the deadline is a function of them. */
  datatype Config = Config(start: nat, lastPacket: nat, initial: nat, general: nat)

  /** From the first packet on the general window counts, whatever re-arms follow; 0 means no packet yet. */
  function Deadline(c: Config): nat {
    if c.lastPacket == 0 then c.start + c.initial else c.lastPacket + c.general
  }

  datatype Loop =
    | Parked(since: nat, wake: nat, slack: nat)    // slack: how long the pass that set the timer took
    | Deciding(view: Config, at: nat)              // the fields as read at time `at`
    | Fired(view: Config, at: nat)
    | Stopped

  datatype State = State(
    now: nat,
    armed: bool,                 // timeoutStart is not nil
    config: Config,
    kick: Option<nat>,           // the pending kick, and since when
    closed: bool,
    loop: Loop)

  datatype Event =
    | Tick(d: nat)
    | Packet
    | Enable(initial: int, general: int)
    | Disable
    | Wake(byKick: bool)
    | Decide
    | ClosePort
    | Stop

  /** The clock starts after the epoch, so a packet time is never 0. */
  function Init(now: nat): State
    requires now > 0
  {
    State(now, false, Config(0, 0, DEFAULT_INITIAL, DEFAULT_GENERAL), None, false, Parked(now, now + DISABLED_PARK, 0))
  }

  function Kick(s: State): Option<nat> { if s.kick.Some? then s.kick else Some(s.now) }

  /** The second half of a pass. */
  function Decision(view: Config, at: nat, now: nat): Loop
    requires at <= now
  {
    if Deadline(view) <= now then Fired(view, now)
    else
      var remaining := Deadline(view) - now;
      Parked(now, now + (if remaining <= view.general then remaining else view.general), now - at)
  }

  /** One step; an event that is not enabled leaves the state alone. */
  function Step(s: State, e: Event): State
    requires s.loop.Deciding? ==> s.loop.at <= s.now
  {
    match e
    case Tick(d) => s.(now := s.now + d)
    case Packet => s.(config := s.config.(lastPacket := s.now))
    case Enable(initial, general) =>
      s.(armed := true,
         config := Config(s.now,
                          s.config.lastPacket,
                          if initial <= 0 then DEFAULT_INITIAL else initial,
                          if general <= 0 then DEFAULT_GENERAL else general),
         kick := Kick(s))
    case Disable => s.(armed := false, kick := Kick(s))
    case Wake(byKick) =>
      if !s.loop.Parked? || (byKick && s.kick.None?) then s
      else
        s.(kick := if byKick then None else s.kick,
           loop := if s.armed then Deciding(s.config, s.now) else Parked(s.now, s.now + DISABLED_PARK, 0))
    case Decide => if !s.loop.Deciding? then s else s.(loop := Decision(s.loop.view, s.loop.at, s.now))
    case ClosePort => s.(closed := true)
    case Stop => if s.closed && s.loop.Parked? then s.(loop := Stopped) else s
  }

  /** No re-arm since the view was read; packets may have arrived since. */
  predicate UpToDate(view: Config, at: nat, c: Config) {
    && view.start == c.start && view.initial == c.initial && view.general == c.general
    && (view.lastPacket == c.lastPacket || (view.lastPacket <= at <= c.lastPacket))
  }

  predicate Inv(s: State) {
    && s.now > 0
    && s.config.start <= s.now && s.config.lastPacket <= s.now
    && s.config.initial > 0 && s.config.general > 0
    && (s.kick.Some? ==> s.kick.value <= s.now && (s.armed ==> s.kick.value <= s.config.start))
    && match s.loop
       case Parked(since, wake, slack) =>
         && since <= s.now && since < wake
         && (s.armed && s.kick.None? ==> wake <= Deadline(s.config) + slack && wake <= since + s.config.general)
       case Deciding(view, at) =>
         && view.lastPacket <= at <= s.now && view.general > 0
         && (s.armed && s.kick.None? ==> UpToDate(view, at, s.config))
       case Fired(view, at) => Deadline(view) <= at <= s.now
       case Stopped => true
  }

  /** Deciding leaves a timer that is right for the fields as read. */
  lemma {:induction false} DecideKeepsInv(s: State)
    requires Inv(s)
    ensures Inv(Step(s, Decide))
  {
  }

  lemma {:induction false} WakeKeepsInv(s: State, byKick: bool)
    requires Inv(s)
    ensures Inv(Step(s, Wake(byKick)))
  {
  }

  lemma {:induction false} StepKeepsInv(s: State, e: Event)
    requires Inv(s)
    ensures Inv(Step(s, e))
  {
    match e
    case Decide => DecideKeepsInv(s);
    case Wake(byKick) => WakeKeepsInv(s, byKick);
    case _ =>
  }

  /** The state after an arbitrary schedule. */
  function Run(t0: nat, es: seq<Event>): (s: State)
    requires t0 > 0
    ensures Inv(s)
  {
    if es == [] then Init(t0)
    else
      var s := Run(t0, es[..|es|-1]);
      StepKeepsInv(s, es[|es|-1]);
      Step(s, es[|es|-1])
  }

  // ---- theorems over all schedules ----

  lemma Snoc(t0: nat, es: seq<Event>, e: Event)
    requires t0 > 0
    ensures Run(t0, es + [e]) == Step(Run(t0, es), e)
  {
    assert (es + [e])[..|es|] == es;
  }

  /**
    Every schedule: while armed, a kick is pending or the timer is set no later than the current deadline plus
    the time the pass that set it took (so no later than the deadline if that pass was instantaneous); and the timer
    is never set to fire at once.
  */
  lemma {:induction false} NextWakeIsInTime(t0: nat, es: seq<Event>)
    requires t0 > 0
    ensures var s := Run(t0, es);
            && (s.armed && s.loop.Parked? ==> s.kick.Some? || s.loop.wake <= Deadline(s.config) + s.loop.slack)
            && (s.loop.Parked? ==> s.loop.since < s.loop.wake)
  {
  }

  lemma {:induction false} FiredStays(s: State, e: Event)
    requires s.loop.Fired?
    ensures Step(s, e).loop == s.loop
  {
  }

  /** Every schedule and every continuation: the callback runs at most once. */
  lemma {:induction false} FiresOnce(t0: nat, es: seq<Event>, more: seq<Event>)
    requires t0 > 0 && Run(t0, es).loop.Fired?
    ensures Run(t0, es + more).loop == Run(t0, es).loop
  {
    if more == [] {
      assert es + more == es;
    } else {
      var before := more[..|more|-1];
      FiresOnce(t0, es, before);
      assert es + more == es + before + [more[|more|-1]];
      Snoc(t0, es + before, more[|more|-1]);
      FiredStays(Run(t0, es + before), more[|more|-1]);
    }
  }

  // ---- the schedule itself: what happened when, without reference to the loop ----

  function Clock(t0: nat, es: seq<Event>): nat {
    if es == [] then t0
    else Clock(t0, es[..|es|-1]) + if es[|es|-1].Tick? then es[|es|-1].d else 0
  }

  /** An event of a schedule: its position and the time. */
  datatype Seen = Seen(index: nat, time: nat, e: Event)

  /** The last packet of a schedule. */
  function LastPacket(t0: nat, es: seq<Event>): Option<Seen> {
    if es == [] then None
    else if es[|es|-1].Packet? then Some(Seen(|es| - 1, Clock(t0, es[..|es|-1]), Packet))
    else LastPacket(t0, es[..|es|-1])
  }

  /** The last time the timeout was armed or disarmed. */
  function LastArming(t0: nat, es: seq<Event>): Option<Seen> {
    if es == [] then None
    else if es[|es|-1].Enable? || es[|es|-1].Disable? then Some(Seen(|es| - 1, Clock(t0, es[..|es|-1]), es[|es|-1]))
    else LastArming(t0, es[..|es|-1])
  }

  predicate Armed(a: Option<Seen>) { a.Some? && a.value.e.Enable? }

  function InitialOf(a: Seen): nat
    requires a.e.Enable?
  {
    if a.e.initial <= 0 then DEFAULT_INITIAL else a.e.initial
  }

  function GeneralOf(a: Seen): nat
    requires a.e.Enable?
  {
    if a.e.general <= 0 then DEFAULT_GENERAL else a.e.general
  }

  /** When silence should be reported: the initial window after arming, or the general one after the last packet. */
  function Limit(packet: Option<Seen>, arming: Seen): nat
    requires arming.e.Enable?
  {
    if packet.None? then arming.time + InitialOf(arming) else packet.value.time + GeneralOf(arming)
  }

  predicate Agrees(s: State, now: nat, packet: Option<Seen>, arming: Option<Seen>) {
    && s.now == now > 0
    && s.config.lastPacket == (if packet.None? then 0 else packet.value.time)
    && (packet.Some? ==> packet.value.time > 0)
    && s.armed == Armed(arming)
    && (s.armed ==>
          && s.config.start == arming.value.time
          && s.config.initial == InitialOf(arming.value) && s.config.general == GeneralOf(arming.value))
  }

  /** The fields are what the schedule made them. */
  lemma {:induction false} FieldsFollowTheSchedule(t0: nat, es: seq<Event>)
    requires t0 > 0
    ensures Agrees(Run(t0, es), Clock(t0, es), LastPacket(t0, es), LastArming(t0, es))
  {
    if es != [] {
      FieldsFollowTheSchedule(t0, es[..|es|-1]);
    }
  }

  /** The position of the wake-up whose pass is under way. */
  function PassStart(t0: nat, es: seq<Event>): nat
    requires t0 > 0
  {
    if es == [] then 0
    else if es[|es|-1].Wake? && Run(t0, es[..|es|-1]).loop.Parked? then |es| - 1
    else PassStart(t0, es[..|es|-1])
  }

  /** A pass decides on the fields as they were when it began, and begins only while armed. */
  lemma {:induction false} PassReadsAtItsStart(t0: nat, es: seq<Event>)
    requires t0 > 0 && Run(t0, es).loop.Deciding?
    ensures var p := PassStart(t0, es);
            && p < |es| && es[p].Wake? && Run(t0, es[..p]).armed
            && Run(t0, es).loop.view == Run(t0, es[..p]).config
  {
    var n := |es| - 1;
    if !(es[n].Wake? && Run(t0, es[..n]).loop.Parked?) {
      PassReadsAtItsStart(t0, es[..n]);
      assert es[..n][..PassStart(t0, es[..n])] == es[..PassStart(t0, es[..n])];
    }
  }

  /** Whatever happened last either happened before position p or came later. */
  lemma {:induction false} LastBefore(t0: nat, es: seq<Event>, p: nat)
    requires p <= |es|
    ensures var a, b := LastPacket(t0, es[..p]), LastPacket(t0, es); b == a || (b.Some? && p <= b.value.index < |es|)
    ensures var a, b := LastArming(t0, es[..p]), LastArming(t0, es); b == a || (b.Some? && p <= b.value.index < |es|)
    ensures var a := LastPacket(t0, es[..p]); a.Some? ==> a.value.index < p
    ensures var a := LastArming(t0, es[..p]); a.Some? ==> a.value.index < p
  {
    if p == |es| {
      assert es[..p] == es;
      if p > 0 {
        LastBefore(t0, es[..p-1], p - 1);
        assert es[..p-1][..p-1] == es[..p-1];
      }
    } else {
      var n := |es| - 1;
      LastBefore(t0, es[..n], p);
      assert es[..n][..p] == es[..p];
    }
  }

  /** What is called last has the position and kind it claims. */
  lemma {:induction false} LastIsThere(t0: nat, es: seq<Event>)
    ensures var a := LastPacket(t0, es); a.Some? ==> a.value.index < |es| && es[a.value.index].Packet?
    ensures var a := LastArming(t0, es);
            a.Some? ==>
              && a.value.index < |es| && es[a.value.index] == a.value.e
              && (a.value.e.Enable? || a.value.e.Disable?)
  {
    if es != [] {
      LastIsThere(t0, es[..|es|-1]);
    }
  }

  lemma {:induction false} ClockAdvances(t0: nat, es: seq<Event>, i: nat)
    requires i <= |es|
    ensures Clock(t0, es[..i]) <= Clock(t0, es)
  {
    if i == |es| {
      assert es[..i] == es;
    } else {
      ClockAdvances(t0, es[..|es|-1], i);
      assert es[..|es|-1][..i] == es[..i];
    }
  }

  /** No packet is later than the last. */
  lemma {:induction false} NoPacketAfterTheLast(t0: nat, es: seq<Event>, i: nat)
    requires i < |es| && es[i].Packet?
    ensures var a := LastPacket(t0, es); a.Some? && Clock(t0, es[..i]) <= a.value.time
  {
    var n := |es| - 1;
    if es[n].Packet? {
      ClockAdvances(t0, es[..n], i);
      assert es[..n][..i] == es[..i];
    } else {
      NoPacketAfterTheLast(t0, es[..n], i);
      assert es[..n][..i] == es[..i];
    }
  }

  /** The deciding step of a pass runs the callback. */
  predicate Fires(t0: nat, es: seq<Event>)
    requires t0 > 0
  {
    Run(t0, es).loop.Deciding? && Run(t0, es + [Decide]).loop.Fired?
  }

  /** A pass runs the callback exactly if the limit set by everything before the pass has been reached. */
  lemma {:induction false} FiresExactlyPastTheLimit(t0: nat, es: seq<Event>)
    requires t0 > 0 && Run(t0, es).loop.Deciding?
    ensures var p := PassStart(t0, es);
            && p < |es| && es[p].Wake? && Armed(LastArming(t0, es[..p]))
            && (Fires(t0, es) <==> Limit(LastPacket(t0, es[..p]), LastArming(t0, es[..p]).value) <= Clock(t0, es))
  {
    PassReadsAtItsStart(t0, es);
    FieldsFollowTheSchedule(t0, es);
    FieldsFollowTheSchedule(t0, es[..PassStart(t0, es)]);
    Snoc(t0, es, Decide);
  }

  /**
    Every schedule: the callback is never early with respect to what the pass could know. Every packet before the
    pass is at least the general window old; and if there was none, the initial window has passed since arming.
  */
  lemma {:induction false} NotEarly(t0: nat, es: seq<Event>)
    requires t0 > 0 && Fires(t0, es)
    ensures var p := PassStart(t0, es);
            && p < |es| && Armed(LastArming(t0, es[..p]))
            && var arming := LastArming(t0, es[..p]).value;
            && (forall i | 0 <= i < p && es[i].Packet? :: Clock(t0, es[..i]) + GeneralOf(arming) <= Clock(t0, es))
            && ((forall i | 0 <= i < p :: !es[i].Packet?) ==> arming.time + InitialOf(arming) <= Clock(t0, es))
  {
    FiresExactlyPastTheLimit(t0, es);
    var p := PassStart(t0, es);
    forall i | 0 <= i < p && es[i].Packet?
      ensures Clock(t0, es[..i]) + GeneralOf(LastArming(t0, es[..p]).value) <= Clock(t0, es)
    {
      NoPacketAfterTheLast(t0, es[..p], i);
      assert es[..p][..i] == es[..i];
    }
    LastIsThere(t0, es[..p]);
  }

  /** The callback is not wanted now: disarmed, or the current deadline lies ahead. */
  predicate Premature(s: State) { !s.armed || s.now < Deadline(s.config) }

  /**
    Something landed in the pass that began at p, after the reading, and took the callback's ground away: the last
    arming is a Disable in the pass, or a Packet or Enable in the pass moved the limit past the present.
  */
  predicate Spoiled(packet: Option<Seen>, arming: Seen, p: nat, now: nat) {
    if !arming.e.Enable? then arming.index > p
    else (arming.index > p || (packet.Some? && packet.value.index > p)) && now < Limit(packet, arming)
  }

  /** If nothing landed since p, the limit is still the one that has been reached. */
  lemma {:induction false} SpoiledOrStillPast(s: State, now: nat, packet: Option<Seen>, arming: Option<Seen>,
                                              packet0: Option<Seen>, arming0: Option<Seen>, p: nat)
    requires Agrees(s, now, packet, arming) && Armed(arming0) && Limit(packet0, arming0.value) <= now
    requires packet == packet0 || (packet.Some? && p < packet.value.index)
    requires arming == arming0 || (arming.Some? && p < arming.value.index)
    requires (packet0.Some? ==> packet0.value.index < p) && arming0.value.index < p
    ensures arming.Some? && (Premature(s) <==> Spoiled(packet, arming.value, p, now))
  {
  }

  /** Every schedule: a firing is premature if and only if a packet, an arming or a disarming in the pass made it so. */
  lemma {:induction false} PrematureExactlyIfSpoiled(t0: nat, es: seq<Event>)
    requires t0 > 0 && Fires(t0, es)
    ensures LastArming(t0, es).Some?
    ensures Premature(Run(t0, es)) <==>
              Spoiled(LastPacket(t0, es), LastArming(t0, es).value, PassStart(t0, es), Clock(t0, es))
  {
    var p := PassStart(t0, es);
    FiresExactlyPastTheLimit(t0, es);
    FieldsFollowTheSchedule(t0, es);
    LastBefore(t0, es, p);
    LastIsThere(t0, es);
    SpoiledOrStillPast(Run(t0, es), Clock(t0, es), LastPacket(t0, es), LastArming(t0, es),
                       LastPacket(t0, es[..p]), LastArming(t0, es[..p]), p);
  }

  /** None of the three is empty: a packet, a disarming or a re-arming after the reading does not stop the callback. */
  lemma {:induction false} PassIgnores(e: Event) returns (es: seq<Event>)
    requires e.Packet? || e.Disable? || (e.Enable? && e.initial > 0 && e.general > 0)
    ensures Fires(1, es + [e]) && Premature(Run(1, es + [e])) && Run(1, es).armed && !Premature(Run(1, es))
  {
    var a := [] + [Enable(5, 7)];
    Snoc(1, [], Enable(5, 7));
    var b := a + [Tick(5)];
    Snoc(1, a, Tick(5));
    es := b + [Wake(false)];
    Snoc(1, b, Wake(false));
    Snoc(1, es, e);
    Snoc(1, es + [e], Decide);
  }

  // ---- bounded scheduling latency ----

  /** No action of the loop that is due has been due for more than `latency`. */
  predicate Prompt(s: State, latency: nat) {
    match s.loop
    case Parked(_, wake, _) => s.now <= wake + latency && (s.kick.Some? ==> s.now <= s.kick.value + latency)
    case Deciding(_, at) => s.now <= at + latency
    case _ => true
  }

  ghost predicate PromptRun(t0: nat, es: seq<Event>, latency: nat)
    requires t0 > 0
  {
    forall k | 0 <= k <= |es| :: Prompt(Run(t0, es[..k]), latency)
  }

  /** When the callback is due: at the deadline, or at once if that had passed when the timeout was armed. */
  function Due(c: Config): nat { if Deadline(c) <= c.start then c.start else Deadline(c) }

  predicate PromptInv(s: State, latency: nat) {
    && Prompt(s, latency)
    && match s.loop
       case Parked(_, _, slack) => slack <= latency
       case Deciding(_, at) =>
         && (s.kick.Some? ==> at <= s.kick.value + latency)
         && (s.armed && s.kick.None? ==> at <= Due(s.config) + 2 * latency)
       case _ => true
  }

  lemma {:induction false} StepKeepsPromptInv(s: State, e: Event, latency: nat)
    requires Inv(s) && PromptInv(s, latency) && Prompt(Step(s, e), latency)
    ensures PromptInv(Step(s, e), latency)
  {
  }

  lemma {:induction false} RunKeepsPromptInv(t0: nat, es: seq<Event>, latency: nat)
    requires t0 > 0 && PromptRun(t0, es, latency)
    ensures PromptInv(Run(t0, es), latency)
  {
    assert es[..|es|] == es;
    if es != [] {
      var prefix := es[..|es|-1];
      forall k | 0 <= k <= |prefix| ensures Prompt(Run(t0, prefix[..k]), latency) { assert prefix[..k] == es[..k]; }
      RunKeepsPromptInv(t0, prefix, latency);
      StepKeepsPromptInv(Run(t0, prefix), es[|es|-1], latency);
    }
  }

  /**
    Every schedule with bounded latency: the clock never gets further than three latencies past an unserved deadline.
  */
  lemma {:induction false} NeverLate(t0: nat, es: seq<Event>, latency: nat)
    requires t0 > 0 && PromptRun(t0, es, latency)
    ensures var s := Run(t0, es);
            s.armed && (s.loop.Parked? || s.loop.Deciding?) ==> s.now <= Due(s.config) + 3 * latency
  {
    RunKeepsPromptInv(t0, es, latency);
  }

  // ---- the loop goes on ----

  predicate HasClosed(es: seq<Event>) { es != [] && (es[|es|-1].ClosePort? || HasClosed(es[..|es|-1])) }

  lemma {:induction false} StepStops(s: State, e: Event)
    requires s.loop.Deciding? ==> s.loop.at <= s.now
    ensures Step(s, e).closed == (s.closed || e.ClosePort?)
    ensures Step(s, e).loop.Stopped? ==> s.loop.Stopped? || s.closed
  {
  }

  /** Every schedule: the loop ends only by firing or after the port was closed. */
  lemma {:induction false} StopsOnlyIfClosed(t0: nat, es: seq<Event>)
    requires t0 > 0
    ensures Run(t0, es).closed == HasClosed(es)
    ensures Run(t0, es).loop.Stopped? ==> HasClosed(es)
  {
    if es != [] {
      StopsOnlyIfClosed(t0, es[..|es|-1]);
      StepStops(Run(t0, es[..|es|-1]), es[|es|-1]);
    }
  }

  /** ... and after that it ends at its next chance. */
  lemma {:induction false} ClosedLoopStops(t0: nat, es: seq<Event>)
    requires t0 > 0 && HasClosed(es) && Run(t0, es).loop.Parked?
    ensures Run(t0, es + [Stop]).loop.Stopped?
  {
    StopsOnlyIfClosed(t0, es);
    Snoc(t0, es, Stop);
  }

  /**
    Every schedule with bounded latency on an open port: whatever is armed is served, for the callback has run or the
    clock is at most three latencies past the limit the schedule sets, or past the arming if that came later.
  */
  lemma {:induction false} ArmedIsServed(t0: nat, es: seq<Event>, latency: nat)
    requires t0 > 0 && PromptRun(t0, es, latency) && !HasClosed(es) && Armed(LastArming(t0, es))
    ensures var arming := LastArming(t0, es).value;
            var limit := Limit(LastPacket(t0, es), arming);
            || Run(t0, es).loop.Fired?
            || Clock(t0, es) <= (if limit <= arming.time then arming.time else limit) + 3 * latency
  {
    StopsOnlyIfClosed(t0, es);
    FieldsFollowTheSchedule(t0, es);
    NeverLate(t0, es, latency);
  }

  /** Since when a kick has been waiting: the first arming or disarming since the loop last took one. */
  function PendingKick(t0: nat, es: seq<Event>): Option<nat>
    requires t0 > 0
  {
    if es == [] then None
    else
      var b, e := es[..|es|-1], es[|es|-1];
      var before := PendingKick(t0, b);
      if (e.Enable? || e.Disable?) && before.None? then Some(Clock(t0, b))
      else if e == Wake(true) && Run(t0, b).loop.Parked? then None
      else before
  }

  lemma {:induction false} StepKicks(s: State, e: Event)
    requires s.loop.Deciding? ==> s.loop.at <= s.now
    ensures Step(s, e).kick ==
            if (e.Enable? || e.Disable?) && s.kick.None? then Some(s.now)
            else if e == Wake(true) && s.loop.Parked? then None
            else s.kick
  {
  }

  /** Every schedule: kicks are neither lost nor invented; one slot holds the oldest. */
  lemma {:induction false} KicksFollowTheSchedule(t0: nat, es: seq<Event>)
    requires t0 > 0
    ensures Run(t0, es).kick == PendingKick(t0, es)
  {
    if es != [] {
      KicksFollowTheSchedule(t0, es[..|es|-1]);
      FieldsFollowTheSchedule(t0, es[..|es|-1]);
      StepKicks(Run(t0, es[..|es|-1]), es[|es|-1]);
    }
  }
}
