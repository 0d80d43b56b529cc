/**
  Which remote tracks end up subscribed, across answer, resume, reconnect and close.

  Events are the atomic actions of the SDK, of its callbacks and of the goroutines the
  room starts. A published track is added to the room before its callback runs, the
  callback reads the subscribe flag and subscribes as two separate actions, and a
  sweep over all participants lists them once and then subscribes one at a time, so
  every interleaving of these is a schedule. Subscribe requests succeed.
*/
module RoomRecovery {
  import opened Prelude

  datatype Track = Track(id: nat, audio: bool)

  /** One run of subscribeAll: not started, or with the listed tracks it has yet to subscribe. */
  datatype Sweep = Answering | Resubscribing | Listed(todo: set<Track>)

  /** The room's own flags, and the connection as the SDK knows it. */
  datatype Connection = Connection(
    room: bool,                        // the SDK room pointer is set
    subscribe: bool,
    closed: bool,
    stopped: bool,
    reconnect: Option<Option<nat>>,    // the SID captured by onReconnecting, if there was a room to ask
    sid: nat,
    resumes: nat,
    reconnects: nat,
    // bookkeeping of the environment
    rebuilt: bool,                     // the session was rebuilt and onReconnected has not run since
    missed: bool)                      // the last recovery rebuilt the session but was taken for a resume

  datatype State = State(
    conn: Connection,
    tracks: set<Track>,                // remote publications
    subscribed: set<Track>,            // subscriptions of the current session
    announced: set<Track>,             // publish callbacks that have not read the flag yet
    subscribing: set<Track>,           // publish callbacks that read it as set and will subscribe
    sweeps: seq<Sweep>)

  datatype Event =
    | Connect
    | Publish(t: Track)
    | Unpublish(t: Track)
    | Callback(t: Track)
    | CallbackSubscribes(t: Track)
    | Answer
    | List(i: nat)
    | SweepOne(i: nat, t: Track)
    | Lost
    | Rebuild
    | Recovered
    | Close
    | Disconnect

  const Init := State(Connection(false, false, false, false, None, 0, 0, 0, false, false), {}, {}, {}, {}, [])

  /** subscribeTo: audio only; a request for a track that is gone has no effect. */
  function SubscribeTo(s: State, t: Track): State {
    if t.audio && t in s.tracks then s.(subscribed := s.subscribed + {t}) else s
  }

  predicate TakenForResume(c: Connection) { c.reconnect == Some(Some(c.sid)) }

  /** onReconnected, apart from the sweep it may start. */
  function OnReconnected(c: Connection): Connection {
    var d := c.(reconnect := None, rebuilt := false);
    if !c.room then d
    else if TakenForResume(c) then d.(resumes := c.resumes + 1, missed := c.missed || c.rebuilt)
    else d.(reconnects := c.reconnects + 1, missed := false)
  }

  /** Publications and their callbacks. */
  function OnTrack(s: State, e: Event): State {
    match e
    case Publish(t) => if t in s.tracks then s else s.(tracks := s.tracks + {t}, announced := s.announced + {t})
    case Unpublish(t) => s.(tracks := s.tracks - {t}, subscribed := s.subscribed - {t})
    case Callback(t) =>
      if t !in s.announced then s
      else
        s.(announced := s.announced - {t},
           subscribing := if s.conn.subscribe then s.subscribing + {t} else s.subscribing)
    case CallbackSubscribes(t) =>
      if t !in s.subscribing then s else SubscribeTo(s, t).(subscribing := s.subscribing - {t})
    case _ => s
  }

  /** The runs of subscribeAll. */
  function OnSweep(s: State, e: Event): State {
    match e
    case List(i) =>
      if i >= |s.sweeps| || s.sweeps[i].Listed? then s
      else
        var todo := if s.sweeps[i].Resubscribing? && (s.conn.closed || s.conn.stopped) then {} else s.tracks;
        s.(sweeps := s.sweeps[i := Listed(todo)])
    case SweepOne(i, t) =>
      if i >= |s.sweeps| || !s.sweeps[i].Listed? || t !in s.sweeps[i].todo then s
      else SubscribeTo(s, t).(sweeps := s.sweeps[i := Listed(s.sweeps[i].todo - {t})])
    case _ => s
  }

  /** The flags and the connection, for every other event. */
  function OnConnection(c: Connection, e: Event): Connection {
    match e
    case Connect => if c.room || c.closed then c else c.(room := true, subscribe := false)
    case Answer => if !c.room then c else c.(subscribe := true, missed := false)
    case Lost => c.(reconnect := Some(if c.room then Some(c.sid) else None))
    case Rebuild => c.(sid := c.sid + 1, rebuilt := true)
    case Recovered => OnReconnected(c)
    case Close => if c.closed then c else c.(closed := true, subscribe := false, room := false)
    case Disconnect => c.(stopped := true)
    case _ => c
  }

  predicate IsTrackEvent(e: Event) { e.Publish? || e.Unpublish? || e.Callback? || e.CallbackSubscribes? }
  predicate IsSweepEvent(e: Event) { e.List? || e.SweepOne? }

  /** The sweep an event starts, if any. */
  function Started(c: Connection, e: Event): seq<Sweep> {
    if e.Answer? && c.room then [Answering]
    else if e.Recovered? && c.room && !TakenForResume(c) && c.subscribe then [Resubscribing]
    else []
  }

  /** One step; an event that is not enabled leaves the state alone. */
  function Step(s: State, e: Event): State {
    if IsTrackEvent(e) then OnTrack(s, e)
    else if IsSweepEvent(e) then OnSweep(s, e)
    else
      s.(conn := OnConnection(s.conn, e),
         subscribed := if e.Rebuild? then {} else s.subscribed,
         sweeps := s.sweeps + Started(s.conn, e))
  }

  // ---- what every schedule keeps ----

  predicate ConnectionInv(c: Connection) {
    && (c.reconnect.Some? && c.reconnect.value.Some? ==> c.reconnect.value.value <= c.sid)
  }

  predicate OnlyAudio(s: State) { forall t | t in s.subscribed :: t.audio && t in s.tracks }

  /** The audio track is subscribed, or some action still to come will subscribe it. */
  ghost predicate Covered(s: State, t: Track) {
    || t in s.subscribed || t in s.announced || t in s.subscribing
    || exists i :: 0 <= i < |s.sweeps| && Covers(s.sweeps[i], t)
  }

  predicate Covers(w: Sweep, t: Track) { w.Listed? ==> t in w.todo }

  predicate Live(c: Connection) { c.room && c.subscribe && !c.closed && !c.stopped }

  /** Obliged to keep every audio track covered. */
  predicate Obliged(c: Connection) { Live(c) && !c.rebuilt && !c.missed }

  ghost predicate AllCovered(s: State) { forall t | t in s.tracks && t.audio :: Covered(s, t) }

  ghost predicate Inv(s: State) { ConnectionInv(s.conn) && OnlyAudio(s) && (Obliged(s.conn) ==> AllCovered(s)) }

  lemma {:induction false} TrackKeepsInv(s: State, e: Event)
    requires Inv(s) && IsTrackEvent(e)
    ensures Inv(OnTrack(s, e))
  {
    var s' := OnTrack(s, e);
    if Obliged(s.conn) {
      forall t | t in s'.tracks && t.audio ensures Covered(s', t) {
        if t in s.tracks { assert Covered(s, t); }
      }
    }
  }

  lemma {:induction false} SweepKeepsInv(s: State, e: Event)
    requires Inv(s) && IsSweepEvent(e)
    ensures Inv(OnSweep(s, e))
  {
    var s' := OnSweep(s, e);
    if Obliged(s.conn) && e.i < |s.sweeps| {
      forall t | t in s'.tracks && t.audio ensures Covered(s', t) {
        assert Covered(s, t);
        SweepChangeKeepsCovered(s, s', e.i, t);
      }
    }
  }

  /** Changing one sweep uncovers a track only if that sweep was what covered it. */
  lemma {:induction false} SweepChangeKeepsCovered(s: State, s': State, i: nat, t: Track)
    requires i < |s.sweeps| == |s'.sweeps| && s'.sweeps == s.sweeps[i := s'.sweeps[i]]
    requires s.subscribed <= s'.subscribed && s.announced == s'.announced && s.subscribing == s'.subscribing
    requires Covered(s, t) && (Covers(s.sweeps[i], t) ==> Covers(s'.sweeps[i], t) || t in s'.subscribed)
    ensures Covered(s', t)
  {
    if t !in s.subscribed && t !in s.announced && t !in s.subscribing {
      var k :| 0 <= k < |s.sweeps| && Covers(s.sweeps[k], t);
      assert s'.sweeps[k] == s.sweeps[k] || k == i;
    }
  }

  lemma {:induction false} ConnectionKeepsInv(s: State, e: Event)
    requires Inv(s) && !IsTrackEvent(e) && !IsSweepEvent(e)
    ensures Inv(Step(s, e))
  {
    var s' := Step(s, e);
    if Obliged(s'.conn) {
      forall t | t in s'.tracks && t.audio ensures Covered(s', t) {
        if Started(s.conn, e) != [] {
          assert Covers(s'.sweeps[|s.sweeps|], t);
        } else {
          assert Covered(s, t);
          assert s'.sweeps == s.sweeps;
        }
      }
    }
  }

  lemma {:induction false} StepKeepsInv(s: State, e: Event)
    requires Inv(s)
    ensures Inv(Step(s, e))
  {
    if IsTrackEvent(e) {
      TrackKeepsInv(s, e);
    } else if IsSweepEvent(e) {
      SweepKeepsInv(s, e);
    } else {
      ConnectionKeepsInv(s, e);
    }
  }

  // ---- theorems over all schedules ----

  /** The state after an arbitrary schedule. */
  function Run(es: seq<Event>): State {
    if es == [] then Init else Step(Run(es[..|es|-1]), es[|es|-1])
  }

  lemma {:induction false} RunKeepsInv(es: seq<Event>)
    ensures Inv(Run(es))
  {
    if es != [] {
      RunKeepsInv(es[..|es|-1]);
      StepKeepsInv(Run(es[..|es|-1]), es[|es|-1]);
    }
  }

  /** No subscription is on its way. */
  predicate Quiet(s: State) {
    s.announced == {} && s.subscribing == {} && forall i | 0 <= i < |s.sweeps| :: s.sweeps[i] == Listed({})
  }

  /**
    The state of a schedule that is quiet and live has exactly its audio subscribed, unless a recovery was misjudged.
  */
  lemma {:induction false} QuietMeansSubscribed(s: State)
    requires Inv(s) && Obliged(s.conn) && Quiet(s)
    ensures s.subscribed == set t | t in s.tracks && t.audio
  {
    forall t | t in s.tracks && t.audio ensures t in s.subscribed { assert Covered(s, t); }
  }

  /** Every schedule: nothing is subscribed, and nothing is about to be, before the call is answered. */
  lemma {:induction false} NothingBeforeAnswer(es: seq<Event>)
    requires Answer !in es
    ensures var s := Run(es); s.subscribed == {} && s.subscribing == {} && s.sweeps == [] && !s.conn.subscribe
  {
    if es != [] {
      NothingBeforeAnswer(es[..|es|-1]);
      assert es[|es|-1] != Answer;
    }
  }

  lemma {:induction false} StepConnection(s: State, e: Event)
    ensures Step(s, e).conn == if IsTrackEvent(e) || IsSweepEvent(e) then s.conn else OnConnection(s.conn, e)
  {
  }

  lemma {:induction false} ReconnectedCounts(c: Connection)
    ensures OnReconnected(c).resumes == c.resumes + if c.room && TakenForResume(c) then 1 else 0
    ensures OnReconnected(c).reconnects == c.reconnects + if c.room && !TakenForResume(c) then 1 else 0
  {
  }

  lemma {:induction false} OthersCountNothing(c: Connection, e: Event)
    requires !e.Recovered?
    ensures OnConnection(c, e).resumes == c.resumes && OnConnection(c, e).reconnects == c.reconnects
  {
    match e
    case Connect =>
    case Answer =>
    case Lost =>
    case Rebuild =>
    case Close =>
    case Disconnect =>
    case _ =>
  }

  // ---- the schedule itself: connection events, without reference to the room's fields ----

  predicate HasClosed(es: seq<Event>) { es != [] && (es[|es|-1].Close? || HasClosed(es[..|es|-1])) }

  /** Connected, and not closed since. */
  predicate HasRoom(es: seq<Event>) {
    && es != []
    && !es[|es|-1].Close?
    && (HasRoom(es[..|es|-1]) || (es[|es|-1].Connect? && !HasClosed(es[..|es|-1])))
  }

  /** Answered while there was a room, and not closed since. */
  predicate HasAnswered(es: seq<Event>) {
    && es != []
    && !es[|es|-1].Close?
    && (HasAnswered(es[..|es|-1]) || (es[|es|-1].Answer? && HasRoom(es[..|es|-1])))
  }

  predicate HasDisconnected(es: seq<Event>) {
    es != [] && (es[|es|-1].Disconnect? || HasDisconnected(es[..|es|-1]))
  }

  /** The tracks published and not taken back since. */
  function Published(es: seq<Event>): set<Track> {
    if es == [] then {}
    else
      match es[|es|-1]
      case Publish(t) => Published(es[..|es|-1]) + {t}
      case Unpublish(t) => Published(es[..|es|-1]) - {t}
      case _ => Published(es[..|es|-1])
  }

  /** The session was rebuilt, and no recovery was reported since. */
  predicate Rebuilt(es: seq<Event>) {
    es != [] && !es[|es|-1].Recovered? && (es[|es|-1].Rebuild? || Rebuilt(es[..|es|-1]))
  }

  /** A loss was reported while there was a room, with neither a rebuild nor a recovery since. */
  predicate Resumable(es: seq<Event>) {
    && es != []
    && !es[|es|-1].Rebuild? && !es[|es|-1].Recovered?
    && if es[|es|-1].Lost? then HasRoom(es[..|es|-1]) else Resumable(es[..|es|-1])
  }

  /**
    A recovery came between a rebuild and its report, as if the session had been resumed, and nothing has put that
    right: neither an answer nor a recovery after anything but a loss alone.
  */
  predicate Misjudged(es: seq<Event>) {
    && es != []
    && var before, e := es[..|es|-1], es[|es|-1];
       if !HasRoom(before) then Misjudged(before)
       else if e.Answer? then false
       else if e.Recovered? then Resumable(before) && (Misjudged(before) || Rebuilt(before))
       else Misjudged(before)
  }

  /** What the schedule says about a call being up. */
  datatype Standing = Standing(closed: bool, room: bool, answered: bool, disconnected: bool)

  function StandingOf(es: seq<Event>): Standing {
    Standing(HasClosed(es), HasRoom(es), HasAnswered(es), HasDisconnected(es))
  }

  predicate StandsAs(c: Connection, p: Standing) {
    && c.closed == p.closed && c.room == p.room && c.subscribe == p.answered && c.stopped == p.disconnected
    && !(p.closed && p.room) && (p.answered ==> p.room)
  }

  lemma {:induction false} StandingStep(c: Connection, e: Event, p: Standing)
    requires StandsAs(c, p) && !e.Recovered?
    ensures StandsAs(OnConnection(c, e),
                     Standing(p.closed || e.Close?,
                              !e.Close? && (p.room || (e.Connect? && !p.closed)),
                              !e.Close? && (p.answered || (e.Answer? && p.room)),
                              p.disconnected || e.Disconnect?))
  {
    match e
    case Connect =>
    case Answer =>
    case Lost =>
    case Rebuild =>
    case Close =>
    case Disconnect =>
    case _ =>
  }

  lemma {:induction false} StandingRecovered(c: Connection, p: Standing)
    requires StandsAs(c, p)
    ensures StandsAs(OnReconnected(c), p)
  {
  }

  /** The room, the answer and the ends of the call are those of the schedule. */
  lemma {:induction false} StandingFollowsTheSchedule(es: seq<Event>)
    ensures StandsAs(Run(es).conn, StandingOf(es))
  {
    if es != [] {
      var b, e := es[..|es|-1], es[|es|-1];
      StandingFollowsTheSchedule(b);
      StepConnection(Run(b), e);
      if e.Recovered? {
        StandingRecovered(Run(b).conn, StandingOf(b));
      } else {
        StandingStep(Run(b).conn, e, StandingOf(b));
      }
    }
  }

  lemma {:induction false} StepPublishes(s: State, e: Event)
    ensures Step(s, e).tracks ==
            match e
            case Publish(t) => s.tracks + {t}
            case Unpublish(t) => s.tracks - {t}
            case _ => s.tracks
  {
  }

  /** The tracks are those of the schedule. */
  lemma {:induction false} TracksFollowTheSchedule(es: seq<Event>)
    ensures Run(es).tracks == Published(es)
  {
    if es != [] {
      TracksFollowTheSchedule(es[..|es|-1]);
      StepPublishes(Run(es[..|es|-1]), es[|es|-1]);
    }
  }

  predicate FlagsAgree(c: Connection, closed: bool, room: bool, rebuilt: bool, resumable: bool, missed: bool) {
    && c.closed == closed && c.room == room && c.rebuilt == rebuilt && c.missed == missed
    && TakenForResume(c) == resumable && !(closed && room)
    && (c.reconnect.Some? && c.reconnect.value.Some? ==> c.reconnect.value.value <= c.sid)
  }

  lemma {:induction false} FlagsStep(c: Connection, e: Event, closed: bool, room: bool, rebuilt: bool,
                                     resumable: bool, missed: bool)
    requires FlagsAgree(c, closed, room, rebuilt, resumable, missed) && !e.Recovered?
    ensures FlagsAgree(OnConnection(c, e),
                       closed || e.Close?,
                       !e.Close? && (room || (e.Connect? && !closed)),
                       e.Rebuild? || rebuilt,
                       !e.Rebuild? && if e.Lost? then room else resumable,
                       missed && !(room && e.Answer?))
  {
    match e
    case Connect =>
    case Answer =>
    case Lost =>
    case Rebuild =>
    case Close =>
    case Disconnect =>
    case _ =>
  }

  lemma {:induction false} FlagsRecovered(c: Connection, closed: bool, room: bool, rebuilt: bool, resumable: bool,
                                          missed: bool)
    requires FlagsAgree(c, closed, room, rebuilt, resumable, missed)
    ensures FlagsAgree(OnReconnected(c), closed, room, false, false,
                       if room then resumable && (missed || rebuilt) else missed)
  {
  }

  /** The connection's fields are what the schedule made them. */
  lemma {:induction false} FlagsFollowTheSchedule(es: seq<Event>)
    ensures FlagsAgree(Run(es).conn, HasClosed(es), HasRoom(es), Rebuilt(es), Resumable(es), Misjudged(es))
  {
    if es != [] {
      var b, e := es[..|es|-1], es[|es|-1];
      FlagsFollowTheSchedule(b);
      StepConnection(Run(b), e);
      var c := Run(b).conn;
      if e.Recovered? {
        FlagsRecovered(c, HasClosed(b), HasRoom(b), Rebuilt(b), Resumable(b), Misjudged(b));
      } else {
        FlagsStep(c, e, HasClosed(b), HasRoom(b), Rebuilt(b), Resumable(b), Misjudged(b));
      }
    }
  }

  /** Answered, with a room that was neither closed nor lost for good. */
  predicate InCall(es: seq<Event>) { HasRoom(es) && HasAnswered(es) && !HasDisconnected(es) }

  /** In a call, not recovering, and the last recovery was not misjudged. */
  predicate Settled(es: seq<Event>) { InCall(es) && !Rebuilt(es) && !Misjudged(es) }

  lemma {:induction false} SettledIsObliged(es: seq<Event>)
    requires Settled(es)
    ensures Obliged(Run(es).conn)
  {
    StandingFollowsTheSchedule(es);
    FlagsFollowTheSchedule(es);
  }

  /**
    Every schedule: once answered, open, not recovering and with nothing on its way, exactly the published audio
    tracks are subscribed, unless the last recovery was misjudged.
  */
  lemma {:induction false} AllAudioIsSubscribed(es: seq<Event>)
    requires Settled(es) && Quiet(Run(es))
    ensures Run(es).subscribed == set t | t in Published(es) && t.audio
  {
    RunKeepsInv(es);
    SettledIsObliged(es);
    TracksFollowTheSchedule(es);
    QuietMeansSubscribed(Run(es));
  }

  /** The recoveries of a schedule that found a room, by whether they look like resumes. */
  function Recoveries(es: seq<Event>, resumed: bool): nat {
    if es == [] then 0
    else
      var before := es[..|es|-1];
      Recoveries(before, resumed) +
      if es[|es|-1].Recovered? && HasRoom(before) && Resumable(before) == resumed then 1 else 0
  }

  /**
    Every schedule: every recovery that finds a room counts once, as a resume or as a reconnect, and nothing else does.
  */
  lemma {:induction false} RecoveriesAreCounted(es: seq<Event>)
    ensures Run(es).conn.resumes == Recoveries(es, true) && Run(es).conn.reconnects == Recoveries(es, false)
  {
    if es != [] {
      var b, e := es[..|es|-1], es[|es|-1];
      RecoveriesAreCounted(b);
      FlagsFollowTheSchedule(b);
      StepConnection(Run(b), e);
      if e.Recovered? { ReconnectedCounts(Run(b).conn); } else { OthersCountNothing(Run(b).conn, e); }
    }
  }

  /** No recovery was reported when a loss had been reported after a rebuild. */
  predicate NoOverlap(es: seq<Event>) {
    es == [] ||
    (NoOverlap(es[..|es|-1]) && !(es[|es|-1].Recovered? && Rebuilt(es[..|es|-1]) && Resumable(es[..|es|-1])))
  }

  /** Every schedule: without such an overlap no recovery is misjudged. */
  lemma {:induction false} NoOverlapNoMisjudgement(es: seq<Event>)
    requires NoOverlap(es)
    ensures !Misjudged(es)
  {
    if es != [] { NoOverlapNoMisjudgement(es[..|es|-1]); }
  }

  /**
    Every schedule: a recovery of a rebuilt session is taken for a resume exactly if the loss was reported again after
    the rebuild.
  */
  lemma {:induction false} MisjudgedExactlyOnOverlap(es: seq<Event>)
    requires HasRoom(es) && Rebuilt(es)
    ensures var c, d := Run(es).conn, Run(es + [Recovered]).conn;
            && (d.resumes == c.resumes + 1 <==> Resumable(es))
            && (d.reconnects == c.reconnects + 1 <==> !Resumable(es))
    ensures Misjudged(es + [Recovered]) <==> Resumable(es)
  {
    FlagsFollowTheSchedule(es);
    Snoc(es, Recovered);
    ReconnectedCounts(Run(es).conn);
    assert (es + [Recovered])[..|es|] == es;
  }

  lemma Snoc(es: seq<Event>, e: Event)
    ensures Run(es + [e]) == Step(Run(es), e)
  {
    assert (es + [e])[..|es|] == es;
  }

  lemma AnsweredEmptyRoom() returns (es: seq<Event>)
    ensures var s := Run(es); Live(s.conn) && s.tracks == s.subscribed == s.announced == s.subscribing == {} && Quiet(s)
  {
    var a := [] + [Connect];
    Snoc([], Connect);
    var b := a + [Answer];
    Snoc(a, Answer);
    assert Run(b).sweeps == [Answering];
    es := b + [List(0)];
    Snoc(b, List(0));
  }

  lemma AnsweredWithOneTrack(t: Track) returns (es: seq<Event>)
    requires t.audio
    ensures var s := Run(es); Live(s.conn) && s.tracks == {t} && s.subscribed == {t} && Quiet(s)
  {
    var a := AnsweredEmptyRoom();
    var b := a + [Publish(t)];
    Snoc(a, Publish(t));
    var c := b + [Callback(t)];
    Snoc(b, Callback(t));
    es := c + [CallbackSubscribes(t)];
    Snoc(c, CallbackSubscribes(t));
  }

  /**
    The failing family is not empty: loss, rebuild, loss reported again, recovery leaves a published track
    unsubscribed, with nothing on its way.
  */
  lemma OverlappingLossesLoseAudio(t: Track) returns (es: seq<Event>)
    requires t.audio
    ensures var s := Run(es); Live(s.conn) && !s.conn.rebuilt && Quiet(s) && t in s.tracks && Stranded(s, t)
  {
    var a := AnsweredWithOneTrack(t);
    Snoc(a, Rebuild);
    Snoc(a + [Rebuild], Lost);
    Snoc(a + [Rebuild] + [Lost], Recovered);
    es := a + [Rebuild] + [Lost] + [Recovered];
  }

  // ---- what a lost track needs ----

  /** Nothing on its way will subscribe the track. */
  predicate Stranded(s: State, t: Track) {
    && t !in s.subscribed && t !in s.announced && t !in s.subscribing
    && forall i | 0 <= i < |s.sweeps| :: s.sweeps[i].Listed? && t !in s.sweeps[i].todo
  }

  /**
    The events that can help a stranded track: publishing it again, another answer, or a recovery not taken for a
    resume.
  */
  predicate Helps(c: Connection, e: Event, t: Track) {
    e == Publish(t) || e.Answer? || (e.Recovered? && !TakenForResume(c))
  }

  lemma {:induction false} StrandedStep(s: State, e: Event, t: Track)
    requires Stranded(s, t) && !Helps(s.conn, e, t)
    ensures Stranded(Step(s, e), t)
  {
  }

  /** The state a continuation leads to. */
  function RunFrom(s: State, more: seq<Event>): State {
    if more == [] then s else Step(RunFrom(s, more[..|more|-1]), more[|more|-1])
  }

  lemma {:induction false} RunFromIsRun(es: seq<Event>, more: seq<Event>)
    ensures Run(es + more) == RunFrom(Run(es), more)
  {
    if more == [] {
      assert es + more == es;
    } else {
      RunFromIsRun(es, more[..|more|-1]);
      assert es + more == es + more[..|more|-1] + [more[|more|-1]];
      Snoc(es + more[..|more|-1], more[|more|-1]);
    }
  }

  /** No event of the continuation helps the track. */
  predicate NoHelp(s: State, more: seq<Event>, t: Track) {
    more == [] || (NoHelp(s, more[..|more|-1], t) && !Helps(RunFrom(s, more[..|more|-1]).conn, more[|more|-1], t))
  }

  /** Every continuation without such an event leaves the track unsubscribed. */
  lemma {:induction false} StrandedForGood(es: seq<Event>, more: seq<Event>, t: Track)
    requires Stranded(Run(es), t) && NoHelp(Run(es), more, t)
    ensures Stranded(Run(es + more), t)
  {
    StaysStranded(Run(es), more, t);
    RunFromIsRun(es, more);
  }

  lemma {:induction false} StaysStranded(s: State, more: seq<Event>, t: Track)
    requires Stranded(s, t) && NoHelp(s, more, t)
    ensures Stranded(RunFrom(s, more), t)
  {
    if more != [] {
      StaysStranded(s, more[..|more|-1], t);
      StrandedStep(RunFrom(s, more[..|more|-1]), more[|more|-1], t);
    }
  }

  // ---- what is on its way arrives ----

  /** The actions of callbacks and sweeps that are under way. */
  predicate IsOwnAction(e: Event) { e.Callback? || e.CallbackSubscribes? || e.List? || e.SweepOne? }

  predicate OwnActions(es: seq<Event>) { es == [] || (OwnActions(es[..|es|-1]) && IsOwnAction(es[|es|-1])) }

  lemma {:induction false} OwnActionKeeps(s: State, e: Event)
    requires IsOwnAction(e)
    ensures Step(s, e).conn == s.conn && Step(s, e).tracks == s.tracks
  {
  }

  lemma {:induction false} OwnActionsKeep(s: State, more: seq<Event>)
    requires OwnActions(more)
    ensures RunFrom(s, more).conn == s.conn && RunFrom(s, more).tracks == s.tracks
  {
    if more != [] {
      OwnActionsKeep(s, more[..|more|-1]);
      OwnActionKeeps(RunFrom(s, more[..|more|-1]), more[|more|-1]);
    }
  }

  lemma {:induction false} RunFromCons(s: State, e: Event, more: seq<Event>)
    ensures RunFrom(s, [e] + more) == RunFrom(Step(s, e), more)
    ensures IsOwnAction(e) && OwnActions(more) ==> OwnActions([e] + more)
  {
    var all := [e] + more;
    if more == [] {
      assert all[..0] == [];
    } else {
      RunFromCons(s, e, more[..|more|-1]);
      assert all[..|all|-1] == [e] + more[..|more|-1];
    }
  }

  function Unlisted(ws: seq<Sweep>): nat {
    if ws == [] then 0 else Unlisted(ws[..|ws|-1]) + if ws[|ws|-1].Listed? then 0 else 1
  }

  function Todo(ws: seq<Sweep>): nat {
    if ws == [] then 0 else Todo(ws[..|ws|-1]) + if ws[|ws|-1].Listed? then |ws[|ws|-1].todo| else 0
  }

  lemma {:induction false} UpdateCounts(ws: seq<Sweep>, i: nat, w: Sweep)
    requires i < |ws|
    ensures Unlisted(ws[i := w]) + (if ws[i].Listed? then 0 else 1) == Unlisted(ws) + if w.Listed? then 0 else 1
    ensures Todo(ws[i := w]) + (if ws[i].Listed? then |ws[i].todo| else 0) ==
            Todo(ws) + if w.Listed? then |w.todo| else 0
  {
    var n := |ws| - 1;
    if i < n {
      UpdateCounts(ws[..n], i, w);
      assert ws[i := w][..n] == ws[..n][i := w];
    } else {
      assert ws[i := w][..n] == ws[..n];
    }
  }

  /** Listing leaves fewer sweeps to be listed. */
  lemma {:induction false} ListProgress(s: State, i: nat)
    requires i < |s.sweeps| && !s.sweeps[i].Listed?
    ensures Unlisted(Step(s, List(i)).sweeps) < Unlisted(s.sweeps)
  {
    UpdateCounts(s.sweeps, i, Step(s, List(i)).sweeps[i]);
  }

  /** A sweep's next request leaves it with fewer. */
  lemma {:induction false} SweepProgress(s: State, i: nat, t: Track)
    requires i < |s.sweeps| && s.sweeps[i].Listed? && t in s.sweeps[i].todo
    ensures var r := Step(s, SweepOne(i, t));
            Unlisted(r.sweeps) == Unlisted(s.sweeps) && Todo(r.sweeps) < Todo(s.sweeps)
  {
    UpdateCounts(s.sweeps, i, Listed(s.sweeps[i].todo - {t}));
  }

  lemma {:induction false} CallbackProgress(s: State, t: Track)
    requires t in s.announced
    ensures var r := Step(s, Callback(t));
            && r.sweeps == s.sweeps && |r.announced| < |s.announced| && |r.subscribing| <= |s.subscribing| + 1
  {
  }

  lemma {:induction false} SubscribeProgress(s: State, t: Track)
    requires t in s.subscribing
    ensures var r := Step(s, CallbackSubscribes(t));
            r.sweeps == s.sweeps && r.announced == s.announced && |r.subscribing| < |s.subscribing|
  {
  }

  /** Some action under way, if any, and what it brings nearer to the end. */
  lemma {:induction false} NextAction(s: State) returns (e: Event)
    requires !Quiet(s)
    ensures IsOwnAction(e)
    ensures var r := Step(s, e);
            || Unlisted(r.sweeps) < Unlisted(s.sweeps)
            || (Unlisted(r.sweeps) == Unlisted(s.sweeps) && Todo(r.sweeps) < Todo(s.sweeps))
            || (r.sweeps == s.sweeps && 2 * |r.announced| + |r.subscribing| < 2 * |s.announced| + |s.subscribing|)
  {
    if t :| t in s.announced {
      CallbackProgress(s, t);
      e := Callback(t);
    } else if t :| t in s.subscribing {
      SubscribeProgress(s, t);
      e := CallbackSubscribes(t);
    } else {
      var i :| 0 <= i < |s.sweeps| && s.sweeps[i] != Listed({});
      if s.sweeps[i].Listed? {
        var t :| t in s.sweeps[i].todo;
        SweepProgress(s, i, t);
        e := SweepOne(i, t);
      } else {
        ListProgress(s, i);
        e := List(i);
      }
    }
  }

  /** From every state the actions under way come to an end. */
  lemma {:induction false} Drain(s: State) returns (more: seq<Event>)
    ensures OwnActions(more) && Quiet(RunFrom(s, more))
    decreases Unlisted(s.sweeps), Todo(s.sweeps), 2 * |s.announced| + |s.subscribing|
  {
    if Quiet(s) {
      more := [];
    } else {
      var e := NextAction(s);
      var rest := Drain(Step(s, e));
      RunFromCons(s, e, rest);
      more := [e] + rest;
    }
  }

  /**
    Every schedule that is in a call: finishing what is under way, and nothing else, leaves exactly the published audio
    tracks subscribed.
  */
  lemma {:induction false} AudioGetsSubscribed(es: seq<Event>) returns (more: seq<Event>)
    requires Settled(es)
    ensures OwnActions(more) && Run(es + more).subscribed == set t | t in Published(es) && t.audio
  {
    more := Drain(Run(es));
    OwnActionsKeep(Run(es), more);
    RunFromIsRun(es, more);
    SettledIsObliged(es);
    TracksFollowTheSchedule(es);
    RunKeepsInv(es + more);
    QuietMeansSubscribed(Run(es + more));
  }
}
