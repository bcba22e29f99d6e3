/** Port-forward sessions: the guarded slot counter, five places that release a slot and two that close
    a stop channel, with any number of sessions interleaving. Times are in nanoseconds. */
module PortForward {
  import opened Wrappers

  const MAX_FORWARDS: int := 5
  const SECOND: nat := 1_000_000_000
  const HOUR: nat := 3600 * SECOND
  const READY_WAIT: nat := 10 * SECOND

  // ----- The slot counter -----

  class Slots {
    var forwards: int

    constructor ()
      ensures forwards == 0
    {
      forwards := 0;
    }

    method Acquire() returns (ok: bool)
      modifies this
      ensures ok <==> old(forwards) < MAX_FORWARDS
      ensures forwards == if ok then old(forwards) + 1 else old(forwards)
    {
      if forwards >= MAX_FORWARDS { return false; }
      forwards := forwards + 1;
      return true;
    }

    method Release()
      modifies this
      ensures forwards == ReleasedCount(old(forwards))
    {
      if forwards > 0 {
        forwards := forwards - 1;
      }
    }
  }

  function ReleasedCount(forwards: int): int { if forwards > 0 then forwards - 1 else forwards }

  datatype Selected = Ready | ForwarderError | ReadyTimeout

  datatype Answer = LimitReached | NoTransport | NoForwarder | ForwardFailed | NotReady | Opened

  /** One session from the handler's acquire to its last release, with no other session in between:
      each flag or choice is what the environment answered. */
  method Forward(slots: Slots, transportOk: bool, forwarderOk: bool, selected: Selected)
    returns (answer: Answer, closes: nat)
    requires slots.forwards >= 0
    modifies slots
    ensures slots.forwards == old(slots.forwards)
    ensures answer == LimitReached <==> old(slots.forwards) >= MAX_FORWARDS
    ensures answer == Opened <==> old(slots.forwards) < MAX_FORWARDS && transportOk && forwarderOk && selected == Ready
    ensures closes == if answer == Opened || answer == NotReady then 1 else 0
  {
    closes := 0;
    var ok := slots.Acquire();
    if !ok { return LimitReached, 0; }
    if !transportOk {
      slots.Release();
      return NoTransport, 0;
    }
    if !forwarderOk {
      slots.Release();
      return NoForwarder, 0;
    }
    match selected {
      case ForwarderError =>
        answer := ForwardFailed;
      case ReadyTimeout =>
        closes := closes + 1;
        answer := NotReady;
      case Ready =>
        answer := Opened;
        closes := closes + 1;  // the teardown goroutine, once its timer or the shutdown fires
    }
    slots.Release();
  }

  /** How long the tunnel stays open: the requested time when it parses and is positive, two minutes
      otherwise, and never more than an hour. */
  function Duration(requested: Option<int>): (d: nat)
    ensures 0 < d <= HOUR
  {
    var d := if requested.Some? && requested.value > 0 then requested.value else 120 * SECOND;
    if d > HOUR then HOUR else d
  }

  // ----- One session -----

  datatype Pc =
    | Refused                  // the limit was reached
    | Setup                    // slot taken, transport not created yet
    | Dialing                  // forwarder not created yet
    | Selecting(left: nat)     // waiting for ready, an error, or the ready timer
    | Active(open: nat)        // answered; the teardown goroutine waits
    | Closing                  // about to close the stop channel
    | ReleaseDue               // about to give the slot back
    | Released
    | Crashed                  // the handler panicked while it held the slot

  datatype Forwarder = NotStarted | Starting | Serving | Sending | Gone

  /** `errs` is the number of values in the error channel, whose capacity is 1. */
  datatype Session = Session(pc: Pc, duration: nat, forwarder: Forwarder, ready: bool, errs: nat,
                             acquires: nat, releases: nat, closes: nat)

  datatype Action =
    | SetupFails | SetupWorks | DialFails | DialWorks
    | BecomesReady | Stops | Sends
    | SelectReady | SelectError | SelectTimeout
    | TeardownFires | ClosesStop | ReleasesSlot
    | Crashes

  function Started(requested: Option<int>, ok: bool): Session {
    Session(if ok then Setup else Refused, Duration(requested), NotStarted, false, 0, if ok then 1 else 0, 0, 0)
  }

  /** One action of one session, or None when it cannot happen now. */
  function Advance(s: Session, a: Action, shutdown: bool): Option<Session> {
    match (s.pc, a)
    case (Setup, SetupFails) => Some(s.(pc := ReleaseDue))
    case (Setup, SetupWorks) => Some(s.(pc := Dialing))
    case (Dialing, DialFails) => Some(s.(pc := ReleaseDue))
    case (Dialing, DialWorks) => Some(s.(pc := Selecting(READY_WAIT), forwarder := Starting))
    case (_, BecomesReady) => if s.forwarder == Starting then Some(s.(forwarder := Serving, ready := true)) else None
    case (_, Stops) =>
      if s.forwarder == Starting || s.forwarder == Serving then Some(s.(forwarder := Sending)) else None
    case (_, Sends) =>
      if s.forwarder == Sending && s.errs < 1 then Some(s.(forwarder := Gone, errs := s.errs + 1)) else None
    case (Selecting(_), SelectReady) => if s.ready then Some(s.(pc := Active(s.duration))) else None
    case (Selecting(_), SelectError) => if s.errs > 0 then Some(s.(pc := ReleaseDue, errs := s.errs - 1)) else None
    case (Selecting(left), SelectTimeout) => if left == 0 then Some(s.(pc := Closing)) else None
    case (Active(open), TeardownFires) => if open == 0 || shutdown then Some(s.(pc := Closing)) else None
    case (Closing, ClosesStop) => Some(s.(pc := ReleaseDue, closes := s.closes + 1))
    case (ReleaseDue, ReleasesSlot) => Some(s.(pc := Released, releases := s.releases + 1))
    case (Setup, Crashes) => Some(s.(pc := Crashed))
    case (Dialing, Crashes) => Some(s.(pc := Crashed))
    case (Selecting(_), Crashes) => Some(s.(pc := Crashed))
    case _ => None
  }

  function Elapse(s: Session, d: nat): Session {
    match s.pc
    case Selecting(left) => s.(pc := Selecting(if left > d then left - d else 0))
    case Active(open) => s.(pc := Active(if open > d then open - d else 0))
    case _ => s
  }

  // ----- All sessions -----

  datatype Step =
    | Start(id: nat, requested: Option<int>)
    | Act(id: nat, action: Action)
    | Tick(d: nat)
    | Shutdown

  datatype State = State(forwards: int, sessions: map<nat, Session>, shutdown: bool)

  const INITIAL := State(0, map[], false)

  function Next(s: State, step: Step): Option<State> {
    match step
    case Start(id, requested) =>
      if id in s.sessions then None
      else
        var ok := s.forwards < MAX_FORWARDS;
        Some(s.(forwards := if ok then s.forwards + 1 else s.forwards,
                sessions := s.sessions[id := Started(requested, ok)]))
    case Act(id, action) =>
      if id !in s.sessions || Advance(s.sessions[id], action, s.shutdown).None? then None
      else Some(s.(forwards := if action == ReleasesSlot then ReleasedCount(s.forwards) else s.forwards,
                   sessions := s.sessions[id := Advance(s.sessions[id], action, s.shutdown).value]))
    case Tick(d) =>
      if d == 0 then None else Some(s.(sessions := map id | id in s.sessions :: Elapse(s.sessions[id], d)))
    case Shutdown => Some(s.(shutdown := true))
  }

  function RunFrom(s: State, steps: seq<Step>): Option<State> {
    if steps == [] then Some(s)
    else
      var before := RunFrom(s, steps[..|steps| - 1]);
      if before.None? then None else Next(before.value, steps[|steps| - 1])
  }

  /** A run goes on with every step that can be taken, and only with those. */
  lemma RunGoesOn(s: State, steps: seq<Step>, step: Step)
    requires RunFrom(s, steps).Some?
    ensures RunFrom(s, steps + [step]) == Next(RunFrom(s, steps).value, step)
    ensures RunFrom(s, []) == Some(s)
  {
    assert (steps + [step])[..|steps + [step]| - 1] == steps;
  }

  // ----- Safety -----

  /** The session took a slot and has not given it back. */
  predicate Owns(s: Session) { !s.pc.Refused? && !s.pc.Released? }

  function Owners(sessions: map<nat, Session>): set<nat> { set id | id in sessions && Owns(sessions[id]) }

  /** Each session takes at most one slot and gives it back at most once, exactly when it is released;
      it closes its stop channel at most once; and its forwarder always finds room for its error. It answers
      only when the forwarder became ready, and once the forwarder was started it gives up its slot only
      after it closed the stop channel or the forwarder was gone. */
  predicate Disciplined(s: Session) {
    && s.acquires == (if s.pc.Refused? then 0 else 1)
    && s.releases == (if s.pc.Released? then 1 else 0)
    && s.closes <= 1 && (s.closes == 1 ==> s.pc.ReleaseDue? || s.pc.Released?)
    && s.errs <= 1 && (s.forwarder != Gone ==> s.errs == 0)
    && (s.pc.Refused? || s.pc.Setup? || s.pc.Dialing? ==> s.forwarder == NotStarted)
    && (s.ready ==> s.forwarder == Serving || s.forwarder == Sending || s.forwarder == Gone)
    && (s.forwarder == Serving ==> s.ready)
    && (s.pc.Selecting? ==> s.forwarder != NotStarted && (s.forwarder == Gone ==> s.errs == 1))
    && ((s.pc.ReleaseDue? || s.pc.Released?) && s.closes == 0 ==> s.errs == 0)
    && (s.pc.Active? ==> s.ready)
    && ((s.pc.ReleaseDue? || s.pc.Released?) && s.forwarder != NotStarted ==> s.closes == 1 || s.forwarder == Gone)
    && s.duration <= HOUR
    && (s.pc.Selecting? ==> s.pc.left <= READY_WAIT) && (s.pc.Active? ==> s.pc.open <= s.duration)
  }

  ghost predicate Inv(s: State) {
    && s.forwards == |Owners(s.sessions)| <= MAX_FORWARDS
    && forall id | id in s.sessions :: Disciplined(s.sessions[id])
  }

  lemma OwnersAfter(sessions: map<nat, Session>, id: nat, s: Session)
    ensures Owners(sessions[id := s]) == if Owns(s) then Owners(sessions) + {id} else Owners(sessions) - {id}
    ensures |Owners(sessions[id := s])| == |Owners(sessions)| +
              (if Owns(s) then 1 else 0) - (if id in sessions && Owns(sessions[id]) then 1 else 0)
  {
    var before, after := Owners(sessions), Owners(sessions[id := s]);
    assert after == if Owns(s) then before + {id} else before - {id};
    if id in before { assert before + {id} == before; } else { assert before - {id} == before; }
  }

  lemma AdvanceIsDisciplined(s: Session, a: Action, shutdown: bool)
    requires Disciplined(s) && Advance(s, a, shutdown).Some?
    ensures Disciplined(Advance(s, a, shutdown).value)
    ensures if a == ReleasesSlot then Owns(s) && !Owns(Advance(s, a, shutdown).value)
            else Owns(s) <==> Owns(Advance(s, a, shutdown).value)
  {}

  lemma ReplacedKeepsInv(s: State, id: nat, c: Session, forwards: int)
    requires Inv(s) && id in s.sessions && Owns(s.sessions[id]) && Disciplined(c)
    requires forwards == if Owns(c) then s.forwards else ReleasedCount(s.forwards)
    ensures Inv(s.(forwards := forwards, sessions := s.sessions[id := c]))
  {
    OwnersAfter(s.sessions, id, c);
    assert id in Owners(s.sessions);
  }

  lemma TouchedKeepsInv(s: State, id: nat, c: Session)
    requires Inv(s) && Disciplined(c) && id in s.sessions && (Owns(s.sessions[id]) <==> Owns(c))
    ensures Inv(s.(sessions := s.sessions[id := c]))
  {
    OwnersAfter(s.sessions, id, c);
  }

  lemma ElapsedKeepsInv(s: State, d: nat)
    requires Inv(s)
    ensures Inv(s.(sessions := map id | id in s.sessions :: Elapse(s.sessions[id], d)))
  {
    var after := map id | id in s.sessions :: Elapse(s.sessions[id], d);
    assert Owners(after) == Owners(s.sessions);
  }

  lemma StartKeepsInv(s: State, id: nat, c: Session)
    requires Inv(s) && id !in s.sessions && Disciplined(c) && (Owns(c) <==> s.forwards < MAX_FORWARDS)
    ensures Inv(s.(forwards := if Owns(c) then s.forwards + 1 else s.forwards, sessions := s.sessions[id := c]))
  {
    OwnersAfter(s.sessions, id, c);
  }

  lemma ActKeepsInv(s: State, id: nat, action: Action)
    requires Inv(s) && Next(s, Act(id, action)).Some?
    ensures Inv(Next(s, Act(id, action)).value)
  {
    AdvanceIsDisciplined(s.sessions[id], action, s.shutdown);
    var c := Advance(s.sessions[id], action, s.shutdown).value;
    if action == ReleasesSlot {
      ReplacedKeepsInv(s, id, c, ReleasedCount(s.forwards));
    } else {
      TouchedKeepsInv(s, id, c);
    }
  }

  lemma StepKeepsInv(s: State, step: Step)
    requires Inv(s) && Next(s, step).Some?
    ensures Inv(Next(s, step).value)
  {
    match step
    case Start(id, requested) => StartKeepsInv(s, id, Started(requested, s.forwards < MAX_FORWARDS));
    case Act(id, action) => ActKeepsInv(s, id, action);
    case Tick(d) => ElapsedKeepsInv(s, d);
    case Shutdown =>
  }

  lemma {:induction false} InvHolds(s: State, steps: seq<Step>)
    requires Inv(s) && RunFrom(s, steps).Some?
    ensures Inv(RunFrom(s, steps).value)
  {
    if steps != [] {
      InvHolds(s, steps[..|steps| - 1]);
      StepKeepsInv(RunFrom(s, steps[..|steps| - 1]).value, steps[|steps| - 1]);
    }
  }

  lemma ReleaseTakesEffect(s: State, id: nat)
    requires Inv(s) && id in s.sessions && s.sessions[id].pc.ReleaseDue?
    ensures Next(s, Act(id, ReleasesSlot)).Some? && Next(s, Act(id, ReleasesSlot)).value.forwards == s.forwards - 1
  {
    assert id in Owners(s.sessions);
  }

  lemma SendHasRoom(s: State, id: nat)
    requires Inv(s) && id in s.sessions && s.sessions[id].forwarder == Sending
    ensures Next(s, Act(id, Sends)).Some?
  {
    assert Disciplined(s.sessions[id]);
  }

  /** In every interleaving of sessions the counter equals the number of sessions that hold a slot and
      stays within 0 and 5, every session is disciplined, the positivity guard never suppresses a
      release, and a forwarder that has an error to report can report it. */
  lemma SlotsAreCounted(steps: seq<Step>)
    requires RunFrom(INITIAL, steps).Some?
    ensures var s := RunFrom(INITIAL, steps).value;
            && 0 <= s.forwards == |Owners(s.sessions)| <= MAX_FORWARDS
            && (forall id | id in s.sessions :: Disciplined(s.sessions[id]))
            && (forall id | id in s.sessions && s.sessions[id].pc.ReleaseDue? ::
                  Next(s, Act(id, ReleasesSlot)).Some? &&
                  Next(s, Act(id, ReleasesSlot)).value.forwards == s.forwards - 1)
            && (forall id | id in s.sessions && s.sessions[id].forwarder == Sending :: Next(s, Act(id, Sends)).Some?)
  {
    assert Owners(INITIAL.sessions) == {};
    InvHolds(INITIAL, steps);
    var s := RunFrom(INITIAL, steps).value;
    forall id | id in s.sessions && s.sessions[id].pc.ReleaseDue?
      ensures Next(s, Act(id, ReleasesSlot)).Some? && Next(s, Act(id, ReleasesSlot)).value.forwards == s.forwards - 1
    {
      ReleaseTakesEffect(s, id);
    }
    forall id | id in s.sessions && s.sessions[id].forwarder == Sending ensures Next(s, Act(id, Sends)).Some? {
      SendHasRoom(s, id);
    }
  }

  /** Once every session is over, the slots still taken are those of handlers that panicked while
      holding one; all are free again exactly when there was no such panic. */
  lemma LeakedIffCrashed(steps: seq<Step>)
    requires RunFrom(INITIAL, steps).Some?
    requires var s := RunFrom(INITIAL, steps).value;
             forall id | id in s.sessions ::
               s.sessions[id].pc.Released? || s.sessions[id].pc.Refused? || s.sessions[id].pc.Crashed?
    ensures var s := RunFrom(INITIAL, steps).value;
            && s.forwards == |set id | id in s.sessions && s.sessions[id].pc.Crashed?|
            && (s.forwards == 0 <==> forall id | id in s.sessions :: !s.sessions[id].pc.Crashed?)
  {
    SlotsAreCounted(steps);
    var s := RunFrom(INITIAL, steps).value;
    var crashed := set id | id in s.sessions && s.sessions[id].pc.Crashed?;
    assert crashed == Owners(s.sessions);
    if s.forwards == 0 {
      assert crashed == {};
      forall id | id in s.sessions ensures !s.sessions[id].pc.Crashed? { assert id !in crashed; }
    }
    if forall id | id in s.sessions :: !s.sessions[id].pc.Crashed? {
      assert crashed == {};
    }
  }

  // ----- Liveness -----

  function ForwarderRank(f: Forwarder): nat {
    match f
    case NotStarted => 0
    case Starting => 3
    case Serving => 2
    case Sending => 1
    case Gone => 0
  }

  /** A bound on what is still ahead of a session: actions of its own, and nanoseconds of waiting. */
  function Rank(s: Session): nat {
    ForwarderRank(s.forwarder) +
    match s.pc
    case Setup => HOUR + READY_WAIT + 9
    case Dialing => HOUR + READY_WAIT + 8
    case Selecting(left) => HOUR + 4 + left
    case Active(open) => 3 + open
    case Closing => 2
    case ReleaseDue => 1
    case _ => 0
  }

  function OwnSteps(steps: seq<Step>, id: nat): nat {
    if steps == [] then 0
    else OwnSteps(steps[..|steps| - 1], id) + if steps[|steps| - 1].Act? && steps[|steps| - 1].id == id then 1 else 0
  }

  lemma AdvanceLowersRank(s: Session, a: Action, shutdown: bool)
    requires Disciplined(s) && Advance(s, a, shutdown).Some?
    ensures Rank(Advance(s, a, shutdown).value) < Rank(s)
  {}

  lemma StepLowersRank(s: State, step: Step, id: nat)
    requires Inv(s) && id in s.sessions && Next(s, step).Some?
    ensures id in Next(s, step).value.sessions
    ensures Rank(Next(s, step).value.sessions[id]) + (if step.Act? && step.id == id then 1 else 0)
            <= Rank(s.sessions[id])
  {
    match step
    case Start(other, requested) =>
    case Act(other, action) =>
      if other == id { AdvanceLowersRank(s.sessions[id], action, s.shutdown); }
    case Tick(d) =>
      assert Rank(Elapse(s.sessions[id], d)) <= Rank(s.sessions[id]);
    case Shutdown =>
  }

  /** However the rest of the server goes on, a session acts only as often as its rank allows, which is
      bounded when it starts. */
  lemma {:induction false} SessionsRunDown(s: State, steps: seq<Step>, id: nat)
    requires Inv(s) && id in s.sessions && RunFrom(s, steps).Some?
    ensures id in RunFrom(s, steps).value.sessions
    ensures Rank(RunFrom(s, steps).value.sessions[id]) + OwnSteps(steps, id)
            <= Rank(s.sessions[id]) <= HOUR + READY_WAIT + 9
  {
    if steps != [] {
      SessionsRunDown(s, steps[..|steps| - 1], id);
      InvHolds(s, steps[..|steps| - 1]);
      StepLowersRank(RunFrom(s, steps[..|steps| - 1]).value, steps[|steps| - 1], id);
    }
  }

  /** The session has taken its last step towards its slot: it gave it back, never had one, or crashed. */
  predicate Over(s: Session) { s.pc.Released? || s.pc.Refused? || s.pc.Crashed? }

  /** What is left on the timer the session waits on. */
  function Timer(s: Session): nat {
    match s.pc
    case Selecting(left) => left
    case Active(open) => open
    case _ => 0
  }

  /** A step of the handler or of its teardown goroutine, as opposed to the forwarder's. */
  predicate OwnMove(a: Action) { !a.BecomesReady? && !a.Stops? && !a.Sends? && !a.Crashes? }

  /** A session that is not over is never stuck, whatever its forwarder and its peer do or fail to do: the
      handler or the teardown can act now, or a timer of the session is running and every passage of time
      runs it down. A shutdown frees an active session at once. */
  lemma HandlerCanMove(s: State, id: nat)
    requires id in s.sessions && !Over(s.sessions[id])
    ensures (exists a :: OwnMove(a) && Next(s, Act(id, a)).Some?) ||
            (Timer(s.sessions[id]) > 0 && forall d: nat | 0 < d <= Timer(s.sessions[id]) ::
               Timer(Next(s, Tick(d)).value.sessions[id]) == Timer(s.sessions[id]) - d)
    ensures s.sessions[id].pc.Active? && s.shutdown ==> Next(s, Act(id, TeardownFires)).Some?
  {
    var c := s.sessions[id];
    var a := match c.pc
      case Setup => SetupWorks
      case Dialing => DialWorks
      case Selecting(_) => SelectTimeout
      case Active(_) => TeardownFires
      case Closing => ClosesStop
      case _ => ReleasesSlot;
    if Timer(c) == 0 || (c.pc.Active? && s.shutdown) {
      assert OwnMove(a) && Next(s, Act(id, a)).Some?;
    } else {
      assert forall d: nat | d > 0 :: Next(s, Tick(d)).value.sessions[id] == Elapse(c, d);
    }
  }

  function TimeOf(step: Step): nat { if step.Tick? then step.d else 0 }

  /** The nanoseconds that pass during `steps`. */
  function Elapsed(steps: seq<Step>): nat {
    if steps == [] then 0 else Elapsed(steps[..|steps| - 1]) + TimeOf(steps[|steps| - 1])
  }

  /** How much of the step's time passes while the session could act and does not: it is not over and
      no timer of its own is running. */
  function LateIn(s: State, step: Step, id: nat): nat {
    if id in s.sessions && !Over(s.sessions[id]) && TimeOf(step) > Timer(s.sessions[id])
    then TimeOf(step) - Timer(s.sessions[id]) else 0
  }

  function Overdue(s: State, steps: seq<Step>, id: nat): nat
    requires RunFrom(s, steps).Some?
  {
    if steps == [] then 0
    else
      var init := steps[..|steps| - 1];
      Overdue(s, init, id) + LateIn(RunFrom(s, init).value, steps[|steps| - 1], id)
  }

  lemma StepIsPaidFor(s: State, step: Step, id: nat)
    requires Inv(s) && id in s.sessions && Next(s, step).Some?
    ensures id in Next(s, step).value.sessions
    ensures var c, after := s.sessions[id], Next(s, step).value.sessions[id];
            if Over(c) then Over(after)
            else Rank(after) + (if step.Act? && step.id == id then 1 else 0) + TimeOf(step)
                 <= Rank(c) + LateIn(s, step, id)
  {
    match step
    case Start(other, requested) =>
    case Act(other, action) =>
      if other == id { AdvanceLowersRank(s.sessions[id], action, s.shutdown); }
    case Tick(d) =>
      assert Next(s, step).value.sessions[id] == Elapse(s.sessions[id], d);
    case Shutdown =>
  }

  /** Until it is over, a session pays with its rank for every action it takes and for all the time that
      passes, except the time it is overdue. */
  lemma {:induction false} TimeIsPaidFor(s: State, steps: seq<Step>, id: nat)
    requires Inv(s) && id in s.sessions && RunFrom(s, steps).Some?
    ensures id in RunFrom(s, steps).value.sessions
    ensures var c := RunFrom(s, steps).value.sessions[id];
            Over(c) || Rank(c) + OwnSteps(steps, id) + Elapsed(steps) <= Rank(s.sessions[id]) + Overdue(s, steps, id)
  {
    if steps != [] {
      TimeIsPaidFor(s, steps[..|steps| - 1], id);
      InvHolds(s, steps[..|steps| - 1]);
      StepIsPaidFor(RunFrom(s, steps[..|steps| - 1]).value, steps[|steps| - 1], id);
    }
  }

  /** Every session ends: once the time that has passed, less the time the session was overdue, exceeds
      its starting rank, it has released its slot, or crashed, or was refused one. That rank is at most
      an hour, the ready wait, and nine actions. */
  lemma EverySessionEnds(s: State, steps: seq<Step>, id: nat)
    requires Inv(s) && id in s.sessions && RunFrom(s, steps).Some?
    requires Elapsed(steps) >= HOUR + READY_WAIT + 9 + Overdue(s, steps, id)
    ensures id in RunFrom(s, steps).value.sessions && Over(RunFrom(s, steps).value.sessions[id])
  {
    TimeIsPaidFor(s, steps, id);
    SessionsRunDown(s, steps, id);
  }

  lemma {:induction false} OverdueIsElapsed(s: State, steps: seq<Step>, id: nat)
    requires RunFrom(s, steps).Some?
    ensures Overdue(s, steps, id) <= Elapsed(steps)
  {
    if steps != [] { OverdueIsElapsed(s, steps[..|steps| - 1], id); }
  }

  /** No time passes while the session could act: each tick falls within its own timer until it is over. */
  ghost predicate Punctual(s: State, steps: seq<Step>, id: nat)
    requires RunFrom(s, steps).Some?
  {
    steps != [] ==>
      var init := steps[..|steps| - 1];
      var t := RunFrom(s, init).value;
      && Punctual(s, init, id)
      && (id in t.sessions && !Over(t.sessions[id]) ==> TimeOf(steps[|steps| - 1]) <= Timer(t.sessions[id]))
  }

  /** So a session that acts when it can is over after an hour, ten seconds and nine nanoseconds. */
  lemma PunctualSessionEnds(s: State, steps: seq<Step>, id: nat)
    requires Inv(s) && id in s.sessions && RunFrom(s, steps).Some? && Punctual(s, steps, id)
    requires Elapsed(steps) >= 3_610_000_000_009
    ensures id in RunFrom(s, steps).value.sessions && Over(RunFrom(s, steps).value.sessions[id])
  {
    PunctualIsNotOverdue(s, steps, id);
    EverySessionEnds(s, steps, id);
  }

  lemma {:induction false} PunctualIsNotOverdue(s: State, steps: seq<Step>, id: nat)
    requires RunFrom(s, steps).Some? && Punctual(s, steps, id)
    ensures Overdue(s, steps, id) == 0
  {
    if steps != [] { PunctualIsNotOverdue(s, steps[..|steps| - 1], id); }
  }

  // ----- How long the timers run -----

  /** The steps leave the session to its forwarder: neither its handler nor its teardown acts. */
  predicate Undisturbed(steps: seq<Step>, id: nat) {
    forall step | step in steps && step.Act? && step.id == id ::
      step.action == BecomesReady || step.action == Stops || step.action == Sends
  }

  lemma {:induction false} TimersRun(s: State, steps: seq<Step>, id: nat)
    requires id in s.sessions && RunFrom(s, steps).Some? && Undisturbed(steps, id)
    ensures id in RunFrom(s, steps).value.sessions
    ensures var before, after := s.sessions[id], RunFrom(s, steps).value.sessions[id];
            && after.duration == before.duration
            && (before.pc.Selecting? <==> after.pc.Selecting?) && (before.pc.Active? <==> after.pc.Active?)
            && (before.pc.Selecting? || before.pc.Active? ==>
                  Timer(after) == if Timer(before) > Elapsed(steps) then Timer(before) - Elapsed(steps) else 0)
  {
    if steps != [] {
      TimersRun(s, steps[..|steps| - 1], id);
      OneStepOfTimer(RunFrom(s, steps[..|steps| - 1]).value, steps[|steps| - 1], id);
    }
  }

  lemma OneStepOfTimer(s: State, step: Step, id: nat)
    requires id in s.sessions && Next(s, step).Some?
    requires step.Act? && step.id == id ==> step.action == BecomesReady || step.action == Stops || step.action == Sends
    ensures id in Next(s, step).value.sessions
    ensures var before, after := s.sessions[id], Next(s, step).value.sessions[id];
            && after.duration == before.duration
            && (before.pc.Selecting? <==> after.pc.Selecting?) && (before.pc.Active? <==> after.pc.Active?)
            && (before.pc.Selecting? || before.pc.Active? ==>
                  Timer(after) == if Timer(before) > TimeOf(step) then Timer(before) - TimeOf(step) else 0)
  {
    match step
    case Start(other, requested) =>
    case Act(other, action) =>
    case Tick(d) =>
      assert Next(s, step).value.sessions[id] == Elapse(s.sessions[id], d);
    case Shutdown =>
  }

  lemma {:induction false} DurationStays(s: State, steps: seq<Step>, id: nat)
    requires id in s.sessions && RunFrom(s, steps).Some?
    ensures id in RunFrom(s, steps).value.sessions
    ensures RunFrom(s, steps).value.sessions[id].duration == s.sessions[id].duration
  {
    if steps != [] {
      DurationStays(s, steps[..|steps| - 1], id);
      var before, step := RunFrom(s, steps[..|steps| - 1]).value, steps[|steps| - 1];
      if step.Tick? { assert Next(before, step).value.sessions[id] == Elapse(before.sessions[id], step.d); }
    }
  }

  /** A tunnel lives as long as asked: from the moment the session answers, and until its teardown acts or
      the server shuts down, the teardown is possible exactly when the requested time has passed. That is the
      request itself from one nanosecond to an hour, an hour if more is asked, and two minutes otherwise. */
  lemma TunnelOpensAsAsked(s: State, id: nat, requested: Option<int>, before: seq<Step>, after: seq<Step>)
    requires Next(s, Start(id, requested)).Some?
    requires RunFrom(Next(s, Start(id, requested)).value, before).Some?
    requires var t := RunFrom(Next(s, Start(id, requested)).value, before).value;
             Next(t, Act(id, SelectReady)).Some? && RunFrom(Next(t, Act(id, SelectReady)).value, after).Some?
    requires Undisturbed(after, id)
    ensures var t := RunFrom(Next(s, Start(id, requested)).value, before).value;
            var u := RunFrom(Next(t, Act(id, SelectReady)).value, after).value;
            var asked := match requested
                         case None => 120_000_000_000
                         case Some(d) =>
                           if d <= 0 then 120_000_000_000 else if d <= 3_600_000_000_000 then d else 3_600_000_000_000;
            && id in u.sessions && u.sessions[id].pc.Active?
            && (!u.shutdown ==> (Next(u, Act(id, TeardownFires)).Some? <==> Elapsed(after) >= asked))
  {
    var begun := Next(s, Start(id, requested)).value;
    DurationStays(begun, before, id);
    var t := RunFrom(begun, before).value;
    AnswerStartsTimer(t, id);
    var answered := Next(t, Act(id, SelectReady)).value;
    TimersRun(answered, after, id);
    TeardownIff(RunFrom(answered, after).value, id);
  }

  lemma AnswerStartsTimer(s: State, id: nat)
    requires id in s.sessions && Next(s, Act(id, SelectReady)).Some?
    ensures id in Next(s, Act(id, SelectReady)).value.sessions
    ensures Next(s, Act(id, SelectReady)).value.sessions[id].pc == Active(s.sessions[id].duration)
  {}

  lemma TeardownIff(s: State, id: nat)
    requires id in s.sessions && s.sessions[id].pc.Active?
    ensures Next(s, Act(id, TeardownFires)).Some? <==> s.sessions[id].pc.open == 0 || s.shutdown
  {}

  /** Likewise the handler gives up waiting for a started forwarder exactly when ten seconds have passed. */
  lemma ReadyTimeoutIff(s: State, id: nat, after: seq<Step>)
    requires Next(s, Act(id, DialWorks)).Some? && RunFrom(Next(s, Act(id, DialWorks)).value, after).Some?
    requires Undisturbed(after, id)
    ensures var u := RunFrom(Next(s, Act(id, DialWorks)).value, after).value;
            id in u.sessions && (Next(u, Act(id, SelectTimeout)).Some? <==> Elapsed(after) >= 10_000_000_000)
  {
    TimersRun(Next(s, Act(id, DialWorks)).value, after, id);
  }

  /** In every run, a handler that waits can see that its forwarder serves, that it is gone, or neither; and a
      tunnel can be torn down at once exactly when its time is up or the server was shut down. */
  lemma WhatASessionSees(steps: seq<Step>, id: nat)
    requires RunFrom(INITIAL, steps).Some? && id in RunFrom(INITIAL, steps).value.sessions
    ensures var s := RunFrom(INITIAL, steps).value;
            var c := s.sessions[id];
            && (c.pc.Selecting? ==> c.forwarder != NotStarted)
            && (c.pc.Selecting? && c.forwarder == Serving ==> Next(s, Act(id, SelectReady)).Some?)
            && (c.pc.Selecting? ==> (Next(s, Act(id, SelectError)).Some? <==> c.forwarder == Gone))
            && (c.pc.Selecting? && (c.forwarder == NotStarted || c.forwarder == Starting) ==>
                  Next(s, Act(id, SelectReady)).None?)
            && (c.pc.Active? ==> (Next(s, Act(id, TeardownFires)).Some? <==> c.pc.open == 0 || Shutdown in steps))
  {
    assert Inv(INITIAL) by {
      assert Owners(INITIAL.sessions) == {};
    }
    InvHolds(INITIAL, steps);
    ShutdownIff(steps);
    SelectionsOf(RunFrom(INITIAL, steps).value, id);
  }

  /** What a started forwarder may do on its own, and in every run nothing else: serve once, stop once, and
      then report; a session that waits can get to each of its three selections. */
  lemma WhatAForwarderDoes(s: State, id: nat)
    requires Inv(s) && id in s.sessions
    ensures var f := s.sessions[id].forwarder;
            && (Next(s, Act(id, BecomesReady)).Some? <==> f == Starting)
            && (Next(s, Act(id, Stops)).Some? <==> f == Starting || f == Serving)
            && (Next(s, Act(id, Sends)).Some? <==> f == Sending)
    ensures s.sessions[id].forwarder == Starting ==>
              Next(s, Act(id, BecomesReady)).value.sessions[id].forwarder == Serving
    ensures s.sessions[id].forwarder == Sending ==> Next(s, Act(id, Sends)).value.sessions[id].forwarder == Gone
  {
    assert Disciplined(s.sessions[id]);
  }

  lemma SelectionsOf(s: State, id: nat)
    requires id in s.sessions && Disciplined(s.sessions[id])
    ensures var c := s.sessions[id];
            && (c.pc.Selecting? && c.forwarder == Serving ==> Next(s, Act(id, SelectReady)).Some?)
            && (c.pc.Selecting? ==> (Next(s, Act(id, SelectError)).Some? <==> c.forwarder == Gone))
            && (c.pc.Selecting? && (c.forwarder == NotStarted || c.forwarder == Starting) ==>
                  Next(s, Act(id, SelectReady)).None?)
            && (c.pc.Active? ==> (Next(s, Act(id, TeardownFires)).Some? <==> c.pc.open == 0 || s.shutdown))
  {}

  lemma {:induction false} ShutdownIff(steps: seq<Step>)
    requires RunFrom(INITIAL, steps).Some?
    ensures RunFrom(INITIAL, steps).value.shutdown <==> Shutdown in steps
  {
    if steps != [] {
      var init := steps[..|steps| - 1];
      ShutdownIff(init);
      assert steps == init + [steps[|steps| - 1]];
    }
  }

  /** A new session is refused exactly when five others hold a slot. */
  lemma RefusedIffFiveHold(steps: seq<Step>, id: nat, requested: Option<int>)
    requires RunFrom(INITIAL, steps).Some? && Next(RunFrom(INITIAL, steps).value, Start(id, requested)).Some?
    ensures var s := RunFrom(INITIAL, steps).value;
            Next(s, Start(id, requested)).value.sessions[id].pc.Refused? <==> |Owners(s.sessions)| == 5
  {
    SlotsAreCounted(steps);
  }

  /** The rank is 0 exactly when no action of the session remains possible. */
  lemma RankZeroIffAtRest(s: Session)
    requires Disciplined(s)
    ensures Rank(s) == 0 <==>
      (forall a, shutdown :: Advance(s, a, shutdown).None?) && !s.pc.Selecting? && !s.pc.Active?
  {
    if Rank(s) > 0 && !s.pc.Selecting? && !s.pc.Active? {
      var a := match s.pc
        case Setup => SetupWorks
        case Dialing => DialWorks
        case Closing => ClosesStop
        case ReleaseDue => ReleasesSlot
        case _ => if s.forwarder == Sending then Sends else Stops;
      assert Advance(s, a, false).Some?;
    }
  }
}
