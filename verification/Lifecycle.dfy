/** The lane state machine (`core/lifecycle`) and what holds along its runs. */
module Lifecycle {
  import opened Wrappers

  /** States are strings in the source; `Other("")` is the empty string. */
  datatype State =
    | Planned | Active | Frozen | Reviewed | Ready | Closed | Blocked | Abandoned | Incident
    | Other(name: string)

  datatype Event =
    | Activate | Freeze | RecordReview | MarkReady | Close | Block | Resume | Abandon | IncidentEvent

  datatype Snapshot = Snapshot(state: State, blockedFrom: State)

  function At(state: State): Snapshot {
    Snapshot(state, Other(""))
  }

  function Rank(state: State): Option<nat> {
    match state
    case Planned => Some(0)
    case Active => Some(1)
    case Frozen => Some(2)
    case Reviewed => Some(3)
    case Ready => Some(4)
    case Closed => Some(5)
    case _ => None
  }

  predicate BlockableFrom(state: State) {
    Rank(state).Some? && state != Closed
  }

  predicate KnownState(state: State) {
    Rank(state).Some? || state.Blocked? || state.Abandoned? || state.Incident?
  }

  function Apply(s: Snapshot, event: Event): Option<Snapshot> {
    match s.state
    case Planned =>
      (match event
       case Activate => Some(At(Active))
       case Block => Some(Snapshot(Blocked, s.state))
       case Abandon => Some(At(Abandoned))
       case IncidentEvent => Some(At(Incident))
       case _ => None)
    case Active =>
      (match event
       case Freeze => Some(At(Frozen))
       case Block => Some(Snapshot(Blocked, s.state))
       case Abandon => Some(At(Abandoned))
       case IncidentEvent => Some(At(Incident))
       case _ => None)
    case Frozen =>
      (match event
       case RecordReview => Some(At(Reviewed))
       case Block => Some(Snapshot(Blocked, s.state))
       case Abandon => Some(At(Abandoned))
       case IncidentEvent => Some(At(Incident))
       case _ => None)
    case Reviewed =>
      (match event
       case MarkReady => Some(At(Ready))
       case Block => Some(Snapshot(Blocked, s.state))
       case Abandon => Some(At(Abandoned))
       case IncidentEvent => Some(At(Incident))
       case _ => None)
    case Ready =>
      (match event
       case Close => Some(At(Closed))
       case Block => Some(Snapshot(Blocked, s.state))
       case Abandon => Some(At(Abandoned))
       case IncidentEvent => Some(At(Incident))
       case _ => None)
    case Blocked =>
      (match event
       case Resume => if BlockableFrom(s.blockedFrom) then Some(At(s.blockedFrom)) else None
       case Abandon => Some(At(Abandoned))
       case IncidentEvent => Some(At(Incident))
       case _ => None)
    case _ => None
  }

  /** The position in the lifecycle order, a blocked lane read as its predecessor. */
  function Position(s: Snapshot): Option<nat> {
    Rank(if s.state == Blocked then s.blockedFrom else s.state)
  }

  predicate AtOrAfter(s: Snapshot, floor: State)
    requires Rank(floor).Some?
  {
    Position(s).Some? && Position(s).value >= Rank(floor).value
  }

  predicate AtOrAfterActive(s: Snapshot) {
    AtOrAfter(s, Active)
  }

  predicate AtOrAfterFrozen(s: Snapshot) {
    AtOrAfter(s, Frozen)
  }

  predicate AtOrAfterReviewed(s: Snapshot) {
    AtOrAfter(s, Reviewed)
  }

  /** The lifecycle fields a valid manifest may hold. */
  predicate WellFormed(s: Snapshot) {
    && KnownState(s.state)
    && (if s.state == Blocked then BlockableFrom(s.blockedFrom) else s.blockedFrom == Other(""))
  }

  predicate SideExit(s: Snapshot) {
    s.state.Abandoned? || s.state.Incident?
  }

  predicate Terminal(s: Snapshot) {
    s.state.Closed? || SideExit(s)
  }

  // ---------- Runs ----------

  /** All the events applied in order; None when one of them is refused. */
  function Run(s: Snapshot, events: seq<Event>): Option<Snapshot> {
    if events == [] then Some(s)
    else
      match Run(s, events[..|events| - 1])
      case None => None
      case Some(t) => Apply(t, events[|events| - 1])
  }

  /** The events other than Block and Resume. */
  function Marks(events: seq<Event>): seq<Event> {
    if events == [] then []
    else
      var e := events[|events| - 1];
      Marks(events[..|events| - 1]) + (if e.Block? || e.Resume? then [] else [e])
  }

  const CHAIN: seq<Event> := [Activate, Freeze, RecordReview, MarkReady, Close]

  /** One event: a pause, the next link of the chain, or a side exit. */
  lemma StepShape(s: Snapshot, e: Event)
    requires WellFormed(s) && Apply(s, e).Some?
    ensures var t := Apply(s, e).value;
      && Position(s).Some? && !SideExit(s) && WellFormed(t)
      && if e.Block? || e.Resume? then Position(t) == Position(s) && !SideExit(t)
         else if e.Abandon? || e.IncidentEvent? then
           Position(s).value <= 4 && t == At(if e.Abandon? then Abandoned else Incident)
         else Position(s).value <= 4 && CHAIN[Position(s).value] == e && Position(t) == Some(Position(s).value + 1)
              && !SideExit(t)
  {
    assert CHAIN[0] == Activate && CHAIN[1] == Freeze && CHAIN[2] == RecordReview
           && CHAIN[3] == MarkReady && CHAIN[4] == Close;
  }

  /** The legal events: none at the end; before it the two side exits always, Resume
      for a blocked lane, Block and the next link of the chain for any other. */
  lemma LegalEvents(s: Snapshot, e: Event)
    requires WellFormed(s)
    ensures Apply(s, e).Some? <==>
      && !Terminal(s)
      && (e.Abandon? || e.IncidentEvent?
          || (if s.state.Blocked? then e.Resume? else e.Block? || e == CHAIN[Position(s).value]))
  {
    assert CHAIN[0] == Activate && CHAIN[1] == Freeze && CHAIN[2] == RecordReview
           && CHAIN[3] == MarkReady && CHAIN[4] == Close;
  }

  predicate Shape(marks: seq<Event>, t: Snapshot) {
    if SideExit(t) then
      exists k :: 0 <= k <= 4 && marks == CHAIN[..k] + [if t.state.Abandoned? then Abandon else IncidentEvent]
    else
      Position(t).Some? && Position(t).value <= 5 && marks == CHAIN[..Position(t).value]
  }

  /** A run is a prefix of the chain of progress, paused by any number of blocks,
      and at most one side exit at its end. */
  lemma {:induction false} RunShape(events: seq<Event>)
    requires Run(At(Planned), events).Some?
    ensures var t := Run(At(Planned), events).value; WellFormed(t) && Shape(Marks(events), t)
  {
    if events != [] {
      var before, e := events[..|events| - 1], events[|events| - 1];
      RunShape(before);
      var s := Run(At(Planned), before).value;
      StepShape(s, e);
      ShapeStep(Marks(before), s, e, Apply(s, e).value);
    }
  }

  lemma ShapeStep(marks: seq<Event>, s: Snapshot, e: Event, t: Snapshot)
    requires Shape(marks, s) && WellFormed(s) && Apply(s, e) == Some(t)
    ensures Shape(marks + (if e.Block? || e.Resume? then [] else [e]), t)
  {
    StepShape(s, e);
    var k := Position(s).value;
    if e.Block? || e.Resume? {
      assert marks + [] == marks;
    } else if !e.Abandon? && !e.IncidentEvent? {
      assert CHAIN[..k] + [e] == CHAIN[..k + 1];
    }
  }

  /** At most five events of a run are neither Block nor Resume. */
  lemma AtMostFive(events: seq<Event>)
    requires Run(At(Planned), events).Some?
    ensures |Marks(events)| <= 5
  {
    RunShape(events);
  }

  lemma {:induction false} MarksMember(events: seq<Event>, e: Event)
    requires !e.Block? && !e.Resume?
    ensures e in Marks(events) <==> e in events
  {
    if events != [] {
      var before := events[..|events| - 1];
      MarksMember(before, e);
      assert events == before + [events[|events| - 1]];
    }
  }

  /** Off the side exits the order predicates say which events have happened. */
  lemma {:induction false} OrderTellsHistory(events: seq<Event>)
    requires Run(At(Planned), events).Some? && !SideExit(Run(At(Planned), events).value)
    ensures var t := Run(At(Planned), events).value;
      && (AtOrAfterActive(t) <==> Activate in events)
      && (AtOrAfterFrozen(t) <==> Freeze in events)
      && (AtOrAfterReviewed(t) <==> RecordReview in events)
      && (AtOrAfter(t, Ready) <==> MarkReady in events)
      && (t.state.Closed? <==> Close in events)
  {
    RunShape(events);
    var k := Position(Run(At(Planned), events).value).value;
    LinkPassed(events, k, 0);
    LinkPassed(events, k, 1);
    LinkPassed(events, k, 2);
    LinkPassed(events, k, 3);
    LinkPassed(events, k, 4);
  }

  lemma LinkPassed(events: seq<Event>, k: nat, i: nat)
    requires k <= 5 && i < 5 && Marks(events) == CHAIN[..k]
    ensures CHAIN[i] in events <==> i < k
  {
    MarksMember(events, CHAIN[i]);
    InPrefix(CHAIN, k, i);
  }

  lemma InPrefix(chain: seq<Event>, k: nat, i: nat)
    requires k <= |chain| && i < |chain| && forall a, b :: 0 <= a < b < |chain| ==> chain[a] != chain[b]
    ensures chain[i] in chain[..k] <==> i < k
  {
    if i < k {
      assert chain[..k][i] == chain[i];
    }
  }

  function PathTo(t: Snapshot): seq<Event>
    requires WellFormed(t)
  {
    if t.state.Abandoned? then [Abandon]
    else if t.state.Incident? then [IncidentEvent]
    else CHAIN[..Position(t).value] + (if t.state.Blocked? then [Block] else [])
  }

  lemma PathReaches(t: Snapshot)
    requires WellFormed(t)
    ensures Run(At(Planned), PathTo(t)) == Some(t)
  {
    if SideExit(t) {
      assert PathTo(t)[..0] == [];
    } else {
      var k := Position(t).value;
      ChainRun(k);
      if t.state.Blocked? {
        assert PathTo(t)[..k] == CHAIN[..k];
        assert StateAt(k) == t.blockedFrom;
      } else {
        assert PathTo(t) == CHAIN[..k];
        assert StateAt(k) == t.state;
      }
    }
  }

  /** Runs reach exactly the snapshots a valid manifest may hold. */
  lemma ReachableIffWellFormed(t: Snapshot)
    ensures (exists events :: Run(At(Planned), events) == Some(t)) <==> WellFormed(t)
  {
    if events :| Run(At(Planned), events) == Some(t) {
      RunShape(events);
    }
    if WellFormed(t) {
      PathReaches(t);
    }
  }

  function StateAt(k: nat): State
    requires k <= 5
    ensures Rank(StateAt(k)) == Some(k)
  {
    [Planned, Active, Frozen, Reviewed, Ready, Closed][k]
  }

  lemma {:induction false} ChainRun(k: nat)
    requires k <= 5
    ensures Run(At(Planned), CHAIN[..k]) == Some(At(StateAt(k)))
  {
    if k > 0 {
      ChainRun(k - 1);
      assert CHAIN[..k][..k - 1] == CHAIN[..k - 1];
      assert Apply(At(StateAt(k - 1)), CHAIN[k - 1]) == Some(At(StateAt(k)));
    }
  }

  /** A later point of the same run. */
  lemma {:induction false} RunSplit(s: Snapshot, first: seq<Event>, more: seq<Event>)
    ensures Run(s, first + more) ==
            if Run(s, first).None? then None else Run(Run(s, first).value, more)
  {
    if more == [] {
      assert first + more == first;
    } else {
      RunSplit(s, first, more[..|more| - 1]);
      assert (first + more)[..|first + more| - 1] == first + more[..|more| - 1];
    }
  }

  /** The rank never falls, from any well-formed point on. */
  lemma {:induction false} RankNeverFalls(s: Snapshot, events: seq<Event>)
    requires WellFormed(s) && Run(s, events).Some?
    ensures var t := Run(s, events).value;
            WellFormed(t) && (SideExit(t) || (Position(s).Some? && Position(t).value >= Position(s).value))
  {
    if events != [] {
      RankNeverFalls(s, events[..|events| - 1]);
    }
  }

  /** The state before and after the event at `i` of a run. */
  lemma RunStep(s: Snapshot, events: seq<Event>, i: nat)
    requires WellFormed(s) && i < |events| && Run(s, events).Some?
    ensures var before, after := Run(s, events[..i]), Run(s, events[..i + 1]);
            before.Some? && WellFormed(before.value) && after.Some? && after == Apply(before.value, events[i])
  {
    RunSplit(s, events[..i + 1], events[i + 1..]);
    assert events == events[..i + 1] + events[i + 1..];
    assert events[..i + 1][..i] == events[..i];
    RankNeverFalls(s, events[..i]);
  }

  lemma PauseStep(s: Snapshot, t: Snapshot)
    requires WellFormed(s) && Apply(s, Block) == Some(t)
    ensures BlockableFrom(s.state) && t.state.Blocked?
    ensures forall e :: Apply(t, e).Some? ==> e.Resume? || e.Abandon? || e.IncidentEvent?
    ensures Apply(t, Resume) == Some(s)
  {
  }

  /** A block is followed only by Resume, Abandon or Incident, and Resume gives
      back the exact snapshot from before the block. */
  lemma {:induction false} BlockThenResume(s: Snapshot, events: seq<Event>, i: nat)
    requires WellFormed(s) && i < |events| && events[i].Block? && Run(s, events).Some?
    ensures Run(s, events[..i]).Some? && BlockableFrom(Run(s, events[..i]).value.state)
    ensures i + 1 < |events| ==>
              events[i + 1].Resume? || events[i + 1].Abandon? || events[i + 1].IncidentEvent?
    ensures i + 1 < |events| && events[i + 1].Resume? ==> Run(s, events[..i + 2]) == Run(s, events[..i])
  {
    RunStep(s, events, i);
    PauseStep(Run(s, events[..i]).value, Run(s, events[..i + 1]).value);
    if i + 1 < |events| {
      RunStep(s, events, i + 1);
    }
  }

  /** Resume comes only right after Block, unless the run began blocked. */
  lemma {:induction false} ResumeAfterBlock(s: Snapshot, events: seq<Event>, i: nat)
    requires WellFormed(s) && i < |events| && events[i].Resume? && Run(s, events).Some?
    ensures if i == 0 then s.state.Blocked? else events[i - 1].Block?
  {
    RunStep(s, events, i);
    if i > 0 {
      RunStep(s, events, i - 1);
    }
  }

  /** Nothing follows a terminal state. */
  lemma {:induction false} TerminalAbsorbs(s: Snapshot, events: seq<Event>, more: seq<Event>)
    requires Run(s, events).Some? && Terminal(Run(s, events).value) && more != []
    ensures Run(s, events + more) == None
    decreases |more|
  {
    var init := more[..|more| - 1];
    if init == [] {
      assert events + init == events;
    } else {
      TerminalAbsorbs(s, events, init);
    }
    assert (events + more)[..|events + more| - 1] == events + init;
  }
}
