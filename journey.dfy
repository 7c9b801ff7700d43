/** The journey planner: two endpoint slots filled from a fixed list of
    places, never with the same place twice, the five-point route drawn
    between them, and the strip of the next fourteen days. */
module Journey {
  import opened Seqs

  datatype Location = Location(id: string, name: string, address: string)

  /** The places the selector offers. */
  const Locations: seq<Location> :=
    [ Location("1", "Central Park", "New York, NY"),
      Location("2", "Times Square", "New York, NY"),
      Location("3", "Brooklyn Bridge", "Brooklyn, NY"),
      Location("4", "Empire State Building", "Manhattan, NY"),
      Location("5", "Statue of Liberty", "Liberty Island, NY"),
      Location("6", "One World Trade", "Manhattan, NY")
    ]

  /** Which slot the open selector fills. */
  datatype Slot = InitialSlot | DestinationSlot

  /** The planner's state: both slots, whether the selector is open and for which slot. */
  datatype Planner = Planner(initialPoint: Option<Location>, destination: Option<Location>,
                             showLocationModal: bool, selectingFor: Slot)

  /** The alert a choice may raise. */
  datatype Choice = Accepted | SameAsOtherEnd

  function InitialPlanner(): Planner
  {
    Planner(None, None, false, InitialSlot)
  }

  /** The two slots never hold places with the same id. */
  predicate DistinctEnds(p: Planner)
  {
    !(p.initialPoint.Some? && p.destination.Some? && p.initialPoint.value.id == p.destination.value.id)
  }

  /** The slot the selector is not filling. */
  function OtherEnd(p: Planner): Option<Location>
  {
    if p.selectingFor == InitialSlot then p.destination else p.initialPoint
  }

  /** The alert `handleLocationSelect` raises, if any. */
  function ChoiceOutcome(p: Planner, location: Location): (c: Choice)
    ensures c == Accepted && p.selectingFor == InitialSlot ==> DistinctEnds(p.(initialPoint := Some(location)))
    ensures c == Accepted && p.selectingFor == DestinationSlot ==> DistinctEnds(p.(destination := Some(location)))
    ensures c == SameAsOtherEnd ==> OtherEnd(p).Some? && OtherEnd(p).value.id == location.id
  {
    var other := OtherEnd(p);
    if other.Some? && other.value.id == location.id then SameAsOtherEnd else Accepted
  }

  /** `handleLocationSelect`: a place whose id is already in the other slot is
      refused and the selector stays open; otherwise it goes into the slot
      being chosen and the selector closes. */
  function AfterChoice(p: Planner, location: Location): (r: Planner)
    ensures DistinctEnds(p) ==> DistinctEnds(r)
    ensures r.selectingFor == p.selectingFor
    ensures r != p ==> !r.showLocationModal
  {
    if ChoiceOutcome(p, location) == SameAsOtherEnd then p
    else if p.selectingFor == InitialSlot then p.(initialPoint := Some(location), showLocationModal := false)
    else p.(destination := Some(location), showLocationModal := false)
  }

  /** `openLocationSelector`. */
  function Opened(p: Planner, slot: Slot): (r: Planner)
    ensures r.showLocationModal && r.selectingFor == slot
    ensures r.initialPoint == p.initialPoint && r.destination == p.destination
  {
    p.(selectingFor := slot, showLocationModal := true)
  }

  /** The selector's close button. */
  function Closed(p: Planner): (r: Planner)
    ensures !r.showLocationModal
    ensures r.initialPoint == p.initialPoint && r.destination == p.destination && r.selectingFor == p.selectingFor
  {
    p.(showLocationModal := false)
  }

  /** What the user can do on the planner. */
  datatype Action = Open(slot: Slot) | Choose(location: Location) | Close

  function Step(p: Planner, a: Action): Planner
  {
    match a
    case Open(slot) => Opened(p, slot)
    case Choose(location) => AfterChoice(p, location)
    case Close => Closed(p)
  }

  /** A session of actions from a given state. */
  function Run(p: Planner, actions: seq<Action>): Planner
    decreases |actions|
  {
    if actions == [] then p else Run(Step(p, actions[0]), actions[1..])
  }

  // ------------------------------------------------------ selection lemmas

  /** Both slots start empty, with the selector closed. */
  lemma InitiallyEmpty()
    ensures InitialPlanner().initialPoint.None? && InitialPlanner().destination.None?
    ensures !InitialPlanner().showLocationModal && DistinctEnds(InitialPlanner())
  {
  }

  /** A refused choice changes nothing; an accepted one fills exactly the slot
      being chosen, keeps the other, and closes the selector. */
  lemma ChoiceEffect(p: Planner, location: Location)
    ensures ChoiceOutcome(p, location) == SameAsOtherEnd <==>
            OtherEnd(p).Some? && OtherEnd(p).value.id == location.id
    ensures ChoiceOutcome(p, location) == SameAsOtherEnd ==> AfterChoice(p, location) == p
    ensures ChoiceOutcome(p, location) == Accepted ==>
              var q := AfterChoice(p, location);
              !q.showLocationModal && q.selectingFor == p.selectingFor &&
              (p.selectingFor == InitialSlot ==> q.initialPoint == Some(location) && q.destination == p.destination) &&
              (p.selectingFor == DestinationSlot ==> q.destination == Some(location) && q.initialPoint == p.initialPoint)
  {
  }

  /** Every action keeps the two ends distinct. */
  lemma StepKeepsDistinct(p: Planner, a: Action)
    requires DistinctEnds(p)
    ensures DistinctEnds(Step(p, a))
  {
  }

  /** However long the session, the initial point and the destination never
      hold the same place. */
  lemma {:induction false} RunKeepsDistinct(p: Planner, actions: seq<Action>)
    requires DistinctEnds(p)
    ensures DistinctEnds(Run(p, actions))
    decreases |actions|
  {
    if actions != [] {
      StepKeepsDistinct(p, actions[0]);
      RunKeepsDistinct(Step(p, actions[0]), actions[1..]);
    }
  }

  /** The places on offer have distinct ids, so any two different list
      entries can fill the two slots. */
  lemma LocationIdsDistinct(i: nat, j: nat)
    requires i < j < |Locations|
    ensures Locations[i].id != Locations[j].id
  {
  }

  // ---------------------------------------------------------- the route

  /** A point of the drawn route. */
  datatype JourneyPoint = JourneyPoint(id: int, x: int, y: int, location: Option<Location>,
                                       isStart: bool, isDestination: bool)

  /** `generateJourneyPoints`: five fixed points; the places are attached to
      the first and last only when both slots are filled. */
  function JourneyPoints(initialPoint: Option<Location>, destination: Option<Location>): (r: seq<JourneyPoint>)
    ensures |r| == 5 && r[0].isStart && r[4].isDestination
    ensures forall i :: 0 <= i < |r| ==> r[i].location.None? || i == 0 || i == 4
  {
    var both := initialPoint.Some? && destination.Some?;
    [ JourneyPoint(1, 100, 120, if both then initialPoint else None, true, false),
      JourneyPoint(2, 200, 180, None, false, false),
      JourneyPoint(3, 300, 140, None, false, false),
      JourneyPoint(4, 150, 280, None, false, false),
      JourneyPoint(5, 280, 320, if both then destination else None, false, true)
    ]
  }

  /** Five points numbered 1 to 5; only the first is the start and only the
      last the destination; the middle ones never carry a place, and the ends
      carry the chosen places exactly when both are chosen. */
  lemma JourneyPointsShape(initialPoint: Option<Location>, destination: Option<Location>)
    ensures var r := JourneyPoints(initialPoint, destination);
            |r| == 5 &&
            (forall i :: 0 <= i < 5 ==> r[i].id == i + 1) &&
            (forall i :: 0 <= i < 5 ==> (r[i].isStart <==> i == 0) && (r[i].isDestination <==> i == 4)) &&
            (forall i :: 1 <= i < 4 ==> r[i].location.None?) &&
            (initialPoint.Some? && destination.Some? ==>
               r[0].location == initialPoint && r[4].location == destination) &&
            (initialPoint.None? || destination.None? ==> r[0].location.None? && r[4].location.None?)
  {
  }

  // ----------------------------------------------------------- the dates

  /** A local date and time: a day count (consecutive days differ by one,
      across month and year ends) and the milliseconds since midnight. */
  datatype Moment = Moment(day: int, msOfDay: int)

  const DateStripLength: nat := 14

  /** `generateDates`: today, then each following day at the same time of
      day, fourteen in all. */
  method GenerateDates(today: Moment) returns (dates: seq<Moment>)
    ensures |dates| == DateStripLength
    ensures dates[0] == today
    ensures forall i :: 1 <= i < |dates| ==> dates[i] == dates[i - 1].(day := dates[i - 1].day + 1)
  {
    dates := [];
    var i := 0;
    while i < 14
      invariant 0 <= i <= 14 && |dates| == i
      invariant forall k :: 0 <= k < i ==> dates[k] == Moment(today.day + k, today.msOfDay)
    {
      var date := today.(day := today.day + i);
      dates := dates + [date];
      i := i + 1;
    }
  }

  // ------------------------------------------------------------- screen

  /** The planner's state variables. */
  class JourneyScreen {
    var initialPoint: Option<Location>
    var destination: Option<Location>
    var showLocationModal: bool
    var selectingFor: Slot

    function State(): Planner
      reads this
    {
      Planner(initialPoint, destination, showLocationModal, selectingFor)
    }

    constructor ()
      ensures State() == InitialPlanner()
    {
      initialPoint, destination := None, None;
      showLocationModal, selectingFor := false, InitialSlot;
    }

    /** `handleLocationSelect`. */
    method SelectLocation(location: Location) returns (choice: Choice)
      modifies this
      ensures choice == ChoiceOutcome(old(State()), location)
      ensures State() == AfterChoice(old(State()), location)
    {
      if selectingFor == InitialSlot {
        if destination.Some? && destination.value.id == location.id {
          return SameAsOtherEnd;
        }
        initialPoint := Some(location);
      } else {
        if initialPoint.Some? && initialPoint.value.id == location.id {
          return SameAsOtherEnd;
        }
        destination := Some(location);
      }
      showLocationModal := false;
      choice := Accepted;
    }

    /** `openLocationSelector`. */
    method OpenLocationSelector(slot: Slot)
      modifies this
      ensures State() == Opened(old(State()), slot)
    {
      selectingFor := slot;
      showLocationModal := true;
    }

    /** The selector's close button. */
    method CloseLocationSelector()
      modifies this
      ensures State() == Closed(old(State()))
    {
      showLocationModal := false;
    }

    /** `generateJourneyPoints` on the current slots. */
    function Points(): (r: seq<JourneyPoint>)
      reads this
      ensures |r| == 5 && r[0].isStart && r[4].isDestination
      ensures initialPoint.Some? && destination.Some? ==> r[0].location == initialPoint && r[4].location == destination
      ensures initialPoint.None? || destination.None? ==> forall i :: 0 <= i < 5 ==> r[i].location.None?
    {
      JourneyPoints(initialPoint, destination)
    }
  }
}
