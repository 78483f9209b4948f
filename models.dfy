/**
 * The entities of the simulator (models.py): riders, elevator cars with their
 * kinematics, door state machine and target list, and the building that owns
 * them. Riders are kept in one store keyed by id; the roster, the waiting
 * queues and the passenger lists hold ids, so that a rider reachable from
 * several of them in the Python program is one record here.
 */
module Models {
  import opened Common
  import opened Sorting

  type PersonId = nat

  // ---------------------------------------------------------------------------
  // Person (models.py:7-41)
  // ---------------------------------------------------------------------------

  datatype PersonState = Choosing | Waiting | InElevator | Delivered | Evacuated

  datatype Person = Person(
    id: PersonId,
    origin: int,
    target: Option<int>,
    createdAt: real,
    decisionTime: Option<real>,
    enterTime: Option<real>,
    deliveredAt: Option<real>,
    state: PersonState)

  /** A fresh rider, as `Person.__init__` builds it: no target yet, deciding. */
  function NewPerson(id: PersonId, origin: int, createdAt: real): Person {
    Person(id, origin, None, createdAt, None, None, None, Choosing)
  }

  /** Some floor of 1..numFloors differs from `origin`. */
  predicate HasOtherFloor(numFloors: int, origin: int) {
    numFloors >= 2 || (numFloors == 1 && origin != 1)
  }

  /** The floors lo..hi except `origin`, ascending. */
  function FloorsExcept(lo: int, hi: int, origin: int): (r: seq<int>)
    decreases hi - lo + 1
    ensures forall t :: t in r <==> lo <= t <= hi && t != origin
    ensures forall i, j :: 0 <= i < j < |r| ==> r[i] < r[j]
  {
    if lo > hi then []
    else if lo == origin then FloorsExcept(lo + 1, hi, origin)
    else
      var rest := FloorsExcept(lo + 1, hi, origin);
      forall k | 0 <= k < |rest| ensures rest[k] > lo {
        assert rest[k] in rest;
      }
      [lo] + rest
  }

  /**
   * The list `choose_target` draws from: every floor but the origin, or [1]
   * when there is no other floor.
   */
  function TargetChoices(numFloors: int, origin: int): (r: seq<int>)
    ensures r != []
    ensures HasOtherFloor(numFloors, origin) ==>
      forall t :: t in r <==> 1 <= t <= numFloors && t != origin
    ensures !HasOtherFloor(numFloors, origin) ==> r == [1]
  {
    var choices := FloorsExcept(1, numFloors, origin);
    assert HasOtherFloor(numFloors, origin) ==> (if origin != 1 then 1 else 2) in choices;
    if choices == [] then [1] else choices
  }

  /** What a chosen target satisfies (the set `TargetChoices` describes). */
  predicate ValidTarget(numFloors: int, origin: int, t: int) {
    if HasOtherFloor(numFloors, origin) then 1 <= t <= numFloors && t != origin else t == 1
  }

  /**
   * `choose_target`: picks a target among `TargetChoices` (the random pick is a
   * nondeterministic choice), stamps the decision time and moves to waiting.
   */
  method ChooseTarget(p: Person, numFloors: int, now: real) returns (q: Person)
    ensures q.target.Some? && q.target.value in TargetChoices(numFloors, p.origin)
    ensures ValidTarget(numFloors, p.origin, q.target.value)
    ensures HasOtherFloor(numFloors, p.origin) ==> q.target.value != p.origin
    ensures q.state == Waiting && q.decisionTime == Some(now)
    ensures q == p.(target := q.target, decisionTime := Some(now), state := Waiting)
  {
    var choices := TargetChoices(numFloors, p.origin);
    assert choices[0] in choices;
    var t :| t in choices;
    q := p.(target := Some(t), decisionTime := Some(now), state := Waiting);
  }

  /** `get_wait_time`: enter time minus decision time when both are set and non-zero. */
  function WaitTime(p: Person): (r: real)
    ensures !(Truthy(p.decisionTime) && Truthy(p.enterTime)) ==> r == 0.0
    ensures Truthy(p.decisionTime) && Truthy(p.enterTime) ==>
      r + p.decisionTime.value == p.enterTime.value
    ensures (Truthy(p.decisionTime) && Truthy(p.enterTime) &&
             p.decisionTime.value <= p.enterTime.value) ==> r >= 0.0
  {
    if Truthy(p.decisionTime) && Truthy(p.enterTime) then
      p.enterTime.value - p.decisionTime.value
    else 0.0
  }

  /**
   * What every stored rider satisfies: a target, once chosen, is a valid one
   * (never the origin when another floor exists), and a delivered or evacuated
   * rider carries its terminal time stamp.
   */
  ghost predicate Consistent(p: Person, numFloors: int) {
    && (p.target.Some? ==> ValidTarget(numFloors, p.origin, p.target.value))
    && (p.state == Delivered || p.state == Evacuated ==> p.deliveredAt.Some?)
  }

  // ---------------------------------------------------------------------------
  // Target ordering (models.py:70-86)
  // ---------------------------------------------------------------------------

  /** The sort key `_sort_targets` uses for each direction. */
  function TargetKey(d: Direction, position: real): int -> real {
    match d
    case Up => (f: int) => f as real
    case Down => (f: int) => -(f as real)
    case Idle => (f: int) => Abs(position - f as real)
  }

  /** `_sort_targets` on the list `ts`. */
  function SortedTargets(ts: seq<int>, d: Direction, position: real): seq<int> {
    SortBy(ts, TargetKey(d, position))
  }

  /** `add_target` on the list `ts`: append and re-sort unless already present. */
  function AddedTargets(ts: seq<int>, floor: int, d: Direction, position: real): seq<int> {
    if floor in ts then ts else SortedTargets(ts + [floor], d, position)
  }

  /**
   * The order `_sort_targets` establishes: a permutation of the old list,
   * ascending going up, descending going down, nearest first when idle.
   */
  lemma SortedTargetsOrder(ts: seq<int>, d: Direction, position: real)
    requires NoDup(ts)
    ensures var r := SortedTargets(ts, d, position);
      && multiset(r) == multiset(ts)
      && NoDup(r)
      && (d == Up ==> forall i, j :: 0 <= i < j < |r| ==> r[i] < r[j])
      && (d == Down ==> forall i, j :: 0 <= i < j < |r| ==> r[i] > r[j])
      && (d == Idle ==> forall i, j :: 0 <= i < j < |r| ==>
            Abs(position - r[i] as real) <= Abs(position - r[j] as real))
  {
    var key := TargetKey(d, position);
    var r := SortBy(ts, key);
    NoDupPermutation(ts, r);
    forall i, j | 0 <= i < j < |r|
      ensures d == Up ==> r[i] < r[j]
      ensures d == Down ==> r[i] > r[j]
      ensures d == Idle ==> Abs(position - r[i] as real) <= Abs(position - r[j] as real)
    {
      assert key(r[i]) <= key(r[j]);
      assert r[i] != r[j];
    }
  }

  /**
   * `add_target` keeps the list duplicate-free, makes `floor` a member, adds
   * nothing else, and leaves a list that already holds `floor` as it was.
   */
  lemma AddedTargetsProperties(ts: seq<int>, floor: int, d: Direction, position: real)
    requires NoDup(ts)
    ensures var r := AddedTargets(ts, floor, d, position);
      && NoDup(r)
      && floor in r
      && (forall t :: t in r <==> t in ts || t == floor)
      && (floor in ts ==> r == ts)
      && (floor !in ts ==> multiset(r) == multiset(ts) + multiset{floor})
  {
    if floor !in ts {
      var grown := ts + [floor];
      assert NoDup(grown) by {
        forall i, j | 0 <= i < j < |grown| ensures grown[i] != grown[j] {
          if j == |ts| { assert grown[i] == ts[i]; }
          else { assert grown[i] == ts[i] && grown[j] == ts[j]; }
        }
      }
      SortedTargetsOrder(grown, d, position);
      var r := SortedTargets(grown, d, position);
      forall t ensures t in r <==> t in ts || t == floor {
        assert t in r <==> t in multiset(r);
      }
    }
  }

  /** The duplicate-freedom half of `AddedTargetsProperties`, for callers that need only it. */
  lemma AddedTargetsNoDup(ts: seq<int>, floor: int, d: Direction, position: real)
    requires NoDup(ts)
    ensures NoDup(AddedTargets(ts, floor, d, position))
  {
    AddedTargetsProperties(ts, floor, d, position);
  }

  /**
   * The membership half of `AddedTargetsProperties`, which holds even when
   * `ts` has duplicates.
   */
  lemma AddedTargetsMembers(ts: seq<int>, floor: int, d: Direction, position: real)
    ensures forall t :: t in AddedTargets(ts, floor, d, position) <==> t in ts || t == floor
  {
    if floor !in ts {
      var r := SortedTargets(ts + [floor], d, position);
      forall t ensures t in r <==> t in ts || t == floor {
        assert t in r <==> t in multiset(r);
        assert t in ts + [floor] <==> t in multiset(ts + [floor]);
      }
    }
  }

  /** `add_target` on an empty list leaves just that floor, whatever the direction. */
  lemma SingleTarget(f: int, d: Direction, position: real)
    ensures AddedTargets([], f, d, position) == [f]
  {
    assert [] + [f] == [f];
    assert SortedTargets([f], d, position) == [f];
  }

  // ---------------------------------------------------------------------------
  // Kinematics (models.py:88-143)
  // ---------------------------------------------------------------------------

  /** Height of one floor in metres (the default of `update_physics`). */
  const FloorHeight: real := 3.0
  /** Distance to the target, in metres, under which the car counts as arrived. */
  const ArrivalTolerance: real := 0.05
  /** Extra braking distance, in metres, added to v²/(2a). */
  const BrakingMargin: real := 0.1

  datatype Motion = Motion(floor: real, velocity: real, direction: Direction)

  datatype StepResult = StepResult(motion: Motion, moving: bool)

  /** The signed distance in metres from position `floor` to floor `target`. */
  function DistanceToTarget(floor: real, target: int): real {
    (target as real - 1.0) * FloorHeight - (floor - 1.0) * FloorHeight
  }

  predicate Arrived(floor: real, target: int) {
    Abs(DistanceToTarget(floor, target)) < ArrivalTolerance
  }

  /** The velocity limit of lines 135-136: first the upper, then the lower bound. */
  function ClampSpeed(v: real, maxSpeed: real): (r: real)
    ensures maxSpeed >= 0.0 ==> -maxSpeed <= r <= maxSpeed
    ensures maxSpeed >= 0.0 && -maxSpeed <= v <= maxSpeed ==> r == v
  {
    var capped := if v > maxSpeed then maxSpeed else v;
    if capped < -maxSpeed then -maxSpeed else capped
  }

  /** v²/(2a): the distance needed to stop from velocity `v` at deceleration `a`. */
  function StoppingDistance(v: real, a: real): real
    requires a != 0.0
  {
    (v * v) / (2.0 * a)
  }

  /** Brake when within braking distance, else accelerate up to the speed limit, else cruise. */
  function Acceleration(dist: real, velocity: real, maxSpeed: real, maxAccel: real): real
    requires maxAccel != 0.0
  {
    var sign := if dist > 0.0 then 1.0 else -1.0;
    if Abs(dist) <= StoppingDistance(velocity, maxAccel) + BrakingMargin then
      -maxAccel * (if velocity > 0.0 then 1.0 else -1.0)
    else if Abs(velocity) < maxSpeed then maxAccel * sign
    else 0.0
  }

  /** The floor reached from `floor` after `dt` seconds at velocity `v`, via the height in metres. */
  function Advanced(floor: real, v: real, dt: real): real {
    ((floor - 1.0) * FloorHeight + v * dt) / FloorHeight + 1.0
  }

  /**
   * The motion after `dt` seconds with acceleration `accel`, `dist` metres
   * short of the target: speed-limited velocity, advanced position, heading.
   */
  function Moved(m: Motion, dist: real, accel: real, maxSpeed: real, dt: real): Motion {
    var v := ClampSpeed(m.velocity + accel * dt, maxSpeed);
    Motion(Advanced(m.floor, v, dt), v, if dist > 0.0 then Up else Down)
  }

  /** The motion of a car that is travelling towards `target` (doors shut, not yet arrived). */
  function Travel(m: Motion, target: int, maxSpeed: real, maxAccel: real, dt: real): Motion
    requires maxAccel != 0.0
  {
    var dist := DistanceToTarget(m.floor, target);
    Moved(m, dist, Acceleration(dist, m.velocity, maxSpeed, maxAccel), maxSpeed, dt)
  }

  /**
   * One `update_physics` call: the new position, velocity and direction, and
   * whether the car is moving.
   */
  function Step(m: Motion, doorsOpen: bool, targets: seq<int>, maxSpeed: real, maxAccel: real,
                dt: real): StepResult
    requires maxAccel != 0.0
  {
    if doorsOpen then StepResult(m.(velocity := 0.0), false)
    else if targets == [] then StepResult(m.(velocity := 0.0, direction := Idle), false)
    else if Arrived(m.floor, targets[0]) then
      StepResult(Motion(targets[0] as real, 0.0, m.direction), false)
    else
      StepResult(Travel(m, targets[0], maxSpeed, maxAccel, dt), true)
  }

  /**
   * What a physics step does: the car moves exactly when its doors are shut, it
   * has a target and it is not within tolerance of it; open doors stop it in
   * place; no targets make it idle; arrival snaps it onto the target floor;
   * otherwise it heads towards the target, within the speed limit, and its
   * position advances by velocity times time.
   */
  lemma StepProperties(m: Motion, doorsOpen: bool, targets: seq<int>, maxSpeed: real,
                       maxAccel: real, dt: real)
    requires maxAccel != 0.0
    ensures var r := Step(m, doorsOpen, targets, maxSpeed, maxAccel, dt);
      && (r.moving <==> !doorsOpen && targets != [] && !Arrived(m.floor, targets[0]))
      && (doorsOpen ==> r.motion == m.(velocity := 0.0))
      && (!doorsOpen && targets == [] ==> r.motion == Motion(m.floor, 0.0, Idle))
      && (!doorsOpen && targets != [] && Arrived(m.floor, targets[0]) ==>
            r.motion == Motion(targets[0] as real, 0.0, m.direction))
      && (r.moving ==>
            && (maxSpeed >= 0.0 ==> -maxSpeed <= r.motion.velocity <= maxSpeed)
            && r.motion.direction == (if targets[0] as real > m.floor then Up else Down)
            && r.motion.floor == m.floor + r.motion.velocity * dt / FloorHeight)
  {
    if !doorsOpen && targets != [] && !Arrived(m.floor, targets[0]) {
      var dist := DistanceToTarget(m.floor, targets[0]);
      MovedProperties(m, dist, Acceleration(dist, m.velocity, maxSpeed, maxAccel), maxSpeed, dt);
      DistanceSign(m.floor, targets[0]);
    }
  }

  /** A travel step keeps the speed limit, heads by the sign of `dist` and advances by v·dt. */
  lemma MovedProperties(m: Motion, dist: real, accel: real, maxSpeed: real, dt: real)
    ensures var r := Moved(m, dist, accel, maxSpeed, dt);
      && (maxSpeed >= 0.0 ==> -maxSpeed <= r.velocity <= maxSpeed)
      && r.direction == (if dist > 0.0 then Up else Down)
      && r.floor == m.floor + r.velocity * dt / FloorHeight
  {
    var v := ClampSpeed(m.velocity + accel * dt, maxSpeed);
    assert Advanced(m.floor, v, dt) == m.floor + v * dt / FloorHeight;
  }

  /** The target lies above exactly when the distance to it is positive. */
  lemma DistanceSign(floor: real, target: int)
    ensures DistanceToTarget(floor, target) > 0.0 <==> target as real > floor
  {
  }

  // ---------------------------------------------------------------------------
  // Elevator (models.py:44-154)
  // ---------------------------------------------------------------------------

  class Elevator {
    const id: int
    const capacity: nat
    const maxSpeed: real
    const maxAccel: real

    var currentFloor: real
    var velocity: real
    var doorsOpen: bool
    var targets: seq<int>
    var passengers: seq<PersonId>
    var trips: nat
    var emptyTrips: nat
    var peopleTransported: nat
    var direction: Direction

    /** The car's invariant: a duplicate-free target list, no overload, empty trips among trips. */
    ghost predicate Valid()
      reads this`targets, this`passengers, this`trips, this`emptyTrips
    {
      && maxSpeed > 0.0 && maxAccel > 0.0
      && NoDup(targets)
      && |passengers| <= capacity
      && emptyTrips <= trips
    }

    /** The state `Elevator.__init__` leaves: at floor 1, at rest, empty, idle, zero counters. */
    ghost predicate Initial()
      reads this
    {
      && currentFloor == 1.0 && velocity == 0.0 && !doorsOpen
      && targets == [] && passengers == []
      && trips == 0 && emptyTrips == 0 && peopleTransported == 0
      && direction == Idle
    }

    function Kinematics(): Motion
      reads this
    {
      Motion(currentFloor, velocity, direction)
    }

    constructor (eid: int, capacity: nat, maxSpeed: real, maxAccel: real)
      requires maxSpeed > 0.0 && maxAccel > 0.0
      ensures Valid() && Initial()
      ensures id == eid && this.capacity == capacity
      ensures this.maxSpeed == maxSpeed && this.maxAccel == maxAccel
    {
      id := eid;
      this.capacity := capacity;
      this.maxSpeed := maxSpeed;
      this.maxAccel := maxAccel;
      currentFloor := 1.0;
      velocity := 0.0;
      doorsOpen := false;
      targets := [];
      passengers := [];
      trips := 0;
      emptyTrips := 0;
      peopleTransported := 0;
      direction := Idle;
    }

    /** `add_target`: the list `AddedTargets` describes (see `AddedTargetsProperties`). */
    method AddTarget(floor: int)
      requires Valid()
      modifies this`targets
      ensures Valid()
      ensures targets == AddedTargets(old(targets), floor, direction, currentFloor)
    {
      if floor !in targets {
        AddedTargetsNoDup(targets, floor, direction, currentFloor);
        targets := targets + [floor];
        SortTargets();
      }
    }

    /** `targets.remove(floor)` guarded by `floor in targets`. */
    method DropTarget(floor: int)
      requires Valid()
      modifies this`targets
      ensures Valid()
      ensures targets == RemoveFirst(old(targets), floor) && floor !in targets
    {
      NoDupRemoveFirst(targets, floor);
      if floor in targets {
        targets := RemoveFirst(targets, floor);
      }
    }

    /** `clear_targets`. */
    method ClearTargets()
      requires Valid()
      modifies this`targets
      ensures Valid() && targets == []
    {
      targets := [];
    }

    /** `_sort_targets`: the stable sort by `TargetKey`, which keeps the list duplicate-free. */
    method SortTargets()
      requires Valid()
      modifies this`targets
      ensures Valid() && targets == SortedTargets(old(targets), direction, currentFloor)
    {
      NoDupPermutation(targets, SortBy(targets, TargetKey(direction, currentFloor)));
      targets := SortBy(targets, TargetKey(direction, currentFloor));
    }

    /** `update_physics`: one time step of `dt` seconds. */
    method UpdatePhysics(dt: real) returns (moving: bool)
      requires Valid()
      modifies this`currentFloor, this`velocity, this`direction
      ensures StepResult(Kinematics(), moving) ==
              Step(old(Kinematics()), doorsOpen, targets, maxSpeed, maxAccel, dt)
    {
      if doorsOpen {
        velocity := 0.0;
        return false;
      }
      if targets == [] {
        velocity := 0.0;
        direction := Idle;
        return false;
      }
      var targetFloor := targets[0];
      var targetY := (targetFloor as real - 1.0) * FloorHeight;
      var currentY := (currentFloor - 1.0) * FloorHeight;
      var dist := targetY - currentY;
      if Abs(dist) < ArrivalTolerance {
        currentFloor := targetFloor as real;
        velocity := 0.0;
        return false;
      }
      var accel := Acceleration(dist, velocity, maxSpeed, maxAccel);
      Advance(dist, accel, dt);
      moving := true;
    }

    /** The travelling part of `update_physics`: heading, speed limit, new position. */
    method Advance(dist: real, accel: real, dt: real)
      modifies this`currentFloor, this`velocity, this`direction
      ensures Kinematics() == Moved(old(Kinematics()), dist, accel, maxSpeed, dt)
    {
      direction := if dist > 0.0 then Up else Down;
      velocity := velocity + accel * dt;
      if velocity > maxSpeed { velocity := maxSpeed; }
      if velocity < -maxSpeed { velocity := -maxSpeed; }
      var currentY := (currentFloor - 1.0) * FloorHeight;
      currentY := currentY + velocity * dt;
      currentFloor := currentY / FloorHeight + 1.0;
    }

    method OpenDoors()
      requires Valid()
      modifies this`doorsOpen, this`trips, this`emptyTrips
      ensures Valid() && doorsOpen
      ensures old(doorsOpen) ==> trips == old(trips) && emptyTrips == old(emptyTrips)
      ensures !old(doorsOpen) ==> trips == old(trips) + 1
      ensures !old(doorsOpen) ==>
        emptyTrips == old(emptyTrips) + (if passengers == [] then 1 else 0)
    {
      if !doorsOpen {
        doorsOpen := true;
        trips := trips + 1;
        if passengers == [] {
          emptyTrips := emptyTrips + 1;
        }
      }
    }

    method CloseDoors()
      requires Valid()
      modifies this`doorsOpen
      ensures Valid() && !doorsOpen
    {
      doorsOpen := false;
    }
  }

  /** The cars of a building: distinct objects, each one valid. */
  ghost predicate Fleet(es: seq<Elevator>)
    reads set e | e in es :: e`targets, set e | e in es :: e`passengers
    reads set e | e in es :: e`trips, set e | e in es :: e`emptyTrips
  {
    && (forall i, j :: 0 <= i < j < |es| ==> es[i] != es[j])
    && (forall i :: 0 <= i < |es| ==> (assert es[i] in es; es[i].Valid()))
  }

  // ---------------------------------------------------------------------------
  // Building (models.py:157-166)
  // ---------------------------------------------------------------------------

  /** The keys of `waiting_queues`: floors 1..numFloors. */
  function FloorSet(numFloors: int): (r: set<int>)
    decreases numFloors
    ensures forall f :: f in r <==> 1 <= f <= numFloors
  {
    if numFloors < 1 then {} else FloorSet(numFloors - 1) + {numFloors}
  }

  class Building {
    const numFloors: int
    const elevators: seq<Elevator>

    /** The roster (`people`), in order. */
    var people: seq<PersonId>
    /** Every rider ever created, by id. */
    var persons: map<PersonId, Person>
    /** `waiting_queues`: per floor, the waiting riders in arrival order. */
    var queues: map<int, seq<PersonId>>
    /** The next rider id (the explicit form of `Person._id_counter`). */
    var nextId: PersonId

    /** Every stored rider carries its own id, below the counter, and is consistent. */
    ghost predicate Records()
      reads this`persons, this`nextId
    {
      forall pid :: pid in persons ==>
        pid < nextId && persons[pid].id == pid && Consistent(persons[pid], numFloors)
    }

    /** The roster is duplicate-free and lists stored riders only. */
    ghost predicate Listed()
      reads this`people, this`persons
    {
      NoDup(people) && forall pid :: pid in people ==> pid in persons
    }

    /** There is a queue for each floor 1..numFloors, holding stored riders only. */
    ghost predicate Queued()
      reads this`queues, this`persons
    {
      && queues.Keys == FloorSet(numFloors)
      && forall f, pid :: f in queues && pid in queues[f] ==> pid in persons
    }

    /** Every passenger of every car is a stored rider. */
    ghost predicate Riding()
      reads this`persons, set e | e in elevators :: e`passengers
    {
      forall e, pid :: e in elevators && pid in e.passengers ==> pid in persons
    }

    ghost predicate Valid()
      reads this`people, this`persons, this`queues, this`nextId
      reads set e | e in elevators :: e`targets, set e | e in elevators :: e`passengers
      reads set e | e in elevators :: e`trips, set e | e in elevators :: e`emptyTrips
    {
      Records() && Listed() && Queued() && Fleet(elevators) && Riding()
    }

    constructor (numFloors: int, numElevators: int)
      ensures Valid()
      ensures this.numFloors == numFloors
      ensures |elevators| == (if numElevators > 0 then numElevators else 0)
      ensures forall i :: 0 <= i < |elevators| ==>
        && fresh(elevators[i])
        && elevators[i].id == i + 1 && elevators[i].capacity == 8
        && elevators[i].maxSpeed == 2.0 && elevators[i].maxAccel == 1.0
        && elevators[i].Initial()
      ensures people == [] && persons == map[] && nextId == 1
      ensures queues.Keys == FloorSet(numFloors)
      ensures forall f :: f in queues ==> queues[f] == []
    {
      var n := if numElevators > 0 then numElevators else 0;
      var cars: seq<Elevator> := [];
      var i := 0;
      while i < n
        invariant 0 <= i <= n && |cars| == i
        invariant forall k :: 0 <= k < i ==>
          && fresh(cars[k])
          && cars[k].id == k + 1 && cars[k].capacity == 8
          && cars[k].maxSpeed == 2.0 && cars[k].maxAccel == 1.0
          && cars[k].Initial() && cars[k].Valid()
        invariant forall k, m :: 0 <= k < m < i ==> cars[k] != cars[m]
      {
        var e := new Elevator(i + 1, 8, 2.0, 1.0);
        cars := cars + [e];
        i := i + 1;
      }
      this.numFloors := numFloors;
      elevators := cars;
      people := [];
      persons := map[];
      queues := map f | f in FloorSet(numFloors) :: [];
      nextId := 1;
    }

    /** `Person.__init__` with the id counter made explicit: registers a fresh rider. */
    method CreatePerson(origin: int, createdAt: real) returns (pid: PersonId)
      requires Valid()
      modifies this`persons, this`nextId
      ensures Valid()
      ensures pid == old(nextId) && pid !in old(persons) && nextId == old(nextId) + 1
      ensures persons == old(persons)[pid := NewPerson(pid, origin, createdAt)]
    {
      pid := nextId;
      persons := persons[pid := NewPerson(pid, origin, createdAt)];
      nextId := nextId + 1;
    }

    /** `add_person`: appends to the roster and to no queue. */
    method AddPerson(pid: PersonId)
      requires Valid() && pid in persons && pid !in people
      modifies this`people
      ensures Valid()
      ensures people == old(people) + [pid]
    {
      assert NoDup(people + [pid]) by {
        forall i, j | 0 <= i < j < |people| + 1 ensures (people + [pid])[i] != (people + [pid])[j] {
          if j == |people| { assert (people + [pid])[i] == people[i]; }
        }
      }
      people := people + [pid];
    }
  }
}
