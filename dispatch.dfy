/**
 * The dispatch controller (controller.py): the two selection strategies, the
 * strategy switch, and `assign`, which hands every unclaimed hall call to one
 * car. The strategies read only a few fields of each car; `Car` is that view,
 * and the pure functions below are the specification the loop methods of
 * `Controller` are proved against.
 */
module Dispatch {
  import opened Common
  import opened Models

  /** What the controller reads of an elevator. */
  datatype Car = Car(floor: real, direction: Direction, load: nat, capacity: nat,
                     maxSpeed: real, targets: seq<int>)

  function View(e: Elevator): Car
    reads e
  {
    Car(e.currentFloor, e.direction, |e.passengers|, e.capacity, e.maxSpeed, e.targets)
  }

  function Views(es: seq<Elevator>): (r: seq<Car>)
    reads es
    ensures |r| == |es|
    ensures forall i :: 0 <= i < |es| ==> r[i] == View(es[i])
  {
    if es == [] then [] else [View(es[0])] + Views(es[1..])
  }

  /** Every car has a positive top speed (the score divides by it). */
  predicate Drivable(cars: seq<Car>) {
    forall i :: 0 <= i < |cars| ==> cars[i].maxSpeed > 0.0
  }

  predicate TargetsNoDup(cars: seq<Car>) {
    forall i :: 0 <= i < |cars| ==> NoDup(cars[i].targets)
  }

  /** `len(e.passengers) >= e.capacity`. */
  predicate Full(c: Car) {
    c.load >= c.capacity
  }

  predicate AllFull(cars: seq<Car>) {
    forall i :: 0 <= i < |cars| ==> Full(cars[i])
  }

  // ---------------------------------------------------------------------------
  // min_wait (controller.py:46-67)
  // ---------------------------------------------------------------------------

  /**
   * The distance of `_strategy_min_wait`: floors to the caller, plus a penalty
   * for a car travelling away from it.
   */
  function Detour(c: Car, origin: int): real {
    var o := origin as real;
    if c.direction == Up && o < c.floor then Abs(c.floor - o) + c.floor * 2.0
    else if c.direction == Down && o > c.floor then Abs(c.floor - o) + (20.0 - c.floor) * 2.0
    else Abs(c.floor - o)
  }

  /**
   * The estimated wait of a car that is not full: the distance over the top
   * speed, plus two seconds per pending stop.
   */
  function WaitScore(c: Car, origin: int): real
    requires c.maxSpeed > 0.0
  {
    Detour(c, origin) / c.maxSpeed + (|c.targets| * 2) as real
  }

  /**
   * The scan of `_strategy_min_wait` over the first `n` cars: a full car scores
   * infinity and never wins, a car replaces the best so far only when strictly
   * better.
   */
  function MinWaitScan(cars: seq<Car>, origin: int, n: nat): (r: Option<nat>)
    requires n <= |cars| && Drivable(cars)
    ensures r.None? <==> forall i :: 0 <= i < n ==> Full(cars[i])
    ensures r.Some? ==> r.value < n && !Full(cars[r.value])
    ensures r.Some? ==> forall i :: 0 <= i < n && !Full(cars[i]) ==>
      WaitScore(cars[r.value], origin) <= WaitScore(cars[i], origin)
    ensures r.Some? ==> forall i :: 0 <= i < r.value && !Full(cars[i]) ==>
      WaitScore(cars[r.value], origin) < WaitScore(cars[i], origin)
  {
    if n == 0 then None
    else
      var best := MinWaitScan(cars, origin, n - 1);
      if Full(cars[n - 1]) then best
      else if best.None? || WaitScore(cars[n - 1], origin) < WaitScore(cars[best.value], origin) then
        Some(n - 1)
      else best
  }

  /** `_strategy_min_wait`: the index of the chosen car, or None. */
  function MinWait(cars: seq<Car>, origin: int): Option<nat>
    requires Drivable(cars)
  {
    MinWaitScan(cars, origin, |cars|)
  }

  /**
   * Among idle, non-full cars at the same distance from the caller and with the
   * same top speed, the one with more pending stops is never chosen over one
   * with fewer.
   */
  lemma FewerStopsWin(cars: seq<Car>, origin: int, i: nat, j: nat)
    requires Drivable(cars) && i < |cars| && j < |cars|
    requires !Full(cars[i]) && !Full(cars[j])
    requires cars[i].direction == Idle && cars[j].direction == Idle
    requires Abs(cars[i].floor - origin as real) == Abs(cars[j].floor - origin as real)
    requires cars[i].maxSpeed == cars[j].maxSpeed
    requires |cars[i].targets| < |cars[j].targets|
    ensures MinWait(cars, origin) != Some(j)
  {
    assert WaitScore(cars[i], origin) < WaitScore(cars[j], origin);
  }

  /**
   * An idle car beats a car at the same distance that travels away from the
   * caller, other things equal (for buildings of at most 20 floors, where the
   * fixed 20 of the downward penalty is a true upper bound).
   */
  lemma IdleBeatsMovingAway(cars: seq<Car>, origin: int, i: nat, j: nat)
    requires Drivable(cars) && i < |cars| && j < |cars|
    requires !Full(cars[i]) && !Full(cars[j])
    requires 1 <= origin <= 20
    requires cars[i].direction == Idle
    requires (cars[j].direction == Up && origin as real < cars[j].floor) ||
             (cars[j].direction == Down && origin as real > cars[j].floor)
    requires Abs(cars[i].floor - origin as real) == Abs(cars[j].floor - origin as real)
    requires cars[i].maxSpeed == cars[j].maxSpeed && |cars[i].targets| == |cars[j].targets|
    ensures MinWait(cars, origin) != Some(j)
  {
    var o := origin as real;
    var s := cars[i].maxSpeed;
    var base := Abs(cars[i].floor - o);
    var far := if cars[j].direction == Up then base + cars[j].floor * 2.0
               else base + (20.0 - cars[j].floor) * 2.0;
    assert far > base;
    DivStrict(far, base, s);
    assert WaitScore(cars[i], origin) < WaitScore(cars[j], origin);
  }

  /**
   * Above floor 20 the downward penalty `(20 - floor) * 2` is negative, so a
   * car moving down and away from a caller on floor 26 beats an idle car at
   * the same place.
   */
  lemma MovingAwayWinsAboveTwenty()
    ensures MinWait([Car(25.0, Idle, 0, 8, 2.0, []), Car(25.0, Down, 0, 8, 2.0, [])], 26) == Some(1)
  {
    var cars := [Car(25.0, Idle, 0, 8, 2.0, []), Car(25.0, Down, 0, 8, 2.0, [])];
    assert WaitScore(cars[0], 26) == 0.5;
    assert WaitScore(cars[1], 26) == -4.5;
  }

  /** Dividing by a positive speed keeps a strict order. */
  lemma DivStrict(a: real, b: real, s: real)
    requires s > 0.0 && a > b
    ensures a / s > b / s
  {
    var qa, qb := a / s, b / s;
    assert qa * s == a && qb * s == b;
    assert (qa - qb) * s == a - b;
  }

  // ---------------------------------------------------------------------------
  // min_idle (controller.py:69-84)
  // ---------------------------------------------------------------------------

  /** Idle, or moving towards the caller. */
  predicate OnTheWay(c: Car, origin: int) {
    || (c.direction == Up && c.floor <= origin as real)
    || (c.direction == Down && c.floor >= origin as real)
    || c.direction == Idle
  }

  predicate Candidate(c: Car, origin: int) {
    !Full(c) && OnTheWay(c, origin)
  }

  predicate Ascending(s: seq<nat>) {
    forall a, b :: 0 <= a < b < |s| ==> s[a] < s[b]
  }

  /** The `candidates` list after the first `n` cars, as indices. */
  function CandidateScan(cars: seq<Car>, origin: int, n: nat): (r: seq<nat>)
    requires n <= |cars|
    ensures forall p :: 0 <= p < |r| ==> r[p] < n
  {
    if n == 0 then []
    else
      var prev := CandidateScan(cars, origin, n - 1);
      if Candidate(cars[n - 1], origin) then prev + [n - 1] else prev
  }

  /** The candidates are exactly the non-full cars on the way, in index order. */
  lemma {:induction false} CandidateScanFacts(cars: seq<Car>, origin: int, n: nat)
    requires n <= |cars|
    ensures var r := CandidateScan(cars, origin, n);
      && (forall k :: k in r <==> 0 <= k < n && Candidate(cars[k], origin))
      && Ascending(r)
  {
    if n > 0 {
      CandidateScanFacts(cars, origin, n - 1);
      var prev := CandidateScan(cars, origin, n - 1);
      if Candidate(cars[n - 1], origin) {
        var r := prev + [n - 1];
        forall a, b | 0 <= a < b < |r| ensures r[a] < r[b] {
          if b == |prev| {
            assert r[a] == prev[a];
          } else {
            assert r[a] == prev[a] && r[b] == prev[b];
          }
        }
      }
    }
  }

  /** The indices 0..n-1 in order. */
  function Indices(n: nat): (r: seq<nat>)
    ensures |r| == n && forall k :: 0 <= k < n ==> r[k] == k
  {
    if n == 0 then [] else Indices(n - 1) + [n - 1]
  }

  /** The cars `min` chooses among: the candidates, or every car when there is none. */
  function Pool(cars: seq<Car>, origin: int): (r: seq<nat>)
    ensures forall p :: 0 <= p < |r| ==> r[p] < |cars|
    ensures cars != [] ==> r != []
  {
    var c := CandidateScan(cars, origin, |cars|);
    if c == [] then Indices(|cars|) else c
  }

  /**
   * The pool is ascending; it holds exactly the candidates when there is one,
   * and every car otherwise.
   */
  lemma PoolFacts(cars: seq<Car>, origin: int)
    ensures var r := Pool(cars, origin);
      && Ascending(r)
      && ((exists k :: 0 <= k < |cars| && Candidate(cars[k], origin)) ==>
            forall k :: k in r <==> 0 <= k < |cars| && Candidate(cars[k], origin))
      && ((forall k :: 0 <= k < |cars| ==> !Candidate(cars[k], origin)) ==>
            forall k :: k in r <==> 0 <= k < |cars|)
  {
    CandidateScanFacts(cars, origin, |cars|);
    var c := CandidateScan(cars, origin, |cars|);
    if c == [] {
      var all := Indices(|cars|);
      forall k | 0 <= k < |cars| ensures k in all {
        assert all[k] == k;
      }
    } else {
      assert c[0] in c;
    }
  }

  /** The key of the `min` call: the distance from the caller. */
  function Gap(c: Car, origin: int): real {
    Abs(c.floor - origin as real)
  }

  /** `min(pool[..n], key=Gap)` as a position in `pool`: the first minimal one, or None. */
  function NearestScan(cars: seq<Car>, origin: int, pool: seq<nat>, n: nat): (r: Option<nat>)
    requires n <= |pool|
    requires forall p :: 0 <= p < |pool| ==> pool[p] < |cars|
    ensures r.None? <==> n == 0
    ensures r.Some? ==> r.value < n
  {
    if n == 0 then None
    else
      var best := NearestScan(cars, origin, pool, n - 1);
      if best.None? || Gap(cars[pool[n - 1]], origin) < Gap(cars[pool[best.value]], origin) then
        Some(n - 1)
      else best
  }

  /** The scan finds a position of minimal gap, the first such. */
  lemma {:induction false} NearestScanFacts(cars: seq<Car>, origin: int, pool: seq<nat>, n: nat)
    requires n <= |pool|
    requires forall p :: 0 <= p < |pool| ==> pool[p] < |cars|
    ensures var r := NearestScan(cars, origin, pool, n);
      && (r.Some? ==> forall p :: 0 <= p < n ==>
            Gap(cars[pool[r.value]], origin) <= Gap(cars[pool[p]], origin))
      && (r.Some? ==> forall p :: 0 <= p < r.value ==>
            Gap(cars[pool[r.value]], origin) < Gap(cars[pool[p]], origin))
  {
    if n > 0 {
      NearestScanFacts(cars, origin, pool, n - 1);
    }
  }

  /**
   * `_strategy_min_idle`: the nearest car of the pool, ties to the earliest, or
   * None where Python's `min` of an empty list raises.
   */
  function MinIdle(cars: seq<Car>, origin: int): (r: Option<nat>)
    ensures r.None? <==> cars == []
    ensures r.Some? ==> r.value < |cars|
  {
    var pool := Pool(cars, origin);
    match NearestScan(cars, origin, pool, |pool|)
    case None => None
    case Some(p) => Some(pool[p])
  }

  /**
   * `min_idle` picks a car of the pool at minimal distance from the caller,
   * earlier cars winning ties, and a candidate whenever there is one.
   */
  lemma MinIdleChoice(cars: seq<Car>, origin: int)
    ensures var r := MinIdle(cars, origin);
      && (r.Some? ==> r.value in Pool(cars, origin))
      && (r.Some? ==> forall k :: k in Pool(cars, origin) ==>
            Gap(cars[r.value], origin) <= Gap(cars[k], origin))
      && (r.Some? ==> forall k :: k in Pool(cars, origin) && k < r.value ==>
            Gap(cars[r.value], origin) < Gap(cars[k], origin))
      && (r.Some? && (exists k :: 0 <= k < |cars| && Candidate(cars[k], origin)) ==>
            Candidate(cars[r.value], origin))
  {
    var pool := Pool(cars, origin);
    PoolFacts(cars, origin);
    NearestScanFacts(cars, origin, pool, |pool|);
    var n := NearestScan(cars, origin, pool, |pool|);
    if n.Some? {
      NearestInPool(cars, origin, pool, n.value);
    }
  }

  /** A first minimal position of an ascending pool names a first minimal member of it. */
  lemma NearestInPool(cars: seq<Car>, origin: int, pool: seq<nat>, p: nat)
    requires p < |pool| && Ascending(pool)
    requires forall q :: 0 <= q < |pool| ==> pool[q] < |cars|
    requires forall q :: 0 <= q < |pool| ==>
      Gap(cars[pool[p]], origin) <= Gap(cars[pool[q]], origin)
    requires forall q :: 0 <= q < p ==>
      Gap(cars[pool[p]], origin) < Gap(cars[pool[q]], origin)
    ensures forall k :: k in pool ==> Gap(cars[pool[p]], origin) <= Gap(cars[k], origin)
    ensures forall k :: k in pool && k < pool[p] ==>
      Gap(cars[pool[p]], origin) < Gap(cars[k], origin)
  {
    forall k | k in pool ensures Gap(cars[pool[p]], origin) <= Gap(cars[k], origin) {
      var q :| 0 <= q < |pool| && pool[q] == k;
    }
    forall k | k in pool && k < pool[p] ensures Gap(cars[pool[p]], origin) < Gap(cars[k], origin) {
      var q :| 0 <= q < |pool| && pool[q] == k;
      assert q < p;
    }
  }

  /**
   * The fallback pool includes full cars: a lone full car moving away from the
   * caller is still chosen.
   */
  lemma FallbackChoosesFullCar()
    ensures var cars := [Car(5.0, Up, 8, 8, 2.0, [9])];
      Full(cars[0]) && !Candidate(cars[0], 2) && MinIdle(cars, 2) == Some(0)
  {
    var cars := [Car(5.0, Up, 8, 8, 2.0, [9])];
    assert !Candidate(cars[0], 2);
  }

  // ---------------------------------------------------------------------------
  // _choose_elevator (controller.py:38-44)
  // ---------------------------------------------------------------------------

  /** A strategy's answer: a car, no car, or the exception it raises. */
  datatype Pick = Pick(index: nat) | NoPick | PickFails(fault: Fault)

  function Choose(name: string, cars: seq<Car>, origin: int): (r: Pick)
    requires Drivable(cars)
    ensures r.Pick? ==> r.index < |cars|
  {
    if name == "min_wait" then
      match MinWait(cars, origin)
      case None => NoPick
      case Some(k) => Pick(k)
    else if name == "min_idle" then
      match MinIdle(cars, origin)
      case None => PickFails(ValueError)
      case Some(k) => Pick(k)
    else if cars == [] then PickFails(IndexError)
    else Pick(0)
  }

  /**
   * What each strategy answers: min_wait never fails and finds no car exactly
   * when all are full, and never picks a full one; min_idle always picks a car
   * unless there are none, when Python's `min([])` raises ValueError; any
   * other name picks the first car, or raises IndexError on an empty list.
   */
  lemma ChooseCases(name: string, cars: seq<Car>, origin: int)
    requires Drivable(cars)
    ensures var r := Choose(name, cars, origin);
      && (name == "min_wait" ==>
            !r.PickFails? && (r.NoPick? <==> AllFull(cars)))
      && (name == "min_wait" && r.Pick? ==> !Full(cars[r.index]))
      && (name == "min_idle" ==> !r.NoPick? && (r.PickFails? <==> cars == []))
      && (name == "min_idle" && r.PickFails? ==> r.fault == ValueError)
      && (name != "min_wait" && name != "min_idle" ==>
            && !r.NoPick?
            && (r.PickFails? <==> cars == [])
            && (r.PickFails? ==> r.fault == IndexError)
            && (r.Pick? ==> r.index == 0))
  {
  }

  // ---------------------------------------------------------------------------
  // assign (controller.py:12-36)
  // ---------------------------------------------------------------------------

  /** A passenger-less car already heading to `f` claims the call there. */
  predicate ClaimedBy(c: Car, f: int) {
    f in c.targets && c.load == 0
  }

  predicate Claimed(cars: seq<Car>, f: int) {
    exists i :: 0 <= i < |cars| && ClaimedBy(cars[i], f)
  }

  /** Some car has `f` among its targets. */
  predicate Served(cars: seq<Car>, f: int) {
    exists i :: 0 <= i < |cars| && f in cars[i].targets
  }

  /** Floor `f` has somebody waiting. */
  predicate Calling(queues: map<int, seq<PersonId>>, f: int) {
    f in queues && queues[f] != []
  }

  /** The two car lists agree on everything but the targets. */
  predicate SameCars(a: seq<Car>, b: seq<Car>) {
    && |a| == |b|
    && forall i :: 0 <= i < |a| ==> a[i] == b[i].(targets := a[i].targets)
  }

  /** `add_target(f)` on car `k`. */
  function AddTo(cars: seq<Car>, k: nat, f: int): seq<Car>
    requires k < |cars|
  {
    cars[k := cars[k].(targets := AddedTargets(cars[k].targets, f, cars[k].direction, cars[k].floor))]
  }

  /** `AddTo` changes only car `k`, by adding exactly `f` to its duplicate-free targets. */
  lemma AddToFacts(cars: seq<Car>, k: nat, f: int)
    requires k < |cars| && TargetsNoDup(cars)
    ensures SameCars(cars, AddTo(cars, k, f)) && TargetsNoDup(AddTo(cars, k, f))
    ensures forall i, t :: 0 <= i < |cars| ==>
      (t in AddTo(cars, k, f)[i].targets <==> t in cars[i].targets || (i == k && t == f))
  {
    AddedTargetsProperties(cars[k].targets, f, cars[k].direction, cars[k].floor);
  }

  datatype AssignResult = AssignResult(cars: seq<Car>, outcome: Outcome)

  /** Floor `f` has a caller that no passenger-less car has claimed: the strategy is asked. */
  predicate Unclaimed(cars: seq<Car>, queues: map<int, seq<PersonId>>, f: int) {
    Calling(queues, f) && !Claimed(cars, f)
  }

  /** The body of the loop of `assign` for floor `f`: the cars afterwards, unless it raises. */
  function StepCars(name: string, cars: seq<Car>, queues: map<int, seq<PersonId>>, f: int): seq<Car>
    requires Drivable(cars)
  {
    if !Unclaimed(cars, queues, f) then cars
    else
      match Choose(name, cars, f)
      case Pick(k) => AddTo(cars, k, f)
      case _ => cars
  }

  /** The strategy raises for floor `f`. */
  predicate StepFails(name: string, cars: seq<Car>, queues: map<int, seq<PersonId>>, f: int)
    requires Drivable(cars)
  {
    Unclaimed(cars, queues, f) && Choose(name, cars, f).PickFails?
  }

  /** One floor of `assign`: the cars afterwards and whether the strategy raised. */
  function FloorStep(name: string, cars: seq<Car>, queues: map<int, seq<PersonId>>, f: int): AssignResult
    requires Drivable(cars)
  {
    if StepFails(name, cars, queues, f) then AssignResult(cars, Raised(Choose(name, cars, f).fault))
    else AssignResult(StepCars(name, cars, queues, f), Done)
  }

  /** On an unclaimed call, one floor of `assign` does what the strategy answers. */
  lemma FloorStepUnclaimed(name: string, cars: seq<Car>, queues: map<int, seq<PersonId>>, f: int)
    requires Drivable(cars) && Unclaimed(cars, queues, f)
    ensures FloorStep(name, cars, queues, f) == Applied(cars, Choose(name, cars, f), f)
  {
  }

  /** What the strategy's answer does to the cars for a call at `f`. */
  function Applied(cars: seq<Car>, pick: Pick, f: int): AssignResult
    requires pick.Pick? ==> pick.index < |cars|
  {
    match pick
    case Pick(k) => AssignResult(AddTo(cars, k, f), Done)
    case NoPick => AssignResult(cars, Done)
    case PickFails(e) => AssignResult(cars, Raised(e))
  }

  /** The loop of `assign` from floor `f` on, over the floors 1..numFloors in key order. */
  function AssignFrom(name: string, cars: seq<Car>, queues: map<int, seq<PersonId>>,
                      f: int, numFloors: int): (r: AssignResult)
    requires Drivable(cars)
    decreases numFloors - f + 1
    ensures |r.cars| == |cars| && Drivable(r.cars)
  {
    if f > numFloors then AssignResult(cars, Done)
    else if StepFails(name, cars, queues, f) then
      AssignResult(cars, Raised(Choose(name, cars, f).fault))
    else
      StepFacts(name, cars, queues, f);
      AssignFrom(name, StepCars(name, cars, queues, f), queues, f + 1, numFloors)
  }

  /** One `assign` call. */
  function AssignCalls(name: string, cars: seq<Car>, queues: map<int, seq<PersonId>>,
                       numFloors: int): AssignResult
    requires Drivable(cars)
  {
    AssignFrom(name, cars, queues, 1, numFloors)
  }

  /**
   * One floor of `assign` changes nothing but targets, and adds `f` to the
   * targets of the car the strategy picked, and only when the call is unclaimed.
   */
  lemma StepFacts(name: string, cars: seq<Car>, queues: map<int, seq<PersonId>>, f: int)
    requires Drivable(cars)
    ensures var next := StepCars(name, cars, queues, f);
      && SameCars(cars, next) && Drivable(next)
      && (TargetsNoDup(cars) ==> TargetsNoDup(next))
      && (forall i, t :: 0 <= i < |cars| ==>
            (t in next[i].targets <==>
               t in cars[i].targets ||
               (t == f && Unclaimed(cars, queues, f) && Choose(name, cars, f) == Pick(i))))
  {
    if Unclaimed(cars, queues, f) && Choose(name, cars, f).Pick? {
      var k := Choose(name, cars, f).index;
      AddedTargetsMembers(cars[k].targets, f, cars[k].direction, cars[k].floor);
      if TargetsNoDup(cars) {
        AddToFacts(cars, k, f);
      }
    }
  }

  /** `AssignFrom` keeps everything but the targets. */
  lemma {:induction false} AssignFromSame(name: string, cars: seq<Car>,
                                          queues: map<int, seq<PersonId>>, f: int, numFloors: int)
    requires Drivable(cars)
    decreases numFloors - f + 1
    ensures SameCars(cars, AssignFrom(name, cars, queues, f, numFloors).cars)
  {
    if f <= numFloors && !StepFails(name, cars, queues, f) {
      var next := StepCars(name, cars, queues, f);
      StepFacts(name, cars, queues, f);
      assert AssignFrom(name, cars, queues, f, numFloors) == AssignFrom(name, next, queues, f + 1, numFloors);
      AssignFromSame(name, next, queues, f + 1, numFloors);
    }
  }

  lemma ClaimedGrows(a: seq<Car>, b: seq<Car>, t: int)
    requires SameCars(a, b)
    requires forall i, u :: 0 <= i < |a| && u in a[i].targets ==> u in b[i].targets
    ensures Claimed(a, t) ==> Claimed(b, t)
  {
    if Claimed(a, t) {
      var i :| 0 <= i < |a| && ClaimedBy(a[i], t);
      assert ClaimedBy(b[i], t);
    }
  }

  /** Every target of `a` is still a target of the same car in `b`. */
  predicate Grown(a: seq<Car>, b: seq<Car>) {
    && |a| == |b|
    && forall i, t :: 0 <= i < |a| && t in a[i].targets ==> t in b[i].targets
  }

  /** Car `i` has target `t` in `b` but not in `a`. */
  predicate Added(a: seq<Car>, b: seq<Car>, i: int, t: int) {
    0 <= i < |a| && |a| == |b| && t in b[i].targets && t !in a[i].targets
  }

  /** Every target `after` has and `cars` has not is a floor in f..numFloors with an unclaimed call. */
  ghost predicate OnlyCallsAdded(cars: seq<Car>, after: seq<Car>, queues: map<int, seq<PersonId>>,
                           f: int, numFloors: int) {
    forall i, t :: Added(cars, after, i, t) ==>
      f <= t <= numFloors && Calling(queues, t) && !Claimed(cars, t)
  }

  /** No floor was added to two cars. */
  ghost predicate AddedOnce(cars: seq<Car>, after: seq<Car>) {
    forall i, j, t :: Added(cars, after, i, t) && Added(cars, after, j, t) ==> i == j
  }

  /** Every floor in f..numFloors with somebody waiting is some car's target. */
  ghost predicate AllServed(cars: seq<Car>, queues: map<int, seq<PersonId>>, f: int, numFloors: int) {
    forall t :: f <= t <= numFloors && Calling(queues, t) ==> Served(cars, t)
  }

  /** Every waiting floor in f..numFloors is claimed, or min_wait faces only full cars. */
  ghost predicate Settled(name: string, cars: seq<Car>, queues: map<int, seq<PersonId>>,
                          f: int, numFloors: int) {
    forall t :: f <= t <= numFloors && Calling(queues, t) ==>
      Claimed(cars, t) || (name == "min_wait" && AllFull(cars))
  }

  ghost predicate SomeCall(queues: map<int, seq<PersonId>>, f: int, numFloors: int) {
    exists t :: f <= t <= numFloors && Calling(queues, t)
  }

  /** `assign` keeps every target list duplicate-free and drops no target. */
  lemma {:induction false} AssignFromGrows(name: string, cars: seq<Car>,
                                           queues: map<int, seq<PersonId>>, f: int, numFloors: int)
    requires Drivable(cars) && TargetsNoDup(cars)
    decreases numFloors - f + 1
    ensures var r := AssignFrom(name, cars, queues, f, numFloors);
      TargetsNoDup(r.cars) && Grown(cars, r.cars)
  {
    if f <= numFloors && !StepFails(name, cars, queues, f) {
      var next := StepCars(name, cars, queues, f);
      StepFacts(name, cars, queues, f);
      var r := AssignFrom(name, next, queues, f + 1, numFloors);
      assert AssignFrom(name, cars, queues, f, numFloors) == r;
      AssignFromGrows(name, next, queues, f + 1, numFloors);
      assert Grown(next, r.cars);
      assert Grown(cars, next);
    }
  }

  /**
   * `assign` adds a floor to a car only when somebody waits there and no
   * passenger-less car had claimed it; so a claimed floor is left alone.
   */
  lemma {:induction false} AssignFromAddsCalls(name: string, cars: seq<Car>,
                                               queues: map<int, seq<PersonId>>, f: int, numFloors: int)
    requires Drivable(cars) && TargetsNoDup(cars)
    decreases numFloors - f + 1
    ensures OnlyCallsAdded(cars, AssignFrom(name, cars, queues, f, numFloors).cars, queues, f, numFloors)
  {
    if f <= numFloors && !StepFails(name, cars, queues, f) {
      var next := StepCars(name, cars, queues, f);
      StepFacts(name, cars, queues, f);
      var r := AssignFrom(name, next, queues, f + 1, numFloors);
      assert AssignFrom(name, cars, queues, f, numFloors) == r;
      AssignFromAddsCalls(name, next, queues, f + 1, numFloors);
      AssignFromGrows(name, cars, queues, f, numFloors);
      forall i, t | Added(cars, r.cars, i, t)
        ensures f <= t <= numFloors && Calling(queues, t) && !Claimed(cars, t)
      {
        if t !in next[i].targets {
          assert Added(next, r.cars, i, t);
          assert f + 1 <= t <= numFloors && Calling(queues, t) && !Claimed(next, t);
          ClaimedGrows(cars, next, t);
        }
      }
    }
  }

  /** `assign` adds each floor to at most one car. */
  lemma {:induction false} AssignFromAddsOnce(name: string, cars: seq<Car>,
                                              queues: map<int, seq<PersonId>>, f: int, numFloors: int)
    requires Drivable(cars) && TargetsNoDup(cars)
    decreases numFloors - f + 1
    ensures AddedOnce(cars, AssignFrom(name, cars, queues, f, numFloors).cars)
  {
    if f <= numFloors && !StepFails(name, cars, queues, f) {
      var next := StepCars(name, cars, queues, f);
      StepFacts(name, cars, queues, f);
      var r := AssignFrom(name, next, queues, f + 1, numFloors);
      assert AssignFrom(name, cars, queues, f, numFloors) == r;
      AssignFromAddsOnce(name, next, queues, f + 1, numFloors);
      AssignFromAddsCalls(name, next, queues, f + 1, numFloors);
      forall i, j, t | Added(cars, r.cars, i, t) && Added(cars, r.cars, j, t) ensures i == j {
        if t in next[i].targets || t in next[j].targets {
          if !(t in next[i].targets) {
            assert Added(next, r.cars, i, t);
            assert false;
          }
          if !(t in next[j].targets) {
            assert Added(next, r.cars, j, t);
            assert false;
          }
        } else {
          assert Added(next, r.cars, i, t) && Added(next, r.cars, j, t);
        }
      }
    }
  }

  /**
   * Error path: `assign` raises only when there are no cars, a strategy other
   * than min_wait is active and somebody is waiting; min_idle raises
   * ValueError, the fallback IndexError.
   */
  lemma {:induction false} AssignFromFaults(name: string, cars: seq<Car>,
                                            queues: map<int, seq<PersonId>>, f: int, numFloors: int)
    requires Drivable(cars)
    decreases numFloors - f + 1
    ensures var r := AssignFrom(name, cars, queues, f, numFloors);
      && (r.outcome.Raised? <==> cars == [] && name != "min_wait" && SomeCall(queues, f, numFloors))
      && (r.outcome.Raised? ==>
            r.outcome.fault == (if name == "min_idle" then ValueError else IndexError))
  {
    if f <= numFloors {
      ChooseCases(name, cars, f);
      if !StepFails(name, cars, queues, f) {
        var next := StepCars(name, cars, queues, f);
        StepFacts(name, cars, queues, f);
        var r := AssignFrom(name, next, queues, f + 1, numFloors);
        assert AssignFrom(name, cars, queues, f, numFloors) == r;
        AssignFromFaults(name, next, queues, f + 1, numFloors);
        assert |next| == |cars|;
        if cars == [] && name != "min_wait" && SomeCall(queues, f, numFloors) {
          assert !Calling(queues, f);
          var t :| f <= t <= numFloors && Calling(queues, t);
          assert f + 1 <= t;
        }
      }
    }
  }

  /**
   * When `assign` ends normally and some car can take a rider (always, unless
   * min_wait finds every car full), every floor with somebody waiting is among
   * some car's targets afterwards.
   */
  lemma {:induction false} AssignFromServes(name: string, cars: seq<Car>,
                                            queues: map<int, seq<PersonId>>, f: int, numFloors: int)
    requires Drivable(cars) && TargetsNoDup(cars)
    requires name != "min_wait" || !AllFull(cars)
    decreases numFloors - f + 1
    ensures var r := AssignFrom(name, cars, queues, f, numFloors);
      r.outcome == Done ==> AllServed(r.cars, queues, f, numFloors)
  {
    if f <= numFloors && !StepFails(name, cars, queues, f) {
      ChooseCases(name, cars, f);
      var next := StepCars(name, cars, queues, f);
      StepFacts(name, cars, queues, f);
      var r := AssignFrom(name, next, queues, f + 1, numFloors);
      assert AssignFrom(name, cars, queues, f, numFloors) == r;
      if name == "min_wait" {
        var i :| 0 <= i < |cars| && !Full(cars[i]);
        assert !Full(next[i]);
        assert !AllFull(next);
      }
      AssignFromServes(name, next, queues, f + 1, numFloors);
      AssignFromGrows(name, next, queues, f + 1, numFloors);
      if r.outcome == Done {
        if Calling(queues, f) {
          if Claimed(cars, f) {
            var i :| 0 <= i < |cars| && ClaimedBy(cars[i], f);
            assert f in next[i].targets;
            ServedGrows(next, r.cars, f, i);
          } else {
            var k := Choose(name, cars, f).index;
            assert f in next[k].targets;
            ServedGrows(next, r.cars, f, k);
          }
        }
        AllServedStep(r.cars, queues, f, numFloors);
      }
    }
  }

  lemma ServedGrows(a: seq<Car>, b: seq<Car>, t: int, i: int)
    requires Grown(a, b) && 0 <= i < |a| && t in a[i].targets
    ensures Served(b, t)
  {
  }

  lemma AllServedStep(cars: seq<Car>, queues: map<int, seq<PersonId>>, f: int, numFloors: int)
    requires AllServed(cars, queues, f + 1, numFloors)
    requires Calling(queues, f) ==> Served(cars, f)
    ensures AllServed(cars, queues, f, numFloors)
  {
  }

  /** With every waiting floor claimed, or min_wait facing only full cars, `assign` changes nothing. */
  lemma {:induction false} AssignFromStable(name: string, cars: seq<Car>,
                                            queues: map<int, seq<PersonId>>, f: int, numFloors: int)
    requires Drivable(cars)
    requires Settled(name, cars, queues, f, numFloors)
    decreases numFloors - f + 1
    ensures AssignFrom(name, cars, queues, f, numFloors) == AssignResult(cars, Done)
  {
    if f <= numFloors {
      ChooseCases(name, cars, f);
      assert StepCars(name, cars, queues, f) == cars;
      assert AssignFrom(name, cars, queues, f, numFloors) == AssignFrom(name, cars, queues, f + 1, numFloors);
      AssignFromStable(name, cars, queues, f + 1, numFloors);
    }
  }

  /**
   * `assign` is idempotent when no car carries passengers: a second call finds
   * every call it served claimed and adds nothing.
   */
  lemma AssignIdempotentWhenEmpty(name: string, cars: seq<Car>,
                                  queues: map<int, seq<PersonId>>, numFloors: int)
    requires Drivable(cars) && TargetsNoDup(cars)
    requires forall i :: 0 <= i < |cars| ==> cars[i].load == 0
    ensures var r := AssignCalls(name, cars, queues, numFloors);
      AssignCalls(name, r.cars, queues, numFloors).cars == r.cars
  {
    var r := AssignCalls(name, cars, queues, numFloors);
    AssignFromFaults(name, cars, queues, 1, numFloors);
    AssignFromGrows(name, cars, queues, 1, numFloors);
    AssignFromSame(name, cars, queues, 1, numFloors);
    if r.outcome.Raised? {
      assert r.cars == [];
    } else if name == "min_wait" && AllFull(cars) {
      assert AllFull(r.cars);
      AssignFromStable(name, r.cars, queues, 1, numFloors);
    } else {
      AssignFromServes(name, cars, queues, 1, numFloors);
      forall t | 1 <= t <= numFloors && Calling(queues, t) ensures Claimed(r.cars, t) {
        var i :| 0 <= i < |r.cars| && t in r.cars[i].targets;
        assert ClaimedBy(r.cars[i], t);
      }
      AssignFromStable(name, r.cars, queues, 1, numFloors);
    }
  }

  /**
   * With passengers aboard, a second `assign` can add the same call to another
   * car: the first call gives floor 3 to car 0, which then carries one stop
   * more and loses the next call to car 1.
   */
  lemma AssignNotIdempotentWithPassengers()
    ensures var cars := [Car(1.0, Idle, 1, 8, 2.0, []), Car(1.0, Idle, 1, 8, 2.0, [])];
      var queues := map[1 := [], 2 := [], 3 := [7]];
      var once := AssignCalls("min_wait", cars, queues, 3);
      && once.cars == [Car(1.0, Idle, 1, 8, 2.0, [3]), Car(1.0, Idle, 1, 8, 2.0, [])]
      && AssignCalls("min_wait", once.cars, queues, 3).cars ==
           [Car(1.0, Idle, 1, 8, 2.0, [3]), Car(1.0, Idle, 1, 8, 2.0, [3])]
  {
    var cars := [Car(1.0, Idle, 1, 8, 2.0, []), Car(1.0, Idle, 1, 8, 2.0, [])];
    var queues: map<int, seq<PersonId>> := map[1 := [], 2 := [], 3 := [7]];
    var once := [Car(1.0, Idle, 1, 8, 2.0, [3]), Car(1.0, Idle, 1, 8, 2.0, [])];
    var twice := [Car(1.0, Idle, 1, 8, 2.0, [3]), Car(1.0, Idle, 1, 8, 2.0, [3])];
    SingleTarget(3, Idle, 1.0);
    FirstCallGoesToCarZero(cars, queues, once);
    SecondCallGoesToCarOne(once, queues, twice);
  }

  lemma FirstCallGoesToCarZero(cars: seq<Car>, queues: map<int, seq<PersonId>>, once: seq<Car>)
    requires cars == [Car(1.0, Idle, 1, 8, 2.0, []), Car(1.0, Idle, 1, 8, 2.0, [])]
    requires queues == map[1 := [], 2 := [], 3 := [7]]
    requires once == [Car(1.0, Idle, 1, 8, 2.0, [3]), Car(1.0, Idle, 1, 8, 2.0, [])]
    requires AddedTargets([], 3, Idle, 1.0) == [3]
    ensures AssignCalls("min_wait", cars, queues, 3) == AssignResult(once, Done)
  {
    assert !Calling(queues, 1) && !Calling(queues, 2) && Calling(queues, 3);
    assert !Claimed(cars, 3);
    assert WaitScore(cars[0], 3) == 1.0 && WaitScore(cars[1], 3) == 1.0;
    assert MinWaitScan(cars, 3, 1) == Some(0);
    assert MinWait(cars, 3) == Some(0);
    assert AddTo(cars, 0, 3) == once;
    assert StepCars("min_wait", cars, queues, 3) == once;
    assert AssignFrom("min_wait", cars, queues, 3, 3) == AssignFrom("min_wait", once, queues, 4, 3);
    assert AssignFrom("min_wait", cars, queues, 1, 3) == AssignFrom("min_wait", cars, queues, 2, 3);
  }

  lemma SecondCallGoesToCarOne(once: seq<Car>, queues: map<int, seq<PersonId>>, twice: seq<Car>)
    requires once == [Car(1.0, Idle, 1, 8, 2.0, [3]), Car(1.0, Idle, 1, 8, 2.0, [])]
    requires queues == map[1 := [], 2 := [], 3 := [7]]
    requires twice == [Car(1.0, Idle, 1, 8, 2.0, [3]), Car(1.0, Idle, 1, 8, 2.0, [3])]
    requires AddedTargets([], 3, Idle, 1.0) == [3]
    ensures AssignCalls("min_wait", once, queues, 3) == AssignResult(twice, Done)
  {
    assert !Calling(queues, 1) && !Calling(queues, 2) && Calling(queues, 3);
    assert !ClaimedBy(once[0], 3) && !ClaimedBy(once[1], 3);
    assert !Claimed(once, 3);
    assert WaitScore(once[0], 3) == 3.0 && WaitScore(once[1], 3) == 1.0;
    assert MinWaitScan(once, 3, 1) == Some(0);
    assert MinWait(once, 3) == Some(1);
    assert AddTo(once, 1, 3) == twice;
    assert StepCars("min_wait", once, queues, 3) == twice;
    assert AssignFrom("min_wait", once, queues, 3, 3) == AssignFrom("min_wait", twice, queues, 4, 3);
    assert AssignFrom("min_wait", once, queues, 1, 3) == AssignFrom("min_wait", once, queues, 2, 3);
  }

  // ---------------------------------------------------------------------------
  // Controller (controller.py:5-84)
  // ---------------------------------------------------------------------------

  class Controller {
    var strategyName: string

    constructor (name: string)
      ensures strategyName == name
    {
      strategyName := name;
    }

    /** `set_strategy`: only the name changes; no car is touched. */
    method SetStrategy(name: string)
      modifies this
      ensures strategyName == name
    {
      strategyName := name;
    }

    /** `_strategy_min_wait`, as its accumulator loop; None stands for a score of infinity. */
    method StrategyMinWait(es: seq<Elevator>, origin: int) returns (best: Option<nat>)
      requires Drivable(Views(es))
      ensures best == MinWait(Views(es), origin)
    {
      ghost var cars := Views(es);
      best := None;
      var minScore: Option<real> := None;
      for i := 0 to |es|
        invariant best == MinWaitScan(cars, origin, i)
        invariant best.None? <==> minScore.None?
        invariant best.Some? ==> minScore == Some(WaitScore(cars[best.value], origin))
      {
        var e := es[i];
        assert cars[i] == View(e);
        if |e.passengers| < e.capacity {
          var o := origin as real;
          var distance := Abs(e.currentFloor - o);
          if e.direction == Up && o < e.currentFloor {
            distance := distance + e.currentFloor * 2.0;
          } else if e.direction == Down && o > e.currentFloor {
            distance := distance + (20.0 - e.currentFloor) * 2.0;
          }
          assert distance == Detour(cars[i], origin);
          var score := distance / e.maxSpeed + (|e.targets| * 2) as real;
          assert score == WaitScore(cars[i], origin);
          if minScore.None? || score < minScore.value {
            minScore := Some(score);
            best := Some(i);
          }
        }
      }
    }

    /** The first loop of `_strategy_min_idle`: the non-full cars idle or on the way. */
    method MinIdleCandidates(es: seq<Elevator>, origin: int) returns (candidates: seq<nat>)
      ensures candidates == CandidateScan(Views(es), origin, |es|)
    {
      ghost var cars := Views(es);
      candidates := [];
      for i := 0 to |es|
        invariant candidates == CandidateScan(cars, origin, i)
      {
        var e := es[i];
        assert cars[i] == View(e);
        if |e.passengers| >= e.capacity {
          continue;
        }
        var onWayUp := e.direction == Up && e.currentFloor <= origin as real;
        var onWayDown := e.direction == Down && e.currentFloor >= origin as real;
        if onWayUp || onWayDown || e.direction == Idle {
          candidates := candidates + [i];
        }
      }
    }

    /** The `min(..., key=...)` of `_strategy_min_idle`: the first nearest of the pool. */
    method Nearest(es: seq<Elevator>, origin: int, candidates: seq<nat>) returns (pos: nat)
      requires candidates != [] && forall q :: 0 <= q < |candidates| ==> candidates[q] < |es|
      ensures Some(pos) == NearestScan(Views(es), origin, candidates, |candidates|)
    {
      ghost var cars := Views(es);
      pos := 0;
      for p := 1 to |candidates|
        invariant Some(pos) == NearestScan(cars, origin, candidates, p)
      {
        var e := es[candidates[p]];
        var nearest := es[candidates[pos]];
        assert cars[candidates[p]] == View(e) && cars[candidates[pos]] == View(nearest);
        if Abs(e.currentFloor - origin as real) < Abs(nearest.currentFloor - origin as real) {
          pos := p;
        }
      }
    }

    /** `_strategy_min_idle`: collect the candidates, fall back to every car, take the nearest. */
    method StrategyMinIdle(es: seq<Elevator>, origin: int) returns (best: Option<nat>)
      ensures best == MinIdle(Views(es), origin)
    {
      var candidates := MinIdleCandidates(es, origin);
      if candidates == [] {
        candidates := Indices(|es|);
      }
      assert candidates == Pool(Views(es), origin);
      if candidates == [] {
        return None;
      }
      var pos := Nearest(es, origin, candidates);
      best := Some(candidates[pos]);
    }

    /** `_choose_elevator`: dispatch on the strategy name. */
    method ChooseElevator(es: seq<Elevator>, origin: int) returns (pick: Pick)
      requires Drivable(Views(es))
      ensures pick == Choose(strategyName, Views(es), origin)
    {
      if strategyName == "min_wait" {
        var best := StrategyMinWait(es, origin);
        pick := if best.Some? then Pick(best.value) else NoPick;
      } else if strategyName == "min_idle" {
        var best := StrategyMinIdle(es, origin);
        pick := if best.Some? then Pick(best.value) else PickFails(ValueError);
      } else if es == [] {
        pick := PickFails(IndexError);
      } else {
        pick := Pick(0);
      }
    }

    /** The inner scan of `assign`: does a passenger-less car already head to `f`? */
    method IsClaimed(es: seq<Elevator>, f: int) returns (claimed: bool)
      ensures claimed <==> Claimed(Views(es), f)
    {
      ghost var cars := Views(es);
      claimed := false;
      for j := 0 to |es|
        invariant claimed <==> exists k :: 0 <= k < j && ClaimedBy(cars[k], f)
      {
        var e := es[j];
        assert cars[j] == View(e);
        if f in e.targets && e.passengers == [] {
          claimed := true;
        }
      }
    }

    /** `add_target(f)` on elevator `k`, seen on the car views. */
    method Retarget(es: seq<Elevator>, e: Elevator, k: nat, f: int)
      requires Fleet(es) && k < |es| && e == es[k]
      modifies set x | x in es :: x`targets
      ensures Fleet(es)
      ensures Views(es) == AddTo(old(Views(es)), k, f)
    {
      ghost var cars := Views(es);
      assert e.Valid() && e in es;
      e.AddTarget(f);
      ghost var now := Views(es);
      forall i | 0 <= i < |now| ensures now[i] == AddTo(cars, k, f)[i] {
        if i != k {
          assert es[i] != es[k];
        }
      }
    }

    /** Carries out the strategy's answer: `add_target(f)` on the chosen car, if any. */
    method ApplyPick(es: seq<Elevator>, pick: Pick, f: int) returns (outcome: Outcome)
      requires Fleet(es) && (pick.Pick? ==> pick.index < |es|)
      modifies set e | e in es :: e`targets
      ensures Fleet(es)
      ensures AssignResult(Views(es), outcome) == Applied(old(Views(es)), pick, f)
    {
      match pick
      case NoPick =>
        outcome := Done;
      case PickFails(e) =>
        outcome := Raised(e);
      case Pick(k) =>
        var e := es[k];
        assert e in es;
        Retarget(es, e, k, f);
        outcome := Done;
    }

    /** A floor with an unclaimed call: ask the strategy and carry out its answer. */
    method AssignUnclaimed(es: seq<Elevator>, f: int) returns (outcome: Outcome)
      requires Fleet(es) && Drivable(Views(es))
      modifies set e | e in es :: e`targets
      ensures Fleet(es)
      ensures AssignResult(Views(es), outcome) ==
              Applied(old(Views(es)), Choose(strategyName, old(Views(es)), f), f)
    {
      var pick := ChooseElevator(es, f);
      outcome := ApplyPick(es, pick, f);
    }

    /** One floor of the loop of `assign`. */
    method AssignFloor(es: seq<Elevator>, queues: map<int, seq<PersonId>>, f: int)
      returns (outcome: Outcome)
      requires Fleet(es) && Drivable(Views(es))
      modifies set e | e in es :: e`targets
      ensures Fleet(es)
      ensures AssignResult(Views(es), outcome) == FloorStep(strategyName, old(Views(es)), queues, f)
    {
      if !(f in queues && queues[f] != []) {
        return Done;
      }
      var claimed := IsClaimed(es, f);
      if claimed {
        return Done;
      }
      FloorStepUnclaimed(strategyName, Views(es), queues, f);
      outcome := AssignUnclaimed(es, f);
    }

    /**
     * `assign`: for every floor with somebody waiting that no passenger-less
     * car has claimed, ask the strategy for a car and add the floor to its
     * targets. Only target lists change.
     */
    method Assign(b: Building) returns (outcome: Outcome)
      requires b.Valid()
      modifies set e | e in b.elevators :: e`targets
      ensures b.Valid()
      ensures AssignResult(Views(b.elevators), outcome) ==
              AssignCalls(strategyName, old(Views(b.elevators)), b.queues, b.numFloors)
    {
      FleetDrivable(b.elevators);
      var f := 1;
      while f <= b.numFloors
        invariant Fleet(b.elevators)
        invariant Drivable(Views(b.elevators))
        invariant AssignFrom(strategyName, Views(b.elevators), b.queues, f, b.numFloors) ==
                  AssignFrom(strategyName, old(Views(b.elevators)), b.queues, 1, b.numFloors)
        decreases b.numFloors - f + 1
      {
        outcome := AssignFloor(b.elevators, b.queues, f);
        if outcome.Raised? {
          return;
        }
        f := f + 1;
      }
      outcome := Done;
    }
  }

  /** The cars of a fleet all have a positive top speed. */
  lemma FleetDrivable(es: seq<Elevator>)
    requires Fleet(es)
    ensures Drivable(Views(es))
  {
    var cars := Views(es);
    forall i | 0 <= i < |cars| ensures cars[i].maxSpeed > 0.0 {
      assert es[i].Valid();
    }
  }
}
