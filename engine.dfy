/**
 * The per-tick logic of the simulator (simulation.py): the scenario and its
 * cursor, the rider lifecycle, the normal stop handling of every car, the
 * fire-alarm override, and the stop and fire controls. Clock readings, the
 * tick length and the speed multiplier are parameters.
 */
module Engine {
  import opened Common
  import opened Sorting
  import opened Models
  import opened Dispatch

  // ---------------------------------------------------------------------------
  // Scenario events (simulation.py:34-36, 105-121)
  // ---------------------------------------------------------------------------

  /** A scenario entry: its time, its action, and the optional `count` and `floor` of a spawn. */
  datatype Event = Event(time: real, action: string, count: Option<int>, floor: Option<int>)

  /** The sort key of `load_scenario`. */
  function EventTime(ev: Event): real {
    ev.time
  }

  // ---------------------------------------------------------------------------
  // Fire alarm (simulation.py:221-234)
  // ---------------------------------------------------------------------------

  /** The fire-alarm fields: the flag, the start time, the total duration and the count. */
  datatype Alarm = Alarm(active: bool, start: Option<real>, total: real, count: nat)

  /** `trigger_fire` at time `now`. */
  function Triggered(a: Alarm, now: real): Alarm {
    if a.active then a else Alarm(true, Some(now), a.total, a.count + 1)
  }

  /** `stop_fire` at time `now`. */
  function Stopped(a: Alarm, now: real): Alarm {
    if !a.active then a
    else if Truthy(a.start) then Alarm(false, None, a.total + (now - a.start.value), a.count)
    else Alarm(false, a.start, a.total, a.count)
  }

  /**
   * Raising the alarm sets the flag and counts one alarm, unless it is already
   * raised, when nothing changes; raising it twice is raising it once.
   */
  lemma TriggerFacts(a: Alarm, now: real, later: real)
    ensures var r := Triggered(a, now);
      && r.active
      && (a.active ==> r == a)
      && (!a.active ==> r.count == a.count + 1 && r.start == Some(now) && r.total == a.total)
      && Triggered(r, later) == r
  {
  }

  /**
   * Clearing the alarm drops the flag and never changes the count; clearing an
   * inactive alarm changes nothing, and clearing twice is clearing once. The
   * recorded duration grows by the time since the start, which is not negative
   * when the clock has not gone back.
   */
  lemma StopFacts(a: Alarm, now: real, later: real)
    ensures var r := Stopped(a, now);
      && !r.active
      && r.count == a.count
      && (!a.active ==> r == a)
      && Stopped(r, later) == r
      && (a.active && Truthy(a.start) ==> r.total == a.total + (now - a.start.value))
      && (a.active && Truthy(a.start) && a.start.value <= now ==> r.total >= a.total)
      && (a.active && !Truthy(a.start) ==> r.total == a.total)
  {
  }

  // ---------------------------------------------------------------------------
  // Event processing (simulation.py:105-121)
  // ---------------------------------------------------------------------------

  /** What the scenario events act on: the roster, the rider store, the id counter and the alarm. */
  datatype World = World(people: seq<PersonId>, persons: map<PersonId, Person>, nextId: nat, alarm: Alarm)

  /** One `Person(floor, now)` followed by `add_person`. */
  function SpawnOne(w: World, floor: int, now: real): World {
    w.(people := w.people + [w.nextId],
       persons := w.persons[w.nextId := NewPerson(w.nextId, floor, now)],
       nextId := w.nextId + 1)
  }

  /** The loop `for _ in range(count)` of a spawn event. */
  function Spawned(w: World, count: int, floor: int, now: real): World
    decreases count
  {
    if count <= 0 then w else SpawnOne(Spawned(w, count - 1, floor, now), floor, now)
  }

  /** The ids lo, lo+1, ..., lo+n-1. */
  function IdRange(lo: nat, n: nat): (r: seq<PersonId>)
    ensures |r| == n && forall k :: 0 <= k < n ==> r[k] == lo + k
  {
    if n == 0 then [] else IdRange(lo, n - 1) + [lo + n - 1]
  }

  /**
   * A spawn of `count` riders appends that many fresh ids to the roster, each
   * a new rider deciding at `floor`; nothing else of the world changes.
   */
  lemma {:induction false} SpawnedFacts(w: World, count: int, floor: int, now: real)
    ensures var n := if count > 0 then count else 0;
      var r := Spawned(w, count, floor, now);
      && r.people == w.people + IdRange(w.nextId, n)
      && r.nextId == w.nextId + n
      && r.alarm == w.alarm
  {
    if count > 0 {
      SpawnedFacts(w, count - 1, floor, now);
      var n := count - 1;
      var prev := Spawned(w, count - 1, floor, now);
      assert prev.people + [prev.nextId] == w.people + IdRange(w.nextId, n + 1) by {
        assert IdRange(w.nextId, n + 1) == IdRange(w.nextId, n) + [w.nextId + n];
      }
    }
  }

  /** The spawned riders are new riders deciding at `floor`; every other stored rider is kept. */
  lemma {:induction false} SpawnedStore(w: World, count: int, floor: int, now: real)
    ensures var n := if count > 0 then count else 0;
      var r := Spawned(w, count, floor, now);
      && (forall k :: k in r.persons <==> k in w.persons || w.nextId <= k < w.nextId + n)
      && (forall k :: w.nextId <= k < w.nextId + n ==> r.persons[k] == NewPerson(k, floor, now))
      && (forall k :: k in w.persons && !(w.nextId <= k < w.nextId + n) ==> r.persons[k] == w.persons[k])
  {
    if count > 0 {
      SpawnedStore(w, count - 1, floor, now);
      SpawnedFacts(w, count - 1, floor, now);
    }
  }

  /** `_process_event`: a spawn, a fire start, a fire end, or nothing for any other action. */
  function ApplyEvent(w: World, ev: Event, now: real): World {
    if ev.action == "spawn" then Spawned(w, ev.count.GetOr(1), ev.floor.GetOr(1), now)
    else if ev.action == "fire_start" then w.(alarm := Triggered(w.alarm, now))
    else if ev.action == "fire_end" then w.(alarm := Stopped(w.alarm, now))
    else w
  }

  /**
   * A spawn without `count` or `floor` creates one rider at floor 1; the fire
   * events touch only the alarm; any other action changes nothing.
   */
  lemma ApplyEventFacts(w: World, ev: Event, now: real)
    ensures var r := ApplyEvent(w, ev, now);
      && (ev.action == "spawn" && ev.count.None? && ev.floor.None? ==>
            r.people == w.people + [w.nextId] && r.persons[w.nextId] == NewPerson(w.nextId, 1, now))
      && (ev.action != "spawn" ==> r.people == w.people && r.persons == w.persons && r.nextId == w.nextId)
      && (ev.action !in ["spawn", "fire_start", "fire_end"] ==> r == w)
  {
    if ev.action == "spawn" && ev.count.None? && ev.floor.None? {
      assert Spawned(w, 1, 1, now) == SpawnOne(w, 1, now);
    }
  }

  /** The events `s[lo..hi]`, processed in order. */
  function ApplyRange(w: World, s: seq<Event>, lo: int, hi: int, now: real): World
    requires 0 <= lo && hi <= |s|
    decreases hi - lo
  {
    if hi <= lo then w else ApplyEvent(ApplyRange(w, s, lo, hi - 1, now), s[hi - 1], now)
  }

  // ---------------------------------------------------------------------------
  // Rider lifecycle (simulation.py:69-90)
  // ---------------------------------------------------------------------------

  /** What the tick does to one rider of the roster. */
  datatype Fate = Decide | Leave | Stay

  /**
   * A deciding rider whose scaled age reaches 3 seconds picks a floor; a
   * delivered rider (with a set time stamp) or an evacuated one leaves the
   * roster 3 scaled seconds after that stamp; everybody else stays as is.
   */
  function FateOf(p: Person, now: real, speed: real): Fate {
    if p.state == Choosing then
      if (now - p.createdAt) * speed >= 3.0 then Decide else Stay
    else if p.state == Delivered && Truthy(p.deliveredAt) then
      if (now - p.deliveredAt.value) * speed >= 3.0 then Leave else Stay
    else if p.state == Evacuated && p.deliveredAt.Some? then
      if (now - p.deliveredAt.value) * speed >= 3.0 then Leave else Stay
    else Stay
  }

  /** Riders who stay on the roster. */
  function Stays(persons: map<PersonId, Person>, now: real, speed: real): PersonId -> bool {
    pid => !(pid in persons && FateOf(persons[pid], now, speed) == Leave)
  }

  /** The floor whose queue a rider joins this tick: its origin, if it decides now. */
  function JoinFloor(persons: map<PersonId, Person>, now: real, speed: real): PersonId -> Option<int> {
    pid => if pid in persons && FateOf(persons[pid], now, speed) == Decide then Some(persons[pid].origin) else None
  }

  /** Riders who join the queue of floor `f`. */
  function JoinsAt(join: PersonId -> Option<int>, f: int): PersonId -> bool {
    (pid: PersonId) => join(pid) == Some(f)
  }

  /** The queues after the riders of `ps`, in order, have joined the queues `join` names. */
  function Joined(queues: map<int, seq<PersonId>>, ps: seq<PersonId>, join: PersonId -> Option<int>)
    : (r: map<int, seq<PersonId>>)
    decreases |ps|
    ensures r.Keys == queues.Keys
  {
    if ps == [] then queues
    else
      var e := Joined(queues, ps[..|ps| - 1], join);
      var pid := ps[|ps| - 1];
      if join(pid).Some? && join(pid).value in e then e[join(pid).value := e[join(pid).value] + [pid]]
      else e
  }

  /** Each queue is extended by exactly the riders of `ps` that join it, in their order. */
  lemma {:induction false} JoinedQueues(queues: map<int, seq<PersonId>>, ps: seq<PersonId>,
                                        join: PersonId -> Option<int>, f: int)
    requires f in queues
    ensures Joined(queues, ps, join)[f] == queues[f] + Filter(ps, JoinsAt(join, f))
  {
    if ps != [] {
      var init := ps[..|ps| - 1];
      var pid := ps[|ps| - 1];
      JoinedQueues(queues, init, join, f);
      assert ps == init + [pid];
      FilterSnoc(init, pid, JoinsAt(join, f));
    }
  }

  /** A deciding rider whose origin has no queue: `waiting_queues[p.origin]` raises. */
  predicate Stranded(pid: PersonId, persons: map<PersonId, Person>, queues: map<int, seq<PersonId>>,
                     now: real, speed: real) {
    pid in persons && FateOf(persons[pid], now, speed) == Decide && persons[pid].origin !in queues
  }

  /** `q` is `p` after `choose_target(numFloors)` at time `now`. */
  predicate DecidedFrom(p: Person, q: Person, numFloors: int, now: real) {
    && q.target.Some?
    && ValidTarget(numFloors, p.origin, q.target.value)
    && q == p.(target := q.target, decisionTime := Some(now), state := Waiting)
  }

  /** The store after the deciding riders among `done` have chosen; nobody else changed. */
  ghost predicate AdvancedStore(before: map<PersonId, Person>, after: map<PersonId, Person>,
                                done: seq<PersonId>, numFloors: int, now: real, speed: real) {
    && after.Keys == before.Keys
    && forall pid :: pid in before ==>
         if pid in done && FateOf(before[pid], now, speed) == Decide
         then DecidedFrom(before[pid], after[pid], numFloors, now)
         else after[pid] == before[pid]
  }

  /** The rider-side state a tick's step 2 works on: the roster, the store and the queues. */
  datatype Crowd = Crowd(people: seq<PersonId>, persons: map<PersonId, Person>, queues: map<int, seq<PersonId>>)

  /** What step 2 does to the crowd for one rider `pid`, when it does not raise. */
  ghost predicate RiderStep(pid: PersonId, c: Crowd, d: Crowd, numFloors: int, now: real, speed: real) {
    && pid in c.persons
    && match FateOf(c.persons[pid], now, speed)
       case Decide =>
         var origin := c.persons[pid].origin;
         && origin in c.queues
         && pid in d.persons
         && DecidedFrom(c.persons[pid], d.persons[pid], numFloors, now)
         && d == Crowd(c.people, c.persons[pid := d.persons[pid]], c.queues[origin := c.queues[origin] + [pid]])
       case Leave => d == c.(people := RemoveFirst(c.people, pid))
       case Stay => d == c
  }

  /** The crowd once the first `i` riders of the copied roster have been processed. */
  ghost predicate AdvancedTo(P0: map<PersonId, Person>, Q0: map<int, seq<PersonId>>, roster: seq<PersonId>,
                             i: nat, c: Crowd, numFloors: int, now: real, speed: real)
    requires i <= |roster|
  {
    && c.people == Filter(roster[..i], Stays(P0, now, speed)) + roster[i..]
    && c.queues == Joined(Q0, roster[..i], JoinFloor(P0, now, speed))
    && AdvancedStore(P0, c.persons, roster[..i], numFloors, now, speed)
    && forall k :: 0 <= k < i ==> !Stranded(roster[k], P0, Q0, now, speed)
  }

  /** The queues one rider further along the copied roster. */
  lemma StepQueues(Q0: map<int, seq<PersonId>>, roster: seq<PersonId>, i: nat, join: PersonId -> Option<int>,
                   cq: map<int, seq<PersonId>>, dq: map<int, seq<PersonId>>)
    requires i < |roster| && cq == Joined(Q0, roster[..i], join)
    requires var o := join(roster[i]);
      if o.Some? && o.value in cq then dq == cq[o.value := cq[o.value] + [roster[i]]] else dq == cq
    ensures dq == Joined(Q0, roster[..i + 1], join)
  {
    assert roster[..i + 1][..i] == roster[..i];
  }

  /** The store one rider further along the copied roster. */
  lemma StepStore(P0: map<PersonId, Person>, cp: map<PersonId, Person>, dp: map<PersonId, Person>,
                  roster: seq<PersonId>, i: nat, numFloors: int, now: real, speed: real)
    requires i < |roster| && roster[i] !in roster[..i] && roster[i] in P0
    requires AdvancedStore(P0, cp, roster[..i], numFloors, now, speed)
    requires var pid := roster[i];
      if FateOf(P0[pid], now, speed) == Decide
      then pid in dp && DecidedFrom(P0[pid], dp[pid], numFloors, now) && dp == cp[pid := dp[pid]]
      else dp == cp
    ensures AdvancedStore(P0, dp, roster[..i + 1], numFloors, now, speed)
  {
    assert roster[..i + 1] == roster[..i] + [roster[i]];
    forall k | k in P0
      ensures if k in roster[..i + 1] && FateOf(P0[k], now, speed) == Decide
              then DecidedFrom(P0[k], dp[k], numFloors, now)
              else dp[k] == P0[k]
    {
      if k != roster[i] {
        assert k in roster[..i + 1] <==> k in roster[..i];
      }
    }
  }

  /** One rider further: the step relation carries the accumulated description along. */
  lemma AdvanceStep(P0: map<PersonId, Person>, Q0: map<int, seq<PersonId>>, roster: seq<PersonId>,
                    i: nat, c: Crowd, d: Crowd, numFloors: int, now: real, speed: real)
    requires NoDup(roster) && i < |roster| && roster[i] in P0
    requires AdvancedTo(P0, Q0, roster, i, c, numFloors, now, speed)
    requires RiderStep(roster[i], c, d, numFloors, now, speed)
    ensures AdvancedTo(P0, Q0, roster, i + 1, d, numFloors, now, speed)
  {
    var pid := roster[i];
    assert pid !in roster[..i];
    assert c.persons[pid] == P0[pid];
    FilterStep(roster, i, Stays(P0, now, speed), c.people);
    StepQueues(Q0, roster, i, JoinFloor(P0, now, speed), c.queues, d.queues);
    StepStore(P0, c.persons, d.persons, roster, i, numFloors, now, speed);
    assert c.queues.Keys == Q0.Keys;
  }

  /** The rider the loop is at has not been touched yet. */
  lemma AdvanceFront(P0: map<PersonId, Person>, Q0: map<int, seq<PersonId>>, roster: seq<PersonId>,
                     i: nat, c: Crowd, numFloors: int, now: real, speed: real)
    requires NoDup(roster) && i < |roster| && roster[i] in P0
    requires AdvancedTo(P0, Q0, roster, i, c, numFloors, now, speed)
    ensures roster[i] in c.persons && c.persons[roster[i]] == P0[roster[i]]
    ensures c.queues.Keys == Q0.Keys
  {
    assert roster[i] !in roster[..i];
  }

  // ---------------------------------------------------------------------------
  // Rider time stamps (simulation.py:137-141, 147-152, 167-172, 186-189)
  // ---------------------------------------------------------------------------

  /** The state changes the tick writes onto a rider. */
  datatype Mark = ToDelivered | ToInElevator | ToEvacuated

  function Apply(p: Person, m: Mark, now: real): Person {
    match m
    case ToDelivered => p.(state := Delivered, deliveredAt := Some(now))
    case ToInElevator => p.(state := InElevator, enterTime := Some(now))
    case ToEvacuated => p.(state := Evacuated, deliveredAt := Some(now))
  }

  /**
   * A mark sets the state it names and keeps the rider's id, origin and
   * target; writing it twice is writing it once, and a consistent rider
   * stays consistent.
   */
  lemma ApplyFacts(p: Person, m: Mark, now: real, numFloors: int)
    ensures var q := Apply(p, m, now);
      && q.id == p.id && q.origin == p.origin && q.target == p.target
      && q.state == (match m case ToDelivered => Delivered case ToInElevator => InElevator
                             case ToEvacuated => Evacuated)
      && Apply(q, m, now) == q
      && (Consistent(p, numFloors) ==> Consistent(q, numFloors))
  {
  }

  /** The store with the riders of `ids` marked `m`. */
  function Marked(persons: map<PersonId, Person>, ids: set<PersonId>, m: Mark, now: real)
    : (r: map<PersonId, Person>)
    ensures r.Keys == persons.Keys
  {
    map pid | pid in persons :: if pid in ids then Apply(persons[pid], m, now) else persons[pid]
  }

  /** Marking one more rider, already marked or not, is one map update. */
  lemma MarkedAdd(persons: map<PersonId, Person>, ids: set<PersonId>, pid: PersonId,
                  current: map<PersonId, Person>, m: Mark, now: real)
    requires pid in persons && current == Marked(persons, ids, m, now)
    ensures Marked(persons, ids + {pid}, m, now) == current[pid := Apply(current[pid], m, now)]
  {
  }

  /** Riders who stay aboard at `floor`: everybody not bound for it. */
  function StaysAboard(persons: map<PersonId, Person>, floor: int): PersonId -> bool {
    (pid: PersonId) => !(pid in persons && persons[pid].target == Some(floor))
  }

  /** The riders of `ps` who get off at `floor`. */
  function Alighting(ps: seq<PersonId>, persons: map<PersonId, Person>, floor: int): set<PersonId> {
    set pid | pid in ps && !StaysAboard(persons, floor)(pid)
  }

  /** One more passenger looked at by the unload loop. */
  lemma AlightingStep(ps: seq<PersonId>, i: nat, persons: map<PersonId, Person>, floor: int)
    requires i < |ps|
    ensures Alighting(ps[..i + 1], persons, floor) ==
            Alighting(ps[..i], persons, floor) + (if StaysAboard(persons, floor)(ps[i]) then {} else {ps[i]})
  {
    assert ps[..i + 1] == ps[..i] + [ps[i]];
  }

  /** The car-side state the unload loop works on: passengers, transport count and the store. */
  datatype Cabin = Cabin(passengers: seq<PersonId>, transported: nat, persons: map<PersonId, Person>)

  /** The cabin once the unload loop has looked at the first `i` passengers of the copy `ps`. */
  ghost predicate UnloadedTo(ps: seq<PersonId>, i: nat, P0: map<PersonId, Person>, T0: nat, floor: int,
                             now: real, c: Cabin)
    requires i <= |ps|
  {
    && c.passengers == Filter(ps[..i], StaysAboard(P0, floor)) + ps[i..]
    && c.transported == T0 + (i - |Filter(ps[..i], StaysAboard(P0, floor))|)
    && c.persons == Marked(P0, Alighting(ps[..i], P0, floor), ToDelivered, now)
  }

  /** What the unload loop does for one passenger `pid`. */
  ghost predicate UnloadStepped(pid: PersonId, floor: int, now: real, c: Cabin, d: Cabin) {
    && pid in c.persons
    && if c.persons[pid].target == Some(floor)
       then d == Cabin(RemoveFirst(c.passengers, pid), c.transported + 1,
                       c.persons[pid := Apply(c.persons[pid], ToDelivered, now)])
       else d == c
  }

  /** The passenger the unload loop is at is still aboard and in the store. */
  lemma UnloadFront(ps: seq<PersonId>, i: nat, P0: map<PersonId, Person>, T0: nat, floor: int, now: real, c: Cabin)
    requires i < |ps| && ps[i] in P0 && UnloadedTo(ps, i, P0, T0, floor, now, c)
    ensures ps[i] in c.passengers && ps[i] in c.persons
  {
    assert ps[i] == ps[i..][0];
  }

  lemma UnloadStep(ps: seq<PersonId>, i: nat, P0: map<PersonId, Person>, T0: nat, floor: int, now: real,
                   c: Cabin, d: Cabin)
    requires i < |ps| && ps[i] in P0 && UnloadedTo(ps, i, P0, T0, floor, now, c)
    requires UnloadStepped(ps[i], floor, now, c, d)
    ensures UnloadedTo(ps, i + 1, P0, T0, floor, now, d)
  {
    var pid := ps[i];
    var keep := StaysAboard(P0, floor);
    assert c.persons[pid].target == P0[pid].target;
    FilterStep(ps, i, keep, c.passengers);
    AlightingStep(ps, i, P0, floor);
    if !keep(pid) {
      assert pid in c.passengers by {
        assert pid == ps[i..][0];
      }
      MarkedAdd(P0, Alighting(ps[..i], P0, floor), pid, c.persons, ToDelivered, now);
    }
  }

  /** Python truthiness of an optional floor: set and non-zero. */
  predicate HasTarget(p: Person) {
    p.target.Some? && p.target.value != 0
  }

  /** The targets after the riders `ps`, in order, have each added theirs (`if p.target: add_target`). */
  function BoardTargets(ts: seq<int>, persons: map<PersonId, Person>, ps: seq<PersonId>,
                        d: Direction, position: real): seq<int>
    decreases |ps|
  {
    if ps == [] then ts
    else
      var r := BoardTargets(ts, persons, ps[..|ps| - 1], d, position);
      var pid := ps[|ps| - 1];
      if pid in persons && HasTarget(persons[pid]) then AddedTargets(r, persons[pid].target.value, d, position)
      else r
  }

  /** The state the boarding loop works on: the floor's queue, the car's passengers and targets, the store. */
  datatype Boarding = Boarding(queue: seq<PersonId>, passengers: seq<PersonId>, targets: seq<int>,
                               persons: map<PersonId, Person>)

  /** The state once the first `j` riders of the queue `q0` have boarded, in order. */
  ghost predicate BoardedTo(q0: seq<PersonId>, p0: seq<PersonId>, t0: seq<int>, P0: map<PersonId, Person>,
                            d: Direction, position: real, now: real, j: nat, c: Boarding) {
    && j <= |q0|
    && c.queue == q0[j..]
    && c.passengers == p0 + q0[..j]
    && c.targets == BoardTargets(t0, P0, q0[..j], d, position)
    && c.persons == Marked(P0, Elems(q0[..j]), ToInElevator, now)
  }

  /** What the boarding loop does for the rider at the front of the queue. */
  ghost predicate BoardStepped(d: Direction, position: real, now: real, c: Boarding, n: Boarding) {
    && c.queue != []
    && var pid := c.queue[0];
       && pid in c.persons
       && n == Boarding(c.queue[1..], c.passengers + [pid],
                        if HasTarget(c.persons[pid]) then AddedTargets(c.targets, c.persons[pid].target.value, d, position)
                        else c.targets,
                        c.persons[pid := Apply(c.persons[pid], ToInElevator, now)])
  }

  lemma BoardStep(q0: seq<PersonId>, p0: seq<PersonId>, t0: seq<int>, P0: map<PersonId, Person>,
                  d: Direction, position: real, now: real, j: nat, c: Boarding, n: Boarding)
    requires BoardedTo(q0, p0, t0, P0, d, position, now, j, c) && BoardStepped(d, position, now, c, n)
    requires forall pid :: pid in q0 ==> pid in P0
    ensures BoardedTo(q0, p0, t0, P0, d, position, now, j + 1, n)
  {
    var pid := q0[j];
    assert c.queue[0] == pid;
    assert q0[..j + 1] == q0[..j] + [pid];
    assert q0[..j + 1][..j] == q0[..j];
    assert c.queue[1..] == q0[j + 1..];
    assert c.persons[pid].target == P0[pid].target;
    assert Elems(q0[..j + 1]) == Elems(q0[..j]) + {pid};
    MarkedAdd(P0, Elems(q0[..j]), pid, c.persons, ToInElevator, now);
  }

  /** What a stop works on: one car's passengers, transport count and targets, the store and the queues. */
  datatype Stop = Stop(passengers: seq<PersonId>, transported: nat, targets: seq<int>,
                       persons: map<PersonId, Person>, queues: map<int, seq<PersonId>>)

  /**
   * The first half of a stop at `floor`: the passengers bound for `floor` get
   * off, are counted and stamped delivered, and `floor` leaves the targets.
   */
  function AfterArrival(c: Stop, floor: int, now: real): Stop {
    var kept := Filter(c.passengers, StaysAboard(c.persons, floor));
    Stop(kept, c.transported + (|c.passengers| - |kept|), RemoveFirst(c.targets, floor),
         Marked(c.persons, Alighting(c.passengers, c.persons, floor), ToDelivered, now), c.queues)
  }

  /** Passengers bound for `floor`: the complement of `StaysAboard`. */
  function BoundFor(persons: map<PersonId, Person>, floor: int): PersonId -> bool {
    (pid: PersonId) => pid in persons && persons[pid].target == Some(floor)
  }

  /**
   * The arrival half of a stop gets off exactly the passengers bound for the
   * floor, adds their number to the transported count, stamps them
   * delivered at `now`, and drops the floor from the targets.
   */
  lemma ArrivalFacts(c: Stop, floor: int, now: real)
    ensures var r := AfterArrival(c, floor, now);
      && (forall pid :: pid in r.passengers <==> pid in c.passengers && !BoundFor(c.persons, floor)(pid))
      && r.transported == c.transported + |Filter(c.passengers, BoundFor(c.persons, floor))|
      && (NoDup(c.targets) ==> forall t :: t in r.targets <==> t in c.targets && t != floor)
      && (forall pid :: pid in c.passengers && BoundFor(c.persons, floor)(pid) ==>
            r.persons[pid].state == Delivered && r.persons[pid].deliveredAt == Some(now))
      && (forall pid :: pid in c.persons && !(pid in c.passengers && BoundFor(c.persons, floor)(pid)) ==>
            r.persons[pid] == c.persons[pid])
      && r.queues == c.queues
  {
    FilterSplit(c.passengers, StaysAboard(c.persons, floor), BoundFor(c.persons, floor));
    if NoDup(c.targets) {
      NoDupRemoveFirst(c.targets, floor);
    }
  }

  /** Rider `pid` of `persons` wants floor `t`. */
  predicate Wants(persons: map<PersonId, Person>, pid: PersonId, t: int) {
    pid in persons && HasTarget(persons[pid]) && persons[pid].target.value == t
  }

  /** The targets after boarding `ps`: the old ones and the boarded riders' own, duplicate-free. */
  lemma {:induction false} BoardTargetsMembers(ts: seq<int>, persons: map<PersonId, Person>, ps: seq<PersonId>,
                                              d: Direction, position: real)
    ensures forall t :: t in BoardTargets(ts, persons, ps, d, position) <==>
      t in ts || exists pid :: pid in ps && Wants(persons, pid, t)
    ensures NoDup(ts) ==> NoDup(BoardTargets(ts, persons, ps, d, position))
    decreases |ps|
  {
    if ps != [] {
      var init := ps[..|ps| - 1];
      var pid := ps[|ps| - 1];
      assert ps == init + [pid];
      BoardTargetsMembers(ts, persons, init, d, position);
      var r := BoardTargets(ts, persons, init, d, position);
      assert ps[..|ps| - 1] == init;
      var res := BoardTargets(ts, persons, ps, d, position);
      if pid in persons && HasTarget(persons[pid]) {
        assert res == AddedTargets(r, persons[pid].target.value, d, position);
        AddedTargetsMembers(r, persons[pid].target.value, d, position);
        if NoDup(ts) {
          AddedTargetsNoDup(r, persons[pid].target.value, d, position);
        }
      } else {
        assert res == r;
      }
      forall t ensures t in res <==> t in ts || exists x :: x in ps && Wants(persons, x, t) {
        assert t in res <==> t in r || Wants(persons, pid, t);
        assert t in r <==> t in ts || exists x :: x in init && Wants(persons, x, t);
        if exists x :: x in ps && Wants(persons, x, t) {
          var x :| x in ps && Wants(persons, x, t);
          if x != pid {
            assert x in init;
          }
        }
        if exists x :: x in init && Wants(persons, x, t) {
          var x :| x in init && Wants(persons, x, t);
          assert x in ps;
        }
        if Wants(persons, pid, t) {
          assert pid in ps;
        }
      }
    }
  }

  /** How many riders board: the queue length, capped by the free places. */
  function Boarders(c: Stop, floor: int, capacity: nat): (n: nat)
    requires floor in c.queues
    ensures n <= |c.queues[floor]|
  {
    var free := if |c.passengers| <= capacity then capacity - |c.passengers| else 0;
    if |c.queues[floor]| < free then |c.queues[floor]| else free
  }

  /**
   * The second half of a stop at `floor`: the first `Boarders` riders of the
   * floor's queue leave it, in order, become passengers, are stamped
   * in-elevator and add their targets.
   */
  function AfterBoarding(c: Stop, floor: int, capacity: nat, d: Direction, position: real, now: real): Stop
    requires floor in c.queues
  {
    var q0 := c.queues[floor];
    var n := Boarders(c, floor, capacity);
    Stop(c.passengers + q0[..n], c.transported, BoardTargets(c.targets, c.persons, q0[..n], d, position),
         Marked(c.persons, Elems(q0[..n]), ToInElevator, now), c.queues[floor := q0[n..]])
  }

  /** A boarding loop that stops with the queue empty or the car full has done `AfterBoarding`. */
  lemma BoardedAll(c: Stop, floor: int, capacity: nat, d: Direction, position: real, now: real,
                   j: nat, b: Boarding, r: Stop)
    requires floor in c.queues
    requires BoardedTo(c.queues[floor], c.passengers, c.targets, c.persons, d, position, now, j, b)
    requires |b.passengers| <= capacity && (b.queue == [] || |b.passengers| == capacity)
    requires r == Stop(b.passengers, c.transported, b.targets, b.persons, c.queues[floor := b.queue])
    ensures r == AfterBoarding(c, floor, capacity, d, position, now)
  {
    assert j == Boarders(c, floor, capacity);
  }

  /**
   * The boarding half of a stop, on a car within capacity: the riders at the
   * front of the queue board in queue order and the rest stay queued in
   * order; boarding stops only at an empty queue or a full car and never
   * overfills it; each boarder is stamped in-elevator at `now`; the targets
   * gain exactly the boarders' own and stay duplicate-free.
   */
  lemma BoardingFacts(c: Stop, floor: int, capacity: nat, d: Direction, position: real, now: real)
    requires floor in c.queues && |c.passengers| <= capacity && NoDup(c.targets)
    ensures var r := AfterBoarding(c, floor, capacity, d, position, now);
      var q0 := c.queues[floor];
      var n := Boarders(c, floor, capacity);
      && r.passengers == c.passengers + q0[..n] && q0 == q0[..n] + r.queues[floor]
      && |r.passengers| <= capacity
      && (r.queues[floor] != [] ==> |r.passengers| == capacity)
      && (forall f :: f in c.queues && f != floor ==> f in r.queues && r.queues[f] == c.queues[f])
      && (forall pid :: pid in q0[..n] && pid in c.persons ==>
            r.persons[pid].state == InElevator && r.persons[pid].enterTime == Some(now))
      && NoDup(r.targets)
      && (forall t :: t in r.targets <==> t in c.targets || exists pid :: pid in q0[..n] && Wants(c.persons, pid, t))
      && r.transported == c.transported
  {
    var q0 := c.queues[floor];
    var n := Boarders(c, floor, capacity);
    assert q0 == q0[..n] + q0[n..];
    BoardTargetsMembers(c.targets, c.persons, q0[..n], d, position);
  }

  lemma UpdateTwice<K, V>(m: map<K, V>, k: K, a: V, b: V)
    ensures m[k := a][k := b] == m[k := b]
  {
  }

  /** Keeping the riders `keep` accepts, one rider further along the list being processed. */
  lemma FilterStep(ps: seq<PersonId>, i: nat, keep: PersonId -> bool, current: seq<PersonId>)
    requires i < |ps| && current == Filter(ps[..i], keep) + ps[i..]
    ensures keep(ps[i]) ==> current == Filter(ps[..i + 1], keep) + ps[i + 1..]
    ensures !keep(ps[i]) ==> RemoveFirst(current, ps[i]) == Filter(ps[..i + 1], keep) + ps[i + 1..]
  {
    var pre := Filter(ps[..i], keep);
    var x := ps[i];
    var rest := ps[i + 1..];
    assert ps[..i + 1] == ps[..i] + [x];
    assert ps[i..] == [x] + rest;
    FilterSnoc(ps[..i], x, keep);
    if keep(x) {
      assert pre + ([x] + rest) == (pre + [x]) + rest;
    } else {
      assert Filter(ps[..i + 1], keep) == pre + [] == pre;
      assert current == pre + ([x] + rest);
      RemoveFront(pre, x, rest);
    }
  }

  /** `list.remove(x)` on a list whose first `x` directly follows the prefix `pre`. */
  lemma RemoveFront(pre: seq<PersonId>, x: PersonId, rest: seq<PersonId>)
    requires x !in pre
    ensures RemoveFirst(pre + ([x] + rest), x) == pre + rest
  {
    RemoveFirstAppend(pre, [x] + rest, x);
    assert ([x] + rest)[1..] == rest;
  }

  // ---------------------------------------------------------------------------
  // Fire evacuation (simulation.py:123-152)
  // ---------------------------------------------------------------------------

  /**
   * The roster after `people.remove(p); people.append(p)` for each rider `p`
   * of `ps` in turn: each is taken out and put back at the end.
   */
  function MovedBack(people: seq<PersonId>, ps: seq<PersonId>): seq<PersonId>
    decreases |ps|
  {
    if ps == [] then people
    else
      var pid := ps[|ps| - 1];
      RemoveFirst(MovedBack(people, ps[..|ps| - 1]), pid) + [pid]
  }

  /** Moving riders who are on the roster to its end keeps every rider, as often as before. */
  lemma {:induction false} MovedBackPermutes(people: seq<PersonId>, ps: seq<PersonId>)
    requires forall pid :: pid in ps ==> pid in people
    ensures multiset(MovedBack(people, ps)) == multiset(people)
    decreases |ps|
  {
    if ps != [] {
      var init := ps[..|ps| - 1];
      var pid := ps[|ps| - 1];
      forall x | x in init ensures x in people {
        assert x in ps;
      }
      MovedBackPermutes(people, init);
      var r := MovedBack(people, init);
      assert pid in r by {
        assert pid in people;
        assert multiset(r)[pid] == multiset(people)[pid] > 0;
      }
      assert MovedBack(people, ps) == RemoveFirst(r, pid) + [pid];
      assert multiset(RemoveFirst(r, pid)) == multiset(r) - multiset{pid};
    }
  }

  /**
   * On a duplicate-free roster holding the duplicate-free riders `ps`, moving
   * them back leaves the other riders in their order, followed by `ps` in
   * evacuation order.
   */
  lemma {:induction false} MovedBackOrder(people: seq<PersonId>, ps: seq<PersonId>)
    requires NoDup(people) && NoDup(ps) && forall pid :: pid in ps ==> pid in people
    ensures MovedBack(people, ps) == Filter(people, NotIn(ps)) + ps
    decreases |ps|
  {
    if ps == [] {
      FilterAll(people, NotIn(ps));
    } else {
      var init := ps[..|ps| - 1];
      var pid := ps[|ps| - 1];
      assert ps == init + [pid];
      assert NoDup(init) by {
        forall i, j | 0 <= i < j < |init| ensures init[i] != init[j] {
          assert init[i] == ps[i] && init[j] == ps[j];
        }
      }
      assert pid !in init;
      forall x | x in init ensures x in people {
        assert x in ps;
      }
      MovedBackOrder(people, init);
      var rest := Filter(people, NotIn(init));
      assert pid in rest;
      RemoveFirstInPrefix(rest, init, pid);
      FilterRemove(people, init, pid);
    }
  }

  /** Riders not among `ps`. */
  function NotIn(ps: seq<PersonId>): PersonId -> bool {
    (pid: PersonId) => pid !in ps
  }

  /** A filter that keeps everything keeps the sequence. */
  lemma {:induction false} FilterAll(s: seq<PersonId>, keep: PersonId -> bool)
    requires forall x :: keep(x)
    ensures Filter(s, keep) == s
  {
    if s != [] {
      FilterAll(s[1..], keep);
      assert s == [s[0]] + s[1..];
    }
  }

  /** Removing from the prefix of a concatenation. */
  lemma {:induction false} RemoveFirstInPrefix(a: seq<PersonId>, b: seq<PersonId>, x: PersonId)
    requires x in a
    ensures RemoveFirst(a + b, x) == RemoveFirst(a, x) + b
  {
    assert (a + b)[0] == a[0];
    if a[0] != x {
      assert (a + b)[1..] == a[1..] + b;
      RemoveFirstInPrefix(a[1..], b, x);
    } else {
      assert (a + b)[1..] == a[1..] + b;
    }
  }

  /** On a duplicate-free list, removing `x` from what `NotIn(ps)` keeps is filtering out `x` as well. */
  lemma {:induction false} FilterRemove(s: seq<PersonId>, ps: seq<PersonId>, x: PersonId)
    requires NoDup(s) && x !in ps
    ensures RemoveFirst(Filter(s, NotIn(ps)), x) == Filter(s, NotIn(ps + [x]))
  {
    if s != [] {
      var h, t := s[0], s[1..];
      assert NoDup(t) by {
        forall i, j | 0 <= i < j < |t| ensures t[i] != t[j] {
          assert t[i] == s[i + 1] && t[j] == s[j + 1];
        }
      }
      var rest := Filter(t, NotIn(ps));
      if h == x {
        assert x !in t;
        assert Filter(s, NotIn(ps)) == [x] + rest;
        assert Filter(s, NotIn(ps + [x])) == Filter(t, NotIn(ps + [x]));
        FilterNotIn(t, ps, x);
      } else {
        FilterRemove(t, ps, x);
        if h in ps {
          assert Filter(s, NotIn(ps)) == rest;
          assert Filter(s, NotIn(ps + [x])) == Filter(t, NotIn(ps + [x]));
        } else {
          assert Filter(s, NotIn(ps)) == [h] + rest;
          assert Filter(s, NotIn(ps + [x])) == [h] + Filter(t, NotIn(ps + [x]));
        }
      }
    }
  }

  /** Without `x` in the list, also excluding `x` changes nothing. */
  lemma {:induction false} FilterNotIn(s: seq<PersonId>, ps: seq<PersonId>, x: PersonId)
    requires x !in s
    ensures Filter(s, NotIn(ps + [x])) == Filter(s, NotIn(ps))
  {
    if s != [] {
      FilterNotIn(s[1..], ps, x);
    }
  }

  /** What a car's evacuation loop acts on: its passengers, the roster and the store. */
  datatype Exit = Exit(passengers: seq<PersonId>, people: seq<PersonId>, persons: map<PersonId, Person>)

  /**
   * The state of the evacuation loop over the snapshot `ps` after `i`
   * riders: they are off the car, moved to the end of the roster (each was
   * on it) and stamped evacuated.
   */
  ghost predicate EvacuatedTo(ps: seq<PersonId>, i: nat, L0: seq<PersonId>, P0: map<PersonId, Person>,
                              now: real, c: Exit)
    requires i <= |ps|
  {
    && c.passengers == ps[i..]
    && c.people == MovedBack(L0, ps[..i])
    && c.persons == Marked(P0, Elems(ps[..i]), ToEvacuated, now)
    && forall pid :: pid in ps[..i] ==> pid in L0
  }

  /** What the evacuation loop does for rider `pid` when it is on the roster. */
  ghost predicate ExitStepped(pid: PersonId, now: real, c: Exit, d: Exit) {
    && pid in c.persons
    && d == Exit(RemoveFirst(c.passengers, pid), RemoveFirst(c.people, pid) + [pid],
                 c.persons[pid := Apply(c.persons[pid], ToEvacuated, now)])
  }

  /** The rider the loop is at is still aboard, and on the roster exactly when it was at the start. */
  lemma ExitFront(ps: seq<PersonId>, i: nat, L0: seq<PersonId>, P0: map<PersonId, Person>, now: real, c: Exit)
    requires i < |ps| && EvacuatedTo(ps, i, L0, P0, now, c)
    ensures ps[i] in c.passengers
    ensures ps[i] in c.people <==> ps[i] in L0
  {
    assert ps[i] == ps[i..][0];
    MovedBackPermutes(L0, ps[..i]);
    assert multiset(c.people)[ps[i]] == multiset(L0)[ps[i]];
  }

  lemma ExitStep(ps: seq<PersonId>, i: nat, L0: seq<PersonId>, P0: map<PersonId, Person>, now: real,
                 c: Exit, d: Exit)
    requires i < |ps| && ps[i] in L0 && ps[i] in P0 && EvacuatedTo(ps, i, L0, P0, now, c)
    requires ExitStepped(ps[i], now, c, d)
    ensures EvacuatedTo(ps, i + 1, L0, P0, now, d)
  {
    var pid := ps[i];
    assert ps[..i + 1] == ps[..i] + [pid];
    assert ps[..i + 1][..i] == ps[..i];
    assert ps[i..] == [pid] + ps[i + 1..];
    assert Elems(ps[..i + 1]) == Elems(ps[..i]) + {pid};
    MarkedAdd(P0, Elems(ps[..i]), pid, c.persons, ToEvacuated, now);
  }

  /**
   * What an evacuation over `ps` keeps, however far it got: the roster's
   * multiset, the stored ids and the records of riders outside `ps`.
   */
  ghost predicate KeepsOthers(ps: seq<PersonId>, L0: seq<PersonId>, P0: map<PersonId, Person>, d: Exit) {
    && multiset(d.people) == multiset(L0)
    && d.persons.Keys == P0.Keys
    && forall pid :: pid in P0 && pid !in ps ==> d.persons[pid] == P0[pid]
  }

  lemma EvacuatedKeeps(ps: seq<PersonId>, i: nat, L0: seq<PersonId>, P0: map<PersonId, Person>, now: real, c: Exit)
    requires i <= |ps| && EvacuatedTo(ps, i, L0, P0, now, c)
    ensures KeepsOthers(ps, L0, P0, c)
  {
    MovedBackPermutes(L0, ps[..i]);
    assert forall pid :: pid in ps[..i] ==> pid in ps;
  }

  /** The evacuation stopped at rider `ps[i]`, who was stamped but not on the roster. */
  lemma RaisedKeeps(ps: seq<PersonId>, i: nat, L0: seq<PersonId>, P0: map<PersonId, Person>, now: real,
                    c: Exit, d: Exit)
    requires i < |ps| && ps[i] in P0 && EvacuatedTo(ps, i, L0, P0, now, c)
    requires multiset(d.people) == multiset(c.people)
    requires d.persons == c.persons[ps[i] := Apply(c.persons[ps[i]], ToEvacuated, now)]
    requires d.passengers == RemoveFirst(c.passengers, ps[i])
    ensures KeepsOthers(ps, L0, P0, d)
    ensures IsSuffix(d.passengers, ps)
  {
    EvacuatedKeeps(ps, i, L0, P0, now, c);
    assert ps[i..] == [ps[i]] + ps[i + 1..];
    StillAboard(ps, i + 1, d.passengers);
  }

  /** `rest` is a final segment of `ps`. */
  predicate IsSuffix(rest: seq<PersonId>, ps: seq<PersonId>) {
    |rest| <= |ps| && rest == ps[|ps| - |rest|..]
  }

  /** The riders still aboard, `ps[j..]`, are the last ones of the snapshot. */
  lemma StillAboard(ps: seq<PersonId>, j: nat, rest: seq<PersonId>)
    requires j <= |ps| && rest == ps[j..]
    ensures IsSuffix(rest, ps)
  {
  }

  /** The floors below `f` with their queues emptied, the others as in `Q0`. */
  function ClearedBelow(Q0: map<int, seq<PersonId>>, f: int): (r: map<int, seq<PersonId>>)
    ensures r.Keys == Q0.Keys
  {
    map g | g in Q0 :: if g < f then [] else Q0[g]
  }

  /** The riders queued at the floors below `f`. */
  function QueuedBelow(Q0: map<int, seq<PersonId>>, f: int): set<PersonId> {
    set g, pid | g in Q0 && g < f && pid in Q0[g] :: pid
  }

  /** Everybody in any queue. */
  function QueuedRiders(Q0: map<int, seq<PersonId>>): set<PersonId> {
    set g, pid | g in Q0 && pid in Q0[g] :: pid
  }

  /** Draining floor `f` is one more floor of the drain of `Q0`, in floor order. */
  lemma DrainStep(Q0: map<int, seq<PersonId>>, P0: map<PersonId, Person>, f: int, now: real,
                  Q: map<int, seq<PersonId>>, P: map<PersonId, Person>)
    requires f in Q0 && Q == ClearedBelow(Q0, f) && P == Marked(P0, QueuedBelow(Q0, f), ToEvacuated, now)
    ensures Q[f := []] == ClearedBelow(Q0, f + 1)
    ensures Marked(P, Elems(Q[f]), ToEvacuated, now) == Marked(P0, QueuedBelow(Q0, f + 1), ToEvacuated, now)
  {
    assert Q[f] == Q0[f];
    assert QueuedBelow(Q0, f + 1) == QueuedBelow(Q0, f) + Elems(Q0[f]);
    forall pid | pid in P0
      ensures Marked(P, Elems(Q[f]), ToEvacuated, now)[pid] == Marked(P0, QueuedBelow(Q0, f + 1), ToEvacuated, now)[pid]
    {
      ApplyFacts(P0[pid], ToEvacuated, now, 0);
    }
  }

  /** A drain that has passed every floor of the building has drained every queue. */
  lemma DrainedAll(Q0: map<int, seq<PersonId>>, f: int)
    requires forall g :: g in Q0 ==> g < f
    ensures ClearedBelow(Q0, f) == map g | g in Q0 :: []
    ensures QueuedBelow(Q0, f) == QueuedRiders(Q0)
  {
  }

  // ---------------------------------------------------------------------------
  // Elevator rest and statistics (simulation.py:211-219, 236-245)
  // ---------------------------------------------------------------------------

  /** The condition of `stop_sim` for one car: empty, at rest, at a whole floor. */
  predicate AtRest(e: Elevator)
    reads e
  {
    e.passengers == [] && e.velocity == 0.0 && e.currentFloor == Trunc(e.currentFloor) as real
  }

  /**
   * The floor at which a car serves a stop after the physics step `r`
   * (simulation.py:160): it stands still and its doors were open or it is at
   * its first target, taken as the truncated position.
   */
  function StopFloor(doorsOpen: bool, targets: seq<int>, r: StepResult): (stop: Option<int>)
    ensures stop.Some? <==> !r.moving && (doorsOpen || (targets != [] && targets[0] == Trunc(r.motion.floor)))
    ensures stop.Some? ==> stop.value == Trunc(r.motion.floor)
  {
    var f := Trunc(r.motion.floor);
    if !r.moving && (doorsOpen || (targets != [] && targets[0] == f)) then Some(f) else None
  }

  /** The sum of `people_transported` over the cars. */
  function TransportedSum(es: seq<Elevator>): nat
    reads es
    decreases |es|
  {
    if es == [] then 0 else TransportedSum(es[..|es| - 1]) + es[|es| - 1].peopleTransported
  }

  /** Every rider aboard some car of `es`. */
  ghost function Aboard(es: seq<Elevator>): set<PersonId>
    reads set e | e in es :: e`passengers
  {
    set e, pid | e in es && pid in e.passengers :: pid
  }

  /**
   * A car after a fire tick: the lobby is its only target, and its doors
   * are open only at the lobby, with nobody left inside.
   */
  predicate Recalled(e: Elevator)
    reads e
  {
    e.targets == [1] && (e.doorsOpen ==> e.currentFloor == 1.0 && e.passengers == [])
  }

  /** What `get_stats` reports, the cars' own counters aside. */
  datatype Stats = Stats(totalTransported: nat, fireAlarms: nat, fireDuration: real, simTime: real)

  // ---------------------------------------------------------------------------
  // Simulation (simulation.py:9-245)
  // ---------------------------------------------------------------------------

  class Simulation {
    const building: Building
    const controller: Controller

    /** `_stop_event` is set. */
    var stopRequested: bool
    /** `_pause_event` is set: the loop is not paused. */
    var running: bool
    /** `sim_time_accumulator`: the scaled time the scenario runs on. */
    var simTime: real
    /** The sorted scenario and the index of its next unprocessed event (`scenario_idx`). */
    var scenario: seq<Event>
    var cursor: nat

    var fireAlarm: bool
    var fireStartTime: Option<real>
    var totalFireDuration: real
    var fireAlarmsCount: nat

    ghost predicate Valid()
      reads this, building, building.elevators
    {
      && building.Valid()
      && SortedBy(scenario, EventTime)
    }

    constructor (building: Building, controller: Controller)
      requires building.Valid()
      ensures Valid()
      ensures this.building == building && this.controller == controller
      ensures !stopRequested && running && simTime == 0.0 && scenario == [] && cursor == 0
      ensures !fireAlarm && fireStartTime == None && totalFireDuration == 0.0 && fireAlarmsCount == 0
    {
      this.building := building;
      this.controller := controller;
      stopRequested := false;
      running := true;
      simTime := 0.0;
      scenario := [];
      cursor := 0;
      fireAlarm := false;
      fireStartTime := None;
      totalFireDuration := 0.0;
      fireAlarmsCount := 0;
    }

    function AlarmState(): Alarm
      reads this
    {
      Alarm(fireAlarm, fireStartTime, totalFireDuration, fireAlarmsCount)
    }

    /** The part of the state the scenario events act on. */
    function Current(): World
      reads this, building
    {
      World(building.people, building.persons, building.nextId, AlarmState())
    }

    /** `load_scenario`: the events sorted by time, stably; the cursor is left where it is. */
    method LoadScenario(events: seq<Event>)
      requires Valid()
      modifies this`scenario
      ensures Valid()
      ensures scenario == SortBy(events, EventTime)
      ensures multiset(scenario) == multiset(events) && SortedBy(scenario, EventTime)
    {
      scenario := SortBy(events, EventTime);
    }

    /** `trigger_fire` at time `now`. */
    method TriggerFire(now: real)
      modifies this`fireAlarm, this`fireStartTime, this`fireAlarmsCount
      ensures AlarmState() == Triggered(old(AlarmState()), now)
    {
      if !fireAlarm {
        fireAlarm := true;
        fireStartTime := Some(now);
        fireAlarmsCount := fireAlarmsCount + 1;
      }
    }

    /** `stop_fire` at time `now`. */
    method StopFire(now: real)
      modifies this`fireAlarm, this`fireStartTime, this`totalFireDuration
      ensures AlarmState() == Stopped(old(AlarmState()), now)
    {
      if fireAlarm {
        fireAlarm := false;
        if Truthy(fireStartTime) {
          totalFireDuration := totalFireDuration + (now - fireStartTime.value);
          fireStartTime := None;
        }
      }
    }

    /** The loop of a spawn event: `count` new riders at `floor`, on the roster and in no queue. */
    method Spawn(count: int, floor: int, now: real)
      requires building.Valid()
      modifies building`people, building`persons, building`nextId
      ensures building.Valid()
      ensures Current() == Spawned(old(Current()), count, floor, now)
    {
      ghost var w0 := Current();
      var n := if count > 0 then count else 0;
      for j := 0 to n
        invariant building.Valid()
        invariant Current() == Spawned(w0, j, floor, now)
      {
        var pid := building.CreatePerson(floor, now);
        assert pid !in building.people;
        building.AddPerson(pid);
      }
    }

    /** `_process_event` at time `now`. */
    method ProcessEvent(ev: Event, now: real)
      requires building.Valid()
      modifies this`fireAlarm, this`fireStartTime, this`totalFireDuration, this`fireAlarmsCount
      modifies building`people, building`persons, building`nextId
      ensures building.Valid()
      ensures Current() == ApplyEvent(old(Current()), ev, now)
    {
      if ev.action == "spawn" {
        Spawn(ev.count.GetOr(1), ev.floor.GetOr(1), now);
      } else if ev.action == "fire_start" {
        TriggerFire(now);
      } else if ev.action == "fire_end" {
        StopFire(now);
      }
    }

    /**
     * Step 1 of a tick: process, in order, the events from the cursor on whose
     * time has come, and stop at the first one still in the future.
     */
    method DrainScenario(now: real)
      requires building.Valid()
      modifies this`cursor, this`fireAlarm, this`fireStartTime, this`totalFireDuration, this`fireAlarmsCount
      modifies building`people, building`persons, building`nextId
      ensures building.Valid()
      ensures old(cursor) > |scenario| ==> cursor == old(cursor) && Current() == old(Current())
      ensures old(cursor) <= |scenario| ==>
        && old(cursor) <= cursor <= |scenario|
        && (forall k :: old(cursor) <= k < cursor ==> scenario[k].time <= simTime)
        && (cursor == |scenario| || scenario[cursor].time > simTime)
        && Current() == ApplyRange(old(Current()), scenario, old(cursor), cursor, now)
    {
      ghost var c0 := cursor;
      ghost var w0 := Current();
      var events, clock := scenario, simTime;
      while cursor < |events|
        invariant building.Valid() && c0 <= cursor
        invariant events == scenario && clock == simTime
        invariant c0 > |events| ==> cursor == c0 && Current() == w0
        invariant c0 <= |events| ==>
          && cursor <= |events|
          && (forall k :: c0 <= k < cursor ==> events[k].time <= clock)
          && Current() == ApplyRange(w0, events, c0, cursor, now)
        decreases |events| - cursor
      {
        var ev := events[cursor];
        if ev.time <= clock {
          ProcessEvent(ev, now);
          cursor := cursor + 1;
        } else {
          break;
        }
      }
    }

    function Riders(): Crowd
      reads building
    {
      Crowd(building.people, building.persons, building.queues)
    }

    /**
     * A rider whose decision time has come picks a target and joins the back of
     * its origin's queue; a missing queue raises `KeyError(origin)` after the
     * pick has been stored, as the Python statement order does.
     */
    method DecideRider(pid: PersonId, now: real) returns (outcome: Outcome)
      requires building.Valid() && pid in building.persons
      modifies building`persons, building`queues
      ensures building.Valid()
      ensures building.persons.Keys == old(building.persons).Keys
      ensures DecidedFrom(old(building.persons)[pid], building.persons[pid], building.numFloors, now)
      ensures building.persons == old(building.persons)[pid := building.persons[pid]]
      ensures var origin := old(building.persons)[pid].origin;
        if origin in old(building.queues)
        then outcome == Done && building.queues == old(building.queues)[origin := old(building.queues)[origin] + [pid]]
        else outcome == Raised(KeyError(origin)) && building.queues == old(building.queues)
    {
      var p := building.persons[pid];
      var q := ChooseTarget(p, building.numFloors, now);
      building.persons := building.persons[pid := q];
      if p.origin !in building.queues {
        return Raised(KeyError(p.origin));
      }
      building.queues := building.queues[p.origin := building.queues[p.origin] + [pid]];
      outcome := Done;
    }

    /** `people.remove(p)`. */
    method DropRider(pid: PersonId)
      requires building.Valid()
      modifies building`people
      ensures building.Valid()
      ensures building.people == RemoveFirst(old(building.people), pid)
    {
      NoDupRemoveFirst(building.people, pid);
      building.people := RemoveFirst(building.people, pid);
    }

    /** The body of the rider loop for one rider of the copied roster. */
    method AdvanceRider(pid: PersonId, now: real, speed: real) returns (outcome: Outcome)
      requires building.Valid() && pid in building.persons
      modifies building`people, building`persons, building`queues
      ensures building.Valid()
      ensures outcome.Raised? <==> Stranded(pid, old(building.persons), old(building.queues), now, speed)
      ensures outcome.Raised? ==> outcome.fault == KeyError(old(building.persons)[pid].origin)
      ensures outcome.Done? ==> RiderStep(pid, old(Riders()), Riders(), building.numFloors, now, speed)
    {
      var p := building.persons[pid];
      outcome := Done;
      if p.state == Choosing {
        if (now - p.createdAt) * speed >= 3.0 {
          outcome := DecideRider(pid, now);
        }
      } else if p.state == Delivered && Truthy(p.deliveredAt) {
        if (now - p.deliveredAt.value) * speed >= 3.0 {
          DropRider(pid);
        }
      } else if p.state == Evacuated {
        if (now - p.deliveredAt.value) * speed >= 3.0 {
          DropRider(pid);
        }
      }
    }

    /**
     * Step 2 of a tick, over a copy of the roster: deciding riders whose scaled
     * age reaches 3 seconds pick a target and queue at their origin, delivered
     * and evacuated riders 3 scaled seconds past their stamp leave the roster.
     * The step raises exactly when some deciding rider's origin has no queue.
     */
    method AdvancePersons(now: real, speed: real) returns (outcome: Outcome)
      requires building.Valid()
      modifies building`people, building`persons, building`queues
      ensures building.Valid()
      ensures outcome.Done? <==>
        forall pid :: pid in old(building.people) ==>
          !Stranded(pid, old(building.persons), old(building.queues), now, speed)
      ensures outcome.Raised? ==> outcome.fault.KeyError? && outcome.fault.key !in building.queues
      ensures outcome.Done? ==>
        AdvancedTo(old(building.persons), old(building.queues), old(building.people), |old(building.people)|,
                   Riders(), building.numFloors, now, speed)
    {
      var roster := building.people;
      ghost var P0 := building.persons;
      ghost var Q0 := building.queues;
      for i := 0 to |roster|
        invariant building.Valid()
        invariant AdvancedTo(P0, Q0, roster, i, Riders(), building.numFloors, now, speed)
      {
        var pid := roster[i];
        ghost var c := Riders();
        AdvanceFront(P0, Q0, roster, i, c, building.numFloors, now, speed);
        outcome := AdvanceRider(pid, now, speed);
        if outcome.Raised? {
          assert pid in old(building.people);
          return;
        }
        AdvanceStep(P0, Q0, roster, i, c, Riders(), building.numFloors, now, speed);
      }
      outcome := Done;
    }

    function StopView(e: Elevator): Stop
      reads e, building
    {
      Stop(e.passengers, e.peopleTransported, e.targets, building.persons, building.queues)
    }

    function Cab(e: Elevator): Cabin
      reads e, building
    {
      Cabin(e.passengers, e.peopleTransported, building.persons)
    }

    /** The unload loop's body for passenger `pid`: off the car, counted and stamped delivered if bound for `floor`. */
    method UnloadOne(e: Elevator, pid: PersonId, floor: int, now: real)
      requires building.Valid() && e in building.elevators && pid in e.passengers
      modifies e`passengers, e`peopleTransported, building`persons
      ensures building.Valid()
      ensures UnloadStepped(pid, floor, now, old(Cab(e)), Cab(e))
    {
      var p := building.persons[pid];
      if p.target == Some(floor) {
        ApplyFacts(p, ToDelivered, now, building.numFloors);
        RemoveFirstIn(e.passengers, pid);
        e.passengers := RemoveFirst(e.passengers, pid);
        e.peopleTransported := e.peopleTransported + 1;
        building.persons := building.persons[pid := Apply(p, ToDelivered, now)];
      }
    }

    /**
     * The unload loop at `floor`, over a copy of the passenger list: exactly
     * the passengers bound for `floor` leave, in place, each one counted and
     * stamped delivered at `now`.
     */
    method Unload(e: Elevator, floor: int, now: real)
      requires building.Valid() && e in building.elevators
      modifies e`passengers, e`peopleTransported, building`persons
      ensures building.Valid()
      ensures e.passengers == Filter(old(e.passengers), StaysAboard(old(building.persons), floor))
      ensures e.peopleTransported + |e.passengers| == old(e.peopleTransported) + |old(e.passengers)|
      ensures building.persons ==
        Marked(old(building.persons), Alighting(old(e.passengers), old(building.persons), floor), ToDelivered, now)
    {
      var ps := e.passengers;
      ghost var P0 := building.persons;
      ghost var T0 := e.peopleTransported;
      for i := 0 to |ps|
        invariant building.Valid()
        invariant UnloadedTo(ps, i, P0, T0, floor, now, Cab(e))
      {
        var pid := ps[i];
        UnloadFront(ps, i, P0, T0, floor, now, Cab(e));
        ghost var c := Cab(e);
        UnloadOne(e, pid, floor, now);
        UnloadStep(ps, i, P0, T0, floor, now, c, Cab(e));
      }
      assert ps[..|ps|] == ps;
    }

    function Boards(e: Elevator, floor: int): Boarding
      reads e, building
    {
      Boarding(if floor in building.queues then building.queues[floor] else [], e.passengers, e.targets,
               building.persons)
    }

    /** `queue.pop(0)` and the in-elevator stamp on the rider it returns. */
    method TakeFront(floor: int, now: real) returns (pid: PersonId)
      requires building.Valid() && floor in building.queues && building.queues[floor] != []
      modifies building`queues, building`persons
      ensures building.Valid() && floor in building.queues
      ensures pid == old(building.queues[floor][0]) && pid in old(building.persons)
      ensures building.queues == old(building.queues)[floor := old(building.queues[floor][1..])]
      ensures building.persons == old(building.persons)[pid := Apply(old(building.persons)[pid], ToInElevator, now)]
    {
      var queue := building.queues[floor];
      pid := queue[0];
      building.queues := building.queues[floor := queue[1..]];
      var p := building.persons[pid];
      ApplyFacts(p, ToInElevator, now, building.numFloors);
      building.persons := building.persons[pid := Apply(p, ToInElevator, now)];
    }

    /** The boarding loop's body: the front rider of `floor`'s queue enters and adds its target. */
    method BoardOne(e: Elevator, floor: int, now: real)
      requires building.Valid() && e in building.elevators
      requires floor in building.queues && building.queues[floor] != [] && |e.passengers| < e.capacity
      modifies e`passengers, e`targets, building`queues, building`persons
      ensures building.Valid() && floor in building.queues
      ensures BoardStepped(e.direction, e.currentFloor, now, old(Boards(e, floor)), Boards(e, floor))
      ensures building.queues == old(building.queues)[floor := building.queues[floor]]
    {
      var pid := TakeFront(floor, now);
      var p := building.persons[pid];
      Embark(e, pid);
      if HasTarget(p) {
        AddCarTarget(e, p.target.value);
      }
    }

    /** `elevator.passengers.append(pid)` for a stored rider and a car with room. */
    method Embark(e: Elevator, pid: PersonId)
      requires building.Valid() && e in building.elevators
      requires pid in building.persons && |e.passengers| < e.capacity
      modifies e`passengers
      ensures building.Valid() && e.passengers == old(e.passengers) + [pid]
    {
      e.passengers := e.passengers + [pid];
    }

    /** `elevator.add_target(floor)` on a car of the building. */
    method AddCarTarget(e: Elevator, floor: int)
      requires building.Valid() && e in building.elevators
      modifies e`targets
      ensures building.Valid()
      ensures e.targets == AddedTargets(old(e.targets), floor, e.direction, e.currentFloor)
    {
      assert e.Valid() by {
        assert building.Valid();
      }
      e.AddTarget(floor);
    }

    /**
     * The boarding loop at `floor`: riders leave the front of the queue, in
     * order, while there are any and the car has room; each is stamped
     * in-elevator at `now` and adds its target. On return `j` riders have
     * boarded and the queue is empty or the car full.
     */
    method BoardLoop(e: Elevator, floor: int, now: real) returns (ghost j: nat)
      requires building.Valid() && e in building.elevators && floor in building.queues
      modifies e`passengers, e`targets, building`queues, building`persons
      ensures building.Valid() && floor in building.queues
      ensures BoardedTo(old(building.queues[floor]), old(e.passengers), old(e.targets), old(building.persons),
                        e.direction, e.currentFloor, now, j, Boards(e, floor))
      ensures |e.passengers| <= e.capacity && (building.queues[floor] == [] || |e.passengers| == e.capacity)
      ensures building.queues == old(building.queues)[floor := building.queues[floor]]
    {
      assert e.Valid() by {
        assert building.Valid();
      }
      ghost var q0 := building.queues[floor];
      ghost var Q0 := building.queues;
      ghost var p0 := e.passengers;
      ghost var t0 := e.targets;
      ghost var P0 := building.persons;
      j := 0;
      while building.queues[floor] != [] && |e.passengers| < e.capacity
        invariant building.Valid() && floor in building.queues
        invariant BoardedTo(q0, p0, t0, P0, e.direction, e.currentFloor, now, j, Boards(e, floor))
        invariant building.queues == Q0[floor := building.queues[floor]]
        invariant forall pid :: pid in q0 ==> pid in P0
        invariant |e.passengers| <= e.capacity
        decreases |building.queues[floor]|
      {
        ghost var c := Boards(e, floor);
        ghost var Q := building.queues;
        BoardOne(e, floor, now);
        BoardStep(q0, p0, t0, P0, e.direction, e.currentFloor, now, j, c, Boards(e, floor));
        UpdateTwice(Q0, floor, Q[floor], building.queues[floor]);
        j := j + 1;
      }
    }

    /** The boarding half of a stop: as many board as min(queue length, free places). */
    method Board(e: Elevator, floor: int, now: real)
      requires building.Valid() && e in building.elevators && floor in building.queues
      modifies e`passengers, e`targets, building`queues, building`persons
      ensures building.Valid()
      ensures StopView(e) == AfterBoarding(old(StopView(e)), floor, e.capacity, e.direction, e.currentFloor, now)
    {
      ghost var S0 := StopView(e);
      ghost var j := BoardLoop(e, floor, now);
      BoardedAll(S0, floor, e.capacity, e.direction, e.currentFloor, now, j, Boards(e, floor), StopView(e));
    }

    /** `e.open_doors()` on a car of the building. */
    method OpenCar(e: Elevator)
      requires building.Valid() && e in building.elevators
      modifies e`doorsOpen, e`trips, e`emptyTrips
      ensures building.Valid() && e.doorsOpen
      ensures old(e.doorsOpen) ==> e.trips == old(e.trips) && e.emptyTrips == old(e.emptyTrips)
      ensures !old(e.doorsOpen) ==>
        e.trips == old(e.trips) + 1 && e.emptyTrips == old(e.emptyTrips) + (if e.passengers == [] then 1 else 0)
    {
      e.OpenDoors();
    }

    /** `e.close_doors()` on a car of the building. */
    method CloseCar(e: Elevator)
      requires building.Valid() && e in building.elevators
      modifies e`doorsOpen
      ensures building.Valid() && !e.doorsOpen
    {
      e.CloseDoors();
    }

    /** `if floor in e.targets: e.targets.remove(floor)` on a car of the building. */
    method DropCarTarget(e: Elevator, floor: int)
      requires building.Valid() && e in building.elevators
      modifies e`targets
      ensures building.Valid()
      ensures e.targets == RemoveFirst(old(e.targets), floor)
    {
      e.DropTarget(floor);
    }

    /**
     * The first half of a stop at `floor`: open the doors if closed, unload
     * the passengers bound for `floor`, drop `floor` from the targets.
     */
    method ArriveAt(e: Elevator, floor: int, now: real)
      requires building.Valid() && e in building.elevators
      modifies e`doorsOpen, e`trips, e`emptyTrips, e`passengers, e`peopleTransported, e`targets, building`persons
      ensures building.Valid() && e.doorsOpen
      ensures old(e.doorsOpen) ==> e.trips == old(e.trips) && e.emptyTrips == old(e.emptyTrips)
      ensures !old(e.doorsOpen) ==>
        e.trips == old(e.trips) + 1 && e.emptyTrips == old(e.emptyTrips) + (if old(e.passengers) == [] then 1 else 0)
      ensures StopView(e) == AfterArrival(old(StopView(e)), floor, now)
    {
      if !e.doorsOpen {
        OpenCar(e);
      }
      Alight(e, floor, now);
    }

    /** Unloading at `floor` and dropping `floor` from the targets, as one step on the stop view. */
    method Alight(e: Elevator, floor: int, now: real)
      requires building.Valid() && e in building.elevators
      modifies e`passengers, e`peopleTransported, e`targets, building`persons
      ensures building.Valid()
      ensures StopView(e) == AfterArrival(old(StopView(e)), floor, now)
    {
      Unload(e, floor, now);
      DropCarTarget(e, floor);
    }

    /**
     * The stop at `floor` of `_handle_normal_elevator_logic`: open the doors if
     * closed, unload the passengers bound for `floor`, drop `floor` from the
     * targets, board from the front of the floor's queue up to capacity, close
     * the doors. A floor without a queue raises `KeyError(floor)` after the
     * unload, with the doors left open.
     */
    method ServeStop(e: Elevator, floor: int, now: real) returns (outcome: Outcome)
      requires building.Valid() && e in building.elevators
      modifies e`doorsOpen, e`trips, e`emptyTrips, e`passengers, e`peopleTransported, e`targets
      modifies building`queues, building`persons
      ensures building.Valid()
      ensures outcome == if floor in old(building.queues) then Done else Raised(KeyError(floor))
      ensures e.doorsOpen <==> outcome.Raised?
      ensures old(e.doorsOpen) ==> e.trips == old(e.trips) && e.emptyTrips == old(e.emptyTrips)
      ensures !old(e.doorsOpen) ==>
        e.trips == old(e.trips) + 1 && e.emptyTrips == old(e.emptyTrips) + (if old(e.passengers) == [] then 1 else 0)
      ensures var arrived := AfterArrival(old(StopView(e)), floor, now);
        StopView(e) ==
          if floor in arrived.queues then AfterBoarding(arrived, floor, e.capacity, e.direction, e.currentFloor, now)
          else arrived
    {
      ArriveAt(e, floor, now);
      if floor !in building.queues {
        return Raised(KeyError(floor));
      }
      Board(e, floor, now);
      CloseCar(e);
      outcome := Done;
    }

    /**
     * One car of `_handle_normal_elevator_logic`: a physics step, then the stop
     * handling at the car's floor when it is stopped with its doors open or at
     * its first target. A car that gets through ends with its doors closed.
     */
    method ServeElevator(e: Elevator, dt: real, now: real) returns (outcome: Outcome, ghost stop: Option<int>)
      requires building.Valid() && e in building.elevators
      modifies e, building`queues, building`persons
      ensures building.Valid()
      ensures outcome.Done? ==> !e.doorsOpen
      ensures outcome.Raised? ==> outcome.fault.KeyError? && outcome.fault.key !in building.queues
      ensures var r := Step(old(e.Kinematics()), old(e.doorsOpen), old(e.targets), e.maxSpeed, e.maxAccel, dt);
        e.Kinematics() == r.motion && stop == StopFloor(old(e.doorsOpen), old(e.targets), r)
      ensures stop.None? ==>
        && outcome == Done && !e.doorsOpen && StopView(e) == old(StopView(e))
        && e.trips == old(e.trips) && e.emptyTrips == old(e.emptyTrips)
      ensures stop.Some? ==> outcome == if stop.value in old(building.queues) then Done else Raised(KeyError(stop.value))
      ensures stop.Some? ==> (e.doorsOpen <==> outcome.Raised?)
      ensures stop.Some? && old(e.doorsOpen) ==> e.trips == old(e.trips) && e.emptyTrips == old(e.emptyTrips)
      ensures stop.Some? && !old(e.doorsOpen) ==>
        e.trips == old(e.trips) + 1 && e.emptyTrips == old(e.emptyTrips) + (if old(e.passengers) == [] then 1 else 0)
      ensures stop.Some? ==>
        var arrived := AfterArrival(old(StopView(e)), stop.value, now);
        StopView(e) ==
          if stop.value in arrived.queues then AfterBoarding(arrived, stop.value, e.capacity, e.direction, e.currentFloor, now)
          else arrived
    {
      var moving := e.UpdatePhysics(dt);
      var floor := Trunc(e.currentFloor);
      if !moving && (e.doorsOpen || (e.targets != [] && e.targets[0] == floor)) {
        stop := Some(floor);
        outcome := ServeStop(e, floor, now);
      } else {
        stop := None;
        outcome := Done;
      }
    }

    /** The loop body of `_handle_normal_elevator_logic`: `ServeElevator`, keeping what the loop needs. */
    method ServeCar(e: Elevator, dt: real, now: real) returns (outcome: Outcome)
      requires building.Valid() && e in building.elevators
      modifies e, building`queues, building`persons
      ensures building.Valid()
      ensures outcome.Done? ==> !e.doorsOpen
      ensures outcome.Raised? ==> outcome.fault.KeyError? && outcome.fault.key !in building.queues
    {
      ghost var stop;
      outcome, stop := ServeElevator(e, dt, now);
    }

    /** `_handle_normal_elevator_logic`: every car in list order; a `KeyError` ends the tick. */
    method NormalLogic(dt: real, now: real) returns (outcome: Outcome)
      requires building.Valid()
      modifies building.elevators, building`queues, building`persons
      ensures building.Valid()
      ensures outcome.Done? ==> forall i :: 0 <= i < |building.elevators| ==> !building.elevators[i].doorsOpen
      ensures outcome.Raised? ==> outcome.fault.KeyError? && outcome.fault.key !in building.queues
    {
      var es := building.elevators;
      for i := 0 to |es|
        invariant building.Valid()
        invariant forall k :: 0 <= k < i ==> !es[k].doorsOpen
      {
        outcome := ServeCar(es[i], dt, now);
        if outcome.Raised? {
          return;
        }
      }
      outcome := Done;
    }

    function Exits(e: Elevator): Exit
      reads e, building
    {
      Exit(e.passengers, building.people, building.persons)
    }

    /** `p.state = "evacuated"; p.delivered_at = now` on a stored rider. */
    method MarkEvacuated(pid: PersonId, now: real)
      requires building.Valid() && pid in building.persons
      modifies building`persons
      ensures building.Valid()
      ensures building.persons == old(building.persons)[pid := Apply(old(building.persons)[pid], ToEvacuated, now)]
    {
      var p := building.persons[pid];
      ApplyFacts(p, ToEvacuated, now, building.numFloors);
      building.persons := building.persons[pid := Apply(p, ToEvacuated, now)];
    }

    /** `e.passengers.remove(p)` for a passenger. */
    method LeaveCar(e: Elevator, pid: PersonId)
      requires building.Valid() && e in building.elevators
      modifies e`passengers
      ensures building.Valid() && e.passengers == RemoveFirst(old(e.passengers), pid)
    {
      RemoveFirstIn(e.passengers, pid);
      e.passengers := RemoveFirst(e.passengers, pid);
    }

    /** `people.remove(p); people.append(p)`: `ValueError` when `p` is not on the roster. */
    method MoveToBack(pid: PersonId) returns (outcome: Outcome)
      requires building.Valid() && pid in building.persons
      modifies building`people
      ensures building.Valid()
      ensures outcome == if pid in old(building.people) then Done else Raised(ValueError)
      ensures outcome.Done? ==> building.people == RemoveFirst(old(building.people), pid) + [pid]
      ensures multiset(building.people) == multiset(old(building.people))
    {
      if pid !in building.people {
        return Raised(ValueError);
      }
      NoDupRemoveFirst(building.people, pid);
      NoDupSnoc(RemoveFirst(building.people, pid), pid);
      building.people := RemoveFirst(building.people, pid) + [pid];
      outcome := Done;
    }

    /** The evacuation loop's body for passenger `pid`. */
    method EvacuateOne(e: Elevator, pid: PersonId, now: real) returns (outcome: Outcome)
      requires building.Valid() && e in building.elevators && pid in e.passengers
      modifies e`passengers, building`people, building`persons
      ensures building.Valid()
      ensures outcome == if pid in old(building.people) then Done else Raised(ValueError)
      ensures outcome.Done? ==> ExitStepped(pid, now, old(Exits(e)), Exits(e))
      ensures multiset(building.people) == multiset(old(building.people))
      ensures building.persons == old(building.persons)[pid := Apply(old(building.persons)[pid], ToEvacuated, now)]
      ensures e.passengers == RemoveFirst(old(e.passengers), pid)
    {
      assert pid in building.persons by {
        assert building.Riding();
      }
      MarkEvacuated(pid, now);
      LeaveCar(e, pid);
      outcome := MoveToBack(pid);
    }

    /**
     * The evacuation of a car standing open at the lobby: over a snapshot of
     * its passengers, each is stamped evacuated at `now`, leaves the car and
     * is moved to the end of the roster. A passenger missing from the roster
     * raises `ValueError`.
     */
    method Evacuate(e: Elevator, now: real) returns (outcome: Outcome)
      requires building.Valid() && e in building.elevators
      modifies e`passengers, building`people, building`persons
      ensures building.Valid()
      ensures outcome == if forall pid :: pid in old(e.passengers) ==> pid in old(building.people) then Done
                         else Raised(ValueError)
      ensures outcome.Done? ==>
        && e.passengers == []
        && building.people == MovedBack(old(building.people), old(e.passengers))
        && building.persons == Marked(old(building.persons), Elems(old(e.passengers)), ToEvacuated, now)
      ensures multiset(building.people) == multiset(old(building.people))
      ensures building.persons.Keys == old(building.persons).Keys
      ensures forall pid :: pid in old(building.persons) && pid !in old(e.passengers) ==>
        building.persons[pid] == old(building.persons)[pid]
      ensures IsSuffix(e.passengers, old(e.passengers))
    {
      var ps := e.passengers;
      ghost var L0 := building.people;
      ghost var P0 := building.persons;
      assert forall pid :: pid in ps ==> pid in P0 by {
        assert building.Riding();
      }
      for i := 0 to |ps|
        invariant building.Valid()
        invariant EvacuatedTo(ps, i, L0, P0, now, Exits(e))
      {
        var pid := ps[i];
        ExitFront(ps, i, L0, P0, now, Exits(e));
        ghost var c := Exits(e);
        outcome := EvacuateOne(e, pid, now);
        if outcome.Raised? {
          RaisedKeeps(ps, i, L0, P0, now, c, Exits(e));
          return;
        }
        ExitStep(ps, i, L0, P0, now, c, Exits(e));
      }
      assert ps[..|ps|] == ps;
      EvacuatedKeeps(ps, |ps|, L0, P0, now, Exits(e));
      StillAboard(ps, |ps|, e.passengers);
      outcome := Done;
    }

    /** `e.clear_targets(); e.add_target(1)`: the lobby becomes the only target. */
    method Recall(e: Elevator)
      requires building.Valid() && e in building.elevators
      modifies e`targets
      ensures building.Valid() && e.targets == [1]
    {
      e.ClearTargets();
      SingleTarget(1, e.direction, e.currentFloor);
      AddCarTarget(e, 1);
    }

    /**
     * The approach of a car under the fire alarm: recalled to the lobby,
     * doors forced shut away from it, one physics step. Open doors are left
     * only at the lobby, on a car that stands still.
     */
    method FireApproach(e: Elevator, dt: real) returns (moving: bool)
      requires building.Valid() && e in building.elevators
      modifies e`targets, e`doorsOpen, e`currentFloor, e`velocity, e`direction
      ensures building.Valid() && e.targets == [1]
      ensures e.doorsOpen ==> e.currentFloor == 1.0 && !moving
      ensures e.doorsOpen == (old(e.doorsOpen) && old(e.currentFloor) == 1.0)
      ensures StepResult(e.Kinematics(), moving) == Step(old(e.Kinematics()), e.doorsOpen, [1], e.maxSpeed, e.maxAccel, dt)
    {
      Recall(e);
      if e.currentFloor != 1.0 && e.doorsOpen {
        CloseCar(e);
      }
      assert e.Valid() by {
        assert building.Valid();
      }
      moving := e.UpdatePhysics(dt);
    }

    /** `e.open_doors()` and the evacuation of every passenger. */
    method LobbyEvacuate(e: Elevator, now: real) returns (outcome: Outcome)
      requires building.Valid() && e in building.elevators
      modifies e`doorsOpen, e`trips, e`emptyTrips, e`passengers, building`people, building`persons
      ensures building.Valid() && e.doorsOpen
      ensures old(e.doorsOpen) ==> e.trips == old(e.trips) && e.emptyTrips == old(e.emptyTrips)
      ensures !old(e.doorsOpen) ==>
        e.trips == old(e.trips) + 1 && e.emptyTrips == old(e.emptyTrips) + (if old(e.passengers) == [] then 1 else 0)
      ensures outcome == if forall pid :: pid in old(e.passengers) ==> pid in old(building.people) then Done
                         else Raised(ValueError)
      ensures outcome.Done? ==>
        && e.passengers == []
        && building.people == MovedBack(old(building.people), old(e.passengers))
        && building.persons == Marked(old(building.persons), Elems(old(e.passengers)), ToEvacuated, now)
      ensures multiset(building.people) == multiset(old(building.people))
      ensures building.persons.Keys == old(building.persons).Keys
      ensures forall pid :: pid in old(building.persons) && pid !in old(e.passengers) ==>
        building.persons[pid] == old(building.persons)[pid]
    {
      OpenCar(e);
      outcome := Evacuate(e, now);
    }

    /**
     * One car under the fire alarm: the approach, and on standing at the
     * lobby the doors open and every passenger is evacuated.
     */
    method FireElevator(e: Elevator, dt: real, now: real) returns (outcome: Outcome)
      requires building.Valid() && e in building.elevators
      modifies e, building`people, building`persons
      ensures building.Valid() && e.targets == [1]
      ensures outcome.Raised? ==> outcome.fault == ValueError
      ensures e.doorsOpen ==> e.currentFloor == 1.0
      ensures e.doorsOpen && outcome.Done? ==>
        && e.passengers == []
        && building.people == MovedBack(old(building.people), old(e.passengers))
        && building.persons == Marked(old(building.persons), Elems(old(e.passengers)), ToEvacuated, now)
      ensures !e.doorsOpen ==>
        outcome == Done && building.people == old(building.people) && building.persons == old(building.persons)
      ensures !e.doorsOpen ==> e.passengers == old(e.passengers)
      ensures e.peopleTransported == old(e.peopleTransported)
      ensures multiset(building.people) == multiset(old(building.people))
      ensures building.persons.Keys == old(building.persons).Keys
      ensures forall pid :: pid in old(building.persons) && pid !in old(e.passengers) ==>
        building.persons[pid] == old(building.persons)[pid]
      ensures var kept := old(e.doorsOpen) && old(e.currentFloor) == 1.0;
        var r := Step(old(e.Kinematics()), kept, [1], e.maxSpeed, e.maxAccel, dt);
        e.Kinematics() == r.motion && (e.doorsOpen <==> !r.moving && r.motion.floor == 1.0)
      ensures var justOpened := e.doorsOpen && !(old(e.doorsOpen) && old(e.currentFloor) == 1.0);
        && (justOpened ==> e.trips == old(e.trips) + 1 &&
                           e.emptyTrips == old(e.emptyTrips) + (if old(e.passengers) == [] then 1 else 0))
        && (!justOpened ==> e.trips == old(e.trips) && e.emptyTrips == old(e.emptyTrips))
    {
      var moving := FireApproach(e, dt);
      if !moving && e.currentFloor == 1.0 {
        outcome := LobbyEvacuate(e, now);
      } else {
        outcome := Done;
      }
    }

    /** `queue.pop()` on floor `f`'s queue and the evacuated stamp on the rider it returns. */
    method PopEvacuated(f: int, now: real) returns (pid: PersonId)
      requires building.Valid() && f in building.queues && building.queues[f] != []
      modifies building`queues, building`persons
      ensures building.Valid() && f in building.queues
      ensures var q := old(building.queues[f]);
        && pid == q[|q| - 1]
        && building.queues == old(building.queues)[f := q[..|q| - 1]]
      ensures pid in old(building.persons)
      ensures building.persons == old(building.persons)[pid := Apply(old(building.persons)[pid], ToEvacuated, now)]
    {
      var queue := building.queues[f];
      pid := queue[|queue| - 1];
      building.queues := building.queues[f := queue[..|queue| - 1]];
      var p := building.persons[pid];
      ApplyFacts(p, ToEvacuated, now, building.numFloors);
      building.persons := building.persons[pid := Apply(p, ToEvacuated, now)];
    }

    /** `while queue: queue.pop()` on floor `f`, stamping each rider evacuated. */
    method DrainFloor(f: int, now: real)
      requires building.Valid() && f in building.queues
      modifies building`queues, building`persons
      ensures building.Valid()
      ensures building.queues == old(building.queues)[f := []]
      ensures building.persons == Marked(old(building.persons), Elems(old(building.queues[f])), ToEvacuated, now)
    {
      ghost var q0 := building.queues[f];
      ghost var Q := building.queues;
      ghost var P := building.persons;
      while building.queues[f] != []
        invariant building.Valid() && f in building.queues
        invariant |building.queues[f]| <= |q0| && building.queues[f] == q0[..|building.queues[f]|]
        invariant building.queues == Q[f := building.queues[f]]
        invariant building.persons == Marked(P, Elems(q0[|building.queues[f]|..]), ToEvacuated, now)
        decreases |building.queues[f]|
      {
        ghost var k := |building.queues[f]|;
        ghost var cur := building.queues;
        ghost var pers := building.persons;
        var pid := PopEvacuated(f, now);
        assert pid == q0[k - 1];
        assert Elems(q0[k - 1..]) == Elems(q0[k..]) + {pid} by {
          assert q0[k - 1..] == [pid] + q0[k..];
        }
        MarkedAdd(P, Elems(q0[k..]), pid, pers, ToEvacuated, now);
        UpdateTwice(Q, f, cur[f], building.queues[f]);
      }
      assert q0[0..] == q0;
    }

    /** The floor queues of `_handle_fire_logic`: each floor in turn is drained. */
    method FireDrain(now: real)
      requires building.Valid()
      modifies building`queues, building`persons
      ensures building.Valid()
      ensures building.queues == map f | f in old(building.queues) :: []
      ensures building.persons == Marked(old(building.persons), QueuedRiders(old(building.queues)), ToEvacuated, now)
    {
      ghost var Q0 := building.queues;
      ghost var P0 := building.persons;
      var f := 1;
      while f <= building.numFloors
        invariant building.Valid() && 1 <= f
        invariant f <= building.numFloors + 1 || building.numFloors < 1
        invariant building.queues == ClearedBelow(Q0, f)
        invariant building.persons == Marked(P0, QueuedBelow(Q0, f), ToEvacuated, now)
        decreases building.numFloors - f
      {
        DrainStep(Q0, P0, f, now, building.queues, building.persons);
        DrainFloor(f, now);
        f := f + 1;
      }
      DrainedAll(Q0, f);
    }

    /**
     * `_handle_fire_logic`: every car in list order, then every floor's
     * queue. A `ValueError` from a car ends the tick before the queues are
     * drained.
     */
    /** One car of the fire pass, with what the pass over the fleet keeps track of. */
    method FireCar(e: Elevator, dt: real, now: real) returns (outcome: Outcome)
      requires building.Valid() && e in building.elevators
      modifies e, building`people, building`persons
      ensures building.Valid()
      ensures outcome.Raised? ==> outcome.fault == ValueError
      ensures outcome.Done? ==> Recalled(e)
      ensures multiset(building.people) == multiset(old(building.people))
      ensures building.persons.Keys == old(building.persons).Keys
      ensures forall pid :: pid in old(building.persons) && pid !in old(e.passengers) ==>
        building.persons[pid] == old(building.persons)[pid]
    {
      outcome := FireElevator(e, dt, now);
    }

    /** The cars of `_handle_fire_logic`, in list order; a `ValueError` stops the pass. */
    method FireCars(dt: real, now: real) returns (outcome: Outcome)
      requires building.Valid()
      modifies building.elevators, building`people, building`persons
      ensures building.Valid()
      ensures outcome.Raised? ==> outcome.fault == ValueError
      ensures outcome.Done? ==> forall i :: 0 <= i < |building.elevators| ==> Recalled(building.elevators[i])
      ensures multiset(building.people) == multiset(old(building.people))
      ensures building.persons.Keys == old(building.persons).Keys
      ensures forall pid :: pid in old(building.persons) && pid !in old(Aboard(building.elevators)) ==>
        building.persons[pid] == old(building.persons)[pid]
    {
      var es := building.elevators;
      ghost var A := Aboard(es);
      ghost var L0 := building.people;
      ghost var P0 := building.persons;
      for i := 0 to |es|
        invariant building.Valid()
        invariant forall k :: 0 <= k < i ==> Recalled(es[k])
        invariant forall k :: i <= k < |es| ==> es[k].passengers == old(es[k].passengers)
        invariant multiset(building.people) == multiset(L0)
        invariant building.persons.Keys == P0.Keys
        invariant forall pid :: pid in P0 && pid !in A ==> building.persons[pid] == P0[pid]
      {
        assert forall pid :: pid in es[i].passengers ==> pid in A;
        outcome := FireCar(es[i], dt, now);
        if outcome.Raised? {
          return;
        }
      }
      outcome := Done;
    }

    /**
     * `_handle_fire_logic`: every car in list order, then every floor's
     * queue. A `ValueError` from a car ends the tick before the queues are
     * drained.
     */
    method FireLogic(dt: real, now: real) returns (outcome: Outcome)
      requires building.Valid()
      modifies building.elevators, building`people, building`persons, building`queues
      ensures building.Valid()
      ensures outcome.Raised? ==> outcome.fault == ValueError && building.queues == old(building.queues)
      ensures outcome.Done? ==> forall i :: 0 <= i < |building.elevators| ==> Recalled(building.elevators[i])
      ensures outcome.Done? ==> building.queues == map f | f in old(building.queues) :: []
      ensures outcome.Done? ==>
        forall f, pid :: f in old(building.queues) && pid in old(building.queues[f]) ==>
          && pid in building.persons
          && building.persons[pid].state == Evacuated && building.persons[pid].deliveredAt == Some(now)
      ensures multiset(building.people) == multiset(old(building.people))
      ensures building.persons.Keys == old(building.persons).Keys
      ensures forall pid :: pid in old(building.persons) && pid !in old(Aboard(building.elevators)) &&
                            pid !in QueuedRiders(old(building.queues)) ==>
        building.persons[pid] == old(building.persons)[pid]
    {
      outcome := FireCars(dt, now);
      if outcome.Raised? {
        return;
      }
      ghost var Q := building.queues;
      ghost var P := building.persons;
      FireDrain(now);
      forall f, pid | f in Q && pid in Q[f]
        ensures pid in building.persons
        ensures building.persons[pid].state == Evacuated && building.persons[pid].deliveredAt == Some(now)
      {
        assert pid in QueuedRiders(Q);
        assert pid in P by {
          assert building.Queued();
        }
      }
      outcome := Done;
    }

    /**
     * One pass of the loop of `run`, given the clock reading `now` and the
     * real time `realDt` since the previous pass: the scenario clock advances
     * by `realDt * speed`, the due events are processed, the riders advance,
     * then the fire logic runs if the alarm is on, else the dispatcher and
     * the normal logic of every car. An exception ends the pass where it is
     * raised.
     */
    method Tick(now: real, realDt: real, speed: real) returns (outcome: Outcome)
      requires Valid()
      modifies this`simTime, this`cursor, this`fireAlarm, this`fireStartTime, this`totalFireDuration
      modifies this`fireAlarmsCount, building`people, building`persons, building`nextId, building`queues
      modifies building.elevators
      ensures Valid()
      ensures simTime == old(simTime) + realDt * speed && cursor >= old(cursor)
      ensures cursor < |scenario| ==> forall k :: cursor <= k < |scenario| ==> scenario[k].time > simTime
      ensures outcome.Done? && fireAlarm ==>
        && (forall i :: 0 <= i < |building.elevators| ==> Recalled(building.elevators[i]))
        && (forall f :: f in building.queues ==> building.queues[f] == [])
      ensures outcome.Done? && !fireAlarm ==>
        forall i :: 0 <= i < |building.elevators| ==> !building.elevators[i].doorsOpen
    {
      var dt := Clock(now, realDt, speed);
      outcome := AdvancePersons(now, speed);
      if outcome.Raised? {
        return;
      }
      outcome := ElevatorLogic(dt, now);
    }

    /** Step 1 of a pass: the scaled clock advances and the due events are processed. */
    method Clock(now: real, realDt: real, speed: real) returns (dt: real)
      requires Valid()
      modifies this`simTime, this`cursor, this`fireAlarm, this`fireStartTime, this`totalFireDuration
      modifies this`fireAlarmsCount, building`people, building`persons, building`nextId
      ensures building.Valid() && dt == realDt * speed
      ensures simTime == old(simTime) + realDt * speed && cursor >= old(cursor)
      ensures cursor < |scenario| ==> forall k :: cursor <= k < |scenario| ==> scenario[k].time > simTime
      ensures old(cursor) > |scenario| ==> cursor == old(cursor) && Current() == old(Current())
      ensures old(cursor) <= |scenario| ==>
        && old(cursor) <= cursor <= |scenario|
        && (forall k :: old(cursor) <= k < cursor ==> scenario[k].time <= simTime)
        && (cursor == |scenario| || scenario[cursor].time > simTime)
        && Current() == ApplyRange(old(Current()), scenario, old(cursor), cursor, now)
    {
      dt := realDt * speed;
      simTime := simTime + dt;
      DrainScenario(now);
      if cursor < |scenario| {
        DrainMaximal(scenario, cursor, simTime);
      }
    }

    /** Step 3 of a pass: the fire logic under the alarm, else the dispatcher and the normal logic. */
    method ElevatorLogic(dt: real, now: real) returns (outcome: Outcome)
      requires building.Valid()
      modifies building.elevators, building`people, building`persons, building`queues
      ensures building.Valid()
      ensures outcome.Done? && fireAlarm ==>
        && (forall i :: 0 <= i < |building.elevators| ==> Recalled(building.elevators[i]))
        && (forall f :: f in building.queues ==> building.queues[f] == [])
      ensures outcome.Done? && fireAlarm ==>
        forall f, pid :: f in old(building.queues) && pid in old(building.queues[f]) ==>
          && pid in building.persons
          && building.persons[pid].state == Evacuated && building.persons[pid].deliveredAt == Some(now)
      ensures fireAlarm ==>
        && multiset(building.people) == multiset(old(building.people))
        && building.persons.Keys == old(building.persons).Keys
        && forall pid :: pid in old(building.persons) && pid !in old(Aboard(building.elevators)) &&
                         pid !in QueuedRiders(old(building.queues)) ==>
             building.persons[pid] == old(building.persons)[pid]
      ensures outcome.Done? && !fireAlarm ==>
        forall i :: 0 <= i < |building.elevators| ==> !building.elevators[i].doorsOpen
    {
      if fireAlarm {
        outcome := FireLogic(dt, now);
      } else {
        outcome := controller.Assign(building);
        if outcome.Raised? {
          return;
        }
        outcome := NormalLogic(dt, now);
      }
    }

    /** `stop_sim`: stops only when every car is empty, at rest and at a whole floor. */
    method StopSim() returns (stopped: bool)
      modifies this`stopRequested, this`running
      ensures stopped <==> forall i :: 0 <= i < |building.elevators| ==> AtRest(building.elevators[i])
      ensures stopped ==> stopRequested && running
      ensures !stopped ==> stopRequested == old(stopRequested) && running == old(running)
    {
      var es := building.elevators;
      for i := 0 to |es|
        invariant forall k :: 0 <= k < i ==> AtRest(es[k])
      {
        var e := es[i];
        if e.passengers != [] || e.velocity != 0.0 || e.currentFloor != Trunc(e.currentFloor) as real {
          return false;
        }
      }
      stopRequested := true;
      running := true;
      return true;
    }

    /** `get_stats`: the summed transport count and the alarm and time counters. */
    method GetStats() returns (stats: Stats)
      ensures stats == Stats(TransportedSum(building.elevators), fireAlarmsCount, totalFireDuration, simTime)
    {
      var es := building.elevators;
      var total := 0;
      for i := 0 to |es|
        invariant total == TransportedSum(es[..i])
      {
        assert es[..i + 1][..i] == es[..i];
        total := total + es[i].peopleTransported;
      }
      assert es[..|es|] == es;
      stats := Stats(total, fireAlarmsCount, totalFireDuration, simTime);
    }
  }

  /**
   * On a time-sorted scenario the drain is maximal: once it stops short of the
   * end, no later event is due either.
   */
  lemma DrainMaximal(scenario: seq<Event>, cursor: nat, simTime: real)
    requires SortedBy(scenario, EventTime) && cursor < |scenario| && scenario[cursor].time > simTime
    ensures forall k :: cursor <= k < |scenario| ==> scenario[k].time > simTime
  {
    forall k | cursor <= k < |scenario| ensures scenario[k].time > simTime {
      assert EventTime(scenario[cursor]) <= EventTime(scenario[k]);
    }
  }
}
