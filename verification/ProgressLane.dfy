// The progress lane: a lock that is tried for under another lock, and the name of its occupant.
module ProgressLane {
  import opened Common

  type Thread = nat

  // The runtime's lock is held in Trying, Refused, Taking, Took, Clearing and Cleared; the
  // progress lock from Taking to Unlocking.
  datatype Place =
    | Out
    | Wanting(kind: string)
    | Trying(kind: string)
    | Refused
    | Taking(kind: string)
    | Took(kind: string)
    | Holding(kind: string)
    | Returning(kind: string)
    | Clearing(kind: string)
    | Cleared
    | Unlocking

  datatype Lane = Lane(occupant: Option<string>, locked: bool, owner: Option<Thread>, places: map<Thread, Place>)

  function PlaceOf(l: Lane, t: Thread): Place {
    if t in l.places then l.places[t] else Out
  }

  predicate HoldsRuntimeLock(p: Place) {
    p.Trying? || p.Refused? || p.Taking? || p.Took? || p.Clearing? || p.Cleared?
  }

  predicate HoldsProgressLock(p: Place) {
    p.Taking? || p.Took? || p.Holding? || p.Returning? || p.Clearing? || p.Cleared? || p.Unlocking?
  }

  predicate Occupies(p: Place) {
    p.Took? || p.Holding? || p.Returning? || p.Clearing?
  }

  function Step(l: Lane, t: Thread, kind: string): Lane {
    match PlaceOf(l, t)
    case Out => l.(places := l.places[t := Wanting(kind)])
    case Wanting(k) => if l.owner.Some? then l else l.(owner := Some(t), places := l.places[t := Trying(k)])
    case Trying(k) =>
      if l.locked then l.(places := l.places[t := Refused])
      else l.(locked := true, places := l.places[t := Taking(k)])
    case Refused => l.(owner := None, places := l.places[t := Out])
    case Taking(k) => l.(occupant := Some(k), places := l.places[t := Took(k)])
    case Took(k) => l.(owner := None, places := l.places[t := Holding(k)])
    case Holding(k) => l.(places := l.places[t := Returning(k)])
    case Returning(k) => if l.owner.Some? then l else l.(owner := Some(t), places := l.places[t := Clearing(k)])
    case Clearing(_) => l.(occupant := None, places := l.places[t := Cleared])
    case Cleared => l.(owner := None, places := l.places[t := Unlocking])
    case Unlocking => l.(locked := false, places := l.places[t := Out])
  }

  datatype Move = Move(thread: Thread, kind: string)

  function Run(schedule: seq<Move>): Lane {
    if schedule == [] then Lane(None, false, None, map[])
    else
      var last := schedule[|schedule| - 1];
      Step(Run(schedule[..|schedule| - 1]), last.thread, last.kind)
  }

  ghost predicate RuntimeLockIsOwned(l: Lane) {
    forall t: Thread {:trigger PlaceOf(l, t)} :: HoldsRuntimeLock(PlaceOf(l, t)) <==> l.owner == Some(t)
  }

  ghost predicate OneHolder(l: Lane) {
    forall t: Thread, u: Thread {:trigger PlaceOf(l, t), PlaceOf(l, u)} ::
      HoldsProgressLock(PlaceOf(l, t)) && HoldsProgressLock(PlaceOf(l, u)) ==> t == u
  }

  ghost predicate LockedIsHeld(l: Lane) {
    l.locked <==> exists t: Thread {:trigger PlaceOf(l, t)} :: HoldsProgressLock(PlaceOf(l, t))
  }

  ghost predicate OccupantIsTheirs(l: Lane) {
    forall t: Thread {:trigger PlaceOf(l, t)} :: Occupies(PlaceOf(l, t)) ==> l.occupant == Some(PlaceOf(l, t).kind)
  }

  ghost predicate OccupantHasThread(l: Lane) {
    l.occupant.Some? ==> exists t: Thread {:trigger PlaceOf(l, t)} :: Occupies(PlaceOf(l, t))
  }

  ghost predicate Inv(l: Lane) {
    RuntimeLockIsOwned(l) && OneHolder(l) && LockedIsHeld(l) && OccupantIsTheirs(l) && OccupantHasThread(l)
  }

  lemma OthersStay(l: Lane, t: Thread, kind: string)
    ensures forall u: Thread {:trigger PlaceOf(Step(l, t, kind), u)} :: u != t ==>
      PlaceOf(Step(l, t, kind), u) == PlaceOf(l, u)
  {
  }

  lemma StepKeepsRuntimeLock(l: Lane, t: Thread, kind: string)
    requires Inv(l)
    ensures RuntimeLockIsOwned(Step(l, t, kind))
  {
    OthersStay(l, t, kind);
    var m := Step(l, t, kind);
    forall u: Thread ensures HoldsRuntimeLock(PlaceOf(m, u)) <==> m.owner == Some(u) {
      assert HoldsRuntimeLock(PlaceOf(l, u)) <==> l.owner == Some(u);
      assert HoldsRuntimeLock(PlaceOf(l, t)) <==> l.owner == Some(t);
    }
  }

  lemma StepKeepsHolder(l: Lane, t: Thread, kind: string)
    requires Inv(l)
    ensures OneHolder(Step(l, t, kind)) && LockedIsHeld(Step(l, t, kind))
  {
    OthersStay(l, t, kind);
    var m := Step(l, t, kind);
    if l.locked && !HoldsProgressLock(PlaceOf(l, t)) {
      var u: Thread :| HoldsProgressLock(PlaceOf(l, u));
      assert HoldsProgressLock(PlaceOf(m, u));
    }
    assert HoldsProgressLock(PlaceOf(m, t)) ==> m.locked;
  }

  lemma StepKeepsOccupant(l: Lane, t: Thread, kind: string)
    requires Inv(l)
    ensures OccupantIsTheirs(Step(l, t, kind)) && OccupantHasThread(Step(l, t, kind))
  {
    OthersStay(l, t, kind);
    var m := Step(l, t, kind);
    if m.occupant.Some? {
      if Occupies(PlaceOf(m, t)) {
        assert OccupantHasThread(m);
      } else {
        var u: Thread :| Occupies(PlaceOf(l, u));
        assert Occupies(PlaceOf(m, u));
      }
    }
  }

  lemma {:induction false} RunKeepsInv(schedule: seq<Move>)
    ensures Inv(Run(schedule))
  {
    if schedule != [] {
      var before, last := Run(schedule[..|schedule| - 1]), schedule[|schedule| - 1];
      RunKeepsInv(schedule[..|schedule| - 1]);
      StepKeepsRuntimeLock(before, last.thread, last.kind);
      StepKeepsHolder(before, last.thread, last.kind);
      StepKeepsOccupant(before, last.thread, last.kind);
    }
  }

  // Under every interleaving the lane has one holder at most, and an occupant only while the
  // progress lock is held, by the very thread that the occupant names.
  lemma OccupantImpliesLocked(schedule: seq<Move>)
    ensures var l := Run(schedule);
      && (forall t: Thread, u: Thread :: PlaceOf(l, t).Holding? && PlaceOf(l, u).Holding? ==> t == u)
      && (l.occupant.Some? ==> l.locked)
      && (forall t: Thread :: Occupies(PlaceOf(l, t)) ==> l.occupant == Some(PlaceOf(l, t).kind))
      && (l.occupant.Some? <==> exists t: Thread :: Occupies(PlaceOf(l, t)))
  {
    RunKeepsInv(schedule);
    var l := Run(schedule);
    if l.occupant.Some? {
      var t: Thread :| Occupies(PlaceOf(l, t));
      assert HoldsProgressLock(PlaceOf(l, t));
    }
  }

  // The lane can be locked without an occupant, and exactly while its holder is between the two.
  lemma LockedWithoutOccupantIff(schedule: seq<Move>)
    ensures var l := Run(schedule);
      l.locked && l.occupant.None?
      <==> exists t: Thread :: var p := PlaceOf(l, t); p.Taking? || p.Cleared? || p.Unlocking?
  {
    RunKeepsInv(schedule);
    var l := Run(schedule);
    if l.locked && l.occupant.None? {
      var t: Thread :| HoldsProgressLock(PlaceOf(l, t));
      assert !Occupies(PlaceOf(l, t));
    }
    if t: Thread :| PlaceOf(l, t).Taking? || PlaceOf(l, t).Cleared? || PlaceOf(l, t).Unlocking? {
      assert HoldsProgressLock(PlaceOf(l, t));
      forall u: Thread ensures !Occupies(PlaceOf(l, u)) {
        assert HoldsProgressLock(PlaceOf(l, u)) ==> u == t;
      }
    }
  }

  // ---------- A thread on its own ----------

  // A thread's k steps with no other thread's in between.
  function Own(l: Lane, t: Thread, kind: string, k: nat): Lane {
    if k == 0 then l else Step(Own(l, t, kind, k - 1), t, kind)
  }

  // A free lane is taken, under the name of what takes it, and the runtime's lock given back.
  lemma FreeLaneIsTaken(l: Lane, t: Thread, k: string, kind: string)
    requires PlaceOf(l, t) == Wanting(k) && l.owner == None && !l.locked
    ensures var m := Own(l, t, kind, 4);
      PlaceOf(m, t) == Holding(k) && m.locked && m.occupant == Some(k) && m.owner == None
  {
    var l1 := Step(l, t, kind);
    assert PlaceOf(l1, t) == Trying(k);
    var l2 := Step(l1, t, kind);
    assert PlaceOf(l2, t) == Taking(k);
    var l3 := Step(l2, t, kind);
    assert PlaceOf(l3, t) == Took(k);
    assert Own(l, t, kind, 1) == l1;
    assert Own(l, t, kind, 2) == l2;
    assert Own(l, t, kind, 3) == l3;
  }

  // A lane that is not free is left as it is.
  lemma BusyLaneIsLeft(l: Lane, t: Thread, k: string, kind: string)
    requires PlaceOf(l, t) == Wanting(k) && l.owner == None && l.locked
    ensures var m := Own(l, t, kind, 3);
      PlaceOf(m, t) == Out && m.locked && m.occupant == l.occupant && m.owner == None
  {
    var l1 := Step(l, t, kind);
    assert PlaceOf(l1, t) == Trying(k);
    var l2 := Step(l1, t, kind);
    assert PlaceOf(l2, t) == Refused;
    assert Own(l, t, kind, 1) == l1;
    assert Own(l, t, kind, 2) == l2;
  }

  // What was taken is given back.
  lemma HeldLaneIsGivenBack(l: Lane, t: Thread, k: string, kind: string)
    requires PlaceOf(l, t) == Holding(k) && l.owner == None
    ensures var m := Own(l, t, kind, 5);
      PlaceOf(m, t) == Out && !m.locked && m.occupant == None && m.owner == None
  {
    var l1 := Step(l, t, kind);
    assert PlaceOf(l1, t) == Returning(k);
    var l2 := Step(l1, t, kind);
    assert PlaceOf(l2, t) == Clearing(k);
    var l3 := Step(l2, t, kind);
    assert PlaceOf(l3, t) == Cleared;
    var l4 := Step(l3, t, kind);
    assert PlaceOf(l4, t) == Unlocking;
    assert Own(l, t, kind, 1) == l1;
    assert Own(l, t, kind, 2) == l2;
    assert Own(l, t, kind, 3) == l3;
    assert Own(l, t, kind, 4) == l4;
  }

  // ---------- Locked without an occupant ----------

  // A thread's n steps with nobody else about.
  function Alone(n: nat): (schedule: seq<Move>)
    ensures |schedule| == n
  {
    if n == 0 then [] else Alone(n - 1) + [Move(0, "query")]
  }

  predicate Stands(l: Lane, place: Place, locked: bool, occupant: Option<string>, owner: Option<Thread>) {
    PlaceOf(l, 0) == place && l.locked == locked && l.occupant == occupant && l.owner == owner
  }

  lemma AloneStep(n: nat)
    ensures Run(Alone(n + 1)) == Step(Run(Alone(n)), 0, "query")
  {
    assert Alone(n + 1)[..n] == Alone(n);
  }

  lemma AloneTries()
    ensures Stands(Run(Alone(2)), Trying("query"), false, None, Some(0))
  {
    AloneStep(0);
    AloneStep(1);
  }

  lemma AloneTakes()
    ensures Stands(Run(Alone(5)), Holding("query"), true, Some("query"), None)
  {
    AloneTries();
    AloneStep(2);
    AloneStep(3);
    AloneStep(4);
  }

  lemma AloneClears()
    ensures Stands(Run(Alone(7)), Clearing("query"), true, Some("query"), Some(0))
  {
    AloneTakes();
    AloneStep(5);
    AloneStep(6);
  }

  lemma AloneGivesBack()
    ensures Stands(Run(Alone(9)), Unlocking, true, None, None)
  {
    AloneClears();
    AloneStep(7);
    AloneStep(8);
  }

  // It happens: on giving the lane back its holder lets go of the runtime's lock before the lane
  // is free, and the next thread under that lock finds the lane locked and nobody in it.
  lemma LockedWithoutOccupantHappens()
    ensures exists schedule :: var l := Run(schedule); l.locked && l.occupant.None? && l.owner.None?
  {
    AloneGivesBack();
    var l := Run(Alone(9));
    assert l.locked && l.occupant.None? && l.owner.None?;
  }

  // ---------- Waiting for the lane ----------

  const QUERY_WAIT_MICROS := 200_000

  // The clock's reading after the n-th failed attempt. Each sleep moves it on.
  ghost predicate SleepAdvances(clock: nat -> int) {
    forall n: nat :: clock(n) < clock(n + 1)
  }

  // The attempts are failed up to n, all before the deadline.
  ghost predicate WaitedFor(isFree: nat -> bool, clock: nat -> int, deadline: int, n: nat) {
    forall k: nat :: k < n ==> !isFree(k) && clock(k) < deadline
  }

  // `isFree(n)` says whether the n-th attempt finds the progress lock free.
  method AcquireQueryLane(start: int, isFree: nat -> bool, clock: nat -> int) returns (acquired: bool, attempts: nat)
    requires SleepAdvances(clock)
    ensures attempts > 0 && WaitedFor(isFree, clock, start + QUERY_WAIT_MICROS, attempts - 1)
    ensures acquired <==> isFree(attempts - 1)
    ensures !acquired ==> clock(attempts - 1) >= start + QUERY_WAIT_MICROS
  {
    var deadline := start + QUERY_WAIT_MICROS;
    attempts := 0;
    while true
      invariant WaitedFor(isFree, clock, deadline, attempts)
      decreases deadline - clock(attempts)
    {
      attempts := attempts + 1;
      if isFree(attempts - 1) {
        return true, attempts;
      }
      if clock(attempts - 1) >= deadline {
        return false, attempts;
      }
      assert clock(attempts - 1) < clock(attempts - 1 + 1);
    }
  }

  const QUERY_POLL_MICROS := 20_000

  lemma {:induction false} SleepsAddUp(start: int, clock: nat -> int, n: nat)
    requires clock(0) >= start && forall k: nat :: clock(k + 1) >= clock(k) + QUERY_POLL_MICROS
    ensures clock(n) >= start + n * QUERY_POLL_MICROS
  {
    if n > 0 {
      SleepsAddUp(start, clock, n - 1);
      assert clock(n - 1 + 1) >= clock(n - 1) + QUERY_POLL_MICROS;
    }
  }

  // If every sleep lasts as long as it should, ten attempts can fail in time, and one more is made.
  lemma AtMostElevenAttempts(start: int, isFree: nat -> bool, clock: nat -> int, attempts: nat)
    requires clock(0) >= start && forall k: nat :: clock(k + 1) >= clock(k) + QUERY_POLL_MICROS
    requires attempts > 0 && WaitedFor(isFree, clock, start + QUERY_WAIT_MICROS, attempts - 1)
    ensures attempts <= 11
  {
    SleepsAddUp(start, clock, 10);
    var k: nat := 10;
    assert k < attempts - 1 ==> !isFree(k) && clock(k) < start + QUERY_WAIT_MICROS;
  }
}
