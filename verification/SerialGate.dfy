// The gate that admits one serial command at a time, with every thread taking single steps.
module SerialGate {
  import opened Common

  type Thread = nat

  // Where a thread is. The lock is held in Checking, Refusing, Marking, Marked, Clearing and Cleared.
  datatype Place =
    | Away
    | Entering(name: string)
    | Checking(name: string)
    | Refusing
    | Marking(name: string)
    | Marked(name: string)
    | Inside(name: string)
    | Leaving(name: string)
    | Clearing(name: string)
    | Cleared

  datatype Gate = Gate(active: Option<string>, owner: Option<Thread>, places: map<Thread, Place>)

  function PlaceOf(g: Gate, t: Thread): Place {
    if t in g.places then g.places[t] else Away
  }

  predicate HoldsLock(p: Place) {
    p.Checking? || p.Refusing? || p.Marking? || p.Marked? || p.Clearing? || p.Cleared?
  }

  // From the moment the marker is set until it is cleared.
  predicate InCommand(p: Place) {
    p.Marked? || p.Inside? || p.Leaving? || p.Clearing?
  }

  // One step of thread t; a thread that waits for the lock stays where it is. `name` is the
  // command that a thread brings when it comes to the gate.
  function Step(g: Gate, t: Thread, name: string): Gate {
    match PlaceOf(g, t)
    case Away => g.(places := g.places[t := Entering(name)])
    case Entering(n) => if g.owner.Some? then g else g.(owner := Some(t), places := g.places[t := Checking(n)])
    case Checking(n) => g.(places := g.places[t := if g.active.Some? then Refusing else Marking(n)])
    case Refusing => g.(owner := None, places := g.places[t := Away])
    case Marking(n) => g.(active := Some(n), places := g.places[t := Marked(n)])
    case Marked(n) => g.(owner := None, places := g.places[t := Inside(n)])
    case Inside(n) => g.(places := g.places[t := Leaving(n)])
    case Leaving(n) => if g.owner.Some? then g else g.(owner := Some(t), places := g.places[t := Clearing(n)])
    case Clearing(n) =>
      g.(active := if g.active == Some(n) then None else g.active, places := g.places[t := Cleared])
    case Cleared => g.(owner := None, places := g.places[t := Away])
  }

  datatype Move = Move(thread: Thread, name: string)

  // The gate after any interleaving of the threads' steps.
  function Run(schedule: seq<Move>): Gate {
    if schedule == [] then Gate(None, None, map[])
    else
      var last := schedule[|schedule| - 1];
      Step(Run(schedule[..|schedule| - 1]), last.thread, last.name)
  }

  ghost predicate LockIsOwned(g: Gate) {
    forall t: Thread {:trigger PlaceOf(g, t)} :: HoldsLock(PlaceOf(g, t)) <==> g.owner == Some(t)
  }

  ghost predicate MarkerIsTheirs(g: Gate) {
    forall t: Thread {:trigger PlaceOf(g, t)} :: InCommand(PlaceOf(g, t)) ==> g.active == Some(PlaceOf(g, t).name)
  }

  ghost predicate OneInCommand(g: Gate) {
    forall t: Thread, u: Thread {:trigger PlaceOf(g, t), PlaceOf(g, u)} ::
      InCommand(PlaceOf(g, t)) && InCommand(PlaceOf(g, u)) ==> t == u
  }

  ghost predicate MarkerHasThread(g: Gate) {
    g.active.Some? ==> exists t: Thread {:trigger PlaceOf(g, t)} :: InCommand(PlaceOf(g, t))
  }

  ghost predicate MarkingSawNone(g: Gate) {
    forall t: Thread {:trigger PlaceOf(g, t)} :: PlaceOf(g, t).Marking? ==> g.active.None?
  }

  ghost predicate Inv(g: Gate) {
    LockIsOwned(g) && MarkerIsTheirs(g) && OneInCommand(g) && MarkerHasThread(g) && MarkingSawNone(g)
  }

  lemma OthersStay(g: Gate, t: Thread, name: string)
    ensures forall u: Thread {:trigger PlaceOf(Step(g, t, name), u)} :: u != t ==>
      PlaceOf(Step(g, t, name), u) == PlaceOf(g, u)
  {
  }

  lemma StepKeepsLock(g: Gate, t: Thread, name: string)
    requires Inv(g)
    ensures LockIsOwned(Step(g, t, name)) && MarkingSawNone(Step(g, t, name))
  {
    OthersStay(g, t, name);
    var h := Step(g, t, name);
    forall u: Thread ensures HoldsLock(PlaceOf(h, u)) <==> h.owner == Some(u) {
      assert HoldsLock(PlaceOf(g, u)) <==> g.owner == Some(u);
      assert HoldsLock(PlaceOf(g, t)) <==> g.owner == Some(t);
    }
    forall u: Thread ensures PlaceOf(h, u).Marking? ==> h.active.None? {
      assert HoldsLock(PlaceOf(g, u)) <==> g.owner == Some(u);
      assert HoldsLock(PlaceOf(g, t)) <==> g.owner == Some(t);
    }
  }

  lemma StepKeepsMarker(g: Gate, t: Thread, name: string)
    requires Inv(g)
    ensures MarkerIsTheirs(Step(g, t, name)) && OneInCommand(Step(g, t, name)) && MarkerHasThread(Step(g, t, name))
  {
    OthersStay(g, t, name);
    var h := Step(g, t, name);
    assert PlaceOf(g, t).Marking? ==> g.active.None?;
    assert InCommand(PlaceOf(g, t)) ==> g.active == Some(PlaceOf(g, t).name);
    if h.active.Some? {
      if InCommand(PlaceOf(h, t)) {
        assert MarkerHasThread(h);
      } else {
        var u: Thread :| InCommand(PlaceOf(g, u));
        assert u != t;
        assert InCommand(PlaceOf(h, u));
      }
    }
  }

  lemma {:induction false} RunKeepsInv(schedule: seq<Move>)
    ensures Inv(Run(schedule))
  {
    if schedule != [] {
      var before, last := Run(schedule[..|schedule| - 1]), schedule[|schedule| - 1];
      RunKeepsInv(schedule[..|schedule| - 1]);
      StepKeepsLock(before, last.thread, last.name);
      StepKeepsMarker(before, last.thread, last.name);
    }
  }

  // Under every interleaving at most one thread is inside a serial command, and the marker
  // names its command; the marker is absent exactly when there is no such thread.
  lemma MutualExclusion(schedule: seq<Move>)
    ensures var g := Run(schedule);
      && (forall t: Thread, u: Thread :: PlaceOf(g, t).Inside? && PlaceOf(g, u).Inside? ==> t == u)
      && (forall t: Thread :: InCommand(PlaceOf(g, t)) ==> g.active == Some(PlaceOf(g, t).name))
      && (g.active.None? <==> forall t: Thread :: !InCommand(PlaceOf(g, t)))
  {
    RunKeepsInv(schedule);
  }

  // The thread that leaves always finds its own marker, so a marker never stays behind.
  lemma LeavingClears(schedule: seq<Move>, t: Thread, name: string)
    requires PlaceOf(Run(schedule), t).Clearing?
    ensures Step(Run(schedule), t, name).active == None
  {
    RunKeepsInv(schedule);
  }

  // A thread is refused only while another one is inside a command.
  lemma RefusedOnlyWhenBusy(schedule: seq<Move>, t: Thread, name: string)
    requires PlaceOf(Run(schedule), t).Checking?
    ensures PlaceOf(Step(Run(schedule), t, name), t).Refusing?
      <==> exists u: Thread :: u != t && InCommand(PlaceOf(Run(schedule), u))
  {
    RunKeepsInv(schedule);
  }

  // ---------- A thread on its own ----------

  // A thread's k steps with no other thread's in between.
  function Alone(g: Gate, t: Thread, name: string, k: nat): Gate {
    if k == 0 then g else Step(Alone(g, t, name, k - 1), t, name)
  }

  // At a free gate a thread gets inside, leaves its marker and gives the lock back.
  lemma FreeGateAdmits(g: Gate, t: Thread, n: string, name: string)
    requires PlaceOf(g, t) == Entering(n) && g.owner == None && g.active == None
    ensures var h := Alone(g, t, name, 4);
      PlaceOf(h, t) == Inside(n) && h.active == Some(n) && h.owner == None
  {
    var g1 := Step(g, t, name);
    assert PlaceOf(g1, t) == Checking(n);
    var g2 := Step(g1, t, name);
    assert PlaceOf(g2, t) == Marking(n);
    var g3 := Step(g2, t, name);
    assert PlaceOf(g3, t) == Marked(n);
    assert Alone(g, t, name, 1) == g1;
    assert Alone(g, t, name, 2) == g2;
    assert Alone(g, t, name, 3) == g3;
  }

  // At an occupied one it is sent away, gives the lock back and leaves the marker alone.
  lemma BusyGateRefuses(g: Gate, t: Thread, n: string, name: string)
    requires PlaceOf(g, t) == Entering(n) && g.owner == None && g.active.Some?
    ensures var h := Alone(g, t, name, 3);
      PlaceOf(h, t) == Away && h.active == g.active && h.owner == None
  {
    var g1 := Step(g, t, name);
    assert PlaceOf(g1, t) == Checking(n);
    var g2 := Step(g1, t, name);
    assert PlaceOf(g2, t) == Refusing;
    assert Alone(g, t, name, 1) == g1;
    assert Alone(g, t, name, 2) == g2;
  }

  // A thread that is done takes its marker along and leaves the gate free.
  lemma DoneLeavesTheGate(g: Gate, t: Thread, n: string, name: string)
    requires PlaceOf(g, t) == Inside(n) && g.owner == None && g.active == Some(n)
    ensures var h := Alone(g, t, name, 4);
      PlaceOf(h, t) == Away && h.active == None && h.owner == None
  {
    var g1 := Step(g, t, name);
    assert PlaceOf(g1, t) == Leaving(n);
    var g2 := Step(g1, t, name);
    assert PlaceOf(g2, t) == Clearing(n);
    var g3 := Step(g2, t, name);
    assert PlaceOf(g3, t) == Cleared;
    assert Alone(g, t, name, 1) == g1;
    assert Alone(g, t, name, 2) == g2;
    assert Alone(g, t, name, 3) == g3;
  }

  // ---------- The guarded sections ----------

  function AfterEntry(active: Option<string>, name: string): Option<string> {
    if active.Some? then active else Some(name)
  }

  function AfterExit(active: Option<string>, name: string): Option<string> {
    if active == Some(name) then None else active
  }

  // The marker and the two sections that the lock guards.
  class CommandGate {
    var activeCommand: Option<string>

    constructor ()
      ensures activeCommand == None
    {
      activeCommand := None;
    }

    // False stands for the error that the runtime is busy.
    method BeginSerialCommand(name: string) returns (admitted: bool)
      modifies this
      ensures admitted <==> old(activeCommand).None?
      ensures activeCommand == AfterEntry(old(activeCommand), name)
    {
      if activeCommand.Some? {
        return false;
      }
      activeCommand := Some(name);
      return true;
    }

    method EndSerialCommand(name: string)
      modifies this
      ensures activeCommand == AfterExit(old(activeCommand), name)
    {
      if activeCommand == Some(name) {
        activeCommand := None;
      }
    }
  }

  // A thread's own steps within a section, with other threads' steps in between, come to what
  // the section does at once: while one thread holds the lock nobody else moves the marker.
  lemma {:induction false} OwnerGuardsMarker(schedule: seq<Move>, moves: seq<Move>, t: Thread)
    requires HoldsLock(PlaceOf(Run(schedule), t))
    requires forall i :: 0 <= i < |moves| ==> moves[i].thread != t
    ensures var g, h := Run(schedule), Run(schedule + moves);
      h.active == g.active && PlaceOf(h, t) == PlaceOf(g, t)
    decreases |moves|
  {
    if moves == [] {
      assert schedule + moves == schedule;
    } else {
      var n := |moves| - 1;
      var before := Run(schedule + moves[..n]);
      OwnerGuardsMarker(schedule, moves[..n], t);
      assert (schedule + moves)[..|schedule| + n] == schedule + moves[..n];
      RunKeepsInv(schedule + moves[..n]);
      assert HoldsLock(PlaceOf(before, moves[n].thread)) <==> before.owner == Some(moves[n].thread);
      assert HoldsLock(PlaceOf(before, t)) <==> before.owner == Some(t);
      OthersStay(before, moves[n].thread, moves[n].name);
    }
  }

  lemma SectionsAreTheMethods(g: Gate, t: Thread, name: string)
    ensures PlaceOf(g, t).Checking? ==>
      Step(Step(g, t, name), t, name).active == AfterEntry(g.active, PlaceOf(g, t).name)
    ensures PlaceOf(g, t).Clearing? ==> Step(g, t, name).active == AfterExit(g.active, PlaceOf(g, t).name)
  {
    var h := Step(g, t, name);
    if PlaceOf(g, t).Checking? {
      assert PlaceOf(h, t) == if g.active.Some? then Refusing else Marking(PlaceOf(g, t).name);
    }
  }
}
