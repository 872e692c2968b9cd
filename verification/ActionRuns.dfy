// What follows from the laws and the course: the run is determined, a calm world lets it succeed,
// and nothing is dispatched three times.
module ActionRuns {
  import opened Common
  import opened ActionWorld
  import opened ActionLogs
  import opened ActionLaws

  // ---------- The run is determined ----------

  lemma {:induction false} NoOtherWay(world: World, command: Command, a: Log, b: Log)
    requires Honest(world, a) && OnCourse(world, command, [], a) && NextAct(world, command, a) == None
    requires Honest(world, b) && OnCourse(world, command, [], b)
    ensures b <= a
  {
    if b != [] {
      var front := b[..|b| - 1];
      NoOtherWay(world, command, a, front);
      assert NextAct(world, command, front) == Some(ActOf(b[|front|]));
      assert |front| == |a| ==> front == a;
      StepOf(world, command, a, front);
      assert b == front + [b[|front|]] && a[..|front|] == front;
    }
  }

  // A run that goes on behind `front` does so in the one way there is.
  lemma {:induction false} StepOf(world: World, command: Command, a: Log, front: Log)
    requires Honest(world, a) && OnCourse(world, command, [], a) && front < a
    ensures NextAct(world, command, front).Some?
    ensures a[|front|] == Answer(world, front, NextAct(world, command, front).value)
  {
    if |a| > |front| + 1 {
      StepOf(world, command, a[..|a| - 1], front);
    } else {
      assert a[..|a| - 1] == front;
    }
  }

  // A world has one run for each command: what is done, in what order, what is answered to it, and
  // the outcome.
  lemma RunIsDetermined(world: World, command: Command, a: Log, o: Outcome, b: Log, p: Outcome)
    requires RunsToTheEnd(world, command, a, o) && RunsToTheEnd(world, command, b, p)
    ensures a == b && o == p
  {
    NoOtherWay(world, command, a, b);
    NoOtherWay(world, command, b, a);
  }

  // ---------- The repair before the first dispatch ----------

  lemma {:induction false} CourseStep(world: World, command: Command, log: Log, n: nat)
    requires OnCourse(world, command, [], log) && n < |log|
    ensures NextAct(world, command, log[..n]) == Some(ActOf(log[n]))
  {
    if n < |log| - 1 {
      CourseStep(world, command, log[..|log| - 1], n);
      assert log[..|log| - 1][..n] == log[..n];
    }
  }

  // What the executor asks when it has asked all that comes first.
  lemma OpenedAsks(world: World, command: Command, asked: Log)
    requires asked == Calls(Opening(world, command))
    ensures NextAct(world, command, asked)
      == Some(Asks(if command !in {Global, Open} && !world.sourceIsCurrent(asked) then RepairTarget
                   else if command == Submit then ResolveTarget
                   else BuildRequest))
  {
    CallsEnd([], Opening(world, command));
    assert [] + asked == asked;
    OpenedAsksAfter(world, command, asked, asked[|asked| - 1].question);
  }

  lemma OpenedAsksAfter(world: World, command: Command, asked: Log, last: Question)
    requires AskedLast(asked, last)
    requires last == if world.transportOpen then MakeClient
                     else if command == Global then CaptureBaseline
                     else CheckSemantics
    ensures NextAct(world, command, asked)
      == Some(Asks(if command !in {Global, Open} && !world.sourceIsCurrent(asked) then RepairTarget
                   else if command == Submit then ResolveTarget
                   else BuildRequest))
  {
  }

  // Once its opening questions are answered, a run that goes on repairs its target if and only if
  // the command names a target on a screen that is no longer the current one.
  lemma RepairsFirstIff(world: World, command: Command, log: Log, outcome: Outcome)
    requires RunsToTheEnd(world, command, log, outcome)
    requires Calls(Opening(world, command)) < log
    ensures var n := |Opening(world, command)|;
      log[n].Called? && (log[n].question == RepairTarget <==>
        command !in {Global, Open} && !world.sourceIsCurrent(log[..n]))
  {
    var n := |Opening(world, command)|;
    CourseStep(world, command, log, n);
    assert log[..n] == Calls(Opening(world, command));
    OpenedAsks(world, command, log[..n]);
  }

  // ---------- Calm worlds ----------

  // The world raises nothing, and the effect of a submit shows.
  ghost predicate Calm(world: World) {
    && (forall log, question :: world.answer(log, question) == None)
    && (forall log :: world.reply(log) == None)
    && (forall log, call :: world.kernel(log, call) == None)
    && (forall log :: !world.unconfirmed(log))
  }

  predicate Clean(e: Event) {
    match e
    case Called(_, error) => error == None
    case Dispatched(_, reply) => reply == None
    case KernelCalled(_, fault) => fault == None
  }

  predicate AllClean(log: Log) {
    forall i :: 0 <= i < |log| ==> Clean(log[i])
  }

  lemma {:induction false} CalmIsClean(world: World, log: Log)
    requires Calm(world) && Honest(world, log)
    ensures AllClean(log)
  {
    if log != [] {
      CalmIsClean(world, log[..|log| - 1]);
    }
  }

  lemma {:induction false} RouteIsOfDispatch(log: Log)
    requires SentRoute(log).Some?
    ensures exists i :: 0 <= i < |log| && log[i].Dispatched?
  {
    if !log[|log| - 1].Dispatched? {
      RouteIsOfDispatch(log[..|log| - 1]);
      var i :| 0 <= i < |log| - 1 && log[..|log| - 1][i].Dispatched?;
      assert log[i].Dispatched?;
    }
  }

  lemma CleanDoesNotFail(world: World, command: Command, log: Log, outcome: Outcome)
    requires Calm(world) && AllClean(log) && outcome.ExecutionFailure?
    ensures !CleansUp(world, command, log, outcome)
  {
  }

  lemma CleanDoesNotRaise(world: World, command: Command, log: Log, raise: Raise)
    requires log != [] && AllClean(log) && !SomeDispatchReturned(log)
    ensures !RaisesLawfully(world, command, log, raise)
  {
    if SentRoute(log).Some? {
      RouteIsOfDispatch(log);
    }
  }

  lemma CleanDoesNotEscape(world: World, command: Command, log: Log, raise: Raise)
    requires log != [] && AllClean(log) && SomeDispatchReturned(log)
    ensures !RaisesLawfully(world, command, log, raise)
  {
  }

  lemma CleanIsDirect(world: World, command: Command, log: Log, repaired: bool)
    requires AllClean(log) && Succeeds(world, command, log, repaired)
    ensures exists route :: log == DirectLog(world, command, repaired, route)
  {
    if forall route :: log != DirectLog(world, command, repaired, route) {
      var route, reply, second :| IsStale(Some(reply)) && log == RetriedLog(world, command, route, reply, second);
      RetriedHasStale(world, command, route, reply, second);
      assert false;
    }
  }

  lemma RetriedHasStale(world: World, command: Command, route: Option<Route>, reply: Raise, second: Option<Route>)
    ensures !AllClean(RetriedLog(world, command, route, reply, second))
  {
    var front := Calls(Opening(world, command)) + Preparation(command, false);
    assert !Clean(RetriedLog(world, command, route, reply, second)[|front|]);
  }

  // In such a world every command that is attempted succeeds, directly: nothing is dispatched twice.
  lemma CalmWorldSucceeds(world: World, command: Command, log: Log, outcome: Outcome)
    requires Calm(world) && Refusal(world, command) == None && Executes(world, command, log, outcome)
    ensures outcome.Succeeded?
    ensures exists route :: log == DirectLog(world, command, outcome.repaired, route)
    ensures outcome.repaired <==>
      command !in {Global, Open} && !world.sourceIsCurrent(Calls(Opening(world, command)))
  {
    CalmIsClean(world, log);
    match outcome
    case Raised(raise) =>
      if SomeDispatchReturned(log) {
        CleanDoesNotEscape(world, command, log, raise);
      } else {
        CleanDoesNotRaise(world, command, log, raise);
      }
    case ExecutionFailure(_, _, _) => CleanDoesNotFail(world, command, log, outcome);
    case Succeeded(repaired, _) =>
      CleanIsDirect(world, command, log, repaired);
      var route :| log == DirectLog(world, command, repaired, route);
      DirectRepairs(world, command, repaired, route, log);
      RepairsFirstIff(world, command, log, outcome);
    case NotAttempted =>
  }

  lemma DirectRepairs(world: World, command: Command, repaired: bool, route: Option<Route>, log: Log)
    requires log == DirectLog(world, command, repaired, route)
    ensures Calls(Opening(world, command)) < log
    ensures log[|Opening(world, command)|].Called?
    ensures log[|Opening(world, command)|].question == RepairTarget <==> repaired
    ensures log[..|Opening(world, command)|] == Calls(Opening(world, command))
  {
    var opening, preparation := Calls(Opening(world, command)), Preparation(command, repaired);
    assert log[|opening|] == preparation[0];
    assert opening == log[..|opening|];
  }

  // ---------- Dispatches ----------

  function Dispatches(log: Log): nat {
    if log == [] then 0
    else Dispatches(log[..|log| - 1]) + if log[|log| - 1].Dispatched? then 1 else 0
  }

  lemma {:induction false} LastDispatch(log: Log) returns (i: nat)
    requires Dispatches(log) > 0
    ensures i < |log| && log[i].Dispatched? && Dispatches(log[..i]) == Dispatches(log) - 1
  {
    i := |log| - 1;
    if !log[i].Dispatched? {
      i := LastDispatch(log[..|log| - 1]);
      assert log[..|log| - 1][..i] == log[..i];
    }
  }

  lemma ThreeAreTooMany(command: Command, log: Log, i: nat, j: nat, k: nat)
    requires i < j < k < |log| && log[i].Dispatched? && log[j].Dispatched? && log[k].Dispatched?
    ensures !DispatchesLawfully(command, log)
  {
  }

  // The law of repairs alone keeps the dispatches at two: a third would need a second first repair.
  lemma AtMostTwoDispatches(command: Command, log: Log)
    requires DispatchesLawfully(command, log)
    ensures Dispatches(log) <= 2
  {
    if Dispatches(log) > 2 {
      var k := LastDispatch(log);
      var j := LastDispatch(log[..k]);
      assert log[..k][..j] == log[..j];
      var i := LastDispatch(log[..j]);
      assert log[..j][i] == log[i];
      ThreeAreTooMany(command, log, i, j, k);
    }
  }
}
