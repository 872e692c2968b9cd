// The executor's course and its errors, case by case: what is asked of whom in which order, which
// errors are retried, mapped and cleaned up after.
module ActionCases {
  import opened Common
  import opened ActionWorld
  import opened ActionLogs
  import opened ActionLaws
  import opened ActionRuns

  // ---------- The order of a run ----------

  function ActsOf(log: Log): (acts: seq<Act>)
    ensures |acts| == |log| && forall i :: 0 <= i < |log| ==> acts[i] == ActOf(log[i])
  {
    seq(|log|, i requires 0 <= i < |log| => ActOf(log[i]))
  }

  function AskedInOrder(questions: seq<Question>): (acts: seq<Act>)
    ensures |acts| == |questions| && forall i :: 0 <= i < |questions| ==> acts[i] == Asks(questions[i])
  {
    seq(|questions|, i requires 0 <= i < |questions| => Asks(questions[i]))
  }

  // Before the dispatch: the client is made first if there is no transport, and last otherwise.
  function AskedFirst(world: World, command: Command): seq<Question> {
    match command
    case Global =>
      if world.transportOpen then [CheckSupported, CheckSemantics, CaptureBaseline, MakeClient]
      else [MakeClient, CheckSupported, CheckSemantics, CaptureBaseline]
    case _ =>
      if world.transportOpen then [CheckSupported, CheckSemantics, MakeClient]
      else [MakeClient, CheckSupported, CheckSemantics]
  }

  function AskedToPrepare(command: Command, repaired: bool): seq<Question> {
    match command
    case Submit =>
      if repaired then [RepairTarget, ResolveRoute, CheckRequest, ReadContexts]
      else [ResolveTarget, ResolveRoute, CheckRequest, ReadContexts]
    case Global => if repaired then [RepairTarget, ReadContexts] else [BuildRequest, ReadContexts]
    case Open => if repaired then [RepairTarget, ReadContexts] else [BuildRequest, ReadContexts]
    case _ =>
      if repaired then [RepairTarget, ValidateTarget, ReadContexts] else [BuildRequest, ValidateTarget, ReadContexts]
  }

  function AskedToConfirm(command: Command): seq<Question> {
    match command
    case TypeText => [SettleScreen, RefreshScreen, CheckPostcondition, ConfirmType, DescribeTarget]
    case Submit => [SettleScreen, RefreshScreen, CheckPostcondition, ConfirmSubmit, DescribeTarget]
    case _ => [SettleScreen, RefreshScreen, CheckPostcondition, DescribeTarget]
  }

  function ToldBetween(world: World, command: Command): seq<Act> {
    if command == Global && world.hasKernel then [Tells(DropAuthority(false))] else []
  }

  lemma ActsOfCalls(questions: seq<Question>)
    ensures ActsOf(Calls(questions)) == AskedInOrder(questions)
  {
  }

  lemma ActsOfBoth(a: Log, b: Log)
    ensures ActsOf(a + b) == ActsOf(a) + ActsOf(b)
  {
  }

  lemma AskedBoth(a: seq<Question>, b: seq<Question>)
    ensures AskedInOrder(a + b) == AskedInOrder(a) + AskedInOrder(b)
  {
  }

  lemma OpeningIs(world: World, command: Command)
    ensures Opening(world, command) == AskedFirst(world, command)
  {
  }

  lemma PreparationIs(command: Command, repaired: bool)
    ensures ActsOf(Preparation(command, repaired)) == AskedInOrder(AskedToPrepare(command, repaired))
  {
    var build, check := BuildQuestions(command, repaired), CheckQuestions(command);
    ActsOfBoth(Calls(build), Calls(check));
    ActsOfCalls(build);
    ActsOfCalls(check);
    AskedBoth(build, check);
    assert build + check == AskedToPrepare(command, repaired);
  }

  lemma ConfirmationIs(command: Command)
    ensures ActsOf(Confirmation(command)) == AskedInOrder(AskedToConfirm(command))
  {
    var questions := ConfirmQuestions(command);
    ActsOfBoth([Called(SettleScreen, None)], Calls(questions));
    ActsOfBoth([Called(SettleScreen, None)] + Calls(questions), [Called(DescribeTarget, None)]);
    ActsOfCalls(questions);
    AskedBoth([SettleScreen], questions);
    AskedBoth([SettleScreen] + questions, [DescribeTarget]);
    assert [SettleScreen] + questions + [DescribeTarget] == AskedToConfirm(command);
  }

  lemma ToldIs(world: World, command: Command)
    ensures ActsOf(DroppedFor(world.hasKernel, command)) == ToldBetween(world, command)
  {
  }

  // The order of a run without a retry.
  lemma DirectOrder(world: World, command: Command, repaired: bool, route: Option<Route>)
    ensures ActsOf(DirectLog(world, command, repaired, route))
         == AskedInOrder(AskedFirst(world, command)) + AskedInOrder(AskedToPrepare(command, repaired)) + [Sends(route)]
            + (ToldBetween(world, command) + AskedInOrder(AskedToConfirm(command)))
  {
    var a, b, c := Calls(Opening(world, command)), Preparation(command, repaired), [Dispatched(route, None)];
    var d, e := DroppedFor(world.hasKernel, command), Confirmation(command);
    ActsOfFive(a, b, c, d, e);
    ActsOfCalls(Opening(world, command));
    OpeningIs(world, command);
    PreparationIs(command, repaired);
    ToldIs(world, command);
    ConfirmationIs(command);
  }

  lemma ActsOfFive(a: Log, b: Log, c: Log, d: Log, e: Log)
    ensures ActsOf(a + b + c + (d + e)) == ActsOf(a) + ActsOf(b) + ActsOf(c) + (ActsOf(d) + ActsOf(e))
  {
    ActsOfBoth(a, b);
    ActsOfBoth(a + b, c);
    ActsOfBoth(d, e);
    ActsOfBoth(a + b + c, d + e);
  }

  // In a calm world this is the run of every command that is attempted.
  lemma CalmRunInOrder(world: World, command: Command, log: Log, outcome: Outcome)
    requires Calm(world) && Refusal(world, command) == None && Executes(world, command, log, outcome)
    ensures outcome.Succeeded? && exists route ::
      ActsOf(log)
        == AskedInOrder(AskedFirst(world, command)) + AskedInOrder(AskedToPrepare(command, outcome.repaired))
           + [Sends(route)] + (ToldBetween(world, command) + AskedInOrder(AskedToConfirm(command)))
  {
    CalmWorldSucceeds(world, command, log, outcome);
    var route :| log == DirectLog(world, command, outcome.repaired, route);
    DirectOrder(world, command, outcome.repaired, route);
  }

  // ---------- Refusals ----------

  lemma RefusedIff(world: World, command: Command)
    ensures Refusal(world, command)
      == if !world.connected then
           Some(Raised(Daemon(DaemonError(RuntimeNotConnected, None, "runtime is not connected to a device"))))
         else if command !in {Global, Open} && !world.screenReady then
           Some(Raised(Daemon(DaemonError(ScreenNotReady, None, "screen is not ready yet"))))
         else if command == Focus && world.alreadyFocused then Some(NotAttempted)
         else None
  {
  }

  // ---------- Errors ----------

  // The places where a repair was asked for, whether or not it came about.
  function RepairedAt(log: Log): set<nat> {
    set i | 0 <= i < |log| && log[i].Called? && log[i].question == RepairTarget
  }

  lemma {:induction false} RepairsAreCounted(log: Log)
    ensures Repairs(log) == |RepairedAt(log)|
  {
    if log != [] {
      var last := |log| - 1;
      RepairsAreCounted(log[..last]);
      RepairsOneMore(log[..last], log[last]);
      assert log == log[..last] + [log[last]];
      var now, before := RepairedAt(log), RepairedAt(log[..last]);
      assert now == if last in now then before + {last} else before;
    }
  }

  predicate SaysStale(error: DaemonError) {
    error.code == DeviceRpcFailed && error.deviceCode == Some(StaleTarget)
  }

  // What follows a dispatch: the confirmation if it returned, behind the drop of the screen for a
  // global action; the one repair if its target was stale; and nothing otherwise.
  lemma AfterDispatch(world: World, command: Command, log: Log, n: nat, outcome: Outcome)
    requires RunsToTheEnd(world, command, log, outcome) && n < |log| && log[n].Dispatched?
    ensures log[n].reply == None ==>
      |log| > n + 1 && ActOf(log[n + 1])
        == if command == Global && world.hasKernel then Tells(DropAuthority(false)) else Asks(SettleScreen)
    ensures log[n].reply.Some? ==>
      (|log| > n + 1 <==>
        command !in {Global, Open} && log[n].reply.value.Daemon? && SaysStale(log[n].reply.value.error)
        && RepairedAt(log[..n]) == {})
    ensures log[n].reply.Some? && |log| > n + 1 ==> ActOf(log[n + 1]) == Asks(RepairTarget)
    ensures log[n].reply.Some? && |log| == n + 1 ==>
      outcome == Raised(match log[n].reply.value
                        case Daemon(error) => Daemon(MapActionError(error, command))
                        case Foreign(name) => Foreign(name))
  {
    var upTo, reply := log[..n + 1], log[n].reply;
    assert upTo[|upTo| - 1] == log[n] && upTo == log[..n] + [log[n]];
    RepairsOneMore(log[..n], log[n]);
    RepairsAreCounted(log[..n]);
    NextIsAfterReply(world, command, upTo, log[n], Repairs(log[..n]));
    AfterReplyIs(world, command, reply, Repairs(log[..n]));
    if |log| > n + 1 {
      CourseStep(world, command, log, n + 1);
    } else {
      assert upTo == log;
      OutcomeIsMapped(world, command, log, log[n]);
    }
  }

  lemma NextIsAfterReply(world: World, command: Command, log: Log, last: Event, repairs: nat)
    requires log != [] && log[|log| - 1] == last && last.Dispatched? && Repairs(log) == repairs
    ensures NextAct(world, command, log) == AfterReply(world, command, last.reply, repairs)
  {
  }

  lemma OutcomeIsMapped(world: World, command: Command, log: Log, last: Event)
    requires log != [] && log[|log| - 1] == last && last.Dispatched? && last.reply.Some?
    requires NextAct(world, command, log) == None
    ensures OutcomeOf(world, command, log)
      == Raised(match last.reply.value
                case Daemon(error) => Daemon(MapActionError(error, command))
                case Foreign(name) => Foreign(name))
  {
  }

  lemma AfterReplyIs(world: World, command: Command, reply: Option<Raise>, repairs: nat)
    ensures AfterReply(world, command, reply, repairs)
      == if reply == None then
           Some(if command == Global && world.hasKernel then Tells(DropAuthority(false)) else Asks(SettleScreen))
         else if command !in {Global, Open} && reply.value.Daemon? && SaysStale(reply.value.error)
                 && repairs == 0 then Some(Asks(RepairTarget))
         else None
  {
  }

  // An error of the device is told as one of the action in two cases, and keeps its text.
  lemma MappedIs(error: DaemonError, command: Command)
    ensures var mapped := MapActionError(error, command);
      && mapped == error.(code := mapped.code)
      && mapped.code ==
           (if error.code == DeviceRpcFailed && error.deviceCode == Some(DeviceTargetNotActionable) then
              TargetNotActionable
            else if error.code == DeviceRpcFailed && error.deviceCode == Some(ActionFailed) && command == Open then
              OpenFailed
            else error.code)
  {
  }

  // What the runtime gives up after a failed confirmation, and whether its truth is lost.
  lemma GivenUpAfter(hasKernel: bool, command: Command, error: DaemonError)
    ensures var code := MapActionError(error, command).code;
      var failure := Failure(command, error);
      && failure.ExecutionFailure? && failure.original == error
      && failure.normalized == MapActionError(error, command)
      && CleanupCall(hasKernel, code) ==
           (if !hasKernel then None
            else match code
                 case DeviceAgentUnauthorized => Some(InvalidateCredentials)
                 case DeviceDisconnected => Some(DropAuthority(true))
                 case DeviceRpcTransportReset => Some(DropAuthority(true))
                 case RuntimeNotConnected => Some(DropAuthority(false))
                 case ScreenNotReady => Some(DropAuthority(false))
                 case DeviceAgentUnavailable => Some(DropAuthority(false))
                 case DeviceRpcFailed => Some(DropAuthority(false))
                 case _ => None)
      && (failure.truthLost <==>
            code in {DeviceDisconnected, DeviceRpcTransportReset, RuntimeNotConnected, ScreenNotReady,
                     DeviceAgentUnavailable, DeviceRpcFailed})
  {
  }

  predicate ComesAfterDispatch(question: Question) {
    question in {SettleScreen, RefreshScreen, CheckPostcondition, ConfirmType, ConfirmSubmit, DescribeTarget}
  }

  // What is told to the kernel when a question fails with this error, and what the run comes to.
  function ToldAfter(world: World, command: Command, question: Question, raise: Raise): Option<KernelCall> {
    if ComesAfterDispatch(question) && raise.Daemon?
    then CleanupCall(world.hasKernel, MapActionError(raise.error, command).code)
    else None
  }

  function FailsWith(command: Command, question: Question, raise: Raise): Outcome {
    if ComesAfterDispatch(question) && raise.Daemon? then Failure(command, raise.error) else Raised(raise)
  }

  // A failing question ends the run; an error of the daemon behind the dispatch is a failure of the
  // execution and cleaned up after, any other error is raised as it is.
  lemma AfterError(world: World, command: Command, log: Log, n: nat, raise: Raise, outcome: Outcome)
    requires RunsToTheEnd(world, command, log, outcome)
    requires n < |log| && log[n].Called? && log[n].error == Some(raise)
    ensures var told := ToldAfter(world, command, log[n].question, raise);
      && |log| == n + (if told.Some? then 2 else 1)
      && (told.Some? ==> log[n + 1] == KernelCalled(told.value, world.kernel(log[..n + 1], told.value)))
      && outcome == if told.Some? && log[n + 1].fault.Some? then Raised(log[n + 1].fault.value)
                    else FailsWith(command, log[n].question, raise)
  {
    var upTo := log[..n + 1];
    assert upTo[|upTo| - 1] == log[n];
    NextAfterError(world, command, upTo, log[n].question, raise);
    GoesOnIff(world, command, log, n + 1, outcome);
    if |log| > n + 1 {
      CourseStep(world, command, log, n + 1);
      EndsWithCleanup(world, command, log, n, raise, outcome);
    }
  }

  lemma EndsWithCleanup(world: World, command: Command, log: Log, n: nat, raise: Raise, outcome: Outcome)
    requires RunsToTheEnd(world, command, log, outcome)
    requires |log| > n + 1 && log[n].Called? && log[n].error == Some(raise) && log[n + 1].KernelCalled?
    ensures |log| == n + 2
    ensures outcome == if log[n + 1].fault.Some? then Raised(log[n + 1].fault.value)
                       else FailsWith(command, log[n].question, raise)
  {
    var upTo, told := log[..n + 1], log[..n + 2];
    assert told[|told| - 1] == log[n + 1] && told[|told| - 2] == log[n] && told[..|told| - 1] == upTo;
    NextAfterCleanup(world, command, told, upTo, log[n].question, raise, log[n + 1]);
    GoesOnIff(world, command, log, n + 2, outcome);
  }

  lemma NextAfterError(world: World, command: Command, log: Log, question: Question, raise: Raise)
    requires log != [] && log[|log| - 1] == Called(question, Some(raise))
    ensures var told := ToldAfter(world, command, question, raise);
      NextAct(world, command, log) == if told.Some? then Some(Tells(told.value)) else None
    ensures NextAct(world, command, log) == None ==>
      OutcomeOf(world, command, log) == FailsWith(command, question, raise)
  {
  }

  lemma NextAfterCleanup(world: World, command: Command, log: Log, front: Log, question: Question, raise: Raise,
                         told: Event)
    requires |log| > 1 && log[|log| - 1] == told && told.KernelCalled? && log[..|log| - 1] == front
    requires log[|log| - 2] == Called(question, Some(raise))
    ensures NextAct(world, command, log) == None
    ensures OutcomeOf(world, command, log)
      == if told.fault.Some? then Raised(told.fault.value) else FailsWith(command, question, raise)
  {
    assert front[|front| - 1] == Called(question, Some(raise));
  }

  // ---------- Routes ----------

  // A submit is given up if the route that is resolved for the retry is not the one of the first
  // dispatch.
  lemma AfterRoute(world: World, command: Command, log: Log, n: nat, outcome: Outcome)
    requires RunsToTheEnd(world, command, log, outcome) && n < |log| && log[n] == Called(ResolveRoute, None)
    ensures var sent := SentRoute(log[..n + 1]);
      |log| == n + 1 <==> sent.Some? && sent.value != world.route(log[..n + 1])
    ensures |log| == n + 1 ==>
      outcome == Raised(Daemon(DaemonError(TargetNotActionable, None,
                                           "submit is not available for the requested target")))
  {
    var upTo := log[..n + 1];
    assert upTo[|upTo| - 1] == log[n];
    NextAfterRoute(world, command, upTo);
    GoesOnIff(world, command, log, n + 1, outcome);
  }

  lemma NextAfterRoute(world: World, command: Command, log: Log)
    requires AskedLast(log, ResolveRoute)
    ensures NextAct(world, command, log) == None <==>
      SentRoute(log).Some? && SentRoute(log).value != world.route(log)
    ensures NextAct(world, command, log) == None ==>
      OutcomeOf(world, command, log)
        == Raised(Daemon(DaemonError(TargetNotActionable, None, "submit is not available for the requested target")))
  {
  }

  // And if it went out directly and its effect does not show.
  lemma AfterConfirming(world: World, command: Command, log: Log, n: nat, outcome: Outcome)
    requires RunsToTheEnd(world, command, log, outcome) && n < |log| && log[n] == Called(ConfirmSubmit, None)
    ensures |log| == n + 1 <==> SentRoute(log[..n + 1]) == Some(Direct) && world.unconfirmed(log[..n + 1])
    ensures |log| == n + 1 ==>
      var error := DaemonError(SubmitNotConfirmed, None, "submit effect could not be confirmed");
      outcome == ExecutionFailure(error, error, false)
  {
    var upTo := log[..n + 1];
    assert upTo[|upTo| - 1] == log[n];
    NextAfterConfirming(world, command, upTo);
    GoesOnIff(world, command, log, n + 1, outcome);
  }

  // A run goes on exactly while something is to be done next, and ends with its outcome.
  lemma GoesOnIff(world: World, command: Command, log: Log, n: nat, outcome: Outcome)
    requires RunsToTheEnd(world, command, log, outcome) && n <= |log|
    ensures NextAct(world, command, log[..n]) == None <==> |log| == n
    ensures |log| == n ==> log[..n] == log
    ensures NextAct(world, command, log[..n]) == None ==> outcome == OutcomeOf(world, command, log[..n])
  {
    if n < |log| {
      CourseStep(world, command, log, n);
    } else {
      assert log[..n] == log;
    }
  }

  lemma NextAfterConfirming(world: World, command: Command, log: Log)
    requires AskedLast(log, ConfirmSubmit)
    ensures NextAct(world, command, log) == None <==> SentRoute(log) == Some(Direct) && world.unconfirmed(log)
    ensures NextAct(world, command, log) == None ==>
      var error := DaemonError(SubmitNotConfirmed, None, "submit effect could not be confirmed");
      OutcomeOf(world, command, log) == ExecutionFailure(error, error, false)
  {
    UnconfirmedIsMapped(command);
  }

  lemma UnconfirmedIsMapped(command: Command)
    ensures var error := DaemonError(SubmitNotConfirmed, None, "submit effect could not be confirmed");
      Failure(command, NotConfirmedError()) == ExecutionFailure(error, error, false)
  {
  }

  // The latest dispatch gives the route, and a submit is sent by the route that the world has
  // resolved for it two questions ago.
  lemma RouteSent(world: World, command: Command, log: Log, n: nat, outcome: Outcome)
    requires RunsToTheEnd(world, command, log, outcome) && n < |log| && log[n].Dispatched?
    ensures log[n].route == if command == Submit && n > 1 then Some(world.route(log[..n - 2])) else None
    ensures n > 0 && log[n - 1] == Called(ReadContexts, None)
    ensures SentRoute(log[..n + 1]) == log[n].route
  {
    CourseStep(world, command, log, n);
    NextSends(world, command, log[..n], log[n].route);
    if n > 1 {
      assert log[..n][..n - 2] == log[..n - 2];
    }
  }

  lemma NextSends(world: World, command: Command, log: Log, route: Option<Route>)
    requires NextAct(world, command, log) == Some(Sends(route))
    ensures log != [] && log[|log| - 1] == Called(ReadContexts, None)
    ensures route == if command == Submit && |log| > 1 then Some(world.route(log[..|log| - 2])) else None
  {
  }
}
