// Executing a mutating action: dispatch, one repair and one retry of a stale target, confirmation.
module ActionExecutor {
  import opened Common
  import opened ActionWorld
  import opened ActionLogs
  import opened ActionLaws

  // ---------- Calls ----------

  method Ask(world: World, log: Log, question: Question) returns (error: Option<Raise>, later: Log)
    ensures error == world.answer(log, question) && later == log + [Called(question, error)]
    ensures Continues(world, log, later)
    ensures Repairs(later) == Repairs(log) + if question == RepairTarget then 1 else 0
  {
    error := world.answer(log, question);
    later := log + [Called(question, error)];
    RepairsOneMore(log, Called(question, error));
    ContinuesWith(world, log, log, Asks(question));
  }

  // The questions are asked in turn, until one fails.
  method AskAll(world: World, ghost command: Command, log: Log, questions: seq<Question>)
    returns (error: Option<Raise>, later: Log)
    requires RepairTarget !in questions
    ensures Continues(world, log, later) && Repairs(later) == Repairs(log)
    ensures error.None? ==> later == log + Calls(questions)
    ensures error.Some? ==> FailsAmong(questions, later, error.value)
    ensures Due(world, command, log, questions) ==> OnCourse(world, command, log, later)
  {
    error, later := None, log;
    var i := 0;
    while i < |questions|
      invariant 0 <= i <= |questions| && error.None?
      invariant Continues(world, log, later) && Repairs(later) == Repairs(log)
      invariant later == log + Calls(questions[..i])
      invariant Due(world, command, log, questions) ==> OnCourse(world, command, log, later)
    {
      error, later := AskNext(world, command, log, questions, i, later);
      if error.Some? {
        return;
      }
      i := i + 1;
    }
    assert questions[..i] == questions;
  }

  method AskNext(world: World, ghost command: Command, ghost log: Log, questions: seq<Question>, i: nat, asked: Log)
    returns (error: Option<Raise>, later: Log)
    requires i < |questions| && RepairTarget !in questions
    requires Continues(world, log, asked) && asked == log + Calls(questions[..i])
    ensures Continues(world, log, later) && Repairs(later) == Repairs(asked)
    ensures error.None? ==> later == log + Calls(questions[..i + 1])
    ensures error.Some? ==> FailsAmong(questions, later, error.value)
    ensures Due(world, command, log, questions) && OnCourse(world, command, log, asked) ==>
      OnCourse(world, command, log, later)
  {
    OneCallMore(log, questions, i);
    error, later := Ask(world, asked, questions[i]);
    ContinuesFurther(world, log, asked, later);
    OneDueMore(world, command, log, questions, i, asked, Called(questions[i], error));
  }

  // The error is that of one of these questions, the last thing asked.
  predicate FailsAmong(questions: seq<Question>, log: Log, raise: Raise) {
    FailsWith(log, raise) && log[|log| - 1].question in questions
  }

  // ---------- Building the request ----------

  datatype Built = Built(route: Option<Route>, repaired: bool)

  // Building the request is what is due, and the route that it requires is that of the latest dispatch.
  predicate BuildIsDue(world: World, command: Command, log: Log, repairedOnce: bool, requiredRoute: Option<Route>) {
    var questions := BuildQuestions(command, NeedsRepair(world, command, log, repairedOnce));
    && NextAct(world, command, log) == Some(Asks(questions[0]))
    && (command == Submit ==> requiredRoute == SentRoute(log))
  }

  method BuildDispatchRequest(world: World, command: Command, log: Log, repairedOnce: bool,
                              requiredRoute: Option<Route>)
    returns (built: Result<Built, Raise>, later: Log)
    requires repairedOnce ==> IsRefBound(command)
    ensures Continues(world, log, later) && |log| < |later|
    ensures BuildIsDue(world, command, log, repairedOnce, requiredRoute) ==> OnCourse(world, command, log, later)
    ensures Repairs(later) == Repairs(log) + if NeedsRepair(world, command, log, repairedOnce) then 1 else 0
    ensures built.Ok? ==> built.value.repaired == NeedsRepair(world, command, log, repairedOnce)
    ensures built.Ok? ==> built.value.route == RouteBuilt(world, command, later)
    ensures built.Ok? && command == Submit && requiredRoute.Some? ==> built.value.route == requiredRoute
    ensures built.Ok? ==> later == log + Calls(BuildQuestions(command, built.value.repaired))
    ensures built.Err? ==> BuildFails(world, command, requiredRoute, later, built.error)
  {
    if command == Submit {
      built, later := BuildSubmitRequest(world, log, NeedsRepair(world, command, log, repairedOnce), requiredRoute);
      SubmitCalls(log, NeedsRepair(world, command, log, repairedOnce));
      return;
    }
    built, later := BuildOtherRequest(world, command, log, NeedsRepair(world, command, log, repairedOnce));
    OneCall(log, command, NeedsRepair(world, command, log, repairedOnce));
  }

  function OtherQuestion(repair: bool): Question {
    if repair then RepairTarget else BuildRequest
  }

  method BuildOtherRequest(world: World, command: Command, log: Log, repair: bool)
    returns (built: Result<Built, Raise>, later: Log)
    ensures Continues(world, log, later) && |log| < |later|
    ensures NextAct(world, command, log) == Some(Asks(OtherQuestion(repair))) ==> OnCourse(world, command, log, later)
    ensures Repairs(later) == Repairs(log) + if repair then 1 else 0
    ensures built.Ok? ==> built.value == Built(None, repair) && later == log + [Called(OtherQuestion(repair), None)]
    ensures built.Err? ==> FailsWith(later, built.error) && !InConfirmation(later)
  {
    var error;
    error, later := Ask(world, log, OtherQuestion(repair));
    OneAsked(world, command, log, OtherQuestion(repair), error);
    built := if error.Some? then Err(error.value) else Ok(Built(None, repair));
  }

  lemma OneCall(log: Log, command: Command, repair: bool)
    requires command != Submit
    ensures log + Calls(BuildQuestions(command, repair)) == log + [Called(OtherQuestion(repair), None)]
    ensures BuildQuestions(command, repair)[0] == OtherQuestion(repair)
  {
  }

  // The route of a request that has just been built: for a submit, the one resolved a question ago.
  function RouteBuilt(world: World, command: Command, log: Log): Option<Route> {
    if command == Submit && log != [] then Some(world.route(log[..|log| - 1])) else None
  }

  method ResolveSubmitRoute(world: World, log: Log, repair: bool) returns (error: Option<Raise>, later: Log)
    ensures Continues(world, log, later) && |log| < |later|
    ensures NextAct(world, Submit, log) == Some(Asks(if repair then RepairTarget else ResolveTarget)) ==>
      OnCourse(world, Submit, log, later)
    ensures Repairs(later) == Repairs(log) + if repair then 1 else 0
    ensures error.None? ==>
      later == log + [Called(if repair then RepairTarget else ResolveTarget, None)] + [Called(ResolveRoute, None)]
    ensures error.Some? ==> FailsWith(later, error.value) && !InConfirmation(later)
  {
    var first := if repair then RepairTarget else ResolveTarget;
    error, later := Ask(world, log, first);
    ghost var found := later;
    OneAsked(world, Submit, log, first, error);
    if error.None? {
      error, later := Ask(world, later, ResolveRoute);
      ContinuesFurther(world, log, found, later);
      if NextAct(world, Submit, log) == Some(Asks(first)) {
        CourseWith(world, Submit, log, found, Called(ResolveRoute, error));
      }
    }
  }

  function SubmitAsked(log: Log, repaired: bool): Log {
    log + [Called(if repaired then RepairTarget else ResolveTarget, None)]
    + [Called(ResolveRoute, None)] + [Called(CheckRequest, None)]
  }

  lemma SubmitCalls(log: Log, repaired: bool)
    ensures SubmitAsked(log, repaired) == log + Calls(BuildQuestions(Submit, repaired))
  {
  }

  method BuildSubmitRequest(world: World, log: Log, repair: bool, requiredRoute: Option<Route>)
    returns (built: Result<Built, Raise>, later: Log)
    ensures Continues(world, log, later) && |log| < |later|
    ensures SubmitIsDue(world, log, repair, requiredRoute) ==> OnCourse(world, Submit, log, later)
    ensures Repairs(later) == Repairs(log) + if repair then 1 else 0
    ensures built.Ok? ==> built.value == Built(RouteBuilt(world, Submit, later), repair)
    ensures built.Ok? && requiredRoute.Some? ==> built.value.route == requiredRoute
    ensures built.Ok? ==> later == SubmitAsked(log, repair)
    ensures built.Err? ==> BuildFails(world, Submit, requiredRoute, later, built.error)
  {
    var error;
    error, later := ResolveSubmitRoute(world, log, repair);
    if error.Some? {
      return Err(error.value), later;
    }
    built, later := BuildForRoute(world, log, later, repair, requiredRoute);
  }

  method BuildForRoute(world: World, ghost log: Log, routed: Log, repair: bool, requiredRoute: Option<Route>)
    returns (built: Result<Built, Raise>, later: Log)
    requires Continues(world, log, routed) && |log| < |routed| && AskedLast(routed, ResolveRoute)
    ensures Continues(world, log, later) && |log| < |later| && Repairs(later) == Repairs(routed)
    ensures requiredRoute == SentRoute(log) && OnCourse(world, Submit, log, routed) ==>
      OnCourse(world, Submit, log, later)
    ensures built.Ok? ==> built.value == Built(RouteBuilt(world, Submit, later), repair)
    ensures built.Ok? && requiredRoute.Some? ==> built.value.route == requiredRoute
    ensures built.Ok? ==> later == routed + [Called(CheckRequest, None)]
    ensures built.Err? ==> BuildFails(world, Submit, requiredRoute, later, built.error)
  {
    var route := world.route(routed);
    if requiredRoute.Some? && route != requiredRoute.value {
      return Err(Daemon(RouteChangedError())), routed;
    }
    var error;
    error, later := CheckSubmitRequest(world, log, routed, requiredRoute);
    built := if error.Some? then Err(error.value) else Ok(Built(Some(route), repair));
  }

  predicate SubmitIsDue(world: World, log: Log, repair: bool, requiredRoute: Option<Route>) {
    && NextAct(world, Submit, log) == Some(Asks(if repair then RepairTarget else ResolveTarget))
    && requiredRoute == SentRoute(log)
  }

  method CheckSubmitRequest(world: World, ghost log: Log, routed: Log, ghost requiredRoute: Option<Route>)
    returns (error: Option<Raise>, later: Log)
    requires Continues(world, log, routed) && AskedLast(routed, ResolveRoute)
    requires requiredRoute.Some? ==> requiredRoute == Some(world.route(routed))
    ensures Continues(world, log, later) && later == routed + [Called(CheckRequest, error)]
    ensures error.Some? ==> FailsWith(later, error.value) && !InConfirmation(later)
    ensures requiredRoute == SentRoute(log) && OnCourse(world, Submit, log, routed) ==>
      OnCourse(world, Submit, log, later)
    ensures Repairs(later) == Repairs(routed) && RouteBuilt(world, Submit, later) == Some(world.route(routed))
  {
    error, later := Ask(world, routed, CheckRequest);
    assert later[..|later| - 1] == routed;
    ContinuesFurther(world, log, routed, later);
    CheckIsDue(world, log, routed, requiredRoute, Called(CheckRequest, error));
  }

  lemma CheckIsDue(world: World, log: Log, routed: Log, requiredRoute: Option<Route>, e: Event)
    requires Continues(world, log, routed) && AskedLast(routed, ResolveRoute) && ActOf(e) == Asks(CheckRequest)
    requires requiredRoute.Some? ==> requiredRoute == Some(world.route(routed))
    ensures requiredRoute == SentRoute(log) && OnCourse(world, Submit, log, routed) ==>
      OnCourse(world, Submit, log, routed + [e])
  {
    RouteStays(world, log, routed);
    if requiredRoute == SentRoute(log) && OnCourse(world, Submit, log, routed) {
      CourseWith(world, Submit, log, routed, e);
    }
  }

  // The request with all that is read and checked before it is dispatched.
  method PrepareDispatch(world: World, command: Command, log: Log, repairedOnce: bool,
                         requiredRoute: Option<Route>)
    returns (built: Result<Built, Raise>, later: Log)
    requires repairedOnce ==> IsRefBound(command)
    ensures Continues(world, log, later) && |log| < |later|
    ensures BuildIsDue(world, command, log, repairedOnce, requiredRoute) ==> OnCourse(world, command, log, later)
    ensures Repairs(later) == Repairs(log) + if NeedsRepair(world, command, log, repairedOnce) then 1 else 0
    ensures built.Ok? ==> built.value.repaired == NeedsRepair(world, command, log, repairedOnce)
    ensures built.Ok? ==> NextAct(world, command, later) == Some(Sends(built.value.route))
    ensures built.Ok? && command == Submit ==>
      built.value.route.Some? && (requiredRoute.Some? ==> built.value.route == requiredRoute)
    ensures built.Ok? ==> later == log + Preparation(command, built.value.repaired)
    ensures built.Err? ==> BuildFails(world, command, requiredRoute, later, built.error)
  {
    built, later := BuildDispatchRequest(world, command, log, repairedOnce, requiredRoute);
    if built.Ok? {
      var error;
      ghost var requested, questions := later, BuildQuestions(command, built.value.repaired);
      RequestLeadsToChecks(world, command, log, questions);
      error, later := CheckRequested(world, command, later);
      Joined(world, command, log, requested, later);
      Assoc(log, Calls(questions), Calls(CheckQuestions(command)));
      if error.Some? {
        built := Err(error.value);
      }
    }
  }

  method CheckRequested(world: World, command: Command, log: Log) returns (error: Option<Raise>, later: Log)
    requires log != [] && Due(world, command, log, CheckQuestions(command))
    ensures Continues(world, log, later) && Repairs(later) == Repairs(log) && OnCourse(world, command, log, later)
    ensures error.None? ==> later == log + Calls(CheckQuestions(command))
    ensures error.None? ==> NextAct(world, command, later) == Some(Sends(RouteBuilt(world, command, log)))
    ensures error.Some? ==> FailsWith(later, error.value) && !InConfirmation(later)
  {
    error, later := AskAll(world, command, log, CheckQuestions(command));
    if error.Some? {
      ChecksDoNotConfirm(command, later, error.value);
    } else {
      ChecksLeadToDispatch(world, command, log);
    }
  }

  lemma ChecksDoNotConfirm(command: Command, log: Log, raise: Raise)
    requires FailsAmong(CheckQuestions(command), log, raise)
    ensures !InConfirmation(log)
  {
  }

  lemma RequestLeadsToChecks(world: World, command: Command, log: Log, questions: seq<Question>)
    requires questions != [] && EndsBuilding(command, questions[|questions| - 1])
    ensures log + Calls(questions) != [] && Due(world, command, log + Calls(questions), CheckQuestions(command))
  {
    CallsEnd(log, questions);
    BuildingLeadsToChecks(world, command, log + Calls(questions), questions[|questions| - 1]);
    ChecksAreDue(world, command, log + Calls(questions));
  }

  predicate EndsBuilding(command: Command, question: Question) {
    if command == Submit then question == CheckRequest else question in {RepairTarget, BuildRequest}
  }

  lemma BuildingLeadsToChecks(world: World, command: Command, log: Log, question: Question)
    requires AskedLast(log, question) && EndsBuilding(command, question)
    ensures NextAct(world, command, log) == Some(Asks(FirstCheck(command)))
  {
  }

  lemma ChecksLeadToDispatch(world: World, command: Command, requested: Log)
    requires requested != []
    ensures NextAct(world, command, requested + Calls(CheckQuestions(command)))
         == Some(Sends(RouteBuilt(world, command, requested)))
  {
    CallsEnd(requested, CheckQuestions(command));
    if command == Submit {
      var checked := requested + Calls(CheckQuestions(command));
      assert checked[..|checked| - 2] == requested[..|requested| - 1];
    }
  }

  method Dispatch(world: World, log: Log, route: Option<Route>) returns (reply: Option<Raise>, later: Log)
    ensures reply == world.reply(log)
    ensures later == log + [Dispatched(route, reply)] && Repairs(later) == Repairs(log)
  {
    reply := world.reply(log);
    later := log + [Dispatched(route, reply)];
    RepairsOneMore(log, Dispatched(route, reply));
  }

  // ---------- After the dispatch ----------

  method Observe(world: World, command: Command, log: Log)
    returns (error: Option<Raise>, timedOut: bool, later: Log)
    requires NextAct(world, command, log) == Some(Asks(SettleScreen))
    ensures Continues(world, log, later) && |log| < |later| && Repairs(later) == Repairs(log)
    ensures OnCourse(world, command, log, later)
    ensures error.None? ==> later == log + ([Called(SettleScreen, None)] + Calls(ConfirmQuestions(command)))
    ensures error.None? ==> AskedLast(later, LastConfirmed(command))
    ensures error.None? ==> timedOut == HasTimedOut(world, command, later + [Called(DescribeTarget, None)])
    ensures error.Some? ==> FailsWith(later, error.value) && InConfirmation(later)
  {
    timedOut := false;
    error, later := Ask(world, log, SettleScreen);
    ghost var settled := later;
    CourseWith(world, command, log, log, Called(SettleScreen, error));
    if error.None? {
      timedOut := world.timedOut(later);
      error, later := ObserveSettled(world, command, later);
      ContinuesFurther(world, log, settled, later);
      CourseFurther(world, command, log, settled, later);
      Assoc(log, [Called(SettleScreen, None)], Calls(ConfirmQuestions(command)));
      TimedOutThen(world, command, settled);
    }
  }

  method ObserveSettled(world: World, command: Command, log: Log) returns (error: Option<Raise>, later: Log)
    requires AskedLast(log, SettleScreen)
    ensures Continues(world, log, later) && |log| <= |later| && Repairs(later) == Repairs(log)
    ensures OnCourse(world, command, log, later)
    ensures error.None? ==> later == log + Calls(ConfirmQuestions(command))
    ensures error.None? ==> AskedLast(later, LastConfirmed(command))
    ensures error.Some? ==> FailsWith(later, error.value) && InConfirmation(later)
  {
    ConfirmationIsDue(world, command, log);
    error, later := AskAll(world, command, log, ConfirmQuestions(command));
    CallsEnd(log, ConfirmQuestions(command));
    ContinuesMeaning(world, log, later);
  }

  // The question that comes last before the target is described.
  function LastConfirmed(command: Command): Question {
    if command == TypeText then ConfirmType else if command == Submit then ConfirmSubmit else CheckPostcondition
  }

  lemma TimedOutThen(world: World, command: Command, settled: Log)
    ensures HasTimedOut(world, command, settled + Calls(ConfirmQuestions(command)) + [Called(DescribeTarget, None)])
         == world.timedOut(settled)
  {
    var log := settled + Calls(ConfirmQuestions(command)) + [Called(DescribeTarget, None)];
    assert log[..|log| - (|ConfirmQuestions(command)| + 1)] == settled;
  }

  method Confirm(world: World, command: Command, log: Log, built: Built)
    returns (confirmed: Result<bool, Raise>, later: Log)
    requires NextAct(world, command, log) == Some(Asks(SettleScreen))
    requires command == Submit ==> built.route.Some? && SentRoute(log) == built.route
    ensures Continues(world, log, later) && |log| < |later| && Repairs(later) == Repairs(log)
    ensures OnCourse(world, command, log, later)
    ensures confirmed.Ok? ==> later == log + Confirmation(command)
    ensures confirmed.Ok? ==> confirmed.value == HasTimedOut(world, command, later)
    ensures confirmed.Err? ==> ConfirmationFails(world, command, later, confirmed.error)
  {
    var error, timedOut;
    error, timedOut, later := Observe(world, command, log);
    if error.Some? {
      return Err(error.value), later;
    }
    RouteStays(world, log, later);
    if command == Submit && built.route.value == Direct && world.unconfirmed(later) {
      return Err(Daemon(NotConfirmedError())), later;
    }
    ghost var observed := later;
    ConfirmedLeadsToTarget(world, command, observed);
    error, later := Ask(world, later, DescribeTarget);
    ContinuesFurther(world, log, observed, later);
    CourseWith(world, command, log, observed, Called(DescribeTarget, error));
    if error.Some? {
      return Err(error.value), later;
    }
    Assoc(log, [Called(SettleScreen, None)] + Calls(ConfirmQuestions(command)), [Called(DescribeTarget, None)]);
    return Ok(timedOut), later;
  }

  lemma ConfirmedLeadsToTarget(world: World, command: Command, log: Log)
    requires AskedLast(log, LastConfirmed(command)) && (command == Submit ==> !Unconfirmed(world, log))
    ensures NextAct(world, command, log) == Some(Asks(DescribeTarget))
  {
  }

  method CallKernel(world: World, log: Log, call: KernelCall) returns (fault: Option<Raise>, later: Log)
    ensures fault == world.kernel(log, call) && later == log + [KernelCalled(call, fault)]
    ensures Continues(world, log, later) && Repairs(later) == Repairs(log)
  {
    fault := world.kernel(log, call);
    later := log + [KernelCalled(call, fault)];
    RepairsOneMore(log, KernelCalled(call, fault));
    ContinuesWith(world, log, log, Tells(call));
  }

  lemma CleanupIsDue(world: World, command: Command, log: Log, error: DaemonError)
    requires ConfirmationFails(world, command, log, Daemon(error))
    ensures var call := CleanupCall(world.hasKernel, MapActionError(error, command).code);
      call.Some? ==> NextAct(world, command, log) == Some(Tells(call.value))
  {
  }

  method FailAfterDispatch(world: World, command: Command, log: Log, error: DaemonError)
    returns (outcome: Outcome, later: Log)
    requires ConfirmationFails(world, command, log, Daemon(error))
    ensures Continues(world, log, later) && Repairs(later) == Repairs(log)
    ensures OnCourse(world, command, log, later)
    ensures if Escapes(later) then outcome.Raised? else outcome.ExecutionFailure?
    ensures outcome.Raised? ==> EscapesWith(world, command, later, outcome.raise)
    ensures outcome.ExecutionFailure? ==> outcome.original == error
    ensures outcome.ExecutionFailure? ==> CleansUp(world, command, later, outcome)
  {
    var fault := None;
    later := log;
    var normalized := MapActionError(error, command);
    var truthLost := false;
    if normalized.code == DeviceAgentUnauthorized {
      if world.hasKernel {
        fault, later := CallKernel(world, log, InvalidateCredentials);
      }
    } else {
      truthLost := IsAvailabilityError(normalized.code);
    }
    if truthLost && world.hasKernel {
      fault, later := CallKernel(world, log, DropAuthority(DiscardsTransport(normalized.code)));
    }
    CleanupIsDue(world, command, log, error);
    if later != log {
      CourseWith(world, command, log, log, later[|log|]);
    }
    if fault.Some? {
      CleanupEscapes(world, command, log, later[|log|].call, fault.value, later, error);
      return Raised(fault.value), later;
    }
    outcome := ExecutionFailure(error, normalized, truthLost);
    CleanedUp(world, command, log, later, outcome);
  }

  method DropForGlobal(world: World, command: Command, log: Log) returns (fault: Option<Raise>, later: Log)
    requires log != [] && Returned(log[|log| - 1])
    ensures Continues(world, log, later) && Repairs(later) == Repairs(log)
    ensures OnCourse(world, command, log, later)
    ensures fault.None? ==> later == log + DroppedFor(world.hasKernel, command)
    ensures fault.None? ==> NextAct(world, command, later) == Some(Asks(SettleScreen))
    ensures fault.Some? ==> Escapes(later) && EscapesWith(world, command, later, fault.value)
  {
    fault, later := None, log;
    if command == Global && world.hasKernel {
      fault, later := CallKernel(world, log, DropAuthority(false));
      CourseWith(world, command, log, log, KernelCalled(DropAuthority(false), fault));
    }
  }

  method ConfirmOrFail(world: World, command: Command, log: Log, built: Built) returns (outcome: Outcome, later: Log)
    requires NextAct(world, command, log) == Some(Asks(SettleScreen))
    requires command == Submit ==> built.route.Some? && SentRoute(log) == built.route
    ensures Continues(world, log, later) && |log| < |later| && Repairs(later) == Repairs(log)
    ensures OnCourse(world, command, log, later)
    ensures if Escapes(later) then outcome.Raised? else outcome.ExecutionFailure? || outcome.Succeeded?
    ensures outcome.Raised? ==> EscapesWith(world, command, later, outcome.raise)
    ensures outcome.ExecutionFailure? ==> CleansUp(world, command, later, outcome)
    ensures outcome.Succeeded? ==> later == log + Confirmation(command)
    ensures outcome.Succeeded? ==> outcome == Succeeded(built.repaired, HasTimedOut(world, command, later))
  {
    var confirmed;
    confirmed, later := Confirm(world, command, log, built);
    if confirmed.Ok? {
      outcome := Succeeded(built.repaired, confirmed.value);
      ConfirmationEnds(log, command);
    } else {
      ghost var failed := later;
      outcome, later := FailOrRaise(world, command, later, confirmed.error);
      Joined(world, command, log, failed, later);
    }
  }

  lemma ConfirmationEnds(log: Log, command: Command)
    ensures !Escapes(log + Confirmation(command))
  {
  }

  // Only errors of the daemon are caught.
  method FailOrRaise(world: World, command: Command, log: Log, raise: Raise) returns (outcome: Outcome, later: Log)
    requires ConfirmationFails(world, command, log, raise)
    ensures Continues(world, log, later) && Repairs(later) == Repairs(log)
    ensures OnCourse(world, command, log, later)
    ensures if Escapes(later) then outcome.Raised? else outcome.ExecutionFailure?
    ensures outcome.Raised? ==> EscapesWith(world, command, later, outcome.raise)
    ensures outcome.ExecutionFailure? ==> CleansUp(world, command, later, outcome)
  {
    if raise.Foreign? {
      FailureEscapesIff(world, command, log, raise);
      return Raised(raise), log;
    }
    outcome, later := FailAfterDispatch(world, command, log, raise.error);
  }

  method Conclude(world: World, command: Command, log: Log, built: Built) returns (outcome: Outcome, later: Log)
    requires log != [] && Returned(log[|log| - 1])
    requires command == Submit ==> built.route.Some? && log[|log| - 1].route == built.route
    ensures Continues(world, log, later) && |log| < |later| && Repairs(later) == Repairs(log)
    ensures OnCourse(world, command, log, later)
    ensures if Escapes(later) then outcome.Raised? else outcome.ExecutionFailure? || outcome.Succeeded?
    ensures outcome.Raised? ==> EscapesWith(world, command, later, outcome.raise)
    ensures outcome.ExecutionFailure? ==> CleansUp(world, command, later, outcome)
    ensures outcome.Succeeded? ==> later == log + Closing(world.hasKernel, command)
    ensures outcome.Succeeded? ==> outcome == Succeeded(built.repaired, HasTimedOut(world, command, later))
  {
    var fault;
    fault, later := DropForGlobal(world, command, log);
    if fault.Some? {
      return Raised(fault.value), later;
    }
    Assoc(log, DroppedFor(world.hasKernel, command), Confirmation(command));
    ghost var dropped := later;
    RouteStays(world, log, dropped);
    outcome, later := ConfirmOrFail(world, command, later, built);
    ContinuesFurther(world, log, dropped, later);
    CourseFurther(world, command, log, dropped, later);
  }

  // ---------- Execution ----------

  method Execute(world: World, command: Command) returns (outcome: Outcome, log: Log)
    ensures Executes(world, command, log, outcome)
    ensures log == [] <==> Refusal(world, command).Some?
    ensures log == [] ==> Refusal(world, command) == Some(outcome)
    ensures !world.connected ==> log == [] && outcome == Raised(Daemon(NotConnectedError()))
  {
    log := [];
    if !world.connected {
      outcome := Raised(Daemon(NotConnectedError()));
    } else if IsRefBound(command) && !world.screenReady {
      outcome := Raised(Daemon(NotReadyError()));
    } else if command == Focus && world.alreadyFocused {
      outcome := NotAttempted;
    } else {
      outcome, log := Attempt(world, command);
      return;
    }
    NothingAsked(world, command, outcome);
  }

  method Attempt(world: World, command: Command) returns (outcome: Outcome, log: Log)
    requires Refusal(world, command) == None
    ensures Executes(world, command, log, outcome) && log != []
  {
    var error;
    error, log := Check(world, command);
    if error.Some? {
      NeverDispatched(world, command, log, error.value);
      return Raised(error.value), log;
    }
    outcome, log := PrepareAndPerform(world, command, log);
  }

  method PrepareAndPerform(world: World, command: Command, log: Log) returns (outcome: Outcome, later: Log)
    requires Continues(world, [], log) && OnCourse(world, command, [], log) && Repairs(log) == 0
    requires log == Calls(Opening(world, command))
    ensures Executes(world, command, later, outcome) && later != []
  {
    var built;
    OpeningLeadsToBuilding(world, command);
    built, later := PrepareDispatch(world, command, log, false, None);
    Joined(world, command, [], log, later);
    if built.Err? {
      NeverDispatched(world, command, later, built.error);
      return Raised(built.error), later;
    }
    outcome, later := Perform(world, command, later, built.value);
    LawfulIsOver(world, command, later, outcome);
  }

  lemma NeverDispatched(world: World, command: Command, log: Log, raise: Raise)
    requires Continues(world, [], log) && OnCourse(world, command, [], log) && Repairs(log) <= 1
    requires FailsWith(log, raise) && !InConfirmation(log)
    ensures Executes(world, command, log, Raised(raise))
  {
    NothingDispatched(world, command, log, raise);
    HonestFurther(world, [], log);
    LawfulIsOver(world, command, log, Raised(raise));
  }

  method Check(world: World, command: Command) returns (error: Option<Raise>, log: Log)
    requires Refusal(world, command) == None
    ensures Continues(world, [], log) && Repairs(log) == 0
    ensures error.None? ==> log == Calls(Opening(world, command))
    ensures error.Some? ==> FailsWith(log, error.value) && !InConfirmation(log)
    ensures OnCourse(world, command, [], log)
  {
    OpeningIsDue(world, command);
    error, log := AskAll(world, command, [], Opening(world, command));
    if error.Some? {
      OpeningDoesNotConfirm(world, command, log, error.value);
    }
    NoFront(Calls(Opening(world, command)));
  }

  lemma OpeningDoesNotConfirm(world: World, command: Command, log: Log, raise: Raise)
    requires FailsAmong(Opening(world, command), log, raise)
    ensures !InConfirmation(log)
  {
  }

  lemma OpeningLeadsToBuilding(world: World, command: Command)
    ensures BuildIsDue(world, command, Calls(Opening(world, command)), false, None)
  {
    var asked := Calls(Opening(world, command));
    NoFront(asked);
    CallsEnd([], Opening(world, command));
    NoRouteYet(asked);
    OpeningEnds(world, command, asked, LastOpening(world, command));
  }

  function LastOpening(world: World, command: Command): Question {
    if world.transportOpen then MakeClient else if command == Global then CaptureBaseline else CheckSemantics
  }

  lemma OpeningEnds(world: World, command: Command, asked: Log, last: Question)
    requires AskedLast(asked, last) && last == LastOpening(world, command) && SentRoute(asked) == None
    ensures BuildIsDue(world, command, asked, false, None)
  {
  }

  method Perform(world: World, command: Command, log: Log, built: Built) returns (outcome: Outcome, later: Log)
    requires Continues(world, [], log) && log == Calls(Opening(world, command)) + Preparation(command, built.repaired)
    requires OnCourse(world, command, [], log) && NextAct(world, command, log) == Some(Sends(built.route))
    requires Repairs(log) == (if built.repaired then 1 else 0) && (command == Submit ==> built.route.Some?)
    ensures DispatchedLawfully(world, command, later, outcome) && later != []
    ensures Honest(world, later) && OnCourse(world, command, [], later)
    ensures Repairs(later) <= 1
  {
    var reply;
    reply, later := Dispatch(world, log, built.route);
    ghost var sent, last := later, Dispatched(built.route, reply);
    Sent(world, command, log, last);
    if IsRefBound(command) && IsStale(reply) && !built.repaired {
      outcome, later := Retry(world, command, log, later, built.route);
    } else {
      outcome, later := Finish(world, command, later, reply, built);
      LawfulAfterOne(world, command, log, last, sent, later, outcome, built.repaired);
    }
  }

  // The dispatch has returned, or what it raised is raised.
  method Finish(world: World, command: Command, log: Log, reply: Option<Raise>, built: Built)
    returns (outcome: Outcome, later: Log)
    requires log != [] && log[|log| - 1] == Dispatched(built.route, reply) && (command == Submit ==> built.route.Some?)
    requires Honest(world, log) && OnCourse(world, command, [], log)
    ensures Concludes(world, command, log, later, outcome, built.repaired)
    ensures Honest(world, later) && OnCourse(world, command, [], later) && later != []
  {
    if reply.Some? {
      return Raised(Mapped(reply.value, command)), log;
    }
    outcome, later := Conclude(world, command, log, built);
    Continued(world, command, log, later);
  }

  method Retry(world: World, command: Command, ghost front: Log, log: Log, route: Option<Route>)
    returns (outcome: Outcome, later: Log)
    requires FoundStale(world, front, log, route) && IsRefBound(command) && (command == Submit ==> route.Some?)
    requires front == Calls(Opening(world, command)) + Preparation(command, false)
    requires Honest(world, log) && OnCourse(world, command, [], log)
    ensures DispatchedLawfully(world, command, later, outcome) && later != []
    ensures Honest(world, later) && OnCourse(world, command, [], later)
    ensures Repairs(later) == 1
  {
    var built;
    built, later := PrepareAgain(world, command, front, log, route);
    if built.Err? {
      outcome := Raised(built.error);
      LawfulIfNotRebuilt(world, command, front, log, route, later, outcome);
      return;
    }
    ghost var second := later;
    ghost var last;
    outcome, later, last := DispatchAgain(world, command, later, built.value);
    LawfulAfterTwo(world, command, front, log, route, second, last, second + [last], later, outcome);
  }

  method PrepareAgain(world: World, command: Command, ghost front: Log, log: Log, route: Option<Route>)
    returns (built: Result<Built, Raise>, later: Log)
    requires FoundStale(world, front, log, route) && IsRefBound(command) && (command == Submit ==> route.Some?)
    requires Honest(world, log) && OnCourse(world, command, [], log)
    ensures Continues(world, log, later) && |log| < |later| && Repairs(later) == 1
    ensures Honest(world, later) && OnCourse(world, command, [], later)
    ensures built.Ok? ==> built.value.repaired && NextAct(world, command, later) == Some(Sends(built.value.route))
    ensures built.Ok? && command == Submit ==> built.value.route == route
    ensures built.Ok? ==> later == log + Preparation(command, true)
    ensures built.Err? ==> BuildFails(world, command, route, later, built.error)
  {
    StaleLeadsToRepair(world, command, front, log, route);
    built, later := PrepareDispatch(world, command, log, true, route);
    Continued(world, command, log, later);
  }

  lemma StaleLeadsToRepair(world: World, command: Command, front: Log, log: Log, route: Option<Route>)
    requires FoundStale(world, front, log, route) && IsRefBound(command)
    ensures BuildIsDue(world, command, log, true, route)
  {
  }

  method DispatchAgain(world: World, command: Command, log: Log, built: Built)
    returns (outcome: Outcome, later: Log, ghost last: Event)
    requires command == Submit ==> built.route.Some?
    requires Honest(world, log) && OnCourse(world, command, [], log)
    requires NextAct(world, command, log) == Some(Sends(built.route))
    ensures last.Dispatched? && last.route == built.route && Repairs(log + [last]) == Repairs(log)
    ensures Concludes(world, command, log + [last], later, outcome, built.repaired)
    ensures Honest(world, later) && OnCourse(world, command, [], later) && later != []
  {
    var reply;
    reply, later := Dispatch(world, log, built.route);
    last := Dispatched(built.route, reply);
    Sent(world, command, log, last);
    outcome, later := Finish(world, command, later, reply, built);
  }
}
