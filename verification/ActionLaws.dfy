// The laws that every execution of a mutating action obeys, and why its log obeys them.
module ActionLaws {
  import opened Common
  import opened ActionWorld
  import opened ActionLogs

  // ---------- What every log obeys ----------

  // One dispatch follows another only if that one was told that its target is stale, and
  // exactly one repair lies between them, before which there was none.
  predicate DispatchesLawfully(command: Command, log: Log) {
    forall i, j :: 0 <= i < j < |log| && log[i].Dispatched? && log[j].Dispatched? ==>
      && IsStale(log[i].reply) && IsRefBound(command)
      && Repairs(log[..i]) == 0 && Repairs(log[..j]) == 1
      && (command == Submit ==> log[i].route.Some? && log[j].route == log[i].route)
  }

  // A stale target of a ref-bound command that was not repaired yet is repaired.
  predicate StaleIsRepaired(command: Command, log: Log) {
    forall i :: 0 <= i < |log| && log[i].Dispatched? && IsStale(log[i].reply) ==>
      IsRefBound(command) && Repairs(log[..i]) == 0 ==> Repairs(log) == 1
  }

  // No dispatch goes out unless its request was just built, from a repaired target if there was
  // a repair, and checked.
  predicate DispatchesArePrepared(command: Command, log: Log) {
    forall i :: 0 <= i < |log| && log[i].Dispatched? ==>
      IsPrepared(command, log[..i], Repairs(log[..i]) > 0)
  }

  predicate IsPrepared(command: Command, log: Log, repaired: bool) {
    var prepared := Preparation(command, repaired);
    |prepared| <= |log| && log[|log| - |prepared|..] == prepared
  }

  // The log of an execution that succeeds, with and without a stale target in between.
  ghost predicate Succeeds(world: World, command: Command, log: Log, repaired: bool) {
    || (exists route :: log == DirectLog(world, command, repaired, route))
    || (repaired && exists route, reply, second ::
          IsStale(Some(reply)) && log == RetriedLog(world, command, route, reply, second))
  }

  predicate ConfirmationFails(world: World, command: Command, log: Log, raise: Raise) {
    || (FailsWith(log, raise) && InConfirmation(log))
    || (command == Submit && raise == Daemon(NotConfirmedError()) && AskedLast(log, ConfirmSubmit)
        && Unconfirmed(world, log))
  }

  // After a failure behind a dispatch: the error of the confirmation, mapped, and the cleanup.
  predicate CleansUp(world: World, command: Command, log: Log, outcome: Outcome)
    requires outcome.ExecutionFailure?
  {
    var cleanup := Cleanup(world.hasKernel, outcome.normalized.code);
    var n := |log| - |cleanup|;
    && outcome == Failure(command, outcome.original)
    && n >= 0 && log[n..] == cleanup
    && ConfirmationFails(world, command, log[..n], Daemon(outcome.original))
  }

  // ---------- What gets past the handler ----------

  // The last call raised something that nothing catches: the kernel did, or the exception is not
  // one of the daemon.
  predicate Escapes(log: Log) {
    && log != []
    && var last := log[|log| - 1];
    || (last.KernelCalled? && last.fault.Some?)
    || (last.Called? && last.error.Some? && last.error.value.Foreign?)
  }

  // The screen could not be dropped on the way out of the dispatch of a global action.
  predicate GlobalDropFails(hasKernel: bool, command: Command, log: Log, call: KernelCall) {
    && DroppedFor(hasKernel, command) == [KernelCalled(call, None)]
    && log != [] && Returned(log[|log| - 1])
  }

  // The cleanup that the original error asks for could not be made, and hides that error.
  predicate CleanupFails(world: World, command: Command, log: Log, call: KernelCall, original: DaemonError) {
    && ConfirmationFails(world, command, log, Daemon(original))
    && CleanupCall(world.hasKernel, MapActionError(original, command).code) == Some(call)
  }

  // All that is raised as it is behind a dispatch that returned.
  ghost predicate EscapesWith(world: World, command: Command, log: Log, raise: Raise) {
    && log != []
    && var front, last := log[..|log| - 1], log[|log| - 1];
    || (raise.Foreign? && FailsWith(log, raise))
    || (last.KernelCalled? && last.fault == Some(raise)
        && (GlobalDropFails(world.hasKernel, command, front, last.call)
            || exists original :: CleanupFails(world, command, front, last.call, original)))
  }

  lemma FailureEscapesIff(world: World, command: Command, log: Log, raise: Raise)
    requires ConfirmationFails(world, command, log, raise)
    ensures Escapes(log) <==> raise.Foreign?
  {
  }

  lemma CleanupEscapes(world: World, command: Command, log: Log, call: KernelCall, raise: Raise, later: Log,
                       original: DaemonError)
    requires CleanupFails(world, command, log, call, original)
    requires later == log + [KernelCalled(call, Some(raise))]
    ensures Escapes(later) && EscapesWith(world, command, later, raise)
  {
    assert later[..|later| - 1] == log;
  }

  lemma CleanedUp(world: World, command: Command, log: Log, later: Log, outcome: Outcome)
    requires outcome.ExecutionFailure? && outcome == Failure(command, outcome.original)
    requires ConfirmationFails(world, command, log, Daemon(outcome.original))
    requires later == log + Cleanup(world.hasKernel, outcome.normalized.code)
    ensures CleansUp(world, command, later, outcome) && !Escapes(later)
  {
    FailureEscapesIff(world, command, log, Daemon(outcome.original));
    assert later[..|log|] == log;
  }

  // ---------- All of it ----------

  // What the log and the outcome come to, in the end.
  ghost predicate DispatchedLawfully(world: World, command: Command, log: Log, outcome: Outcome) {
    && DispatchesLawfully(command, log) && DispatchesArePrepared(command, log) && StaleIsRepaired(command, log)
    && (outcome.ExecutionFailure? || outcome.Succeeded? <==> SomeDispatchReturned(log) && !Escapes(log))
    && EndsLawfully(world, command, log, outcome)
  }

  ghost predicate EndsLawfully(world: World, command: Command, log: Log, outcome: Outcome) {
    match outcome
    case NotAttempted => log == [] && Refusal(world, command) == Some(NotAttempted)
    case Raised(raise) =>
      if log == [] then Refusal(world, command) == Some(outcome) else RaisesLawfully(world, command, log, raise)
    case ExecutionFailure(_, _, _) => CleansUp(world, command, log, outcome)
    case Succeeded(repaired, timedOut) =>
      && Succeeds(world, command, log, repaired) && (repaired <==> Repairs(log) == 1)
      && timedOut == HasTimedOut(world, command, log)
  }

  // What is raised is what the last call raised, mapped if that was a dispatch, or the error of a
  // route which the repair changed; behind a dispatch that returned, it has got past the handler.
  ghost predicate RaisesLawfully(world: World, command: Command, log: Log, raise: Raise)
    requires log != []
  {
    var last := log[|log| - 1];
    if last.Dispatched? then last.reply.Some? && raise == Mapped(last.reply.value, command)
    else if SomeDispatchReturned(log) then EscapesWith(world, command, log, raise)
    else
      || (FailsWith(log, raise) && !InConfirmation(log))
      || (command == Submit && Repairs(log) == 1 && raise == Daemon(RouteChangedError())
          && AskedLast(log, ResolveRoute) && RouteDiffers(world, log))
  }

  // The run is the one that the world and the course determine, and the laws hold of it.
  ghost predicate Executes(world: World, command: Command, log: Log, outcome: Outcome) {
    RunsToTheEnd(world, command, log, outcome) && DispatchedLawfully(world, command, log, outcome) && Repairs(log) <= 1
  }

  // How a call concludes that dispatched last at the end of `sent`.
  ghost predicate Concludes(world: World, command: Command, sent: Log, later: Log, outcome: Outcome, repaired: bool)
    requires sent != [] && sent[|sent| - 1].Dispatched?
  {
    var reply := sent[|sent| - 1].reply;
    && Continues(world, sent, later) && Repairs(later) == Repairs(sent)
    && (reply.Some? ==> later == sent && outcome == Raised(Mapped(reply.value, command)))
    && (reply.None? ==> |sent| < |later| && (outcome.Raised? <==> Escapes(later)) && !outcome.NotAttempted?)
    && (reply.None? && outcome.Raised? ==> EscapesWith(world, command, later, outcome.raise))
    && (outcome.ExecutionFailure? ==> CleansUp(world, command, later, outcome))
    && (outcome.Succeeded? ==> later == sent + Closing(world.hasKernel, command))
    && (outcome.Succeeded? ==> outcome == Succeeded(repaired, HasTimedOut(world, command, later)))
  }

  // ---------- Logs with one dispatch and with two ----------

  lemma NoDispatchIsLawful(world: World, command: Command, log: Log)
    requires Continues(world, [], log)
    ensures DispatchesLawfully(command, log) && DispatchesArePrepared(command, log) && StaleIsRepaired(command, log)
    ensures !SomeDispatchReturned(log)
  {
    ContinuesMeaning(world, [], log);
  }

  lemma NothingDispatched(world: World, command: Command, log: Log, raise: Raise)
    requires Continues(world, [], log) && FailsWith(log, raise) && !InConfirmation(log)
    ensures DispatchedLawfully(world, command, log, Raised(raise))
  {
    NoDispatchIsLawful(world, command, log);
  }

  lemma NothingAsked(world: World, command: Command, outcome: Outcome)
    requires Refusal(world, command) == Some(outcome)
    ensures Executes(world, command, [], outcome)
  {
    NoDispatchIsLawful(world, command, []);
    RefusedIsOver(world, command, outcome);
    assert EndsLawfully(world, command, [], outcome);
  }

  lemma RefusedIsOver(world: World, command: Command, outcome: Outcome)
    requires Refusal(world, command) == Some(outcome)
    ensures RunsToTheEnd(world, command, [], outcome) && (outcome.Raised? || outcome.NotAttempted?)
  {
  }

  lemma OneDispatch(world: World, command: Command, log: Log, i: nat)
    requires i < |log| && log[i].Dispatched?
    requires Continues(world, [], log[..i]) && Continues(world, log[..i + 1], log)
    requires IsPrepared(command, log[..i], Repairs(log[..i]) > 0)
    ensures DispatchesLawfully(command, log) && DispatchesArePrepared(command, log)
    ensures SomeDispatchReturned(log) <==> Returned(log[i])
    ensures forall k :: 0 <= k < |log| && log[k].Dispatched? ==> k == i
  {
    ContinuesMeaning(world, [], log[..i]);
    ContinuesMeaning(world, log[..i + 1], log);
    forall k | 0 <= k < |log| && k != i ensures !log[k].Dispatched? {
      if k < i {
        assert log[..i][k] == log[k];
      }
    }
  }

  // `front` and `second` are what lies before the two dispatches, `first` and `sent` include them.
  predicate BothPlaced(front: Log, first: Log, second: Log, sent: Log, log: Log) {
    && |front| < |first| <= |second| < |sent| <= |log|
    && |first| == |front| + 1 && |sent| == |second| + 1
    && log[..|front|] == front && log[..|first|] == first
    && log[..|second|] == second && log[..|sent|] == sent
    && log[|front|] == first[|front|] && log[|second|] == sent[|second|]
  }

  lemma NoDispatchBetween(world: World, a: Log, b: Log, log: Log)
    requires |a| <= |b| <= |log| && log[..|b|] == b && Continues(world, a, b)
    ensures forall k :: |a| <= k < |b| ==> !log[k].Dispatched?
  {
    ContinuesMeaning(world, a, b);
    forall k | |a| <= k < |b| ensures !log[k].Dispatched? {
      assert log[k] == log[..|b|][k];
    }
  }

  lemma OnlyTheseTwo(world: World, front: Log, first: Log, second: Log, sent: Log, log: Log)
    requires BothPlaced(front, first, second, sent, log)
    requires Continues(world, [], front) && Continues(world, first, second) && Continues(world, sent, log)
    ensures forall k :: 0 <= k < |log| && log[k].Dispatched? ==> k == |front| || k == |second|
  {
    NoDispatchBetween(world, [], front, log);
    NoDispatchBetween(world, first, second, log);
    assert log[..|log|] == log;
    NoDispatchBetween(world, sent, log, log);
  }

  lemma TwoDispatches(command: Command, log: Log, i: nat, j: nat)
    requires i < j < |log| && log[i].Dispatched? && log[j].Dispatched?
    requires forall k :: 0 <= k < |log| && log[k].Dispatched? ==> k == i || k == j
    requires IsStale(log[i].reply) && IsRefBound(command)
    requires Repairs(log[..i]) == 0 && Repairs(log[..j]) == 1
    requires command == Submit ==> log[i].route.Some? && log[j].route == log[i].route
    requires IsPrepared(command, log[..i], false) && IsPrepared(command, log[..j], true)
    ensures DispatchesLawfully(command, log) && DispatchesArePrepared(command, log)
    ensures SomeDispatchReturned(log) <==> Returned(log[j])
  {
  }

  lemma Prepared(command: Command, front: Log, log: Log, repaired: bool)
    requires log == front + Preparation(command, repaired)
    ensures IsPrepared(command, log, repaired)
  {
  }

  lemma Placed(world: World, front: Log, last: Event, sent: Log, later: Log)
    requires sent == front + [last] && Continues(world, sent, later)
    ensures |front| < |later| && later[..|front|] == front && later[..|front| + 1] == sent && later[|front|] == last
  {
    ContinuesMeaning(world, sent, later);
    assert later[..|front|] == sent[..|front|];
    assert later[|front|] == sent[|front|];
  }

  lemma PlaceBoth(world: World, front: Log, e: Event, first: Log, second: Log, last: Event, sent: Log, later: Log)
    requires first == front + [e] && Continues(world, first, second)
    requires sent == second + [last] && Continues(world, sent, later)
    ensures BothPlaced(front, first, second, sent, later)
  {
    Placed(world, second, last, sent, later);
    Placed(world, front, e, first, second);
    assert later[..|second|][..|first|] == later[..|first|] && later[..|second|][..|front|] == later[..|front|];
    assert later[..|second|][|front|] == later[|front|];
  }

  // The first dispatch, the last thing in the log, found its target stale.
  predicate FoundStale(world: World, front: Log, log: Log, route: Option<Route>) {
    && |log| == |front| + 1
    && var last := log[|front|];
    && log == front + [last] && last.Dispatched? && last.route == route && IsStale(last.reply)
    && Continues(world, [], front) && Repairs(front) == 0 && Repairs(log) == 0
  }

  lemma OneLawful(world: World, command: Command, front: Log, last: Event, sent: Log, later: Log, repaired: bool)
    requires Continues(world, [], front) && IsPrepared(command, front, repaired)
    requires Repairs(front) == if repaired then 1 else 0
    requires last.Dispatched? && sent == front + [last] && Continues(world, sent, later)
    requires IsStale(last.reply) && IsRefBound(command) ==> repaired
    ensures DispatchesLawfully(command, later) && DispatchesArePrepared(command, later)
    ensures StaleIsRepaired(command, later)
    ensures SomeDispatchReturned(later) <==> Returned(last)
  {
    Placed(world, front, last, sent, later);
    OneDispatch(world, command, later, |front|);
  }

  lemma StaleLawful(world: World, command: Command, front: Log, first: Log, route: Option<Route>, later: Log)
    requires FoundStale(world, front, first, route) && Continues(world, first, later) && |first| < |later|
    requires Repairs(later) == 1 && IsPrepared(command, front, false)
    ensures DispatchesLawfully(command, later) && DispatchesArePrepared(command, later)
    ensures StaleIsRepaired(command, later) && !SomeDispatchReturned(later) && !later[|later| - 1].Dispatched?
  {
    Placed(world, front, first[|front|], first, later);
    OneDispatch(world, command, later, |front|);
  }

  lemma BothLawful(world: World, command: Command, front: Log, first: Log, route: Option<Route>, second: Log,
                   last: Event, sent: Log, later: Log)
    requires FoundStale(world, front, first, route) && IsRefBound(command) && IsPrepared(command, front, false)
    requires Continues(world, first, second) && Repairs(second) == 1 && IsPrepared(command, second, true)
    requires last.Dispatched? && sent == second + [last] && Continues(world, sent, later)
    requires command == Submit ==> route.Some? && last.route == route
    ensures DispatchesLawfully(command, later) && DispatchesArePrepared(command, later)
    ensures SomeDispatchReturned(later) <==> Returned(last)
  {
    PlaceBoth(world, front, first[|front|], first, second, last, sent, later);
    OnlyTheseTwo(world, front, first, second, sent, later);
    TwoDispatches(command, later, |front|, |second|);
  }

  lemma RetryLawful(world: World, command: Command, opening: Log, front: Log, first: Log, route: Option<Route>,
                    second: Log, last: Event, sent: Log, later: Log)
    requires FoundStale(world, front, first, route) && IsRefBound(command)
    requires front == opening + Preparation(command, false)
    requires Continues(world, first, second) && Repairs(second) == 1 && second == first + Preparation(command, true)
    requires last.Dispatched? && sent == second + [last] && Continues(world, sent, later)
    requires command == Submit ==> route.Some? && last.route == route
    ensures DispatchesLawfully(command, later) && DispatchesArePrepared(command, later)
    ensures SomeDispatchReturned(later) <==> Returned(last)
  {
    Prepared(command, opening, front, false);
    Prepared(command, first, second, true);
    BothLawful(world, command, front, first, route, second, last, sent, later);
  }

  // ---------- Lawful ends ----------

  predicate BuildFails(world: World, command: Command, requiredRoute: Option<Route>, log: Log, raise: Raise) {
    || (FailsWith(log, raise) && !InConfirmation(log))
    || (command == Submit && requiredRoute.Some? && raise == Daemon(RouteChangedError())
        && AskedLast(log, ResolveRoute) && requiredRoute != Some(world.route(log)))
  }

  lemma SucceedsDirectly(world: World, command: Command, front: Log, route: Option<Route>, log: Log, repaired: bool)
    requires front == Calls(Opening(world, command)) + Preparation(command, repaired)
    requires log == front + [Dispatched(route, None)] + Closing(world.hasKernel, command)
    ensures Succeeds(world, command, log, repaired)
  {
    assert log == DirectLog(world, command, repaired, route);
  }

  lemma SucceedsOnRetry(world: World, command: Command, front: Log, first: Log, second: Log, route: Option<Route>,
                        log: Log)
    requires front == Calls(Opening(world, command)) + Preparation(command, false)
    requires |first| == |front| + 1 && first == front + [first[|front|]]
    requires first[|front|].Dispatched? && IsStale(first[|front|].reply)
    requires second == first + Preparation(command, true)
    requires log == second + [Dispatched(route, None)] + Closing(world.hasKernel, command)
    ensures Succeeds(world, command, log, true)
  {
    var last := first[|front|];
    assert log == RetriedLog(world, command, last.route, last.reply.value, route);
  }

  lemma RaisedBeforeReturn(world: World, command: Command, log: Log, route: Option<Route>, raise: Raise)
    requires log != [] && !log[|log| - 1].Dispatched? && !SomeDispatchReturned(log)
    requires Repairs(log) == 1 && BuildFails(world, command, route, log, raise) && SentRoute(log) == route
    ensures RaisesLawfully(world, command, log, raise)
  {
  }

  lemma EndsAfterDispatch(world: World, command: Command, front: Log, last: Event, sent: Log, later: Log,
                          outcome: Outcome, repaired: bool)
    requires last.Dispatched? && sent == front + [last] && Concludes(world, command, sent, later, outcome, repaired)
    requires Repairs(sent) == (if repaired then 1 else 0) && (SomeDispatchReturned(later) <==> Returned(last))
    requires outcome.Succeeded? ==> Succeeds(world, command, later, repaired)
    ensures outcome.ExecutionFailure? || outcome.Succeeded? <==> SomeDispatchReturned(later) && !Escapes(later)
    ensures EndsLawfully(world, command, later, outcome)
  {
  }

  lemma LawfulAfterOne(world: World, command: Command, front: Log, last: Event, sent: Log, later: Log,
                       outcome: Outcome, repaired: bool)
    requires Continues(world, [], front) && front == Calls(Opening(world, command)) + Preparation(command, repaired)
    requires Repairs(front) == if repaired then 1 else 0
    requires last.Dispatched? && sent == front + [last]
    requires Repairs(sent) == Repairs(front) && Concludes(world, command, sent, later, outcome, repaired)
    requires IsStale(last.reply) && IsRefBound(command) ==> repaired
    ensures DispatchedLawfully(world, command, later, outcome)
  {
    Prepared(command, Calls(Opening(world, command)), front, repaired);
    OneLawful(world, command, front, last, sent, later, repaired);
    if outcome.Succeeded? {
      SucceedsDirectly(world, command, front, last.route, later, repaired);
    }
    EndsAfterDispatch(world, command, front, last, sent, later, outcome, repaired);
  }

  lemma LawfulIfNotRebuilt(world: World, command: Command, front: Log, first: Log, route: Option<Route>, later: Log,
                           outcome: Outcome)
    requires FoundStale(world, front, first, route) && Continues(world, first, later) && |first| < |later|
    requires outcome.Raised?
    requires Repairs(later) == 1 && BuildFails(world, command, route, later, outcome.raise)
    requires front == Calls(Opening(world, command)) + Preparation(command, false)
    ensures DispatchedLawfully(world, command, later, outcome)
  {
    Prepared(command, Calls(Opening(world, command)), front, false);
    StaleLawful(world, command, front, first, route, later);
    RouteStays(world, first, later);
    RaisedBeforeReturn(world, command, later, route, outcome.raise);
  }

  lemma LawfulAfterTwo(world: World, command: Command, front: Log, first: Log, route: Option<Route>, second: Log,
                       last: Event, sent: Log, later: Log, outcome: Outcome)
    requires FoundStale(world, front, first, route) && IsRefBound(command)
    requires front == Calls(Opening(world, command)) + Preparation(command, false)
    requires Continues(world, first, second) && second == first + Preparation(command, true) && Repairs(second) == 1
    requires last.Dispatched? && sent == second + [last]
    requires command == Submit ==> route.Some? && last.route == route
    requires Repairs(sent) == 1 && Concludes(world, command, sent, later, outcome, true)
    ensures DispatchedLawfully(world, command, later, outcome)
  {
    RetryLawful(world, command, Calls(Opening(world, command)), front, first, route, second, last, sent, later);
    if outcome.Succeeded? {
      SucceedsOnRetry(world, command, front, first, second, last.route, later);
    }
    EndsAfterDispatch(world, command, second, last, sent, later, outcome, true);
  }

  // ---------- The end of a run ----------

  lemma RaisedIsOver(world: World, command: Command, log: Log, raise: Raise)
    requires log != [] && StaleIsRepaired(command, log) && RaisesLawfully(world, command, log, raise)
    ensures NextAct(world, command, log) == None && OutcomeOf(world, command, log) == Raised(raise)
  {
    if log[|log| - 1].Dispatched? {
      ReplyIsOver(world, command, log, log[|log| - 1]);
    }
  }

  lemma ReplyIsOver(world: World, command: Command, log: Log, last: Event)
    requires log != [] && last == log[|log| - 1] && last.Dispatched? && last.reply.Some?
    requires StaleIsRepaired(command, log)
    ensures NextAct(world, command, log) == None
    ensures OutcomeOf(world, command, log) == Raised(Mapped(last.reply.value, command))
  {
    RepairsOneMore(log[..|log| - 1], last);
    assert log == log[..|log| - 1] + [last];
  }

  lemma FailureIsOver(world: World, command: Command, log: Log, outcome: Outcome)
    requires outcome.ExecutionFailure? && CleansUp(world, command, log, outcome)
    ensures log != [] && NextAct(world, command, log) == None && OutcomeOf(world, command, log) == outcome
  {
    var call := CleanupCall(world.hasKernel, outcome.normalized.code);
    if call.Some? {
      var n := |log| - 1;
      assert log[n] == log[n..][0];
      CleanedUpIsOver(world, command, log[..n], log[n], log, outcome.original);
    } else {
      assert log[..|log|] == log;
      UncleanedIsOver(world, command, log, outcome.original);
    }
  }

  lemma CleanedUpIsOver(world: World, command: Command, front: Log, last: Event, log: Log, error: DaemonError)
    requires ConfirmationFails(world, command, front, Daemon(error))
    requires CleanupCall(world.hasKernel, MapActionError(error, command).code).Some?
    requires |log| == |front| + 1 && log[..|front|] == front && log[|front|] == last
    requires last.KernelCalled? && last.fault == None
    ensures NextAct(world, command, log) == None && OutcomeOf(world, command, log) == Failure(command, error)
  {
    assert FailsWith(front, Daemon(error)) && InConfirmation(front);
    assert log[|front| - 1] == front[|front| - 1];
    CleanedBehindCall(world, command, front, log);
  }

  lemma CleanedBehindCall(world: World, command: Command, front: Log, log: Log)
    requires front != [] && front[|front| - 1].Called?
    requires |log| == |front| + 1 && log[..|front|] == front && log[|front| - 1] == front[|front| - 1]
    requires log[|front|].KernelCalled? && log[|front|].fault == None
    ensures NextAct(world, command, log) == None && OutcomeOf(world, command, log) == OutcomeOfCleanup(command, front)
  {
  }

  lemma UncleanedIsOver(world: World, command: Command, log: Log, error: DaemonError)
    requires ConfirmationFails(world, command, log, Daemon(error))
    requires CleanupCall(world.hasKernel, MapActionError(error, command).code) == None
    ensures NextAct(world, command, log) == None && OutcomeOf(world, command, log) == Failure(command, error)
  {
    if !FailsWith(log, Daemon(error)) {
      UnconfirmedIsOver(world, command, log);
    }
  }

  lemma UnconfirmedIsOver(world: World, command: Command, log: Log)
    requires AskedLast(log, ConfirmSubmit) && Unconfirmed(world, log)
    ensures NextAct(world, command, log) == None
    ensures OutcomeOf(world, command, log) == Failure(command, NotConfirmedError())
  {
  }

  lemma ClosingEnds(log: Log, hasKernel: bool, command: Command)
    ensures AskedLast(log + Closing(hasKernel, command), DescribeTarget)
  {
  }

  lemma SuccessEnds(world: World, command: Command, log: Log, repaired: bool)
    requires Succeeds(world, command, log, repaired)
    ensures AskedLast(log, DescribeTarget)
  {
    if route :| log == DirectLog(world, command, repaired, route) {
      ClosingEnds(Calls(Opening(world, command)) + Preparation(command, repaired) + [Dispatched(route, None)],
                  world.hasKernel, command);
    } else {
      var route, reply, second :| IsStale(Some(reply)) && log == RetriedLog(world, command, route, reply, second);
      ClosingEnds(Calls(Opening(world, command)) + Preparation(command, false) + [Dispatched(route, Some(reply))]
                  + Preparation(command, true) + [Dispatched(second, None)], world.hasKernel, command);
    }
  }

  lemma TargetIsLast(world: World, command: Command, log: Log)
    requires AskedLast(log, DescribeTarget)
    ensures NextAct(world, command, log) == None
    ensures OutcomeOf(world, command, log) == Succeeded(Repairs(log) == 1, HasTimedOut(world, command, log))
  {
  }

  lemma LawfulIsOver(world: World, command: Command, log: Log, outcome: Outcome)
    requires log != [] && DispatchedLawfully(world, command, log, outcome)
    ensures NextAct(world, command, log) == None && outcome == OutcomeOf(world, command, log)
  {
    match outcome
    case Raised(raise) => RaisedIsOver(world, command, log, raise);
    case ExecutionFailure(_, _, _) => FailureIsOver(world, command, log, outcome);
    case Succeeded(repaired, _) =>
      SuccessEnds(world, command, log, repaired);
      TargetIsLast(world, command, log);
    case NotAttempted =>
  }
}
