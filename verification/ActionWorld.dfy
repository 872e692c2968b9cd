// What a mutating action of the executor meets and leaves behind: commands, errors, the world that
// answers, logs of all that happened, and the course that a run takes.
module ActionWorld {
  import opened Common

  // ---------- Commands and errors ----------

  datatype Command = Tap | LongTap | Focus | TypeText | Submit | Scroll | Global | Open

  predicate IsRefBound(command: Command) {
    command in {Tap, LongTap, Focus, TypeText, Submit, Scroll}
  }

  datatype ErrorCode =
    | RuntimeNotConnected
    | ScreenNotReady
    | DeviceDisconnected
    | DeviceAgentUnavailable
    | DeviceAgentUnauthorized
    | DeviceRpcFailed
    | DeviceRpcTransportReset
    | OpenFailed
    | TargetNotActionable
    | SubmitNotConfirmed
    | OtherCode(name: string)

  datatype DeviceCode = StaleTarget | DeviceTargetNotActionable | ActionFailed | OtherDeviceCode(name: string)

  datatype DaemonError = DaemonError(code: ErrorCode, deviceCode: Option<DeviceCode>, message: string)

  // What a call can raise: an error of the daemon, or an exception of any other class.
  datatype Raise = Daemon(error: DaemonError) | Foreign(name: string)

  predicate IsDeviceError(error: DaemonError, code: DeviceCode) {
    error.code == DeviceRpcFailed && error.deviceCode == Some(code)
  }

  function MapActionError(error: DaemonError, command: Command): DaemonError {
    if command == Open && IsDeviceError(error, ActionFailed) then error.(code := OpenFailed)
    else if !IsDeviceError(error, DeviceTargetNotActionable) then error
    else error.(code := TargetNotActionable)
  }

  // Only errors of the daemon are caught and mapped.
  function Mapped(raise: Raise, command: Command): Raise {
    if raise.Daemon? then Daemon(MapActionError(raise.error, command)) else raise
  }

  predicate IsAvailabilityError(code: ErrorCode) {
    code in {RuntimeNotConnected, ScreenNotReady, DeviceDisconnected, DeviceAgentUnavailable,
             DeviceAgentUnauthorized, DeviceRpcFailed, DeviceRpcTransportReset}
  }

  predicate DiscardsTransport(code: ErrorCode) {
    code in {DeviceDisconnected, DeviceRpcTransportReset}
  }

  function RouteChangedError(): DaemonError {
    DaemonError(TargetNotActionable, None, "submit is not available for the requested target")
  }

  function NotConfirmedError(): DaemonError {
    DaemonError(SubmitNotConfirmed, None, "submit effect could not be confirmed")
  }

  function NotConnectedError(): DaemonError {
    DaemonError(RuntimeNotConnected, None, "runtime is not connected to a device")
  }

  function NotReadyError(): DaemonError {
    DaemonError(ScreenNotReady, None, "screen is not ready yet")
  }

  // ---------- The world around the executor ----------

  datatype Route = Direct | Attributed

  datatype Question =
    | MakeClient
    | CheckSupported
    | CheckSemantics
    | CaptureBaseline
    | RepairTarget
    | ResolveTarget
    | ResolveRoute
    | BuildRequest
    | CheckRequest
    | ValidateTarget
    | ReadContexts
    | SettleScreen
    | RefreshScreen
    | CheckPostcondition
    | ConfirmType
    | ConfirmSubmit
    | DescribeTarget

  datatype KernelCall = DropAuthority(discardTransport: bool) | InvalidateCredentials

  datatype Event =
    | Called(question: Question, error: Option<Raise>)
    | Dispatched(route: Option<Route>, reply: Option<Raise>)
    | KernelCalled(call: KernelCall, fault: Option<Raise>)

  type Log = seq<Event>

  // Whatever the session, the device and the other services answer may depend on all that has
  // happened. `answer`, `reply` and `kernel` are what is raised, if anything; the kernel raises
  // when it cannot persist.
  datatype World = World(
    hasKernel: bool,
    connected: bool,
    screenReady: bool,
    transportOpen: bool,
    alreadyFocused: bool,
    sourceIsCurrent: Log -> bool,
    answer: (Log, Question) -> Option<Raise>,
    reply: Log -> Option<Raise>,
    kernel: (Log, KernelCall) -> Option<Raise>,
    route: Log -> Route,
    timedOut: Log -> bool,
    unconfirmed: Log -> bool
  )

  datatype Outcome =
    | NotAttempted
    | Raised(raise: Raise)
    | ExecutionFailure(original: DaemonError, normalized: DaemonError, truthLost: bool)
    | Succeeded(repaired: bool, timedOut: bool)

  // ---------- Scripts ----------

  // Questions that were all answered without an error.
  function Calls(questions: seq<Question>): (log: Log)
    ensures |log| == |questions|
  {
    seq(|questions|, i requires 0 <= i < |questions| => Called(questions[i], None))
  }

  function Opening(world: World, command: Command): (questions: seq<Question>)
    ensures RepairTarget !in questions
  {
    (if world.transportOpen then [] else [MakeClient])
    + [CheckSupported, CheckSemantics]
    + (if command == Global then [CaptureBaseline] else [])
    + (if world.transportOpen then [MakeClient] else [])
  }

  function BuildQuestions(command: Command, repaired: bool): seq<Question> {
    if command == Submit then [if repaired then RepairTarget else ResolveTarget, ResolveRoute, CheckRequest]
    else [if repaired then RepairTarget else BuildRequest]
  }

  function CheckQuestions(command: Command): (questions: seq<Question>)
    ensures RepairTarget !in questions
  {
    (if IsRefBound(command) && command != Submit then [ValidateTarget] else []) + [ReadContexts]
  }

  function Preparation(command: Command, repaired: bool): Log {
    Calls(BuildQuestions(command, repaired)) + Calls(CheckQuestions(command))
  }

  function ConfirmQuestions(command: Command): (questions: seq<Question>)
    ensures RepairTarget !in questions
  {
    [RefreshScreen, CheckPostcondition]
    + (if command == TypeText then [ConfirmType] else [])
    + (if command == Submit then [ConfirmSubmit] else [])
  }

  // A global action leaves the screen it was started from.
  function DroppedFor(hasKernel: bool, command: Command): Log {
    if command == Global && hasKernel then [KernelCalled(DropAuthority(false), None)] else []
  }

  function Confirmation(command: Command): Log {
    [Called(SettleScreen, None)] + Calls(ConfirmQuestions(command)) + [Called(DescribeTarget, None)]
  }

  // What follows a dispatch that returned, when nothing fails any more.
  function Closing(hasKernel: bool, command: Command): Log {
    DroppedFor(hasKernel, command) + Confirmation(command)
  }

  function DirectLog(world: World, command: Command, repaired: bool, route: Option<Route>): Log {
    Calls(Opening(world, command)) + Preparation(command, repaired) + [Dispatched(route, None)]
    + Closing(world.hasKernel, command)
  }

  function RetriedLog(world: World, command: Command, route: Option<Route>, reply: Raise,
                      second: Option<Route>): Log {
    Calls(Opening(world, command)) + Preparation(command, false) + [Dispatched(route, Some(reply))]
    + Preparation(command, true) + [Dispatched(second, None)] + Closing(world.hasKernel, command)
  }

  // ---------- What logs show ----------

  function Repairs(log: Log): nat {
    if log == [] then 0
    else
      var last := log[|log| - 1];
      Repairs(log[..|log| - 1]) + if last.Called? && last.question == RepairTarget then 1 else 0
  }

  predicate IsStale(reply: Option<Raise>) {
    reply.Some? && reply.value.Daemon? && IsDeviceError(reply.value.error, StaleTarget)
  }

  predicate Returned(e: Event) {
    e.Dispatched? && e.reply.None?
  }

  predicate SomeDispatchReturned(log: Log) {
    exists i :: 0 <= i < |log| && Returned(log[i])
  }

  // What is raised is what the call raised that was made last.
  predicate FailsWith(log: Log, raise: Raise) {
    log != [] && log[|log| - 1].Called? && log[|log| - 1].error == Some(raise)
  }

  // The question was asked last, and answered.
  predicate AskedLast(log: Log, question: Question) {
    log != [] && log[|log| - 1] == Called(question, None)
  }

  // The questions that are asked behind a returned dispatch, where errors of the daemon are caught.
  predicate IsConfirming(question: Question) {
    question in {SettleScreen, RefreshScreen, CheckPostcondition, ConfirmType, ConfirmSubmit, DescribeTarget}
  }

  predicate InConfirmation(log: Log) {
    log != [] && log[|log| - 1].Called? && IsConfirming(log[|log| - 1].question)
  }

  // The route of the latest dispatch.
  function SentRoute(log: Log): Option<Route> {
    if log == [] then None
    else if log[|log| - 1].Dispatched? then log[|log| - 1].route
    else SentRoute(log[..|log| - 1])
  }

  // The route that is resolved now is not the one of the dispatch before the repair.
  predicate RouteDiffers(world: World, log: Log) {
    SentRoute(log).Some? && SentRoute(log) != Some(world.route(log))
  }

  predicate Unconfirmed(world: World, log: Log) {
    SentRoute(log) == Some(Direct) && world.unconfirmed(log)
  }

  predicate NeedsRepair(world: World, command: Command, log: Log, repairedOnce: bool) {
    IsRefBound(command) && (repairedOnce || !world.sourceIsCurrent(log))
  }

  // What the runtime gives up when it can no longer be trusted.
  function CleanupCall(hasKernel: bool, code: ErrorCode): Option<KernelCall> {
    if !hasKernel then None
    else if code == DeviceAgentUnauthorized then Some(InvalidateCredentials)
    else if IsAvailabilityError(code) then Some(DropAuthority(DiscardsTransport(code)))
    else None
  }

  function Cleanup(hasKernel: bool, code: ErrorCode): Log {
    match CleanupCall(hasKernel, code)
    case None => []
    case Some(call) => [KernelCalled(call, None)]
  }

  function Failure(command: Command, error: DaemonError): Outcome {
    var normalized := MapActionError(error, command);
    ExecutionFailure(error, normalized,
                     IsAvailabilityError(normalized.code) && normalized.code != DeviceAgentUnauthorized)
  }

  // ---------- The course of a run ----------

  datatype Act = Asks(question: Question) | Sends(route: Option<Route>) | Tells(call: KernelCall)

  function ActOf(e: Event): Act {
    match e
    case Called(question, _) => Asks(question)
    case Dispatched(route, _) => Sends(route)
    case KernelCalled(call, _) => Tells(call)
  }

  // What the world makes of an act.
  function Answer(world: World, log: Log, act: Act): Event {
    match act
    case Asks(question) => Called(question, world.answer(log, question))
    case Sends(route) => Dispatched(route, world.reply(log))
    case Tells(call) => KernelCalled(call, world.kernel(log, call))
  }

  // Every event is what the world answered to all that had happened before.
  predicate Honest(world: World, log: Log) {
    if log == [] then true
    else
      var front, last := log[..|log| - 1], log[|log| - 1];
      last == Answer(world, front, ActOf(last)) && Honest(world, front)
  }

  // Without a call to anything, this is how a command ends, if it does.
  function Refusal(world: World, command: Command): Option<Outcome> {
    if !world.connected then Some(Raised(Daemon(NotConnectedError())))
    else if IsRefBound(command) && !world.screenReady then Some(Raised(Daemon(NotReadyError())))
    else if command == Focus && world.alreadyFocused then Some(NotAttempted)
    else None
  }

  // What is done next, told from what was done last and how that ended; None when the run is over.
  function NextAct(world: World, command: Command, log: Log): Option<Act> {
    if log == [] then
      if Refusal(world, command).Some? then None
      else Some(Asks(if world.transportOpen then CheckSupported else MakeClient))
    else
      match log[|log| - 1]
      case Called(question, None) => AfterAnswer(world, command, log, question)
      case Called(question, Some(raise)) =>
        if IsConfirming(question) && raise.Daemon? then
          match CleanupCall(world.hasKernel, MapActionError(raise.error, command).code)
          case None => None
          case Some(call) => Some(Tells(call))
        else None
      case Dispatched(_, reply) => AfterReply(world, command, reply, Repairs(log))
      case KernelCalled(_, fault) =>
        if fault.None? && |log| > 1 && Returned(log[|log| - 2]) then Some(Asks(SettleScreen)) else None
  }

  function AfterReply(world: World, command: Command, reply: Option<Raise>, repairs: nat): Option<Act> {
    if reply.None? then
      Some(if command == Global && world.hasKernel then Tells(DropAuthority(false)) else Asks(SettleScreen))
    else if IsRefBound(command) && IsStale(reply) && repairs == 0 then Some(Asks(RepairTarget))
    else None
  }

  function AfterAnswer(world: World, command: Command, log: Log, question: Question): Option<Act> {
    match question
    case MakeClient => Some(Asks(if world.transportOpen then FirstBuild(world, command, log) else CheckSupported))
    case CheckSupported => Some(Asks(CheckSemantics))
    case CheckSemantics =>
      Some(Asks(if command == Global then CaptureBaseline else AfterBaseline(world, command, log)))
    case CaptureBaseline => Some(Asks(AfterBaseline(world, command, log)))
    case RepairTarget => Some(Asks(if command == Submit then ResolveRoute else FirstCheck(command)))
    case ResolveTarget => Some(Asks(ResolveRoute))
    case ResolveRoute => if RouteDiffers(world, log) then None else Some(Asks(CheckRequest))
    case BuildRequest => Some(Asks(FirstCheck(command)))
    case CheckRequest => Some(Asks(FirstCheck(command)))
    case ValidateTarget => Some(Asks(ReadContexts))
    case ReadContexts => Some(Sends(RouteToSend(world, command, log)))
    case SettleScreen => Some(Asks(RefreshScreen))
    case RefreshScreen => Some(Asks(CheckPostcondition))
    case CheckPostcondition => Some(Asks(AfterPostcondition(command)))
    case ConfirmType => Some(Asks(DescribeTarget))
    case ConfirmSubmit => if Unconfirmed(world, log) then None else Some(Asks(DescribeTarget))
    case DescribeTarget => None
  }

  function AfterPostcondition(command: Command): Question {
    if command == TypeText then ConfirmType else if command == Submit then ConfirmSubmit else DescribeTarget
  }

  function AfterBaseline(world: World, command: Command, log: Log): Question {
    if world.transportOpen then MakeClient else FirstBuild(world, command, log)
  }

  function FirstBuild(world: World, command: Command, log: Log): Question {
    if NeedsRepair(world, command, log, false) then RepairTarget
    else if command == Submit then ResolveTarget
    else BuildRequest
  }

  function FirstCheck(command: Command): Question {
    if IsRefBound(command) && command != Submit then ValidateTarget else ReadContexts
  }

  // A submit goes by the route that was resolved two questions ago.
  function RouteToSend(world: World, command: Command, log: Log): Option<Route> {
    if command == Submit && |log| > 1 then Some(world.route(log[..|log| - 2])) else None
  }

  // From `log` on, every act of `later` was the next one to do.
  predicate OnCourse(world: World, command: Command, log: Log, later: Log) {
    if |later| <= |log| then later == log
    else
      var front := later[..|later| - 1];
      NextAct(world, command, front) == Some(ActOf(later[|later| - 1])) && OnCourse(world, command, log, front)
  }

  // Whether settling has timed out, when all of the confirmation has been answered.
  function HasTimedOut(world: World, command: Command, log: Log): bool {
    var n := |ConfirmQuestions(command)| + 1;
    n <= |log| && world.timedOut(log[..|log| - n])
  }

  // How a run ends that is over.
  function OutcomeOf(world: World, command: Command, log: Log): Outcome
    requires NextAct(world, command, log) == None
  {
    if log == [] then Refusal(world, command).value
    else
      match log[|log| - 1]
      case Called(question, None) =>
        if question == DescribeTarget then Succeeded(Repairs(log) == 1, HasTimedOut(world, command, log))
        else if question == ConfirmSubmit then Failure(command, NotConfirmedError())
        else Raised(Daemon(RouteChangedError()))
      case Called(question, Some(raise)) => OutcomeOfError(command, question, raise)
      case Dispatched(_, reply) => Raised(Mapped(reply.value, command))
      case KernelCalled(_, Some(raise)) => Raised(raise)
      case KernelCalled(_, None) => OutcomeOfCleanup(command, log[..|log| - 1])
  }

  function OutcomeOfError(command: Command, question: Question, raise: Raise): Outcome {
    if IsConfirming(question) && raise.Daemon? then Failure(command, raise.error) else Raised(raise)
  }

  // The cleanup does not change the outcome; it only follows errors.
  function OutcomeOfCleanup(command: Command, log: Log): Outcome {
    if log != [] && log[|log| - 1].Called? && log[|log| - 1].error.Some?
    then OutcomeOfError(command, log[|log| - 1].question, log[|log| - 1].error.value)
    else NotAttempted
  }

  // The world and the course determine all of it: see RunIsDetermined.
  predicate RunsToTheEnd(world: World, command: Command, log: Log, outcome: Outcome) {
    && Honest(world, log) && OnCourse(world, command, [], log)
    && NextAct(world, command, log) == None && outcome == OutcomeOf(world, command, log)
  }
}
