// Logs that grow event by event: what continuing one preserves, and which questions are due.
module ActionLogs {
  import opened Common
  import opened ActionWorld

  // ---------- Appending ----------

  // `later` continues the log with the world's answers and without a dispatch.
  predicate Continues(world: World, log: Log, later: Log) {
    if |later| <= |log| then later == log
    else
      var front, last := later[..|later| - 1], later[|later| - 1];
      !last.Dispatched? && last == Answer(world, front, ActOf(last)) && Continues(world, log, front)
  }

  lemma ContinuesWith(world: World, start: Log, log: Log, act: Act)
    requires Continues(world, start, log) && !act.Sends?
    ensures Continues(world, start, log + [Answer(world, log, act)])
  {
    assert (log + [Answer(world, log, act)])[..|log|] == log;
  }

  lemma {:induction false} ContinuesMeaning(world: World, log: Log, later: Log)
    requires Continues(world, log, later)
    ensures log <= later && forall i :: |log| <= i < |later| ==> !later[i].Dispatched?
  {
    if |later| > |log| {
      ContinuesMeaning(world, log, later[..|later| - 1]);
    }
  }

  lemma {:induction false} ContinuesFurther(world: World, a: Log, b: Log, c: Log)
    requires Continues(world, a, b) && Continues(world, b, c)
    ensures Continues(world, a, c)
  {
    if |c| > |b| {
      ContinuesFurther(world, a, b, c[..|c| - 1]);
    }
  }

  lemma {:induction false} RouteStays(world: World, log: Log, later: Log)
    requires Continues(world, log, later)
    ensures SentRoute(later) == SentRoute(log)
  {
    if |later| > |log| {
      RouteStays(world, log, later[..|later| - 1]);
    }
  }

  lemma {:induction false} HonestFurther(world: World, log: Log, later: Log)
    requires Honest(world, log) && Continues(world, log, later)
    ensures Honest(world, later)
  {
    if |later| > |log| {
      HonestFurther(world, log, later[..|later| - 1]);
    }
  }

  lemma HonestWith(world: World, log: Log, act: Act)
    requires Honest(world, log)
    ensures Honest(world, log + [Answer(world, log, act)])
  {
    assert (log + [Answer(world, log, act)])[..|log|] == log;
  }

  lemma CourseWith(world: World, command: Command, start: Log, log: Log, e: Event)
    requires OnCourse(world, command, start, log) && NextAct(world, command, log) == Some(ActOf(e))
    ensures OnCourse(world, command, start, log + [e])
  {
    assert (log + [e])[..|log|] == log;
  }

  lemma OneAsked(world: World, command: Command, log: Log, question: Question, error: Option<Raise>)
    ensures NextAct(world, command, log) == Some(Asks(question)) ==>
      OnCourse(world, command, log, log + [Called(question, error)])
  {
    if NextAct(world, command, log) == Some(Asks(question)) {
      CourseWith(world, command, log, log, Called(question, error));
    }
  }

  lemma {:induction false} CourseFurther(world: World, command: Command, a: Log, b: Log, c: Log)
    requires OnCourse(world, command, a, b) && OnCourse(world, command, b, c)
    ensures OnCourse(world, command, a, c)
  {
    if |c| > |b| {
      CourseFurther(world, command, a, b, c[..|c| - 1]);
    }
  }

  lemma RepairsOneMore(log: Log, e: Event)
    ensures Repairs(log + [e]) == Repairs(log) + if e.Called? && e.question == RepairTarget then 1 else 0
  {
    assert (log + [e])[..|log|] == log;
  }

  lemma Assoc(a: Log, b: Log, c: Log)
    ensures (a + b) + c == a + (b + c)
  {
  }

  lemma NoFront(a: Log)
    ensures [] + a == a
  {
  }

  lemma Joined(world: World, command: Command, log: Log, middle: Log, later: Log)
    requires Continues(world, log, middle) && Continues(world, middle, later) && OnCourse(world, command, middle, later)
    ensures Continues(world, log, later) && |middle| <= |later|
    ensures OnCourse(world, command, log, middle) ==> OnCourse(world, command, log, later)
  {
    ContinuesFurther(world, log, middle, later);
    if OnCourse(world, command, log, middle) {
      CourseFurther(world, command, log, middle, later);
    }
  }

  lemma Continued(world: World, command: Command, log: Log, later: Log)
    requires Honest(world, log) && OnCourse(world, command, [], log)
    requires Continues(world, log, later) && OnCourse(world, command, log, later)
    ensures Honest(world, later) && OnCourse(world, command, [], later)
  {
    HonestFurther(world, log, later);
    CourseFurther(world, command, [], log, later);
  }

  lemma Sent(world: World, command: Command, log: Log, last: Event)
    requires Continues(world, [], log) || Honest(world, log)
    requires OnCourse(world, command, [], log) && NextAct(world, command, log) == Some(ActOf(last))
    requires last == Answer(world, log, ActOf(last))
    ensures Honest(world, log + [last]) && OnCourse(world, command, [], log + [last])
  {
    if Continues(world, [], log) {
      HonestFurther(world, [], log);
    }
    HonestWith(world, log, ActOf(last));
    CourseWith(world, command, [], log, last);
  }

  lemma {:induction false} NoRouteYet(log: Log)
    requires forall i :: 0 <= i < |log| ==> !log[i].Dispatched?
    ensures SentRoute(log) == None
  {
    if log != [] {
      NoRouteYet(log[..|log| - 1]);
    }
  }

  // ---------- Questions that are due ----------

  // All the questions are due in turn, if each is answered without an error.
  ghost predicate Due(world: World, command: Command, log: Log, questions: seq<Question>) {
    forall i :: 0 <= i < |questions| ==>
      NextAct(world, command, log + Calls(questions[..i])) == Some(Asks(questions[i]))
  }

  lemma CallsEnd(log: Log, questions: seq<Question>)
    requires questions != []
    ensures AskedLast(log + Calls(questions), questions[|questions| - 1])
  {
  }

  lemma DueNext(world: World, command: Command, log: Log, questions: seq<Question>)
    requires questions != [] ==> NextAct(world, command, log) == Some(Asks(questions[0]))
    requires forall i :: 0 < i < |questions| ==>
      forall asked :: AskedLast(asked, questions[i - 1]) ==>
        NextAct(world, command, asked) == Some(Asks(questions[i]))
    ensures Due(world, command, log, questions)
  {
    forall i | 0 <= i < |questions|
      ensures NextAct(world, command, log + Calls(questions[..i])) == Some(Asks(questions[i]))
    {
      if i == 0 {
        assert log + Calls(questions[..0]) == log;
      } else {
        CallsEnd(log, questions[..i]);
      }
    }
  }

  lemma OpeningIsDue(world: World, command: Command)
    requires Refusal(world, command) == None
    ensures Due(world, command, [], Opening(world, command))
  {
    DueNext(world, command, [], Opening(world, command));
  }

  lemma ChecksAreDue(world: World, command: Command, log: Log)
    requires NextAct(world, command, log) == Some(Asks(FirstCheck(command)))
    ensures Due(world, command, log, CheckQuestions(command))
  {
    DueNext(world, command, log, CheckQuestions(command));
  }

  lemma ConfirmationIsDue(world: World, command: Command, log: Log)
    requires AskedLast(log, SettleScreen)
    ensures Due(world, command, log, ConfirmQuestions(command))
  {
    DueNext(world, command, log, ConfirmQuestions(command));
  }

  lemma OneDueMore(world: World, command: Command, log: Log, questions: seq<Question>, i: nat, asked: Log, e: Event)
    requires i < |questions| && asked == log + Calls(questions[..i]) && ActOf(e) == Asks(questions[i])
    ensures Due(world, command, log, questions) && OnCourse(world, command, log, asked) ==>
      OnCourse(world, command, log, asked + [e])
  {
    if Due(world, command, log, questions) && OnCourse(world, command, log, asked) {
      CourseWith(world, command, log, asked, e);
    }
  }

  lemma OneCallMore(log: Log, questions: seq<Question>, i: nat)
    requires i < |questions|
    ensures log + Calls(questions[..i]) + [Called(questions[i], None)] == log + Calls(questions[..i + 1])
  {
    assert Calls(questions[..i]) + [Called(questions[i], None)] == Calls(questions[..i + 1]);
    Assoc(log, Calls(questions[..i]), [Called(questions[i], None)]);
  }
}
