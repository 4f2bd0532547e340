/**
 * What the actor is told, and in which order.
 *
 * A decision is taken in one step and sent in a later one, so two decisions about one user, taken by
 * two tasks, may be sent in either order.  They are sent in the order taken as long as nobody decides
 * about a user while an earlier decision about it is still owed; as soon as somebody does, they need
 * not be.
 */
module Announcements {
  import opened Wrappers
  import opened Ids
  import opened ActorTables
  import opened Connections
  import opened Discipline

  // The decision a task has taken and not yet sent.
  function Unsent(t: Task): Option<Decision> {
    if t.phase.OwesReady? then Some(Ready(t.user)) else if t.phase.OwesGone? then Some(Gone(t.user)) else None
  }

  function Debtors(s: State, u: UserId): set<ChannelId> {
    set c | c in s.tasks && s.tasks[c].user == u && Unsent(s.tasks[c]).Some?
  }

  // Everything decided about the user has been sent, but for at most one decision, the last.
  ghost predicate ToldInOrder(s: State, u: UserId) {
    var sent, decided := Of(s.sent, u), Of(s.decided, u);
    if Debtors(s, u) == {} then sent == decided
    else exists c :: Debtors(s, u) == {c} && decided == sent + [Unsent(s.tasks[c]).value]
  }

  // No decision about the user while one is owed.
  ghost predicate Prompt(expected: nat, s: State, step: Step, u: UserId)
    requires Enabled(s, step)
  {
    DecisionOf(expected, s, step).Some? && UserOf(s, step) == u ==> Debtors(s, u) == {}
  }

  ghost predicate PromptRun(expected: nat, steps: seq<Step>, u: UserId)
    requires Possible(expected, steps)
    decreases |steps|
  {
    steps != [] ==>
      var n := |steps| - 1;
      PromptRun(expected, steps[..n], u) && Prompt(expected, Reached(expected, steps[..n]), steps[n], u)
  }

  lemma DebtorsAfter(expected: nat, s: State, step: Step, u: UserId)
    requires Enabled(s, step)
    ensures var s' := After(expected, s, step);
            && Debtors(s', u)
                == (if UserOf(s, step) == u && DecisionOf(expected, s, step).Some? then Debtors(s, u) + {step.id}
                                  else Debtors(s, u) - {step.id})
            && (step.id in Debtors(s, u) <==> UserOf(s, step) == u && SendOf(s, step).Some?)
            && Unsent(s'.tasks[step.id]) == DecisionOf(expected, s, step)
            && (SendOf(s, step).Some? ==>
                Unsent(s.tasks[step.id]) == SendOf(s, step) && DecisionOf(expected, s, step).None?)
  {
  }

  lemma DecidingKeepsOrder(expected: nat, s: State, step: Step, u: UserId)
    requires Enabled(s, step) && UserOf(s, step) == u && DecisionOf(expected, s, step).Some?
    requires Debtors(s, u) == {} && ToldInOrder(s, u)
    ensures ToldInOrder(After(expected, s, step), u)
  {
    DebtorsAfter(expected, s, step, u);
    OfLogged(s.decided, DecisionOf(expected, s, step), u);
    assert Debtors(After(expected, s, step), u) == {step.id};
  }

  lemma SendingKeepsOrder(expected: nat, s: State, step: Step, u: UserId)
    requires Enabled(s, step) && step.id in Debtors(s, u) && ToldInOrder(s, u)
    ensures ToldInOrder(After(expected, s, step), u)
  {
    DebtorsAfter(expected, s, step, u);
    OfLogged(s.sent, SendOf(s, step), u);
    assert Debtors(After(expected, s, step), u) == {};
  }

  lemma StepKeepsToldInOrder(expected: nat, s: State, step: Step, u: UserId)
    requires Enabled(s, step) && Prompt(expected, s, step, u) && ToldInOrder(s, u)
    ensures ToldInOrder(After(expected, s, step), u)
  {
    DebtorsAfter(expected, s, step, u);
    if UserOf(s, step) == u && DecisionOf(expected, s, step).Some? {
      DecidingKeepsOrder(expected, s, step, u);
    } else if step.id in Debtors(s, u) {
      SendingKeepsOrder(expected, s, step, u);
    } else {
      OfLogged(s.decided, DecisionOf(expected, s, step), u);
      OfLogged(s.sent, SendOf(s, step), u);
      assert Debtors(After(expected, s, step), u) == Debtors(s, u);
    }
  }

  lemma {:induction false} PromptRunsTellInOrder(expected: nat, steps: seq<Step>, u: UserId)
    requires Possible(expected, steps) && PromptRun(expected, steps, u)
    ensures ToldInOrder(Reached(expected, steps), u)
    decreases |steps|
  {
    if steps == [] {
      assert Debtors(Start, u) == {};
    } else {
      var n := |steps| - 1;
      PromptRunsTellInOrder(expected, steps[..n], u);
      StepKeepsToldInOrder(expected, Reached(expected, steps[..n]), steps[n], u);
    }
  }

  lemma {:induction false} OfPrefix(a: seq<Decision>, b: seq<Decision>, u: UserId)
    requires a <= b
    ensures Of(a, u) <= Of(b, u)
    decreases |b|
  {
    if |a| == |b| {
      assert a == b;
    } else {
      OfPrefix(a, b[..|b| - 1], u);
    }
  }

  // In prompt runs, `UserReady` and `UserGone` of an orderly user are sent in strict alternation too,
  // and so is any beginning of what was sent.
  lemma PromptOrderlyRunsTellAlternately(types: set<ChannelType>, steps: seq<Step>, u: UserId, told: seq<Decision>)
    requires Possible(|types|, steps) && OrderlyRun(types, steps, u) && PromptRun(|types|, steps, u)
    requires told <= Reached(|types|, steps).sent
    ensures Alternating(Of(told, u))
  {
    var s := Reached(|types|, steps);
    OrderlyRunsAreSound(types, steps, u);
    PromptRunsTellInOrder(|types|, steps, u);
    OfPrefix(told, s.sent, u);
    assert Of(told, u) <= Of(s.decided, u);
  }

  // The step that sends what a task owes.
  function SendBy(s: State, id: ChannelId): Step
    requires id in s.tasks && Unsent(s.tasks[id]).Some?
  {
    if s.tasks[id].phase.OwesReady? then SendReady(id) else SendGone(id)
  }

  // The user is told apart by its last decision, so the next one is another.
  lemma DecisionFlips(expected: nat, s: State, step: Step, u: UserId, last: Decision)
    requires Enabled(s, step) && UserOf(s, step) == u && DecisionOf(expected, s, step).Some?
    requires DecisionOf(expected, s, step) == Some(Ready(u)) ==> u !in s.tables.connected
    requires u in s.tables.connected <==> last.Ready?
    ensures DecisionOf(expected, s, step).value != last
  {
  }

  // Two decisions in a row differ, for an orderly user.
  lemma NextDecisionDiffers(types: set<ChannelType>, s: State, step: Step, u: UserId)
    requires Enabled(s, step) && Orderly(types, s, step, u) && EntriesAreLive(s) && Sound(types, s, u)
    requires UserOf(s, step) == u && DecisionOf(|types|, s, step).Some? && Of(s.decided, u) != []
    ensures DecisionOf(|types|, s, step).value != Of(s.decided, u)[|Of(s.decided, u)| - 1]
  {
    StepKeepsWhole(types, s, step, u);
    DecisionFlips(|types|, s, step, u, Of(s.decided, u)[|Of(s.decided, u)| - 1]);
  }

  // And the condition is needed, at every point: after an orderly, prompt run, a decision that comes
  // while another is owed can be sent first, and then what was sent is no beginning of what was
  // decided.
  lemma UnpromptDecisionCanOvertake(types: set<ChannelType>, steps: seq<Step>, step: Step, u: UserId)
    requires Possible(|types|, steps) && OrderlyRun(types, steps, u) && PromptRun(|types|, steps, u)
    requires Enabled(Reached(|types|, steps), step) && Orderly(types, Reached(|types|, steps), step, u)
    requires !Prompt(|types|, Reached(|types|, steps), step, u)
    ensures CanOvertake(|types|, steps, step, u)
  {
    var s := Reached(|types|, steps);
    PromptRunsTellInOrder(|types|, steps, u);
    var c :| Debtors(s, u) == {c} && Of(s.decided, u) == Of(s.sent, u) + [Unsent(s.tasks[c]).value];
    OrderlyRunsAreSound(types, steps, u);
    TablesFollowTasks(|types|, steps);
    NextDecisionDiffers(types, s, step, u);
    SecondCanGoFirst(|types|, steps, step, u, Unsent(s.tasks[c]).value);
  }

  // The step can be taken and then the task that took it can send at once, which puts what was sent about
  // the user at odds with what was decided.
  ghost predicate CanOvertake(expected: nat, steps: seq<Step>, step: Step, u: UserId) {
    && Possible(expected, steps + [step])
    && var s := Reached(expected, steps + [step]);
       && step.id in s.tasks && Unsent(s.tasks[step.id]).Some?
       && Possible(expected, steps + [step] + [SendBy(s, step.id)])
       && var s' := Reached(expected, steps + [step] + [SendBy(s, step.id)]);
          !(Of(s'.sent, u) <= Of(s'.decided, u))
  }

  lemma SecondCanGoFirst(expected: nat, steps: seq<Step>, step: Step, u: UserId, first: Decision)
    requires Possible(expected, steps) && Enabled(Reached(expected, steps), step)
    requires UserOf(Reached(expected, steps), step) == u && DecisionOf(expected, Reached(expected, steps), step).Some?
    requires DecisionOf(expected, Reached(expected, steps), step).value != first
    requires Of(Reached(expected, steps).decided, u) == Of(Reached(expected, steps).sent, u) + [first]
    ensures CanOvertake(expected, steps, step, u)
  {
    var s := Reached(expected, steps);
    DecidedWhileOwed(expected, s, step, u, first);
    Extend(expected, steps, step);
    var s1 := After(expected, s, step);
    Extend(expected, steps + [step], SendBy(s1, step.id));
    Overtaken(expected, s1, step.id, u, Of(s.sent, u), first);
  }

  // A second decision while the first is owed.
  lemma DecidedWhileOwed(expected: nat, s: State, step: Step, u: UserId, first: Decision)
    requires Enabled(s, step) && UserOf(s, step) == u && DecisionOf(expected, s, step).Some?
    requires Of(s.decided, u) == Of(s.sent, u) + [first]
    ensures var s' := After(expected, s, step);
            && s'.tasks[step.id].user == u && Unsent(s'.tasks[step.id]) == DecisionOf(expected, s, step)
            && Of(s'.sent, u) == Of(s.sent, u)
            && Of(s'.decided, u) == Of(s.sent, u) + [first] + [DecisionOf(expected, s, step).value]
  {
    DebtorsAfter(expected, s, step, u);
    OfLogged(s.decided, DecisionOf(expected, s, step), u);
  }

  lemma Overtaken(expected: nat, s: State, id: ChannelId, u: UserId, sent: seq<Decision>, first: Decision)
    requires id in s.tasks && s.tasks[id].user == u && Unsent(s.tasks[id]).Some? && Unsent(s.tasks[id]).value != first
    requires Of(s.sent, u) == sent && Of(s.decided, u) == sent + [first] + [Unsent(s.tasks[id]).value]
    ensures var s' := After(expected, s, SendBy(s, id)); !(Of(s'.sent, u) <= Of(s'.decided, u))
  {
    var s' := After(expected, s, SendBy(s, id));
    OfLogged(s.sent, SendOf(s, SendBy(s, id)), u);
    assert Of(s'.sent, u)[|sent|] != Of(s'.decided, u)[|sent|];
  }

  lemma ExtendOrderly(types: set<ChannelType>, steps: seq<Step>, s: State, step: Step, u: UserId)
      returns (next: seq<Step>)
    requires Possible(|types|, steps) && OrderlyRun(types, steps, u) && Reached(|types|, steps) == s
    requires Enabled(s, step) && Orderly(types, s, step, u)
    ensures Possible(|types|, next) && OrderlyRun(types, next, u) && Reached(|types|, next) == After(|types|, s, step)
  {
    Extend(|types|, steps, step);
    next := steps + [step];
    assert next[..|steps|] == steps;
  }

  lemma FirstWaits(u: UserId, a: ChannelType, s: State)
    requires s == State(Tables(map[], map[], {}), map[0 := Task(u, Identifying), 1 := Task(u, Identifying)], [], [])
    ensures Enabled(s, Identify(0, a)) && Fresh(s, u, a)
    ensures After(2, s, Identify(0, a)) == State(Tables(map[0 := (u, a)], map[u := map[a := 0]], {}),
                                                 map[0 := Task(u, Serving(a)), 1 := Task(u, Identifying)], [], [])
  {
    assert Collected(s.tables, u, 0, a) == map[a := 0];
    assert |Collected(s.tables, u, 0, a).Keys| == |{a}|;
  }

  lemma TwoAccepted(u: UserId, types: set<ChannelType>) returns (steps: seq<Step>)
    ensures Possible(|types|, steps) && OrderlyRun(types, steps, u)
    ensures Reached(|types|, steps)
            == State(Tables(map[], map[], {}), map[0 := Task(u, Identifying), 1 := Task(u, Identifying)], [], [])
  {
    steps := ExtendOrderly(types, [], Start, Accept(0, u), u);
    steps := ExtendOrderly(types, steps, Reached(|types|, steps), Accept(1, u), u);
  }

  lemma SecondCompletes(u: UserId, a: ChannelType, b: ChannelType, t: Tables)
    requires a != b && t == Tables(map[0 := (u, a)], map[u := map[a := 0]], {})
    ensures CompletesUser(t, u, 1, b, 2)
    ensures AfterRegister(t, u, 1, b, 2) == Tables(map[0 := (u, a), 1 := (u, b)], map[], {u})
  {
    assert Collected(t, u, 1, b) == map[a := 0, b := 1];
    assert |Collected(t, u, 1, b).Keys| == |{a, b}|;
    assert t.pending - {u} == map[];
  }

  lemma SecondDecides(u: UserId, a: ChannelType, b: ChannelType, s: State)
    requires a != b
    requires s == State(Tables(map[0 := (u, a)], map[u := map[a := 0]], {}),
                        map[0 := Task(u, Serving(a)), 1 := Task(u, Identifying)], [], [])
    ensures Enabled(s, Identify(1, b)) && Fresh(s, u, b)
    ensures After(2, s, Identify(1, b))
         == State(Tables(map[0 := (u, a), 1 := (u, b)], map[], {u}),
                  map[0 := Task(u, Serving(a)), 1 := Task(u, OwesReady(b))], [Ready(u)], [])
  {
    SecondCompletes(u, a, b, s.tables);
  }

  // Both are up; the second has decided `Ready` but not sent it.
  lemma SecondHasDecided(u: UserId, a: ChannelType, b: ChannelType, types: set<ChannelType>) returns (steps: seq<Step>)
    requires a != b && types == {a, b} && |types| == 2
    ensures Possible(|types|, steps) && OrderlyRun(types, steps, u)
    ensures Reached(|types|, steps) == State(Tables(map[0 := (u, a), 1 := (u, b)], map[], {u}),
                                             map[0 := Task(u, Serving(a)), 1 := Task(u, OwesReady(b))], [Ready(u)], [])
  {
    steps := TwoAccepted(u, types);
    FirstWaits(u, a, Reached(|types|, steps));
    steps := ExtendOrderly(types, steps, Reached(|types|, steps), Identify(0, a), u);
    var s := Reached(|types|, steps);
    SecondDecides(u, a, b, s);
    steps := ExtendOrderly(types, steps, s, Identify(1, b), u);
  }

  // It does happen to an orderly client: the actor's first word of a user can be that it is gone.
  lemma GoneCanBeToldFirst(u: UserId, a: ChannelType, b: ChannelType)
    requires a != b
    ensures exists steps: seq<Step> ::
              Possible(|{a, b}|, steps) && OrderlyRun({a, b}, steps, u) && Reached(|{a, b}|, steps).sent == [Gone(u)]
  {
    var types := {a, b};
    var steps := SecondHasDecided(u, a, b, types);
    steps := ExtendOrderly(types, steps, Reached(|types|, steps), Close(0), u);
    steps := ExtendOrderly(types, steps, Reached(|types|, steps), SendGone(0), u);
    assert Reached(|types|, steps).sent == [Gone(u)];
  }
}
