/**
 * All channel tasks of one room, interleaved.  A step is the code one task runs between two
 * `.await`s; `Accept` is the actor loop spawning a task for a channel id never used before.
 */
module Connections {
  import opened Wrappers
  import opened Ids
  import opened ActorTables

  datatype Phase =
    | Identifying
    | OwesReady(channel: ChannelType)   // registered, `UserReady` still to be sent
    | Serving(channel: ChannelType)
    | OwesGone                          // cleaned up, `UserGone` still to be sent
    | Finished

  datatype Task = Task(user: UserId, phase: Phase) {
    // Registered and not yet cleaned up.
    predicate Live() { phase.OwesReady? || phase.Serving? }
  }

  datatype Decision = Ready(user: UserId) | Gone(user: UserId)

  datatype State = State(
    tables: Tables,
    tasks: map<ChannelId, Task>,
    decided: seq<Decision>,   // in the order the blocks ran
    sent: seq<Decision>)      // in the order the sends finished

  datatype Step =
    | Accept(id: ChannelId, user: UserId)
    | Abandon(id: ChannelId)                          // closed or refused before it was identified
    | Identify(id: ChannelId, channel: ChannelType)
    | SendReady(id: ChannelId)
    | Close(id: ChannelId)
    | SendGone(id: ChannelId)

  const Start := State(Tables(map[], map[], {}), map[], [], [])

  predicate Enabled(s: State, step: Step) {
    match step
    case Accept(id, _) => id !in s.tasks
    case Abandon(id) => id in s.tasks && s.tasks[id].phase.Identifying?
    case Identify(id, _) => id in s.tasks && s.tasks[id].phase.Identifying?
    case SendReady(id) => id in s.tasks && s.tasks[id].phase.OwesReady?
    case Close(id) => id in s.tasks && s.tasks[id].phase.Serving?
    case SendGone(id) => id in s.tasks && s.tasks[id].phase.OwesGone?
  }

  // What the step's block decides to tell the actor.
  function DecisionOf(expected: nat, s: State, step: Step): Option<Decision>
    requires Enabled(s, step)
  {
    match step
    case Identify(id, channel) =>
      if CompletesUser(s.tables, s.tasks[id].user, id, channel, expected) then Some(Ready(s.tasks[id].user)) else None
    case Close(id) =>
      if s.tasks[id].user in s.tables.connected then Some(Gone(s.tasks[id].user)) else None
    case _ => None
  }

  function Logged(log: seq<Decision>, d: Option<Decision>): seq<Decision> {
    if d.Some? then log + [d.value] else log
  }

  // What the step sends.
  function SendOf(s: State, step: Step): Option<Decision>
    requires Enabled(s, step)
  {
    match step
    case SendReady(id) => Some(Ready(s.tasks[id].user))
    case SendGone(id) => Some(Gone(s.tasks[id].user))
    case _ => None
  }

  function TablesAfter(expected: nat, s: State, step: Step): Tables
    requires Enabled(s, step)
  {
    match step
    case Identify(id, channel) => AfterRegister(s.tables, s.tasks[id].user, id, channel, expected)
    case Close(id) => AfterCleanup(s.tables, s.tasks[id].user, id)
    case _ => s.tables
  }

  function PhaseAfter(expected: nat, s: State, step: Step): Phase
    requires Enabled(s, step)
  {
    match step
    case Accept(_, _) => Identifying
    case Abandon(_) => Finished
    case Identify(_, channel) => if DecisionOf(expected, s, step).Some? then OwesReady(channel) else Serving(channel)
    case SendReady(id) => Serving(s.tasks[id].phase.channel)
    case Close(_) => if DecisionOf(expected, s, step).Some? then OwesGone else Finished
    case SendGone(_) => Finished
  }

  function UserOf(s: State, step: Step): UserId
    requires Enabled(s, step)
  {
    if step.Accept? then step.user else s.tasks[step.id].user
  }

  function After(expected: nat, s: State, step: Step): State
    requires Enabled(s, step)
  {
    State(TablesAfter(expected, s, step),
          s.tasks[step.id := Task(UserOf(s, step), PhaseAfter(expected, s, step))],
          Logged(s.decided, DecisionOf(expected, s, step)),
          Logged(s.sent, SendOf(s, step)))
  }

  // A run is given by its steps.
  predicate Possible(expected: nat, steps: seq<Step>)
    decreases |steps|, 0
  {
    steps != [] ==>
      var n := |steps| - 1;
      Possible(expected, steps[..n]) && Enabled(Reached(expected, steps[..n]), steps[n])
  }

  function Reached(expected: nat, steps: seq<Step>): State
    requires Possible(expected, steps)
    decreases |steps|, 1
  {
    if steps == [] then Start
    else After(expected, Reached(expected, steps[..|steps| - 1]), steps[|steps| - 1])
  }

  // One more step.
  lemma Extend(expected: nat, steps: seq<Step>, step: Step)
    requires Possible(expected, steps) && Enabled(Reached(expected, steps), step)
    ensures Possible(expected, steps + [step])
    ensures Reached(expected, steps + [step]) == After(expected, Reached(expected, steps), step)
  {
    assert (steps + [step])[..|steps|] == steps;
  }

  // ---------- with no assumption on clients ----------

  function LiveTasks(s: State, user: UserId): set<ChannelId> {
    set c | c in s.tasks && s.tasks[c].Live() && s.tasks[c].user == user
  }

  function One(b: bool): nat { if b then 1 else 0 }

  ghost predicate EntriesAreLive(s: State) {
    forall c | c in s.tables.userChannels ::
      && c in s.tasks && s.tasks[c].Live()
      && s.tables.userChannels[c] == (s.tasks[c].user, s.tasks[c].phase.channel)
  }

  ghost predicate Covered(s: State, u: UserId) {
    |LiveTasks(s, u)| >= One(u in s.tables.connected) + One(u in s.tables.pending)
  }

  lemma LiveAfter(expected: nat, s: State, step: Step, u: UserId)
    requires Enabled(s, step)
    ensures var s' := After(expected, s, step);
            && LiveTasks(s', u)
                == (if s'.tasks[step.id].Live() && UserOf(s, step) == u then LiveTasks(s, u) + {step.id}
                else LiveTasks(s, u) - {step.id})
            && (step.id in LiveTasks(s, u) <==> step.id in s.tasks && s.tasks[step.id].Live() && UserOf(s, step) == u)
  {
  }

  // A registration puts its user into the tables at most once more, a cleanup takes it out of one.
  lemma PresenceAfter(expected: nat, s: State, step: Step, u: UserId)
    requires Enabled(s, step)
    ensures var t, t' := s.tables, After(expected, s, step).tables;
            var before := One(u in t.connected) + One(u in t.pending);
            var after := One(u in t'.connected) + One(u in t'.pending);
            if UserOf(s, step) != u then after == before
            else if step.Identify? then after <= before + 1
            else if step.Close? then after <= before && (before > 0 ==> after < before)
            else after == before
  {
  }

  lemma StepKeepsCover(expected: nat, s: State, step: Step, u: UserId)
    requires Enabled(s, step) && Covered(s, u)
    ensures Covered(After(expected, s, step), u)
  {
    LiveAfter(expected, s, step, u);
    PresenceAfter(expected, s, step, u);
  }

  lemma StepKeepsEntriesLive(expected: nat, s: State, step: Step)
    requires Enabled(s, step) && EntriesAreLive(s)
    ensures EntriesAreLive(After(expected, s, step))
  {
  }

  // In every reachable state a user appears in `connected` and `pending` together at most as often
  // as it has live tasks, and every routing entry belongs to a live task of that user and type.
  lemma {:induction false} TablesFollowTasks(expected: nat, steps: seq<Step>)
    requires Possible(expected, steps)
    ensures EntriesAreLive(Reached(expected, steps))
    ensures forall u :: Covered(Reached(expected, steps), u)
    decreases |steps|
  {
    if steps == [] {
    } else {
      var n := |steps| - 1;
      var s := Reached(expected, steps[..n]);
      TablesFollowTasks(expected, steps[..n]);
      StepKeepsEntriesLive(expected, s, steps[n]);
      forall u ensures Covered(After(expected, s, steps[n]), u) {
        StepKeepsCover(expected, s, steps[n], u);
      }
    }
  }

  // So nothing of a user outlives its last task.
  lemma LastTaskLeavesNothing(expected: nat, steps: seq<Step>, u: UserId)
    requires Possible(expected, steps) && LiveTasks(Reached(expected, steps), u) == {}
    ensures var t := Reached(expected, steps).tables;
            && u !in t.connected && u !in t.pending
            && (forall c | c in t.userChannels :: t.userChannels[c].0 != u)
  {
    TablesFollowTasks(expected, steps);
    var s := Reached(expected, steps);
    assert Covered(s, u);
    forall c | c in s.tables.userChannels
      ensures s.tables.userChannels[c].0 != u
    {
      assert s.tables.userChannels[c].0 == u ==> c in LiveTasks(s, u);
    }
  }

  // ---------- decisions ----------

  function Of(log: seq<Decision>, u: UserId): seq<Decision> {
    if log == [] then []
    else
      var n := |log| - 1;
      if log[n].user == u then Of(log[..n], u) + [log[n]] else Of(log[..n], u)
  }

  function Count(log: seq<Decision>, d: Decision): nat { multiset(log)[d] }

  // The task still has to send this decision.
  predicate Owes(t: Task, d: Decision) {
    t.user == d.user && (if d.Ready? then t.phase.OwesReady? else t.phase.OwesGone?)
  }

  function Owing(s: State, d: Decision): set<ChannelId> {
    set c | c in s.tasks && Owes(s.tasks[c], d)
  }

  // A user is connected exactly when its last decision was `Ready`.
  ghost predicate ConnectedByLog(s: State, u: UserId) {
    u in s.tables.connected <==> (Of(s.decided, u) != [] && Of(s.decided, u)[|Of(s.decided, u)| - 1].Ready?)
  }

  // Departures never outrun arrivals.
  ghost predicate ArrivalsLead(s: State, u: UserId) {
    Count(s.decided, Gone(u)) + One(u in s.tables.connected) <= Count(s.decided, Ready(u))
  }

  // Every decision is sent once or still owed by one task.
  ghost predicate SentOrOwed(s: State, d: Decision) {
    Count(s.decided, d) == Count(s.sent, d) + |Owing(s, d)|
  }

  ghost predicate Ledger(s: State) {
    (forall d :: SentOrOwed(s, d)) && (forall u :: ConnectedByLog(s, u) && ArrivalsLead(s, u))
  }

  lemma OwingAfter(expected: nat, s: State, step: Step, d: Decision)
    requires Enabled(s, step)
    ensures var s' := After(expected, s, step);
            && Owing(s', d) == (if Owes(s'.tasks[step.id], d) then Owing(s, d) + {step.id} else Owing(s, d) - {step.id})
            && (step.id in Owing(s, d) <==> step.id in s.tasks && Owes(s.tasks[step.id], d))
  {
  }

  lemma CountLogged(log: seq<Decision>, x: Option<Decision>, d: Decision)
    ensures Count(Logged(log, x), d) == Count(log, d) + One(x == Some(d))
  {
  }

  lemma OfLogged(log: seq<Decision>, x: Option<Decision>, u: UserId)
    ensures Of(Logged(log, x), u) == if x.Some? && x.value.user == u then Of(log, u) + [x.value] else Of(log, u)
  {
    if x.Some? {
      assert (log + [x.value])[..|log|] == log;
    }
  }

  // What a step means for one user: its decision, and whether it is connected afterwards.
  lemma ConnectedAfter(expected: nat, s: State, step: Step, u: UserId)
    requires Enabled(s, step)
    ensures var d := DecisionOf(expected, s, step); var s' := After(expected, s, step);
            && s'.decided == Logged(s.decided, d)
            && (d == Some(Ready(u)) ==> u in s'.tables.connected)
            && (d == Some(Gone(u)) ==> u in s.tables.connected && u !in s'.tables.connected)
            && (d.None? || d.value.user != u ==> (u in s'.tables.connected <==> u in s.tables.connected))
  {
  }

  lemma StepKeepsBalance(expected: nat, s: State, step: Step, d: Decision)
    requires Enabled(s, step) && SentOrOwed(s, d)
    ensures SentOrOwed(After(expected, s, step), d)
  {
    OwingAfter(expected, s, step, d);
    CountLogged(s.decided, DecisionOf(expected, s, step), d);
    CountLogged(s.sent, SendOf(s, step), d);
  }

  lemma StepKeepsLog(expected: nat, s: State, step: Step, u: UserId)
    requires Enabled(s, step) && ConnectedByLog(s, u) && ArrivalsLead(s, u)
    ensures ConnectedByLog(After(expected, s, step), u) && ArrivalsLead(After(expected, s, step), u)
  {
    var d := DecisionOf(expected, s, step);
    ConnectedAfter(expected, s, step, u);
    OfLogged(s.decided, d, u);
    CountLogged(s.decided, d, Ready(u));
    CountLogged(s.decided, d, Gone(u));
  }

  lemma StepKeepsLedger(expected: nat, s: State, step: Step)
    requires Enabled(s, step) && Ledger(s)
    ensures Ledger(After(expected, s, step))
  {
    forall d ensures SentOrOwed(After(expected, s, step), d) {
      StepKeepsBalance(expected, s, step, d);
    }
    forall u ensures ConnectedByLog(After(expected, s, step), u) && ArrivalsLead(After(expected, s, step), u) {
      StepKeepsLog(expected, s, step, u);
    }
  }

  lemma {:induction false} DecisionsBalance(expected: nat, steps: seq<Step>)
    requires Possible(expected, steps)
    ensures Ledger(Reached(expected, steps))
    decreases |steps|
  {
    if steps == [] {
      forall d ensures SentOrOwed(Start, d) {
        assert Owing(Start, d) == {};
      }
    } else {
      var n := |steps| - 1;
      DecisionsBalance(expected, steps[..n]);
      StepKeepsLedger(expected, Reached(expected, steps[..n]), steps[n]);
    }
  }
}
