/**
 * Clients that keep one channel per type: what "connected" then means, and when `UserReady` and
 * `UserGone` are decided.  Everything is per user: what other clients do does not matter.
 */
module Discipline {
  import opened Wrappers
  import opened Ids
  import opened ActorTables
  import opened Connections

  // No entry of the user has this type yet.
  ghost predicate Fresh(s: State, u: UserId, channel: ChannelType) {
    forall c | c in s.tables.userChannels :: s.tables.userChannels[c] != (u, channel)
  }

  // `types` is `all_channels()`, and ids decode into it.  Only the steps of `u` are asked anything.
  ghost predicate Orderly(types: set<ChannelType>, s: State, step: Step, u: UserId)
    requires Enabled(s, step)
  {
    step.Identify? && UserOf(s, step) == u ==> step.channel in types && Fresh(s, u, step.channel)
  }

  ghost predicate OrderlyRun(types: set<ChannelType>, steps: seq<Step>, u: UserId)
    requires Possible(|types|, steps)
    decreases |steps|
  {
    steps != [] ==>
      var n := |steps| - 1;
      OrderlyRun(types, steps[..n], u) && Orderly(types, Reached(|types|, steps[..n]), steps[n], u)
  }

  ghost predicate HasEntry(t: Tables, u: UserId, channel: ChannelType) {
    exists c :: c in t.userChannels && t.userChannels[c] == (u, channel)
  }

  ghost predicate EntriesAreUnique(t: Tables, u: UserId) {
    forall c, d | c in t.userChannels && d in t.userChannels && t.userChannels[c].0 == u
        && t.userChannels[c] == t.userChannels[d] :: c == d
  }

  ghost predicate ConnectedIsComplete(types: set<ChannelType>, t: Tables, u: UserId) {
    u in t.connected ==> u !in t.pending && forall channel | channel in types :: HasEntry(t, u, channel)
  }

  ghost predicate PendingIsRouted(types: set<ChannelType>, t: Tables, u: UserId) {
    u in t.pending ==>
      && t.pending[u].Keys <= types
      && forall channel | channel in t.pending[u] :: HasEntry(t, u, channel)
  }

  ghost predicate Whole(types: set<ChannelType>, t: Tables, u: UserId) {
    EntriesAreUnique(t, u) && ConnectedIsComplete(types, t, u) && PendingIsRouted(types, t, u)
  }

  lemma FullSubset<T>(a: set<T>, b: set<T>)
    requires a <= b && |a| >= |b|
    ensures a == b
  {
    if exists x :: x in b && x !in a {
      var x :| x in b && x !in a;
      FullSubset(a, b - {x});
    }
  }

  lemma EntryAfterRegister(t: Tables, v: UserId, id: ChannelId, channel: ChannelType, expected: nat, u: UserId,
      x: ChannelType)
    requires id !in t.userChannels
    ensures HasEntry(AfterRegister(t, v, id, channel, expected), u, x)
            <==> HasEntry(t, u, x) || (u == v && x == channel)
  {
    var entries, entries' := t.userChannels, AfterRegister(t, v, id, channel, expected).userChannels;
    assert entries' == entries[id := (v, channel)];
    if u == v && x == channel { assert entries'[id] == (u, x); }
    if HasEntry(t, u, x) {
      var c :| c in entries && entries[c] == (u, x);
      assert entries'[c] == (u, x);
    }
  }

  // Entries of others and of earlier channels survive a registration.
  lemma EntriesAfterRegister(t: Tables, v: UserId, id: ChannelId, channel: ChannelType, expected: nat, u: UserId)
    requires id !in t.userChannels
    ensures var t' := AfterRegister(t, v, id, channel, expected);
            forall x :: HasEntry(t', u, x) <==> HasEntry(t, u, x) || (u == v && x == channel)
  {
    forall x
      ensures HasEntry(AfterRegister(t, v, id, channel, expected), u, x)
              <==> HasEntry(t, u, x) || (u == v && x == channel)
    {
      EntryAfterRegister(t, v, id, channel, expected, u, x);
    }
  }

  lemma CompleteUserHasAll(types: set<ChannelType>, t: Tables, u: UserId, id: ChannelId, channel: ChannelType)
    requires PendingIsRouted(types, t, u) && channel in types && CompletesUser(t, u, id, channel, |types|)
    ensures Collected(t, u, id, channel).Keys == types
    ensures forall x | x in types :: x == channel || HasEntry(t, u, x)
  {
    var entry := Collected(t, u, id, channel);
    FullSubset(entry.Keys, types);
    assert forall x | x in types :: x in entry;
  }

  lemma RegisterKeepsUnique(t: Tables, u: UserId, id: ChannelId, channel: ChannelType, expected: nat)
    requires EntriesAreUnique(t, u) && id !in t.userChannels
    requires forall c | c in t.userChannels :: t.userChannels[c] != (u, channel)
    ensures EntriesAreUnique(AfterRegister(t, u, id, channel, expected), u)
  {
  }

  lemma RegisterKeepsPending(types: set<ChannelType>, t: Tables, u: UserId, id: ChannelId, channel: ChannelType)
    requires PendingIsRouted(types, t, u) && id !in t.userChannels && channel in types
    ensures PendingIsRouted(types, AfterRegister(t, u, id, channel, |types|), u)
  {
    EntriesAfterRegister(t, u, id, channel, |types|, u);
  }

  lemma RegisterKeepsConnected(types: set<ChannelType>, t: Tables, u: UserId, id: ChannelId, channel: ChannelType)
    requires PendingIsRouted(types, t, u) && id !in t.userChannels && channel in types && u !in t.connected
    ensures ConnectedIsComplete(types, AfterRegister(t, u, id, channel, |types|), u)
  {
    EntriesAfterRegister(t, u, id, channel, |types|, u);
    if CompletesUser(t, u, id, channel, |types|) {
      CompleteUserHasAll(types, t, u, id, channel);
    }
  }

  // A registration by the user itself, of a type without an entry.
  lemma RegisterKeepsWhole(types: set<ChannelType>, t: Tables, u: UserId, id: ChannelId, channel: ChannelType)
    requires Whole(types, t, u) && id !in t.userChannels && channel in types
    requires forall c | c in t.userChannels :: t.userChannels[c] != (u, channel)
    ensures u !in t.connected
    ensures Whole(types, AfterRegister(t, u, id, channel, |types|), u)
  {
    assert !HasEntry(t, u, channel);
    RegisterKeepsUnique(t, u, id, channel, |types|);
    RegisterKeepsPending(types, t, u, id, channel);
    RegisterKeepsConnected(types, t, u, id, channel);
  }

  // A registration by another user.
  lemma OthersRegister(types: set<ChannelType>, t: Tables, u: UserId, v: UserId, id: ChannelId, channel: ChannelType)
    requires Whole(types, t, u) && id !in t.userChannels && v != u
    ensures Whole(types, AfterRegister(t, v, id, channel, |types|), u)
  {
    EntriesAfterRegister(t, v, id, channel, |types|, u);
  }

  // Entries of other users survive a cleanup; a connected user keeps none.
  lemma EntriesAfterCleanup(t: Tables, v: UserId, id: ChannelId, u: UserId)
    requires v != u && (id in t.userChannels ==> t.userChannels[id].0 == v)
    ensures var t' := AfterCleanup(t, v, id);
            forall x :: HasEntry(t', u, x) <==> HasEntry(t, u, x)
  {
    var t' := AfterCleanup(t, v, id);
    forall x
      ensures HasEntry(t', u, x) <==> HasEntry(t, u, x)
    {
      if HasEntry(t, u, x) {
        var c :| c in t.userChannels && t.userChannels[c] == (u, x);
        assert c in t'.userChannels && t'.userChannels[c] == (u, x);
      }
    }
  }

  // Any user's cleanup.
  lemma CleanupKeepsWhole(types: set<ChannelType>, t: Tables, u: UserId, v: UserId, id: ChannelId)
    requires Whole(types, t, u) && (id in t.userChannels ==> t.userChannels[id].0 == v)
    ensures Whole(types, AfterCleanup(t, v, id), u)
  {
    if v != u {
      EntriesAfterCleanup(t, v, id, u);
    }
  }

  lemma StepKeepsWhole(types: set<ChannelType>, s: State, step: Step, u: UserId)
    requires Enabled(s, step) && Orderly(types, s, step, u) && EntriesAreLive(s) && Whole(types, s.tables, u)
    ensures Whole(types, After(|types|, s, step).tables, u)
    ensures DecisionOf(|types|, s, step) == Some(Ready(u)) ==> u !in s.tables.connected
  {
    match step {
      case Identify(id, channel) =>
        if s.tasks[id].user == u {
          RegisterKeepsWhole(types, s.tables, u, id, channel);
        } else {
          OthersRegister(types, s.tables, u, s.tasks[id].user, id, channel);
        }
      case Close(id) => CleanupKeepsWhole(types, s.tables, u, s.tasks[id].user, id);
      case _ =>
    }
  }

  // Strictly alternating, beginning with `Ready`.
  predicate Alternating(log: seq<Decision>) {
    forall i | 0 <= i < |log| :: log[i].Ready? <==> i % 2 == 0
  }

  lemma AlternatingAppend(log: seq<Decision>, d: Decision)
    requires Alternating(log) && (d.Ready? <==> |log| % 2 == 0)
    ensures Alternating(log + [d])
  {
  }

  lemma AlternatingParity(log: seq<Decision>)
    requires Alternating(log)
    ensures (log != [] && log[|log| - 1].Ready?) <==> |log| % 2 == 1
  {
  }

  lemma StepKeepsAlternation(expected: nat, s: State, step: Step, u: UserId)
    requires Enabled(s, step) && Alternating(Of(s.decided, u)) && ConnectedByLog(s, u)
    requires DecisionOf(expected, s, step) == Some(Ready(u)) ==> u !in s.tables.connected
    ensures Alternating(Of(After(expected, s, step).decided, u))
  {
    var d := DecisionOf(expected, s, step);
    OfLogged(s.decided, d, u);
    ConnectedAfter(expected, s, step, u);
    AlternatingParity(Of(s.decided, u));
    if d.Some? && d.value.user == u {
      AlternatingAppend(Of(s.decided, u), d.value);
    }
  }

  ghost predicate Sound(types: set<ChannelType>, s: State, u: UserId) {
    Whole(types, s.tables, u) && Alternating(Of(s.decided, u)) && ConnectedByLog(s, u)
  }

  lemma StepKeepsSound(types: set<ChannelType>, s: State, step: Step, u: UserId)
    requires Enabled(s, step) && Orderly(types, s, step, u) && EntriesAreLive(s) && Ledger(s) && Sound(types, s, u)
    ensures Sound(types, After(|types|, s, step), u)
  {
    StepKeepsWhole(types, s, step, u);
    assert ConnectedByLog(s, u) && ArrivalsLead(s, u);
    StepKeepsAlternation(|types|, s, step, u);
    StepKeepsLog(|types|, s, step, u);
  }

  lemma {:induction false} OrderlyRunsAreSound(types: set<ChannelType>, steps: seq<Step>, u: UserId)
    requires Possible(|types|, steps) && OrderlyRun(types, steps, u)
    ensures Sound(types, Reached(|types|, steps), u)
    decreases |steps|
  {
    if steps == [] {
    } else {
      var n := |steps| - 1;
      OrderlyRunsAreSound(types, steps[..n], u);
      TablesFollowTasks(|types|, steps[..n]);
      DecisionsBalance(|types|, steps[..n]);
      StepKeepsSound(types, Reached(|types|, steps[..n]), steps[n], u);
    }
  }

  // A connected user has, for every channel type, exactly one routing entry, and its task is live.
  lemma ConnectedHasOneLiveChannelEach(types: set<ChannelType>, steps: seq<Step>, u: UserId, channel: ChannelType)
    requires Possible(|types|, steps) && OrderlyRun(types, steps, u)
    requires u in Reached(|types|, steps).tables.connected && channel in types
    ensures var s := Reached(|types|, steps);
            exists c :: (c in s.tables.userChannels && s.tables.userChannels[c] == (u, channel))
                     && c in LiveTasks(s, u) && s.tasks[c].phase.channel == channel
                     && (forall d | d in s.tables.userChannels && s.tables.userChannels[d] == (u, channel) :: d == c)
  {
    var s := Reached(|types|, steps);
    OrderlyRunsAreSound(types, steps, u);
    TablesFollowTasks(|types|, steps);
    assert HasEntry(s.tables, u, channel);
    var c :| c in s.tables.userChannels && s.tables.userChannels[c] == (u, channel);
    assert c in LiveTasks(s, u);
  }

  // `UserReady` and `UserGone` are decided in strict alternation, and the user is connected between.
  lemma DecisionsAlternate(types: set<ChannelType>, steps: seq<Step>, u: UserId)
    requires Possible(|types|, steps) && OrderlyRun(types, steps, u)
    ensures Alternating(Of(Reached(|types|, steps).decided, u))
    ensures u in Reached(|types|, steps).tables.connected <==> |Of(Reached(|types|, steps).decided, u)| % 2 == 1
  {
    OrderlyRunsAreSound(types, steps, u);
    AlternatingParity(Of(Reached(|types|, steps).decided, u));
  }

  // ---------- one live task per type ----------

  // The user's live tasks are of different types.
  ghost predicate OneTaskPerType(s: State, u: UserId) {
    forall c, d | c in LiveTasks(s, u) && d in LiveTasks(s, u)
        && s.tasks[c].phase.channel == s.tasks[d].phase.channel :: c == d
  }

  // At no moment of the run does the user have two live tasks of one type, or one of no known type.
  ghost predicate OneTaskPerTypeThroughout(types: set<ChannelType>, steps: seq<Step>, u: UserId)
    requires Possible(|types|, steps)
    decreases |steps|
  {
    && OneTaskPerType(Reached(|types|, steps), u)
    && (steps != [] ==>
          && OneTaskPerTypeThroughout(types, steps[..|steps| - 1], u)
          && (steps[|steps| - 1].Identify?
              && UserOf(Reached(|types|, steps[..|steps| - 1]), steps[|steps| - 1]) == u ==>
                steps[|steps| - 1].channel in types))
  }

  // A type without a live task has no entry.
  lemma NoLiveTaskMeansFresh(s: State, u: UserId, channel: ChannelType)
    requires EntriesAreLive(s) && forall c | c in LiveTasks(s, u) :: s.tasks[c].phase.channel != channel
    ensures Fresh(s, u, channel)
  {
    forall c | c in s.tables.userChannels
      ensures s.tables.userChannels[c] != (u, channel)
    {
      assert s.tables.userChannels[c].0 == u ==> c in LiveTasks(s, u);
    }
  }

  // A registration that leaves one task per type was of a type that had none.
  lemma RegisteringOneMore(expected: nat, s: State, step: Step, u: UserId)
    requires Enabled(s, step) && step.Identify? && UserOf(s, step) == u
    requires OneTaskPerType(After(expected, s, step), u)
    ensures forall c | c in LiveTasks(s, u) :: s.tasks[c].phase.channel != step.channel
  {
    var s' := After(expected, s, step);
    LiveAfter(expected, s, step, u);
    assert step.id in LiveTasks(s', u) && s'.tasks[step.id].phase.channel == step.channel;
    forall c | c in LiveTasks(s, u)
      ensures s.tasks[c].phase.channel != step.channel
    {
      assert c in LiveTasks(s', u) && s'.tasks[c] == s.tasks[c];
    }
  }

  // A user that never has two live tasks of one type is orderly, whatever the others do.
  lemma {:induction false} OneTaskPerTypeIsOrderly(types: set<ChannelType>, steps: seq<Step>, u: UserId)
    requires Possible(|types|, steps) && OneTaskPerTypeThroughout(types, steps, u)
    ensures OrderlyRun(types, steps, u)
    decreases |steps|
  {
    if steps == [] {
    } else {
      var n := |steps| - 1;
      var s := Reached(|types|, steps[..n]);
      OneTaskPerTypeIsOrderly(types, steps[..n], u);
      TablesFollowTasks(|types|, steps[..n]);
      if steps[n].Identify? && UserOf(s, steps[n]) == u {
        RegisteringOneMore(|types|, s, steps[n], u);
        NoLiveTaskMeansFresh(s, u, steps[n].channel);
      }
    }
  }
}
