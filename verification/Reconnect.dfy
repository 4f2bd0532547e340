/**
 * When a user whose channels are all up counts as connected, and exactly when it need not.
 *
 * A close forgets everything the user had collected, but leaves the user's other tasks running.
 * A user is `Synced` when the tables still agree with its live tasks; while it is, "connected" is
 * the same as "every channel type has a live task".  A close keeps it so exactly when it ends the
 * user's last task.
 */
module Reconnect {
  import opened Wrappers
  import opened Ids
  import opened ActorTables
  import opened Connections
  import opened Arrivals
  import opened Discipline

  function LiveTypes(s: State, u: UserId): set<ChannelType> {
    set c | c in LiveTasks(s, u) :: s.tasks[c].phase.channel
  }

  function CollectedTypes(t: Tables, u: UserId): set<ChannelType> {
    if u in t.pending then t.pending[u].Keys else {}
  }

  ghost predicate Synced(types: set<ChannelType>, s: State, u: UserId) {
    if u in s.tables.connected then u !in s.tables.pending && LiveTypes(s, u) == types
    else CollectedTypes(s.tables, u) == LiveTypes(s, u) && LiveTypes(s, u) < types
  }

  // For a synced user: connected exactly when all its types are up.
  lemma SyncedMeansConnectedWhenAllUp(types: set<ChannelType>, s: State, u: UserId)
    requires Synced(types, s, u)
    ensures u in s.tables.connected <==> LiveTypes(s, u) == types
  {
  }

  // Neither a close by the user, nor a type of the user that already has a live task.
  ghost predicate Calm(types: set<ChannelType>, s: State, step: Step, u: UserId)
    requires Enabled(s, step)
  {
    UserOf(s, step) == u ==>
      && !step.Close?
      && (step.Identify? ==> step.channel in types && step.channel !in LiveTypes(s, u))
  }

  // A live task stays live, with its type, through every step but its own close.
  lemma LiveTasksKeepTypes(expected: nat, s: State, step: Step, u: UserId, c: ChannelId)
    requires Enabled(s, step) && c in LiveTasks(s, u) && !(step.Close? && step.id == c)
    ensures var s' := After(expected, s, step);
            c in LiveTasks(s', u) && s'.tasks[c].phase.channel == s.tasks[c].phase.channel
  {
  }

  lemma LiveTypesAfter(expected: nat, s: State, step: Step, u: UserId)
    requires Enabled(s, step) && !(step.Close? && UserOf(s, step) == u)
    ensures LiveTypes(After(expected, s, step), u)
         == LiveTypes(s, u) + if step.Identify? && UserOf(s, step) == u then {step.channel} else {}
  {
    var s' := After(expected, s, step);
    LiveAfter(expected, s, step, u);
    forall c | c in LiveTasks(s, u)
      ensures c in LiveTasks(s', u) && s'.tasks[c].phase.channel == s.tasks[c].phase.channel
    {
      LiveTasksKeepTypes(expected, s, step, u, c);
    }
    if step.Identify? && UserOf(s, step) == u {
      assert step.id in LiveTasks(s', u) && s'.tasks[step.id].phase.channel == step.channel;
      TypesOfMore(s, s', u, LiveTasks(s, u), step.id);
    } else {
      assert LiveTasks(s', u) == LiveTasks(s, u);
      SameTypes(s, s', u);
    }
  }

  lemma SameTypes(s: State, s': State, u: UserId)
    requires LiveTasks(s', u) == LiveTasks(s, u)
    requires forall c | c in LiveTasks(s, u) :: s'.tasks[c].phase.channel == s.tasks[c].phase.channel
    ensures LiveTypes(s', u) == LiveTypes(s, u)
  {
    forall x | x in LiveTypes(s, u)
      ensures x in LiveTypes(s', u)
    {
      var c :| c in LiveTasks(s, u) && s.tasks[c].phase.channel == x;
      assert s'.tasks[c].phase.channel == x;
    }
  }

  lemma TypesOfMore(s: State, s': State, u: UserId, live: set<ChannelId>, id: ChannelId)
    requires live == LiveTasks(s, u) && LiveTasks(s', u) == live + {id}
    requires forall c | c in live :: s'.tasks[c].phase.channel == s.tasks[c].phase.channel
    ensures LiveTypes(s', u) == LiveTypes(s, u) + {s'.tasks[id].phase.channel}
  {
    forall x | x in LiveTypes(s, u)
      ensures x in LiveTypes(s', u)
    {
      var c :| c in LiveTasks(s, u) && s.tasks[c].phase.channel == x;
      assert c in LiveTasks(s', u) && s'.tasks[c].phase.channel == x;
    }
    assert id in LiveTasks(s', u);
  }

  // A step of another user leaves the user's tables alone.
  lemma OthersDoNotMatter(expected: nat, s: State, step: Step, u: UserId)
    requires Enabled(s, step) && (UserOf(s, step) != u || !(step.Identify? || step.Close?))
    ensures var t, t' := s.tables, After(expected, s, step).tables;
            && (u in t'.connected <==> u in t.connected)
            && (u in t'.pending <==> u in t.pending)
            && CollectedTypes(t', u) == CollectedTypes(t, u)
  {
  }

  // A registration of a type that is not up yet.
  lemma RegisterKeepsSynced(types: set<ChannelType>, t: Tables, live: set<ChannelType>, u: UserId, id: ChannelId,
      channel: ChannelType)
    requires u !in t.connected && CollectedTypes(t, u) == live < types && channel in types && channel !in live
    ensures var t' := AfterRegister(t, u, id, channel, |types|);
            if u in t'.connected then u !in t'.pending && live + {channel} == types
            else CollectedTypes(t', u) == live + {channel} && live + {channel} < types
  {
    var entry := Collected(t, u, id, channel);
    assert entry.Keys == live + {channel};
    assert |entry.Keys| == |entry|;
    if CompletesUser(t, u, id, channel, |types|) {
      FullSubset(entry.Keys, types);
    } else {
      assert entry.Keys != types;
    }
  }

  lemma StepKeepsSynced(types: set<ChannelType>, s: State, step: Step, u: UserId)
    requires Enabled(s, step) && Calm(types, s, step, u) && Synced(types, s, u)
    ensures Synced(types, After(|types|, s, step), u)
  {
    LiveTypesAfter(|types|, s, step, u);
    if step.Identify? && UserOf(s, step) == u {
      RegisterKeepsSynced(types, s.tables, LiveTypes(s, u), u, step.id, step.channel);
    } else {
      OthersDoNotMatter(|types|, s, step, u);
    }
  }

  // A close leaves a user synced exactly when it was the user's last task.
  lemma CloseKeepsSyncedOnlyAtTheEnd(types: set<ChannelType>, s: State, id: ChannelId)
    requires Enabled(s, Close(id)) && types != {} && Synced(types, s, s.tasks[id].user)
    ensures Synced(types, After(|types|, s, Close(id)), s.tasks[id].user) <==> LiveTasks(s, s.tasks[id].user) == {id}
  {
    var u := s.tasks[id].user;
    var s' := After(|types|, s, Close(id));
    LiveAfter(|types|, s, Close(id), u);
    if LiveTasks(s', u) == {} {
      assert LiveTypes(s', u) == {};
    } else {
      var c :| c in LiveTasks(s', u);
      assert s'.tasks[c].phase.channel in LiveTypes(s', u);
    }
  }

  // A close removes the user from `connected` and from the routing table, but the user's other tasks
  // go on running.
  lemma CloseLeavesSiblingsRunning(expected: nat, s: State, id: ChannelId)
    requires Enabled(s, Close(id)) && s.tasks[id].user in s.tables.connected
    ensures var u := s.tasks[id].user; var s' := After(expected, s, Close(id));
            && LiveTasks(s', u) == LiveTasks(s, u) - {id}
            && u !in s'.tables.connected
            && (forall c | c in s'.tables.userChannels :: s'.tables.userChannels[c].0 != u)
  {
    LiveAfter(expected, s, Close(id), s.tasks[id].user);
  }

  // From step `from` on the user is calm.
  ghost predicate CalmSince(types: set<ChannelType>, steps: seq<Step>, from: nat, u: UserId)
    requires Possible(|types|, steps)
    decreases |steps|
  {
    |steps| > from ==>
      var n := |steps| - 1;
      CalmSince(types, steps[..n], from, u) && Calm(types, Reached(|types|, steps[..n]), steps[n], u)
  }

  // A user that starts from no live task and closes none is connected exactly when all its types are
  // up, in whatever order they come and whatever other users do meanwhile.
  lemma {:induction false} ConnectedExactlyWhenAllUp(types: set<ChannelType>, steps: seq<Step>, from: nat, u: UserId)
    requires types != {} && from <= |steps| && Possible(|types|, steps)
    requires Possible(|types|, steps[..from]) && LiveTasks(Reached(|types|, steps[..from]), u) == {}
    requires CalmSince(types, steps, from, u)
    ensures Synced(types, Reached(|types|, steps), u)
    ensures u in Reached(|types|, steps).tables.connected <==> LiveTypes(Reached(|types|, steps), u) == types
    decreases |steps|
  {
    if |steps| == from {
      assert steps[..from] == steps;
      LastTaskLeavesNothing(|types|, steps, u);
      assert LiveTypes(Reached(|types|, steps), u) == {};
    } else {
      var n := |steps| - 1;
      assert steps[..n][..from] == steps[..from];
      ConnectedExactlyWhenAllUp(types, steps[..n], from, u);
      StepKeepsSynced(types, Reached(|types|, steps[..n]), steps[n], u);
    }
  }

  // ---------- when the agreement is lost ----------

  lemma ExtendCalm(types: set<ChannelType>, steps: seq<Step>, from: nat, u: UserId, step: Step)
    requires from <= |steps| && Possible(|types|, steps) && CalmSince(types, steps, from, u)
    requires Enabled(Reached(|types|, steps), step) && Calm(types, Reached(|types|, steps), step, u)
    ensures Possible(|types|, steps + [step]) && CalmSince(types, steps + [step], from, u)
    ensures Reached(|types|, steps + [step]) == After(|types|, Reached(|types|, steps), step)
  {
    Extend(|types|, steps, step);
    assert (steps + [step])[..|steps|] == steps;
  }

  // A new task brings up a type that is not up yet.
  lemma ArriveCalmly(types: set<ChannelType>, steps: seq<Step>, from: nat, u: UserId, id: ChannelId,
      channel: ChannelType) returns (next: seq<Step>)
    requires from <= |steps| && Possible(|types|, steps) && CalmSince(types, steps, from, u)
    requires id !in Reached(|types|, steps).tasks
    requires channel in types && channel !in LiveTypes(Reached(|types|, steps), u)
    ensures steps <= next && Possible(|types|, next) && CalmSince(types, next, from, u)
    ensures Arrived(|types|, Reached(|types|, steps), Reached(|types|, next), u, id, channel)
    ensures LiveTypes(Reached(|types|, next), u) == LiveTypes(Reached(|types|, steps), u) + {channel}
  {
    var s := Reached(|types|, steps);
    AcceptCalmly(types, steps, from, u, id);
    next := IdentifyCalmly(types, steps + [Accept(id, u)], from, u, id, channel);
    AcceptedAndIdentified(|types|, s, u, id, channel);
  }

  lemma AcceptCalmly(types: set<ChannelType>, steps: seq<Step>, from: nat, u: UserId, id: ChannelId)
    requires from <= |steps| && Possible(|types|, steps) && CalmSince(types, steps, from, u)
    requires id !in Reached(|types|, steps).tasks
    ensures Possible(|types|, steps + [Accept(id, u)]) && CalmSince(types, steps + [Accept(id, u)], from, u)
    ensures var s' := Reached(|types|, steps + [Accept(id, u)]);
            && s' == After(|types|, Reached(|types|, steps), Accept(id, u))
            && LiveTypes(s', u) == LiveTypes(Reached(|types|, steps), u)
  {
    ExtendCalm(types, steps, from, u, Accept(id, u));
    LiveTypesAfter(|types|, Reached(|types|, steps), Accept(id, u), u);
  }

  lemma IdentifyCalmly(types: set<ChannelType>, steps: seq<Step>, from: nat, u: UserId, id: ChannelId,
      channel: ChannelType) returns (next: seq<Step>)
    requires from <= |steps| && Possible(|types|, steps) && CalmSince(types, steps, from, u)
    requires Enabled(Reached(|types|, steps), Identify(id, channel)) && Reached(|types|, steps).tasks[id].user == u
    requires channel in types && channel !in LiveTypes(Reached(|types|, steps), u)
    ensures steps <= next && Possible(|types|, next) && CalmSince(types, next, from, u)
    ensures Reached(|types|, next) == After(|types|, Reached(|types|, steps), Identify(id, channel))
    ensures LiveTypes(Reached(|types|, next), u) == LiveTypes(Reached(|types|, steps), u) + {channel}
  {
    ExtendCalm(types, steps, from, u, Identify(id, channel));
    LiveTypesAfter(|types|, Reached(|types|, steps), Identify(id, channel), u);
    next := steps + [Identify(id, channel)];
  }

  // Not connected, with a live task whose type has been forgotten.
  ghost predicate Stalled(types: set<ChannelType>, s: State, u: UserId) {
    u !in s.tables.connected && CollectedTypes(s.tables, u) < LiveTypes(s, u) <= types
  }

  lemma CloseStalls(types: set<ChannelType>, s: State, id: ChannelId)
    requires Enabled(s, Close(id)) && Synced(types, s, s.tasks[id].user) && LiveTasks(s, s.tasks[id].user) != {id}
    ensures Stalled(types, After(|types|, s, Close(id)), s.tasks[id].user)
  {
    var u, s' := s.tasks[id].user, After(|types|, s, Close(id));
    LiveAfter(|types|, s, Close(id), u);
    assert id in LiveTasks(s, u);
    var c :| c in LiveTasks(s, u) && c != id;
    assert s'.tasks[c].phase.channel in LiveTypes(s', u);
    assert CollectedTypes(s'.tables, u) == {};
    forall x | x in LiveTypes(s', u)
      ensures x in LiveTypes(s, u)
    {
      var d :| d in LiveTasks(s', u) && s'.tasks[d].phase.channel == x;
      assert d in LiveTasks(s, u) && s.tasks[d] == s'.tasks[d];
    }
  }

  // Bringing up another type does not recall the forgotten one, so it cannot complete the user.
  lemma ArrivalKeepsStall(types: set<ChannelType>, t: Tables, live: set<ChannelType>, u: UserId, id: ChannelId,
      channel: ChannelType)
    requires u !in t.connected && CollectedTypes(t, u) < live <= types && channel in types && channel !in live
    ensures var t' := AfterRegister(t, u, id, channel, |types|);
            u !in t'.connected && CollectedTypes(t', u) < live + {channel}
  {
    var entry := Collected(t, u, id, channel);
    var x :| x in live && x !in CollectedTypes(t, u);
    assert entry.Keys == CollectedTypes(t, u) + {channel};
    assert x !in entry.Keys;
    assert |entry.Keys| == |entry|;
    if CompletesUser(t, u, id, channel, |types|) {
      FullSubset(entry.Keys, types);
      assert false;
    }
  }

  // A stalled user can bring up all its types and still not be connected.
  lemma {:induction false} StallLasts(types: set<ChannelType>, steps: seq<Step>, from: nat, u: UserId)
      returns (later: seq<Step>)
    requires from <= |steps| && Possible(|types|, steps) && CalmSince(types, steps, from, u)
    requires Stalled(types, Reached(|types|, steps), u)
    ensures steps <= later && Possible(|types|, later) && CalmSince(types, later, from, u)
    ensures LiveTypes(Reached(|types|, later), u) == types && u !in Reached(|types|, later).tables.connected
    decreases types - LiveTypes(Reached(|types|, steps), u)
  {
    var s := Reached(|types|, steps);
    var live := LiveTypes(s, u);
    if live == types {
      later := steps;
    } else {
      var channel :| channel in types && channel !in live;
      var id := UnusedId(s.tasks.Keys);
      var next := ArriveCalmly(types, steps, from, u, id, channel);
      ArrivalKeepsStall(types, s.tables, live, u, id, channel);
      assert types - LiveTypes(Reached(|types|, next), u) < types - live;
      later := StallLasts(types, next, from, u);
    }
  }

  // `later` goes on from `first`, and in it the user neither closes a channel nor repeats a live type.
  ghost predicate GoesOnCalmly(types: set<ChannelType>, first: seq<Step>, later: seq<Step>, u: UserId) {
    first <= later && Possible(|types|, later) && CalmSince(types, later, |first|, u)
  }

  ghost predicate ConnectedWhenAllUp(types: set<ChannelType>, steps: seq<Step>, u: UserId)
    requires Possible(|types|, steps)
  {
    u in Reached(|types|, steps).tables.connected <==> LiveTypes(Reached(|types|, steps), u) == types
  }

  // However the user calmly goes on, "connected" stays the same as "all types up".
  ghost predicate AgreesFromNowOn(types: set<ChannelType>, first: seq<Step>, u: UserId) {
    forall later: seq<Step> | GoesOnCalmly(types, first, later, u) :: ConnectedWhenAllUp(types, later, u)
  }

  lemma {:induction false} SyncedAgrees(types: set<ChannelType>, first: seq<Step>, later: seq<Step>, u: UserId)
    requires Possible(|types|, first) && Synced(types, Reached(|types|, first), u)
             && GoesOnCalmly(types, first, later, u)
    ensures Synced(types, Reached(|types|, later), u)
    decreases |later|
  {
    if |later| == |first| {
      assert later == first;
    } else {
      var n := |later| - 1;
      SyncedAgrees(types, first, later[..n], u);
      StepKeepsSynced(types, Reached(|types|, later[..n]), later[n], u);
    }
  }

  lemma SyncedAgreesFromNowOn(types: set<ChannelType>, first: seq<Step>, u: UserId)
    requires Possible(|types|, first) && Synced(types, Reached(|types|, first), u)
    ensures AgreesFromNowOn(types, first, u)
  {
    forall later: seq<Step> | GoesOnCalmly(types, first, later, u)
      ensures ConnectedWhenAllUp(types, later, u)
    {
      SyncedAgrees(types, first, later, u);
    }
  }

  lemma StalledDisagrees(types: set<ChannelType>, first: seq<Step>, u: UserId)
    requires Possible(|types|, first) && Stalled(types, Reached(|types|, first), u)
    ensures !AgreesFromNowOn(types, first, u)
  {
    var later := StallLasts(types, first, |first|, u);
    assert GoesOnCalmly(types, first, later, u) && !ConnectedWhenAllUp(types, later, u);
  }

  // After a close by a user whose tables agree with its live tasks, "connected once all are up" goes
  // on to hold if and only if the close ended the user's last task: with any other task left, bringing
  // the missing types up can leave all of them up and the user not connected.
  lemma OnlyTheLastCloseIsHarmless(types: set<ChannelType>, steps: seq<Step>, id: ChannelId)
    requires types != {} && Possible(|types|, steps) && Enabled(Reached(|types|, steps), Close(id))
    requires Synced(types, Reached(|types|, steps), Reached(|types|, steps).tasks[id].user)
    ensures var u := Reached(|types|, steps).tasks[id].user;
            AgreesFromNowOn(types, steps + [Close(id)], u) <==> LiveTasks(Reached(|types|, steps), u) == {id}
  {
    var s := Reached(|types|, steps);
    var u := s.tasks[id].user;
    Extend(|types|, steps, Close(id));
    if LiveTasks(s, u) == {id} {
      CloseKeepsSyncedOnlyAtTheEnd(types, s, id);
      SyncedAgreesFromNowOn(types, steps + [Close(id)], u);
    } else {
      CloseStalls(types, s, id);
      StalledDisagrees(types, steps + [Close(id)], u);
    }
  }

  // ---------- orderly users ----------

  lemma CalmIsOrderly(types: set<ChannelType>, s: State, step: Step, u: UserId)
    requires Enabled(s, step) && EntriesAreLive(s) && Calm(types, s, step, u)
    ensures Orderly(types, s, step, u)
  {
    if step.Identify? && UserOf(s, step) == u {
      assert forall c | c in LiveTasks(s, u) :: s.tasks[c].phase.channel in LiveTypes(s, u);
      NoLiveTaskMeansFresh(s, u, step.channel);
    }
  }

  lemma {:induction false} GoingOnCalmlyIsOrderly(types: set<ChannelType>, first: seq<Step>, later: seq<Step>,
      u: UserId)
    requires Possible(|types|, first) && OrderlyRun(types, first, u) && GoesOnCalmly(types, first, later, u)
    ensures OrderlyRun(types, later, u)
    decreases |later|
  {
    if |later| == |first| {
      assert later == first;
    } else {
      var n := |later| - 1;
      GoingOnCalmlyIsOrderly(types, first, later[..n], u);
      TablesFollowTasks(|types|, later[..n]);
      CalmIsOrderly(types, Reached(|types|, later[..n]), later[n], u);
    }
  }

  lemma CloseEndsTypes(expected: nat, s: State, id: ChannelId)
    requires Enabled(s, Close(id))
    ensures LiveTypes(After(expected, s, Close(id)), s.tasks[id].user) <= LiveTypes(s, s.tasks[id].user)
  {
    var u, s' := s.tasks[id].user, After(expected, s, Close(id));
    LiveAfter(expected, s, Close(id), u);
    forall x | x in LiveTypes(s', u)
      ensures x in LiveTypes(s, u)
    {
      var d :| d in LiveTasks(s', u) && s'.tasks[d].phase.channel == x;
      assert d in LiveTasks(s, u) && s.tasks[d] == s'.tasks[d];
    }
  }

  lemma {:induction false} OrderlyTypesAreKnown(types: set<ChannelType>, steps: seq<Step>, u: UserId)
    requires Possible(|types|, steps) && OrderlyRun(types, steps, u)
    ensures LiveTypes(Reached(|types|, steps), u) <= types
    decreases |steps|
  {
    if steps == [] {
    } else {
      var n := |steps| - 1;
      var s := Reached(|types|, steps[..n]);
      OrderlyTypesAreKnown(types, steps[..n], u);
      if steps[n].Close? && UserOf(s, steps[n]) == u {
        CloseEndsTypes(|types|, s, steps[n].id);
      } else {
        LiveTypesAfter(|types|, s, steps[n], u);
      }
    }
  }

  // What the tables of an orderly user say is at most what is live.
  lemma EntriesAreUp(s: State, u: UserId, channel: ChannelType)
    requires EntriesAreLive(s) && HasEntry(s.tables, u, channel)
    ensures channel in LiveTypes(s, u)
  {
    var c :| c in s.tables.userChannels && s.tables.userChannels[c] == (u, channel);
    assert c in LiveTasks(s, u) && s.tasks[c].phase.channel == channel;
  }

  lemma OrderlyTablesAreUp(types: set<ChannelType>, s: State, u: UserId)
    requires EntriesAreLive(s) && Whole(types, s.tables, u)
    ensures CollectedTypes(s.tables, u) <= LiveTypes(s, u)
    ensures u in s.tables.connected ==> u !in s.tables.pending && types <= LiveTypes(s, u)
  {
    forall x | x in CollectedTypes(s.tables, u) || (u in s.tables.connected && x in types)
      ensures x in LiveTypes(s, u)
    {
      EntriesAreUp(s, u, x);
    }
  }

  // For an orderly user, at any point of any run: "connected" agrees with "all types up" from now on
  // if and only if the user is connected, or what it has collected is what it has up, and not all.
  lemma AgreementIsSynced(types: set<ChannelType>, steps: seq<Step>, u: UserId)
    requires Possible(|types|, steps) && OrderlyRun(types, steps, u)
    ensures AgreesFromNowOn(types, steps, u) <==> Synced(types, Reached(|types|, steps), u)
    ensures Synced(types, Reached(|types|, steps), u) <==>
              var s := Reached(|types|, steps);
              u in s.tables.connected || CollectedTypes(s.tables, u) == LiveTypes(s, u) != types
  {
    var s := Reached(|types|, steps);
    OrderlyRunsAreSound(types, steps, u);
    TablesFollowTasks(|types|, steps);
    OrderlyTypesAreKnown(types, steps, u);
    OrderlyTablesAreUp(types, s, u);
    if Synced(types, s, u) {
      SyncedAgreesFromNowOn(types, steps, u);
    } else if LiveTypes(s, u) == types {
      assert GoesOnCalmly(types, steps, steps, u) && !ConnectedWhenAllUp(types, steps, u);
    } else {
      StalledDisagrees(types, steps, u);
    }
  }

  // ---------- the documented rule ----------

  // The user has at most one live task, its tables agree with it, and the task is routed.
  ghost predicate Single(types: set<ChannelType>, s: State, u: UserId) {
    && Synced(types, s, u)
    && (forall c, d | c in LiveTasks(s, u) && d in LiveTasks(s, u) :: c == d)
    && (forall c | c in LiveTasks(s, u) ::
        c in s.tables.userChannels && s.tables.userChannels[c] == (u, s.tasks[c].phase.channel))
  }

  // Another user's step, or one that changes no table, leaves the user's live tasks and entries alone.
  lemma OthersKeepSingle(types: set<ChannelType>, s: State, step: Step, u: UserId)
    requires Enabled(s, step) && EntriesAreLive(s) && Single(types, s, u)
    requires UserOf(s, step) != u || !(step.Identify? || step.Close?)
    ensures Single(types, After(|types|, s, step), u)
  {
    var s' := After(|types|, s, step);
    StepKeepsSynced(types, s, step, u);
    LiveAfter(|types|, s, step, u);
    assert LiveTasks(s', u) == LiveTasks(s, u);
    forall c | c in LiveTasks(s', u)
      ensures c in s'.tables.userChannels && s'.tables.userChannels[c] == (u, s'.tasks[c].phase.channel)
    {
      assert s.tables.userChannels[c] == (u, s.tasks[c].phase.channel);
      assert s'.tasks[c].phase.channel == s.tasks[c].phase.channel;
    }
  }

  // With one type, a live task's entry is of every type there is.
  lemma LiveMeansNotFresh(types: set<ChannelType>, s: State, u: UserId, c: ChannelId, channel: ChannelType)
    requires |types| == 1 && channel in types && c in LiveTasks(s, u) && Single(types, s, u) && LiveTypes(s, u) <= types
    ensures !Fresh(s, u, channel)
  {
    FullSubset({channel}, types);
    assert s.tasks[c].phase.channel in LiveTypes(s, u);
    assert s.tables.userChannels[c] == (u, channel);
  }

  lemma IdentifyKeepsSingle(types: set<ChannelType>, s: State, step: Step, u: UserId)
    requires |types| == 1 && Enabled(s, step) && step.Identify? && UserOf(s, step) == u
    requires Orderly(types, s, step, u) && Single(types, s, u) && LiveTypes(s, u) <= types
    ensures Single(types, After(|types|, s, step), u)
  {
    if LiveTasks(s, u) != {} {
      var c :| c in LiveTasks(s, u);
      LiveMeansNotFresh(types, s, u, c, step.channel);
      assert false;
    }
    StepKeepsSynced(types, s, step, u);
    LiveAfter(|types|, s, step, u);
  }

  lemma CloseKeepsSingle(types: set<ChannelType>, s: State, step: Step, u: UserId)
    requires |types| == 1 && Enabled(s, step) && step.Close? && UserOf(s, step) == u && Single(types, s, u)
    ensures Single(types, After(|types|, s, step), u)
  {
    assert step.id in LiveTasks(s, u);
    assert LiveTasks(s, u) == {step.id};
    CloseKeepsSyncedOnlyAtTheEnd(types, s, step.id);
    LiveAfter(|types|, s, step, u);
  }

  lemma {:induction false} OneTypeNeverStalls(types: set<ChannelType>, steps: seq<Step>, u: UserId)
    requires |types| == 1 && Possible(|types|, steps) && OrderlyRun(types, steps, u)
    ensures Single(types, Reached(|types|, steps), u)
    decreases |steps|
  {
    if steps == [] {
      assert LiveTypes(Start, u) == {};
    } else {
      var n := |steps| - 1;
      var s := Reached(|types|, steps[..n]);
      OneTypeNeverStalls(types, steps[..n], u);
      TablesFollowTasks(|types|, steps[..n]);
      OrderlyTypesAreKnown(types, steps[..n], u);
      if UserOf(s, steps[n]) != u || !(steps[n].Identify? || steps[n].Close?) {
        OthersKeepSingle(types, s, steps[n], u);
      } else if steps[n].Identify? {
        IdentifyKeepsSingle(types, s, steps[n], u);
      } else {
        CloseKeepsSingle(types, s, steps[n], u);
      }
    }
  }

  // Two channels up, the first of them free to close.
  lemma TwoUp(types: set<ChannelType>, u: UserId, a: ChannelType, b: ChannelType) returns (steps: seq<Step>)
    requires a in types && b in types && a != b
    ensures GoesOnCalmly(types, [], steps, u) && Enabled(Reached(|types|, steps), Close(0))
    ensures Reached(|types|, steps).tasks[0].user == u && LiveTasks(Reached(|types|, steps), u) != {0}
  {
    assert LiveTypes(Start, u) == {};
    var first := ArriveCalmly(types, [], 0, u, 0, a);
    var s := Reached(|types|, first);
    assert Collected(Start.tables, u, 0, a) == map[a := 0];
    assert {a, b} <= types && |{a, b}| == 2;
    SubsetSize({a, b}, types);
    assert s.tasks[0] == Task(u, Serving(a));
    steps := ArriveCalmly(types, first, 0, u, 1, b);
    assert 1 in LiveTasks(Reached(|types|, steps), u);
  }

  lemma SeveralTypesStall(types: set<ChannelType>, u: UserId) returns (later: seq<Step>)
    requires |types| > 1
    ensures Possible(|types|, later) && OrderlyRun(types, later, u) && !ConnectedWhenAllUp(types, later, u)
  {
    var a :| a in types;
    assert types != {a};
    var b :| b in types && b != a;
    var steps := TwoUp(types, u, a, b);
    assert LiveTypes(Start, u) == {};
    SyncedAgrees(types, [], steps, u);
    GoingOnCalmlyIsOrderly(types, [], steps, u);
    CloseStalls(types, Reached(|types|, steps), 0);
    var closed := steps + [Close(0)];
    Extend(|types|, steps, Close(0));
    assert closed[..|steps|] == steps;
    later := StallLasts(types, closed, |closed|, u);
    GoingOnCalmlyIsOrderly(types, closed, later, u);
  }

  // "When all channels are identified the user is connected" is true of every orderly user in every run
  // if and only if the game has one channel type: with more, some orderly run ends with all of them up
  // and the user not connected.
  lemma RuleHoldsOnlyForOneType(types: set<ChannelType>, u: UserId)
    requires types != {}
    ensures (forall steps: seq<Step> | Possible(|types|, steps) && OrderlyRun(types, steps, u) ::
            ConnectedWhenAllUp(types, steps, u))
       <==> |types| == 1
  {
    if |types| == 1 {
      forall steps: seq<Step> | Possible(|types|, steps) && OrderlyRun(types, steps, u)
        ensures ConnectedWhenAllUp(types, steps, u)
      {
        OneTypeNeverStalls(types, steps, u);
      }
    } else {
      var later := SeveralTypesStall(types, u);
    }
  }
}
