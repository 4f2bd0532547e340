/** The discipline is needed: what registrations of repeated types can lead to. */
module Repeats {
  import opened Wrappers
  import opened Ids
  import opened ActorTables
  import opened Connections
  import opened Arrivals
  import opened Discipline
  import opened Reconnect

  ghost predicate TwoEntries(t: Tables, u: UserId, channel: ChannelType) {
    exists c, d :: c in t.userChannels && d in t.userChannels && c != d
                && t.userChannels[c] == t.userChannels[d] == (u, channel)
  }

  // A registration under a new id keeps a doubled entry doubled.
  lemma RegisterKeepsTwo(t: Tables, u: UserId, channel: ChannelType, v: UserId, id: ChannelId, x: ChannelType,
      expected: nat)
    requires TwoEntries(t, u, channel) && id !in t.userChannels
    ensures TwoEntries(AfterRegister(t, v, id, x, expected), u, channel)
  {
    var t' := AfterRegister(t, v, id, x, expected);
    var c, d :| c in t.userChannels && d in t.userChannels && c != d
        && t.userChannels[c] == t.userChannels[d] == (u, channel);
    assert t'.userChannels[c] == t'.userChannels[d] == (u, channel);
  }

  lemma CollectedGrows(types: set<ChannelType>, t: Tables, u: UserId, id: ChannelId, x: ChannelType)
    requires CollectedTypes(t, u) <= types && x in types
    ensures var t' := AfterRegister(t, u, id, x, |types|);
            if CompletesUser(t, u, id, x, |types|) then u in t'.connected
            else CollectedTypes(t', u) == CollectedTypes(t, u) + {x} && CollectedTypes(t', u) < types
  {
    var entry := Collected(t, u, id, x);
    assert entry.Keys == CollectedTypes(t, u) + {x};
    assert |entry.Keys| == |entry|;
    if !CompletesUser(t, u, id, x, |types|) {
      assert entry.Keys != types;
    }
  }

  lemma OneMoreType(types: set<ChannelType>, steps: seq<Step>, u: UserId, channel: ChannelType)
      returns (next: seq<Step>)
    requires Possible(|types|, steps)
    requires TwoEntries(Reached(|types|, steps).tables, u, channel)
    requires u !in Reached(|types|, steps).tables.connected && CollectedTypes(Reached(|types|, steps).tables, u) < types
    ensures steps <= next && Possible(|types|, next)
    ensures TwoEntries(Reached(|types|, next).tables, u, channel)
    ensures u !in Reached(|types|, next).tables.connected ==>
              && CollectedTypes(Reached(|types|, steps).tables, u) < CollectedTypes(Reached(|types|, next).tables, u)
              && CollectedTypes(Reached(|types|, next).tables, u) < types
  {
    var t := Reached(|types|, steps).tables;
    var x :| x in types && x !in CollectedTypes(t, u);
    var id := UnusedId(Reached(|types|, steps).tasks.Keys);
    assert id !in t.userChannels by { TablesFollowTasks(|types|, steps); }
    next := Arrive(|types|, steps, u, id, x);
    RegisterKeepsTwo(t, u, channel, u, id, x, |types|);
    CollectedGrows(types, t, u, id, x);
  }

  // Once an entry is doubled, registering the missing types leads to a connected user with two
  // channels of one type.
  lemma {:induction false} DoubledEntryConnects(types: set<ChannelType>, steps: seq<Step>, u: UserId,
      channel: ChannelType)
      returns (later: seq<Step>)
    requires Possible(|types|, steps)
    requires TwoEntries(Reached(|types|, steps).tables, u, channel)
    requires u !in Reached(|types|, steps).tables.connected ==>
             CollectedTypes(Reached(|types|, steps).tables, u) < types
    ensures steps <= later && Possible(|types|, later)
    ensures u in Reached(|types|, later).tables.connected
    ensures TwoEntries(Reached(|types|, later).tables, u, channel)
    decreases types - CollectedTypes(Reached(|types|, steps).tables, u)
  {
    if u in Reached(|types|, steps).tables.connected {
      later := steps;
    } else {
      later := OneMoreType(types, steps, u, channel);
      if u !in Reached(|types|, later).tables.connected {
        var before, after := Reached(|types|, steps).tables, Reached(|types|, later).tables;
        assert types - CollectedTypes(after, u) < types - CollectedTypes(before, u);
        later := DoubledEntryConnects(types, later, u, channel);
      }
    }
  }

  lemma RegisterDoubles(types: set<ChannelType>, t: Tables, u: UserId, id: ChannelId, channel: ChannelType)
    requires HasEntry(t, u, channel) && id !in t.userChannels && channel in types && CollectedTypes(t, u) <= types
    ensures var t' := AfterRegister(t, u, id, channel, |types|);
            TwoEntries(t', u, channel) && (u !in t'.connected ==> CollectedTypes(t', u) < types)
  {
    var t' := AfterRegister(t, u, id, channel, |types|);
    var c :| c in t.userChannels && t.userChannels[c] == (u, channel);
    assert t'.userChannels[c] == t'.userChannels[id] == (u, channel);
    CollectedGrows(types, t, u, id, channel);
  }

  // From any state an orderly user is in, one registration of a type the user already has an entry
  // for is enough: some continuation leaves the user connected with two channels of that type.
  lemma RepeatedTypeBreaksUniqueness(types: set<ChannelType>, steps: seq<Step>, id: ChannelId, channel: ChannelType)
    requires Possible(|types|, steps) && Enabled(Reached(|types|, steps), Identify(id, channel)) && channel in types
    requires OrderlyRun(types, steps, Reached(|types|, steps).tasks[id].user)
    requires !Fresh(Reached(|types|, steps), Reached(|types|, steps).tasks[id].user, channel)
    ensures exists later: seq<Step> ::
              && steps + [Identify(id, channel)] <= later && Possible(|types|, later)
              && Reached(|types|, steps).tasks[id].user in Reached(|types|, later).tables.connected
              && TwoEntries(Reached(|types|, later).tables, Reached(|types|, steps).tasks[id].user, channel)
  {
    var s := Reached(|types|, steps);
    var u := s.tasks[id].user;
    OrderlyRunsAreSound(types, steps, u);
    TablesFollowTasks(|types|, steps);
    Extend(|types|, steps, Identify(id, channel));
    var steps1 := steps + [Identify(id, channel)];
    var t1 := Reached(|types|, steps1).tables;
    assert id !in s.tables.userChannels;
    assert t1 == AfterRegister(s.tables, u, id, channel, |types|);
    RegisterDoubles(types, s.tables, u, id, channel);
    var later := DoubledEntryConnects(types, steps1, u, channel);
  }

  // ---------- alternation ----------

  // One type fewer is missing, or it was the last.
  lemma OneFewerMissing(types: set<ChannelType>, t: Tables, u: UserId, id: ChannelId, x: ChannelType)
    requires CollectedTypes(t, u) < types && x in types && x !in CollectedTypes(t, u)
    ensures var missing := types - CollectedTypes(t, u);
            if CompletesUser(t, u, id, x, |types|) then |missing| == 1
            else |types - (CollectedTypes(t, u) + {x})| == |missing| - 1
  {
    var missing := types - CollectedTypes(t, u);
    var entry := Collected(t, u, id, x);
    assert entry.Keys == CollectedTypes(t, u) + {x};
    assert types - entry.Keys == missing - {x};
    if CompletesUser(t, u, id, x, |types|) {
      assert |entry.Keys| == |entry|;
      FullSubset(entry.Keys, types);
      assert missing == {x};
    }
  }

  // Whatever the user's state, registering just the types it has not collected makes it ready, once more
  // if it already was.  A registration takes two steps.
  lemma {:induction false} ReadyOnceMore(types: set<ChannelType>, steps: seq<Step>, u: UserId)
      returns (later: seq<Step>)
    requires Possible(|types|, steps) && CollectedTypes(Reached(|types|, steps).tables, u) < types
    ensures steps <= later && Possible(|types|, later)
    ensures |later| == |steps| + 2 * |types - CollectedTypes(Reached(|types|, steps).tables, u)|
    ensures Of(Reached(|types|, later).decided, u) == Of(Reached(|types|, steps).decided, u) + [Ready(u)]
    decreases types - CollectedTypes(Reached(|types|, steps).tables, u)
  {
    var s := Reached(|types|, steps);
    var x :| x in types && x !in CollectedTypes(s.tables, u);
    var id := UnusedId(s.tasks.Keys);
    later := Arrive(|types|, steps, u, id, x);
    CollectedGrows(types, s.tables, u, id, x);
    OneFewerMissing(types, s.tables, u, id, x);
    OfLogged(s.decided, if CompletesUser(s.tables, u, id, x, |types|) then Some(Ready(u)) else None, u);
    if !CompletesUser(s.tables, u, id, x, |types|) {
      assert types - CollectedTypes(Reached(|types|, later).tables, u) < types - CollectedTypes(s.tables, u);
      later := ReadyOnceMore(types, later, u);
    }
  }

  // A close by a connected user leaves what the user has collected; any other close forgets it.
  lemma CloseAndCollection(expected: nat, s: State, id: ChannelId)
    requires Enabled(s, Close(id))
    ensures var u := s.tasks[id].user; var t' := After(expected, s, Close(id)).tables;
            CollectedTypes(t', u) == if u in s.tables.connected then CollectedTypes(s.tables, u) else {}
  {
  }

  // So when an old channel of a connected user closes while the user is coming back, the types it has
  // brought up again count: the user is gone, and ready again as soon as just the others are up.
  lemma ComingBackAcrossClose(types: set<ChannelType>, steps: seq<Step>, id: ChannelId)
    requires Possible(|types|, steps) && Enabled(Reached(|types|, steps), Close(id))
    requires var s := Reached(|types|, steps);
             s.tasks[id].user in s.tables.connected && CollectedTypes(s.tables, s.tasks[id].user) < types
    ensures exists later: seq<Step> ::
              steps + [Close(id)] <= later && BackWithin(types, steps, id, later)
  {
    var s := Reached(|types|, steps);
    var u := s.tasks[id].user;
    Extend(|types|, steps, Close(id));
    CloseAndCollection(|types|, s, id);
    var later := ReadyOnceMore(types, steps + [Close(id)], u);
    CloseDecidesGone(|types|, s, id);
    ThenReady(types, steps, id, later);
  }

  lemma CloseDecidesGone(expected: nat, s: State, id: ChannelId)
    requires Enabled(s, Close(id)) && s.tasks[id].user in s.tables.connected
    ensures var u := s.tasks[id].user; Of(After(expected, s, Close(id)).decided, u) == Of(s.decided, u) + [Gone(u)]
  {
    OfLogged(s.decided, Some(Gone(s.tasks[id].user)), s.tasks[id].user);
  }

  lemma ThenReady(types: set<ChannelType>, steps: seq<Step>, id: ChannelId, later: seq<Step>)
    requires Possible(|types|, steps) && Enabled(Reached(|types|, steps), Close(id)) && Possible(|types|, later)
    requires var s := Reached(|types|, steps); var u := s.tasks[id].user;
             && |later| == |steps| + 1 + 2 * |types - CollectedTypes(s.tables, u)|
             && Of(Reached(|types|, later).decided, u) == (Of(s.decided, u) + [Gone(u)]) + [Ready(u)]
    ensures BackWithin(types, steps, id, later)
  {
    var u := Reached(|types|, steps).tasks[id].user;
    ConcatAssociative(Of(Reached(|types|, steps).decided, u), [Gone(u)], [Ready(u)]);
    assert [Gone(u)] + [Ready(u)] == [Gone(u), Ready(u)];
  }

  // After the close and two steps for each type that was missing before it, gone and ready are decided.
  ghost predicate BackWithin(types: set<ChannelType>, steps: seq<Step>, id: ChannelId, later: seq<Step>)
    requires Possible(|types|, steps) && Enabled(Reached(|types|, steps), Close(id))
  {
    var s := Reached(|types|, steps);
    var u := s.tasks[id].user;
    && Possible(|types|, later)
    && |later| == |steps| + 1 + 2 * |types - CollectedTypes(s.tables, u)|
    && Of(Reached(|types|, later).decided, u) == Of(s.decided, u) + [Gone(u), Ready(u)]
  }

  lemma TwiceReadyIsNoAlternation(log: seq<Decision>, d: Decision)
    requires log != [] && log[|log| - 1].Ready? && d.Ready?
    ensures !Alternating(log + [d])
  {
    assert (log + [d])[|log|] == d && (log + [d])[|log| - 1] == log[|log| - 1];
  }

  // From every state in which an orderly user is connected, registering its types again leads to a second
  // `UserReady` in a row.
  lemma RepeatedTypesBreakAlternation(types: set<ChannelType>, steps: seq<Step>, u: UserId)
    requires types != {} && Possible(|types|, steps) && OrderlyRun(types, steps, u)
    requires u in Reached(|types|, steps).tables.connected
    ensures exists later: seq<Step> :: LeadsToRepetition(|types|, steps, later, u)
  {
    var s := Reached(|types|, steps);
    OrderlyRunsAreSound(types, steps, u);
    assert CollectedTypes(s.tables, u) == {};
    var later := ReadyOnceMore(types, steps, u);
    RepetitionReached(|types|, steps, later, u);
  }

  // The run goes on to a state in which the decisions about the user no longer alternate.
  ghost predicate LeadsToRepetition(expected: nat, steps: seq<Step>, later: seq<Step>, u: UserId) {
    steps <= later && Possible(expected, later) && !Alternating(Of(Reached(expected, later).decided, u))
  }

  lemma RepetitionReached(expected: nat, steps: seq<Step>, later: seq<Step>, u: UserId)
    requires Possible(expected, steps) && steps <= later && Possible(expected, later)
    requires ConnectedByLog(Reached(expected, steps), u) && u in Reached(expected, steps).tables.connected
    requires Of(Reached(expected, later).decided, u) == Of(Reached(expected, steps).decided, u) + [Ready(u)]
    ensures LeadsToRepetition(expected, steps, later, u)
  {
    TwiceReadyIsNoAlternation(Of(Reached(expected, steps).decided, u), Ready(u));
  }

  // A single such registration is enough if and only if there is a single type.
  lemma OneRepeatIsReadyAgain(types: set<ChannelType>, steps: seq<Step>, id: ChannelId, channel: ChannelType)
    requires Possible(|types|, steps) && Enabled(Reached(|types|, steps), Identify(id, channel)) && channel in types
    requires OrderlyRun(types, steps, Reached(|types|, steps).tasks[id].user)
    requires Reached(|types|, steps).tasks[id].user in Reached(|types|, steps).tables.connected
    ensures var s := Reached(|types|, steps);
            DecisionOf(|types|, s, Identify(id, channel)) == Some(Ready(s.tasks[id].user)) <==> |types| == 1
  {
    var s := Reached(|types|, steps);
    var u := s.tasks[id].user;
    OrderlyRunsAreSound(types, steps, u);
    assert Collected(s.tables, u, id, channel) == map[channel := id];
    assert |map[channel := id].Keys| == |{channel}|;
    SubsetSize({channel}, types);
  }
}
