/** Continuing a run: one more task of a user, under an id never used before. */
module Arrivals {
  import opened Wrappers
  import opened Ids
  import opened ActorTables
  import opened Connections

  lemma UnusedId(used: set<ChannelId>) returns (id: ChannelId)
    ensures forall x | x in used :: x < id
  {
    id := 0;
    var rest := used;
    while rest != {}
      invariant rest <= used
      invariant forall x | x in used && x !in rest :: x < id
      decreases rest
    {
      var x :| x in rest;
      if x >= id { id := x + 1; }
      rest := rest - {x};
    }
  }

  // The task of `id` has been accepted and has identified itself.
  ghost predicate Arrived(expected: nat, s: State, s': State, u: UserId, id: ChannelId, channel: ChannelType) {
    var ready := CompletesUser(s.tables, u, id, channel, expected);
    && s'.tables == AfterRegister(s.tables, u, id, channel, expected)
    && s'.tasks == s.tasks[id := Task(u, if ready then OwesReady(channel) else Serving(channel))]
    && s'.decided == Logged(s.decided, if ready then Some(Ready(u)) else None)
  }

  lemma AcceptedAndIdentified(expected: nat, s: State, u: UserId, id: ChannelId, channel: ChannelType)
    requires id !in s.tasks
    ensures var a := After(expected, s, Accept(id, u));
            && Enabled(a, Identify(id, channel))
            && Arrived(expected, s, After(expected, a, Identify(id, channel)), u, id, channel)
  {
    var phase := if CompletesUser(s.tables, u, id, channel, expected) then OwesReady(channel) else Serving(channel);
    assert s.tasks[id := Task(u, Identifying)][id := Task(u, phase)] == s.tasks[id := Task(u, phase)];
  }

  // A new task of `u` that identifies itself at once.
  lemma Arrive(expected: nat, steps: seq<Step>, u: UserId, id: ChannelId, channel: ChannelType)
      returns (next: seq<Step>)
    requires Possible(expected, steps) && id !in Reached(expected, steps).tasks
    ensures steps <= next && |next| == |steps| + 2 && Possible(expected, next)
    ensures Arrived(expected, Reached(expected, steps), Reached(expected, next), u, id, channel)
  {
    AcceptedAndIdentified(expected, Reached(expected, steps), u, id, channel);
    Extend(expected, steps, Accept(id, u));
    var accepted := steps + [Accept(id, u)];
    Extend(expected, accepted, Identify(id, channel));
    next := accepted + [Identify(id, channel)];
  }
}
