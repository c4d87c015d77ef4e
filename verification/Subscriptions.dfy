/**
 The Redis hub's bookkeeping of local buses: how many buses a room has been
 given, and which rooms are subscribed.
 */
module Subscriptions {
  import opened Wrappers

  /** The hub's three tables; `counts` holds no zeros. */
  datatype Tables = Tables(buses: map<string, string>, counts: map<string, nat>, subs: set<string>)

  datatype Action = Add(client: string, room: string, confirmed: bool) | Remove(client: string)

  const EMPTY: Tables := Tables(map[], map[], {})

  function Count(t: Tables, room: string): nat {
    if room in t.counts then t.counts[room] else 0
  }

  function SetCount(counts: map<string, nat>, room: string, n: nat): map<string, nat> {
    if n == 0 then counts - {room} else counts[room := n]
  }

  /** A failed subscription takes the bus and its count back; a bus without a room is only filed. */
  function Added(t: Tables, client: string, room: string, confirmed: bool): Tables {
    if room == "" then t.(buses := t.buses[client := room])
    else if room in t.subs then
      t.(buses := t.buses[client := room], counts := SetCount(t.counts, room, Count(t, room) + 1))
    else if confirmed then
      Tables(t.buses[client := room], SetCount(t.counts, room, Count(t, room) + 1), t.subs + {room})
    else
      t.(buses := t.buses - {client}, counts := SetCount(t.counts, room, Count(t, room)))
  }

  function Removed(t: Tables, client: string): Tables {
    if client !in t.buses then t
    else
      var room, buses := t.buses[client], t.buses - {client};
      if room == "" then t.(buses := buses)
      else if Count(t, room) <= 1 then Tables(buses, t.counts - {room}, t.subs - {room})
      else t.(buses := buses, counts := t.counts[room := Count(t, room) - 1])
  }

  function Do(t: Tables, a: Action): Tables {
    match a
    case Add(client, room, confirmed) => Added(t, client, room, confirmed)
    case Remove(client) => Removed(t, client)
  }

  function After(actions: seq<Action>): Tables {
    if actions == [] then EMPTY else Do(After(actions[..|actions| - 1]), actions[|actions| - 1])
  }

  // ---- the class ------------------------------------------------------------------

  class RedisHub {
    var buses: map<string, string>
    var roomClientCounts: map<string, nat>
    var roomSubs: set<string>

    constructor ()
      ensures View() == EMPTY
    {
      buses, roomClientCounts, roomSubs := map[], map[], {};
    }

    ghost function View(): Tables
      reads this
    {
      Tables(buses, roomClientCounts, roomSubs)
    }

    ghost predicate Valid()
      reads this
    {
      forall room :: room in roomClientCounts ==> roomClientCounts[room] > 0
    }

    method AddBus(client: string, room: string, confirmed: bool) returns (ok: bool)
      requires Valid()
      modifies this
      ensures Valid() && View() == Added(old(View()), client, room, confirmed)
      ensures ok <==> room == "" || room in old(roomSubs) || confirmed
    {
      ghost var counts := roomClientCounts;
      buses := buses[client := room];
      if room == "" {
        return true;
      }
      roomClientCounts := roomClientCounts[room := (if room in roomClientCounts then roomClientCounts[room]
          else 0) + 1];
      if room !in roomSubs {
        if !confirmed {
          TakeBack(client, room);
          assert buses == old(buses) - {client};
          assert roomClientCounts == SetCount(counts, room, if room in counts then counts[room] else 0);
          return false;
        }
        roomSubs := roomSubs + {room};
      }
      ok := true;
    }

    /** Undoes a registration whose subscription was not confirmed. */
    method TakeBack(client: string, room: string)
      requires Valid() && room in roomClientCounts
      modifies this`buses, this`roomClientCounts
      ensures Valid() && buses == old(buses) - {client}
      ensures roomClientCounts == SetCount(old(roomClientCounts), room, old(roomClientCounts[room]) - 1)
    {
      buses := buses - {client};
      roomClientCounts := roomClientCounts[room := roomClientCounts[room] - 1];
      if roomClientCounts[room] == 0 {
        roomClientCounts := roomClientCounts - {room};
      }
      assert roomClientCounts == SetCount(old(roomClientCounts), room, old(roomClientCounts[room]) - 1);
    }

    method RemoveBus(client: string)
      requires Valid()
      modifies this
      ensures Valid() && View() == Removed(old(View()), client)
    {
      if client in buses {
        var room := buses[client];
        buses := buses - {client};
        if room != "" {
          if room in roomClientCounts && roomClientCounts[room] > 0 {
            roomClientCounts := roomClientCounts[room := roomClientCounts[room] - 1];
          }
          if room !in roomClientCounts || roomClientCounts[room] == 0 {
            roomClientCounts := roomClientCounts - {room};
            if room in roomSubs {
              roomSubs := roomSubs - {room};
            }
          }
        }
      }
    }
  }

  // ---- what every sequence of calls keeps ----------------------------------------------

  /** The local clients whose bus is in a room. */
  ghost function Members(t: Tables, room: string): set<string> {
    set client | client in t.buses && t.buses[client] == room
  }

  /** By how much a room is counted more often than it has buses. */
  ghost function Slack(t: Tables, room: string): int {
    Count(t, room) - |Members(t, room)|
  }

  ghost predicate Sound(t: Tables) {
    && (forall room :: room in t.counts ==> t.counts[room] > 0)
    && (forall room :: room in t.subs <==> Count(t, room) > 0)
    && (forall room :: room != "" ==> Slack(t, room) >= 0)
    && "" !in t.counts
  }

  /** The call gives a bus to a client that still has one in this room. */
  predicate Replaces(t: Tables, a: Action, room: string) {
    a.Add? && a.client in t.buses && t.buses[a.client] == room
  }

  /** Whether the bus is registered in the room. */
  predicate Registers(t: Tables, a: Action) {
    a.Add? && a.room != "" && (a.room in t.subs || a.confirmed)
  }

  lemma MembersAfterAdd(t: Tables, a: Action, other: string)
    requires a.Add? && other != ""
    ensures Members(Do(t, a), other)
         == if other == a.room && Registers(t, a)
            then Members(t, other) + {a.client} else Members(t, other) - {a.client}
  {
  }

  lemma CountAfterAdd(t: Tables, a: Action, other: string)
    requires a.Add? && other != ""
    ensures Count(Do(t, a), other) == Count(t, other) + if other == a.room && Registers(t, a) then 1 else 0
  {
  }

  /** Adding a bus moves the client's membership; only the count of an earlier room is never taken back. */
  lemma SlackAfterAdd(t: Tables, a: Action, other: string)
    requires a.Add? && other != ""
    ensures Slack(Do(t, a), other) == Slack(t, other) + if Replaces(t, a, other) then 1 else 0
  {
    MembersAfterAdd(t, a, other);
    CountAfterAdd(t, a, other);
    assert a.client in Members(t, other) <==> Replaces(t, a, other);
    hide Do, Count, Members, Registers, Replaces;
  }

  lemma SlackAfterRemove(t: Tables, a: Action, other: string)
    requires a.Remove? && other != "" && Slack(t, other) >= 0
    ensures Slack(Do(t, a), other) == Slack(t, other)
  {
    assert Members(Do(t, a), other) == Members(t, other) - {a.client};
    if a.client in t.buses && t.buses[a.client] == other {
      assert a.client in Members(t, other);
    }
  }

  lemma SlackAfter(t: Tables, a: Action, room: string)
    requires Sound(t) && room != ""
    ensures Slack(Do(t, a), room) == Slack(t, room) + if Replaces(t, a, room) then 1 else 0
  {
    hide Do, Slack;
    match a {
      case Add(_, _, _) => SlackAfterAdd(t, a, room);
      case Remove(_) => SlackAfterRemove(t, a, room);
    }
  }

  lemma StepKeepsSound(t: Tables, a: Action)
    requires Sound(t)
    ensures Sound(Do(t, a))
  {
    forall room | room != ""
      ensures Slack(Do(t, a), room) >= 0
    {
      SlackAfter(t, a, room);
    }
    hide Slack, Members;
  }

  /**
   Main result: after any sequence of calls a room is subscribed exactly while its count is positive, and the count
   covers its buses.
   */
  lemma {:induction false} CallsKeepSound(actions: seq<Action>)
    ensures Sound(After(actions))
  {
    if actions != [] {
      hide Sound;
      CallsKeepSound(actions[..|actions| - 1]);
      StepKeepsSound(After(actions[..|actions| - 1]), actions[|actions| - 1]);
    }
  }

  /** So no locally connected client misses the messages of its room. */
  lemma LocalClientsAreSubscribed(actions: seq<Action>, client: string)
    requires client in After(actions).buses && After(actions).buses[client] != ""
    ensures After(actions).buses[client] in After(actions).subs
  {
    var t := After(actions);
    CallsKeepSound(actions);
    assert client in Members(t, t.buses[client]) && Slack(t, t.buses[client]) >= 0;
  }

  // ---- when the count is exact -----------------------------------------------------------

  /** The call gives a bus to a client that still has one in some room. */
  predicate Reconnects(t: Tables, a: Action) {
    a.Add? && a.client in t.buses && t.buses[a.client] != ""
  }

  /** Every count is the number of the room's buses. */
  ghost predicate Exact(t: Tables) {
    forall room :: room != "" ==> Slack(t, room) == 0
  }

  lemma StepExactness(t: Tables, a: Action)
    requires Sound(t)
    ensures Exact(Do(t, a)) <==> Exact(t) && !Reconnects(t, a)
  {
    hide Do, Slack;
    forall room | room != ""
      ensures Slack(Do(t, a), room) == Slack(t, room) + if Replaces(t, a, room) then 1 else 0
    {
      SlackAfter(t, a, room);
    }
    if Reconnects(t, a) {
      assert Replaces(t, a, t.buses[a.client]);
    }
  }

  /** No call takes a surplus back. */
  lemma {:induction false} SlackNeverShrinks(actions: seq<Action>, later: seq<Action>, room: string)
    requires room != ""
    ensures Slack(After(actions + later), room) >= Slack(After(actions), room)
  {
    hide Slack, Do, Sound;
    if later == [] {
      assert actions + later == actions;
    } else {
      var n := |later| - 1;
      SlackNeverShrinks(actions, later[..n], room);
      CallsKeepSound(actions + later[..n]);
      assert (actions + later)[..|actions| + n] == actions + later[..n];
      SlackAfter(After(actions + later[..n]), later[n], room);
    }
  }

  ghost predicate NoReconnects(actions: seq<Action>) {
    forall i :: 0 <= i < |actions| ==> !Reconnects(After(actions[..i]), actions[i])
  }

  lemma NoReconnectsBefore(actions: seq<Action>)
    requires actions != []
    ensures var n := |actions| - 1;
            NoReconnects(actions) <==> NoReconnects(actions[..n]) && !Reconnects(After(actions[..n]), actions[n])
  {
    hide Reconnects, After;
    var n := |actions| - 1;
    assert forall i :: 0 <= i < n ==> actions[..n][..i] == actions[..i] && actions[..n][i] == actions[i];
  }

  /**
   Main result: after any calls the counts are the numbers of buses if and only if no call gave a bus to a client that
   still had one in some room.
   */
  lemma {:induction false} CountsAreExact(actions: seq<Action>)
    ensures Exact(After(actions)) <==> NoReconnects(actions)
  {
    hide Sound, Reconnects, Do;
    if actions == [] {
      assert forall room :: Members(EMPTY, room) == {};
    } else {
      hide Exact, NoReconnects;
      var n := |actions| - 1;
      CountsAreExact(actions[..n]);
      CallsKeepSound(actions[..n]);
      NoReconnectsBefore(actions);
      StepExactness(After(actions[..n]), actions[n]);
    }
  }

  /** While the counts are exact a room is subscribed only for somebody. */
  lemma ExactMeansNoLeak(actions: seq<Action>, room: string)
    requires Exact(After(actions)) && room != ""
    ensures room in After(actions).subs <==> Members(After(actions), room) != {}
  {
    hide After;
    CallsKeepSound(actions);
    assert Slack(After(actions), room) == 0;
  }

  /** After a reconnection the room of the client's first bus stays subscribed for good, even with nobody in it. */
  lemma ReconnectLeaksSubscription(actions: seq<Action>, a: Action, later: seq<Action>)
    requires Reconnects(After(actions), a)
    ensures After(actions).buses[a.client] in After(actions + [a] + later).subs
  {
    var room := After(actions).buses[a.client];
    CallsKeepSound(actions);
    assert (actions + [a])[..|actions|] == actions;
    SlackAfter(After(actions), a, room);
    SlackNeverShrinks(actions + [a], later, room);
    CallsKeepSound(actions + [a] + later);
  }

  // ---- what one call does to the tables ----------------------------------------------------

  /** The counts and subscriptions of all rooms but this one. */
  ghost predicate OtherRoomsStay(t: Tables, t': Tables, room: string) {
    forall other :: other != room ==> Count(t', other) == Count(t, other) && (other in t'.subs <==> other in t.subs)
  }

  /**
   A confirmed bus, or one for a room that is subscribed already, is registered, counted and subscribed; any other is
   taken back. A bus without a room is only registered.
   */
  lemma AddEffect(actions: seq<Action>, client: string, room: string, confirmed: bool)
    ensures var t, t' := After(actions), After(actions + [Add(client, room, confirmed)]);
            && OtherRoomsStay(t, t', room)
            && if room == "" then t' == t.(buses := t.buses[client := room])
               else if room in t.subs || confirmed then
                 t'.buses == t.buses[client := room] && Count(t', room) == Count(t, room) + 1 && room in t'.subs
               else
                 t'.buses == t.buses - {client} && Count(t', room) == Count(t, room) && room !in t'.subs
  {
    assert (actions + [Add(client, room, confirmed)])[..|actions|] == actions;
  }

  /**
   Main result for a departure: the client's bus goes and its room's count falls by one, which ends the subscription
   exactly with the last count. Nothing else changes.
   */
  lemma RemoveEffect(actions: seq<Action>, client: string)
    ensures var t, t' := After(actions), After(actions + [Remove(client)]);
            && client !in t'.buses
            && (forall other :: other != client ==>
                  && (other in t'.buses <==> other in t.buses)
                  && (other in t.buses ==> t'.buses[other] == t.buses[other]))
            && if client in t.buses && t.buses[client] != "" then
                 var room := t.buses[client];
                 && Count(t, room) > 0 && Count(t', room) == Count(t, room) - 1
                 && (room in t'.subs <==> Count(t, room) > 1)
                 && OtherRoomsStay(t, t', room)
               else t' == t.(buses := t'.buses)
  {
    var t := After(actions);
    assert (actions + [Remove(client)])[..|actions|] == actions;
    CallsKeepSound(actions);
    if client in t.buses && t.buses[client] != "" {
      assert client in Members(t, t.buses[client]) && Slack(t, t.buses[client]) >= 0;
    }
  }

  /** With exact counts the room stays subscribed exactly for another client's bus. */
  lemma RemovalKeepsRoomForOthers(actions: seq<Action>, client: string)
    requires Exact(After(actions)) && client in After(actions).buses && After(actions).buses[client] != ""
    ensures var t, room := After(actions), After(actions).buses[client];
            room in After(actions + [Remove(client)]).subs
            <==> exists other :: other != client && other in t.buses && t.buses[other] == room
  {
    var t, room := After(actions), After(actions).buses[client];
    RemoveEffect(actions, client);
    assert Slack(t, room) == 0;
    var others := Members(t, room) - {client};
    assert Members(t, room) == others + {client};
    hide After;
    if |others| > 0 {
      var other :| other in others;
    } else {
      assert others == {};
    }
  }

  /** A client that comes and goes leaves the tables as they were. */
  lemma AddThenRemove(actions: seq<Action>, client: string, room: string, confirmed: bool)
    requires client !in After(actions).buses
    ensures var came := actions + [Add(client, room, confirmed)];
            After(came + [Remove(client)]) == After(actions)
  {
    var t, came := After(actions), actions + [Add(client, room, confirmed)];
    CallsKeepSound(actions);
    assert came[..|actions|] == actions && (came + [Remove(client)])[..|came|] == came;
    ComesAndGoes(t, client, room, confirmed);
    hide Do;
  }

  lemma CountedBack(t: Tables, room: string)
    requires Sound(t)
    ensures SetCount(t.counts, room, Count(t, room)) == t.counts
    ensures SetCount(SetCount(t.counts, room, Count(t, room) + 1), room, Count(t, room)) == t.counts
  {
    if Count(t, room) > 0 {
      assert t.counts[room := t.counts[room] + 1][room := t.counts[room]] == t.counts;
    } else {
      assert t.counts[room := 1] - {room} == t.counts;
    }
  }

  lemma ComesAndGoes(t: Tables, client: string, room: string, confirmed: bool)
    requires Sound(t) && client !in t.buses
    ensures Do(Do(t, Add(client, room, confirmed)), Remove(client)) == t
  {
    CountedBack(t, room);
    assert t.buses[client := room] - {client} == t.buses && t.buses - {client} == t.buses;
    var came := Do(t, Add(client, room, confirmed));
    if room != "" && (room in t.subs || confirmed) {
      assert Count(came, room) == Count(t, room) + 1;
      assert Count(t, room) == 0 ==> room !in t.subs && t.subs + {room} - {room} == t.subs;
    }
    hide Slack, Members;
  }
}
