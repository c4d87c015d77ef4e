/**
 The in-memory hub: a live room per ID that use cases mutate, and a saved copy
 that only saves replace. A guarded save that finds another version puts a copy
 of the saved room back.
 */
module InMemoryHub {
  import opened Wrappers
  import opened Decks
  import opened Summaries
  import opened RoomModel
  import opened Rooms
  import opened Participants
  import RoomInvariants

  /** What a use case reports: success, an error of the room, a missing room, or a stale version. */
  datatype UseCaseResult = Success | Rejected(error: Error) | RoomNotFound | StaleVersion

  /** A copy that shares no object with the original; buffered events are not copied. */
  method CloneRoom(room: Room) returns (clone: Room)
    ensures fresh(clone) && fresh(clone.Footprint()) && clone.Valid()
    ensures clone.id == room.id && clone.View() == Stored(room.View())
  {
    var members := new ClientCollection();
    clone := new Room(room.id, members, room.startedAt, FIBONACCI.id);
    CopyFields(room, clone);
    CloneClients(room, clone);
  }

  method CopyFields(room: Room, clone: Room)
    requires clone != room
    modifies clone
    ensures clone.deckType == room.deckType && clone.currentStory == room.currentStory
        && clone.revealed == room.revealed
    ensures clone.SummaryView() == room.SummaryView()
    ensures clone.backlog == room.backlog && clone.stories == room.stories && clone.index == room.index
    ensures clone.version == room.version && clone.events == old(clone.events)
  {
    clone.deckType := room.deckType;
    clone.currentStory := room.currentStory;
    clone.revealed := room.revealed;
    CopySummary(room, clone);
    clone.backlog := room.backlog;
    clone.stories := room.stories;
    clone.index := room.index;
    clone.version := room.version;
  }

  method CopySummary(room: Room, clone: Room)
    requires clone != room
    modifies clone`result, clone`mostAppearing, clone`consensus, clone`lowest, clone`highest, clone`range,
        clone`spread, clone`special
    ensures clone.SummaryView() == room.SummaryView()
  {
    clone.result := room.result;
    clone.mostAppearing := room.mostAppearing;
    clone.consensus := room.consensus;
    clone.lowest := room.lowest;
    clone.highest := room.highest;
    clone.range := room.range;
    clone.spread := room.spread;
    clone.special := room.special;
  }

  method CopyClient(client: Client, copied: Client)
    requires copied != client && copied.id == client.id
    modifies copied
    ensures copied.View() == StoredClient(client.View())
  {
    copied.name := client.name;
    copied.vote := client.vote;
    copied.hasVoted := client.hasVoted;
    copied.votedAt := if client.votedAt == Some(ZERO_TIME) then None else client.votedAt;
    copied.spectator := client.spectator;
    copied.owner := client.owner;
  }

  /** Appends a copy of one client. */
  method CloneClient(client: Client, clone: Room) returns (copied: Client)
    requires clone.Valid() && client !in clone.members.clients
    modifies clone.members
    ensures clone.Valid() && fresh(copied) && clone.members.clients == old(clone.members.clients) + [copied]
    ensures Views(clone.members.clients) == old(Views(clone.members.clients)) + [StoredClient(client.View())]
  {
    hide Room.View;
    copied := clone.NewClient(client.id);
    CopyClient(client, copied);
  }

  method CloneClients(room: Room, clone: Room)
    requires clone.Valid() && clone.members.clients == [] && clone.members != room.members
    modifies clone.members
    ensures clone.Valid() && fresh(clone.members.clients)
    ensures Views(clone.members.clients) == StoredClients(Views(room.members.clients))
  {
    hide Room.View, Room.Valid;
    ghost var views := Views(room.members.clients);
    ghost var copies := StoredClients(views);
    var clients := room.members.Values();
    for i := 0 to |clients|
      invariant room.members.clients == old(room.members.clients) && Views(room.members.clients) == views
      invariant clone.Valid() && fresh(clone.members.clients)
      invariant Views(clone.members.clients) == copies[..i]
    {
      var copied := CloneClient(clients[i], clone);
      assert copies[..i + 1] == copies[..i] + [copies[i]];
    }
    assert copies[..|copies|] == copies;
  }

  /** The in-place sort, seen from the room. */
  method SortMembers(room: Room)
    requires room.Valid()
    modifies room.members
    ensures room.Valid() && room.Footprint() == old(room.Footprint())
    ensures multiset(room.View().clients) == multiset(old(room.View()).clients)
    ensures room.View() == old(room.View()).(clients := room.View().clients)
    ensures SortedByName(room.members.clients)
  {
    hide SortedByName;
    ghost var before := room.members.clients;
    var participants := MapToParticipants(room.members);
    PermutationIsDifferent(before, room.members.clients);
    assert forall c :: c in before <==> c in multiset(before);
    assert forall c :: c in room.members.clients <==> c in multiset(room.members.clients);
  }

  /** The collections of the rooms in a map. */
  ghost function Collections(m: map<string, Room>): set<object> {
    set id | id in m :: m[id].members as object
  }

  /** The rooms of a map are filed under their IDs and share no object with each other. */
  ghost predicate Filed(m: map<string, Room>)
    reads Collections(m)
  {
    && (forall id :: id in m ==> m[id].Valid() && m[id].id == id)
    && (forall a, b :: a in m && b in m && a != b ==> m[a].Footprint() !! m[b].Footprint())
  }

  ghost predicate Apart(m: map<string, Room>, m': map<string, Room>)
    reads Collections(m), Collections(m')
  {
    forall a, b :: a in m && b in m' ==> m[a].Footprint() !! m'[b].Footprint()
  }

  /** The same clients in some order, as far as a copy keeps them. */
  ghost predicate SameClients(clients: seq<ClientView>, clients': seq<ClientView>) {
    multiset(StoredClients(clients)) == multiset(StoredClients(clients'))
  }

  /** A saved room agrees with the live one on every persisted field; clients are compared as a multiset. */
  ghost predicate Agrees(live: RoomView, saved: RoomView) {
    && SameClients(saved.clients, live.clients)
    && saved == live.(clients := saved.clients, events := saved.events)
  }

  /** Every object of every room in the map. */
  ghost function Objects(m: map<string, Room>): set<object>
    reads Collections(m)
  {
    set id, o | id in m && o in m[id].Footprint() :: o
  }

  lemma ObjectsExist(m: map<string, Room>)
    ensures forall o :: o in Objects(m) ==> allocated(o)
  {
  }

  lemma FiledWith(m: map<string, Room>, room: Room)
    requires Filed(m) && room.Valid() && room.Footprint() !! Objects(m)
    ensures Filed(m[room.id := room])
  {
    hide Room.Valid, Room.Footprint;
    forall id | id in m
      ensures m[id].Footprint() !! room.Footprint()
    {
      assert m[id].Footprint() <= Objects(m);
    }
  }

  lemma ApartWith(m: map<string, Room>, m': map<string, Room>, room: Room)
    requires Apart(m, m') && room.Footprint() !! Objects(m)
    ensures Apart(m, m'[room.id := room])
  {
    hide Room.Valid, Room.Footprint;
    forall id | id in m
      ensures m[id].Footprint() !! room.Footprint()
    {
      assert m[id].Footprint() <= Objects(m);
    }
  }

  lemma FiledWithout(m: map<string, Room>, k: string)
    requires Filed(m)
    ensures Filed(m - {k})
  {
    hide Room.Valid, Room.Footprint;
  }

  lemma ApartWithout(m: map<string, Room>, m': map<string, Room>, k: string)
    requires Apart(m, m')
    ensures Apart(m - {k}, m' - {k})
  {
    hide Room.Footprint;
  }

  lemma ApartSymmetric(m: map<string, Room>, m': map<string, Room>)
    requires Apart(m, m')
    ensures Apart(m', m)
  {
    hide Room.Footprint;
  }

  twostate lemma FiledFrame(m: map<string, Room>)
    requires old(Filed(m)) && forall id :: id in m ==> unchanged(m[id].members)
    ensures Filed(m) && Objects(m) == old(Objects(m))
  {
    assert forall id :: id in m ==> m[id].Footprint() == old(m[id].Footprint());
  }

  twostate lemma ApartFrame(m: map<string, Room>, new m': map<string, Room>)
    requires old(allocated(m')) && old(Apart(m, m'))
    requires forall id :: id in m ==> unchanged(m[id].members)
    requires forall id :: id in m' ==> unchanged(m'[id].members)
    ensures Apart(m, m')
  {
    assert forall id :: id in m ==> m[id].Footprint() == old(m[id].Footprint());
    assert forall id :: id in m' ==> m'[id].Footprint() == old(m'[id].Footprint());
  }

  /** Every room of the map except the one at `k` is untouched. */
  twostate predicate OthersUntouched(m: map<string, Room>, k: string)
    reads *
  {
    forall id :: id in m && id != k ==> m[id].Untouched()
  }

  twostate predicate AllUntouched(m: map<string, Room>)
    reads *
  {
    forall id :: id in m ==> m[id].Untouched()
  }

  /** The room has taken in no object that existed before. */
  twostate predicate GrewFresh(room: Room)
    reads *
  {
    fresh(room.Footprint() - old(room.Footprint()))
  }

  twostate lemma StillFiled(m: map<string, Room>, new k: string)
    requires old(Filed(m)) && k in m && OthersUntouched(m, k)
    requires m[k].Valid() && GrewFresh(m[k])
    ensures Filed(m)
  {
    forall id | id in m && id != k
      ensures m[id].Footprint() == old(m[id].Footprint()) && m[id].Valid()
    {
      m[id].UntouchedView();
    }
  }

  twostate lemma StillApart(m: map<string, Room>, new m': map<string, Room>, new k: string)
    requires old(allocated(m')) && old(Apart(m, m')) && k in m && OthersUntouched(m, k)
    requires AllUntouched(m')
    requires GrewFresh(m[k])
    ensures Apart(m, m')
  {
    forall id | id in m && id != k
      ensures m[id].Footprint() == old(m[id].Footprint())
    {
      m[id].UntouchedView();
    }
    forall id | id in m'
      ensures m'[id].Footprint() == old(m'[id].Footprint())
    {
      m'[id].UntouchedView();
    }
  }

  twostate lemma UntouchedFiled(m: map<string, Room>)
    requires old(Filed(m)) && AllUntouched(m)
    ensures Filed(m)
  {
    forall id | id in m
      ensures m[id].Footprint() == old(m[id].Footprint()) && m[id].Valid()
    {
      m[id].UntouchedView();
    }
  }

  lemma AgreesWithCopy(live: RoomView, saved: RoomView)
    requires saved == Stored(live)
    ensures Agrees(live, saved) && Agrees(saved, live)
  {
    assert StoredClients(StoredClients(live.clients)) == StoredClients(live.clients);
  }

  lemma {:induction false} PermutationIsSameClients(clients: seq<ClientView>, clients': seq<ClientView>)
    requires multiset(clients) == multiset(clients')
    ensures SameClients(clients, clients')
    decreases |clients|
  {
    if clients == [] {
      assert |multiset(clients')| == 0;
    } else {
      var c, rest := clients[0], clients[1..];
      assert clients == [c] + rest;
      assert c in multiset(clients') && c in clients';
      var i :| 0 <= i < |clients'| && clients'[i] == c;
      var rest' := RemoveAt(clients', i);
      RemoveFromMultiset(clients', i);
      CancelMultiset(multiset(rest), multiset(rest'), multiset{c});
      PermutationIsSameClients(rest, rest');
      StoredAround(clients, 0);
      StoredAround(clients', i);
      assert RemoveAt(clients, 0) == rest;
    }
  }

  lemma StoredAround(clients: seq<ClientView>, i: nat)
    requires i < |clients|
    ensures multiset(StoredClients(clients))
         == multiset(StoredClients(RemoveAt(clients, i))) + multiset{StoredClient(clients[i])}
  {
    RemoveFromMultiset(StoredClients(clients), i);
    assert RemoveAt(StoredClients(clients), i) == StoredClients(RemoveAt(clients, i));
  }

  lemma AgreesItself(r: RoomView)
    ensures Agrees(r, r)
  {
  }

  lemma AgreesWithSorted(before: RoomView, live: RoomView, saved: RoomView)
    requires live == before.(clients := live.clients) && multiset(live.clients) == multiset(before.clients)
    requires Agrees(before, saved)
    ensures Agrees(live, saved) && Agrees(before, live)
  {
    PermutationIsSameClients(live.clients, before.clients);
  }

  lemma AgreesDrained(live: RoomView, saved: RoomView)
    requires Agrees(live, saved)
    ensures Agrees(live, Stored(saved))
  {
    assert StoredClients(StoredClients(saved.clients)) == StoredClients(saved.clients);
  }

  /** What is left of a room, if anything, when a client leaves it. */
  function AfterLeaving(r: RoomView, client: string, now: Time): Option<RoomView> {
    var out := DoRemoveClient(r, client, now).room;
    if out.clients == [] then None else Some(out)
  }

  /** A join taken back: the client leaves the joined room, whatever order its clients have been sorted into. */
  ghost predicate RolledBack(joined: RoomView, client: string, now: Time, after: Option<RoomView>) {
    exists shown :: Agrees(joined, shown) && after == AfterLeaving(shown, client, now)
  }

  lemma WithoutIsGone(r: RoomView, client: string)
    requires Distinct(Ids(r.clients))
    ensures client !in Ids(Without(r, client))
  {
    if FindClient(r, client).Some? {
      assert Ids(Without(r, client)) == RemoveAt(Ids(r.clients), FindClient(r, client).value);
    }
  }

  lemma RemovedIsGone(r: RoomView, client: string, now: Time)
    requires Distinct(Ids(r.clients))
    ensures FindClient(DoRemoveClient(r, client, now).room, client).None?
  {
    WithoutIsGone(r, client);
    assert Ids(Promote(Without(r, client))) == Ids(Without(r, client));
    hide SummaryOf, Distinct, Without, Promote;
  }

  // ---- histories ------------------------------------------------------------------

  datatype Request = Request(command: Command, guarded: bool, expected: Option<nat>, now: Time)

  function Counts(r: UseCaseResult): nat {
    if r == Success then 1 else 0
  }

  function Successes(results: seq<UseCaseResult>): nat {
    if results == [] then 0 else Successes(results[..|results| - 1]) + Counts(results[|results| - 1])
  }

  /** A guarded request succeeds only if it expects the version, and is called stale only if it does not. */
  predicate IsHonest(version: nat, request: Request, r: UseCaseResult) {
    && (request.guarded && r == Success ==> request.expected == Some(version))
    && (r == StaleVersion ==> request.guarded && request.expected != Some(version))
  }

  predicate HonestAt(first: nat, requests: seq<Request>, results: seq<UseCaseResult>, i: nat)
    requires i < |results| == |requests|
  {
    IsHonest(first + Successes(results[..i]), requests[i], results[i])
  }

  ghost predicate AreHonest(first: nat, requests: seq<Request>, results: seq<UseCaseResult>) {
    |results| == |requests| && forall i :: 0 <= i < |results| ==> HonestAt(first, requests, results, i)
  }

  lemma StillHonestAt(
    first: nat, requests: seq<Request>, results: seq<UseCaseResult>, request: Request, r: UseCaseResult, i: nat)
    requires i < |results| == |requests| && HonestAt(first, requests, results, i)
    ensures HonestAt(first, requests + [request], results + [r], i)
  {
    hide IsHonest;
    assert (results + [r])[..i] == results[..i];
  }

  lemma HonestOneMore(
    first: nat, requests: seq<Request>, results: seq<UseCaseResult>, request: Request, r: UseCaseResult)
    requires AreHonest(first, requests, results) && IsHonest(first + Successes(results), request, r)
    ensures AreHonest(first, requests + [request], results + [r])
    ensures Successes(results + [r]) == Successes(results) + Counts(r)
  {
    hide IsHonest;
    assert (results + [r])[..|results|] == results;
    forall i | 0 <= i < |results + [r]|
      ensures HonestAt(first, requests + [request], results + [r], i)
    {
      if i < |results| {
        StillHonestAt(first, requests, results, request, r, i);
      }
    }
  }

  lemma {:induction false} SuccessesGrow(results: seq<UseCaseResult>, i: nat, j: nat)
    requires i < j <= |results| && results[i] == Success
    ensures Successes(results[..i]) < Successes(results[..j])
  {
    assert results[..j][..j - 1] == results[..j - 1];
    if i < j - 1 {
      SuccessesGrow(results, i, j - 1);
    }
  }

  /** In any history of a room at most one guarded request succeeds per expected version. */
  lemma OneSuccessPerVersion(first: nat, requests: seq<Request>, results: seq<UseCaseResult>, i: nat, j: nat)
    requires AreHonest(first, requests, results) && i < j < |results|
    requires requests[i].guarded && requests[j].guarded && results[i] == results[j] == Success
    ensures requests[i].expected != requests[j].expected
  {
    SuccessesGrow(results, i, j);
    assert HonestAt(first, requests, results, i) && HonestAt(first, requests, results, j);
  }

  class InMemoryHub {
    var rooms: map<string, Room>
    var saved: map<string, Room>
    var clients: map<string, Client>

    ghost predicate Valid()
      reads this, Collections(rooms), Collections(saved)
    {
      Filed(rooms) && Filed(saved) && Apart(rooms, saved)
    }

    ghost predicate InSync()
      reads *
    {
      rooms.Keys == saved.Keys && forall id :: id in rooms ==> Agrees(rooms[id].View(), saved[id].View())
    }

    /** Agreement of every room but the one at `k`. */
    ghost predicate InSyncExcept(k: string)
      reads *
    {
      && (forall id :: id != k ==> (id in rooms <==> id in saved))
      && forall id :: id in rooms && id != k ==> Agrees(rooms[id].View(), saved[id].View())
    }

    twostate lemma StillInSyncExcept(k: string)
      requires old(InSyncExcept(k)) && Valid()
      requires forall id :: id in rooms && id != k ==>
                              id in old(rooms) && rooms[id] == old(rooms)[id] && rooms[id].Untouched()
      requires forall id :: id in saved && id != k ==>
                              id in old(saved) && saved[id] == old(saved)[id] && saved[id].Untouched()
      requires forall id :: id != k ==> (id in rooms <==> id in saved)
      ensures InSyncExcept(k)
    {
      hide Room.View, Room.Footprint, Agrees;
      forall id | id in rooms && id != k
        ensures Agrees(rooms[id].View(), saved[id].View())
      {
        assert id in saved;
        rooms[id].UntouchedView();
        saved[id].UntouchedView();
      }
    }

    twostate lemma OnlyRoomChanged(k: string)
      requires old(InSyncExcept(k)) && Valid() && k in rooms
      requires rooms == old(rooms) && saved == old(saved) && OthersUntouched(rooms, k) && AllUntouched(saved)
      ensures InSyncExcept(k)
    {
      hide Room.View, Room.Footprint, Agrees, Room.Untouched;
      StillInSyncExcept(k);
    }

    /** Refiling rooms under `k` only, without changing any room. */
    twostate lemma MapsChangedAt(k: string)
      requires old(InSyncExcept(k)) && Valid()
      requires rooms == old(rooms) || rooms == old(rooms) - {k} || (k in rooms && rooms == old(rooms)[k := rooms[k]])
      requires saved == old(saved) || saved == old(saved) - {k} || (k in saved && saved == old(saved)[k := saved[k]])
      requires AllUntouched(old(rooms)) && AllUntouched(old(saved))
      ensures InSyncExcept(k)
    {
      hide Room.View, Room.Footprint, Agrees, Room.Untouched;
      StillInSyncExcept(k);
    }

    lemma SyncAt(k: string)
      requires InSyncExcept(k) && (k in rooms <==> k in saved)
      requires k in rooms ==> Agrees(rooms[k].View(), saved[k].View())
      ensures InSync()
    {
      hide Room.View, Agrees;
    }

    lemma SyncExcept(k: string)
      requires InSync()
      ensures InSyncExcept(k)
    {
      hide Room.View, Agrees;
    }

    /** Validity depends on the client collections only. */
    twostate lemma StillValid()
      requires old(Valid()) && rooms == old(rooms) && saved == old(saved)
      requires forall id :: id in rooms ==> unchanged(rooms[id].members)
      requires forall id :: id in saved ==> unchanged(saved[id].members)
      ensures Valid()
      ensures Objects(rooms) == old(Objects(rooms)) && Objects(saved) == old(Objects(saved))
    {
      hide Filed, Apart, Objects;
      FiledFrame(rooms);
      FiledFrame(saved);
      ApartFrame(rooms, saved);
    }

    constructor ()
      ensures Valid() && InSync() && rooms == map[]
    {
      rooms, saved, clients := map[], map[], map[];
    }

    /** Runs a room command on the live room. */
    method Mutate(roomId: string, command: Command, now: Time) returns (e: Option<Error>)
      requires Valid() && roomId in rooms
      modifies rooms[roomId].Footprint()
      ensures unchanged(this) && GrewFresh(rooms[roomId])
      ensures Valid() && Outcome(rooms[roomId].View(), e) == Apply(old(rooms[roomId].View()), command, now)
      ensures OthersUntouched(rooms, roomId)
      ensures AllUntouched(saved)
      ensures old(InSyncExcept(roomId)) ==> InSyncExcept(roomId)
      ensures !ChangesMembers(command) ==> rooms[roomId].Footprint() == old(rooms[roomId].Footprint())
      ensures command.Join? ==>
                rooms[roomId].GrewByOne(old(rooms[roomId].members.clients), rooms[roomId].members.clients)
      ensures command.RemoveClient? ==>
                forall c :: c in rooms[roomId].members.clients ==> c in old(rooms[roomId].members.clients)
    {
      hide Apply, Room.View, Room.Valid;
      e := rooms[roomId].Do(command, now);
      StillFiled(rooms, roomId);
      UntouchedFiled(saved);
      StillApart(rooms, saved, roomId);
      hide InSyncExcept, OthersUntouched, Room.Untouched;
      if old(InSyncExcept(roomId)) {
        OnlyRoomChanged(roomId);
      }
    }

    /** Sending the room state sorts the live room's clients. */
    method Broadcast(roomId: string)
      requires Valid() && roomId in rooms
      modifies rooms[roomId].members
      ensures unchanged(this)
      ensures Valid()
      ensures multiset(rooms[roomId].View().clients) == multiset(old(rooms[roomId].View()).clients)
      ensures rooms[roomId].View() == old(rooms[roomId].View()).(clients := rooms[roomId].View().clients)
      ensures rooms[roomId].Footprint() == old(rooms[roomId].Footprint())
      ensures SortedByName(rooms[roomId].members.clients)
      ensures OthersUntouched(rooms, roomId)
      ensures AllUntouched(saved)
      ensures old(InSyncExcept(roomId)) ==> InSyncExcept(roomId)
    {
      hide Room.View, Room.Valid, SortedByName;
      SortMembers(rooms[roomId]);
      StillFiled(rooms, roomId);
      UntouchedFiled(saved);
      StillApart(rooms, saved, roomId);
      hide InSyncExcept, OthersUntouched, Room.Untouched;
      if old(InSyncExcept(roomId)) {
        OnlyRoomChanged(roomId);
      }
    }

    /** A copy with the given version that shares nothing with any room of the hub. */
    method Snapshot(room: Room, version: nat) returns (copy: Room)
      requires Valid()
      ensures Valid()
      ensures fresh(copy) && fresh(copy.Footprint()) && copy.Valid() && copy.id == room.id
      ensures copy.Footprint() !! Objects(rooms) && copy.Footprint() !! Objects(saved)
      ensures copy.View() == Stored(room.View()).(version := version)
    {
      hide InSyncExcept, Filed, Apart, Objects, Room.Footprint, Room.Valid, Room.View;
      ghost var known := Objects(rooms) + Objects(saved);
      ObjectsExist(rooms);
      ObjectsExist(saved);
      copy := CloneRoom(room);
      assert copy.Footprint() !! known;
      FiledFrame(rooms);
      FiledFrame(saved);
      ApartFrame(rooms, saved);
      label L:
      SetVersion(copy, version);
      StillValid@L();
    }

    /** Puts a copy of the live room, with the given version, in the saved map. */
    method Store(room: Room, version: nat)
      requires Valid() && room.id in rooms && rooms[room.id] == room
      modifies this`saved
      ensures Valid() && room.id in saved && saved == old(saved)[room.id := saved[room.id]]
      ensures saved[room.id].View() == Stored(room.View()).(version := version)
      ensures old(InSyncExcept(room.id)) ==> InSyncExcept(room.id)
    {
      hide InSyncExcept, Filed, Apart, Objects, Room.Footprint, Room.Valid, Room.View;
      var copy := Snapshot(room, version);
      FiledWith(saved, copy);
      ApartWith(rooms, saved, copy);
      label L:
      saved := saved[room.id := copy];
      FiledFrame@L(rooms);
      FiledFrame@L(saved);
      ApartFrame@L(rooms, saved);
      if old(InSyncExcept(room.id)) {
        MapsChangedAt(room.id);
      }
    }

    lemma LiveIsNotSaved(room: Room)
      requires Valid() && room.id in rooms && rooms[room.id] == room && room.id in saved
      ensures forall id :: id in saved ==> saved[id] != room
      ensures forall id :: id in rooms && id != room.id ==> rooms[id] != room
    {
      assert room in rooms[room.id].Footprint();
      assert forall id :: id in saved ==> saved[id] in saved[id].Footprint();
      assert forall id :: id in rooms ==> rooms[id] in rooms[id].Footprint();
    }

    method SetVersion(room: Room, version: nat)
      modifies room`version
      ensures room.View() == old(room.View()).(version := version)
    {
      room.version := version;
    }

    method SetLiveVersion(room: Room, version: nat)
      requires Valid() && room.id in rooms && rooms[room.id] == room && room.id in saved
      modifies room`version
      ensures Valid() && room.View() == old(room.View()).(version := version)
      ensures saved[room.id].View() == old(saved[room.id].View())
      ensures old(InSyncExcept(room.id)) ==> InSyncExcept(room.id)
    {
      hide InSyncExcept, Filed, Apart, Objects, Room.Footprint, Room.Valid, Room.View;
      LiveIsNotSaved(room);
      SetVersion(room, version);
      StillValid();
      saved[room.id].UntouchedView();
      if old(InSyncExcept(room.id)) {
        OnlyRoomChanged(room.id);
      }
    }

    method SaveRoom(room: Room)
      requires Valid() && room.id in rooms && rooms[room.id] == room
      modifies this`saved, room`version
      ensures Valid() && room.id in saved && saved == old(saved)[room.id := saved[room.id]]
      ensures var next := (if room.id in old(saved) then old(saved[room.id].version) else old(room.version)) + 1;
              && room.View() == old(room.View()).(version := next)
              && saved[room.id].View() == Stored(old(room.View())).(version := next)
      ensures old(InSyncExcept(room.id)) ==> InSyncExcept(room.id)
    {
      hide InSyncExcept, Filed, Apart, Objects, Room.Footprint, Room.Valid, Room.View;
      var next := room.version + 1;
      if room.id in saved {
        next := saved[room.id].version + 1;
      }
      Store(room, next);
      SetLiveVersion(room, next);
    }

    /** A snapshot under the version already saved. */
    method RefreshSavedRoom(room: Room)
      requires Valid() && room.id in rooms && rooms[room.id] == room
      modifies this`saved
      ensures Valid() && (room.id in saved <==> room.id in old(saved))
      ensures room.id in saved ==> saved == old(saved)[room.id := saved[room.id]]
      ensures room.id !in saved ==> saved == old(saved)
      ensures room.id in saved ==>
                saved[room.id].View() == Stored(room.View()).(version := old(saved[room.id].version))
      ensures old(InSyncExcept(room.id)) ==> InSyncExcept(room.id)
    {
      hide InSyncExcept, Filed, Apart, Objects, Room.Footprint, Room.Valid, Room.View;
      if room.id !in saved {
        return;
      }
      Store(room, saved[room.id].version);
    }

    predicate IsLive(room: Room)
      reads this
    {
      room.id in rooms && rooms[room.id] == room
    }

    function PersistedVersion(roomId: string): nat
      reads this, if roomId in saved then {saved[roomId]} else {}
    {
      if roomId in saved then saved[roomId].version else 0
    }

    /** Replaces the live room by a copy of the saved one. */
    method Restore(roomId: string)
      requires Valid() && roomId in saved
      modifies this`rooms
      ensures Valid() && roomId in rooms && rooms == old(rooms)[roomId := rooms[roomId]]
      ensures rooms[roomId].View() == Stored(saved[roomId].View())
      ensures fresh(rooms[roomId]) && fresh(rooms[roomId].Footprint())
      ensures old(InSyncExcept(roomId)) ==> InSyncExcept(roomId)
    {
      hide InSyncExcept, Filed, Apart, Objects, Room.Footprint, Room.Valid, Room.View;
      SavedUnderId(roomId);
      var copy := Snapshot(saved[roomId], saved[roomId].version);
      FiledWith(rooms, copy);
      ApartSymmetric(rooms, saved);
      ApartWith(saved, rooms, copy);
      label L:
      rooms := rooms[roomId := copy];
      FiledFrame@L(rooms);
      FiledFrame@L(saved);
      ApartFrame@L(saved, rooms);
      ApartSymmetric(saved, rooms);
      if old(InSyncExcept(roomId)) {
        MapsChangedAt(roomId);
      }
    }

    lemma SavedUnderId(roomId: string)
      requires Valid() && roomId in saved
      ensures saved[roomId].id == roomId && saved[roomId].View().version == saved[roomId].version
    {
    }

    // ---- the table of clients ----------------------------------------------------

    /** Every client of the room is the very object filed under its ID. */
    ghost predicate FilesMembers(roomId: string)
      requires roomId in rooms
      reads this`rooms, this`clients, rooms[roomId].members
    {
      forall c :: c in rooms[roomId].members.clients ==> c.id in clients && clients[c.id] == c
    }

    /** The clients are filed, unless the room is stale and has any. */
    ghost predicate FiledUnless(roomId: string, stale: bool)
      requires roomId in rooms
      reads this, rooms[roomId].members
    {
      FilesMembers(roomId) <==> !stale || rooms[roomId].members.clients == []
    }

    /** The table entries of a room that has kept its objects, or is rebuilt from new ones. */
    twostate lemma TableAfter(roomId: string, new stale: bool)
      requires roomId in old(rooms) && roomId in rooms && clients == old(clients)
      requires stale ==> fresh(rooms[roomId].Footprint())
      ensures old(FilesMembers(roomId)) && (stale || SameObjects(roomId)) ==> FiledUnless(roomId, stale)
    {
      rooms[roomId].ClientsInFootprint();
      if stale {
        if rooms[roomId].members.clients != [] {
          var c := rooms[roomId].members.clients[0];
          assert c.id in clients ==> !fresh(clients[c.id]);
        }
      } else if SameObjects(roomId) {
        forall c: Client | c in rooms[roomId].members.clients
          ensures c in old(rooms[roomId].members.clients)
        {
          assert c in old(rooms[roomId].Footprint());
        }
      }
    }

    twostate predicate SameObjects(roomId: string)
      requires roomId in old(rooms) && roomId in rooms
      reads *
    {
      rooms[roomId] == old(rooms[roomId]) && rooms[roomId].Footprint() == old(rooms[roomId].Footprint())
    }

    method SaveRoomIfVersion(room: Room, expected: Option<nat>) returns (ok: bool)
      requires Valid()
      modifies this`rooms, this`saved, room`version
      ensures Valid()
      ensures ok == (old(IsLive(room)) && expected == Some(old(PersistedVersion(room.id))))
      ensures !old(IsLive(room)) ==> rooms == old(rooms) && saved == old(saved) && room.View() == old(room.View())
      ensures old(IsLive(room)) && !ok && room.id in old(saved) ==>
                && saved == old(saved) && AllUntouched(saved)
                && room.id in rooms && rooms == old(rooms)[room.id := rooms[room.id]]
                && rooms[room.id].View() == Stored(saved[room.id].View())
                && fresh(rooms[room.id]) && fresh(rooms[room.id].Footprint())
      ensures ok ==>
                && rooms == old(rooms)
                && room.id in saved && saved == old(saved)[room.id := saved[room.id]]
                && room.View() == old(room.View()).(version := expected.value + 1)
                && saved[room.id].View() == Stored(room.View())
      ensures old(IsLive(room)) && room.id in old(saved) && old(FilesMembers(room.id)) ==> FiledUnless(room.id, !ok)
      ensures old(InSyncExcept(room.id)) ==> InSyncExcept(room.id)
    {
      hide InSyncExcept, Filed, Apart, Objects, Room.Footprint, Room.Valid, Room.View;
      if !IsLive(room) {
        return false;
      }
      var persisted := PersistedVersion(room.id);
      if expected.None? || persisted != expected.value {
        if room.id in saved {
          Restore(room.id);
          TableAfter(room.id, true);
        }
        return false;
      }
      Store(room, persisted + 1);
      SetLiveVersion(room, persisted + 1);
      TableAfter(room.id, false);
      return true;
    }

    // ---- use cases -------------------------------------------------------------

    lemma VersionsAgree(roomId: string)
      requires InSync() && roomId in rooms
      ensures roomId in saved && saved[roomId].version == rooms[roomId].version == PersistedVersion(roomId)
      ensures rooms[roomId].View().version == rooms[roomId].version
      ensures Agrees(rooms[roomId].View(), saved[roomId].View())
    {
      assert Agrees(rooms[roomId].View(), saved[roomId].View());
      assert saved[roomId].View().version == saved[roomId].version;
    }

    /** The change itself: an error leaves the hub in sync, a change leaves the room ahead of its saved copy. */
    method Attempt(roomId: string, command: Command, now: Time) returns (e: Option<Error>)
      requires Valid() && InSync() && roomId in rooms
      modifies rooms[roomId].Footprint()
      ensures unchanged(this) && Valid() && GrewFresh(rooms[roomId])
      ensures e == Apply(old(rooms[roomId].View()), command, now).error
      ensures rooms[roomId].View() == if e.Some? then old(rooms[roomId].View())
                                      else Apply(old(rooms[roomId].View()), command, now).room
      ensures if e.Some? then InSync() else InSyncExcept(roomId)
      ensures rooms[roomId].id == roomId && roomId in saved
      ensures old(rooms[roomId].View().version) == saved[roomId].version
      ensures Agrees(old(rooms[roomId].View()), saved[roomId].View())
      ensures saved[roomId].View() == old(saved[roomId].View())
      ensures !ChangesMembers(command) ==> rooms[roomId].Footprint() == old(rooms[roomId].Footprint())
    {
      hide InSync, InSyncExcept, Filed, Apart, Objects, Room.Footprint, Room.Valid, Room.View, Apply, Agrees;
      SyncExcept(roomId);
      VersionsAgree(roomId);
      ghost var before := rooms[roomId].View();
      FiledUnderId(roomId);
      e := Mutate(roomId, command, now);
      saved[roomId].UntouchedView();
      if e.Some? {
        RoomInvariants.ErrorsChangeNothing(before, command, now);
        SyncAt(roomId);
      } else {
        RoomInvariants.CommandsKeepIdentity(before, command, now);
      }
    }

    /** Load, mutate, save if the caller's version is the saved one, broadcast. */
    method Guarded(roomId: string, command: Command, expected: Option<nat>, now: Time) returns (r: UseCaseResult)
      requires Valid() && InSync()
      modifies this`rooms, this`saved, if roomId in rooms then rooms[roomId].Footprint() else {}
      ensures Valid() && InSync() && rooms.Keys == old(rooms.Keys)
      ensures roomId !in old(rooms) ==> r == RoomNotFound
      ensures roomId in old(rooms) ==>
                var before, after := old(rooms[roomId].View()), rooms[roomId].View();
                var out := Apply(before, command, now);
                if out.error.Some? then r == Rejected(out.error.value) && after == before
                else if expected == Some(before.version)
                then r == Success && Agrees(out.room.(version := before.version + 1), after)
                else r == StaleVersion && Agrees(before, after) && after.events == []
      ensures roomId in old(rooms) ==> fresh(rooms[roomId].Footprint() - old(rooms[roomId].Footprint()))
      ensures roomId in old(rooms) && !ChangesMembers(command) && old(FilesMembers(roomId)) ==>
                FiledUnless(roomId, r == StaleVersion)
    {
      hide InSync, InSyncExcept, Filed, Apart, Objects, Room.Footprint, Room.Valid, Room.View, Apply, Agrees,
           FilesMembers, FiledUnless;
      if roomId !in rooms {
        return RoomNotFound;
      }
      var room := rooms[roomId];
      FiledUnderId(roomId);
      VersionsAgree(roomId);
      ghost var before, kept := room.View(), saved[roomId].View();
      var e := Attempt(roomId, command, now);
      if e.Some? {
        r := Rejected(e.value);
      } else {
        var ok := SaveAndPublish(roomId, room, expected);
        if ok {
          r := Success;
        } else {
          AgreesDrained(before, kept);
          r := StaleVersion;
        }
      }
      TableAfter(roomId, r == StaleVersion);
    }

    /** The guarded save of a changed room, and the broadcast if it succeeds. */
    method SaveAndPublish(roomId: string, room: Room, expected: Option<nat>) returns (ok: bool)
      requires Valid() && InSyncExcept(roomId) && roomId in saved && room.id == roomId && IsLive(room)
      modifies this`rooms, this`saved, room`version, room.members
      ensures Valid() && InSync() && rooms.Keys == old(rooms.Keys)
      ensures ok <==> expected == Some(old(saved[roomId].version))
      ensures ok ==> rooms == old(rooms) && room.Footprint() == old(room.Footprint())
      ensures ok ==> Agrees(old(room.View()).(version := expected.value + 1), room.View())
      ensures !ok ==> fresh(rooms[roomId].Footprint()) && rooms[roomId].View() == Stored(old(saved[roomId].View()))
    {
      hide InSync, InSyncExcept, Filed, Apart, Objects, Room.Footprint, Room.Valid, Room.View, Agrees,
           FilesMembers, FiledUnless;
      ok := SaveRoomIfVersion(room, expected);
      if ok {
        AgreesWithCopy(room.View(), saved[roomId].View());
        PublishState(roomId);
      } else {
        saved[roomId].UntouchedView();
        AgreesWithCopy(saved[roomId].View(), rooms[roomId].View());
        SyncAt(roomId);
      }
    }

    /** Broadcasting a room whose saved copy was just taken leaves the hub in sync. */
    method PublishState(roomId: string)
      requires Valid() && InSyncExcept(roomId) && roomId in rooms && roomId in saved
      requires Agrees(rooms[roomId].View(), saved[roomId].View())
      modifies rooms[roomId].members
      ensures Valid() && InSync() && unchanged(this)
      ensures Agrees(old(rooms[roomId].View()), rooms[roomId].View())
      ensures rooms[roomId].Footprint() == old(rooms[roomId].Footprint())
      ensures AllUntouched(saved)
    {
      hide InSync, InSyncExcept, Filed, Apart, Objects, Room.Footprint, Room.Valid, Room.View, Agrees;
      ghost var before := rooms[roomId].View();
      Broadcast(roomId);
      saved[roomId].UntouchedView();
      AgreesWithSorted(before, rooms[roomId].View(), saved[roomId].View());
      SyncAt(roomId);
    }

    lemma FiledUnderId(roomId: string)
      requires Valid() && roomId in rooms
      ensures rooms[roomId].id == roomId && IsLive(rooms[roomId])
      ensures rooms[roomId] in rooms[roomId].Footprint() && rooms[roomId].members in rooms[roomId].Footprint()
    {
    }

    /** Load, mutate, save unconditionally, broadcast. */
    method Unguarded(roomId: string, command: Command, now: Time) returns (r: UseCaseResult)
      requires Valid() && InSync()
      modifies this`rooms, this`saved, if roomId in rooms then rooms[roomId].Footprint() else {}
      ensures Valid() && InSync() && rooms == old(rooms)
      ensures roomId !in old(rooms) ==> r == RoomNotFound
      ensures roomId in old(rooms) ==>
                var before, after := old(rooms[roomId].View()), rooms[roomId].View();
                var out := Apply(before, command, now);
                if out.error.Some? then r == Rejected(out.error.value) && after == before
                else r == Success && Agrees(out.room.(version := before.version + 1), after)
      ensures roomId in old(rooms) ==> fresh(rooms[roomId].Footprint() - old(rooms[roomId].Footprint()))
      ensures roomId in old(rooms) && !ChangesMembers(command) && old(FilesMembers(roomId)) ==>
                FiledUnless(roomId, false)
    {
      hide InSync, InSyncExcept, Filed, Apart, Objects, Room.Footprint, Room.Valid, Room.View, Apply, Agrees,
           FilesMembers, FiledUnless;
      if roomId !in rooms {
        return RoomNotFound;
      }
      var room := rooms[roomId];
      FiledUnderId(roomId);
      var e := Attempt(roomId, command, now);
      if e.Some? {
        r := Rejected(e.value);
      } else {
        SaveRoom(room);
        AgreesWithCopy(room.View(), saved[roomId].View());
        PublishState(roomId);
        r := Success;
      }
      TableAfter(roomId, false);
    }

    /** One request of a history. */
    method Serve(roomId: string, request: Request) returns (r: UseCaseResult)
      requires Valid() && InSync() && roomId in rooms
      modifies this`rooms, this`saved, rooms[roomId].Footprint()
      ensures Valid() && InSync() && rooms.Keys == old(rooms.Keys)
      ensures fresh(rooms[roomId].Footprint() - old(rooms[roomId].Footprint()))
      ensures IsHonest(old(rooms[roomId].View().version), request, r)
      ensures rooms[roomId].View().version == old(rooms[roomId].View().version) + Counts(r)
    {
      hide InSync, Filed, Apart, Objects, Room.Footprint, Room.Valid, Room.View, Apply, FilesMembers;
      ghost var before := rooms[roomId].View();
      RoomInvariants.CommandsKeepIdentity(before, request.command, request.now);
      if request.guarded {
        r := Guarded(roomId, request.command, request.expected, request.now);
      } else {
        r := Unguarded(roomId, request.command, request.now);
      }
    }

    /**
     Main result, whole histories of one room: the hub stays valid and in sync, the version grows by the number of
     successful requests, and a guarded one succeeds only for the version reached by then.
     */
    method ServeAll(roomId: string, requests: seq<Request>) returns (results: seq<UseCaseResult>)
      requires Valid() && InSync() && roomId in rooms
      modifies this`rooms, this`saved, rooms[roomId].Footprint()
      ensures Valid() && InSync() && rooms.Keys == old(rooms.Keys)
      ensures AreHonest(old(rooms[roomId].View().version), requests, results)
      ensures rooms[roomId].View().version == old(rooms[roomId].View().version) + Successes(results)
    {
      hide InSync, Filed, Apart, Objects, Room.Footprint, Room.Valid, Room.View, IsHonest;
      ghost var first := rooms[roomId].View().version;
      results := [];
      for i := 0 to |requests|
        invariant Valid() && InSync() && rooms.Keys == old(rooms.Keys)
        invariant fresh(rooms[roomId].Footprint() - old(rooms[roomId].Footprint()))
        invariant AreHonest(first, requests[..i], results)
        invariant rooms[roomId].View().version == first + Successes(results)
      {
        ghost var footprint := rooms[roomId].Footprint();
        label L:
        var r := Serve(roomId, requests[i]);
        forall o | o in rooms[roomId].Footprint() && o !in old(rooms[roomId].Footprint())
          ensures fresh(o)
        {
          assert o !in footprint ==> fresh@L(o);
        }
        HonestOneMore(first, requests[..i], results, requests[i], r);
        assert requests[..i + 1] == requests[..i] + [requests[i]];
        results := results + [r];
      }
      assert requests[..|requests|] == requests;
    }

    method FreshRoom(roomId: string, deckType: string, now: Time) returns (room: Room)
      requires Valid()
      ensures Valid() && room.Valid() && room.id == roomId && fresh(room) && fresh(room.Footprint())
      ensures room.Footprint() !! Objects(rooms) && room.Footprint() !! Objects(saved)
      ensures room.View() == NewRoom(roomId, deckType, now)
      ensures AllUntouched(rooms) && AllUntouched(saved)
    {
      hide Filed, Apart, Objects;
      ghost var known := Objects(rooms) + Objects(saved);
      ObjectsExist(rooms);
      ObjectsExist(saved);
      var members := new ClientCollection();
      room := new Room(roomId, members, now, deckType);
      assert room.Footprint() == {room, members} && room.Footprint() !! known;
      hide Room.Footprint, Room.Valid, Room.View;
      FiledFrame(rooms);
      FiledFrame(saved);
      ApartFrame(rooms, saved);
    }

    /** Files a new, empty room, over the one already filed under the ID if there is one. */
    method AddRoom(roomId: string, deckType: string, now: Time)
      requires Valid() && InSync()
      modifies this`rooms, this`saved
      ensures Valid() && InSync()
      ensures roomId in rooms && rooms == old(rooms)[roomId := rooms[roomId]]
      ensures fresh(rooms[roomId]) && fresh(rooms[roomId].Footprint())
      ensures rooms[roomId].View() == NewRoom(roomId, deckType, now)
    {
      hide InSync, InSyncExcept, Filed, Apart, Objects, Room.Footprint, Room.Valid, Room.View, Agrees;
      SyncExcept(roomId);
      var room := FreshRoom(roomId, deckType, now);
      FiledWith(rooms, room);
      ApartSymmetric(rooms, saved);
      ApartWith(saved, rooms, room);
      label L:
      rooms := rooms[roomId := room];
      FiledFrame@L(rooms);
      FiledFrame@L(saved);
      ApartFrame@L(saved, rooms);
      ApartSymmetric(saved, rooms);
      MapsChangedAt(roomId);
      VersionOfView(room);
      Store(room, room.version);
      AgreesWithCopy(rooms[roomId].View(), saved[roomId].View());
      SyncAt(roomId);
    }

    method RemoveRoom(roomId: string)
      requires Valid() && InSyncExcept(roomId)
      modifies this`rooms, this`saved
      ensures Valid() && InSync() && rooms == old(rooms) - {roomId}
    {
      hide InSync, InSyncExcept, Filed, Apart, Objects, Room.Footprint, Room.Valid, Room.View, Agrees;
      FiledWithout(rooms, roomId);
      FiledWithout(saved, roomId);
      ApartWithout(rooms, saved, roomId);
      rooms := rooms - {roomId};
      saved := saved - {roomId};
      FiledFrame(rooms);
      FiledFrame(saved);
      ApartFrame(rooms, saved);
      MapsChangedAt(roomId);
      SyncAt(roomId);
    }

    /** Takes a client out of its room; an empty room disappears, any other is snapshotted under its old version. */
    method RemoveClient(clientId: string, roomId: string, now: Time)
      requires Valid() && InSync()
      modifies this, if roomId in rooms then rooms[roomId].Footprint() else {}
      ensures Valid() && InSync() && clients == old(clients) - {clientId}
      ensures roomId !in old(rooms) ==> rooms == old(rooms)
      ensures roomId in old(rooms) ==>
                var out := Apply(old(rooms[roomId].View()), Command.RemoveClient(clientId), now).room;
                if out.clients == [] then rooms == old(rooms) - {roomId}
                else rooms == old(rooms) && rooms[roomId].View() == out
      ensures roomId in old(rooms) && roomId in rooms && old(FilesMembers(roomId)) ==> FilesMembers(roomId)
    {
      hide InSync, InSyncExcept, Filed, Apart, Objects, Room.Footprint, Room.Valid, Room.View, Apply, Agrees,
           FilesMembers;
      if roomId in rooms {
        FiledUnderId(roomId);
        if FilesMembers(roomId) {
          MembersAreDistinct(roomId);
        }
      }
      ForgetClient(clientId);
      if roomId !in rooms {
        return;
      }
      rooms[roomId].UntouchedView();
      TakeOut(clientId, roomId, now);
      if old(FilesMembers(roomId)) {
        OthersStayFiled(roomId, clientId, now);
      }
      var room := rooms[roomId];
      FiledUnderId(roomId);
      EmptyView(room);
      if room.IsEmpty() {
        RemoveRoom(roomId);
      } else {
        VersionOfView(room);
        RefreshSavedRoom(room);
        AgreesWithCopy(room.View(), saved[roomId].View());
        SyncAt(roomId);
      }
    }

    /** The live room's part. */
    method TakeOut(clientId: string, roomId: string, now: Time)
      requires Valid() && InSync() && roomId in rooms
      modifies rooms[roomId].Footprint()
      ensures unchanged(this) && Valid() && InSyncExcept(roomId) && roomId in saved
      ensures rooms[roomId].View() == Apply(old(rooms[roomId].View()), Command.RemoveClient(clientId), now).room
      ensures rooms[roomId].View().version == saved[roomId].version
      ensures forall c :: c in rooms[roomId].members.clients ==> c in old(rooms[roomId].members.clients)
      ensures GrewFresh(rooms[roomId])
    {
      hide InSync, InSyncExcept, Filed, Apart, Objects, Room.Footprint, Room.Valid, Room.View, Apply, Agrees;
      SyncExcept(roomId);
      VersionsAgree(roomId);
      RoomInvariants.CommandsKeepIdentity(rooms[roomId].View(), Command.RemoveClient(clientId), now);
      var e := Mutate(roomId, Command.RemoveClient(clientId), now);
      saved[roomId].UntouchedView();
    }

    /** Filed clients have different IDs, so nobody who stays has the removed one's. */
    lemma MembersAreDistinct(roomId: string)
      requires Valid() && roomId in rooms && FilesMembers(roomId)
      ensures Distinct(Ids(rooms[roomId].View().clients))
    {
      var members := rooms[roomId].members.clients;
      var ids := Ids(rooms[roomId].View().clients);
      forall i, j | 0 <= i < j < |ids|
        ensures ids[i] != ids[j]
      {
        assert members[i] in members && members[j] in members;
        assert ids[i] == members[i].id && ids[j] == members[j].id;
      }
    }

    twostate lemma OthersStayFiled(roomId: string, new clientId: string, new now: Time)
      requires roomId in old(rooms) && rooms == old(rooms) && old(FilesMembers(roomId))
      requires Distinct(Ids(old(rooms[roomId].View()).clients))
      requires clients == old(clients) - {clientId}
      requires forall c :: c in rooms[roomId].members.clients ==> c in old(rooms[roomId].members.clients)
      requires rooms[roomId].View() == Apply(old(rooms[roomId].View()), Command.RemoveClient(clientId), now).room
      ensures FilesMembers(roomId)
    {
      hide Filed, Apart, DoRemoveClient, Room.View, Distinct, IndexOf;
      RemovedIsGone(old(rooms[roomId].View()), clientId, now);
      UnknownId(rooms[roomId], clientId);
    }

    method ForgetClient(clientId: string)
      requires Valid() && InSync()
      modifies this`clients
      ensures Valid() && InSync() && clients == old(clients) - {clientId}
      ensures AllUntouched(rooms)
    {
      hide InSync, Filed, Apart, Objects, Room.Footprint, Room.Valid, Room.View;
      clients := clients - {clientId};
      StillValid();
      StillInSync();
    }

    twostate lemma StillInSync()
      requires old(InSync()) && rooms == old(rooms) && saved == old(saved)
      requires AllUntouched(rooms) && AllUntouched(saved)
      ensures InSync()
    {
      hide Room.View, Agrees, Room.Untouched;
      forall id | id in rooms
        ensures rooms[id].View() == old(rooms[id].View()) && saved[id].View() == old(saved[id].View())
      {
        rooms[id].UntouchedView();
        saved[id].UntouchedView();
      }
    }

    lemma VersionOfView(room: Room)
      ensures room.View().version == room.version
    {
    }

    lemma EmptyView(room: Room)
      ensures room.IsEmpty() <==> room.View().clients == []
    {
    }

    /** Leaving: the client is removed and, if its room still exists, the room state is sent to the others. */
    method Leave(roomId: string, clientId: string, now: Time)
      requires Valid() && InSync()
      modifies this, if roomId in rooms then rooms[roomId].Footprint() else {}
      ensures Valid() && InSync()
      ensures roomId !in old(rooms) ==> rooms == old(rooms)
      ensures roomId in old(rooms) ==>
                var out := Apply(old(rooms[roomId].View()), Command.RemoveClient(clientId), now).room;
                if out.clients == [] then rooms == old(rooms) - {roomId}
                else rooms == old(rooms) && Agrees(out, rooms[roomId].View())
    {
      hide InSync, InSyncExcept, Filed, Apart, Objects, Room.Footprint, Room.Valid, Room.View, Apply, Agrees;
      if roomId in rooms {
        FiledUnderId(roomId);
      }
      RemoveClient(clientId, roomId, now);
      if roomId in rooms {
        SyncExcept(roomId);
        VersionsAgree(roomId);
        PublishState(roomId);
      }
    }

    /** Loads the room, or creates it with the default deck. */
    method OpenRoom(roomId: string, now: Time)
      requires Valid() && InSync()
      modifies this`rooms, this`saved
      ensures Valid() && InSync() && roomId in rooms
      ensures roomId in old(rooms) ==> unchanged(this) && rooms[roomId].Footprint() == old(rooms[roomId].Footprint())
      ensures roomId !in old(rooms) ==> fresh(rooms[roomId]) && fresh(rooms[roomId].Footprint())
      ensures rooms[roomId] in rooms[roomId].Footprint() && rooms[roomId].members in rooms[roomId].Footprint()
      ensures rooms[roomId].View() == if roomId in old(rooms) then old(rooms[roomId].View())
          else NewRoom(roomId, FIBONACCI.id, now)
    {
      hide InSync, InSyncExcept, Filed, Apart, Objects, Room.Footprint, Room.Valid, Room.View;
      if roomId !in rooms {
        AddRoom(roomId, FIBONACCI.id, now);
      }
      FiledUnderId(roomId);
    }

    /**
     Joining: the room is created when missing, a known client reconnects, a new one is added and snapshotted.
     `sent` says whether the new connection took its first message, `delivered` whether the room state went out;
     otherwise a newly added client is removed again.
     */
    method JoinRoom(roomId: string, clientId: string, sent: bool, delivered: bool, now: Time) returns (ok: bool)
      requires Valid() && InSync()
      modifies this, if roomId in rooms then rooms[roomId].Footprint() else {}
      ensures Valid() && InSync()
      ensures ok == (sent && delivered)
      ensures var before := if roomId in old(rooms) then old(rooms[roomId].View())
          else NewRoom(roomId, FIBONACCI.id, now);
              var joined := DoJoin(before, clientId).room;
              if ok || FindClient(before, clientId).Some?
              then roomId in rooms && Agrees(joined, rooms[roomId].View())
              else RolledBack(joined, clientId, now, if roomId in rooms then Some(rooms[roomId].View()) else None)
      ensures var before := if roomId in old(rooms) then old(rooms[roomId].View())
          else NewRoom(roomId, FIBONACCI.id, now);
              if FindClient(before, clientId).Some? then clients == old(clients)
              else if ok then roomId in rooms && Files(roomId, clientId)
              else clients == old(clients) - {clientId}
    {
      hide InSync, InSyncExcept, Filed, Apart, Objects, Room.Footprint, Room.Valid, Room.View, DoJoin, Agrees,
           FindClient, NewRoom;
      OpenRoom(roomId, now);
      var isReconnect := AddToRoom(roomId, clientId, now);
      ok := NotifyJoin(roomId, clientId, isReconnect, sent, delivered, now);
    }

    /** Sends the room state, or takes a newly added client out again. */
    method NotifyJoin(roomId: string, clientId: string, isReconnect: bool, sent: bool, delivered: bool, now: Time)
      returns (ok: bool)
      requires Valid() && InSync() && roomId in rooms
      modifies this, rooms[roomId].Footprint()
      ensures Valid() && InSync() && ok == (sent && delivered)
      ensures ok || isReconnect ==>
                && rooms == old(rooms) && clients == old(clients)
                && Agrees(old(rooms[roomId].View()), rooms[roomId].View())
                && rooms[roomId].Footprint() == old(rooms[roomId].Footprint())
      ensures !ok && !isReconnect ==>
                && clients == old(clients) - {clientId}
                && RolledBack(old(rooms[roomId].View()), clientId, now,
                              if roomId in rooms then Some(rooms[roomId].View()) else None)
    {
      hide InSync, InSyncExcept, Filed, Apart, Objects, Room.Footprint, Room.Valid, Room.View, Agrees;
      AgreesItself(rooms[roomId].View());
      FiledUnderId(roomId);
      if sent {
        SyncExcept(roomId);
        VersionsAgree(roomId);
        PublishState(roomId);
      }
      ok := sent && delivered;
      if !ok && !isReconnect {
        ghost var shown := rooms[roomId].View();
        RemoveClient(clientId, roomId, now);
        assert (if roomId in rooms then Some(rooms[roomId].View()) else None) == AfterLeaving(shown, clientId, now);
      }
    }

    /** Whether the client is already in the room. */
    method IsMember(roomId: string, clientId: string) returns (known: bool)
      requires Valid() && InSync() && roomId in rooms
      ensures Valid() && InSync() && AllUntouched(rooms) && AllUntouched(saved)
      ensures known == FindClient(rooms[roomId].View(), clientId).Some?
    {
      hide InSync, InSyncExcept, Filed, Apart, Objects, Room.Footprint, Room.Valid, Agrees, IndexOf;
      var existing := rooms[roomId].FindClient(clientId);
      StillValid();
      StillInSync();
      rooms[roomId].UntouchedView();
      known := existing != null;
    }

    /** Finds the client in the room or adds it and snapshots the room. */
    method AddToRoom(roomId: string, clientId: string, now: Time) returns (isReconnect: bool)
      requires Valid() && InSync() && roomId in rooms
      modifies this`saved, this`clients, rooms[roomId].Footprint()
      ensures rooms == old(rooms) && Valid() && InSync()
      ensures rooms[roomId].View() == DoJoin(old(rooms[roomId].View()), clientId).room
      ensures if isReconnect then clients == old(clients) else Files(roomId, clientId)
      ensures old(FilesMembers(roomId)) ==> FilesMembers(roomId)
      ensures isReconnect == FindClient(old(rooms[roomId].View()), clientId).Some?
      ensures GrewFresh(rooms[roomId])
    {
      hide InSync, InSyncExcept, Filed, Apart, Objects, Room.Footprint, Room.Valid, Room.View, Agrees;
      var room := rooms[roomId];
      isReconnect := IsMember(roomId, clientId);
      room.UntouchedView();
      ghost var footprint := room.Footprint();
      assert footprint == old(rooms[roomId].Footprint());
      if !isReconnect {
        label L:
        AddClient(roomId, clientId, now);
        forall o | o in room.Footprint() && o !in footprint
          ensures fresh(o)
        {
          assert fresh@L(o);
        }
      }
    }

    /** A client the room does not have yet is appended and the room snapshotted. */
    method AddClient(roomId: string, clientId: string, now: Time)
      requires Valid() && InSync() && roomId in rooms
      requires FindClient(rooms[roomId].View(), clientId).None?
      modifies this`saved, this`clients, rooms[roomId].Footprint()
      ensures rooms == old(rooms) && Valid() && InSync()
      ensures rooms[roomId].View() == DoJoin(old(rooms[roomId].View()), clientId).room
      ensures Files(roomId, clientId) && (old(FilesMembers(roomId)) ==> FilesMembers(roomId))
      ensures fresh(rooms[roomId].Footprint() - old(rooms[roomId].Footprint()))
    {
      hide InSync, InSyncExcept, Filed, Apart, Objects, Room.Footprint, Room.Valid, Room.View, Agrees, DoJoin,
           FilesMembers, FindClient;
      var room := rooms[roomId];
      SyncExcept(roomId);
      FiledUnderId(roomId);
      VersionsAgree(roomId);
      RoomInvariants.CommandsKeepIdentity(room.View(), Join(clientId), now);
      AddMember(roomId, clientId, now);
      RefreshSavedRoom(room);
      AgreesWithCopy(room.View(), saved[roomId].View());
      SyncAt(roomId);
    }

    /** Appends the client to the live room and files it. */
    method AddMember(roomId: string, clientId: string, now: Time)
      requires Valid() && InSyncExcept(roomId) && roomId in rooms
      requires FindClient(rooms[roomId].View(), clientId).None?
      modifies this`clients, rooms[roomId].Footprint()
      ensures rooms == old(rooms) && saved == old(saved) && Valid() && InSyncExcept(roomId) && AllUntouched(saved)
      ensures rooms[roomId].View() == DoJoin(old(rooms[roomId].View()), clientId).room
      ensures Files(roomId, clientId) && (old(FilesMembers(roomId)) ==> FilesMembers(roomId))
      ensures fresh(rooms[roomId].Footprint() - old(rooms[roomId].Footprint()))
    {
      hide InSyncExcept, Filed, Apart, Objects, Room.Footprint, Room.Valid, Room.View, DoJoin, FilesMembers,
           FindClient;
      ghost var before := rooms[roomId].members.clients;
      UnknownId(rooms[roomId], clientId);
      JoinedIsFound(rooms[roomId].View(), clientId);
      var e := Mutate(roomId, Join(clientId), now);
      FileClient(roomId, clientId);
      if old(FilesMembers(roomId)) {
        StillFilesMembers(roomId, clientId, before);
      }
    }

    lemma UnknownId(room: Room, clientId: string)
      requires FindClient(room.View(), clientId).None?
      ensures forall c :: c in room.members.clients ==> c.id != clientId
    {
      forall c | c in room.members.clients
        ensures c.id != clientId
      {
        var i :| 0 <= i < |room.members.clients| && room.members.clients[i] == c;
        assert Ids(room.View().clients)[i] == c.id;
      }
    }

    /** A client that joins under a new ID takes nobody's entry. */
    twostate lemma StillFilesMembers(roomId: string, new clientId: string, new before: seq<Client>)
      requires roomId in old(rooms) && roomId in rooms && rooms[roomId] == old(rooms[roomId])
      requires before == old(rooms[roomId].members.clients) && old(FilesMembers(roomId))
      requires forall c :: c in before ==> c.id != clientId
      requires rooms[roomId].GrewByOne(before, rooms[roomId].members.clients) && Files(roomId, clientId)
      ensures FilesMembers(roomId)
    {
    }

    lemma JoinedIsFound(r: RoomView, clientId: string)
      ensures FindClient(DoJoin(r, clientId).room, clientId).Some?
    {
    }

    /** The table has gained an entry for the ID: a client object of the room. */
    twostate predicate Files(roomId: string, clientId: string)
      requires roomId in rooms
      reads this, rooms[roomId].members
    {
      && clientId in clients && clients == old(clients)[clientId := clients[clientId]]
      && clients[clientId].id == clientId && clients[clientId] in rooms[roomId].Footprint()
    }

    method FileClient(roomId: string, clientId: string)
      requires Valid() && roomId in rooms && FindClient(rooms[roomId].View(), clientId).Some?
      modifies this`clients
      ensures Valid() && Files(roomId, clientId) && AllUntouched(rooms) && AllUntouched(saved)
      ensures old(InSyncExcept(roomId)) ==> InSyncExcept(roomId)
    {
      hide Filed, Apart, Objects, InSyncExcept, Room.View, Room.Footprint;
      rooms[roomId].ClientsInFootprint();
      var c := LiveClient(roomId, clientId);
      clients := clients[clientId := c];
      StillValid();
      if old(InSyncExcept(roomId)) {
        OnlyRoomChanged(roomId);
      }
    }

    method LiveClient(roomId: string, clientId: string) returns (c: Client)
      requires roomId in rooms && FindClient(rooms[roomId].View(), clientId).Some?
      ensures c.id == clientId && c in rooms[roomId].members.clients
    {
      c := rooms[roomId].FindClient(clientId);
    }
  }
}
