/** What every run of room commands keeps. */
module RoomInvariants {
  import opened Wrappers
  import opened Decks
  import opened Summaries
  import opened RoomModel

  ghost predicate VoterOk(deck: Deck, c: ClientView) {
    && c.hasVoted == Filled(c.vote)
    && c.votedAt.Some? == c.hasVoted
    && (Filled(c.vote) ==> HasCard(deck, c.vote.value))
  }

  ghost predicate HasOwner(clients: seq<ClientView>) {
    exists c :: c in clients && c.owner
  }

  ghost predicate ClientsOk(deck: Deck, clients: seq<ClientView>) {
    && Distinct(Ids(clients))
    && (clients != [] ==> HasOwner(clients))
    && (forall c :: c in clients ==> VoterOk(deck, c))
  }

  ghost predicate BacklogOk(r: RoomView) {
    && Distinct(StoryIds(r.stories))
    && (forall s :: s in r.stories ==> s.id != "")
    && (if r.stories == [] then r.index == 0 else HasCurrentStory(r))
    && (!r.backlog ==> r.stories == [])
  }

  /** The invariant of the aggregate. */
  ghost predicate Inv(r: RoomView) {
    && ClientsOk(DeckOf(r), r.clients)
    && BacklogOk(r)
    && (!r.revealed ==> r.summary == CLEARED)
  }

  /** Generated story identifiers are new and non-empty. */
  ghost predicate FreshIds(r: RoomView, command: Command) {
    match command
    case ToggleBacklogMode(_, freshId) => freshId != "" && freshId !in StoryIds(r.stories)
    case AddStory(_, _, freshId) => freshId != "" && freshId !in StoryIds(r.stories)
    case _ => true
  }

  /** What may happen to a room between commands: its client list is reordered, it is saved, its events are drained. */
  ghost predicate Housekeeping(r: RoomView, r': RoomView) {
    && multiset(r'.clients) == multiset(r.clients)
    && r' == r.(clients := r'.clients, version := r'.version, events := r'.events)
  }

  ghost predicate Commanded(r: RoomView, r': RoomView, command: Command, now: Time) {
    FreshIds(r, command) && r' == Apply(r, command, now).room
  }

  ghost predicate Next(r: RoomView, r': RoomView) {
    Housekeeping(r, r') || exists command, now :: Commanded(r, r', command, now)
  }

  ghost predicate IsRun(run: seq<RoomView>) {
    && run != []
    && (exists id, deckType, startedAt :: run[0] == NewRoom(id, deckType, startedAt))
    && forall i :: 0 <= i < |run| - 1 ==> Next(run[i], run[i + 1])
  }

  // ---- owners -----------------------------------------------------------------

  lemma {:induction false} OwnersCounted(clients: seq<ClientView>)
    ensures CountOwners(clients) > 0 <==> HasOwner(clients)
  {
    if clients != [] {
      var init, last := clients[..|clients| - 1], clients[|clients| - 1];
      OwnersCounted(init);
      assert clients == init + [last];
      assert last in clients;
      assert forall c :: c in clients <==> c in init || c == last;
    }
  }

  lemma {:induction false} OneOwner(clients: seq<ClientView>, i: nat, j: nat)
    requires i < j < |clients| && clients[i].owner && clients[j].owner
    ensures CountOwners(clients) >= 2
  {
    var init := clients[..|clients| - 1];
    if j == |clients| - 1 {
      assert init[i] in init;
      OwnersCounted(init);
    } else {
      OneOwner(init, i, j);
    }
  }

  lemma {:induction false} FirstOwnerFound(clients: seq<ClientView>)
    ensures FirstOwner(clients).Some? <==> HasOwner(clients)
    ensures FirstOwner(clients).Some? ==> FirstOwner(clients).value in clients && FirstOwner(clients).value.owner
  {
    if clients != [] {
      FirstOwnerFound(clients[1..]);
      assert clients[0] in clients;
      assert forall c :: c in clients <==> c == clients[0] || c in clients[1..];
    }
  }

  // ---- client lists --------------------------------------------------------------

  /** Replacing a client by one with the same ID and a valid vote, keeping some owner. */
  lemma ReplaceClient(deck: Deck, clients: seq<ClientView>, i: nat, c: ClientView)
    requires ClientsOk(deck, clients) && i < |clients|
    requires c.id == clients[i].id && VoterOk(deck, c)
    requires c.owner == clients[i].owner || c.owner || exists j :: 0 <= j < |clients| && j != i && clients[j].owner
    ensures ClientsOk(deck, clients[i := c])
  {
    var clients' := clients[i := c];
    assert Ids(clients') == Ids(clients);
    assert HasOwner(clients') by {
      if c.owner {
        assert clients'[i] in clients';
      } else if c.owner == clients[i].owner {
        var o :| o in clients && o.owner;
        var j :| 0 <= j < |clients| && clients[j] == o;
        assert clients'[j] == o;
      } else {
        var j :| 0 <= j < |clients| && j != i && clients[j].owner;
        assert clients'[j] in clients';
      }
    }
  }

  lemma AppendClient(deck: Deck, clients: seq<ClientView>, id: string)
    requires ClientsOk(deck, clients) && id !in Ids(clients)
    ensures ClientsOk(deck, clients + [NewClient(id).(owner := clients == [])])
  {
    var c := NewClient(id).(owner := clients == []);
    var clients' := clients + [c];
    assert Ids(clients') == Ids(clients) + [id];
    assert clients'[|clients|] == c;
    if clients != [] {
      var o :| o in clients && o.owner;
      assert o in clients';
    }
  }

  lemma RemovedIdsStayDistinct(clients: seq<ClientView>, i: nat)
    requires Distinct(Ids(clients)) && i < |clients|
    ensures Distinct(Ids(RemoveAt(clients, i)))
    ensures forall c :: c in RemoveAt(clients, i) ==> c in clients
  {
    var ids, kids := Ids(clients), Ids(RemoveAt(clients, i));
    forall a, b | 0 <= a < b < |kids|
      ensures kids[a] != kids[b]
    {
      assert kids[a] == ids[if a < i then a else a + 1];
      assert kids[b] == ids[if b < i then b else b + 1];
    }
  }

  lemma PromotionGivesOwner(deck: Deck, kept: seq<ClientView>)
    requires Distinct(Ids(kept)) && forall c :: c in kept ==> VoterOk(deck, c)
    ensures ClientsOk(deck, Promote(kept))
  {
    OwnersCounted(kept);
    if CountOwners(kept) == 0 && kept != [] {
      var promoted := Promote(kept);
      assert Ids(promoted) == Ids(kept);
      assert promoted[0] in promoted && kept[0] in kept;
      assert forall c :: c in promoted ==> c == promoted[0] || c in kept;
    }
  }

  /** Removing a client and, if no owner is left, promoting whoever comes first. */
  lemma RemoveAndPromote(deck: Deck, clients: seq<ClientView>, kept: seq<ClientView>)
    requires ClientsOk(deck, clients)
    requires kept == clients || exists i: nat :: i < |clients| && kept == RemoveAt(clients, i)
    ensures ClientsOk(deck, Promote(kept))
  {
    if kept != clients {
      var i: nat :| i < |clients| && kept == RemoveAt(clients, i);
      RemovedIdsStayDistinct(clients, i);
    }
    hide VoterOk;
    PromotionGivesOwner(deck, kept);
  }

  lemma UnvotedClients(deck: Deck, clients: seq<ClientView>)
    requires ClientsOk(deck, clients)
    ensures ClientsOk(deck, Unvoted(clients))
  {
    var clients' := Unvoted(clients);
    assert Ids(clients') == Ids(clients);
    if clients != [] {
      var o :| o in clients && o.owner;
      var j :| 0 <= j < |clients| && clients[j] == o;
      assert clients'[j].owner && clients'[j] in clients';
    }
  }

  lemma {:induction false} OccursOnce(clients: seq<ClientView>, c: ClientView)
    requires Distinct(Ids(clients))
    ensures multiset(clients)[c] <= 1
  {
    if clients != [] {
      var tail := clients[1..];
      assert clients == [clients[0]] + tail;
      assert Ids(tail) == Ids(clients)[1..];
      OccursOnce(tail, c);
      forall j | 0 <= j < |tail|
        ensures tail[j] != clients[0]
      {
        assert Ids(clients)[0] != Ids(clients)[j + 1];
      }
    }
  }

  /** The invariant does not depend on the order of the clients. */
  lemma ReorderClients(deck: Deck, clients: seq<ClientView>, clients': seq<ClientView>)
    requires ClientsOk(deck, clients) && multiset(clients) == multiset(clients')
    ensures ClientsOk(deck, clients')
  {
    assert forall c :: c in clients' <==> c in multiset(clients');
    assert forall c :: c in clients <==> c in multiset(clients);
    if clients' != [] {
      assert clients'[0] in clients;
    }
    var ids, ids' := Ids(clients), Ids(clients');
    forall i, j | 0 <= i < j < |ids'|
      ensures ids'[i] != ids'[j]
    {
      if ids'[i] == ids'[j] {
        assert clients'[i] in clients && clients'[j] in clients;
        var a :| 0 <= a < |clients| && clients[a] == clients'[i];
        var b :| 0 <= b < |clients| && clients[b] == clients'[j];
        assert ids[a] == ids[b];
        assert a == b;
        CountTwice(clients', i, j);
        OccursOnce(clients, clients[a]);
      }
    }
  }

  // ---- rounds ----------------------------------------------------------------------

  lemma NewRoundKeepsInv(r: RoomView)
    requires ClientsOk(DeckOf(r), r.clients) && BacklogOk(r)
    ensures Inv(NewRound(r))
  {
    UnvotedClients(DeckOf(r), r.clients);
  }

  lemma RevealKeepsInv(r: RoomView, now: Time)
    requires Inv(r)
    ensures Inv(Reveal(r, now)) && Inv(CheckReveal(r, now))
  {
    var r' := Reveal(r, now);
    assert StoryIds(r'.stories) == StoryIds(r.stories);
  }

  // ---- story lists -------------------------------------------------------------------

  lemma AppendStory(stories: seq<Story>, s: Story)
    requires Distinct(StoryIds(stories)) && s.id !in StoryIds(stories)
    ensures Distinct(StoryIds(stories + [s]))
  {
    assert StoryIds(stories + [s]) == StoryIds(stories) + [s.id];
  }

  lemma RemoveStoryAt(stories: seq<Story>, i: nat)
    requires Distinct(StoryIds(stories)) && i < |stories|
    ensures Distinct(StoryIds(RemoveAt(stories, i)))
    ensures forall s :: s in RemoveAt(stories, i) ==> s in stories
  {
    var ids, ids' := StoryIds(stories), StoryIds(RemoveAt(stories, i));
    forall a, b | 0 <= a < b < |ids'|
      ensures ids'[a] != ids'[b]
    {
      assert ids'[a] == ids[if a < i then a else a + 1];
      assert ids'[b] == ids[if b < i then b else b + 1];
    }
  }

  /** Where the story at index `i` was before the move. */
  function Origin(i: int, from: int, to: int): int {
    if i == to then from
    else
      var k := if i < to then i else i - 1;
      if k < from then k else k + 1
  }

  lemma MoveElements(stories: seq<Story>, from: nat, to: nat)
    requires from < |stories| && to < |stories|
    ensures forall i :: 0 <= i < |stories| ==>
                          0 <= Origin(i, from, to) < |stories|
                          && Move(stories, from, to)[i] == stories[Origin(i, from, to)]
    ensures forall i :: 0 <= i < |stories| ==>
                          0 <= ShiftedIndex(i, from, to) < |stories|
                          && Origin(ShiftedIndex(i, from, to), from, to) == i
  {
  }

  lemma MoveKeepsIds(stories: seq<Story>, from: nat, to: nat)
    requires Distinct(StoryIds(stories)) && from < |stories| && to < |stories|
    ensures Distinct(StoryIds(Move(stories, from, to)))
    ensures forall s :: s in Move(stories, from, to) ==> s in stories
  {
    MoveElements(stories, from, to);
    var ids, moved := StoryIds(stories), Move(stories, from, to);
    hide Move;
    forall s | s in moved
      ensures s in stories
    {
      var i :| 0 <= i < |moved| && moved[i] == s;
      assert stories[Origin(i, from, to)] == s;
    }
    forall a, b | 0 <= a < b < |moved|
      ensures StoryIds(moved)[a] != StoryIds(moved)[b]
    {
      assert moved[a] == stories[Origin(a, from, to)] && moved[b] == stories[Origin(b, from, to)];
      assert ids[Origin(a, from, to)] != ids[Origin(b, from, to)];
    }
  }

  /** Searching for the current story's ID and shifting its index arrive at the same place. */
  lemma SearchAgreesWithShift(stories: seq<Story>, index: nat, from: nat, to: nat)
    requires Distinct(StoryIds(stories)) && index < |stories| && from < |stories| && to < |stories|
    ensures IndexOf(StoryIds(Move(stories, from, to)), stories[index].id) == Some(ShiftedIndex(index, from, to))
  {
    MoveElements(stories, from, to);
    MoveKeepsIds(stories, from, to);
    DistinctIndex(StoryIds(Move(stories, from, to)), ShiftedIndex(index, from, to));
  }

  // ---- every command keeps the invariant ------------------------------------------------

  lemma ClientCommandsKeepInv(r: RoomView, command: Command, now: Time)
    requires Inv(r)
    requires command.Join? || command.RemoveClient? || command.UpdateClientName?
    ensures Inv(Apply(r, command, now).room)
  {
    hide SummaryOf, DeckForType, CountOwners, IndexOf, Unvoted, Cast;
    var deck := DeckOf(r);
    match command {
      case Join(client) =>
        if FindClient(r, client).None? {
          AppendClient(deck, r.clients, client);
        }
      case RemoveClient(client) =>
        RemoveAndPromote(deck, r.clients, Without(r, client));
        RevealKeepsInv(r.(clients := Promote(Without(r, client))), now);
      case UpdateClientName(client, name) =>
        if FindClient(r, client).Some? {
          var i := FindClient(r, client).value;
          assert r.clients[i] in r.clients;
          ReplaceClient(deck, r.clients, i, r.clients[i].(name := name));
        }
    }
  }

  lemma VotingCommandsKeepInv(r: RoomView, command: Command, now: Time)
    requires Inv(r)
    requires command.Vote? || command.ToggleReveal? || command.ResetVoting? || command.ToggleSpectator?
    ensures Inv(Apply(r, command, now).room)
  {
    hide SummaryOf, DeckForType, CountOwners, IndexOf, Unvoted, Cast;
    var deck := DeckOf(r);
    match command {
      case Vote(client, vote) =>
        RevealKeepsInv(r, now);
        if FindClient(r, client).Some? && !r.revealed && (Filled(vote) ==> HasCard(deck, vote.value)) {
          var i := FindClient(r, client).value;
          ReplaceClient(deck, r.clients, i, ApplyVote(r.clients[i], vote, now));
          RevealKeepsInv(RecordVote(r, i, vote, now), now);
        }
      case ToggleReveal(client) =>
        RevealKeepsInv(r, now);
      case ResetVoting(client) =>
        NewRoundKeepsInv(r);
      case ToggleSpectator(client, target) =>
        if FindClient(r, target).Some? {
          var i := FindClient(r, target).value;
          var toggled := r.clients[i].(spectator := !r.clients[i].spectator);
          var c := if r.revealed then toggled else ApplyVote(toggled, None, now);
          assert r.clients[i] in r.clients;
          ReplaceClient(deck, r.clients, i, c);
          RevealKeepsInv(r.(clients := r.clients[i := c]), now);
        }
    }
  }

  /** Flipping an owner flag is safe unless it takes the flag from the only owner. */
  lemma FlipOwnerKeepsInv(r: RoomView, target: string, missing: Error)
    requires Inv(r) && !IsLastOwner(r, target)
    ensures Inv(FlipOwner(r, target, missing).room)
  {
    hide SummaryOf, DeckForType, CountOwners, IndexOf, Unvoted, Cast;
    if FindClient(r, target).Some? {
      var i := FindClient(r, target).value;
      var c := r.clients[i];
      if c.owner && forall j :: 0 <= j < |r.clients| && j != i ==> !r.clients[j].owner {
        assert c in r.clients;
        OwnersCounted(r.clients);
        FirstOwnerFound(r.clients);
        SoleOwnerCount(r.clients, i);
        assert false;
      }
      assert c in r.clients;
      ReplaceClient(DeckOf(r), r.clients, i, c.(owner := !c.owner));
    }
  }

  lemma {:induction false} SoleOwnerCount(clients: seq<ClientView>, i: nat)
    requires i < |clients| && clients[i].owner
    requires forall j :: 0 <= j < |clients| && j != i ==> !clients[j].owner
    ensures CountOwners(clients) == 1
  {
    var init := clients[..|clients| - 1];
    if i == |clients| - 1 {
      OwnersCounted(init);
    } else {
      SoleOwnerCount(init, i);
    }
  }

  lemma OwnerCommandsKeepInv(r: RoomView, command: Command, now: Time)
    requires Inv(r)
    requires command.ToggleOwner? || command.AdminToggleOwner?
    ensures Inv(Apply(r, command, now).room)
  {
    hide SummaryOf, DeckForType, CountOwners, IndexOf, Unvoted, Cast;
    match command {
      case ToggleOwner(client, target) =>
        if !IsLastOwner(r, target) { FlipOwnerKeepsInv(r, target, NotFound); }
      case AdminToggleOwner(target) =>
        if !IsLastOwner(r, target) { FlipOwnerKeepsInv(r, target, ClientNotFound); }
    }
  }

  lemma RemoveStoryKeepsInv(r: RoomView, client: string, story: string)
    requires Inv(r)
    ensures Inv(DoRemoveStory(r, client, story).room)
  {
    if IndexOf(StoryIds(r.stories), story).Some? {
      var i := IndexOf(StoryIds(r.stories), story).value;
      RemoveStoryAt(r.stories, i);
      var kept := r.(stories := RemoveAt(r.stories, i));
      if i == r.index {
        NewRoundKeepsInv(kept.(index := if |r.stories| == 1 then 0 else if i == |r.stories| - 1
            then r.index - 1 else r.index));
      }
    }
  }

  lemma ReorderStoryKeepsInv(r: RoomView, client: string, story: string, target: int)
    requires Inv(r)
    ensures Inv(DoReorderStory(r, client, story, target).room)
  {
    if 0 <= target < |r.stories| && IndexOf(StoryIds(r.stories), story).Some? {
      var from := IndexOf(StoryIds(r.stories), story).value;
      MoveKeepsIds(r.stories, from, target);
      MoveElements(r.stories, from, target);
      SearchAgreesWithShift(r.stories, r.index, from, target);
      assert r.stories[r.index] in r.stories;
    }
  }

  lemma StoryListCommandsKeepInv(r: RoomView, command: Command, now: Time)
    requires Inv(r) && FreshIds(r, command)
    requires command.ToggleBacklogMode? || command.AddStory? || command.SetCurrentStory?
    ensures Inv(Apply(r, command, now).room)
  {
    hide DeckForType, IndexOf, OwnerError, ClientsOk;
    match command {
      case ToggleBacklogMode(client, freshId) =>
      case AddStory(client, name, freshId) =>
        AppendStory(r.stories, PendingStory(freshId, name));
      case SetCurrentStory(client, name) =>
        assert StoryIds(Apply(r, command, now).room.stories) == StoryIds(r.stories);
    }
  }

  /** The commands that pick another story all open a new round at a valid index. */
  lemma NewRoundAt(r: RoomView, i: int, events: seq<Event>)
    requires Inv(r) && 0 <= i < |r.stories|
    ensures Inv(NewRound(r.(index := i, events := events)))
  {
    NewRoundKeepsInv(r.(index := i, events := events));
  }

  lemma NavigationCommandsKeepInv(r: RoomView, command: Command, now: Time)
    requires Inv(r)
    requires command.SelectStory? || command.AdvanceToNextStory? || command.PrevStory?
    ensures Inv(Apply(r, command, now).room)
  {
    hide SummaryOf, DeckForType, CountOwners, IndexOf, Unvoted, Cast;
    match command {
      case SelectStory(client, story) =>
        if IndexOf(StoryIds(r.stories), story).Some? {
          NewRoundAt(r, IndexOf(StoryIds(r.stories), story).value, r.events + [StorySelected(story, now)]);
        }
      case AdvanceToNextStory(client) =>
        if r.index < |r.stories| - 1 { NewRoundAt(r, r.index + 1, r.events); }
      case PrevStory(client) =>
        if r.index > 0 { NewRoundAt(r, r.index - 1, r.events); }
    }
  }

  /** Every command keeps the invariant, whether it succeeds or reports an error. */
  lemma CommandsKeepInv(r: RoomView, command: Command, now: Time)
    requires Inv(r) && FreshIds(r, command)
    ensures Inv(Apply(r, command, now).room)
  {
    if command.Join? || command.RemoveClient? || command.UpdateClientName? {
      ClientCommandsKeepInv(r, command, now);
    } else if command.Vote? || command.ToggleReveal? || command.ResetVoting? || command.ToggleSpectator? {
      VotingCommandsKeepInv(r, command, now);
    } else if command.ToggleOwner? || command.AdminToggleOwner? {
      OwnerCommandsKeepInv(r, command, now);
    } else if command.ToggleBacklogMode? || command.AddStory? || command.SetCurrentStory? {
      StoryListCommandsKeepInv(r, command, now);
    } else if command.SelectStory? || command.AdvanceToNextStory? || command.PrevStory? {
      NavigationCommandsKeepInv(r, command, now);
    } else if command.RemoveStory? {
      RemoveStoryKeepsInv(r, command.client, command.story);
    } else {
      ReorderStoryKeepsInv(r, command.client, command.story, command.targetIndex);
    }
  }

  lemma NextKeepsInv(r: RoomView, r': RoomView)
    requires Inv(r) && Next(r, r')
    ensures Inv(r')
  {
    if Housekeeping(r, r') {
      ReorderClients(DeckOf(r), r.clients, r'.clients);
    } else {
      var command, now :| Commanded(r, r', command, now);
      CommandsKeepInv(r, command, now);
    }
  }

  /** Main result: the invariant holds after any number of steps from a new room. */
  lemma {:induction false} RunsKeepInv(run: seq<RoomView>, n: nat)
    requires IsRun(run) && n < |run|
    ensures Inv(run[n])
  {
    if n > 0 {
      RunsKeepInv(run, n - 1);
      NextKeepsInv(run[n - 1], run[n]);
    }
  }

  /** A command that reports an error leaves the room as it was. */
  lemma ErrorsChangeNothing(r: RoomView, command: Command, now: Time)
    requires Apply(r, command, now).error.Some?
    ensures Apply(r, command, now).room == r
  {
    hide SummaryOf, DeckForType, CountOwners, IndexOf, Unvoted, Cast;
  }

  predicate SameRoom(r: RoomView, r': RoomView) {
    r'.id == r.id && r'.startedAt == r.startedAt && r'.deckType == r.deckType && r'.version == r.version
  }

  lemma BacklogCommandsKeepIdentity(r: RoomView, command: Command, now: Time)
    requires command.RemoveStory? || command.SelectStory? || command.ReorderStory? || command.AdvanceToNextStory?
             || command.PrevStory? || command.SetCurrentStory? || command.AddStory? || command.ToggleBacklogMode?
    ensures SameRoom(r, Apply(r, command, now).room)
  {
    hide OwnerError, IndexOf, Unvoted, Move, RemoveAt, StoryIds, HasCurrentStory;
  }

  lemma OtherCommandsKeepIdentity(r: RoomView, command: Command, now: Time)
    requires !(command.RemoveStory? || command.SelectStory? || command.ReorderStory? || command.AdvanceToNextStory?
               || command.PrevStory? || command.SetCurrentStory? || command.AddStory? || command.ToggleBacklogMode?)
    ensures SameRoom(r, Apply(r, command, now).room)
  {
    hide SummaryOf, DeckForType, DeckOf, OwnerError, CountOwners, FirstOwner, FindClient, Unvoted, Cast,
         Estimate, Promote, Without, ApplyVote, AllVoted, IsLastOwner, Filled, HasCurrentStory, NewClient;
  }

  /** No command changes which room it is, its deck or its version. */
  lemma CommandsKeepIdentity(r: RoomView, command: Command, now: Time)
    ensures SameRoom(r, Apply(r, command, now).room)
  {
    hide Apply, SameRoom;
    if command.RemoveStory? || command.SelectStory? || command.ReorderStory? || command.AdvanceToNextStory?
       || command.PrevStory? || command.SetCurrentStory? || command.AddStory? || command.ToggleBacklogMode? {
      BacklogCommandsKeepIdentity(r, command, now);
    } else {
      OtherCommandsKeepIdentity(r, command, now);
    }
  }
}
