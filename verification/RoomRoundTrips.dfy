/** Pairs of commands that undo each other, and what a command that sets something makes readable. */
module RoomRoundTrips {
  import opened Wrappers
  import opened Decks
  import opened Summaries
  import opened RoomModel
  import opened RoomInvariants

  ghost predicate IsOwner(r: RoomView, client: string) {
    OwnerError(r, client).None?
  }

  /** Going to the next story and back only clears the round. */
  lemma AdvanceThenPrev(r: RoomView, client: string)
    requires Inv(r) && IsOwner(r, client) && r.index < |r.stories| - 1
    ensures DoPrevStory(DoAdvanceToNextStory(r, client).room, client) == Done(NewRound(r))
  {
    hide IndexOf;
    var next := DoAdvanceToNextStory(r, client).room;
    SameIds(r.clients, Unvoted(r.clients));
    UnvotedTwice(r.clients);
    assert FindClient(next, client) == FindClient(r, client);
  }

  lemma SameIds(clients: seq<ClientView>, clients': seq<ClientView>)
    requires |clients| == |clients'| && forall i :: 0 <= i < |clients| ==> clients[i].id == clients'[i].id
    ensures Ids(clients) == Ids(clients')
  {
  }

  lemma UnvotedTwice(clients: seq<ClientView>)
    ensures Unvoted(Unvoted(clients)) == Unvoted(clients)
  {
  }

  /** Switching backlog mode on and off again is as if nothing had happened. */
  lemma BacklogModeOnAndOff(r: RoomView, client: string, freshId: string, other: string)
    requires Inv(r) && IsOwner(r, client) && !r.backlog
    ensures DoToggleBacklogMode(DoToggleBacklogMode(r, client, freshId).room, client, other) == Done(r)
  {
    hide IndexOf;
  }

  /** The story title a client sees. */
  function EffectiveCurrentStory(r: RoomView): string {
    if r.backlog && HasCurrentStory(r) then r.stories[r.index].name else r.currentStory
  }

  /** Setting the current story makes it the one shown, in either mode. */
  lemma SetStoryIsShown(r: RoomView, client: string, name: string)
    requires IsOwner(r, client)
    ensures EffectiveCurrentStory(DoSetCurrentStory(r, client, name).room) == name
  {
    hide IndexOf, OwnerError;
  }

  /**
   Switching the mode keeps the title shown, except that a nameless story uncovers an older title when the mode ends.
   */
  lemma ToggleBacklogKeepsTitle(r: RoomView, client: string, freshId: string)
    requires Inv(r) && IsOwner(r, client)
    ensures EffectiveCurrentStory(DoToggleBacklogMode(r, client, freshId).room) == EffectiveCurrentStory(r)
       <==> !r.backlog || r.stories == [] || CurrentStoryName(r) != "" || r.currentStory == ""
  {
    hide IndexOf, OwnerError, ClientsOk;
  }

  /** Adding a story to a backlog that has one, and removing it again, changes nothing. */
  lemma AddThenRemoveStory(r: RoomView, client: string, name: string, freshId: string)
    requires Inv(r) && IsOwner(r, client) && r.stories != [] && FreshIds(r, AddStory(client, name, freshId))
    ensures DoRemoveStory(DoAddStory(r, client, name, freshId).room, client, freshId) == Done(r)
  {
    var added := DoAddStory(r, client, name, freshId).room;
    var n := |r.stories|;
    AppendStory(r.stories, PendingStory(freshId, name));
    assert StoryIds(added.stories)[n] == freshId;
    DistinctIndex(StoryIds(added.stories), n);
    assert RemoveAt(added.stories, n) == r.stories;
  }

  /** Someone who joins and leaves again leaves the room as it was, except that the room may now be revealed. */
  lemma JoinThenLeave(r: RoomView, client: string, now: Time)
    requires Inv(r) && r.clients != [] && FindClient(r, client).None?
    ensures DoRemoveClient(DoJoin(r, client).room, client, now) == Done(CheckReveal(r, now))
  {
    hide RoomModel.CheckReveal, IndexOf, DeckOf, CountOwners, VoterOk;
    var joined := DoJoin(r, client).room;
    var n := |r.clients|;
    assert Ids(joined.clients) == Ids(r.clients) + [client];
    AppendClient(DeckOf(r), r.clients, client);
    assert Ids(joined.clients)[n] == client;
    DistinctIndex(Ids(joined.clients), n);
    assert RemoveAt(joined.clients, n) == r.clients;
    OwnersCounted(r.clients);
  }

  /** A reconnection finds the client that is already there. */
  lemma JoinTwice(r: RoomView, client: string)
    ensures DoJoin(DoJoin(r, client).room, client) == DoJoin(r, client)
  {
    var joined := DoJoin(r, client).room;
    if FindClient(r, client).None? {
      assert joined.clients[|r.clients|].id == client;
      assert joined.clients[|r.clients|] in joined.clients;
    }
  }

  lemma OthersAreNotLastOwner(r: RoomView, client: string, target: string)
    requires Inv(r) && IsOwner(r, client) && client != target
    ensures !IsLastOwner(r, target)
  {
    hide IndexOf, CountOwners, FirstOwner, DeckOf, VoterOk;
    FirstOwnerFound(r.clients);
    if FirstOwner(r.clients).Some? && FirstOwner(r.clients).value.id == target {
      var i := FindClient(r, client).value;
      var j :| 0 <= j < |r.clients| && r.clients[j] == FirstOwner(r.clients).value;
      assert i != j;
      if i < j { OneOwner(r.clients, i, j); } else { OneOwner(r.clients, j, i); }
    }
  }

  /** An owner who toggles another client's ownership twice leaves the room as it was. */
  lemma ToggleOwnerTwice(r: RoomView, client: string, target: string)
    requires Inv(r) && IsOwner(r, client) && client != target && FindClient(r, target).Some?
    ensures DoToggleOwner(DoToggleOwner(r, client, target).room, client, target) == Done(r)
  {
    hide IndexOf, IsLastOwner, Inv, SummaryOf, DeckForType, Cast;
    var flipped := DoToggleOwner(r, client, target).room;
    OthersAreNotLastOwner(r, client, target);
    FlipOwnerKeepsInv(r, target, NotFound);
    SameIds(r.clients, flipped.clients);
    assert FindClient(flipped, client) == FindClient(r, client) && FindClient(flipped, target) == FindClient(r, target);
    OthersAreNotLastOwner(flipped, client, target);
  }
}
