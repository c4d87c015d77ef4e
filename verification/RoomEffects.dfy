/**
 What each command does to a room, told in terms of the room before and after: who is refused and why, which fields
 change and which stay. Nothing here mentions how the commands are computed.
 */
module RoomEffects {
  import opened Wrappers
  import opened Decks
  import opened Summaries
  import opened RoomModel

  // ---- who is who ------------------------------------------------------------------

  predicate Has(clients: seq<ClientView>, id: string) {
    exists c :: c in clients && c.id == id
  }

  /** `i` is the first client with the ID. */
  ghost predicate IsFirst(clients: seq<ClientView>, i: nat, id: string) {
    i < |clients| && clients[i].id == id && forall j :: 0 <= j < i ==> clients[j].id != id
  }

  ghost predicate IsFirstStory(stories: seq<Story>, i: nat, id: string) {
    i < |stories| && stories[i].id == id && forall j :: 0 <= j < i ==> stories[j].id != id
  }

  ghost predicate Owns(r: RoomView, id: string) {
    exists i: nat :: IsFirst(r.clients, i, id) && r.clients[i].owner
  }

  lemma Found(r: RoomView, id: string)
    ensures FindClient(r, id).Some? <==> Has(r.clients, id)
    ensures FindClient(r, id).Some? ==> IsFirst(r.clients, FindClient(r, id).value, id)
  {
    if FindClient(r, id).Some? {
      var i := FindClient(r, id).value;
      assert r.clients[i] in r.clients;
      forall j | 0 <= j < i
        ensures r.clients[j].id != id
      {
        assert Ids(r.clients)[..i][j] == r.clients[j].id;
      }
    }
  }

  lemma FoundStory(stories: seq<Story>, id: string)
    ensures IndexOf(StoryIds(stories), id).Some? <==> exists s :: s in stories && s.id == id
    ensures IndexOf(StoryIds(stories), id).Some? ==> IsFirstStory(stories, IndexOf(StoryIds(stories), id).value, id)
  {
    match IndexOf(StoryIds(stories), id) {
      case None =>
        forall s | s in stories
          ensures s.id != id
        {
          var i :| 0 <= i < |stories| && stories[i] == s;
          assert StoryIds(stories)[i] == s.id;
        }
      case Some(i) =>
        assert stories[i] in stories;
        forall j | 0 <= j < i
          ensures stories[j].id != id
        {
          assert StoryIds(stories)[..i][j] == stories[j].id;
        }
    }
  }

  lemma FoundOwner(r: RoomView, id: string)
    ensures OwnerError(r, id) == if !Has(r.clients, id) then Some(NotFound)
                                 else if Owns(r, id) then None else Some(Forbidden)
  {
    Found(r, id);
    hide IndexOf, FindClient, Has;
    if FindClient(r, id).Some? {
      var i := FindClient(r, id).value;
      assert forall j: nat :: IsFirst(r.clients, j, id) ==> j == i;
    }
  }

  // ---- the owner's commands ----------------------------------------------------------

  predicate IsOwnerCommand(command: Command) {
    !command.Join? && !command.RemoveClient? && !command.Vote? && !command.AdminToggleOwner?
    && !command.UpdateClientName?
  }

  /** Twelve commands are refused to strangers and to clients that do not own the room. */
  lemma OnlyOwnersMay(r: RoomView, command: Command, now: Time)
    requires IsOwnerCommand(command)
    ensures !Has(r.clients, command.client) ==> Apply(r, command, now) == Outcome(r, Some(NotFound))
    ensures Has(r.clients, command.client) && !Owns(r, command.client) ==>
              Apply(r, command, now) == Outcome(r, Some(Forbidden))
  {
    FoundOwner(r, command.client);
    hide Has, Owns, OwnerError;
  }

  // ---- what a reveal and a new round look like -----------------------------------------

  /** Of all the clients only the first one with the ID may have changed. */
  ghost predicate OnlyClient(r: RoomView, r': RoomView, id: string) {
    && |r'.clients| == |r.clients|
    && forall i :: 0 <= i < |r.clients| && !IsFirst(r.clients, i, id) ==> r'.clients[i] == r.clients[i]
  }

  /** Nothing but the listed parts of the room has changed. */
  ghost predicate OnlyClientsChange(r: RoomView, r': RoomView) {
    r' == r.(clients := r'.clients)
  }

  const NOTHING_SHOWN: Summary := Summary(None, [], Unset, None, None, None, None, 0)

  /** The votes are cleared, the round is hidden and nothing is shown. */
  ghost predicate StartsRound(r: RoomView, r': RoomView) {
    && r' == r.(revealed := false, summary := NOTHING_SHOWN, clients := r'.clients)
    && |r'.clients| == |r.clients|
    && forall i :: 0 <= i < |r.clients| ==>
         r'.clients[i] == r.clients[i].(vote := None, hasVoted := false, votedAt := None)
  }

  /** The current story of a backlog gets the estimate; no other story changes. */
  ghost predicate EstimatesCurrent(r: RoomView, r': RoomView) {
    && |r'.stories| == |r.stories|
    && forall j :: 0 <= j < |r.stories| ==>
         var s, s' := r.stories[j], r'.stories[j];
         if r.backlog && j == r.index then
           && s'.id == s.id && s'.name == s.name && s'.voted
           && s'.result == r'.summary.result && s'.mostAppearing == r'.summary.mostAppearing
         else s' == s
  }

  /** A hidden round is opened. */
  ghost predicate Shows(r: RoomView, r': RoomView, now: Time) {
    && r'.revealed && r'.summary == SummaryOf(DeckForType(r.deckType), Cast(r.clients))
    && EstimatesCurrent(r, r')
    && r' == r.(revealed := true, summary := r'.summary, stories := r'.stories, events := r'.events)
    && var shown := r.events + [VotesRevealed(r'.summary.result, r'.summary.consensus, now)];
       if r.backlog && 0 <= r.index < |r.stories| && r.stories[r.index].id != ""
       then r'.events == shown + [StoryEstimated(r.stories[r.index].id, r'.summary.result, now)]
       else r'.events == shown
  }

  /** The round opens as soon as every active client has voted. */
  ghost predicate Settles(r: RoomView, r': RoomView, now: Time) {
    if r.revealed || exists c :: c in r.clients && !c.spectator && !c.hasVoted then r' == r else Shows(r, r', now)
  }

  lemma RevealShows(r: RoomView, now: Time)
    requires !r.revealed
    ensures Shows(r, Reveal(r, now), now)
  {
    hide SummaryOf, Cast, DeckForType;
  }

  lemma CheckSettles(r: RoomView, now: Time)
    ensures Settles(r, CheckReveal(r, now), now)
  {
    hide Reveal, Shows;
    if !r.revealed { RevealShows(r, now); }
    RevealedStays(r, now);
  }

  lemma RevealedStays(r: RoomView, now: Time)
    ensures r.revealed ==> Reveal(r, now) == r
  {
  }

  lemma RoundStarts(r: RoomView)
    ensures StartsRound(r, NewRound(r))
  {
  }

  // ---- votes ------------------------------------------------------------------------------

  predicate IsEmptyVote(vote: Option<string>) {
    vote == None || vote == Some("")
  }

  /** The client's vote, flag and time after a vote that counts or clears. */
  predicate CarriesVote(c: ClientView, c': ClientView, vote: Option<string>, now: Time) {
    && c'.vote == vote
    && c'.hasVoted == !IsEmptyVote(vote)
    && c'.votedAt == (if IsEmptyVote(vote) then None else Some(now))
    && c'.id == c.id && c'.name == c.name && c'.spectator == c.spectator && c'.owner == c.owner
  }

  /**
   Main result for votes: strangers and foreign cards are refused; an open round records nothing; in a hidden one the
   vote is the client's, is announced unless it is empty, and may open the round.
   */
  lemma VoteEffect(r: RoomView, client: string, vote: Option<string>, now: Time)
    ensures var out := Apply(r, Vote(client, vote), now);
            && (out.error == Some(NotFound) <==> !Has(r.clients, client))
            && (out.error == Some(Validation) <==>
                  && Has(r.clients, client) && !IsEmptyVote(vote)
                  && vote.value !in DeckForType(r.deckType).cards)
            && (out.error.Some? ==> (out.error == Some(NotFound) || out.error == Some(Validation)) && out.room == r)
            && (out.error.None? && r.revealed ==> out.room == r)
            && (out.error.None? && !r.revealed ==> Votes(r, out.room, client, vote, now))
  {
    Found(r, client);
    var out := Apply(r, Vote(client, vote), now);
    hide Has, FindClient, Reveal, Settles, Shows, DeckForType;
    RevealedStays(r, now);
    if out.error.None? && !r.revealed {
      VoteRecorded(r, client, vote, now);
    }
  }

  ghost predicate Votes(r: RoomView, r': RoomView, client: string, vote: Option<string>, now: Time) {
    && OnlyClient(r, r', client)
    && (forall i: nat :: IsFirst(r.clients, i, client) ==> CarriesVote(r.clients[i], r'.clients[i], vote, now))
    && Settles(
         r.(clients := r'.clients,
            events := r.events + if IsEmptyVote(vote) then [] else [VoteCast(client, vote.value, now)]),
         r', now)
  }

  lemma VoteRecorded(r: RoomView, client: string, vote: Option<string>, now: Time)
    requires !r.revealed && Apply(r, Vote(client, vote), now).error.None?
    ensures Votes(r, Apply(r, Vote(client, vote), now).room, client, vote, now)
  {
    hide IndexOf, HasCard, DeckForType, CheckReveal, Settles, OnlyClient, IsFirst, RecordVote, CarriesVote;
    Found(r, client);
    var i := FindClient(r, client).value;
    var recorded := RecordVote(r, i, vote, now);
    RecordsVote(r, client, i, vote, now);
    CheckSettles(recorded, now);
    SettledClients(recorded, CheckReveal(recorded, now), now);
    OnlyClientOf(r, recorded, CheckReveal(recorded, now), client);
  }

  lemma RecordsVote(r: RoomView, client: string, i: nat, vote: Option<string>, now: Time)
    requires FindClient(r, client) == Some(i)
    ensures var r' := RecordVote(r, i, vote, now);
            && OnlyClient(r, r', client) && CarriesVote(r.clients[i], r'.clients[i], vote, now)
            && r' == r.(clients := r'.clients,
                        events := r.events + if IsEmptyVote(vote) then [] else [VoteCast(client, vote.value, now)])
            && forall j: nat :: IsFirst(r.clients, j, client) ==> j == i
  {
    OneClientChanged(r, client, i, ApplyVote(r.clients[i], vote, now));
    hide IndexOf, IsFirst;
  }

  lemma SettledClients(r: RoomView, r': RoomView, now: Time)
    requires Settles(r, r', now)
    ensures r'.clients == r.clients
  {
  }

  lemma OneClientChanged(r: RoomView, id: string, i: nat, c': ClientView)
    requires FindClient(r, id) == Some(i)
    ensures i < |r.clients| && IsFirst(r.clients, i, id) && Has(r.clients, id)
    ensures OnlyClient(r, r.(clients := r.clients[i := c']), id)
    ensures forall j: nat :: IsFirst(r.clients, j, id) ==> j == i
  {
    Found(r, id);
    hide IndexOf, FindClient, Has;
  }

  // ---- rounds -----------------------------------------------------------------------------------

  /** The owner opens a hidden round and hides an open one; hiding keeps the votes. */
  lemma ToggleRevealEffect(r: RoomView, client: string, now: Time)
    requires Owns(r, client)
    ensures var out := Apply(r, ToggleReveal(client), now);
            && out.error.None?
            && if r.revealed then out.room == r.(revealed := false, summary := NOTHING_SHOWN)
               else Shows(r, out.room, now)
  {
    OwnerFound(r, client);
    hide Owns, OwnerError, Reveal, Shows;
    if !r.revealed { RevealShows(r, now); }
  }

  lemma OwnerFound(r: RoomView, client: string)
    requires Owns(r, client)
    ensures OwnerError(r, client).None? && Has(r.clients, client)
  {
    FoundOwner(r, client);
    var i: nat :| IsFirst(r.clients, i, client) && r.clients[i].owner;
    assert r.clients[i] in r.clients;
  }

  lemma ResetVotingEffect(r: RoomView, client: string, now: Time)
    requires Owns(r, client)
    ensures var out := Apply(r, ResetVoting(client), now);
            out.error.None? && StartsRound(r, out.room)
  {
    OwnerFound(r, client);
    RoundStarts(r);
    hide Owns, OwnerError, NewRound, StartsRound;
  }

  // ---- clients --------------------------------------------------------------------------------------

  /** Someone new comes last, without a vote, and owns the room if nobody else is in it. */
  lemma JoinEffect(r: RoomView, client: string, now: Time)
    ensures var out := Apply(r, Join(client), now);
            && out.error.None?
            && out.room == if Has(r.clients, client) then r
                           else r.(clients := r.clients
                                              + [ClientView(client, "", None, false, None, false, |r.clients| == 0)])
  {
    Found(r, client);
    hide Has, IndexOf, FindClient;
  }

  /** With no owner left, the first client becomes one; nobody else changes. */
  ghost predicate Inherits(kept: seq<ClientView>, clients: seq<ClientView>) {
    && |clients| == |kept|
    && forall i :: 0 <= i < |kept| ==>
         clients[i] == if i == 0 && (forall c :: c in kept ==> !c.owner) then kept[i].(owner := true) else kept[i]
  }

  /** The clients without the first one with the ID. */
  ghost predicate LeavesOut(clients: seq<ClientView>, kept: seq<ClientView>, id: string) {
    && (!Has(clients, id) ==> kept == clients)
    && forall i: nat :: IsFirst(clients, i, id) ==> kept == clients[..i] + clients[i + 1..]
  }

  lemma {:induction false} NobodyOwns(clients: seq<ClientView>)
    ensures CountOwners(clients) == 0 <==> forall c :: c in clients ==> !c.owner
  {
    if clients != [] {
      var init, last := clients[..|clients| - 1], clients[|clients| - 1];
      NobodyOwns(init);
      assert clients == init + [last];
      assert forall c :: c in clients <==> c in init || c == last;
    }
  }

  lemma PromoteInherits(kept: seq<ClientView>)
    ensures Inherits(kept, Promote(kept))
  {
    NobodyOwns(kept);
    hide CountOwners;
  }

  lemma WithoutLeavesOut(r: RoomView, client: string)
    ensures LeavesOut(r.clients, Without(r, client), client)
  {
    Found(r, client);
    hide IndexOf, FindClient, Has;
    if FindClient(r, client).Some? {
      OneClientChanged(r, client, FindClient(r, client).value, r.clients[0]);
    }
  }

  lemma RemoveClientEffect(r: RoomView, client: string, now: Time) returns (kept: seq<ClientView>)
    ensures var out := Apply(r, RemoveClient(client), now);
            && out.error.None?
            && LeavesOut(r.clients, kept, client) && Inherits(kept, out.room.clients)
            && Settles(r.(clients := out.room.clients), out.room, now)
  {
    kept := Without(r, client);
    var left := r.(clients := Promote(kept));
    WithoutLeavesOut(r, client);
    PromoteInherits(kept);
    CheckSettles(left, now);
    SettledClients(left, CheckReveal(left, now), now);
    hide Without, Promote, CheckReveal, LeavesOut, Inherits, Settles;
  }

  /** The flag flips; the vote is cleared in a hidden round and kept in an open one. */
  ghost predicate Benches(c: ClientView, c': ClientView, revealed: bool) {
    c' == c.(spectator := !c.spectator,
             vote := if revealed then c.vote else None,
             hasVoted := revealed && c.hasVoted,
             votedAt := if revealed then c.votedAt else None)
  }

  lemma ToggleSpectatorEffect(r: RoomView, client: string, target: string, now: Time)
    requires Owns(r, client)
    ensures var out := Apply(r, ToggleSpectator(client, target), now);
            && (!Has(r.clients, target) ==> out == Outcome(r, Some(NotFound)))
            && (Has(r.clients, target) ==>
                  && out.error.None?
                  && OnlyClient(r, out.room, target)
                  && (forall i: nat :: IsFirst(r.clients, i, target) ==>
                                         Benches(r.clients[i], out.room.clients[i], r.revealed))
                  && Settles(r.(clients := out.room.clients), out.room, now))
  {
    OwnerFound(r, client);
    Found(r, target);
    var out := Apply(r, ToggleSpectator(client, target), now);
    hide Owns, OwnerError, Has, FindClient, CheckReveal, Settles, OnlyClient;
    if FindClient(r, target).Some? {
      var i := FindClient(r, target).value;
      var c' := r.clients[i].(spectator := !r.clients[i].spectator);
      var benched := if r.revealed then c' else ApplyVote(c', None, now);
      var changed := r.(clients := r.clients[i := benched]);
      OneClientChanged(r, target, i, benched);
      CheckSettles(changed, now);
      SettledClients(changed, CheckReveal(changed, now), now);
      OnlyClientOf(r, changed, out.room, target);
    }
  }

  lemma OnlyClientOf(r: RoomView, a: RoomView, b: RoomView, id: string)
    requires OnlyClient(r, a, id) && a.clients == b.clients
    ensures OnlyClient(r, b, id)
  {
  }

  // ---- ownership ----------------------------------------------------------------------------------------

  /** Nobody but the first client with the ID owns the room. */
  ghost predicate IsSoleOwner(clients: seq<ClientView>, id: string) {
    exists i :: 0 <= i < |clients| && clients[i].owner && clients[i].id == id
                && forall j :: 0 <= j < |clients| && j != i ==> !clients[j].owner
  }

  /** The flag of the first client with the ID flips, and nothing else. */
  ghost predicate Flips(r: RoomView, r': RoomView, target: string) {
    && OnlyClientsChange(r, r') && OnlyClient(r, r', target)
    && forall i: nat :: IsFirst(r.clients, i, target) ==>
         r'.clients[i] == r.clients[i].(owner := !r.clients[i].owner)
  }

  lemma {:induction false} FirstOwnerIs(clients: seq<ClientView>)
    ensures FirstOwner(clients).Some? ==>
              exists i :: 0 <= i < |clients| && clients[i].owner && clients[i] == FirstOwner(clients).value
    ensures FirstOwner(clients).None? ==> forall i :: 0 <= i < |clients| ==> !clients[i].owner
  {
    if clients != [] && !clients[0].owner {
      FirstOwnerIs(clients[1..]);
    }
  }

  lemma {:induction false} OneOwner(clients: seq<ClientView>, i: nat)
    requires i < |clients| && clients[i].owner
    ensures CountOwners(clients) == 1 <==> forall j :: 0 <= j < |clients| && j != i ==> !clients[j].owner
    ensures CountOwners(clients) >= 1
  {
    var n := |clients| - 1;
    var init := clients[..n];
    NobodyOwns(init);
    assert forall c :: c in init ==> exists j :: 0 <= j < n && clients[j] == c;
    assert forall j :: 0 <= j < n ==> clients[j] in init;
    if i < n {
      OneOwner(init, i);
    }
  }

  lemma LastOwnerIsSole(r: RoomView, target: string)
    ensures IsLastOwner(r, target) <==> IsSoleOwner(r.clients, target)
  {
    FirstOwnerIs(r.clients);
    NobodyOwns(r.clients);
    hide FirstOwner, CountOwners;
    if FirstOwner(r.clients).Some? {
      var i :| 0 <= i < |r.clients| && r.clients[i].owner && r.clients[i] == FirstOwner(r.clients).value;
      OneOwner(r.clients, i);
    }
  }

  lemma FlipsOwner(r: RoomView, target: string, missing: Error)
    ensures !Has(r.clients, target) ==> FlipOwner(r, target, missing) == Outcome(r, Some(missing))
    ensures Has(r.clients, target) ==>
              FlipOwner(r, target, missing).error.None? && Flips(r, FlipOwner(r, target, missing).room, target)
  {
    Found(r, target);
    hide Has, FindClient;
    if FindClient(r, target).Some? {
      var i := FindClient(r, target).value;
      OneClientChanged(r, target, i, r.clients[i].(owner := !r.clients[i].owner));
    }
  }

  /** An owner's toggle of the last owner does nothing and says nothing. */
  lemma ToggleOwnerEffect(r: RoomView, client: string, target: string, now: Time)
    requires Owns(r, client)
    ensures var out := Apply(r, ToggleOwner(client, target), now);
            if IsSoleOwner(r.clients, target) then out == Outcome(r, None)
            else if !Has(r.clients, target) then out == Outcome(r, Some(NotFound))
            else out.error.None? && Flips(r, out.room, target)
  {
    hide Owns, OwnerError, IsSoleOwner, IsLastOwner, Has, Flips, FlipOwner, IsFirst;
    OwnerFound(r, client);
    LastOwnerIsSole(r, target);
    FlipsOwner(r, target, NotFound);
  }

  /** An administrator's is refused. */
  lemma AdminToggleOwnerEffect(r: RoomView, target: string, now: Time)
    ensures var out := Apply(r, AdminToggleOwner(target), now);
            if IsSoleOwner(r.clients, target) then out == Outcome(r, Some(LastOwner))
            else if !Has(r.clients, target) then out == Outcome(r, Some(ClientNotFound))
            else out.error.None? && Flips(r, out.room, target)
  {
    LastOwnerIsSole(r, target);
    FlipsOwner(r, target, ClientNotFound);
    hide IsSoleOwner, IsLastOwner, Has, Flips, FlipOwner;
  }

  lemma UpdateClientNameEffect(r: RoomView, client: string, name: string, now: Time)
    ensures var out := Apply(r, UpdateClientName(client, name), now);
            if !Has(r.clients, client) then out == Outcome(r, Some(NotFound))
            else
              && out.error.None? && OnlyClientsChange(r, out.room) && OnlyClient(r, out.room, client)
              && forall i: nat :: IsFirst(r.clients, i, client) ==>
                   out.room.clients[i] == r.clients[i].(name := name)
  {
    Found(r, client);
    hide Has, FindClient;
    if FindClient(r, client).Some? {
      var i := FindClient(r, client).value;
      OneClientChanged(r, client, i, r.clients[i].(name := name));
    }
  }

  // ---- the backlog ----------------------------------------------------------------------------------------

  function NewStory(id: string, name: string): Story {
    Story(id, name, None, [], false)
  }

  /** On: the title, if any, becomes the first story. Off: the current story's name, if any, becomes the title. */
  lemma ToggleBacklogModeEffect(r: RoomView, client: string, freshId: string, now: Time)
    requires Owns(r, client)
    ensures var out := Apply(r, ToggleBacklogMode(client, freshId), now);
            && out.error.None? && out.room.backlog != r.backlog
            && out.room == r.(backlog := out.room.backlog, stories := out.room.stories, index := out.room.index,
                              currentStory := out.room.currentStory)
            && (!r.backlog && r.currentStory == "" ==> out.room == r.(backlog := true))
            && (!r.backlog && r.currentStory != "" ==>
                  && out.room.stories == [NewStory(freshId, r.currentStory)] && out.room.index == 0
                  && out.room.currentStory == r.currentStory)
            && (r.backlog ==> out.room.stories == [] && out.room.index == 0)
            && (r.backlog && 0 <= r.index < |r.stories| && r.stories[r.index].name != "" ==>
                  out.room.currentStory == r.stories[r.index].name)
            && (r.backlog && !(0 <= r.index < |r.stories| && r.stories[r.index].name != "") ==>
                  out.room.currentStory == r.currentStory)
  {
    OwnerFound(r, client);
    hide Owns, OwnerError;
  }

  lemma AddStoryEffect(r: RoomView, client: string, name: string, freshId: string, now: Time)
    requires Owns(r, client)
    ensures var out := Apply(r, AddStory(client, name, freshId), now);
            && out.error.None? && out.room.backlog
            && out.room.stories == r.stories + [NewStory(freshId, name)]
            && out.room.index == (if |out.room.stories| == 1 then 0 else r.index)
            && out.room == r.(backlog := true, stories := out.room.stories, index := out.room.index)
  {
    OwnerFound(r, client);
    hide Owns, OwnerError;
  }

  /** Why a command that names a story is refused, once the client is known to own the room. */
  predicate StoryRefused(r: RoomView, story: string, error: Error) {
    if story == "" then error == Validation
    else error == NotFound && forall s :: s in r.stories ==> s.id != story
  }

  predicate NamesStory(r: RoomView, story: string) {
    story != "" && exists s :: s in r.stories && s.id == story
  }

  /** The story goes; the index stays on the current story, or on its successor or new last story in a new round. */
  ghost predicate DropsStory(r: RoomView, r': RoomView, i: nat)
    requires i < |r.stories|
  {
    && r'.stories == r.stories[..i] + r.stories[i + 1..]
    && r'.index == (if i < r.index then r.index - 1
                    else if i == r.index && i == |r.stories| - 1 && i > 0 then r.index - 1
                    else r.index)
    && var kept := r.(stories := r'.stories, index := r'.index);
       if i == r.index then StartsRound(kept, r') else r' == kept
  }

  lemma RemoveStoryEffect(r: RoomView, client: string, story: string, now: Time)
    requires Owns(r, client)
    ensures var out := Apply(r, RemoveStory(client, story), now);
            if !NamesStory(r, story) then out.room == r && out.error.Some? && StoryRefused(r, story, out.error.value)
            else
              && out.error.None?
              && forall i: nat :: IsFirstStory(r.stories, i, story) ==> DropsStory(r, out.room, i)
  {
    OwnerFound(r, client);
    FoundStory(r.stories, story);
    hide Owns, OwnerError, IndexOf, NewRound, DropsStory;
    if NamesStory(r, story) {
      var i := IndexOf(StoryIds(r.stories), story).value;
      assert forall j: nat :: IsFirstStory(r.stories, j, story) ==> j == i;
      StoryDropped(r, client, story, i);
    }
  }

  lemma StoryDropped(r: RoomView, client: string, story: string, i: nat)
    requires OwnerError(r, client).None? && story != "" && IndexOf(StoryIds(r.stories), story) == Some(i)
    ensures i < |r.stories| && DoRemoveStory(r, client, story).error.None?
    ensures DropsStory(r, DoRemoveStory(r, client, story).room, i)
  {
    hide OwnerError, IndexOf, NewRound, StartsRound;
    var kept := r.(stories := RemoveAt(r.stories, i));
    if i == r.index {
      var next := kept.(index := if i == |r.stories| - 1 && i > 0 then r.index - 1 else r.index);
      RoundStarts(next);
      StartsRoundKeeps(next, NewRound(next));
    }
  }

  lemma StartsRoundKeeps(r: RoomView, r': RoomView)
    requires StartsRound(r, r')
    ensures r'.stories == r.stories && r'.index == r.index
  {
  }

  /** The named story becomes current in a new round, unless it is current already or has been estimated. */
  lemma SelectStoryEffect(r: RoomView, client: string, story: string, now: Time)
    requires Owns(r, client)
    ensures var out := Apply(r, SelectStory(client, story), now);
            if !NamesStory(r, story) then out.room == r && out.error.Some? && StoryRefused(r, story, out.error.value)
            else
              forall i: nat :: IsFirstStory(r.stories, i, story) ==>
                if i == r.index || r.stories[i].voted then out == Outcome(r, Some(Conflict))
                else
                  && out.error.None?
                  && StartsRound(r.(index := i, events := r.events + [StorySelected(story, now)]), out.room)
  {
    OwnerFound(r, client);
    FoundStory(r.stories, story);
    hide Owns, OwnerError, IndexOf, NewRound, StartsRound;
    if NamesStory(r, story) {
      var i := IndexOf(StoryIds(r.stories), story).value;
      assert forall j: nat :: IsFirstStory(r.stories, j, story) ==> j == i;
      RoundStarts(r.(index := i, events := r.events + [StorySelected(story, now)]));
    }
  }

  /** Who may not reorder, and what; the rest of its effect is `RoomLaws.ReorderIsAMove`. */
  lemma ReorderStoryRefusals(r: RoomView, client: string, story: string, target: int, now: Time)
    requires Owns(r, client)
    ensures var out := Apply(r, ReorderStory(client, story, target), now);
            && (out.error == Some(Validation) <==> story == "" || !(0 <= target < |r.stories|))
            && (out.error == Some(NotFound) <==>
                  story != "" && 0 <= target < |r.stories| && forall s :: s in r.stories ==> s.id != story)
            && (out.error.None? <==> NamesStory(r, story) && 0 <= target < |r.stories|)
            && (out.error.Some? ==> out.room == r)
  {
    OwnerFound(r, client);
    FoundStory(r.stories, story);
    hide Owns, OwnerError, IndexOf, MovedIndex, Move;
  }

  lemma AdvanceEffect(r: RoomView, client: string, now: Time)
    requires Owns(r, client)
    ensures var out := Apply(r, AdvanceToNextStory(client), now);
            && out.error.None?
            && if r.index + 1 < |r.stories| then StartsRound(r.(index := r.index + 1), out.room) else out.room == r
  {
    OwnerFound(r, client);
    RoundStarts(r.(index := r.index + 1));
    hide Owns, OwnerError, NewRound, StartsRound;
  }

  lemma PrevEffect(r: RoomView, client: string, now: Time)
    requires Owns(r, client)
    ensures var out := Apply(r, PrevStory(client), now);
            && out.error.None?
            && if 0 < r.index then StartsRound(r.(index := r.index - 1), out.room) else out.room == r
  {
    OwnerFound(r, client);
    RoundStarts(r.(index := r.index - 1));
    hide Owns, OwnerError, NewRound, StartsRound;
  }

  /** In a backlog the current story is renamed, otherwise the title is set; everything else stays. */
  lemma SetCurrentStoryEffect(r: RoomView, client: string, name: string, now: Time)
    requires Owns(r, client)
    ensures var out := Apply(r, SetCurrentStory(client, name), now);
            && out.error.None?
            && if r.backlog && 0 <= r.index < |r.stories| then
                 && out.room == r.(stories := out.room.stories) && |out.room.stories| == |r.stories|
                 && out.room.stories[r.index] == r.stories[r.index].(name := name)
                 && forall j :: 0 <= j < |r.stories| && j != r.index ==> out.room.stories[j] == r.stories[j]
               else out.room == r.(currentStory := name)
  {
    OwnerFound(r, client);
    hide Owns, OwnerError;
  }

  // ---- counted votes ------------------------------------------------------------------------------------------

  /** How many active clients vote for a card. */
  function VotersFor(clients: seq<ClientView>, vote: string): nat {
    if clients == [] then 0
    else
      VotersFor(clients[1..], vote)
      + if !clients[0].spectator && clients[0].vote == Some(vote) then 1 else 0
  }

  lemma {:induction false} CastOfTail(clients: seq<ClientView>)
    requires clients != []
    ensures Cast(clients) == Ballot(clients[0]) + Cast(clients[1..])
  {
    var n := |clients| - 1;
    hide Ballot;
    if n == 0 {
      assert clients[..n] == [] && clients[1..] == [];
      CastOfNobody();
    } else {
      CastOfTail(clients[..n]);
      assert clients[..n][1..] == clients[1..][..n - 1] && clients[1..][n - 1] == clients[n];
      var middle := Cast(clients[1..][..n - 1]);
      assert Cast(clients) == Ballot(clients[0]) + middle + Ballot(clients[n]);
      assert Cast(clients[1..]) == middle + Ballot(clients[n]);
    }
  }

  /** A reveal counts every card as often as active clients vote for it, and no empty votes. */
  lemma {:induction false} CastCountsEachVote(clients: seq<ClientView>, vote: string)
    ensures Cast(clients)[vote] == if vote == "" then 0 else VotersFor(clients, vote)
  {
    if clients != [] {
      CastOfTail(clients);
      CastCountsEachVote(clients[1..], vote);
    }
  }

  /** A room starts without clients, votes and stories, in backlog mode and at version 0. */
  lemma NewRoomIsEmpty(id: string, deckType: string, at: Time)
    ensures var r := NewRoom(id, deckType, at);
            && r.id == id && r.deckType == deckType && r.startedAt == at
            && r.clients == [] && r.stories == [] && r.events == [] && r.currentStory == ""
            && !r.revealed && r.summary == NOTHING_SHOWN && r.backlog && r.index == 0 && r.version == 0
  {
  }

  /** Unknown deck types vote with the Fibonacci deck. */
  lemma DeckCards(deckType: string)
    ensures DeckForType(deckType).cards
         == if deckType == "t-shirt" then ["XS", "S", "M", "L", "XL", "XXL", "?", "\U{2615}"]
            else ["0", "1", "2", "3", "5", "8", "13", "21", "34", "55", "89", "?", "\U{2615}"]
  {
  }
}
