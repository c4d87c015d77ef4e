/** Laws of reveals and of the backlog that span commands. */
module RoomLaws {
  import opened Wrappers
  import opened Decks
  import opened Summaries
  import opened RoomModel
  import opened RoomInvariants

  // ---- the order of the clients does not matter ------------------------------

  lemma {:induction false} CastWithout(clients: seq<ClientView>, i: nat)
    requires i < |clients|
    ensures Cast(clients) == Cast(RemoveAt(clients, i)) + Ballot(clients[i])
    decreases |clients|
  {
    hide Cast, Ballot;
    var init, last := clients[..|clients| - 1], clients[|clients| - 1];
    assert clients == init + [last];
    CastUnfold(init, last);
    if i < |init| {
      assert RemoveAt(clients, i) == RemoveAt(init, i) + [last];
      hide RemoveAt;
      CastWithout(init, i);
      CastUnfold(RemoveAt(init, i), last);
    } else {
      assert RemoveAt(clients, i) == init;
    }
  }

  lemma {:induction false} CastOfPermutation(clients: seq<ClientView>, clients': seq<ClientView>)
    requires multiset(clients) == multiset(clients')
    ensures Cast(clients) == Cast(clients')
    decreases |clients'|
  {
    if clients' == [] {
      assert |multiset(clients)| == 0;
    } else {
      var init, c := clients'[..|clients'| - 1], clients'[|clients'| - 1];
      assert clients' == init + [c];
      assert c in multiset(clients');
      var i :| 0 <= i < |clients| && clients[i] == c;
      var rest := RemoveAt(clients, i);
      hide *;
      RemoveFromMultiset(clients, i);
      assert multiset(clients') == multiset(init) + multiset{c};
      CancelMultiset(multiset(rest), multiset(init), multiset{c});
      CastWithout(clients, i);
      CastOfPermutation(rest, init);
      CastUnfold(init, c);
    }
  }

  /** Two rooms that differ in the order of their clients reveal the same summary. */
  lemma RevealIgnoresClientOrder(r: RoomView, clients: seq<ClientView>, now: Time)
    requires multiset(clients) == multiset(r.clients)
    ensures Reveal(r.(clients := clients), now) == Reveal(r, now).(clients := clients)
  {
    CastOfPermutation(r.clients, clients);
  }

  // ---- reveals ------------------------------------------------------------------

  /** A command that opens the votes stores the summary of the votes that are then on the table. */
  lemma RevealingCommandSummarizes(r: RoomView, command: Command, now: Time)
    requires !r.revealed && Apply(r, command, now).room.revealed
    ensures var r' := Apply(r, command, now).room;
            r'.summary == SummaryOf(DeckOf(r'), Cast(r'.clients))
  {
    hide SummaryOf, DeckForType, FindClient, CountOwners, RemoveAt, InsertAt, IndexOf, Unvoted, Cast;
  }

  /** A non-spectator with a non-empty vote. */
  predicate IsVoter(c: ClientView) {
    !c.spectator && Filled(c.vote)
  }

  function VoterCount(clients: seq<ClientView>): nat {
    if clients == [] then 0
    else VoterCount(clients[..|clients| - 1]) + if IsVoter(clients[|clients| - 1]) then 1 else 0
  }

  /** Every voter contributes one vote, and nobody else any. */
  lemma {:induction false} CastCountsVoters(clients: seq<ClientView>)
    ensures |Cast(clients)| == VoterCount(clients)
  {
    if clients != [] {
      CastCountsVoters(clients[..|clients| - 1]);
    }
  }

  /** Opening the votes: the ordered votes and the special ones together are the voters of the room. */
  lemma RevealAccountsForVoters(r: RoomView, command: Command, now: Time)
    requires !r.revealed && Apply(r, command, now).room.revealed
    ensures var r' := Apply(r, command, now).room;
            Total(Estimates(DeckOf(r').cards), Cast(r'.clients)) + r'.summary.special == VoterCount(r'.clients)
  {
    var r' := Apply(r, command, now).room;
    hide Apply, SummaryOf, Estimates, Total, DeckForType;
    RevealingCommandSummarizes(r, command, now);
    DeckCardsAreDistinct(r'.deckType);
    VotesAreAccountedFor(DeckOf(r'), Cast(r'.clients));
    CastCountsVoters(r'.clients);
  }

  /** Clients present before and after keep their vote. */
  ghost predicate SameVotes(clients: seq<ClientView>, clients': seq<ClientView>) {
    forall c, c' :: c in clients && c' in clients' && c.id == c'.id ==> c'.vote == c.vote
  }

  /** Every client of `clients'` is new or carries the vote it had in `clients`. */
  ghost predicate Inherits(clients: seq<ClientView>, clients': seq<ClientView>) {
    forall c' :: c' in clients' ==>
                   c'.id !in Ids(clients) || exists c :: c in clients && c.id == c'.id && c.vote == c'.vote
  }

  lemma InheritedVotesAreSame(clients: seq<ClientView>, clients': seq<ClientView>)
    requires Distinct(Ids(clients)) && Inherits(clients, clients')
    ensures SameVotes(clients, clients')
  {
    forall c, c' | c in clients && c' in clients' && c.id == c'.id
      ensures c'.vote == c.vote
    {
      var i :| 0 <= i < |clients| && clients[i] == c;
      assert Ids(clients)[i] == c'.id;
      var d :| d in clients && d.id == c'.id && d.vote == c'.vote;
      var j :| 0 <= j < |clients| && clients[j] == d;
      assert Ids(clients)[j] == Ids(clients)[i];
    }
  }

  lemma ReplacedInherits(clients: seq<ClientView>, i: nat, c: ClientView)
    requires i < |clients| && c.id == clients[i].id && c.vote == clients[i].vote
    ensures Inherits(clients, clients[i := c])
  {
    var clients' := clients[i := c];
    forall c' | c' in clients'
      ensures exists d :: d in clients && d.id == c'.id && d.vote == c'.vote
    {
      var j :| 0 <= j < |clients'| && clients'[j] == c';
      assert clients[j] in clients;
    }
  }

  lemma OpenStays(r: RoomView, now: Time)
    requires r.revealed
    ensures CheckReveal(r, now) == r
  {
  }

  lemma FlipInherits(r: RoomView, target: string, missing: Error)
    ensures Inherits(r.clients, FlipOwner(r, target, missing).room.clients)
  {
    hide FindClient, Inherits;
    Unchanged(r.clients);
    if FindClient(r, target).Some? {
      var i := FindClient(r, target).value;
      ReplacedInherits(r.clients, i, r.clients[i].(owner := !r.clients[i].owner));
    }
  }

  lemma SpectatorInherits(r: RoomView, client: string, target: string, now: Time)
    requires r.revealed
    ensures Inherits(r.clients, DoToggleSpectator(r, client, target, now).room.clients)
  {
    hide FindClient, OwnerError, Inherits, CheckReveal;
    Unchanged(r.clients);
    if FindClient(r, target).Some? {
      var i := FindClient(r, target).value;
      var clients := r.clients[i := r.clients[i].(spectator := !r.clients[i].spectator)];
      ReplacedInherits(r.clients, i, clients[i]);
      OpenStays(r.(clients := clients), now);
    }
  }

  lemma RenameInherits(r: RoomView, client: string, name: string)
    ensures Inherits(r.clients, DoUpdateClientName(r, client, name).room.clients)
  {
    hide FindClient, Inherits;
    Unchanged(r.clients);
    if FindClient(r, client).Some? {
      var i := FindClient(r, client).value;
      ReplacedInherits(r.clients, i, r.clients[i].(name := name));
    }
  }

  lemma Unchanged(clients: seq<ClientView>)
    ensures Inherits(clients, clients)
  {
  }

  lemma PromotionInherits(clients: seq<ClientView>, kept: seq<ClientView>)
    requires forall c :: c in kept ==> c in clients
    ensures Inherits(clients, Promote(kept))
  {
    hide CountOwners;
    var promoted := Promote(kept);
    forall c' | c' in promoted
      ensures exists c :: c in clients && c.id == c'.id && c.vote == c'.vote
    {
      var j :| 0 <= j < |promoted| && promoted[j] == c';
      assert kept[j] in clients;
    }
  }

  lemma RemovalInherits(r: RoomView, client: string, now: Time)
    requires r.revealed
    ensures Inherits(r.clients, DoRemoveClient(r, client, now).room.clients)
  {
    hide Promote, IndexOf;
    assert forall c :: c in Without(r, client) ==> c in r.clients;
    PromotionInherits(r.clients, Without(r, client));
  }

  /** The single clients that owner, spectator and name changes touch keep their vote while the votes are open. */
  lemma FlagChangesInherit(r: RoomView, command: Command, now: Time)
    requires r.revealed
    requires command.ToggleSpectator? || command.ToggleOwner? || command.AdminToggleOwner? || command.UpdateClientName?
    ensures Inherits(r.clients, Apply(r, command, now).room.clients)
  {
    hide Inherits, IsLastOwner, OwnerError, FlipOwner, DoToggleSpectator, DoUpdateClientName;
    Unchanged(r.clients);
    match command {
      case ToggleSpectator(client, target) => SpectatorInherits(r, client, target, now);
      case ToggleOwner(_, target) => FlipInherits(r, target, NotFound);
      case AdminToggleOwner(target) => FlipInherits(r, target, ClientNotFound);
      case UpdateClientName(client, name) => RenameInherits(r, client, name);
    }
  }

  lemma OthersKeepClients(r: RoomView, command: Command, now: Time)
    requires r.revealed && Apply(r, command, now).room.revealed
    requires !(command.RemoveClient? || command.Join?)
    requires !(command.ToggleSpectator? || command.ToggleOwner? || command.AdminToggleOwner?
        || command.UpdateClientName?)
    ensures Apply(r, command, now).room.clients == r.clients
  {
    hide SummaryOf, DeckForType, FindClient, RemoveAt, InsertAt, IndexOf, Unvoted, Cast;
  }

  lemma OpenSummaryIsKept(r: RoomView, command: Command, now: Time)
    requires r.revealed && Apply(r, command, now).room.revealed
    ensures Apply(r, command, now).room.summary == r.summary
    ensures Apply(r, command, now).room.deckType == r.deckType
  {
    hide SummaryOf, DeckForType, FindClient, CountOwners, RemoveAt, InsertAt, IndexOf, Unvoted, Cast;
  }

  /** While the votes stay open a command changes neither the summary nor the vote of anyone who stays. */
  lemma OpenVotesAreFrozen(r: RoomView, command: Command, now: Time)
    requires Inv(r) && r.revealed && Apply(r, command, now).room.revealed
    ensures var r' := Apply(r, command, now).room;
            r'.summary == r.summary && r'.deckType == r.deckType && SameVotes(r.clients, r'.clients)
  {
    var clients' := Apply(r, command, now).room.clients;
    OpenSummaryIsKept(r, command, now);
    if command.RemoveClient? {
      RemovalInherits(r, command.client, now);
    } else if command.Join? {
      assert forall c' :: c' in clients' ==> c' in r.clients || c'.id !in Ids(r.clients);
    } else if command.ToggleSpectator? || command.ToggleOwner? || command.AdminToggleOwner?
        || command.UpdateClientName? {
      FlagChangesInherit(r, command, now);
    } else {
      OthersKeepClients(r, command, now);
    }
    hide Apply;
    InheritedVotesAreSame(r.clients, clients');
  }

  lemma NextFreezes(r: RoomView, r': RoomView)
    requires Inv(r) && Next(r, r') && r.revealed && r'.revealed
    ensures r'.summary == r.summary && r'.deckType == r.deckType && SameVotes(r.clients, r'.clients)
  {
    if Housekeeping(r, r') {
      forall c' | c' in r'.clients
        ensures c' in r.clients
      {
        assert c' in multiset(r'.clients);
      }
      InheritedVotesAreSame(r.clients, r'.clients);
    } else {
      var command, now :| Commanded(r, r', command, now);
      OpenVotesAreFrozen(r, command, now);
    }
  }

  /** The votes were opened in step `k` and stayed open up to step `n`. */
  ghost predicate OpenSince(run: seq<RoomView>, k: nat, n: nat) {
    && 0 < k <= n < |run|
    && !run[k - 1].revealed
    && forall j :: k <= j <= n ==> run[j].revealed
  }

  ghost predicate Stays(run: seq<RoomView>, k: nat, n: nat, client: string) {
    k <= n < |run| && forall j :: k <= j <= n ==> client in Ids(run[j].clients)
  }

  ghost predicate SameVoteAs(run: seq<RoomView>, k: nat, n: nat, client: string) {
    && k < |run| && n < |run|
    && client in Ids(run[k].clients) && client in Ids(run[n].clients)
    && run[n].clients[FindClient(run[n], client).value].vote == run[k].clients[FindClient(run[k], client).value].vote
  }

  lemma OpeningStep(r: RoomView, r': RoomView)
    requires Next(r, r') && !r.revealed && r'.revealed
    ensures r'.summary == SummaryOf(DeckOf(r'), Cast(r'.clients))
  {
    hide Apply, SummaryOf, DeckOf, Cast;
    var command, now :| Commanded(r, r', command, now);
    RevealingCommandSummarizes(r, command, now);
  }

  lemma StaysOneMore(run: seq<RoomView>, k: nat, n: nat, client: string)
    requires k < n < |run| && Stays(run, k, n, client) && SameVoteAs(run, k, n - 1, client)
    requires SameVotes(run[n - 1].clients, run[n].clients)
    ensures SameVoteAs(run, k, n, client)
  {
    assert client in Ids(run[n].clients) && client in Ids(run[n - 1].clients);
    assert run[n].clients[FindClient(run[n], client).value] in run[n].clients;
    assert run[n - 1].clients[FindClient(run[n - 1], client).value] in run[n - 1].clients;
  }

  lemma {:induction false} OpenRound(run: seq<RoomView>, k: nat, n: nat)
    requires IsRun(run) && OpenSince(run, k, n)
    ensures run[n].summary == SummaryOf(DeckOf(run[k]), Cast(run[k].clients))
    ensures forall client :: Stays(run, k, n, client) ==> SameVoteAs(run, k, n, client)
  {
    hide SummaryOf, DeckOf, Cast, Next, NewRoom, Inv, SameVotes;
    if k == n {
      assert Next(run[k - 1], run[k]);
      OpeningStep(run[k - 1], run[k]);
    } else {
      OpenRound(run, k, n - 1);
      RunsKeepInv(run, n - 1);
      assert Next(run[n - 1], run[n]);
      NextFreezes(run[n - 1], run[n]);
      forall client | Stays(run, k, n, client)
        ensures SameVoteAs(run, k, n, client)
      {
        assert Stays(run, k, n - 1, client);
        StaysOneMore(run, k, n, client);
      }
    }
  }

  /**
   Main result: in every reachable revealed room the summary is that of the votes captured when they were opened, and
   no one who stayed has changed a vote since.
   */
  lemma SummaryIsOfTheReveal(run: seq<RoomView>, n: nat) returns (k: nat)
    requires IsRun(run) && n < |run| && run[n].revealed
    ensures OpenSince(run, k, n)
    ensures run[n].summary == SummaryOf(DeckOf(run[k]), Cast(run[k].clients))
    ensures forall client :: Stays(run, k, n, client) ==> SameVoteAs(run, k, n, client)
  {
    assert !run[0].revealed;
    hide IsRun, SummaryOf, DeckOf, Cast, Stays, SameVoteAs;
    k := n;
    while run[k - 1].revealed
      invariant 0 < k <= n && forall j :: k <= j <= n ==> run[j].revealed
      decreases k
    {
      k := k - 1;
    }
    OpenRound(run, k, n);
  }

  /** Voting, leaving and switching spectators open the votes as soon as every participant has voted. */
  lemma EveryoneVotedReveals(r: RoomView, command: Command, now: Time)
    requires command.Vote? || command.RemoveClient? || command.ToggleSpectator?
    requires Apply(r, command, now).error.None? && AllVoted(Apply(r, command, now).room.clients)
    ensures Apply(r, command, now).room.revealed
  {
  }

  // ---- stories ---------------------------------------------------------------------

  ghost predicate SameEstimate(s: Story, s': Story) {
    s'.result == s.result && s'.mostAppearing == s.mostAppearing && s'.voted == s.voted
  }

  /** Every story of `stories'` is new or carries over the estimate it had. */
  ghost predicate KeepsEstimates(stories: seq<Story>, stories': seq<Story>) {
    forall s' :: s' in stories' ==>
                   s'.id !in StoryIds(stories) || exists s :: s in stories && s.id == s'.id && SameEstimate(s, s')
  }

  lemma SameStory(stories: seq<Story>, s: Story, t: Story)
    requires Distinct(StoryIds(stories)) && s in stories && t in stories && s.id == t.id
    ensures s == t
  {
    var i :| 0 <= i < |stories| && stories[i] == s;
    var j :| 0 <= j < |stories| && stories[j] == t;
    assert StoryIds(stories)[i] == StoryIds(stories)[j];
  }

  lemma SublistKeepsEstimates(stories: seq<Story>, stories': seq<Story>)
    requires forall s' :: s' in stories' ==> s' in stories || s'.id !in StoryIds(stories)
    ensures KeepsEstimates(stories, stories')
  {
  }

  lemma RenameKeepsEstimates(stories: seq<Story>, i: nat, name: string)
    requires i < |stories|
    ensures KeepsEstimates(stories, stories[i := stories[i].(name := name)])
  {
    assert stories[i] in stories;
    var stories' := stories[i := stories[i].(name := name)];
    assert forall s' :: s' in stories' ==> s' in stories || s' == stories'[i];
  }

  /** The commands that edit the backlog. */
  predicate EditsBacklog(command: Command) {
    command.ToggleBacklogMode? || command.AddStory? || command.RemoveStory? || command.ReorderStory?
        || command.SetCurrentStory?
  }

  /** The commands that may open the votes. */
  predicate MayReveal(command: Command) {
    command.Vote? || command.RemoveClient? || command.ToggleSpectator? || command.ToggleReveal?
  }

  lemma RemovalKeepsEstimates(r: RoomView, client: string, story: string)
    requires Inv(r)
    ensures KeepsEstimates(r.stories, DoRemoveStory(r, client, story).room.stories)
  {
    hide OwnerError, DeckOf, ClientsOk, KeepsEstimates, IndexOf, DoRemoveStory, RemoveAt;
    RemovedStories(r, client, story);
    SublistKeepsEstimates(r.stories, r.stories);
    var i := IndexOf(StoryIds(r.stories), story);
    if i.Some? {
      RemoveStoryAt(r.stories, i.value);
      SublistKeepsEstimates(r.stories, RemoveAt(r.stories, i.value));
    }
  }

  lemma RemovedStories(r: RoomView, client: string, story: string)
    ensures var i, stories := IndexOf(StoryIds(r.stories), story), DoRemoveStory(r, client, story).room.stories;
            stories == r.stories || (i.Some? && stories == RemoveAt(r.stories, i.value))
  {
    hide OwnerError, IndexOf, RemoveAt, Unvoted;
  }

  lemma ReorderKeepsEstimates(r: RoomView, client: string, story: string, target: int)
    requires Inv(r)
    ensures KeepsEstimates(r.stories, DoReorderStory(r, client, story, target).room.stories)
  {
    var stories' := DoReorderStory(r, client, story, target).room.stories;
    if stories' != r.stories {
      MoveKeepsIds(r.stories, IndexOf(StoryIds(r.stories), story).value, target);
    }
    hide IndexOf, OwnerError, DeckOf, Move;
    SublistKeepsEstimates(r.stories, stories');
  }

  lemma EditsKeepEstimates(r: RoomView, command: Command, now: Time)
    requires Inv(r) && FreshIds(r, command) && EditsBacklog(command)
    ensures KeepsEstimates(r.stories, Apply(r, command, now).room.stories)
  {
    var stories, stories' := r.stories, Apply(r, command, now).room.stories;
    hide KeepsEstimates, OwnerError, IndexOf, DoRemoveStory, DoReorderStory, DeckOf;
    if command.RemoveStory? {
      RemovalKeepsEstimates(r, command.client, command.story);
    } else if command.ReorderStory? {
      ReorderKeepsEstimates(r, command.client, command.story, command.targetIndex);
    } else if command.SetCurrentStory? && stories' != stories {
      RenameKeepsEstimates(stories, r.index, command.name);
    } else {
      SublistKeepsEstimates(stories, stories');
    }
  }

  lemma OthersKeepStories(r: RoomView, command: Command, now: Time)
    requires !EditsBacklog(command) && !MayReveal(command)
    ensures Apply(r, command, now).room.stories == r.stories
  {
    hide SummaryOf, OwnerError, FindClient, IndexOf, Move, RemoveAt, Unvoted, Cast, CountOwners, FirstOwner;
  }

  /** Opening the votes touches the current story only. */
  lemma RevealsEstimateCurrent(r: RoomView, command: Command, now: Time)
    requires MayReveal(command)
    ensures var r' := Apply(r, command, now).room;
            || r'.stories == r.stories
            || (!r.revealed && r'.revealed && HasCurrentStory(r)
                && r'.stories == r.stories[r.index := Estimate(r.stories[r.index], r'.summary)])
  {
    hide SummaryOf, OwnerError, FindClient, IndexOf, Estimate, RemoveAt, Unvoted, Cast, CountOwners;
  }

  /** What may have become of story `s` of room `r` in room `r'`. */
  ghost predicate Survives(r: RoomView, r': RoomView, s: Story, s': Story) {
    && (s.voted ==> s'.voted)
    && (!SameEstimate(s, s') ==>
          && !r.revealed && r'.revealed && HasCurrentStory(r) && r.stories[r.index] == s
          && s' == Estimate(s, SummaryOf(DeckOf(r'), Cast(r'.clients))))
  }

  lemma SurvivesReveal(r: RoomView, r': RoomView, s: Story, s': Story)
    requires Distinct(StoryIds(r.stories)) && s in r.stories && s' in r'.stories && s.id == s'.id
    requires || r'.stories == r.stories
             || (!r.revealed && r'.revealed && HasCurrentStory(r)
                 && r'.summary == SummaryOf(DeckOf(r'), Cast(r'.clients))
                 && r'.stories == r.stories[r.index := Estimate(r.stories[r.index], r'.summary)])
    ensures Survives(r, r', s, s')
  {
    hide SummaryOf, DeckOf, Cast;
    var i :| 0 <= i < |r.stories| && r.stories[i] == s;
    var j :| 0 <= j < |r'.stories| && r'.stories[j] == s';
    assert StoryIds(r.stories)[i] == s.id && StoryIds(r.stories)[j] == s'.id;
  }

  lemma SurvivesEdit(r: RoomView, r': RoomView, s: Story, s': Story)
    requires Distinct(StoryIds(r.stories)) && s in r.stories && s' in r'.stories && s.id == s'.id
    requires KeepsEstimates(r.stories, r'.stories)
    ensures Survives(r, r', s, s')
  {
    hide SummaryOf, DeckOf, Cast;
    var i :| 0 <= i < |r.stories| && r.stories[i] == s;
    assert StoryIds(r.stories)[i] == s'.id;
    var t :| t in r.stories && t.id == s'.id && SameEstimate(t, s');
    SameStory(r.stories, s, t);
  }

  /**
   A story that survives a command stays estimated once it is, and its estimate changes only while it is the current
   story of a hidden round that the command opens.
   */
  lemma SurvivingStories(r: RoomView, command: Command, now: Time, s: Story, s': Story)
    requires Inv(r) && FreshIds(r, command)
    requires s in r.stories && s' in Apply(r, command, now).room.stories && s.id == s'.id
    ensures Survives(r, Apply(r, command, now).room, s, s')
  {
    var r' := Apply(r, command, now).room;
    if MayReveal(command) {
      RevealsEstimateCurrent(r, command, now);
      if !r.revealed && r'.revealed { RevealingCommandSummarizes(r, command, now); }
      hide Apply, Survives, MayReveal, DeckOf, SummaryOf, Cast, Estimate;
      SurvivesReveal(r, r', s, s');
    } else {
      if EditsBacklog(command) {
        EditsKeepEstimates(r, command, now);
      } else {
        OthersKeepStories(r, command, now);
        SublistKeepsEstimates(r.stories, r'.stories);
      }
      hide Apply, Survives, KeepsEstimates, MayReveal, EditsBacklog, DeckOf;
      SurvivesEdit(r, r', s, s');
    }
  }

  lemma RemoveOtherShape(r: RoomView, client: string, story: string)
    requires OwnerError(r, client).None? && story in StoryIds(r.stories) && story != ""
    requires IndexOf(StoryIds(r.stories), story).value != r.index
    ensures var i := IndexOf(StoryIds(r.stories), story).value;
            DoRemoveStory(r, client, story)
            == Done(r.(stories := RemoveAt(r.stories, i), index := if i < r.index then r.index - 1 else r.index))
  {
    hide IndexOf, OwnerError, NewRound, RemoveAt;
  }

  /** Removing a story other than the current one keeps the current one and the round. */
  lemma RemoveOtherStory(r: RoomView, client: string, story: string)
    requires Inv(r) && OwnerError(r, client).None? && story in StoryIds(r.stories)
    requires story != CurrentStoryId(r)
    ensures DoRemoveStory(r, client, story).error.None?
    ensures var i, r' := IndexOf(StoryIds(r.stories), story).value, DoRemoveStory(r, client, story).room;
            && r'.stories == RemoveAt(r.stories, i)
            && HasCurrentStory(r') && r'.stories[r'.index] == r.stories[r.index]
            && r' == r.(stories := r'.stories, index := r'.index)
  {
    var i := IndexOf(StoryIds(r.stories), story).value;
    assert r.stories[i] in r.stories && i != r.index;
    RemoveOtherShape(r, client, story);
    hide IndexOf, OwnerError, DeckOf, DoRemoveStory, RemoveAt;
  }

  lemma UnvotedVotes(clients: seq<ClientView>)
    ensures Ids(Unvoted(clients)) == Ids(clients)
    ensures forall c :: c in Unvoted(clients) ==> c.vote == None && !c.hasVoted
  {
  }

  /** Removing the current story selects its successor, or its predecessor if it was last, in a fresh hidden round. */
  lemma RemoveCurrentStory(r: RoomView, client: string)
    requires Inv(r) && OwnerError(r, client).None? && HasCurrentStory(r)
    ensures var i, r' := r.index, DoRemoveStory(r, client, CurrentStoryId(r)).room;
            && DoRemoveStory(r, client, CurrentStoryId(r)).error.None?
            && r'.stories == RemoveAt(r.stories, i)
            && !r'.revealed && r'.summary == CLEARED && Ids(r'.clients) == Ids(r.clients)
            && (forall c :: c in r'.clients ==> c.vote == None && !c.hasVoted)
            && (|r.stories| == 1 ==> r'.index == 0)
            && (i + 1 < |r.stories| ==> HasCurrentStory(r') && r'.stories[r'.index] == r.stories[i + 1])
            && (0 < i == |r.stories| - 1 ==> HasCurrentStory(r') && r'.stories[r'.index] == r.stories[i - 1])
  {
    var i := r.index;
    assert r.stories[i] in r.stories;
    DistinctIndex(StoryIds(r.stories), i);
    UnvotedVotes(r.clients);
    hide IndexOf, OwnerError, DeckOf, Unvoted;
  }

  // ---- reordering ---------------------------------------------------------------------

  lemma MoveIsPermutation(stories: seq<Story>, from: nat, to: nat)
    requires from < |stories| && to < |stories|
    ensures multiset(Move(stories, from, to)) == multiset(stories)
  {
    var rest, s := RemoveAt(stories, from), stories[from];
    RemoveFromMultiset(stories, from);
    RemoveFromMultiset(Move(stories, from, to), to);
    assert RemoveAt(Move(stories, from, to), to) == rest;
  }

  lemma MoveBack(stories: seq<Story>, from: nat, to: nat)
    requires from < |stories| && to < |stories|
    ensures Move(Move(stories, from, to), to, from) == stories
  {
    var moved := Move(stories, from, to);
    assert RemoveAt(moved, to) == RemoveAt(stories, from);
  }

  /** `x` comes before `y` in `stories`. */
  ghost predicate Before(stories: seq<Story>, x: Story, y: Story) {
    exists a, b :: 0 <= a < b < |stories| && stories[a] == x && stories[b] == y
  }

  /** Stories other than the one at `from` keep their relative order. */
  ghost predicate OthersKeepOrder(stories: seq<Story>, stories': seq<Story>, from: nat) {
    forall a, b :: 0 <= a < b < |stories| && a != from && b != from ==> Before(stories', stories[a], stories[b])
  }

  lemma MoveKeepsOrder(stories: seq<Story>, from: nat, to: nat)
    requires from < |stories| && to < |stories|
    ensures OthersKeepOrder(stories, Move(stories, from, to), from)
  {
    var moved := Move(stories, from, to);
    MoveElements(stories, from, to);
    hide Move;
    forall a, b | 0 <= a < b < |stories| && a != from && b != from
      ensures Before(moved, stories[a], stories[b])
    {
      var a', b' := ShiftedIndex(a, from, to), ShiftedIndex(b, from, to);
      assert a' < b' && moved[a'] == stories[a] && moved[b'] == stories[b];
    }
  }

  lemma StayKeepsOrder(stories: seq<Story>, from: nat)
    ensures OthersKeepOrder(stories, stories, from)
  {
    forall a, b | 0 <= a < b < |stories|
      ensures Before(stories, stories[a], stories[b])
    {
    }
  }

  /**
   A successful reorder permutes the stories, puts the story at the target, keeps the order of the others and the
   current story, and changes nothing else.
   */
  lemma ReorderIsAMove(r: RoomView, client: string, story: string, target: nat)
    requires Inv(r) && OwnerError(r, client).None? && story in StoryIds(r.stories) && target < |r.stories|
    ensures var r' := DoReorderStory(r, client, story, target).room;
            && DoReorderStory(r, client, story, target).error.None?
            && multiset(r'.stories) == multiset(r.stories)
            && r'.stories[target].id == story
            && OthersKeepOrder(r.stories, r'.stories, IndexOf(StoryIds(r.stories), story).value)
            && 0 <= r'.index < |r'.stories| && r'.stories[r'.index] == r.stories[r.index]
            && r' == r.(stories := r'.stories, index := r'.index)
  {
    hide DeckOf, ClientsOk;
    var from := IndexOf(StoryIds(r.stories), story).value;
    assert r.stories[from] in r.stories && r.stories[r.index] in r.stories;
    MoveIsPermutation(r.stories, from, target);
    MoveKeepsOrder(r.stories, from, target);
    StayKeepsOrder(r.stories, from);
    MoveElements(r.stories, from, target);
    SearchAgreesWithShift(r.stories, r.index, from, target);
    hide OthersKeepOrder, Move, OwnerError, IndexOf;
  }

  /** Reordering back restores the room exactly. */
  lemma ReorderIsUndone(r: RoomView, client: string, story: string, target: nat)
    requires Inv(r) && OwnerError(r, client).None? && story in StoryIds(r.stories) && target < |r.stories|
    ensures var from := IndexOf(StoryIds(r.stories), story).value;
            DoReorderStory(DoReorderStory(r, client, story, target).room, client, story, from) == Done(r)
  {
    var from := IndexOf(StoryIds(r.stories), story).value;
    var r' := DoReorderStory(r, client, story, target).room;
    ReorderStoryKeepsInv(r, client, story, target);
    ReorderIsAMove(r, client, story, target);
    assert r.stories[from] in r.stories && r.stories[r.index] in r.stories;
    MoveElements(r.stories, from, target);
    DistinctIndex(StoryIds(r'.stories), target);
    if from != target {
      MoveBack(r.stories, from, target);
      assert CurrentStoryId(r') == CurrentStoryId(r);
      DistinctIndex(StoryIds(r.stories), r.index);
    }
  }
}
