# Planning poker, modelled in Dafny

A planning-poker server keeps rooms of clients who vote on a backlog of
stories. This project models its three algorithmic parts and proves what they
are meant to guarantee.

**The room aggregate.** `RoomModel` gives a room as a value and each of its 17
commands as a function of that value. `Rooms` has the classes `Room`, `Client`
and `ClientCollection`, whose methods are proved to change their fields as
those functions say. `Summary` specifies the summary of a revealed round on the
multiset of votes, and `Voting` holds the loops proved against it. The effect
of every command, without reference to how it is computed, is in `RoomEffects`,
the invariant of every run in `RoomInvariants`, the laws of rounds, votes,
estimates and reordering in `RoomLaws`, and commands that undo each other in
`RoomRoundTrips`. `Participants` is the in-place sort that makes client order
unstable, which is why rooms are compared up to a permutation of their clients.

**Persistence and concurrency.** `RoomProtocol` is a state machine of any
number of processes over one stored room: lock acquisition with a lease and a
token, load, domain transition, the two saving scripts, release, and all that
can go wrong between them. Runs quantify over every interleaving, and
`ProtocolSteps` tells what each single step does. What the scripts do to text
is proved separately: `Json` (module `JsonText`) is the document format with a
reader and a writer, `RoomCodec` the stored form of a room, `StoredForm` that
form key by key, and `SaveScripts` the pattern substitution and the version
comparison on Lua numbers; their main results are stated against the machine's
`NextVersion` and `Written`. `RedisStore` puts them together: rooms are read
into fresh objects, changed by the methods of `Rooms.Room` and written back,
and the resulting text is that of the machine's committed transition.
`InMemoryHub` is the single-process hub with its live and saved maps; `Valid`
and `InSync`, established by its constructor and kept by every use case, say
that live and saved rooms share no object and agree on version and persisted
fields. `CommandLedger` covers retries of one command on both ledgers,
`WebsocketBus` the handling of one message, and `Subscriptions` the counts
behind the Redis subscriptions.

**The schema loader.** `SchemaLoader` is the memoised depth-first parse with
cycle detection, `SchemaUsage` the two scans whose termination and agreement
rest on it, and `SchemaMeaning` what a loaded schema says about the keywords it
was read from.

Conventions. Identifiers that the program draws at random and the readings of
the clock are parameters. A step that can fail for outside reasons is a step of
its own or a boolean parameter. `WebsocketBus.Bus.runs` counts use-case calls
for the specification only.

Where the code does not keep a property that could be expected of it, lemmas
say exactly when it holds and exhibit the failure:

- the next version written by the save script, iff it is below 10^14:
  `SaveScriptWritesNextVersion`;
- the version comparison of the guarded save, iff unequal versions are different
  doubles, which all are up to 2^53 and no further: `GuardIsRightIff`,
  `DoublesSeparateUpTo`, with `WrongVersionIsAccepted`;
- no lost update, iff the stored version is the loaded one, or for a guarded
  commit iff the caller expects the loaded one: `SaveIsCurrentIffSameVersion`,
  `GuardedCommitIsCurrentIffExpected`, and for whole runs
  `SerialIffVersionsAreSerial`, with `RenameCanBeLost` and
  `GuessedVersionLosesRename`;
- ownership of the lock, iff nobody releases another's lock under an equal
  token: `LeasesHoldIffNoCollision`, with `EqualTokensBreakTheLock`;
- one execution per command, iff no claim reaches the store after the marker or
  the outcome, and any later unheard marker, has expired: `ClaimRunsAgainIffExpired`,
  `HeardClaimRunsAgainIffLate` and `LostIsRunAgain`, with `LateOrLostRunsTwice`;
- at least one execution per claimed command, iff no marker set by an unheard
  claim is in force: `FirstClaimRunsIffUnreserved`, with
  `UnheardClaimRefusesRetries`;
- the in-memory table of clients filing the live room's own objects after a
  guarded save, iff the save is not stale or the room is empty:
  `SaveRoomIfVersion` and `Guarded` of `InMemoryHub`;
- ledger keys private to a room, iff no room ID extends the other after a colon:
  `RoomsShareKeysIffExtended`, with `ColonsCollide`;
- exact subscription counts, iff no client that still has a bus is given
  another: `CountsAreExact`, with `ReconnectLeaksSubscription`;
- the title shown when the backlog mode is switched: `ToggleBacklogKeepsTitle`.

Check everything with `dafny verify dfyconfig.toml`.

## Model

| member | source | states |
|---|---|---|
| RoomInvariants.RunsKeepInv | internal/domain/entity/room_presence.go:24-160 | After any run of the 17 commands from a new room, interleaved with re-orderings of the clients, saves and event draining: a non-empty room has an owner, client and story IDs are unique and story IDs non-empty, the index is 0 without stories and in range otherwise, backlog off means no stories, a client counts as voted iff its vote is non-empty, every such vote is a deck card, and a hidden room has a cleared summary |
| RoomInvariants.NextKeepsInv | internal/domain/entity/room_presence.go:24-160 | One step of such a run, whatever it is, keeps that invariant |
| RoomInvariants.CommandsKeepInv | internal/domain/entity/room_backlog.go:13-280 | Each command keeps the invariant whether it succeeds or reports an error, given that generated story IDs are new |
| RoomInvariants.ErrorsChangeNothing | internal/domain/entity/room_voting.go:14-40 | A command that returns an error leaves the room exactly as it was |
| RoomInvariants.CommandsKeepIdentity | internal/domain/entity/room.go:17-40 | No command touches the room's ID, start time, deck type or version |
| RoomInvariants.FlipOwnerKeepsInv | internal/domain/entity/room_presence.go:80-133 | Flipping an ownership flag is harmless unless it takes it from the only owner, which is exactly what the guards refuse |
| RoomInvariants.RemoveAndPromote | internal/domain/entity/room_presence.go:35-47 | Removing a client and promoting whoever comes first when no owner is left keeps IDs unique and some owner present |
| RoomInvariants.ReorderClients | internal/infra/boundaries/hub/clientcollection/clientcollection.go:30-32 | The client part of the invariant survives any permutation of the client list |
| RoomInvariants.SearchAgreesWithShift | internal/domain/entity/room_backlog.go:187-202 | Searching for the current story's ID after a move and shifting the index arithmetically give the same index, for every index, origin and target |
| RoomInvariants.MoveKeepsIds | internal/domain/entity/room_backlog.go:140-155 | Moving a story keeps story IDs unique and invents no story |
| RoomLaws.CastOfPermutation | internal/domain/entity/room_voting.go:136-163 | The multiset of votes counted at a reveal does not depend on the order of the clients |
| RoomLaws.RevealIgnoresClientOrder | internal/domain/entity/room_voting.go:81-134 | Revealing a room with its clients permuted gives the same summary, story estimate and events |
| RoomLaws.RevealingCommandSummarizes | internal/domain/entity/room_voting.go:81-134 | Whatever command opens a hidden round, the summary it leaves is the specification applied to the deck and the votes then present |
| RoomLaws.CastCountsVoters | internal/domain/entity/room_voting.go:136-163 | The votes counted at a reveal are as many as the non-spectators with a non-empty vote |
| RoomLaws.RevealAccountsForVoters | internal/domain/entity/room_voting.go:136-163 | After any command that opens a hidden round, the ordered votes and the special votes of the summary together are the voters of the room |
| RoomLaws.OpenVotesAreFrozen | internal/domain/entity/room_voting.go:42-49 | A command that leaves the round open changes neither the summary nor any remaining client's vote |
| RoomLaws.OpenRound | internal/domain/entity/room_voting.go:42-134 | While a round stays open in a run, the summary is the one of the votes at the reveal, and a client that stays keeps the vote it had then |
| RoomLaws.SummaryIsOfTheReveal | internal/domain/entity/room_voting.go:81-134 | Every revealed state of a run has such a reveal earlier in the run |
| RoomLaws.EveryoneVotedReveals | internal/domain/entity/room_presence.go:150-160 | When Vote, RemoveClient or ToggleSpectator succeeds and every non-spectator has voted, the room is revealed |
| RoomLaws.SurvivingStories | internal/domain/entity/room_backlog.go:59-136 | For a story that survives a command, Voted never goes back to false, and its estimate changes only if it was the current story and a hidden round was revealed |
| RoomLaws.RemoveOtherStory | internal/domain/entity/room_backlog.go:59-97 | Removing a story other than the current one keeps the same current story and changes nothing else |
| RoomLaws.RemoveCurrentStory | internal/domain/entity/room_backlog.go:59-97 | Removing the current story hides the round, clears all votes and the summary, and selects the successor, or the predecessor when it was last |
| RoomLaws.MoveIsPermutation | internal/domain/entity/room_backlog.go:140-155 | Moving a story permutes the backlog |
| RoomLaws.MoveKeepsOrder | internal/domain/entity/room_backlog.go:140-155 | Moving a story keeps the relative order of all the others |
| RoomLaws.ReorderIsAMove | internal/domain/entity/room_backlog.go:140-202 | ReorderStory puts the story at the target, permutes the rest in order, keeps the current story current and changes nothing else |
| RoomLaws.ReorderIsUndone | internal/domain/entity/room_backlog.go:140-202 | Reordering the story back to where it was restores the room |
| RoomRoundTrips.AdvanceThenPrev | internal/domain/entity/room_backlog.go:213-249 | Advancing and going back returns to the same story and only clears the round |
| RoomRoundTrips.BacklogModeOnAndOff | internal/domain/entity/room_backlog.go:13-37 | Switching backlog mode on and off again restores the room |
| RoomRoundTrips.ToggleBacklogKeepsTitle | internal/domain/entity/room_backlog.go:251-263 | Switching the mode keeps the title clients see exactly unless the mode ends on a nameless story over an older title |
| RoomRoundTrips.SetStoryIsShown | internal/domain/entity/room_backlog.go:251-280 | In either mode the story title set is the title shown afterwards |
| RoomRoundTrips.AddThenRemoveStory | internal/domain/entity/room_backlog.go:39-97 | Adding a story to a non-empty backlog and removing it by its ID restores the room |
| RoomRoundTrips.JoinThenLeave | internal/domain/entity/room_presence.go:24-47 | Joining a non-empty room and leaving it restores the room, up to the reveal check the departure runs |
| RoomRoundTrips.JoinTwice | internal/application/planningpoker/usecase/joinroom.go:137-149 | Joining again finds the client already there and adds none |
| RoomRoundTrips.ToggleOwnerTwice | internal/domain/entity/room_presence.go:80-108 | Toggling another client's ownership twice restores the room, the last-owner guard included |
| RoomEffects.OnlyOwnersMay | internal/domain/entity/room_backlog.go:13-20 | Twelve commands leave the room alone and report not-found for a client that is not there and forbidden for one that does not own the room |
| RoomEffects.VoteEffect | internal/domain/entity/room_voting.go:14-49 | A vote is refused iff the client is unknown or the vote is a non-empty label that is no card; in an open round it changes nothing; in a hidden one the client has exactly that vote with flag and time set iff it is not empty, nobody else changes, the vote is announced iff it is not empty, and the round opens iff then every active client has voted |
| RoomEffects.ToggleRevealEffect | internal/domain/entity/room_voting.go:51-62 | An owner opens a hidden round, with summary, current story and events, and hides an open one keeping the votes |
| RoomEffects.ResetVotingEffect | internal/domain/entity/room_voting.go:64-79 | The round is hidden, nothing is shown and every vote, flag and time is cleared; all else stays |
| RoomEffects.JoinEffect | internal/domain/entity/room_presence.go:24-33 | A new client comes last without a vote and owns the room iff it is alone; a known one changes nothing |
| RoomEffects.RemoveClientEffect | internal/domain/entity/room_presence.go:35-47 | The first client with the ID goes, the first one left becomes owner iff nobody else owns the room, and the round may open |
| RoomEffects.ToggleSpectatorEffect | internal/domain/entity/room_presence.go:61-78 | The target's flag flips, its vote is cleared in a hidden round and kept in an open one, nobody else changes, and the round may open; an unknown target is refused |
| RoomEffects.ToggleOwnerEffect | internal/domain/entity/room_presence.go:80-108 | The target's flag flips unless it is the sole owner, which is kept without an error; an unknown target is refused |
| RoomEffects.AdminToggleOwnerEffect | internal/domain/entity/room_presence.go:112-133 | The target's flag flips unless it is the sole owner or unknown, each with its own error |
| RoomEffects.UpdateClientNameEffect | internal/domain/entity/room_presence.go:135-144 | Only that client's name changes; an unknown client is refused |
| RoomEffects.ToggleBacklogModeEffect | internal/domain/entity/room_backlog.go:13-37 | Switching on turns a title into the first story, switching off drops the stories and keeps a named current one as title |
| RoomEffects.AddStoryEffect | internal/domain/entity/room_backlog.go:39-57 | A pending story with the generated ID comes last and turns the mode on |
| RoomEffects.RemoveStoryEffect | internal/domain/entity/room_backlog.go:59-97 | The named story goes, the index stays on the current story or moves to its successor or the new last story in a new round; empty and unknown IDs are refused |
| RoomEffects.SelectStoryEffect | internal/domain/entity/room_backlog.go:100-136 | The named story becomes current in a new round and is announced, unless it is current already or has been estimated; empty and unknown IDs are refused |
| RoomEffects.ReorderStoryRefusals | internal/domain/entity/room_backlog.go:157-178 | Which reorderings are refused, with which error |
| RoomEffects.AdvanceEffect | internal/domain/entity/room_backlog.go:213-230 | The next story becomes current in a new round iff there is one |
| RoomEffects.PrevEffect | internal/domain/entity/room_backlog.go:232-249 | The previous story becomes current in a new round iff there is one |
| RoomEffects.SetCurrentStoryEffect | internal/domain/entity/room_backlog.go:265-280 | In a backlog only the current story's name changes, otherwise only the title |
| RoomEffects.CastCountsEachVote | internal/domain/entity/room_voting.go:136-163 | A reveal counts every label as often as active clients vote for it, and no empty votes |
| RoomEffects.NewRoomIsEmpty | internal/domain/entity/room.go:17-40 | A room starts without clients, votes, stories and events, in backlog mode, hidden and at version 0 |
| RoomEffects.DeckCards | internal/domain/entity/deck.go:41-87 | The cards of both decks; an unknown deck type votes with Fibonacci |
| Summaries.MostAppearingIsExact | internal/domain/entity/room_voting.go:173-187 | The most-appearing list is strictly increasing in deck position and holds exactly the ordered cards with the greatest positive count |
| Summaries.ExtremesAreExact | internal/domain/entity/room_voting.go:218-249 | Lowest and highest are the first and last cards of the deck that were voted, present iff an ordered vote exists, and the spread is their distance, never negative |
| Summaries.HighConsensusHasOneMode | internal/domain/entity/room_voting.go:250-272 | Consensus High implies exactly one most-appearing vote |
| Summaries.ConsensusIsExact | internal/domain/entity/room_voting.go:218-272 | Unavailable iff no ordered card has a vote; High iff a single card is voted or some card has two thirds of the ordered votes and the spread is at most 1; Medium iff neither holds and the spread is at most 2; Low iff it is more |
| Summaries.ResultAndRangeAreExact | internal/domain/entity/room_voting.go:93-110 | The result is the mean of the numeric votes iff there is one, and the range is the distance of the ends iff both are numeric |
| Summaries.MajorityBound | internal/domain/entity/room_voting.go:250-264 | The integer test against (2n+2)/3 holds exactly when 3 times the greatest count is at least 2n |
| Summaries.StrongMajorityHasOneMode | internal/domain/entity/room_voting.go:250-264 | Under a two-thirds majority only one card can have the greatest count |
| Summaries.VotesAreAccountedFor | internal/domain/entity/room_voting.go:136-163 | Ordered votes and special votes together are all the votes cast |
| Summaries.FibonacciSummary | internal/domain/entity/room_voting.go:93-110 | On the Fibonacci deck a result exists iff an ordered vote does, the mean lies between lowest and highest, and range >= spread >= 0 |
| Summaries.IncreasingIsUnique | internal/domain/entity/room_voting.go:173-187 | A list in deck order is determined by its elements, so map iteration order cannot change the most-appearing list |
| Voting.CountVote | internal/domain/entity/room_voting.go:136-163 | Counting one more vote keeps sum, count, per-label counts, ordered list and special count equal to those of the multiset |
| Voting.MostVoteCount | internal/domain/entity/room_voting.go:189-198 | The loop over a map, in any order, returns the greatest count, 0 for none |
| Voting.MostAppearingVotes | internal/domain/entity/room_voting.go:173-187 | The filter and sort return the labels with the given count in deck order |
| Voting.ExtremeVotes | internal/domain/entity/room_voting.go:218-242 | The scan finds the extreme deck positions among the votes that are on the deck |
| Voting.CalculateConsensus | internal/domain/entity/room_voting.go:218-272 | The consensus record satisfies its relational specification for every list of votes |
| Voting.Summarize | internal/domain/entity/room_voting.go:93-110 | Tallies, modes and consensus computed by the loops assemble to the summary specification of the multiset of votes |
| Decks.EstimateCards | internal/domain/entity/deck.go:108-117 | The loop returns the cards before the first special one |
| Decks.EstimatesIsPrefix | internal/domain/entity/deck.go:108-117 | Those cards are a prefix without special cards, cut only at a special card |
| Decks.Position | internal/domain/entity/deck.go:120-127 | A vote has a position iff it is an ordered card, and the position points at it |
| Decks.FindPosition | internal/domain/entity/deck.go:120-127 | The loop over the estimate cards returns that position |
| Decks.FibonacciDeck | internal/domain/entity/deck.go:41-55 | The numeric deck's labels parse to their values and are distinct |
| Decks.TShirtDeck | internal/domain/entity/deck.go:41-55 | The categorical deck's ordered labels are distinct |
| Decks.DeckCardsAreDistinct | internal/domain/entity/deck.go:82-87 | Whatever deck type is stored, the resolved deck has distinct ordered cards |
| Rooms.Client.CastVote | internal/domain/entity/client.go:27-37 | The client's fields become the vote, the voted flag and the time, cleared together for a nil or empty vote |
| Rooms.ClientCollection.Add | internal/infra/boundaries/hub/clientcollection/clientcollection.go:17-19 | The client is appended |
| Rooms.ClientCollection.Remove | internal/infra/boundaries/hub/clientcollection/clientcollection.go:21-28 | The first client with the ID is removed in place, others keep their order |
| Rooms.ClientCollection.Filter | internal/infra/boundaries/hub/clientcollection/clientcollection.go:51-59 | The loop keeps exactly the matching clients in order |
| Rooms.Room.FindClient | internal/domain/entity/room_presence.go:49-53 | Finds the first client with the ID, or none |
| Rooms.Room.CountOwners | internal/domain/entity/room_presence.go:55-59 | Counts the owners |
| Rooms.Room.CollectVotes | internal/domain/entity/room_voting.go:136-163 | The loop over the clients tallies exactly the non-empty votes of non-spectators |
| Rooms.Room.SetReveal | internal/domain/entity/room_voting.go:81-134 | Opening or hiding a round changes fields, current story and events as the model's reveal does; an open round is left alone |
| Rooms.Room.OpenVotes | internal/domain/entity/room_voting.go:81-134 | Opening a hidden round gives the model's reveal of the old state: flag, summary, current story and events |
| Rooms.Room.AnnounceVotes | internal/domain/entity/room_voting.go:109-134 | Stamps the current story with the stored summary and records the reveal's events in order |
| Rooms.Room.CheckReveal | internal/domain/entity/room_presence.go:150-160 | Opens the round iff every non-spectator has voted |
| Rooms.Room.StartRound | internal/domain/entity/room_voting.go:64-79 | Hides the round and clears every vote |
| Rooms.Room.PullEvents | internal/domain/entity/room.go:91-101 | Returns the buffered events and empties the buffer |
| Rooms.Room.RecordEvent | internal/domain/entity/room.go:103-105 | Appends one event |
| Rooms.Room.NewClient | internal/domain/entity/room_presence.go:24-33 | Appends a client that owns the room iff it is the first |
| Rooms.Room.RemoveClient | internal/domain/entity/room_presence.go:35-47 | Removes the client, promotes one if no owner is left and checks for a reveal, as the model does |
| Rooms.Room.Vote | internal/domain/entity/room_voting.go:14-40 | Unknown client, foreign card, frozen round and recorded vote each change the room as the model does |
| Rooms.Room.ToggleReveal | internal/domain/entity/room_voting.go:51-62 | Owner check and flip of the round, with the whole new state |
| Rooms.Room.ResetVoting | internal/domain/entity/room_voting.go:64-79 | Owner check and new round, with the whole new state |
| Rooms.Room.ToggleSpectator | internal/domain/entity/room_presence.go:61-78 | Flag, vote clearing only in a hidden round, and reveal check, with the whole new state |
| Rooms.Room.ToggleOwner | internal/domain/entity/room_presence.go:80-108 | Silently refuses to demote the last owner, else flips the flag |
| Rooms.Room.AdminToggleOwner | internal/domain/entity/room_presence.go:112-133 | Reports an error for the last owner or an unknown client, else flips the flag |
| Rooms.Room.UpdateClientName | internal/domain/entity/room_presence.go:135-144 | Renames that client and nothing else |
| Rooms.Room.ToggleBacklogMode | internal/domain/entity/room_backlog.go:13-37 | Both directions of the switch, with the whole new state |
| Rooms.Room.AddStory | internal/domain/entity/room_backlog.go:39-57 | Appends a pending story and turns backlog mode on |
| Rooms.Room.RemoveStory | internal/domain/entity/room_backlog.go:59-97 | The slice edit and index cases give the model's new state |
| Rooms.Room.RemoveCurrentStory | internal/domain/entity/room_backlog.go:71-97 | The three index cases of removing the current story, each in a new round |
| Rooms.Room.RemoveOtherStory | internal/domain/entity/room_backlog.go:71-97 | Removing another story shifts the index only when it came before the current one |
| Rooms.Room.SelectStory | internal/domain/entity/room_backlog.go:100-136 | Every refusal, and the new round at the selected story |
| Rooms.Room.ReorderStory | internal/domain/entity/room_backlog.go:140-178 | Every refusal, the move in place and the new index |
| Rooms.Room.UpdateCurrentStoryIndex | internal/domain/entity/room_backlog.go:187-202 | ID search when the current story has one, index arithmetic otherwise |
| Rooms.Room.AdvanceToNextStory | internal/domain/entity/room_backlog.go:213-230 | Moves on with a new round unless at the last story |
| Rooms.Room.PrevStory | internal/domain/entity/room_backlog.go:232-249 | Moves back with a new round unless at the first story |
| Rooms.Room.SetCurrentStory | internal/domain/entity/room_backlog.go:265-280 | Renames the current story in backlog mode, else sets the title |
| Rooms.Room.Join | internal/application/planningpoker/usecase/joinroom.go:137-149 | Finds the client before adding one |
| Rooms.Room.Do | internal/domain/entity/room_presence.go:24-160 | Every command of the class is the model's function of the old state |
| Participants.MapToParticipants | internal/application/planningpoker/usecase/dto/commands.go:81-100 | Sorts the room's own client slice in place by name; the result shows the same clients |
| Participants.PermutationIsDifferent | internal/application/planningpoker/usecase/dto/commands.go:81-84 | A sorted client slice still holds pairwise different clients |
| Participants.NameLeqIsLexicographic | internal/application/planningpoker/usecase/dto/commands.go:81-84 | The order of names is the lexicographic one |
| InMemoryHub.CloneRoom | internal/infra/boundaries/hub/inmemory/hub.go:261-296 | The clone is the room as it is persisted (no buffered events, vote times at the zero instant dropped) and shares no mutable object with anything older |
| InMemoryHub.InMemoryHub.SaveRoom | internal/infra/boundaries/hub/inmemory/hub.go:220-232 | Live and saved room both get the next version, and the saved one is a separate equal copy |
| InMemoryHub.InMemoryHub.RefreshSavedRoom | internal/infra/boundaries/hub/inmemory/hub.go:207-218 | The snapshot takes the live fields under the version already saved |
| InMemoryHub.InMemoryHub.SaveRoomIfVersion | internal/infra/boundaries/hub/inmemory/hub.go:234-259 | Succeeds iff the room is the live one and the expected version is the saved one; on a mismatch the live room is replaced by a copy of the saved one, and if the table filed the room's own client objects, it does so afterwards iff the save succeeded or the room has no clients |
| InMemoryHub.InMemoryHub.Guarded | internal/infra/boundaries/hub/inmemory/hub.go:234-259 | A guarded use case keeps live and saved rooms apart and in agreement; a stale one leaves the room as it was before the mutation, but the table's entries then point at clients of the discarded room |
| InMemoryHub.InMemoryHub.Unguarded | internal/application/planningpoker/usecase/vote.go:32-58 | An unguarded use case applies the transition, raises the version by one, keeps live and saved rooms apart and in agreement and leaves the room's clients filed |
| InMemoryHub.InMemoryHub.ServeAll | internal/infra/boundaries/hub/inmemory/hub.go:220-259 | For every sequence of guarded and unguarded use cases on a room: the hub stays valid and in agreement, the version grows by the number of successes, and a guarded one succeeds only if it expects the version reached by then and is stale only if it does not |
| InMemoryHub.OneSuccessPerVersion | internal/infra/boundaries/hub/inmemory/hub.go:234-259 | So in any history at most one guarded use case succeeds per expected version |
| InMemoryHub.InMemoryHub.AddRoom | internal/infra/boundaries/hub/inmemory/hub.go:42-82 | A created room is filed live and saved, apart and in agreement, also over a room already filed under the ID |
| InMemoryHub.InMemoryHub.RemoveRoom | internal/infra/boundaries/hub/inmemory/hub.go:93-102 | Removes both copies and nothing else |
| InMemoryHub.InMemoryHub.RemoveClient | internal/infra/boundaries/hub/inmemory/hub.go:170-205 | Removes the client from the table and from the live room and refreshes the saved one, or drops an emptied room; the clients who stay are still filed if all were |
| InMemoryHub.InMemoryHub.Leave | internal/application/planningpoker/usecase/leaveroom.go:38-66 | The leave use case, removal of the last client included, keeps the hub in agreement |
| InMemoryHub.InMemoryHub.JoinRoom | internal/application/planningpoker/usecase/joinroom.go:55-125 | The join use case with creation, reconnection and rollback: what the room and the table of clients are afterwards in each case, hub in agreement |
| InMemoryHub.InMemoryHub.AddToRoom | internal/infra/boundaries/hub/inmemory/hub.go:144-154 | A new client is added to the live room, filed in the table as the room's own object and snapshotted without a version change; a known one is found and the table left alone |
| RoomProtocol.StoreIsReplay | internal/infra/boundaries/hub/redis/hub.go:403-485 | In every interleaving of locked processes with leases that hold, distinct tokens and a room that stays, the stored room is the committed transitions replayed in commit order and its version has grown by their number |
| RoomProtocol.StepUnderLock | internal/application/planningpoker/usecase/vote.go:32-58 | Under an unexpired lease nobody holds an outdated copy, so each save commits one transition of the stored room |
| RoomProtocol.EveryWriteAddsOne | internal/infra/boundaries/hub/redis/hub.go:438-455 | With expired leases and unlocked writers too, every write to a room that stays raises its version by exactly one, and a guarded commit lands on the version it expected |
| RoomProtocol.OneCommitPerExpectedVersion | internal/infra/boundaries/hub/redis/hub.go:448-485 | Of the guarded commands expecting the same version at most one is ever committed |
| RoomProtocol.SaveIsCurrentIffSameVersion | internal/infra/boundaries/hub/redis/hub.go:403-485 | Whoever saves, locked or not, guarded or not: the change was computed from the room now stored iff the stored version is the one that was loaded |
| RoomProtocol.GuardedCommitIsCurrentIffExpected | internal/infra/boundaries/hub/redis/hub.go:448-485 | A guarded commit was computed from the room it replaces iff its caller expects the version the command loaded |
| RoomProtocol.CurrentCommitAdvances | internal/infra/boundaries/hub/redis/hub.go:403-485 | Committing such a current change makes the stored room the transition of the room stored before |
| RoomProtocol.SerialIffVersionsAreSerial | internal/infra/boundaries/hub/redis/hub.go:403-485 | In every run, with expired leases and unlocked writers, each commit was computed from the room its predecessors left iff each was computed from the version before it, and then the store is the commits replayed in order |
| RoomProtocol.GuardedCommitLosesNothing | internal/application/planningpoker/usecase/reorderstory.go:32-47 | A guarded command whose caller expects a version that has existed is committed only onto the very room it was computed from, lease or no lease |
| RoomProtocol.RunIsCausal | internal/infra/boundaries/hub/redis/hub.go:457-485 | Such a command never expects more than the version it has loaded |
| RoomProtocol.RenameCanBeLost | internal/application/planningpoker/usecase/updatename.go:29-48 | For any room with two clients there is a run in which one name change is committed and then wiped out by another; its second save is not current and its log is not serial |
| RoomProtocol.GuessedVersionLosesRename | internal/infra/boundaries/hub/redis/hub.go:457-485 | The guard compares with the caller's version and not with the one loaded: a caller that expects a version still to come overwrites a name change committed in between, by a commit that is not current |
| RoomProtocol.StoredRoomStaysValid | internal/infra/boundaries/hub/redis/hub.go:312-347 | In every interleaving, with crashes, expired leases, unlocked writers, deletions and re-creations, the stored room satisfies the aggregate's invariant |
| RoomProtocol.StoredRoomStaysReadable | internal/infra/boundaries/hub/redis/serialization.go:159-174 | So a stored room always has story IDs, and no load is refused for lack of one |
| ProtocolSteps.TryAcquireEffect | internal/infra/lock/redis.go:50-75 | A free lock is taken under the process's token for one timeout; a taken one costs an attempt, and the last attempt ends the process |
| ProtocolSteps.TriesAgainWhileAttemptsRemain | internal/infra/lock/redis.go:54-75 | A process that finds the lock taken tries again iff attempts remain |
| ProtocolSteps.AcquireUnheardEffect | internal/infra/lock/redis.go:54-75 | A lost reply leaves the lock taken and the process ended |
| ProtocolSteps.ReleaseEffect | internal/infra/lock/redis.go:77-104 | A release deletes the lock iff it is taken under the process's own token |
| ProtocolSteps.LoadEffect | internal/infra/boundaries/hub/redis/hub.go:149-161 | A stored room is loaded unless a story lacks an ID; a missing one leads on only for a join |
| ProtocolSteps.CreateEffect | internal/infra/boundaries/hub/redis/hub.go:126-133 | A join creates a missing room with the Fibonacci deck and goes on with it |
| ProtocolSteps.MutateEffect | internal/application/planningpoker/usecase/vote.go:32-58 | A refused command and a reconnection save nothing, any other changes the loaded room in memory only |
| ProtocolSteps.SaveEffect | internal/infra/boundaries/hub/redis/hub.go:403-485 | A save writes the changed room without its events under the next version, a guarded one only over the expected version, and a departure that empties the room deletes it |
| ProtocolSteps.GiveUpEffect | internal/application/planningpoker/usecase/vote.go:32-58 | A process that gives up changes nothing in the store and still releases a lock it holds |
| RoomProtocol.MutualExclusion | internal/infra/lock/redis.go:50-104 | With distinct tokens at most one process is inside an unexpired lease at any moment of any run |
| RoomProtocol.LeasesHoldIffNoCollision | internal/infra/lock/redis.go:50-104 | Throughout a run every process inside its lease owns the lock in the store iff nobody ever releases a lock that another process holds under the same token |
| RoomProtocol.StepKeepsLease | internal/infra/lock/redis.go:50-104 | The same for one step |
| RoomProtocol.OneHolder | internal/infra/lock/redis.go:50-104 | Without such a release at most one process is inside its lease, whatever tokens were drawn |
| RoomProtocol.OnlyTheHolderReleases | internal/infra/lock/redis.go:77-104 | A running lease is ended by no step but its holder's release |
| RoomProtocol.AttemptsAreBounded | internal/infra/lock/redis.go:54-75 | No process issues more than maxRetries acquisitions |
| RoomProtocol.EqualTokensBreakTheLock | internal/infra/lock/redis.go:52 | With two equal tokens there is a run in which a late release frees another holder's lease and two processes hold leases at once |
| JsonText.ParseUndoesText | internal/infra/boundaries/hub/redis/serialization.go:104-126 | The text of any JSON document with well-formed numbers reads back as that document |
| JsonText.ReadQuoted | internal/infra/boundaries/hub/redis/serialization.go:104-126 | Reading undoes the escaping of every string |
| StoredForm.TextIsJson | internal/infra/boundaries/hub/redis/serialization.go:104-126 | Words, quoted strings, brackets and braces with commas between the parts and keys before colons |
| StoredForm.EscapesAreStandard | internal/infra/boundaries/hub/redis/serialization.go:104-126 | Every character of a string is written as it is, by its short escape or as four hexadecimal digits |
| StoredForm.EscapesAreRead | internal/infra/boundaries/hub/redis/serialization.go:121-126 | A reader knows exactly the eight short escapes and the hexadecimal one |
| StoredForm.HexEscapesAreRead | internal/infra/boundaries/hub/redis/serialization.go:121-126 | A hexadecimal escape is the character of that number, half a surrogate pair is replaced, and anything but four hexadecimal digits is refused |
| RoomCodec.DeserializeUndoesSerialize | internal/infra/boundaries/hub/redis/serialization.go:69-174 | Reading a written room gives back all persisted fields, exactly when its stories have IDs; otherwise the missing-ID error |
| RoomCodec.NothingElseIsLost | internal/infra/boundaries/hub/redis/serialization.go:69-105 | The stored room is the room without its buffered events iff no vote is dated at the zero instant |
| StoredForm.RoomDocument | internal/infra/boundaries/hub/redis/serialization.go:19-38 | The stored text parses to an object with every field of the room under its key, in its form, left out exactly when the field may be |
| StoredForm.ClientDocument | internal/infra/boundaries/hub/redis/serialization.go:39-47 | A client's seven fields under their keys |
| StoredForm.StoryDocument | internal/infra/boundaries/hub/redis/serialization.go:12-18 | A story's five fields under their keys |
| StoredForm.RoomIsDecoded | internal/infra/boundaries/hub/redis/serialization.go:121-174 | Any document that is read, whoever wrote it: each field of the room is what stands under its key, and the zero value for an absent field or a null |
| StoredForm.ClientIsDecoded | internal/infra/boundaries/hub/redis/serialization.go:50-81 | A client's document is refused iff a field has the wrong type, and else read field by field with zero values for what is absent |
| StoredForm.StoryIsDecoded | internal/infra/boundaries/hub/redis/serialization.go:121-174 | The same for a story |
| RoomCodec.LookupField | internal/infra/boundaries/hub/redis/serialization.go:11-48 | In an object written with omitted fields every field is found under its key and every omitted one is absent |
| RoomCodec.ClientReads | internal/infra/boundaries/hub/redis/serialization.go:50-81 | A written client reads back |
| RoomCodec.StoryReads | internal/infra/boundaries/hub/redis/serialization.go:107-119 | A written story reads back |
| SaveScripts.GsubRewritesOnlyTheVersion | internal/infra/boundaries/hub/redis/hub.go:444 | Applied to a written room, whatever its names and stories contain, the substitution rewrites the version and nothing else |
| SaveScripts.CleanString | internal/infra/boundaries/hub/redis/hub.go:444 | No string value can hold a match of the pattern: its inner quotes follow a backslash |
| SaveScripts.TextEndsWithVersion | internal/infra/boundaries/hub/redis/serialization.go:19-38 | The version is the last field of the text and nothing before it depends on it |
| SaveScripts.SaveScriptWritesNextVersion | internal/infra/boundaries/hub/redis/hub.go:438-446 | The script stores exactly the room under the stored version plus one, or under 1, iff that version is below 10^14 |
| SaveScripts.ConditionalSaveComparesVersions | internal/infra/boundaries/hub/redis/hub.go:448-485 | Up to and including 2^53 the second script replaces the room under the expected version plus one iff the stored version is the expected one |
| SaveScripts.ConditionalSaveComparesDoubles | internal/infra/boundaries/hub/redis/hub.go:448-485 | For all versions the script replaces the room iff stored and expected version are the same double |
| SaveScripts.GuardIsRightIff | internal/infra/boundaries/hub/redis/hub.go:448-485 | The script does what a version guard should iff stored and expected version are equal or differ as doubles |
| SaveScripts.DoublesSeparateUpTo | internal/infra/boundaries/hub/redis/hub.go:452 | All versions up to a bound are different doubles iff the bound is at most 2^53 |
| SaveScripts.WrongVersionIsAccepted | internal/infra/boundaries/hub/redis/hub.go:448-485 | A room stored under 2^53 is replaced for a caller that expects 2^53 + 1 |
| SaveScripts.DoubleIsNearest | internal/infra/boundaries/hub/redis/hub.go:438-455 | A Lua number is the nearest multiple of the spacing, ties going to the even one |
| SaveScripts.ScaleIsExact | internal/infra/boundaries/hub/redis/hub.go:438-455 | That spacing is 1 below 2^53 and else the power of two that leaves 53 binary digits |
| SaveScripts.SmallNumbersArePrinted | internal/infra/boundaries/hub/redis/hub.go:444 | Versions of up to fourteen digits are printed as decimal numbers |
| SaveScripts.FirstScientificVersion | internal/infra/boundaries/hub/redis/hub.go:444 | The first version that is not is printed as 1e+14 |
| SaveScripts.GsubReplacesEveryMatch | internal/infra/boundaries/hub/redis/hub.go:444 | Each match of the pattern is replaced with all its digits, and the scan goes on behind it |
| SaveScripts.UnversionedTextFails | internal/infra/boundaries/hub/redis/hub.go:438-446 | A stored text that is no document or has no version makes the first script fail |
| SaveScripts.CompareAnswers | internal/infra/boundaries/hub/redis/hub.go:448-455 | The second script tells a missing room, another version and a replacement apart |
| SaveScripts.SavedRoomLoads | internal/infra/boundaries/hub/redis/hub.go:403-425 | Loading what an unconditional save wrote gives the room saved under the next version |
| RedisStore.Serialize | internal/infra/boundaries/hub/redis/serialization.go:69-105 | The loops over a room object's clients and stories write the text of the room's value |
| RedisStore.SerializeStories | internal/infra/boundaries/hub/redis/serialization.go:107-119 | The loop writes each story in order |
| RedisStore.CheckStoryIds | internal/infra/boundaries/hub/redis/serialization.go:159-174 | The loop refuses exactly the lists with a story that has no ID |
| RedisStore.FillRoom | internal/infra/boundaries/hub/redis/serialization.go:131-156 | The object filled field by field and client by client is new and has every field of the value but its events |
| RedisStore.RedisStore.SaveRoom | internal/infra/boundaries/hub/redis/hub.go:403-425 | Stores what the first script makes of the stored text and the room, and sets the object's version to what the script returned |
| RedisStore.RedisStore.NewRoom | internal/infra/boundaries/hub/redis/hub.go:120-133 | A new room is stored at once as it is, and the store holds it from then on |
| RedisStore.RedisStore.SaveRoomIfVersion | internal/infra/boundaries/hub/redis/hub.go:457-485 | Stores the room under the expected version plus one and sets the object's version, or changes nothing |
| RedisStore.RedisStore.LoadRoom | internal/infra/boundaries/hub/redis/hub.go:149-161 | A missing room, unreadable text, a room with a story lacking an ID and a fresh object equal to the stored room are told apart |
| RedisStore.RedisStore.HeldRoomLoads | internal/infra/boundaries/hub/redis/hub.go:487-500 | A stored room is read back as it is |
| RedisStore.RedisStore.Unguarded | internal/application/planningpoker/usecase/vote.go:32-58 | With nobody writing in between, loading into objects, running the method and saving leaves the text of the committed transition, or nothing changed after an error |
| RedisStore.RedisStore.Guarded | internal/application/planningpoker/usecase/reorderstory.go:32-47 | The same for a guarded command: it is committed iff the caller's version is the stored one as a double, which up to 2^53 means iff it is the stored one, and then the text is that of the machine's committed transition |
| RedisStore.RedisStore.RemoveClient | internal/infra/boundaries/hub/redis/hub.go:312-347 | The client is removed and the room saved, or deleted when nobody is left |
| SchemaLoader.SchemaLoader.ParseDefinitions | tools/protocolgen/spec.go:275-282 | Loading terminates and succeeds iff every definition is acceptable, every reference resolves to a definition of the right file and no references form a cycle; the circular error is reported only with a real cycle |
| SchemaLoader.SchemaLoader.ParseDefinition | tools/protocolgen/spec.go:318-338 | The memoised parse returns the definition's translation and leaves the parsing set as it was; an error has its cause in the definitions |
| SchemaLoader.SchemaLoader.ParseSchema | tools/protocolgen/spec.go:340-373 | A parsed schema is acceptable, its references are all parsed, and the result is its translation |
| SchemaLoader.SchemaLoader.ParseRefSchema | tools/protocolgen/spec.go:375-396 | A reference parses iff it names a definition in the file it points at, which is then parsed first |
| SchemaLoader.SchemaLoader.ParseObjectProperties | tools/protocolgen/spec.go:542-583 | Properties are translated in order, with required names all declared |
| SchemaLoader.SchemaLoader.ParseArrayItems | tools/protocolgen/spec.go:585-600 | An array needs an acceptable item schema |
| SchemaLoader.SchemaLoader.CycleFound | tools/protocolgen/spec.go:326-328 | A definition met while it is being parsed closes a cycle of references |
| SchemaLoader.TopologicalMeansAcyclic | tools/protocolgen/spec.go:318-338 | If every definition is completed after those it refers to, there is no cycle |
| SchemaLoader.CheckEnum | tools/protocolgen/spec.go:504-528 | The enum loop accepts exactly non-empty lists of distinct values of a string type |
| SchemaLoader.ParseNode | tools/protocolgen/spec.go:340-359 | The checks on one node accept exactly the nodes the specification does |
| SchemaMeaning.KindIsSpelled | tools/protocolgen/spec.go:620-680 | A node has a kind iff its type name, or the one entry of its type list that is not null, spells it, string if no type is given beside an enum or a constant; it is nullable iff the list contains null |
| SchemaMeaning.NodeIsKept | tools/protocolgen/spec.go:340-373 | An accepted node's loaded schema has the kind and nullability its keywords give it, and its enum, constant, format, x-go-type and minimum are those of the keywords |
| SchemaMeaning.ReferenceIsKept | tools/protocolgen/spec.go:375-396 | A loaded reference is the name of its target and nothing else |
| SchemaMeaning.ChildrenAreKept | tools/protocolgen/spec.go:542-600 | Properties come in order under their names, required iff listed, each with its own schema, and an array has the schema of its items |
| SchemaMeaning.WhatIsAccepted | tools/protocolgen/spec.go:340-600 | Exactly which raw schemas are accepted: references to a definition in the file they point at, and nodes with a spelled kind, fitting keywords and acceptable children |
| SchemaUsage.LoadSpec | tools/protocolgen/spec.go:187-208 | A loaded spec exists iff the definitions are sound and acyclic, and comes ranked so that references always go down |
| SchemaUsage.LoadedIsRanked | tools/protocolgen/spec.go:318-396 | The loader's completion order ranks every definition above those it refers to, and the spec is closed under references |
| SchemaUsage.TranslateKeepsRefs | tools/protocolgen/spec.go:340-396 | A translated schema refers to exactly the names its raw schema does |
| SchemaUsage.SchemaUsesTimeIsReachability | tools/protocolgen/golang.go:154-173 | On a ranked spec schemaUsesTime terminates and holds iff a chain of references leads to a date-time string |
| SchemaUsage.SpecUsesTimeIsExact | tools/protocolgen/golang.go:145-152 | specUsesTime holds iff some definition contains a date-time string |
| SchemaUsage.CollectUsage | tools/protocolgen/typescript.go:345-352 | The visited-set scan sets each flag iff some definition contains the feature, and its timestamp flag equals specUsesTime |
| SchemaUsage.UsageScan.Scan | tools/protocolgen/typescript.go:354-382 | A scan sets the flags of everything in the schema and only flags that occur, and terminates by the visited set |
| SchemaUsage.NewSpec | tools/protocolgen/spec.go:117-130 | The index holds each definition once; duplicates are refused |
| SchemaMeaning.ContainsMeansPart | tools/protocolgen/typescript.go:354-382 | A schema contains a feature iff a part of it, reached through properties and items, is a date-time string, a UUID string or an integer |
| SchemaMeaning.RefersMeansPart | tools/protocolgen/spec.go:340-373 | A schema refers to a name iff a part of it is a reference to that name |
| CommandLedger.ExecutedOnce | internal/infra/bus/websocketbus.go:230-329 | Until the first execution's marker, or the outcome that replaced it, expires, the use case runs once and every other delivery is turned away or gets that outcome, in every interleaving of the claim's store calls, lost replies, crashes and failed completions included |
| CommandLedger.ClaimRunsAgainIffExpired | internal/infra/boundaries/commandledger/redis/ledger.go:44-85 | In every run: after one execution has started, a claim runs the use case a second time iff the marker, or the outcome that replaced it, has expired and no claim whose reply was lost has left another marker in force |
| CommandLedger.HeardClaimRunsAgainIffLate | internal/infra/boundaries/commandledger/redis/ledger.go:44-85 | If no reply was lost, it does so iff the marker or the outcome has expired |
| CommandLedger.FirstClaimRunsIffUnreserved | internal/infra/boundaries/commandledger/redis/ledger.go:44-55 | While nothing has run, a claim runs the use case iff no marker set by an unheard claim is in force |
| CommandLedger.OneExecutionRuns | internal/infra/boundaries/commandledger/redis/ledger.go:44-85 | In every run, until a second execution starts, the key holds the unheard marker, the outcome or the marker that the history says, and nobody but the first is in the use case |
| CommandLedger.UnheardClaimRefusesRetries | internal/infra/boundaries/commandledger/redis/ledger.go:44-75 | A run in which a claim sets the marker and its reply is lost: nothing runs, the next delivery is refused, and one whose marker expires between its two calls runs the use case by its second claim |
| CommandLedger.LossesAreCrashesAndFailures | internal/infra/bus/websocketbus.go:316-329 | Over whole runs the only execution is lost, ended without an outcome in the store, iff it has crashed or its completion has failed |
| CommandLedger.LostIsRunAgain | internal/infra/boundaries/commandledger/redis/ledger.go:44-85 | After such a loss a claim runs the use case a second time iff the marker of the lost execution, and any later unheard one, has expired, however long after the expiry it was delivered |
| CommandLedger.LateOrLostRunsTwice | internal/infra/boundaries/commandledger/redis/ledger.go:44-85 | For each of a late execution, a crash and an outcome that cannot be stored there is a run in which the next delivery after the marker runs the use case again |
| CommandLedger.RetryIsAnswered | internal/infra/boundaries/commandledger/redis/ledger.go:44-75 | In every run with at most one execution: while anything is in force, a claim that reads the key is answered command-in-progress before the outcome is stored or under an unheard marker, and with the stored bytes otherwise |
| CommandLedger.ExecutionsAreSpaced | internal/infra/boundaries/commandledger/redis/ledger.go:44-85 | With crashes and lost completions too, two executions of one command start at least one marker lifetime apart |
| CommandLedger.OutcomesAreKept | internal/infra/boundaries/commandledger/redis/ledger.go:77-85 | In every run, after any execution has stored its outcome, none starts before that outcome's lifetime is over |
| CommandLedger.LateExecutionRunsTwice | internal/infra/boundaries/commandledger/redis/ledger.go:44-85 | The late execution even stores its outcome afterwards, while the second one is under way |
| CommandLedger.KeysAreDistinct | internal/infra/boundaries/commandledger/inmemory/ledger.go:74-76 | Equal keys come from the same room, client and command whenever neither room ID is the other followed by a colon and more |
| CommandLedger.RoomsShareKeysIffExtended | internal/infra/boundaries/commandledger/inmemory/ledger.go:74-76 | Deliveries in two different rooms can share a key iff one room ID is the other followed by a colon and more |
| CommandLedger.EqualKeys | internal/infra/boundaries/commandledger/inmemory/ledger.go:74-76 | With command IDs of one length, keys are equal iff the command IDs and the joined room and client are |
| CommandLedger.ColonsCollide | internal/infra/boundaries/commandledger/inmemory/ledger.go:74-76 | The clients of a room and of its extension whose deliveries share a key, for every room, extension and command |
| CommandLedger.InMemoryLedger.ClaimCommand | internal/infra/boundaries/commandledger/inmemory/ledger.go:40-62 | The in-memory claim answers as the one-step claim of the machine does, expired entries counting as absent, and touches no other key |
| CommandLedger.InMemoryLedger.CompleteCommand | internal/infra/boundaries/commandledger/inmemory/ledger.go:64-72 | The outcome is held for its lifetime under its key only |
| ProtocolSteps.SetNXEffect | internal/infra/boundaries/commandledger/redis/ledger.go:44-55 | The first call sets the marker and starts the use case iff the key holds nothing in force, and leads to reading otherwise |
| ProtocolSteps.GetEffect | internal/infra/boundaries/commandledger/redis/ledger.go:56-75 | The second call answers from the key; without one it leads to a second claim, or after that to a failure |
| ProtocolSteps.ClaimAtOnceEffect | internal/infra/boundaries/commandledger/inmemory/ledger.go:40-62 | The claim in one step starts the use case iff the key holds nothing in force, else answers from it |
| ProtocolSteps.LostReplyEffect | internal/infra/boundaries/commandledger/redis/ledger.go:44-55 | A call whose reply is lost answers with a failure and runs nothing, though the marker may be set |
| ProtocolSteps.CompletionEffect | internal/infra/bus/websocketbus.go:316-329 | The frame of the use case is sent and stored for its lifetime, or only sent |
| WebsocketBus.Bus.Process | internal/infra/bus/websocketbus.go:206-228 | What each kind of message sends, runs and stores: unknown type, no ID, invalid ID, no ledger, retry or first delivery |
| WebsocketBus.Bus.ProcessCommand | internal/infra/bus/websocketbus.go:230-303 | A claimed command runs its use case once, stores the encoded acknowledgement or error and sends those bytes; a claim that fails is answered with an internal error and runs nothing |
| WebsocketBus.Bus.FinishCommand | internal/infra/bus/websocketbus.go:316-329 | The outcome is stored even when the connection is already closed, and sent even when it cannot be stored |
| WebsocketBus.CommandAnswers | internal/infra/bus/websocketbus.go:230-329 | What the client reads after a valid command: an acknowledgement with the canonical ID and the version iff the use case succeeded, an error with its code and message otherwise, in-progress, the stored bytes or an internal error when nothing ran; and that the frame sent is the one stored |
| WebsocketBus.OtherAnswers | internal/infra/bus/websocketbus.go:206-240 | The same for unknown types, missing and invalid IDs, a missing ledger and the stale answer to a message without an ID |
| WebsocketBus.DeliverTwice | internal/infra/bus/websocketbus.go:230-329 | A command delivered again while its outcome is held, also over a new connection, does not run again and is answered with identical bytes |
| WebsocketBus.SecondDeliveryRunsIffExpired | internal/infra/bus/websocketbus.go:230-329 | After a delivery that ran the use case another one runs it again iff its claim works and the stored outcome, or the marker when storing failed, has expired |
| Subscriptions.CallsKeepSound | internal/infra/boundaries/hub/redis/hub.go:209-283 | After any sequence of AddBus and RemoveBus a room is subscribed iff its count is positive, and the count is at least its number of local buses |
| Subscriptions.LocalClientsAreSubscribed | internal/infra/boundaries/hub/redis/hub.go:209-283 | Every locally connected client's room is subscribed |
| Subscriptions.CountsAreExact | internal/infra/boundaries/hub/redis/hub.go:209-283 | After any calls every count is the number of the room's buses iff no call gave a bus to a client that still had one in some room |
| Subscriptions.StepExactness | internal/infra/boundaries/hub/redis/hub.go:209-283 | The same for one call |
| Subscriptions.ExactMeansNoLeak | internal/infra/boundaries/hub/redis/hub.go:209-283 | While counts are exact a room is subscribed iff it has a local bus |
| Subscriptions.ReconnectLeaksSubscription | internal/application/planningpoker/usecase/joinroom.go:151-170 | After a reconnection in any history the room of the client's first bus stays subscribed whatever calls follow |
| Subscriptions.RedisHub.AddBus | internal/infra/boundaries/hub/redis/hub.go:209-244 | Registers the bus, counts it and subscribes the room, or takes all of it back when the subscription is not confirmed |
| Subscriptions.RedisHub.RemoveBus | internal/infra/boundaries/hub/redis/hub.go:253-283 | Unregisters the bus, and unsubscribes the room with the last count |
| Subscriptions.AddEffect | internal/infra/boundaries/hub/redis/hub.go:209-244 | After any calls, adding a bus registers, counts and subscribes it iff the room is subscribed already or the subscription is confirmed, takes it back otherwise, and touches no other room |
| Subscriptions.RemoveEffect | internal/infra/boundaries/hub/redis/hub.go:253-283 | After any calls, removing a bus takes the client's bus and one count of its room, ends the subscription iff that was the last, and changes nothing else |
| Subscriptions.RemovalKeepsRoomForOthers | internal/infra/boundaries/hub/redis/hub.go:253-283 | With exact counts the room is subscribed after a departure iff another client's bus is in it |
| Subscriptions.AddThenRemove | internal/infra/boundaries/hub/redis/hub.go:209-283 | A client that comes and goes leaves the tables as they were |

## Left out

- RoomModel: one command reads one clock value, while the program reads the clock several times within a command; the zero instant is the number 0.
- Summaries.FibonacciSummary: the mean is a real number, so float32 rounding is not modelled.
- RoomProtocol.EveryWriteAddsOne: versions are unbounded naturals, so uint64 wrap-around is not modelled.
- RoomProtocol.StoreIsReplay: assumes the room stays in the store, leases that outlast the work and distinct tokens; one room and one clock shared by all processes are modelled, other rooms use other keys.
- RoomProtocol.GuardedCommitLosesNothing: assumes that a caller expects only versions that existed when it called; `GuardedCommitIsCurrentIffExpected` makes no assumption on callers.
- RoomProtocol.OneCommitPerExpectedVersion: like all version results it excludes deletion, expiry and re-creation of the room's key, which restart the version.
- SaveScripts.ConditionalSaveComparesVersions: stated up to 2^53; `GuardIsRightIff` covers all versions.
- RoomCodec.DeserializeUndoesSerialize: the host library's texts for floats and instants are parameters assumed to read back; a nil and an empty list of most-appearing votes are the same value; the consensus is one of its five values.
- JsonText.ParseUndoesText: the reader takes no white space between tokens, accepts number literals by their alphabet, and turns every surrogate escape into the replacement character; strings are sequences of Unicode scalar values, so invalid UTF-8 is not modelled.
- RedisStore.RedisStore.Unguarded: joining, which saves in a step of its own, is left to the state machine; the time to live of stored rooms and the client-to-room keys are not stored.
- RoomCodec.LookupField: keys are matched exactly, while the program's decoder also ignores case.
- InMemoryHub.InMemoryHub.JoinRoom: buses, channels and the waiting helpers of the in-memory hub are not part of the hub class; whether messages could be sent is a parameter.
- Rooms.Room.RemoveStory: story lists are values, so sharing of a backing array between slices is not modelled.
- RoomModel.HasCurrentStory: a negative index, which no run produces, counts as no current story where the program would stop with an index error.
- SchemaLoader.SchemaLoader.ParseRefSchema: a reference arrives split into the file and the name it resolves to; reading files, JSON pointers and path cleaning are not modelled.
- SchemaLoader.SchemaLoader.ParseSchema: keywords of the wrong JSON type are marked as such in the raw tree, and errors are told apart only as circular or not.
- CommandLedger.ExecutedOnce: one command key is modelled, with one clock for all instances; UUID parsing yields the canonical ID as a parameter.
- WebsocketBus.Bus.Process: the mapping from use-case errors to wire codes and a frame that cannot be encoded are left out; a claim or a completion that fails is taken to leave the ledger as it was, while one that takes effect all the same is a step of the machine in `CommandLedger`.
- Subscriptions.RedisHub.AddBus: whether the subscription is confirmed is a parameter; the listener and message forwarding are left out, as is what closing the hub does.
- Use cases of Redis other than their lock, load, transition and save steps: broadcasts, metrics and logs have no effect on the stored room.
- Network, HTTP, WebSocket reading and pinging, configuration, tracing and the user interface: input and output only.
- Emission of Go and TypeScript text, the AsyncAPI document and its messages: text production without further state.
- Display names and story names beyond equality, and the wording of errors.
