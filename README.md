# TBA quest engine and world transfers, modelled in Dafny

TBA is a French text adventure. This project models the parts of it that
follow fixed rules:

- **The quest engine** (quest.py).
  - A `Quest` starts inactive and is then activated. It ticks its objectives
    one at a time and is completed once all are ticked; it pays its reward
    to the player the first time it completes.
  - A quest reacts to three kinds of event, each tried against templates:
    a room visited ("Visiter R", "Explorer R", "Aller à R", "Entrer dans R"),
    an action on a target ("a t", "a avec t", "a le t", "a la t", or the
    bare action), and a counter's value (an objective naming the counter
    that holds a number word the count has reached).
  - The `QuestManager` keeps the quests and the active ones. It tells the
    active quests about events and drops each from the active list once it
    is completed.
- **The world** (room.py, character.py, player.py).
  - A room's exits, its exit line and its long description.
  - A character's message rotation, and its random move to a neighbouring
    room. The move updates both rooms' character registries.
  - The player's move along an exit.
- **The command handlers that move things about** (actions.py).
  - `go`, with the forest gate: the room "foret" stays shut until a quest
    about "l'ancien" is completed. `go` also lets the escorted merchant
    follow the player and ends the escort at the outpost.
  - `take`, `drop` and `teleport`.

Structure:

- Python dictionaries are values of `Dicts.Dict`, in `dicts.dfy`. Each keeps
  its keys in insertion order, as Python does.
- The classes whose fields the game updates in place are Dafny classes:
  `Room`, `Character` and `Player` in `world.dfy`; `Quest` and
  `QuestManager` in `quests.dfy`; and the handlers' `Game` in `actions.dfy`.
- The progress of a quest is also a value, `Quests.Progress`. Its one step,
  `Quests.Advance`, is what `complete_objective` does. The methods are
  proved to update their fields exactly as the step functions say, and the
  lemmas about those functions carry the guarantees.
- What `go` changes besides the player's position is also a value,
  `Actions.GoState`: the escort flags, the merchant's room and three room
  registries. The escort and its end are step functions on it, and
  `Arrived` states what the whole move does.

Attributes that the handlers and the quest engine use, but that room.py and
player.py never assign, are explicit fields:

- on rooms: `characters` and `inventory`;
- on the player: `inventory`, `history`, `rewards` and `max_weight`.

Their operations are modelled as follows:

- `add_item` is refused when the load would exceed `max_weight`. Otherwise
  it files the item under its name.
- `add_reward` appends the reward to the player's list of rewards.
- `get_room_by_name` returns the first room of the game with that name.
- `player.quest_manager` is the `questManager` field of `Game`. Module
  imports must be acyclic, and `World` comes before `Quests`.

Three facts about the code decide what the model does:

- player.py gives the player no `quest_manager` (player.py:27-29), and
  game.py never sets one. `Game.questManager` stands for it and may be
  absent, in which case the handlers report nothing.
- The room templates (quest.py:270-275) start with a capital and use
  "Aller à". So an objective "aller chez l'ancien" is never completed by a
  room visit. It is completed by the action "aller" on a room named
  "chez l'ancien", which `go` reports (actions.py:132-137).
- The item record (item.py:16-19) has a name, a description and a weight,
  and no quantity. `add_item` files each item under its name.

Two details of actions.py shape what `go` can do:

- **The forest gate's first probe never matches.** The gate tries
  "Rencontrer l'ancien" against lower-cased titles. That text has a capital,
  so it can never match, and only "ancien" opens the forest
  (`Actions.CapitalProbeNeverMatches`).
- **The escort's room names differ from the game's.** The escort ends when
  the player reaches a room named "avant_post_capitale", and the merchant
  disappears at "rue_capitale". The model keeps these names as written.
  game.py is not part of this model, so whether those rooms exist is not
  modelled.

## Model

| member | source | states |
|---|---|---|
| Quests.Quest.constructor | quest.py:18-45 | title, description and reward as given; no objectives when none are given; nothing ticked, inactive, not completed; the quest invariant holds |
| Quests.Quest.Activate | quest.py:49-66 | the quest is active afterwards |
| Quests.Quest.CompleteQuest | quest.py:127-133 | the quest is completed afterwards; a non-empty reward goes to the given player only when the quest was not completed before, so at most once |
| Quests.Quest.CompleteObjective | quest.py:95-104 | succeeds exactly when the objective is one of the quest's and not yet ticked; the progress is then the objective appended, completed when the count reaches the number of objectives, and the reward is paid if that completed the quest; otherwise nothing changes; the quest invariant is kept |
| Quests.Advance | quest.py:95-101 | an open objective is appended to the ticked ones; any other objective leaves the progress as it was; ticks only grow and completion is kept |
| Quests.AdvanceKeepsConsistent | quest.py:95-101 | one step keeps the ticked objectives a duplicate-free selection of the objectives, with completion once all are counted; completed stays completed |
| Quests.AdvanceOnlyOnce | quest.py:95-104 | after an objective is accepted it is no longer open, and offering it again changes nothing |
| Quests.CompletedBounded | quest.py:95-100 | the ticked objectives never outnumber the objectives, and stay strictly fewer when the objectives repeat one |
| Quests.DuplicatesNeverComplete | quest.py:95-101 | a quest whose objective list repeats an entry is never completed through its objectives |
| Quests.FullCountMeansAllTicked | quest.py:100 | with distinct objectives, the count of ticked objectives reaches the number of objectives exactly when every objective is ticked |
| Quests.RewardPaidAtMostOnce | quest.py:95-104 | over any sequence of offered objectives the reward is paid at most once, never after completion, and exactly once on the way to completion |
| Quests.Quest.TryObjectives | quest.py:277-280 | the first candidate that is an open objective is ticked and reported; none ticked, and no change, when no candidate is open |
| Quests.FirstOpen | quest.py:277-279 | the position of the first open candidate: none before it is open, and it is open unless past the end |
| Quests.Target | quest.py:270-280 | the objective an event completes, if any, is an open objective of the quest |
| Quests.Respond | quest.py:270-280 | the progress after an event: with no target objective it is unchanged; ticks only grow and completion is kept |
| Quests.RespondTicksAtMostOne | quest.py:277-280 | an event ticks at most one objective, one that was open, and keeps the quest invariant |
| Quests.Quest.CheckRoomObjective | quest.py:270-280 | reports whether one of the four room spellings was open, and ticks the first such (paying the reward on completion) |
| Quests.Quest.CheckActionObjective | quest.py:307-320 | reports whether one of the action spellings (four with a non-empty target, else the bare action) was open, and ticks the first such |
| Quests.Quest.CheckCounterObjective | quest.py:347-357 | reports whether some open objective names the counter and holds a number word the count reaches, and ticks the first such |
| Quests.Quest.FindCounted | quest.py:347-356 | the search stops at the first objective the counter completes |
| Quests.HasCount | quest.py:350-355 | whether some all-digit word has a value at most the count |
| Quests.CounterIndex | quest.py:347-356 | the first objective matching the counter: none before it matches, and it matches unless past the end |
| Quests.CounterIndexFirst | quest.py:347-356 | a position with no match before it and a match at it (or the end) is the counter's first match |
| Quests.CounterThreshold | quest.py:337-357 | an objective "<name> <n> <unit>" is completed by the counter `name` exactly when the count reaches n (a count of 3 leaves "Marcher 5 fois" open, 5 completes it) |
| Quests.RoomExample | quest.py:260-268 | visiting "Castle" completes "Visiter Castle"; visiting "Tower" completes nothing |
| Quests.ActionExample | quest.py:297-305 | "parler" with "garde" completes "parler avec garde"; "courir" with "vite" completes nothing |
| Quests.FirstNumberWord | quest.py:241-242 | the position of the first all-digit word, with none before it |
| Quests.ExtractNumber | quest.py:241-244 | a number is found exactly when some word of the text is all digits |
| Quests.ExtractNumberFinds | quest.py:241-243 | in words followed by a number and more words, the number is the value extracted |
| Quests.ExtractNumberAbsent | quest.py:241-244 | a text without a number word yields None |
| Quests.StatusLine | quest.py:162-168 | the status text of an inactive, a completed and an in-progress quest; what it tells apart is stated by `Quests.StatusTellsState` |
| Quests.StatusTellsState | quest.py:162-168 | the status line's leading symbol tells inactive, completed and in-progress apart, both ways |
| Quests.UnfinishedFacts | quest.py:530-533 | the quests kept are exactly the listed quests not completed, none twice |
| Quests.PendingIsKept | quest.py:530-533 | removing each completed quest with `list.remove` while walking a snapshot keeps the visited quests not completed, followed by those not yet visited |
| Quests.PendingAll | quest.py:530-533 | after the whole snapshot, the active list is the quests not completed |
| Quests.QuestManager.constructor | quest.py:406-408 | no quests, none active, the given player; the manager invariant holds |
| Quests.QuestManager.AddQuest | quest.py:428 | the quest is appended; the invariant survives exactly when the new quest keeps its own and is not completed without being active |
| Quests.InactiveIndex | quest.py:457-458 | the first quest with that title that is not active |
| Quests.QuestManager.ActivateQuest | quest.py:457-462 | the first quest with that title that is not active is activated and appended to the active quests, and True returned; with none, False and no change; no quest's progress changes; invariant kept |
| Quests.HolderIndex | quest.py:495-496 | the first quest for which the text is an open objective |
| Quests.QuestManager.CompleteObjective | quest.py:495-501 | the first active quest for which the text is open ticks it and leaves the active list if that completed it; no other quest changes; no reward is paid; False and no change when no active quest holds it |
| Quests.QuestManager.TickFirst | quest.py:495-501 | the loop of `complete_objective`, with the same promise |
| Quests.QuestManager.Broadcast | quest.py:530-533 | every quest active at the start reacts to the event exactly as `Respond` says, in order; the active list keeps exactly those not completed; the rewards are paid in order |
| Quests.QuestManager.NotifyAll | quest.py:530-533 | the loop over the snapshot: each quest reaches its response and the active list is the result of the removals |
| Quests.QuestManager.CheckActive | quest.py:530-533 | `Broadcast` keeping the manager's invariant |
| Quests.QuestManager.Notify | quest.py:531 | one quest reacts to the event through its `check_*` method |
| Quests.QuestManager.CheckRoomObjectives | quest.py:530-533 | each active quest reacts to the room visit, completed quests leave the active list, the invariant holds |
| Quests.QuestManager.CheckActionObjectives | quest.py:563-566 | each active quest reacts to the action, completed quests leave the active list, the invariant holds |
| Quests.QuestManager.CheckCounterObjectives | quest.py:599-602 | each active quest reacts to the counter, completed quests leave the active list, the invariant holds |
| Quests.TitleIndex | quest.py:674-675 | the first quest with that title |
| Quests.QuestManager.GetQuestByTitle | quest.py:674-677 | a quest found has that title and is listed; None exactly when no quest has that title |
| World.Room.constructor | room.py:41-44 | name and description as given, no exits |
| World.Room.GetExit | room.py:47-53 | defines `get_exit` as `dict.get` on the exits: the target of a direction that is a key, None for any other; non-None exactly for a key with a room |
| World.OpenKeys | room.py:58-60 | the directions kept are keys with a room, every such key is kept, each once |
| World.Room.OpenDirections | room.py:58-60 | exactly the directions with a non-None exit, each once |
| World.Room.OpenTargets | character.py:49-50 | the non-None exits, in dictionary order, matching the open directions |
| World.ListingIsTrailedOpenKeys | room.py:57-60 | the loop's text is each open direction followed by ", " |
| World.StripKeepsHeading | room.py:61 | the stripped line keeps "Sorties:" and ends in neither a comma nor a space |
| World.StripTrailingSeparator | room.py:61 | stripping leaves the directions joined by ", " |
| World.StripNoDirection | room.py:57-61 | with no open direction the line is exactly "Sorties:" |
| World.Room.ExitString | room.py:56-62 | the exit line; its shape is stated by `World.Room.ExitStringShape` |
| World.Room.ExitStringShape | room.py:56-62 | the exit line starts with "Sorties:", never ends in a comma or space, and is "Sorties:" with no open exit; when no open direction is empty or ends in a comma or a space, it lists the open directions in order joined by ", " |
| World.Room.LongDescription | room.py:65-66 | the long description; what it shows is stated by `World.Room.LongDescriptionShows` |
| World.Room.LongDescriptionShows | room.py:65-66 | the long description contains the room's description and its exit line |
| World.TurnAdvances | character.py:72-86 | each turn says the next message in order and a full round restores the queue |
| World.Character.constructor | character.py:21-25 | fields as given; no messages when none are given |
| World.Character.GetMsg | character.py:81-86 | with no message, "<name> n'a rien à dire." and no change; otherwise the first message, moved to the back |
| World.Character.Move | character.py:45-68 | a losing coin never moves the character, whether or not it has a room; with a room, it moves exactly when the coin wins and some exit leads somewhere; then stands in the drawn room, its lower-cased name popped from the old room's registry and mapped to itself in the new one; otherwise no room changes |
| World.Character.Relocate | character.py:57-66 | the name key is popped from the old registry and set in the new one |
| World.Player.constructor | player.py:27-29 | the given name, no current room |
| World.Player.AddItem | actions.py:238-244 | refused with nothing changed when the weight limit would be exceeded; otherwise the item is filed under its name and the load grows by its weight |
| World.Player.AddReward | quest.py:132-133 | the reward is appended |
| World.Player.Move | player.py:32-44 | refused with no change for a None exit; otherwise the player stands in the room the exit leads to |
| Strings.SplitJoin | quest.py:241 | splitting words joined by a space gives the words back |
| Strings.NatToStringRoundTrip | quest.py:243 | `int(str(n)) == n` |
| Strings.LowerHasNoCapital | actions.py:53 | a lower-cased title holds no capital letter |
| Strings.Contains | actions.py:54 | the substring test holds exactly when the needle occurs at some position |
| Strings.RStripAppend | room.py:61 | stripping removes exactly the separators after the last other character |
| Lists.RemoveFirst | quest.py:533 | `list.remove` drops one entry, and the removed quest no longer occurs when none was listed twice |
| Lists.RemoveFirstAfter | quest.py:533 | removing an element not in a prefix splices it out |
| Dicts.Get | actions.py:701 | defines Python's `d.get(k)`: the value under k, or None exactly when k is absent |
| Dicts.Put | actions.py:272 | the key maps to the value, every other key is unchanged, and a new key goes last in order |
| Dicts.Del | actions.py:273 | the key is gone, every other key keeps its value and place |
| Dicts.Pop | actions.py:97 | the key is gone, every other key is unchanged, and an absent key changes nothing |
| Dicts.Values | actions.py:705 | defines Python's `list(d.values())`: the values in key order |
| Dicts.PutAfterDel | actions.py:246 | deleting a key and storing its value again restores the mapping |
| Dicts.DelAfterPut | actions.py:272-273 | storing under a new key and deleting it restores the mapping |
| Actions.CapitalProbeNeverMatches | actions.py:53-66 | the probe "Rencontrer l'ancien" never matches a lower-cased title |
| Actions.QuestDone | actions.py:48-63 | True exactly when there is a manager and some quest whose lower-cased title contains the text is completed |
| Actions.Game.Gate | actions.py:45-79 | the move is allowed exactly when neither the forest gate nor the escort's no-turning-back rule bars it |
| Actions.Game.Escort | actions.py:88-102 | the escort state afterwards is `EscortStep` of the state before: unless the merchant is already removed, he stands in the player's room, his lower-cased key popped from the registry of the room he left and set to him in the player's room; with no escort nothing changes |
| Actions.Game.ReleaseMerchant | actions.py:105-129 | the escort state afterwards is `ReleaseStep` of the state before: reaching the outpost ends the escort and leaves the merchant waiting; then reaching the capital street pops "marchand_ambulant" from the outpost's registry and marks him removed |
| Actions.Game.AfterGoKeys | actions.py:88-129 | key by key: with the escort, the merchant's key names him in the new room and is gone from the room he left; on release, "marchand_ambulant" is gone from the outpost; every other key of every registry keeps its value |
| Actions.Game.StepsArrive | actions.py:88-129 | the escort step followed by the release step gives the flags, the merchant's room and the registries that `Arrived` describes |
| Actions.Game.Follow | actions.py:88-129 | the escort then its end: the player stays put, the merchant moves to the player's room unless he was removed and otherwise stays where he was, and the flags and the registries of the player's room, the merchant's old room and the outpost become what `Arrived` says |
| Actions.Game.Travel | actions.py:35-129 | succeeds exactly when the exit leads somewhere, the forest is not barred and the merchant would not turn back; on failure nothing changes, registries included; on success the player stands in the exit's target, the merchant moves there with him unless he was removed and otherwise stays where he was, and the flags and the registries of the target, of the merchant's old room and of the outpost become what `Arrived` says (his key popped from the old room and set in the new one, "marchand_ambulant" popped from the outpost on release, every other key kept) |
| Actions.Game.Report | actions.py:135-137 | every active quest responds to the action as `Respond` says, the completed ones leave the active list, and the rewards due are appended in order (`Heard`); the invariant holds |
| Actions.Game.Announce | actions.py:132-137 | the quests hear "aller" with the new room's name, rewards included, as `Heard` says; the outcome of the move stays as `Arrived` says |
| Actions.Game.Journey | actions.py:82-137 | `Travel`, then on success the quests hear "aller" with the new room's name; the promises of both hold together |
| Actions.Game.Go | actions.py:27-139 | refused with nothing changed, registries included, on a wrong word count, a barred or empty exit or a merchant who would turn back; otherwise the player stands in the target room, the escort state becomes what `Arrived` says, and the quests hear "aller" with its name and pay the rewards due in order |
| Actions.Game.Pick | actions.py:238-246 | refused with both inventories unchanged over the weight limit; otherwise the item leaves the room and is filed under its name with the player |
| Actions.Game.TakeFrom | actions.py:228-252 | succeeds exactly when the item is in the room and light enough; then it changes hands and the quests hear "obtenir" with its name, paying the rewards due in order (`Heard`); otherwise nothing changes |
| Actions.Game.Take | actions.py:223-255 | the word-count check, then `TakeFrom` on the player's room, with the same promise |
| Actions.TakeThenDrop | actions.py:242-246 | taking an item filed under its own name and dropping it restores both inventories |
| Actions.DropThenTake | actions.py:267-273 | dropping an item into a room without one of that name and taking it back restores both inventories |
| Actions.Game.Drop | actions.py:258-276 | refused with nothing changed on a wrong word count or an item not carried (a room is needed only when the item is carried); otherwise it moves under the same name to the room, and the player no longer holds it |
| Actions.RoomIndex | actions.py:714 | the position of the first room with that name: none before it has the name, and it has the name unless past the end |
| Actions.Game.GetRoomByName | actions.py:714 | a room found has that name and belongs to the game; None exactly when no room has that name |
| Actions.NamedIndex | actions.py:705-707 | the first entity whose lower-cased name is the key |
| Actions.FindNamed | actions.py:704-708 | the search stops at that first entity |
| Actions.Game.Chosen | actions.py:693-712 | the player with two words; otherwise the entity registered under the lower-cased name, or else one whose lower-cased name it is; none exactly when neither exists |
| Actions.Game.Resolve | actions.py:693-712 | the entity found is the one `Chosen` describes |
| Actions.HolderKey | actions.py:727-729 | the first key, in order, whose entry holds the entity |
| Actions.FindHolder | actions.py:727-730 | the search stops at that first key |
| Actions.Unregistered | actions.py:719-730 | the entry under the name key when it holds the entity, else the first entry holding it, is deleted; nothing when none holds it |
| Actions.Unregister | actions.py:721-730 | the room's registry becomes `Unregistered` of the old one |
| Actions.Game.Reregister | actions.py:719-740 | the entity leaves its old registry and is entered in the target's under the key |
| Actions.Game.Transfer | actions.py:719-740 | the entity stands in the target, is unregistered from its old room and registered under its lower-cased name; a teleported player's old room goes on the history |
| Actions.Game.Teleport | actions.py:687-740 | refused with nothing changed for fewer than two words, an entity not found or an unknown room; otherwise as `Transfer` says |

## Left out

- Printing: every message of the handlers and of the quest engine, the emoji banners, `get_details`, `show_quests` and `show_quest_details`.
- The play loop and `process_command` in game.py, and the static room graph. game.py is not part of this model.
- `update_characters` and `check_end_game`: the handlers call them, and game.py defines neither.
- The handlers `talk`, `look`, `fight`, `help`, `back`, `history`, `check`, `rewards` and `quit`: they are dialogue windows and display.
- Combat, monsters, equipment and experience. `MonsterCharacter` and the player's statistics are not part of this model.
- The `try`/`except` around the quest calls of `go`. The model's calls cannot fail.
- `random.choice` in `Character.move`: the coin and the drawn index are parameters.
- Item weights are integers; the game's weights may be floats.
- `add_item` files the item under its name and does not stack quantities.
- `lower()` folds only the ASCII capitals, and `isdigit()` accepts only the ASCII digits.
- `quest_done` also accepts a `completed` attribute or a `status` text on a quest. `Quest` has neither, so only `is_completed` is modelled.
- World.Character.Move: requires a current room when the coin wins. The source then reads the exits of None and would raise AttributeError (character.py:49).
- World.Player.Move: the direction must be a key of the current room's exits. The source indexes the dictionary without a check and would raise KeyError.
- Actions.Game.Go: requires the direction to be a key of the exits, for the same reason. With zero expected parameters it also requires a second word, since the source would fail on a missing one.
- Actions.Game.Teleport: requires a current room when an entity is named, since the source reads the player's room without a check.
- Actions.Game.Take: with the right word count, requires at least one expected parameter and a current room. With zero parameters the source indexes a missing second word (IndexError); with no room it reads the inventory of None (AttributeError).
- Actions.Game.Drop: with the right word count, requires at least one expected parameter, and a current room when the item is carried. The source would raise IndexError or AttributeError there.
- Quests.Quest.CheckCounterObjective: modelled as a search followed by `complete_objective`. The search stops where the source completes the objective, so the two agree.
- Quests.StatusTellsState: the status text's counts are not stated beyond their formatting in `Quests.StatusLine`.
- Quests.QuestManager.CompleteObjective: requires the manager invariant `Valid`, and so do `ActivateQuest` and the three `check_*_objectives` methods. The constructor establishes it and every method keeps it. Adding a quest that is completed but not active breaks it, and the model says nothing about calls after that.
