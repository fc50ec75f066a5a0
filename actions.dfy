/**
 * The command handlers of actions.py that move things about the world:
 * `go`, with its forest gate and the merchant's escort, `take`, `drop` and
 * `teleport`. Each handler gets the words of the command (the command word
 * first) and the number of parameters the command expects, and reports
 * whether the command took effect.
 */
module Actions {
  import opened Wrappers
  import opened Lists
  import opened Strings
  import opened Dicts
  import opened Items
  import opened World
  import opened Quests

  /** The word-count check every handler opens with: the command word and exactly `parameters` more. */
  predicate WellCounted(words: seq<string>, parameters: nat) {
    |words| == parameters + 1
  }

  /** Whether some quest of `qs` whose lower-cased title contains `titleLike` is completed. */
  predicate AnyDone(qs: seq<Quest>, titleLike: string)
    reads Objects(qs)
  {
    exists i :: 0 <= i < |qs| && Contains(Lower(qs[i].title), titleLike) && qs[i].isCompleted
  }

  /** The first probe of the forest gate, spelled with a capital. */
  const CapitalProbe: string := "Rencontrer l'ancien"

  /**
   * The forest gate tries "Rencontrer l'ancien" before "ancien", but a
   * lower-cased title has no capital letter, so the first probe never
   * matches and only "ancien" can open the forest.
   */
  lemma CapitalProbeNeverMatches(qs: seq<Quest>)
    ensures !AnyDone(qs, CapitalProbe)
  {
    forall i | 0 <= i < |qs| ensures !Contains(Lower(qs[i].title), CapitalProbe) {
      var title := qs[i].title;
      forall at ensures !OccursAt(CapitalProbe, Lower(title), at) {
        if 0 <= at < |title| {
          LowerHasNoCapital(title, at);
        }
      }
    }
  }

  /**
   * `quest_done` inside `go`: whether some quest of the manager whose
   * lower-cased title contains `titleLike` is completed; never, without a
   * manager.
   */
  method QuestDone(qm: QuestManager?, titleLike: string) returns (done: bool)
    ensures done == (qm != null && AnyDone(qm.quests, titleLike))
  {
    if qm == null {
      return false;
    }
    var i := 0;
    while i < |qm.quests|
      invariant 0 <= i <= |qm.quests|
      invariant forall j :: 0 <= j < i ==> !(Contains(Lower(qm.quests[j].title), titleLike) && qm.quests[j].isCompleted)
    {
      var q := qm.quests[i];
      if Contains(Lower(q.title), titleLike) && q.isCompleted {
        return true;
      }
      i := i + 1;
    }
    return false;
  }

  /** The name an entity of a room's registry goes by. */
  function NameOf(o: Occupant): string {
    match o
    case Npc(c) => c.name
    case Hero(p) => p.name
  }

  /** The room an entity of a room's registry stands in. */
  function Whereabouts(o: Occupant): Room?
    reads if o.Npc? then {o.npc} else {o.hero}
  {
    match o
    case Npc(c) => c.currentRoom
    case Hero(p) => p.currentRoom
  }

  /** The position, in key order, of the first entry of a registry holding `o`; `|keys|` when there is none. */
  function HolderKey(keys: seq<string>, entries: map<string, Occupant>, o: Occupant): (k: nat)
    requires forall i :: 0 <= i < |keys| ==> keys[i] in entries
    ensures k <= |keys|
    ensures k < |keys| ==> entries[keys[k]] == o
    ensures forall i :: 0 <= i < k ==> entries[keys[i]] != o
  {
    if keys == [] then 0
    else if entries[keys[0]] == o then 0
    else 1 + HolderKey(keys[1..], entries, o)
  }

  /**
   * The registry once `teleport` has taken `o` out of it: the entry under
   * `key` when it holds `o`, else the first entry holding `o`, else nothing.
   */
  function Unregistered(d: Dict<string, Occupant>, key: string, o: Occupant): (r: Dict<string, Occupant>)
    ensures key in d.entries && d.entries[key] == o ==> r == Del(d, key)
    ensures (forall k :: k in d.entries ==> d.entries[k] != o) ==> r == d
    ensures (exists k :: k in d.entries && d.entries[k] == o) ==>
      exists k :: k in d.entries && d.entries[k] == o && r == Del(d, k)
  {
    if key in d.entries && d.entries[key] == o then Del(d, key)
    else
      var k := HolderKey(d.keys, d.entries, o);
      if k < |d.keys| then Del(d, d.keys[k])
      else
        assert forall j :: j in d.entries ==> d.entries[j] != o by {
          forall j | j in d.entries ensures d.entries[j] != o {
            var i :| 0 <= i < |d.keys| && d.keys[i] == j;
          }
        }
        d
  }

  /** The index of the first entity of `vs` whose lower-cased name is `key`; `|vs|` when there is none. */
  function NamedIndex(vs: seq<Occupant>, key: string): (k: nat)
    ensures k <= |vs|
    ensures k < |vs| ==> Lower(NameOf(vs[k])) == key
    ensures forall i :: 0 <= i < k ==> Lower(NameOf(vs[i])) != key
  {
    if vs == [] then 0
    else if Lower(NameOf(vs[0])) == key then 0
    else 1 + NamedIndex(vs[1..], key)
  }

  /** The index of the first room of `rooms` named `name`; `|rooms|` when there is none. */
  function RoomIndex(rooms: seq<Room>, name: string): (k: nat)
    ensures k <= |rooms|
    ensures k < |rooms| ==> rooms[k].name == name
    ensures forall i :: 0 <= i < k ==> rooms[i].name != name
  {
    if rooms == [] then 0
    else if rooms[0].name == name then 0
    else 1 + RoomIndex(rooms[1..], name)
  }

  /**
   * Taking the item filed under its own name and dropping it again gives
   * both inventories back their contents.
   */
  lemma TakeThenDrop(here: Dict<string, Item>, carried: Dict<string, Item>, key: string)
    requires key in here.entries && here.entries[key].name == key && key !in carried.entries
    ensures var item := here.entries[key];
      var here1 := Del(here, key);
      var carried1 := Put(carried, item.name, item);
      && key in carried1.entries
      && Put(here1, key, carried1.entries[key]).entries == here.entries
      && Del(carried1, key).entries == carried.entries
  {
    PutAfterDel(here, key);
    DelAfterPut(carried, key, here.entries[key]);
  }

  /**
   * Dropping an item and taking it back gives both inventories back their
   * contents, when the item is filed under its own name and the room had
   * nothing under that name.
   */
  lemma DropThenTake(carried: Dict<string, Item>, here: Dict<string, Item>, key: string)
    requires key in carried.entries && carried.entries[key].name == key && key !in here.entries
    ensures var item := carried.entries[key];
      var here1 := Put(here, key, item);
      var carried1 := Del(carried, key);
      && key in here1.entries
      && Put(carried1, here1.entries[key].name, here1.entries[key]).entries == carried.entries
      && Del(here1, key).entries == here.entries
  {
    TakeThenDrop(carried, here, key);
  }

  /**
   * The removal of `teleport` from the registry of the room `o` stood in:
   * the entry under `key` when it holds `o`, else, in key order, the first
   * entry holding `o`.
   */
  method Unregister(room: Room, key: string, o: Occupant)
    modifies room`characters
    ensures room.characters == Unregistered(old(room.characters), key, o)
  {
    if key in room.characters.entries && room.characters.entries[key] == o {
      room.characters := Del(room.characters, key);
      return;
    }
    var k := FindHolder(room.characters, o);
    if k < |room.characters.keys| {
      room.characters := Del(room.characters, room.characters.keys[k]);
    }
  }

  /** The search of `teleport` through a registry, in key order, for the entry holding `o`. */
  method FindHolder(d: Dict<string, Occupant>, o: Occupant) returns (k: nat)
    ensures k == HolderKey(d.keys, d.entries, o)
  {
    k := 0;
    while k < |d.keys|
      invariant k <= |d.keys|
      invariant forall i :: 0 <= i < k ==> d.entries[d.keys[i]] != o
    {
      if d.entries[d.keys[k]] == o {
        return;
      }
      k := k + 1;
    }
  }

  /** The search of `teleport` among the entities of a registry: the first whose lower-cased name is `key`. */
  method FindNamed(vs: seq<Occupant>, key: string) returns (k: nat)
    ensures k == NamedIndex(vs, key)
  {
    k := 0;
    while k < |vs|
      invariant k <= |vs|
      invariant forall i :: 0 <= i < k ==> Lower(NameOf(vs[i])) != key
    {
      if Lower(NameOf(vs[k])) == key {
        return;
      }
      k := k + 1;
    }
  }

  /** The player-facing state the handlers work on (the `game` object of actions.py). */
  /**
   * What `go` may change besides the player's position: the merchant being
   * escorted, the two escort flags, the room the merchant stands in, and
   * the character registries of the target room, of the merchant's room
   * and of the outpost.
   */
  datatype GoState = GoState(following: Character?, waiting: bool, removed: bool, npcRoom: Room?,
                             toRegistry: Dict<string, Occupant>, fromRegistry: Dict<string, Occupant>, outpostRegistry: Dict<string, Occupant>)

  class Game {
    const player: Player
    const rooms: seq<Room>
    /** The player's quest manager (`player.quest_manager`), if any. */
    const questManager: QuestManager?
    /** The merchant being escorted (`following_npc`), if any. */
    var followingNpc: Character?
    var marchandRemoved: bool
    var marchandWaitingAtAvantpost: bool
    /** The outpost room the merchant is left at (`avant_post_capitale`), when the game has one. */
    const avantPostCapitale: Room?

    constructor (player: Player, rooms: seq<Room>, questManager: QuestManager?, avantPostCapitale: Room?)
      ensures this.player == player && this.rooms == rooms && this.questManager == questManager
      ensures this.avantPostCapitale == avantPostCapitale
      ensures followingNpc == null && !marchandRemoved && !marchandWaitingAtAvantpost
    {
      this.player := player;
      this.rooms := rooms;
      this.questManager := questManager;
      this.avantPostCapitale := avantPostCapitale;
      followingNpc := null;
      marchandRemoved := false;
      marchandWaitingAtAvantpost := false;
    }

    /** `get_room_by_name`: the first room of the game with that name, or None. */
    function GetRoomByName(name: string): (r: Room?)
      ensures r != null ==> r in rooms && r.name == name
      ensures r == null <==> forall i :: 0 <= i < |rooms| ==> rooms[i].name != name
    {
      var k := RoomIndex(rooms, name);
      if k < |rooms| then rooms[k] else null
    }

    // Frames: the objects a handler may change.

    /** The quest manager, as a set. */
    function Manager(): set<QuestManager> {
      if questManager == null then {} else {questManager}
    }

    /** The quests the manager has active. */
    function Active(): set<Quest>
      reads Manager()
    {
      if questManager == null then {} else Objects(questManager.activeQuests)
    }

    /** The player the manager pays rewards to. */
    function Rewarded(): set<Player>
      reads Manager()
    {
      if questManager == null then {} else Payee(questManager.player)
    }

    /** The player's room, as a set. */
    function Here(): set<Room>
      reads player
    {
      if player.currentRoom == null then {} else {player.currentRoom}
    }

    /** The escorted merchant, as a set. */
    function Escorted(): set<Character>
      reads this
    {
      if followingNpc == null then {} else {followingNpc}
    }

    /** The rooms whose registries `go` may change: the exit's target, the merchant's room and the outpost. */
    function GoRooms(direction: string): set<Room>
      reads this, player, Here(), Escorted()
    {
      (if player.currentRoom != null && player.currentRoom.GetExit(direction) != null then {player.currentRoom.GetExit(direction)} else {})
      + (if followingNpc != null && followingNpc.currentRoom != null then {followingNpc.currentRoom} else {})
      + (if avantPostCapitale != null then {avantPostCapitale} else {})
    }

    /** The manager's quests, active or not. */
    function Listed(): set<Quest>
      reads Manager()
    {
      if questManager == null then {} else Objects(questManager.quests) + Objects(questManager.activeQuests)
    }

    /** Whether the quest manager keeps its invariant, or there is none. */
    predicate QuestsValid()
      reads Manager(), Listed()
    {
      questManager != null ==> questManager.Valid()
    }

    /** The manager's active quests; none without a manager. */
    function ActiveList(): seq<Quest>
      reads Manager()
    {
      if questManager == null then [] else questManager.activeQuests
    }

    /** The rewards the manager's player has received; none without one. */
    function Received(): seq<string>
      reads Manager(), Rewarded()`rewards
    {
      if questManager == null || questManager.player == null then [] else questManager.player.rewards
    }

    /**
     * The quests `qs`, active before at progress `ps` while the manager's
     * player had received `paid`, have heard the event `e`: each has made the
     * progress `Respond` says, the completed ones have left the active list,
     * and the rewards due have been paid in order.
     */
    predicate Heard(qs: seq<Quest>, ps: seq<Progress>, paid: seq<string>, e: Event)
      requires |ps| == |qs|
      reads Manager(), Objects(qs), Rewarded()`rewards
    {
      questManager != null ==>
        && (forall j :: 0 <= j < |qs| ==> qs[j].State() == Respond(qs[j].objectives, ps[j], e))
        && questManager.activeQuests == Unfinished(qs)
        && (questManager.player != null ==> questManager.player.rewards == paid + Rewards(qs, ps, e, |qs|))
    }

    /** `check_action_objectives(action, target)` on the player's quest manager, when there is one. */
    method Report(action: string, target: string)
      requires QuestsValid()
      modifies Manager()`activeQuests, Active()`completedObjectives, Active()`isCompleted, Rewarded()`rewards
      ensures QuestsValid()
      ensures Heard(old(ActiveList()), old(States(ActiveList())), old(Received()), Performed(action, Some(target)))
    {
      if questManager != null {
        questManager.CheckActionObjectives(action, Some(target));
      }
    }

    /**
     * The forest gate: a move towards a room named "foret" (in any case) is
     * barred unless a quest whose lower-cased title contains "ancien" is
     * completed.
     */
    predicate ForestBarred(target: Room?)
      reads Manager(), if questManager != null then Objects(questManager.quests) else {}
    {
      && target != null && Lower(target.name) == "foret"
      && !(questManager != null && AnyDone(questManager.quests, "ancien"))
    }

    /** While the merchant is escorted, the player may not step back into the room last left. */
    predicate TurnsBack(target: Room?)
      reads this, player
    {
      followingNpc != null && player.history != [] && target == player.history[|player.history| - 1]
    }

    /** The two checks `go` makes before moving the player towards `target`. */
    method Gate(target: Room?) returns (open: bool)
      ensures open == !(ForestBarred(target) || TurnsBack(target))
    {
      if target != null && Lower(target.name) == "foret" {
        var early := QuestDone(questManager, CapitalProbe);
        var done := QuestDone(questManager, "ancien");
        if questManager != null {
          CapitalProbeNeverMatches(questManager.quests);
        }
        if !early && !done {
          return false;
        }
      }
      if followingNpc != null {
        if player.history != [] {
          var previousRoom := player.history[|player.history| - 1];
          if target == previousRoom {
            return false;
          }
        }
      }
      return true;
    }

    /**
     * The escort of `go`, once the player has moved: unless the merchant has
     * already been removed from the game, the escorted character leaves its
     * room's registry and joins the player's room under its lower-cased name.
     */
    method Escort()
      requires player.currentRoom != null
      modifies Escorted()`currentRoom, (if followingNpc != null && followingNpc.currentRoom != null then {followingNpc.currentRoom} else {})`characters, player.currentRoom`characters
      ensures Snapshot(player.currentRoom, old(followingNpc), old(NpcRoom()))
        == EscortStep(player.currentRoom, old(Snapshot(player.currentRoom, followingNpc, NpcRoom())))
    {
      ghost var to, from := player.currentRoom, NpcRoom();
      ghost var want := EscortStep(to, Snapshot(to, followingNpc, from));
      if followingNpc != null && !marchandRemoved {
        var npc := followingNpc;
        var newRoom := player.currentRoom;
        var oldRoom := npc.currentRoom;
        if oldRoom != null {
          npc.Relocate(oldRoom, newRoom);
        } else {
          newRoom.characters := Put(newRoom.characters, Lower(npc.name), Npc(npc));
        }
        npc.currentRoom := newRoom;
      }
      assert RegistryOf(to) == want.toRegistry;
      assert RegistryOf(from) == want.fromRegistry;
      assert RegistryOf(avantPostCapitale) == want.outpostRegistry;
    }

    /**
     * The end of the escort in `go`: reaching the room named
     * "avant_post_capitale" with the merchant in tow leaves him waiting
     * there; then reaching the room named "rue_capitale" while he waits
     * takes the entry "marchand_ambulant" out of the outpost's registry and
     * marks the merchant as removed.
     */
    method ReleaseMerchant(ghost npc: Character?, ghost from: Room?)
      requires player.currentRoom != null
      modifies this`followingNpc, this`marchandWaitingAtAvantpost, this`marchandRemoved, (if avantPostCapitale != null then {avantPostCapitale} else {})`characters
      ensures Snapshot(player.currentRoom, npc, from) == ReleaseStep(player.currentRoom, from, old(Snapshot(player.currentRoom, npc, from)))
    {
      ghost var to := player.currentRoom;
      ghost var want := ReleaseStep(to, from, Snapshot(to, npc, from));
      if followingNpc != null && player.currentRoom.name == "avant_post_capitale" {
        followingNpc := null;
        marchandWaitingAtAvantpost := true;
      }
      if marchandWaitingAtAvantpost && player.currentRoom.name == "rue_capitale" {
        if avantPostCapitale != null {
          avantPostCapitale.characters := Pop(avantPostCapitale.characters, "marchand_ambulant");
        }
        marchandWaitingAtAvantpost := false;
        marchandRemoved := true;
      }
      assert RegistryOf(to) == want.toRegistry;
      assert RegistryOf(from) == want.fromRegistry;
      assert RegistryOf(avantPostCapitale) == want.outpostRegistry;
    }

    /** The room the escorted merchant stands in, if any. */
    function NpcRoom(): Room?
      reads this, Escorted()
    {
      if followingNpc == null then null else followingNpc.currentRoom
    }

    /**
     * The registry of room `r` after the escort step of `go` to `to`: with
     * the escort, the merchant's lower-cased name is popped from the room
     * `from` he stood in and set to the merchant in `to`. Every other entry
     * stays as it was.
     */
    function Moved(r: Room, before: Dict<string, Occupant>, from: Room?, to: Room, npc: Character?, escort: bool): Dict<string, Occupant> {
      if !escort || npc == null then before
      else if r == to then Put(if from == to then Pop(before, Lower(npc.name)) else before, Lower(npc.name), Npc(npc))
      else if r == from then Pop(before, Lower(npc.name))
      else before
    }

    /**
     * The registry of room `r` after the release step of `go`: on release,
     * the entry "marchand_ambulant" is popped from the outpost.
     */
    function Released(r: Room, before: Dict<string, Occupant>, release: bool): Dict<string, Occupant> {
      if release && r == avantPostCapitale then Pop(before, "marchand_ambulant") else before
    }

    /** The registry of room `r` once `go` has taken the player to `to`: the escort step, then the release step. */
    function AfterGo(r: Room, before: Dict<string, Occupant>, from: Room?, to: Room, npc: Character?, escort: bool, release: bool): Dict<string, Occupant> {
      Released(r, Moved(r, before, from, to, npc, escort), release)
    }

    /**
     * What `go` does to one registry, key by key: with the escort, the
     * merchant's key names him in the new room and is gone from the room he
     * left; on release, "marchand_ambulant" is gone from the outpost; every
     * other key keeps its value.
     */
    lemma AfterGoKeys(r: Room, before: Dict<string, Occupant>, from: Room?, to: Room, npc: Character?, escort: bool, release: bool)
      ensures var after := AfterGo(r, before, from, to, npc, escort, release);
        && (escort && npc != null && r == to && !(release && r == avantPostCapitale && Lower(npc.name) == "marchand_ambulant") ==>
              Get(after, Lower(npc.name)) == Some(Npc(npc)))
        && (escort && npc != null && r == from && r != to ==> Lower(npc.name) !in after.entries)
        && (release && r == avantPostCapitale ==> "marchand_ambulant" !in after.entries)
        && (forall k :: k != "marchand_ambulant" && (npc == null || k != Lower(npc.name)) ==> Get(after, k) == Get(before, k))
    {
    }

    /** The character registry of a room; empty for no room. */
    function RegistryOf(r: Room?): Dict<string, Occupant>
      reads if r != null then {r} else {}
    {
      if r == null then Empty() else r.characters
    }

    /**
     * The part of the game `go` changes besides the player's position: the
     * escort flags, the room of merchant `npc`, and the registries of room
     * `to`, of room `from` and of the outpost.
     */
    function Snapshot(to: Room?, npc: Character?, from: Room?): GoState
      reads this, if npc != null then {npc} else {}
      reads (if to != null then {to} else {}) + (if from != null then {from} else {}) + (if avantPostCapitale != null then {avantPostCapitale} else {})
    {
      GoState(followingNpc, marchandWaitingAtAvantpost, marchandRemoved, if npc != null then npc.currentRoom else null,
              RegistryOf(to), RegistryOf(from), RegistryOf(avantPostCapitale))
    }

    /**
     * How `go` to room `to` turns state `b` (taken with `b.npcRoom` as the
     * merchant's room) into state `a`. The merchant follows unless removed,
     * and otherwise stays where he is; reaching the outpost ends the escort
     * and leaves him waiting there; reaching the capital street while he
     * waits releases him; the three registries become what `AfterGo` says.
     */
    predicate Arrived(to: Room, b: GoState, a: GoState) {
      var npc := b.following;
      var from := b.npcRoom;
      var arrived := npc != null && to.name == "avant_post_capitale";
      var release := b.waiting && to.name == "rue_capitale";
      var escort := npc != null && !b.removed;
      && a.following == (if arrived then null else npc)
      && a.waiting == (if release then false else b.waiting || arrived)
      && a.removed == (b.removed || release)
      && a.npcRoom == (if escort then to else from)
      && a.toRegistry == AfterGo(to, b.toRegistry, from, to, npc, escort, release)
      && (from != null ==> a.fromRegistry == AfterGo(from, b.fromRegistry, from, to, npc, escort, release))
      && (avantPostCapitale != null ==> a.outpostRegistry == AfterGo(avantPostCapitale, b.outpostRegistry, from, to, npc, escort, release))
    }

    /**
     * The escort step of `go` to `to` on state `b` (`b.npcRoom` being the
     * merchant's room): unless removed, the merchant moves to `to` and the
     * registries change as `Moved` says.
     */
    function EscortStep(to: Room, b: GoState): GoState {
      var npc := b.following;
      var from := b.npcRoom;
      var escort := npc != null && !b.removed;
      b.(npcRoom := if escort then to else b.npcRoom,
         toRegistry := Moved(to, b.toRegistry, from, to, npc, escort),
         fromRegistry := if from != null then Moved(from, b.fromRegistry, from, to, npc, escort) else b.fromRegistry,
         outpostRegistry := if avantPostCapitale != null then Moved(avantPostCapitale, b.outpostRegistry, from, to, npc, escort) else b.outpostRegistry)
    }

    /**
     * The release step of `go` to `to` on state `m`, whose `fromRegistry`
     * is room `from`'s: reaching the outpost with the merchant ends the
     * escort; reaching the capital street while he waits releases him and
     * the registries change as `Released` says.
     */
    function ReleaseStep(to: Room, from: Room?, m: GoState): GoState {
      var arrived := m.following != null && to.name == "avant_post_capitale";
      var release := m.waiting && to.name == "rue_capitale";
      m.(following := if arrived then null else m.following,
         waiting := if release then false else m.waiting || arrived,
         removed := m.removed || release,
         toRegistry := Released(to, m.toRegistry, release),
         fromRegistry := if from != null then Released(from, m.fromRegistry, release) else m.fromRegistry,
         outpostRegistry := if avantPostCapitale != null then Released(avantPostCapitale, m.outpostRegistry, release) else m.outpostRegistry)
    }

    /** The escort step followed by the release step is the whole of `go`'s effect. */
    lemma StepsArrive(to: Room, b: GoState)
      ensures Arrived(to, b, ReleaseStep(to, b.npcRoom, EscortStep(to, b)))
    {
    }

    /**
     * What `go` does once the player has moved: the escort, then its end at
     * the outpost.
     */
    method Follow()
      requires player.currentRoom != null
      modifies this`followingNpc, this`marchandWaitingAtAvantpost, this`marchandRemoved, Escorted()`currentRoom
      modifies ({player.currentRoom} + (if NpcRoom() != null then {NpcRoom()} else {}) + (if avantPostCapitale != null then {avantPostCapitale} else {}))`characters
      ensures player.currentRoom == old(player.currentRoom)
      ensures Arrived(player.currentRoom, old(Snapshot(player.currentRoom, followingNpc, NpcRoom())),
                      Snapshot(player.currentRoom, old(followingNpc), old(NpcRoom())))
    {
      ghost var npc, from := followingNpc, NpcRoom();
      Escort();
      ReleaseMerchant(npc, from);
      StepsArrive(player.currentRoom, old(Snapshot(player.currentRoom, followingNpc, NpcRoom())));
    }

    /**
     * The move of `go` once the word count is right: the gate, the player's
     * move, the escort and its end at the outpost. The registries of the
     * rooms involved (the target, the merchant's room and the outpost) end
     * up as `AfterGo` says; refused, nothing changes.
     */
    method Travel(direction: string) returns (success: bool)
      requires player.currentRoom != null && direction in player.currentRoom.exits.entries
      modifies player`currentRoom, this`followingNpc, this`marchandWaitingAtAvantpost, this`marchandRemoved
      modifies Escorted()`currentRoom, GoRooms(direction)`characters
      ensures var target := old(player.currentRoom.GetExit(direction));
        success == (target != null && !old(ForestBarred(target)) && !old(TurnsBack(target)))
      ensures !success ==> unchanged(this, player) && unchanged(Escorted()) && unchanged(old(GoRooms(direction)))
      ensures success ==> player.currentRoom == old(player.currentRoom.GetExit(direction))
      ensures success ==>
        Arrived(player.currentRoom, old(Snapshot(player.currentRoom.GetExit(direction), followingNpc, NpcRoom())),
                Snapshot(player.currentRoom, old(followingNpc), old(NpcRoom())))
    {
      var target := player.currentRoom.GetExit(direction);
      var open := Gate(target);
      if !open {
        return false;
      }
      ghost var start := Snapshot(target, followingNpc, NpcRoom());
      success := player.Move(direction);
      if success {
        assert Snapshot(player.currentRoom, followingNpc, NpcRoom()) == start;
        Follow();
      }
    }

    /** The quests, the manager and the rewards paid stay as they were when none of them changed. */
    twostate lemma QuestsKept()
      requires unchanged(Manager(), old(Listed()), old(Rewarded())`rewards)
      ensures ActiveList() == old(ActiveList()) && States(ActiveList()) == old(States(ActiveList())) && Received() == old(Received())
      ensures old(QuestsValid()) ==> QuestsValid()
    {
    }

    /**
     * `go` once the word count is right: the move of `Travel`, then the
     * quests hear "aller" with the new room's name.
     */
    method Journey(direction: string) returns (success: bool)
      requires player.currentRoom != null && direction in player.currentRoom.exits.entries
      requires QuestsValid()
      modifies player`currentRoom, this`followingNpc, this`marchandWaitingAtAvantpost, this`marchandRemoved
      modifies Escorted()`currentRoom, GoRooms(direction)`characters
      modifies Manager()`activeQuests, Active()`completedObjectives, Active()`isCompleted, Rewarded()`rewards
      ensures QuestsValid()
      ensures !success ==> unchanged(this, player) && unchanged(Escorted()) && unchanged(Manager(), Active(), Rewarded())
      ensures !success ==> unchanged(old(GoRooms(direction)))
      ensures var target := old(player.currentRoom.GetExit(direction));
        && success == (target != null && !old(ForestBarred(target)) && !old(TurnsBack(target)))
        && (success ==> player.currentRoom == target)
      ensures success ==>
        Arrived(player.currentRoom, old(Snapshot(player.currentRoom.GetExit(direction), followingNpc, NpcRoom())),
                Snapshot(player.currentRoom, old(followingNpc), old(NpcRoom())))
      ensures success ==> Heard(old(ActiveList()), old(States(ActiveList())), old(Received()), Performed("aller", Some(player.currentRoom.name)))
    {
      ghost var npc, from := followingNpc, NpcRoom();
      ghost var start := Snapshot(player.currentRoom.GetExit(direction), npc, from);
      success := Travel(direction);
      QuestsKept();
      if success {
        Announce(start, npc, from);
      }
    }

    /**
     * The quests hearing "aller" with the name of the room the player has
     * just reached, after the move `start` led to; the move's outcome stays
     * as it is.
     */
    method Announce(ghost start: GoState, ghost npc: Character?, ghost from: Room?)
      requires player.currentRoom != null
      requires QuestsValid()
      requires Arrived(player.currentRoom, start, Snapshot(player.currentRoom, npc, from))
      modifies Manager()`activeQuests, Active()`completedObjectives, Active()`isCompleted, Rewarded()`rewards
      ensures QuestsValid()
      ensures Arrived(player.currentRoom, start, Snapshot(player.currentRoom, npc, from))
      ensures Heard(old(ActiveList()), old(States(ActiveList())), old(Received()), Performed("aller", Some(player.currentRoom.name)))
    {
      ghost var now := Snapshot(player.currentRoom, npc, from);
      Report("aller", player.currentRoom.name);
      assert Snapshot(player.currentRoom, npc, from) == now;
    }

    /**
     * `go <direction>`: the direction must be one of the current room's
     * exits (the player's move indexes the exits without a check). Refused,
     * with nothing changed, on a wrong word count, at the locked forest, when
     * the escorted merchant would turn back, or when the exit leads nowhere.
     * Otherwise the player is in the room the exit leads to, the merchant
     * follows, the escort ends at the outpost, and the quests hear "aller"
     * with the new room's name.
     */
    method Go(words: seq<string>, parameters: nat) returns (success: bool)
      requires words != []
      requires WellCounted(words, parameters) ==> parameters >= 1 && player.currentRoom != null && words[1] in player.currentRoom.exits.entries
      requires QuestsValid()
      modifies player`currentRoom, this`followingNpc, this`marchandWaitingAtAvantpost, this`marchandRemoved
      modifies Escorted()`currentRoom, (if WellCounted(words, parameters) then GoRooms(words[1]) else {})`characters
      modifies Manager()`activeQuests, Active()`completedObjectives, Active()`isCompleted, Rewarded()`rewards
      ensures QuestsValid()
      ensures success ==> WellCounted(words, parameters)
      ensures !success ==> unchanged(this, player) && unchanged(Escorted()) && unchanged(Manager(), Active(), Rewarded())
      ensures WellCounted(words, parameters) ==>
        var target := old(player.currentRoom.GetExit(words[1]));
        && success == (target != null && !old(ForestBarred(target)) && !old(TurnsBack(target)))
        && (success ==> player.currentRoom == target)
      ensures WellCounted(words, parameters) && !success ==> unchanged(old(GoRooms(words[1])))
      ensures success ==>
        Arrived(player.currentRoom, old(Snapshot(player.currentRoom.GetExit(words[1]), followingNpc, NpcRoom())),
                Snapshot(player.currentRoom, old(followingNpc), old(NpcRoom())))
      ensures success ==> Heard(old(ActiveList()), old(States(ActiveList())), old(Received()), Performed("aller", Some(player.currentRoom.name)))
    {
      if !WellCounted(words, parameters) {
        return false;
      }
      success := Journey(words[1]);
    }

    /**
     * The inventory transfer of `take`, for an item lying in the room under
     * `itemName`: refused, with nothing changed, when it would take the
     * player over the weight limit; otherwise the item leaves the room and
     * is filed under its own name in the player's inventory.
     */
    method Pick(room: Room, itemName: string, item: Item) returns (ok: bool)
      requires itemName in room.inventory.entries && room.inventory.entries[itemName] == item
      modifies player`inventory, room`inventory
      ensures ok == (old(player.CurrentWeight()) + item.weight <= player.maxWeight)
      ensures ok ==> room.inventory == Del(old(room.inventory), itemName) && player.inventory == Put(old(player.inventory), item.name, item)
      ensures !ok ==> player.inventory == old(player.inventory) && room.inventory == old(room.inventory)
    {
      if player.CurrentWeight() + item.weight > player.maxWeight {
        return false;
      }
      ok := player.AddItem(item);
      if !ok {
        return false;
      }
      room.inventory := Del(room.inventory, itemName);
    }

    /**
     * `take` once the word count is right, for the player's room: the item
     * must lie there and be light enough; it then changes hands and the
     * quests hear "obtenir" with its name.
     */
    method TakeFrom(room: Room, itemName: string) returns (ok: bool)
      requires QuestsValid()
      modifies player`inventory, room`inventory
      modifies Manager()`activeQuests, Active()`completedObjectives, Active()`isCompleted, Rewarded()`rewards
      ensures QuestsValid()
      ensures ok == (itemName in old(room.inventory.entries) && old(player.CurrentWeight()) + old(room.inventory.entries[itemName]).weight <= player.maxWeight)
      ensures !ok ==> player.inventory == old(player.inventory) && room.inventory == old(room.inventory) && unchanged(Manager(), Active(), Rewarded())
      ensures ok ==>
        var item := old(room.inventory.entries[itemName]);
        && room.inventory == Del(old(room.inventory), itemName)
        && player.inventory == Put(old(player.inventory), item.name, item)
        && Heard(old(ActiveList()), old(States(ActiveList())), old(Received()), Performed("obtenir", Some(item.name)))
    {
      if itemName !in room.inventory.entries {
        return false;
      }
      var item := room.inventory.entries[itemName];
      ok := Pick(room, itemName, item);
      QuestsKept();
      if ok {
        ghost var carried := player.inventory;
        ghost var here := room.inventory;
        Report("obtenir", item.name);
        assert player.inventory == carried && room.inventory == here;
      }
    }

    /**
     * `take <item>`: refused, with nothing changed, on a wrong word count,
     * for an item not in the room, or when it would take the player over
     * the weight limit. Otherwise the item leaves the room's inventory for
     * the player's (filed under its own name) and the quests hear "obtenir"
     * with the item's name.
     */
    method Take(words: seq<string>, parameters: nat) returns (ok: bool)
      requires words != []
      requires WellCounted(words, parameters) ==> parameters >= 1 && player.currentRoom != null
      requires QuestsValid()
      modifies player`inventory, Here()`inventory
      modifies Manager()`activeQuests, Active()`completedObjectives, Active()`isCompleted, Rewarded()`rewards
      ensures QuestsValid()
      ensures ok ==> WellCounted(words, parameters)
      ensures !ok ==> player.inventory == old(player.inventory) && unchanged(Here()) && unchanged(Manager(), Active(), Rewarded())
      ensures WellCounted(words, parameters) ==>
        var room := player.currentRoom; var key := words[1];
        && ok == (key in old(room.inventory.entries) && old(player.CurrentWeight()) + old(room.inventory.entries[key]).weight <= player.maxWeight)
        && (ok ==>
              var item := old(room.inventory.entries[key]);
              && room.inventory == Del(old(room.inventory), key)
              && player.inventory == Put(old(player.inventory), item.name, item)
              && Heard(old(ActiveList()), old(States(ActiveList())), old(Received()), Performed("obtenir", Some(item.name))))
    {
      if !WellCounted(words, parameters) {
        return false;
      }
      ok := TakeFrom(player.currentRoom, words[1]);
    }

    /** The name of the room `teleport` sends to: the last word of its two or three. */
    function TargetName(words: seq<string>): string
      requires |words| >= 2
    {
      if |words| == 2 then words[1] else words[2]
    }

    /**
     * The entity `teleport` moves: the player when only a room is named;
     * otherwise the entity of the player's room registered under the
     * lower-cased name, or else the first there whose lower-cased name it
     * is.
     */
    function Chosen(words: seq<string>): (r: Option<Occupant>)
      requires |words| >= 2
      requires |words| > 2 ==> player.currentRoom != null
      reads player, Here()
      ensures |words| == 2 ==> r == Some(Hero(player))
      ensures r.Some? && |words| > 2 ==>
        var d := player.currentRoom.characters;
        r.value in d.entries.Values && (Lower(words[1]) !in d.entries ==> Lower(NameOf(r.value)) == Lower(words[1]))
      ensures r.None? <==>
        && |words| > 2 && Lower(words[1]) !in player.currentRoom.characters.entries
        && forall o :: o in player.currentRoom.characters.entries.Values ==> Lower(NameOf(o)) != Lower(words[1])
    {
      if |words| == 2 then Some(Hero(player))
      else
        var d := player.currentRoom.characters;
        var key := Lower(words[1]);
        if key in d.entries then Some(d.entries[key])
        else
          var vs := Values(d);
          var k := NamedIndex(vs, key);
          assert forall o :: o in d.entries.Values ==> o in vs by {
            forall o | o in d.entries.Values ensures o in vs {
              var j :| j in d.entries && d.entries[j] == o;
              var i :| 0 <= i < |d.keys| && d.keys[i] == j;
              assert vs[i] == o;
            }
          }
          if k < |vs| then Some(vs[k]) else None
    }

    /** The entity named by `teleport`'s words, found as `Chosen` says. */
    method Resolve(words: seq<string>) returns (entity: Option<Occupant>)
      requires |words| >= 2
      requires |words| > 2 ==> player.currentRoom != null
      ensures entity == Chosen(words)
    {
      if |words| == 2 {
        return Some(Hero(player));
      }
      var key := Lower(words[1]);
      var room := player.currentRoom;
      entity := Get(room.characters, key);
      if entity.None? {
        var vs := Values(room.characters);
        var k := FindNamed(vs, key);
        if k < |vs| {
          entity := Some(vs[k]);
        }
      }
    }

    /**
     * The registry changes of `teleport`: the entity leaves the registry of
     * the room it stood in, if any, and is registered in `to` under `key`.
     */
    method Reregister(from: Room?, to: Room, key: string, e: Occupant)
      modifies (if from != null then {from} else {})`characters, to`characters
      ensures from != null && from != to ==> from.characters == Unregistered(old(from.characters), key, e)
      ensures to.characters == Put(if from == to then Unregistered(old(to.characters), key, e) else old(to.characters), key, e)
    {
      if from != null {
        Unregister(from, key, e);
      }
      to.characters := Put(to.characters, key, e);
    }

    /** The entity now stands in `to`. */
    method Place(e: Occupant, to: Room)
      modifies (if e.Npc? then {e.npc} else {})`currentRoom, (if e.Hero? then {e.hero} else {})`currentRoom
      ensures Whereabouts(e) == to
    {
      match e
      case Npc(c) => c.currentRoom := to;
      case Hero(p) => p.currentRoom := to;
    }

    /**
     * The move of `teleport`: the entity leaves the registry of the room it
     * stood in, the player's room goes on the history when the player is
     * the one moved, and the entity now stands in `to`, registered under its
     * lower-cased name.
     */
    method Transfer(e: Occupant, from: Room?, to: Room)
      requires from == Whereabouts(e)
      modifies player`history, (if e.Npc? then {e.npc} else {})`currentRoom, (if e.Hero? then {e.hero} else {})`currentRoom
      modifies (if from != null then {from} else {})`characters, to`characters
      ensures var key := Lower(NameOf(e));
        && Whereabouts(e) == to
        && (from != null && from != to ==> from.characters == Unregistered(old(from.characters), key, e))
        && to.characters == Put(if from == to then Unregistered(old(to.characters), key, e) else old(to.characters), key, e)
        && player.history == if e == Hero(player) && from != null then old(player.history) + [from] else old(player.history)
    {
      Reregister(from, to, Lower(NameOf(e)), e);
      if e == Hero(player) && player.currentRoom != null {
        player.history := player.history + [player.currentRoom];
      }
      Place(e, to);
    }

    /** The character `teleport` would move, as a set. */
    function ChosenNpc(words: seq<string>): set<Character>
      requires |words| > 2 ==> player.currentRoom != null
      reads player, Here()
    {
      if |words| >= 2 && Chosen(words).Some? && Chosen(words).value.Npc? then {Chosen(words).value.npc} else {}
    }

    /** The player `teleport` would move, as a set. */
    function ChosenHero(words: seq<string>): set<Player>
      requires |words| > 2 ==> player.currentRoom != null
      reads player, Here()
    {
      if |words| >= 2 && Chosen(words).Some? && Chosen(words).value.Hero? then {Chosen(words).value.hero} else {}
    }

    /** The rooms whose registries `teleport` may change: where the entity stands, and the target. */
    function TeleportRooms(words: seq<string>): set<Room>
      requires |words| > 2 ==> player.currentRoom != null
      reads player, Here(), ChosenNpc(words), ChosenHero(words)
    {
      (if |words| >= 2 && Chosen(words).Some? && Whereabouts(Chosen(words).value) != null then {Whereabouts(Chosen(words).value)} else {})
      + (if |words| >= 2 && GetRoomByName(TargetName(words)) != null then {GetRoomByName(TargetName(words))} else {})
    }

    /**
     * `teleport <room>` moves the player, `teleport <entity> <room>` an
     * entity of the player's room, to the game's room of that name.
     * Refused, with nothing changed, with fewer than two words, for an
     * entity not found, or for an unknown room. Otherwise the entity leaves
     * the registry of the room it stood in and is registered, under its
     * lower-cased name, in the target room, where it now stands; a
     * teleported player's old room goes on its history.
     */
    method Teleport(words: seq<string>) returns (ok: bool)
      requires |words| > 2 ==> player.currentRoom != null
      modifies player`history, ChosenHero(words)`currentRoom, ChosenNpc(words)`currentRoom, TeleportRooms(words)`characters
      ensures |words| < 2 ==> !ok
      ensures |words| >= 2 ==> ok == (old(Chosen(words)).Some? && GetRoomByName(TargetName(words)) != null)
      ensures !ok ==> unchanged(player) && unchanged(old(ChosenNpc(words))) && unchanged(old(ChosenHero(words))) && unchanged(old(TeleportRooms(words)))
      ensures ok ==>
        var e := old(Chosen(words)).value; var to := GetRoomByName(TargetName(words));
        var from := old(Whereabouts(e)); var key := Lower(NameOf(e));
        && Whereabouts(e) == to
        && (from != null && from != to ==> from.characters == Unregistered(old(from.characters), key, e))
        && to.characters == Put(if from == to then Unregistered(old(to.characters), key, e) else old(to.characters), key, e)
        && player.history == if e == Hero(player) && from != null then old(player.history) + [from] else old(player.history)
    {
      if |words| < 2 {
        return false;
      }
      var entity := Resolve(words);
      if entity.None? {
        return false;
      }
      var target := GetRoomByName(TargetName(words));
      if target == null {
        return false;
      }
      Transfer(entity.value, Whereabouts(entity.value), target);
      return true;
    }

    /**
     * `drop <item>`: refused, with nothing changed, on a wrong word count or
     * for an item the player does not carry; otherwise the item moves, under
     * the same name, from the player's inventory to the room's.
     */
    method Drop(words: seq<string>, parameters: nat) returns (ok: bool)
      requires words != []
      requires WellCounted(words, parameters) ==> parameters >= 1 && (words[1] in player.inventory.entries ==> player.currentRoom != null)
      modifies player`inventory, Here()`inventory
      ensures ok ==> WellCounted(words, parameters)
      ensures WellCounted(words, parameters) ==>
        var room := player.currentRoom; var key := words[1];
        && ok == (key in old(player.inventory.entries))
        && (ok ==>
              && room != null
              && room.inventory == Put(old(room.inventory), key, old(player.inventory.entries[key]))
              && player.inventory == Del(old(player.inventory), key)
              && key !in player.inventory.entries)
      ensures !ok ==> player.inventory == old(player.inventory) && unchanged(Here())
    {
      if !WellCounted(words, parameters) {
        return false;
      }
      var itemName := words[1];
      if itemName !in player.inventory.entries {
        return false;
      }
      var room := player.currentRoom;
      var item := player.inventory.entries[itemName];
      room.inventory := Put(room.inventory, itemName, item);
      player.inventory := Del(player.inventory, itemName);
      return true;
    }
  }
}
