/**
 * The places and the people of the game: rooms (room.py), non-player
 * characters (character.py) and the player (player.py). The three refer to
 * one another (a character stands in a room, a room registers the characters
 * present), so they share one module.
 *
 * Besides what room.py and player.py declare, the game uses a registry of
 * characters and an item inventory on every room, and an inventory, a weight
 * capacity, a history of visited rooms and a list of rewards on the player;
 * these appear here as explicit fields.
 */
module World {
  import opened Wrappers
  import opened Lists
  import opened Strings
  import opened Dicts
  import opened Items

  /** What a room's character registry can hold: a character, or the player after a teleport. */
  datatype Occupant = Npc(npc: Character) | Hero(hero: Player)

  /** The player a reward goes to: none when no player is given. */
  function Payee(p: Player?): set<Player> {
    if p == null then {} else {p}
  }

  /** The separators that `get_exit_string` strips from both ends. */
  const ListSeparators: set<char> := {',', ' '}

  /** The directions whose exit leads somewhere (is not None), in dictionary order. */
  function OpenKeys(keys: seq<string>, entries: map<string, Room?>): (ds: seq<string>)
    requires forall i :: 0 <= i < |keys| ==> keys[i] in entries
    ensures forall i :: 0 <= i < |ds| ==> ds[i] in keys && entries[ds[i]] != null
    ensures forall i :: 0 <= i < |keys| && entries[keys[i]] != null ==> keys[i] in ds
    ensures Distinct(keys) ==> Distinct(ds)
  {
    if keys == [] then []
    else
      var rest := OpenKeys(keys[1..], entries);
      assert forall i :: 1 <= i < |keys| ==> keys[i] == keys[1..][i - 1];
      if entries[keys[0]] != null then [keys[0]] + rest else rest
  }

  /** The rooms the open directions lead to, in the same order. */
  function OpenValues(keys: seq<string>, entries: map<string, Room?>): (rs: seq<Room>)
    requires forall i :: 0 <= i < |keys| ==> keys[i] in entries
    ensures |rs| == |OpenKeys(keys, entries)|
    ensures forall i :: 0 <= i < |rs| ==> rs[i] == entries[OpenKeys(keys, entries)[i]]
  {
    if keys == [] then []
    else
      var rest := OpenValues(keys[1..], entries);
      assert forall i :: 1 <= i < |keys| ==> keys[i] == keys[1..][i - 1];
      var r := entries[keys[0]];
      if r != null then [r] + rest else rest
  }

  /** The running text of `get_exit_string`'s loop: each open direction followed by ", ". */
  function Listing(keys: seq<string>, entries: map<string, Room?>): string
    requires forall i :: 0 <= i < |keys| ==> keys[i] in entries
  {
    if keys == [] then ""
    else (if entries[keys[0]] != null then keys[0] + ", " else "") + Listing(keys[1..], entries)
  }

  /** Each word followed by ", ". */
  function Trailed(ds: seq<string>): string {
    if ds == [] then "" else ds[0] + ", " + Trailed(ds[1..])
  }

  lemma {:induction false} ListingIsTrailedOpenKeys(keys: seq<string>, entries: map<string, Room?>)
    requires forall i :: 0 <= i < |keys| ==> keys[i] in entries
    ensures Listing(keys, entries) == Trailed(OpenKeys(keys, entries))
  {
    if keys != [] {
      ListingIsTrailedOpenKeys(keys[1..], entries);
      if entries[keys[0]] != null {
        assert Listing(keys, entries) == keys[0] + ", " + Listing(keys[1..], entries);
      } else {
        assert Listing(keys, entries) == "" + Listing(keys[1..], entries);
      }
    }
  }

  lemma {:induction false} TrailedIsJoinPlusSeparator(ds: seq<string>)
    requires ds != []
    ensures Trailed(ds) == Join(ds, ", ") + ", "
  {
    if |ds| > 1 {
      TrailedIsJoinPlusSeparator(ds[1..]);
    } else {
      assert Trailed(ds[1..]) == "";
    }
  }

  lemma {:induction false} JoinEndsWithLastWord(ds: seq<string>, sep: string)
    requires ds != [] && ds[|ds| - 1] != []
    ensures var j := Join(ds, sep); j != [] && j[|j| - 1] == ds[|ds| - 1][|ds[|ds| - 1]| - 1]
  {
    if |ds| > 1 {
      JoinEndsWithLastWord(ds[1..], sep);
      assert ds[1..][|ds| - 2] == ds[|ds| - 1];
    }
  }

  /** Whatever follows it, the stripped exit line keeps its leading "Sorties:" and ends in neither separator. */
  lemma StripKeepsHeading(body: string)
    ensures var s := Strip("Sorties: " + body, ListSeparators);
      && |s| >= 8 && s[..8] == "Sorties:"
      && (s[|s| - 1] !in ListSeparators)
  {
    var whole := "Sorties: " + body;
    var l := LStrip(whole, ListSeparators);
    assert whole[0] !in ListSeparators;
    assert l == whole;
    var s := RStrip(whole, ListSeparators);
    assert whole[7] !in ListSeparators;
    assert s[..8] == whole[..8];
  }

  /** With the trailing ", " of the last open direction stripped, the list is joined by ", ". */
  lemma StripTrailingSeparator(ds: seq<string>)
    requires ds != [] && ds[|ds| - 1] != [] && ds[|ds| - 1][|ds[|ds| - 1]| - 1] !in ListSeparators
    ensures Strip("Sorties: " + Trailed(ds), ListSeparators) == "Sorties: " + Join(ds, ", ")
  {
    TrailedIsJoinPlusSeparator(ds);
    var j := Join(ds, ", ");
    JoinEndsWithLastWord(ds, ", ");
    var whole := "Sorties: " + Trailed(ds);
    assert whole == ("Sorties: " + j) + ", ";
    var l := LStrip(whole, ListSeparators);
    assert whole[0] !in ListSeparators;
    assert l == whole;
    RStripAppend("Sorties: " + j, ", ", ListSeparators);
  }

  lemma StripNoDirection()
    ensures Strip("Sorties: " + Trailed([]), ListSeparators) == "Sorties:"
  {
    var whole := "Sorties: " + Trailed([]);
    assert whole == "Sorties:" + " ";
    var l := LStrip(whole, ListSeparators);
    assert whole[0] !in ListSeparators;
    assert l == whole;
    RStripAppend("Sorties:", " ", ListSeparators);
  }

  class Room {
    const name: string
    const description: string
    var exits: Dict<string, Room?>
    /** Characters present, keyed by their lower-cased name. */
    var characters: Dict<string, Occupant>
    /** Items lying here, keyed by item name. */
    var inventory: Dict<string, Item>

    constructor (name: string, description: string)
      ensures this.name == name && this.description == description
      ensures exits == Empty() && characters == Empty() && inventory == Empty()
    {
      this.name := name;
      this.description := description;
      exits := Empty();
      characters := Empty();
      inventory := Empty();
    }

    /**
     * `get_exit`: the room a direction leads to; None for a closed or
     * unknown direction. This is Python's `dict.get` on the exits; its
     * contract only spells out that definition for the callers.
     */
    function GetExit(direction: string): (r: Room?)
      reads this
      ensures r != null <==> direction in exits.entries && exits.entries[direction] != null
      ensures direction in exits.entries ==> r == exits.entries[direction]
    {
      if direction in exits.entries then exits.entries[direction] else null
    }

    /** The directions that lead somewhere, in dictionary order, each once. */
    function OpenDirections(): (ds: seq<string>)
      reads this
      ensures Distinct(ds)
      ensures forall d :: d in ds <==> GetExit(d) != null
    {
      OpenKeys(exits.keys, exits.entries)
    }

    /** The non-None values of `exits`, in dictionary order (the list `Character.move` draws from). */
    function OpenTargets(): (rs: seq<Room>)
      reads this
      ensures |rs| == |OpenDirections()|
      ensures forall i :: 0 <= i < |rs| ==> rs[i] == GetExit(OpenDirections()[i])
    {
      OpenValues(exits.keys, exits.entries)
    }

    function OpenTargetSet(): set<Room>
      reads this
    {
      set i | 0 <= i < |OpenTargets()| :: OpenTargets()[i]
    }

    /** `get_exit_string`. */
    function ExitString(): string
      reads this
    {
      Strip("Sorties: " + Listing(exits.keys, exits.entries), ListSeparators)
    }

    /**
     * The exit line always starts with "Sorties:" and never ends in a comma
     * or a space; with no open exit it is exactly "Sorties:"; and when no
     * direction name is empty or ends in a comma or space, it lists exactly
     * the open directions, in order, separated by ", ".
     */
    lemma ExitStringShape()
      ensures var s := ExitString();
        && |s| >= 8 && s[..8] == "Sorties:"
        && s[|s| - 1] !in ListSeparators
      ensures OpenDirections() == [] ==> ExitString() == "Sorties:"
      ensures (forall d :: d in OpenDirections() ==> d != [] && d[|d| - 1] !in ListSeparators) ==>
        ExitString() == if OpenDirections() == [] then "Sorties:" else "Sorties: " + Join(OpenDirections(), ", ")
    {
      ListingIsTrailedOpenKeys(exits.keys, exits.entries);
      StripKeepsHeading(Listing(exits.keys, exits.entries));
      var ds := OpenDirections();
      if ds == [] {
        StripNoDirection();
      } else if ds[|ds| - 1] != [] && ds[|ds| - 1][|ds[|ds| - 1]| - 1] !in ListSeparators {
        StripTrailingSeparator(ds);
      }
    }

    /** `get_long_description`. */
    function LongDescription(): (text: string)
      reads this
    {
      "\nVous êtes " + description + "\n\n" + ExitString() + "\n"
    }

    /** The long description shows the room's description and its exit line. */
    lemma LongDescriptionShows()
      ensures Contains(LongDescription(), description)
      ensures Contains(LongDescription(), ExitString())
    {
      var head := "\nVous êtes ";
      var text := LongDescription();
      assert OccursAt(description, text, |head|) by {
        assert text[|head|..|head| + |description|] == description;
      }
      var at := |head| + |description| + 2;
      assert OccursAt(ExitString(), text, at) by {
        assert text[at..at + |ExitString()|] == ExitString();
      }
    }
  }

  /** The message queue after `r` turns of `get_msg` from `s` (for `r` up to one round). */
  function Turned(s: seq<string>, r: nat): seq<string>
    requires r <= |s|
  {
    s[r..] + s[..r]
  }

  /**
   * Turning the queue once more, as `get_msg` does, says the message of index
   * `r` and leaves the queue turned `r + 1` times; a full round brings the
   * queue back, so a character's messages are said in order, over and over.
   */
  lemma TurnAdvances(s: seq<string>, r: nat)
    requires r < |s|
    ensures var t := Turned(s, r);
      && t != [] && t[0] == s[r]
      && t[1..] + [t[0]] == Turned(s, r + 1)
    ensures Turned(s, |s|) == s == Turned(s, 0)
  {
    var t := Turned(s, r);
    assert t[0] == s[r];
    assert t[1..] == s[r + 1..] + s[..r];
    assert s[..r] + [s[r]] == s[..r + 1];
  }

  class Character {
    const name: string
    const description: string
    var currentRoom: Room?
    var msgs: seq<string>

    /** `msgs = list(msgs) if msgs is not None else []`. */
    constructor (name: string, description: string, currentRoom: Room?, msgs: Option<seq<string>>)
      ensures this.name == name && this.description == description && this.currentRoom == currentRoom
      ensures this.msgs == if msgs.Some? then msgs.value else []
    {
      this.name := name;
      this.description := description;
      this.currentRoom := currentRoom;
      this.msgs := if msgs.Some? then msgs.value else [];
    }

    /**
     * `get_msg`: with no message, the fixed line "<name> n'a rien à dire."
     * and no change; otherwise the first message, which moves to the back.
     */
    method GetMsg() returns (msg: string)
      modifies this`msgs
      ensures old(msgs) == [] ==> msg == name + " n'a rien à dire." && msgs == []
      ensures old(msgs) != [] ==> msg == old(msgs)[0] && msgs == old(msgs)[1..] + [old(msgs)[0]]
    {
      if msgs == [] {
        return name + " n'a rien à dire.";
      }
      msg := msgs[0];
      msgs := msgs[1..];
      msgs := msgs + [msg];
    }

    /**
     * `move`, with the two random draws as parameters: `coin` is the fifty-fifty
     * draw and `pick` the index drawn among the open exits. The character
     * stays put on a losing draw or when no exit leads anywhere; otherwise it
     * goes to the drawn room, leaves the old room's registry and is entered
     * in the new one under its lower-cased name. A losing draw is decided
     * before the room is looked at, so a character with no room may lose it.
     */
    method Move(coin: bool, pick: nat) returns (moved: bool)
      requires coin ==> currentRoom != null
      requires coin && currentRoom.OpenTargets() != [] ==> pick < |currentRoom.OpenTargets()|
      modifies this`currentRoom, (if currentRoom != null then {currentRoom} + currentRoom.OpenTargetSet() else {})`characters
      ensures !coin ==> !moved && currentRoom == old(currentRoom)
      ensures old(currentRoom) != null ==>
        var from := old(currentRoom); var targets := old(from.OpenTargets());
        moved == (coin && targets != [])
      ensures old(currentRoom) != null ==>
        var from := old(currentRoom); var targets := old(from.OpenTargets());
        !moved ==>
          && currentRoom == from
          && from.characters == old(from.characters)
          && forall r :: r in targets ==> r.characters == old(r.characters)
      ensures old(currentRoom) != null ==>
        var from := old(currentRoom); var targets := old(from.OpenTargets()); var key := Lower(name);
        moved ==>
          var to := targets[pick];
          && currentRoom == to
          && (from != to ==> from.characters == Pop(old(from.characters), key))
          && to.characters == Put(if from == to then Pop(old(to.characters), key) else old(to.characters), key, Npc(this))
          && forall r :: r in targets && r != from && r != to ==> r.characters == old(r.characters)
    {
      if !coin {
        return false;
      }
      var possibleRooms := currentRoom.OpenTargets();
      if possibleRooms == [] {
        return false;
      }
      var newRoom := possibleRooms[pick];
      Relocate(currentRoom, newRoom);
      currentRoom := newRoom;
      return true;
    }

    /**
     * The registry transfer of `move`: the character's lower-cased name is
     * deleted from `from`'s registry when present, then entered in `to`'s.
     */
    method Relocate(from: Room, to: Room)
      modifies from`characters, to`characters
      ensures from != to ==> from.characters == Pop(old(from.characters), Lower(name))
      ensures to.characters == Put(if from == to then Pop(old(to.characters), Lower(name)) else old(to.characters), Lower(name), Npc(this))
    {
      var key := Lower(name);
      if key in from.characters.entries {
        from.characters := Del(from.characters, key);
      }
      to.characters := Put(to.characters, key, Npc(this));
    }
  }

  class Player {
    const name: string
    var currentRoom: Room?
    /** Items carried, keyed by item name. */
    var inventory: Dict<string, Item>
    /** Rooms the player was teleported away from, most recent last. */
    var history: seq<Room>
    /** Quest rewards received, in order. */
    var rewards: seq<string>
    /** The weight the player can carry. */
    const maxWeight: int

    /** A new player is not yet placed in any room. */
    constructor (name: string, maxWeight: int)
      ensures this.name == name && currentRoom == null
      ensures inventory == Empty() && history == [] && rewards == [] && this.maxWeight == maxWeight
    {
      this.name := name;
      currentRoom := null;
      inventory := Empty();
      history := [];
      rewards := [];
      this.maxWeight := maxWeight;
    }

    /** `get_current_weight`: the summed weight of what is carried. */
    function CurrentWeight(): int
      reads this
    {
      Load(Values(inventory))
    }

    /**
     * `add_item`: refused, with nothing changed, when the item would take the
     * load over `max_weight`; otherwise the item is filed under its name.
     * Adding an item under a new name adds exactly its weight, so the
     * capacity is respected.
     */
    method AddItem(item: Item) returns (ok: bool)
      modifies this`inventory
      ensures ok == (old(CurrentWeight()) + item.weight <= maxWeight)
      ensures inventory == if ok then Put(old(inventory), item.name, item) else old(inventory)
      ensures ok && item.name !in old(inventory.entries) ==>
        CurrentWeight() == old(CurrentWeight()) + item.weight <= maxWeight
    {
      if CurrentWeight() + item.weight > maxWeight {
        return false;
      }
      var before := inventory;
      inventory := Put(inventory, item.name, item);
      if item.name !in before.entries {
        assert Values(inventory) == Values(before) + [item];
      }
      return true;
    }

    /** `add_reward`: the reward is appended to the rewards received. */
    method AddReward(reward: string)
      modifies this`rewards
      ensures rewards == old(rewards) + [reward]
    {
      rewards := rewards + [reward];
    }

    /**
     * `move`: the direction must be a key of the current room's exits (the
     * source indexes the dictionary without a check). A None exit refuses the
     * move; otherwise the player is now in the room the exit leads to.
     */
    method Move(direction: string) returns (moved: bool)
      requires currentRoom != null && direction in currentRoom.exits.entries
      modifies this`currentRoom
      ensures moved == (old(currentRoom.GetExit(direction)) != null)
      ensures currentRoom == if moved then old(currentRoom.GetExit(direction)) else old(currentRoom)
    {
      var nextRoom := currentRoom.exits.entries[direction];
      if nextRoom == null {
        return false;
      }
      currentRoom := nextRoom;
      return true;
    }
  }
}
