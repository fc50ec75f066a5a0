/**
 * Quests (quest.py): a quest is a small state machine over its list of
 * objectives (inactive, active, completed), and the quest manager keeps the
 * list of active quests, checks events against them and drops a quest from
 * that list as soon as it is completed.
 *
 * The progress of one quest (the objectives ticked so far and the completed
 * flag) is first modelled as a value, `Progress`, with the pure step
 * `Advance` that `complete_objective` performs; the `Quest` and
 * `QuestManager` classes are then proved to update their fields exactly as
 * these functions say.
 */
module Quests {
  import opened Wrappers
  import opened Lists
  import opened Strings
  import opened World

  /** The part of a quest that its objectives change: objectives ticked, in order, and the completed flag. */
  datatype Progress = Progress(completed: seq<string>, done: bool)

  /**
   * The invariant every quest keeps: ticked objectives are objectives of
   * the quest and none is ticked twice, and once the number of ticked
   * objectives reaches the number of objectives the quest is completed.
   */
  predicate Consistent(objectives: seq<string>, p: Progress) {
    && Distinct(p.completed)
    && (forall i :: 0 <= i < |p.completed| ==> p.completed[i] in objectives)
    && (p.completed != [] && |p.completed| == |objectives| ==> p.done)
  }

  /** An objective `complete_objective` accepts: one of the quest's, not yet ticked. */
  predicate Open(objectives: seq<string>, completed: seq<string>, o: string) {
    o in objectives && o !in completed
  }

  /**
   * `complete_objective`: an open objective is appended to the ticked ones,
   * and the quest is completed when their number reaches the number of
   * objectives; any other objective changes nothing.
   */
  function Advance(objectives: seq<string>, p: Progress, o: string): (r: Progress)
    ensures p.completed <= r.completed && (p.done ==> r.done)
    ensures Open(objectives, p.completed, o) ==> r.completed == p.completed + [o]
    ensures !Open(objectives, p.completed, o) ==> r == p
  {
    if Open(objectives, p.completed, o) then
      var c := p.completed + [o];
      Progress(c, p.done || |c| == |objectives|)
    else
      p
  }

  /** The reward as `complete_quest` hands it out: only a non-empty reward counts. */
  function RewardDue(reward: Option<string>): seq<string> {
    if reward.Some? && reward.value != "" then [reward.value] else []
  }

  /** What a step from `before` to `after` pays: the reward, when the step completes the quest. */
  function Pay(reward: Option<string>, before: Progress, after: Progress): seq<string> {
    if !before.done && after.done then RewardDue(reward) else []
  }

  lemma AdvanceKeepsConsistent(objectives: seq<string>, p: Progress, o: string)
    requires Consistent(objectives, p)
    ensures Consistent(objectives, Advance(objectives, p, o))
    ensures p.done ==> Advance(objectives, p, o).done
  {
  }

  /**
   * An objective is accepted at most once: after it has been accepted,
   * offering it again is refused and changes nothing.
   */
  lemma AdvanceOnlyOnce(objectives: seq<string>, p: Progress, o: string)
    ensures !Open(objectives, Advance(objectives, p, o).completed, o)
    ensures Advance(objectives, Advance(objectives, p, o), o) == Advance(objectives, p, o)
  {
  }

  /**
   * The ticked objectives never outnumber the objectives, and when the
   * objectives repeat one, they stay strictly fewer.
   */
  lemma CompletedBounded(objectives: seq<string>, p: Progress)
    requires Consistent(objectives, p)
    ensures |p.completed| <= |objectives|
    ensures !Distinct(objectives) ==> |p.completed| < |objectives|
  {
    SubsetBound(p.completed, objectives);
  }

  /**
   * A quest whose objective list holds a duplicate can never be completed
   * through its objectives: the count of ticked objectives cannot reach the
   * length of the list.
   */
  lemma DuplicatesNeverComplete(objectives: seq<string>, p: Progress, o: string)
    requires Consistent(objectives, p) && !Distinct(objectives)
    ensures Advance(objectives, p, o).done == p.done
  {
    AdvanceKeepsConsistent(objectives, p, o);
    CompletedBounded(objectives, Advance(objectives, p, o));
  }

  /**
   * With duplicate-free objectives, the ticked count reaches the number of
   * objectives exactly when every objective is ticked.
   */
  lemma FullCountMeansAllTicked(objectives: seq<string>, p: Progress)
    requires Consistent(objectives, p) && Distinct(objectives)
    ensures |p.completed| == |objectives| <==> forall i :: 0 <= i < |objectives| ==> objectives[i] in p.completed
  {
    SameLengthSameElements(p.completed, objectives);
  }

  /** The progress after offering the objectives `os` one after another. */
  function Run(objectives: seq<string>, p: Progress, os: seq<string>): Progress
    decreases |os|
  {
    if os == [] then p else Run(objectives, Advance(objectives, p, os[0]), os[1..])
  }

  /** The rewards paid while offering the objectives `os` one after another. */
  function Paid(objectives: seq<string>, reward: Option<string>, p: Progress, os: seq<string>): seq<string>
    decreases |os|
  {
    if os == [] then []
    else
      var next := Advance(objectives, p, os[0]);
      Pay(reward, p, next) + Paid(objectives, reward, next, os[1..])
  }

  /**
   * However many objectives are offered, the reward is paid at most once,
   * never once the quest is completed, and exactly once (when it is not
   * empty) on the way to completion.
   */
  lemma {:induction false} RewardPaidAtMostOnce(objectives: seq<string>, reward: Option<string>, p: Progress, os: seq<string>)
    ensures |Paid(objectives, reward, p, os)| <= 1
    ensures p.done ==> Paid(objectives, reward, p, os) == []
    ensures !p.done && Run(objectives, p, os).done ==> Paid(objectives, reward, p, os) == RewardDue(reward)
    decreases |os|
  {
    if os != [] {
      var next := Advance(objectives, p, os[0]);
      RewardPaidAtMostOnce(objectives, reward, next, os[1..]);
      if Pay(reward, p, next) != [] {
        assert next.done;
      }
    }
  }

  /** The four ways `check_room_objective` spells a visit to a room, in the order tried. */
  function RoomTemplates(room: string): seq<string> {
    ["Visiter " + room, "Explorer " + room, "Aller à " + room, "Entrer dans " + room]
  }

  /**
   * The spellings `check_action_objective` tries: four with a non-empty
   * target, otherwise the bare action.
   */
  function ActionTemplates(action: string, target: Option<string>): seq<string> {
    if target.Some? && target.value != "" then
      var t := target.value;
      [action + " " + t, action + " avec " + t, action + " le " + t, action + " la " + t]
    else
      [action]
  }

  /** The index of the first candidate that is an open objective; `|cands|` when there is none. */
  function FirstOpen(objectives: seq<string>, completed: seq<string>, cands: seq<string>): (k: nat)
    ensures k <= |cands|
    ensures forall j :: 0 <= j < k ==> !Open(objectives, completed, cands[j])
    ensures k < |cands| ==> Open(objectives, completed, cands[k])
  {
    if cands == [] then 0
    else if Open(objectives, completed, cands[0]) then 0
    else 1 + FirstOpen(objectives, completed, cands[1..])
  }

  /** Some word of `words` is an all-digit word whose value is at most `count`. */
  predicate HasCountAtMost(words: seq<string>, count: int) {
    exists j :: 0 <= j < |words| && IsDigits(words[j]) && DigitsValue(words[j]) <= count
  }

  /** An objective `check_counter_objective` completes for the counter `name` at `count`. */
  predicate CounterMatch(completed: seq<string>, name: string, count: int, o: string) {
    Contains(o, name) && o !in completed && HasCountAtMost(Split(o), count)
  }

  /** The index of the first objective the counter completes; `|objectives|` when there is none. */
  function CounterIndex(objectives: seq<string>, completed: seq<string>, name: string, count: int): (k: nat)
    ensures k <= |objectives|
    ensures forall j :: 0 <= j < k ==> !CounterMatch(completed, name, count, objectives[j])
    ensures k < |objectives| ==> CounterMatch(completed, name, count, objectives[k])
  {
    if objectives == [] then 0
    else if CounterMatch(completed, name, count, objectives[0]) then 0
    else 1 + CounterIndex(objectives[1..], completed, name, count)
  }

  /** `CounterIndex` is the first matching position: no match before `k`, and one at `k` or none at all. */
  lemma {:induction false} CounterIndexFirst(objectives: seq<string>, completed: seq<string>, name: string, count: int, k: nat)
    requires k <= |objectives|
    requires forall j :: 0 <= j < k ==> !CounterMatch(completed, name, count, objectives[j])
    requires k < |objectives| ==> CounterMatch(completed, name, count, objectives[k])
    ensures CounterIndex(objectives, completed, name, count) == k
    decreases k
  {
    if k > 0 {
      CounterIndexFirst(objectives[1..], completed, name, count, k - 1);
    }
  }

  /** The index of the first all-digit word; `|words|` when there is none. */
  function FirstNumberWord(words: seq<string>): (k: nat)
    ensures k <= |words|
    ensures forall j :: 0 <= j < k ==> !IsDigits(words[j])
    ensures k < |words| ==> IsDigits(words[k])
  {
    if words == [] then 0
    else if IsDigits(words[0]) then 0
    else 1 + FirstNumberWord(words[1..])
  }

  /** `_extract_number_from_text`: the value of the first all-digit word, if any. */
  function ExtractNumber(text: string): (r: Option<nat>)
    ensures r.Some? <==> exists i :: 0 <= i < |Split(text)| && IsDigits(Split(text)[i])
  {
    var words := Split(text);
    var k := FirstNumberWord(words);
    if k < |words| then
      assert words == Split(text) && 0 <= k < |Split(text)| && IsDigits(Split(text)[k]);
      Some(DigitsValue(words[k]))
    else None
  }

  /**
   * A number written among words is found again: after words that are not
   * numbers, the first number word is the one extracted.
   */
  lemma ExtractNumberFinds(before: seq<string>, n: nat, after: seq<string>)
    requires forall i :: 0 <= i < |before| ==> IsWord(before[i]) && !IsDigits(before[i])
    requires forall i :: 0 <= i < |after| ==> IsWord(after[i])
    ensures ExtractNumber(Join(before + [NatToString(n)] + after, " ")) == Some(n)
  {
    var ws := before + [NatToString(n)] + after;
    assert forall i :: 0 <= i < |ws| ==> IsWord(ws[i]);
    SplitJoin(ws);
    assert FirstNumberWord(ws) == |before| by {
      assert ws[|before|] == NatToString(n);
      assert forall j :: 0 <= j < |before| ==> ws[j] == before[j];
    }
    NatToStringRoundTrip(n);
  }

  /** Text without a number word yields none. */
  lemma ExtractNumberAbsent(ws: seq<string>)
    requires forall i :: 0 <= i < |ws| ==> IsWord(ws[i]) && !IsDigits(ws[i])
    ensures ExtractNumber(Join(ws, " ")) == None
  {
    SplitJoin(ws);
  }

  /** What a quest is told: a room visited, an action performed (on a target), or a counter's value. */
  datatype Event =
    | RoomVisit(room: string)
    | Performed(action: string, target: Option<string>)
    | Counted(counter: string, count: int)

  /** The objective an event completes, if any: the first match in the order the source tries them. */
  function Target(objectives: seq<string>, completed: seq<string>, e: Event): (r: Option<string>)
    ensures r.Some? ==> Open(objectives, completed, r.value)
  {
    match e
    case RoomVisit(room) =>
      var cands := RoomTemplates(room);
      var k := FirstOpen(objectives, completed, cands);
      if k < |cands| then Some(cands[k]) else None
    case Performed(action, target) =>
      var cands := ActionTemplates(action, target);
      var k := FirstOpen(objectives, completed, cands);
      if k < |cands| then Some(cands[k]) else None
    case Counted(name, count) =>
      var k := CounterIndex(objectives, completed, name, count);
      if k < |objectives| then Some(objectives[k]) else None
  }

  /** The progress after an event: the target objective, if any, is ticked. */
  function Respond(objectives: seq<string>, p: Progress, e: Event): (r: Progress)
    ensures p.completed <= r.completed && (p.done ==> r.done)
    ensures Target(objectives, p.completed, e) == None ==> r == p
  {
    match Target(objectives, p.completed, e)
    case None => p
    case Some(o) => Advance(objectives, p, o)
  }

  /**
   * An event ticks at most one objective, an objective of the quest that
   * was still open, and keeps the quest's invariant.
   */
  lemma RespondTicksAtMostOne(objectives: seq<string>, p: Progress, e: Event)
    requires Consistent(objectives, p)
    ensures var r := Respond(objectives, p, e);
      && Consistent(objectives, r)
      && (r.completed == p.completed
          || exists o :: Open(objectives, p.completed, o) && r.completed == p.completed + [o])
  {
    match Target(objectives, p.completed, e)
    case None =>
    case Some(o) =>
      AdvanceKeepsConsistent(objectives, p, o);
  }

  /** `get_status`, from the quest's title, flags and counts. */
  function StatusLine(title: string, active: bool, done: bool, ticked: nat, total: nat): string {
    if !active then "❓ " + title + " (Non activée)"
    else if done then "✅ " + title + " (Terminée)"
    else "⏳ " + title + " (" + NatToString(ticked) + "/" + NatToString(total) + " objectifs)"
  }

  /** The status line's leading symbol tells the three states apart. */
  lemma StatusTellsState(title: string, active: bool, done: bool, ticked: nat, total: nat)
    ensures var s := StatusLine(title, active, done, ticked, total);
      && (s[0] == '❓' <==> !active)
      && (s[0] == '✅' <==> active && done)
      && (s[0] == '⏳' <==> active && !done)
  {
  }

  /** Visiting "Castle" completes "Visiter Castle"; visiting "Tower" completes nothing. */
  lemma RoomExample()
    ensures Target(["Visiter Castle"], [], RoomVisit("Castle")) == Some("Visiter Castle")
    ensures Target(["Visiter Castle"], [], RoomVisit("Tower")) == None
  {
    assert RoomTemplates("Castle")[0] == "Visiter Castle";
    assert FirstOpen(["Visiter Castle"], [], RoomTemplates("Castle")) == 0;
    var tower := RoomTemplates("Tower");
    assert forall j :: 0 <= j < 4 ==> tower[j] != "Visiter Castle" by {
      assert tower[0][8] == 'T' && tower[1][9] == 'T' && tower[2][8] == 'T' && tower[3][12] == 'T';
      assert "Visiter Castle"[8] == 'C';
      assert |tower[1]| == 14 == |"Visiter Castle"| ==> tower[1][0] != 'V';
    }
    assert FirstOpen(["Visiter Castle"], [], tower) == 4;
  }

  /** Talking "parler" to "garde" completes "parler avec garde"; "courir" "vite" completes nothing. */
  lemma ActionExample()
    ensures Target(["parler avec garde"], [], Performed("parler", Some("garde"))) == Some("parler avec garde")
    ensures Target(["parler avec garde"], [], Performed("courir", Some("vite"))) == None
  {
    var c := ActionTemplates("parler", Some("garde"));
    assert c[0] != "parler avec garde" by {
      assert |c[0]| == 12;
    }
    assert c[1] == "parler avec garde";
    assert FirstOpen(["parler avec garde"], [], c) == 1;
    var d := ActionTemplates("courir", Some("vite"));
    assert forall j :: 0 <= j < 4 ==> d[j][0] == 'c';
    assert FirstOpen(["parler avec garde"], [], d) == 4;
  }

  /** A quest with the single objective `o` and nothing ticked reacts to a counter exactly when `o` matches it. */
  lemma CounterSingle(o: string, name: string, count: int)
    ensures Target([o], [], Counted(name, count)) == if CounterMatch([], name, count, o) then Some(o) else None
  {
    assert [o][1..] == [];
  }

  /** The objective "<name> <n> <unit>" mentions `name` and splits back into its three words. */
  lemma ThresholdWords(name: string, n: nat, unit: string)
    requires IsWord(name) && IsWord(unit)
    ensures var o := Join([name, NatToString(n), unit], " ");
      Contains(o, name) && Split(o) == [name, NatToString(n), unit]
  {
    var num := NatToString(n);
    var ws := [name, num, unit];
    var o := Join(ws, " ");
    SplitJoin(ws);
    assert o == name + " " + Join([num, unit], " ") by {
      assert ws[1..] == [num, unit];
    }
    assert o[..|name|] == name;
    assert OccursAt(name, o, 0);
  }

  /**
   * An objective "<name> <n> <unit>" (as "Marcher 5 fois") is completed by
   * the counter `name` exactly when its count has reached `n`: a count of 3
   * leaves "Marcher 5 fois" open, a count of 5 completes it.
   */
  lemma CounterThreshold(name: string, n: nat, unit: string, count: int)
    requires IsWord(name) && !IsDigits(name) && IsWord(unit) && !IsDigits(unit)
    ensures var o := Join([name, NatToString(n), unit], " ");
      Target([o], [], Counted(name, count)) == if n <= count then Some(o) else None
  {
    var ws := [name, NatToString(n), unit];
    ThresholdWords(name, n, unit);
    NatToStringRoundTrip(n);
    assert HasCountAtMost(ws, count) <==> n <= count by {
      assert ws[1] == NatToString(n);
    }
    CounterSingle(Join(ws, " "), name, count);
  }

  class Quest {
    const title: string
    const description: string
    const objectives: seq<string>
    const reward: Option<string>
    var completedObjectives: seq<string>
    var isCompleted: bool
    var isActive: bool

    function State(): Progress
      reads this
    {
      Progress(completedObjectives, isCompleted)
    }

    predicate Valid()
      reads this
    {
      Consistent(objectives, State())
    }

    /**
     * What one of the `check_*` methods promises for event `e`: it reports
     * whether the event had a target objective, ticks exactly that one, and
     * hands the reward to the player if that completed the quest.
     */
    twostate predicate Reacted(e: Event, player: Player?, ok: bool)
      reads this, Payee(player)
    {
      && ok == Target(objectives, old(completedObjectives), e).Some?
      && State() == Respond(objectives, old(State()), e)
      && (player != null ==> player.rewards == old(player.rewards) + Pay(reward, old(State()), State()))
    }

    /** A new quest is inactive, with nothing ticked; missing objectives mean none. */
    constructor (title: string, description: string, objectives: Option<seq<string>>, reward: Option<string>)
      ensures this.title == title && this.description == description && this.reward == reward
      ensures this.objectives == if objectives.Some? then objectives.value else []
      ensures completedObjectives == [] && !isCompleted && !isActive
      ensures Valid()
    {
      this.title := title;
      this.description := description;
      this.objectives := if objectives.Some? then objectives.value else [];
      this.reward := reward;
      completedObjectives := [];
      isCompleted := false;
      isActive := false;
    }

    /** `activate`. */
    method Activate()
      modifies this`isActive
      ensures isActive
    {
      isActive := true;
    }

    /**
     * `complete_quest`: marks the quest completed; the first time only, a
     * non-empty reward goes to the player, when there is one.
     */
    method CompleteQuest(player: Player?)
      modifies this`isCompleted, Payee(player)`rewards
      ensures isCompleted
      ensures player != null ==> player.rewards == old(player.rewards) + (if old(isCompleted) then [] else RewardDue(reward))
    {
      if !isCompleted {
        isCompleted := true;
        if reward.Some? && reward.value != "" {
          if player != null {
            player.AddReward(reward.value);
          }
        }
      }
    }

    /**
     * `complete_objective`: succeeds exactly for an open objective, ticking
     * it, and completes the quest (paying its reward) when that was the last.
     */
    method CompleteObjective(objective: string, player: Player?) returns (ok: bool)
      modifies this`completedObjectives, this`isCompleted, Payee(player)`rewards
      ensures ok == Open(objectives, old(completedObjectives), objective)
      ensures State() == Advance(objectives, old(State()), objective)
      ensures player != null ==> player.rewards == old(player.rewards) + Pay(reward, old(State()), State())
      ensures old(Valid()) ==> Valid()
    {
      if objective in objectives && objective !in completedObjectives {
        completedObjectives := completedObjectives + [objective];
        if |completedObjectives| == |objectives| {
          CompleteQuest(player);
        }
        return true;
      }
      return false;
    }

    /** `get_status`. */
    function Status(): string
      reads this
    {
      StatusLine(title, isActive, isCompleted, |completedObjectives|, |objectives|)
    }

    /** Offers the candidates in order and stops at the first one accepted. */
    method TryObjectives(cands: seq<string>, player: Player?) returns (ok: bool)
      modifies this`completedObjectives, this`isCompleted, Payee(player)`rewards
      ensures var k := FirstOpen(objectives, old(completedObjectives), cands);
        && ok == (k < |cands|)
        && State() == (if ok then Advance(objectives, old(State()), cands[k]) else old(State()))
      ensures player != null ==> player.rewards == old(player.rewards) + Pay(reward, old(State()), State())
      ensures old(Valid()) ==> Valid()
    {
      var i := 0;
      while i < |cands|
        invariant 0 <= i <= |cands|
        invariant forall j :: 0 <= j < i ==> !Open(objectives, completedObjectives, cands[j])
        invariant State() == old(State())
        invariant player != null ==> player.rewards == old(player.rewards)
      {
        ok := CompleteObjective(cands[i], player);
        if ok {
          return;
        }
        i := i + 1;
      }
      return false;
    }

    /** `check_room_objective`: the four room templates, in order. */
    method CheckRoomObjective(roomName: string, player: Player?) returns (ok: bool)
      modifies this`completedObjectives, this`isCompleted, Payee(player)`rewards
      ensures Reacted(RoomVisit(roomName), player, ok)
      ensures old(Valid()) ==> Valid()
    {
      ok := TryObjectives(RoomTemplates(roomName), player);
    }

    /** `check_action_objective`: the target templates, or the bare action without a target. */
    method CheckActionObjective(action: string, target: Option<string>, player: Player?) returns (ok: bool)
      modifies this`completedObjectives, this`isCompleted, Payee(player)`rewards
      ensures Reacted(Performed(action, target), player, ok)
      ensures old(Valid()) ==> Valid()
    {
      ok := TryObjectives(ActionTemplates(action, target), player);
    }

    /**
     * `check_counter_objective`: the first open objective that names the
     * counter and holds a number word not above the count is ticked.
     */
    method CheckCounterObjective(counterName: string, currentCount: int, player: Player?) returns (ok: bool)
      modifies this`completedObjectives, this`isCompleted, Payee(player)`rewards
      ensures Reacted(Counted(counterName, currentCount), player, ok)
      ensures old(Valid()) ==> Valid()
    {
      var k := FindCounted(counterName, currentCount);
      if k < |objectives| {
        var _ := CompleteObjective(objectives[k], player);
        return true;
      }
      return false;
    }

    /**
     * The search of `check_counter_objective`, which stops at the first
     * objective the counter completes.
     */
    method FindCounted(counterName: string, currentCount: int) returns (k: nat)
      ensures k == CounterIndex(objectives, completedObjectives, counterName, currentCount)
    {
      k := 0;
      while k < |objectives|
        invariant 0 <= k <= |objectives|
        invariant forall j :: 0 <= j < k ==> !CounterMatch(completedObjectives, counterName, currentCount, objectives[j])
      {
        var objective := objectives[k];
        if Contains(objective, counterName) && objective !in completedObjectives {
          var found := HasCount(Split(objective), currentCount);
          if found {
            CounterIndexFirst(objectives, completedObjectives, counterName, currentCount, k);
            return;
          }
        }
        k := k + 1;
      }
      CounterIndexFirst(objectives, completedObjectives, counterName, currentCount, k);
    }
  }

  /**
   * The inner loop of `check_counter_objective`: whether some all-digit
   * word has a value the count reaches.
   */
  method HasCount(words: seq<string>, currentCount: int) returns (found: bool)
    ensures found == HasCountAtMost(words, currentCount)
  {
    var w := 0;
    while w < |words|
      invariant 0 <= w <= |words|
      invariant forall j :: 0 <= j < w ==> !(IsDigits(words[j]) && DigitsValue(words[j]) <= currentCount)
    {
      if IsDigits(words[w]) {
        var requiredCount := DigitsValue(words[w]);
        if currentCount >= requiredCount {
          return true;
        }
      }
      w := w + 1;
    }
    return false;
  }

  /** The quests a sequence lists. */
  function Objects(qs: seq<Quest>): set<Quest> {
    set q | q in qs
  }

  /** The quests of `qs` at positions `lo` up to `hi` hold the progress `ps` lists for them. */
  ghost predicate Reached(qs: seq<Quest>, ps: seq<Progress>, lo: int, hi: int)
    reads Objects(qs)`completedObjectives, Objects(qs)`isCompleted
  {
    forall j :: lo <= j < hi && 0 <= j < |qs| && j < |ps| ==> qs[j].completedObjectives == ps[j].completed && qs[j].isCompleted == ps[j].done
  }

  /** The quests of `qs` that are not completed, in order. */
  function Unfinished(qs: seq<Quest>): seq<Quest>
    reads qs
  {
    if qs == [] then [] else Unfinished(qs[..|qs| - 1]) + (if qs[|qs| - 1].isCompleted then [] else [qs[|qs| - 1]])
  }

  /**
   * The unfinished quests are exactly the quests of `qs` not completed, and
   * none is listed twice when `qs` lists none twice.
   */
  lemma {:induction false} UnfinishedFacts(qs: seq<Quest>)
    ensures var r := Unfinished(qs);
      && (forall i :: 0 <= i < |r| ==> r[i] in qs && !r[i].isCompleted)
      && (forall i :: 0 <= i < |qs| && !qs[i].isCompleted ==> qs[i] in r)
      && (Distinct(qs) ==> Distinct(r))
    decreases |qs|
  {
    if qs != [] {
      var init := qs[..|qs| - 1];
      var last := qs[|qs| - 1];
      assert qs == init + [last];
      UnfinishedFacts(init);
      var r := Unfinished(qs);
      var ri := Unfinished(init);
      assert r == ri + (if last.isCompleted then [] else [last]);
      forall i | 0 <= i < |r| ensures r[i] in qs && !r[i].isCompleted {
        if i < |ri| { assert r[i] == ri[i]; } else { assert r[i] == last; }
      }
      forall i | 0 <= i < |qs| && !qs[i].isCompleted ensures qs[i] in r {
        if i < |init| { assert qs[i] == init[i]; assert init[i] in ri; } else { assert r[|r| - 1] == last; }
      }
      if Distinct(qs) {
        assert Distinct(init);
        assert last !in init;
        assert last !in ri;
      }
    }
  }

  /** The progress of each quest of `qs`. */
  function States(qs: seq<Quest>): (r: seq<Progress>)
    reads qs
    ensures |r| == |qs|
    ensures forall j :: 0 <= j < |qs| ==> r[j] == qs[j].State()
  {
    if qs == [] then [] else [qs[0].State()] + States(qs[1..])
  }

  /** The progress each quest of `qs`, at progress `ps`, makes when told the event. */
  function Responses(qs: seq<Quest>, ps: seq<Progress>, e: Event): (r: seq<Progress>)
    requires |ps| == |qs|
    ensures |r| == |qs|
  {
    if qs == [] then [] else [Respond(qs[0].objectives, ps[0], e)] + Responses(qs[1..], ps[1..], e)
  }

  lemma {:induction false} ResponsesAt(qs: seq<Quest>, ps: seq<Progress>, e: Event, j: nat)
    requires |ps| == |qs| && j < |qs|
    ensures Responses(qs, ps, e)[j] == Respond(qs[j].objectives, ps[j], e)
    decreases j
  {
    if j > 0 {
      ResponsesAt(qs[1..], ps[1..], e, j - 1);
    }
  }

  /** The rewards the first `n` quests of `qs`, at progress `ps`, pay out for an event, in order. */
  function Rewards(qs: seq<Quest>, ps: seq<Progress>, e: Event, n: nat): seq<string>
    requires |ps| == |qs| && n <= |qs|
  {
    if n == 0 then [] else Rewards(qs, ps, e, n - 1) + Pay(qs[n - 1].reward, ps[n - 1], Respond(qs[n - 1].objectives, ps[n - 1], e))
  }

  /**
   * The active list as `check_*_objectives` leaves it after visiting the
   * first `n` quests of `s`: each visited quest whose new progress is done
   * was taken out with `list.remove`.
   */
  function Pending(s: seq<Quest>, after: seq<Progress>, n: nat): seq<Quest>
    requires |after| == |s| && n <= |s|
  {
    if n == 0 then s
    else
      var p := Pending(s, after, n - 1);
      if after[n - 1].done && s[n - 1] in p then RemoveFirst(p, s[n - 1]) else p
  }

  /** The quests of `qs` whose progress in `ps` is not done, in order. */
  function Kept(qs: seq<Quest>, ps: seq<Progress>): seq<Quest>
    requires |ps| == |qs|
  {
    if qs == [] then [] else Kept(qs[..|qs| - 1], ps[..|qs| - 1]) + (if ps[|qs| - 1].done then [] else [qs[|qs| - 1]])
  }

  lemma {:induction false} KeptFrom(qs: seq<Quest>, ps: seq<Progress>, x: Quest)
    requires |ps| == |qs| && x !in qs
    ensures x !in Kept(qs, ps)
    decreases |qs|
  {
    if qs != [] {
      assert x !in qs[..|qs| - 1];
      KeptFrom(qs[..|qs| - 1], ps[..|qs| - 1], x);
    }
  }

  lemma KeptSnoc(qs: seq<Quest>, ps: seq<Progress>, x: Quest, p: Progress)
    requires |ps| == |qs|
    ensures Kept(qs + [x], ps + [p]) == Kept(qs, ps) + (if p.done then [] else [x])
  {
    assert (qs + [x])[..|qs|] == qs;
    assert (ps + [p])[..|qs|] == ps;
  }

  /** Once the quests are read, `Unfinished` is `Kept` on their progress. */
  lemma {:induction false} UnfinishedIsKept(qs: seq<Quest>, ps: seq<Progress>)
    requires |ps| == |qs|
    requires forall j :: 0 <= j < |qs| ==> ps[j].done == qs[j].isCompleted
    ensures Unfinished(qs) == Kept(qs, ps)
    decreases |qs|
  {
    if qs != [] {
      UnfinishedIsKept(qs[..|qs| - 1], ps[..|qs| - 1]);
    }
  }

  /**
   * With no quest listed twice, the removals keep the visited quests that
   * are not done, followed by the quests not yet visited.
   */
  lemma {:induction false} PendingIsKept(s: seq<Quest>, after: seq<Progress>, n: nat)
    requires Distinct(s) && |after| == |s| && n <= |s|
    ensures Pending(s, after, n) == Kept(s[..n], after[..n]) + s[n..]
    decreases n
  {
    if n > 0 {
      PendingIsKept(s, after, n - 1);
      PendingStep(s, after, n - 1);
    }
  }

  /** One visit of `PendingIsKept`: quest `m` is removed exactly when done. */
  lemma PendingStep(s: seq<Quest>, after: seq<Progress>, m: nat)
    requires Distinct(s) && |after| == |s| && m < |s|
    requires Pending(s, after, m) == Kept(s[..m], after[..m]) + s[m..]
    ensures Pending(s, after, m + 1) == Kept(s[..m + 1], after[..m + 1]) + s[m + 1..]
  {
    DistinctAt(s, m);
    PendingStepFresh(s, after, m);
  }

  /** `PendingStep` needs of the list's distinctness only that quest `m` is not listed before it. */
  lemma PendingStepFresh(s: seq<Quest>, after: seq<Progress>, m: nat)
    requires |after| == |s| && m < |s| && s[m] !in s[..m]
    requires Pending(s, after, m) == Kept(s[..m], after[..m]) + s[m..]
    ensures Pending(s, after, m + 1) == Kept(s[..m + 1], after[..m + 1]) + s[m + 1..]
  {
    assert s[m..] == [s[m]] + s[m + 1..];
    KeptNext(s, after, m);
    KeptFrom(s[..m], after[..m], s[m]);
    PendingNext(s, after, m, Kept(s[..m], after[..m]), s[m + 1..]);
  }

  /** The visit of quest `m` on an active list where it sits between `done` and `rest`. */
  lemma PendingNext(s: seq<Quest>, after: seq<Progress>, m: nat, done: seq<Quest>, rest: seq<Quest>)
    requires |after| == |s| && m < |s| && s[m] !in done
    requires Pending(s, after, m) == done + [s[m]] + rest
    ensures Pending(s, after, m + 1) == done + (if after[m].done then [] else [s[m]]) + rest
  {
    if after[m].done {
      RemoveFirstAfter(done, s[m], rest);
    }
  }

  /** Visiting quest `m` keeps it exactly when its progress is not done. */
  lemma KeptNext(s: seq<Quest>, after: seq<Progress>, m: nat)
    requires |after| == |s| && m < |s|
    ensures Kept(s[..m + 1], after[..m + 1]) == Kept(s[..m], after[..m]) + (if after[m].done then [] else [s[m]])
  {
    assert s[..m + 1] == s[..m] + [s[m]];
    assert after[..m + 1] == after[..m] + [after[m]];
    KeptSnoc(s[..m], after[..m], s[m], after[m]);
  }

  /** The next quest to visit is still listed. */
  lemma PendingHas(s: seq<Quest>, after: seq<Progress>, n: nat)
    requires Distinct(s) && |after| == |s| && n < |s|
    ensures s[n] in Pending(s, after, n)
  {
    PendingIsKept(s, after, n);
    assert s[n..][0] == s[n];
  }

  /** Once every quest is visited, the active list keeps exactly those not done. */
  lemma PendingAll(s: seq<Quest>, after: seq<Progress>)
    requires Distinct(s) && |after| == |s|
    ensures Pending(s, after, |s|) == Kept(s, after)
  {
    PendingIsKept(s, after, |s|);
    assert s[..|s|] == s && after[..|s|] == after;
  }

  /** The progress each quest of `qs` makes, one by one. */
  lemma ResponsesAll(qs: seq<Quest>, ps: seq<Progress>, e: Event)
    requires |ps| == |qs|
    ensures forall j :: 0 <= j < |qs| ==> Responses(qs, ps, e)[j] == Respond(qs[j].objectives, ps[j], e)
  {
    forall j | 0 <= j < |qs| ensures Responses(qs, ps, e)[j] == Respond(qs[j].objectives, ps[j], e) {
      ResponsesAt(qs, ps, e, j);
    }
  }

  /** The index of the first quest titled `title` that is not active; `|qs|` when there is none. */
  function InactiveIndex(qs: seq<Quest>, title: string): (k: nat)
    reads qs
    ensures k <= |qs|
    ensures forall j :: 0 <= j < k ==> !(qs[j].title == title && !qs[j].isActive)
    ensures k < |qs| ==> qs[k].title == title && !qs[k].isActive
  {
    if qs == [] then 0
    else if qs[0].title == title && !qs[0].isActive then 0
    else 1 + InactiveIndex(qs[1..], title)
  }

  /** The index of the first quest for which `text` is an open objective; `|qs|` when there is none. */
  function HolderIndex(qs: seq<Quest>, text: string): (k: nat)
    reads qs
    ensures k <= |qs|
    ensures forall j :: 0 <= j < k ==> !Open(qs[j].objectives, qs[j].completedObjectives, text)
    ensures k < |qs| ==> Open(qs[k].objectives, qs[k].completedObjectives, text)
  {
    if qs == [] then 0
    else if Open(qs[0].objectives, qs[0].completedObjectives, text) then 0
    else 1 + HolderIndex(qs[1..], text)
  }

  /** The index of the first quest titled `title`; `|qs|` when there is none. */
  function TitleIndex(qs: seq<Quest>, title: string): (k: nat)
    ensures k <= |qs|
    ensures forall j :: 0 <= j < k ==> qs[j].title != title
    ensures k < |qs| ==> qs[k].title == title
  {
    if qs == [] then 0
    else if qs[0].title == title then 0
    else 1 + TitleIndex(qs[1..], title)
  }

  class QuestManager {
    var quests: seq<Quest>
    var activeQuests: seq<Quest>
    /** The player rewards go to, if any. */
    var player: Player?

    /**
     * The manager's invariant: every active quest is one of its quests,
     * active and not completed, and listed once; every quest keeps its own
     * invariant and is completed only if it was activated.
     */
    predicate Valid()
      reads this, quests, activeQuests
    {
      && Distinct(activeQuests)
      && (forall q :: q in activeQuests ==> q in quests && q.isActive && !q.isCompleted)
      && (forall q :: q in quests ==> q.Valid() && (q.isCompleted ==> q.isActive))
    }

    constructor (player: Player?)
      ensures quests == [] && activeQuests == [] && this.player == player
      ensures Valid()
    {
      quests := [];
      activeQuests := [];
      this.player := player;
    }

    /**
     * `add_quest`: the quest is appended. The invariant survives when the
     * new quest keeps its own and is not completed without being active.
     */
    method AddQuest(quest: Quest)
      requires Valid()
      modifies this`quests
      ensures quests == old(quests) + [quest]
      ensures Valid() <==> quest.Valid() && (quest.isCompleted ==> quest.isActive)
    {
      quests := quests + [quest];
    }

    /**
     * `activate_quest`: the first quest with that title that is not active
     * yet is activated and appended to the active quests; with none, nothing
     * changes.
     */
    method ActivateQuest(questTitle: string) returns (ok: bool)
      requires Valid()
      modifies this`activeQuests, quests
      ensures Valid()
      ensures var k := old(InactiveIndex(quests, questTitle));
        && ok == (k < |quests|)
        && (ok ==> activeQuests == old(activeQuests) + [quests[k]])
        && (!ok ==> activeQuests == old(activeQuests))
        && (forall q :: q in quests ==>
              && q.State() == old(q.State())
              && (q.isActive <==> old(q.isActive) || (ok && q == quests[k])))
    {
      var i := 0;
      while i < |quests|
        invariant 0 <= i <= |quests|
        invariant forall j :: 0 <= j < i ==> !(quests[j].title == questTitle && !quests[j].isActive)
        invariant activeQuests == old(activeQuests)
        invariant forall q :: q in quests ==> q.State() == old(q.State()) && q.isActive == old(q.isActive)
      {
        var quest := quests[i];
        if quest.title == questTitle && !quest.isActive {
          quest.Activate();
          activeQuests := activeQuests + [quest];
          return true;
        }
        i := i + 1;
      }
      return false;
    }

    /**
     * `complete_objective`: the first active quest for which the text is an
     * open objective ticks it (no reward is handed out: no player is passed),
     * and leaves the active list if that completed it; no other quest
     * changes.
     */
    method CompleteObjective(objectiveText: string) returns (ok: bool)
      requires Valid()
      modifies this`activeQuests, Objects(activeQuests)`completedObjectives, Objects(activeQuests)`isCompleted
      ensures Valid()
      ensures var qs := old(activeQuests); var k := old(HolderIndex(activeQuests, objectiveText));
        && ok == (k < |qs|)
        && (forall j :: 0 <= j < |qs| && j != k ==> qs[j].State() == old(qs[j].State()))
        && (ok ==>
              && qs[k].State() == Advance(qs[k].objectives, old(qs[k].State()), objectiveText)
              && activeQuests == if qs[k].isCompleted then RemoveFirst(qs, qs[k]) else qs)
        && (!ok ==> activeQuests == qs)
    {
      ok := TickFirst(objectiveText);
      ghost var qs := old(activeQuests);
      ghost var k := old(HolderIndex(activeQuests, objectiveText));
      forall q | q in quests
        ensures q.Valid() && (q.isCompleted ==> q.isActive)
      {
        if ok && q == qs[k] {
          AdvanceKeepsConsistent(q.objectives, old(q.State()), objectiveText);
        } else if q in qs {
          var j :| 0 <= j < |qs| && qs[j] == q;
          assert q.State() == old(q.State());
        }
      }
      if ok && qs[k].isCompleted {
        RemoveFirstMembers(qs, qs[k]);
      }
    }

    /** The loop of `complete_objective`, which stops at the first quest that accepts the objective. */
    method TickFirst(objectiveText: string) returns (ok: bool)
      requires Distinct(activeQuests)
      modifies this`activeQuests, Objects(activeQuests)`completedObjectives, Objects(activeQuests)`isCompleted
      ensures var qs := old(activeQuests); var k := old(HolderIndex(activeQuests, objectiveText));
        && ok == (k < |qs|)
        && (forall j :: 0 <= j < |qs| && j != k ==> qs[j].State() == old(qs[j].State()))
        && (ok ==>
              && qs[k].State() == Advance(qs[k].objectives, old(qs[k].State()), objectiveText)
              && activeQuests == if qs[k].isCompleted then RemoveFirst(qs, qs[k]) else qs)
        && (!ok ==> activeQuests == qs)
    {
      ghost var k := HolderIndex(activeQuests, objectiveText);
      var i := 0;
      while i < |activeQuests|
        invariant 0 <= i <= k <= |activeQuests|
        invariant activeQuests == old(activeQuests)
        invariant forall j :: 0 <= j < |activeQuests| ==> activeQuests[j].State() == old(activeQuests[j].State())
      {
        var quest := activeQuests[i];
        ok := quest.CompleteObjective(objectiveText, null);
        if ok {
          assert i == k;
          if quest.isCompleted {
            activeQuests := RemoveFirst(activeQuests, quest);
          }
          return;
        }
        i := i + 1;
      }
      return false;
    }

    /**
     * The loop shared by the three `check_*_objectives` methods: each quest
     * active at the start is told the event, in order, with the manager's
     * player, and dropped from the active list if that completed it.
     */
    method Broadcast(e: Event)
      requires Distinct(activeQuests)
      modifies this`activeQuests, Objects(activeQuests)`completedObjectives, Objects(activeQuests)`isCompleted, Payee(player)`rewards
      ensures forall q :: q in old(activeQuests) ==> q.State() == Respond(q.objectives, old(q.State()), e)
      ensures activeQuests == Unfinished(old(activeQuests))
      ensures player != null ==> player.rewards == old(player.rewards) + Rewards(old(activeQuests), old(States(activeQuests)), e, |old(activeQuests)|)
    {
      var snapshot := activeQuests;
      ghost var before := States(snapshot);
      ghost var after := Responses(snapshot, before, e);
      ghost var paid := if player != null then player.rewards else [];
      NotifyAll(e, snapshot, before, after, paid);
      PendingAll(snapshot, after);
      UnfinishedIsKept(snapshot, after);
      ResponsesAll(snapshot, before, e);
    }

    /**
     * What the loop of `Broadcast` has done to the quests once the first `i`
     * quests of `snapshot` were told the event: those hold their progress in
     * `after`, the others still hold their progress in `before`, and the
     * rewards earned so far were paid in order.
     */
    ghost predicate Informed(e: Event, snapshot: seq<Quest>, before: seq<Progress>, after: seq<Progress>, paid: seq<string>, i: int)
      reads this`player, Objects(snapshot)`completedObjectives, Objects(snapshot)`isCompleted, Payee(player)`rewards
    {
      && 0 <= i <= |snapshot| && |before| == |snapshot| == |after|
      && Reached(snapshot, after, 0, i)
      && Reached(snapshot, before, i, |snapshot|)
      && (player != null ==> player.rewards == paid + Rewards(snapshot, before, e, i))
    }

    /** Where the loop of `Broadcast` stands: `Informed`, and the quests done so far have left the active list. */
    ghost predicate Told(e: Event, snapshot: seq<Quest>, before: seq<Progress>, after: seq<Progress>, paid: seq<string>, i: int)
      reads this, Objects(snapshot)`completedObjectives, Objects(snapshot)`isCompleted, Payee(player)`rewards
    {
      && Informed(e, snapshot, before, after, paid, i)
      && activeQuests == Pending(snapshot, after, i)
    }

    /** The loop of `Broadcast`, over the quests active when it starts. */
    method NotifyAll(e: Event, snapshot: seq<Quest>, ghost before: seq<Progress>, ghost after: seq<Progress>, ghost paid: seq<string>)
      requires activeQuests == snapshot && Distinct(snapshot)
      requires |before| == |snapshot| && after == Responses(snapshot, before, e)
      requires forall j :: 0 <= j < |snapshot| ==> snapshot[j].completedObjectives == before[j].completed && snapshot[j].isCompleted == before[j].done
      requires player != null ==> player.rewards == paid
      modifies this`activeQuests, Objects(snapshot)`completedObjectives, Objects(snapshot)`isCompleted, Payee(player)`rewards
      ensures activeQuests == Pending(snapshot, after, |snapshot|)
      ensures forall j :: 0 <= j < |snapshot| ==> snapshot[j].completedObjectives == after[j].completed && snapshot[j].isCompleted == after[j].done
      ensures player != null ==> player.rewards == paid + Rewards(snapshot, before, e, |snapshot|)
    {
      var i := 0;
      while i < |snapshot|
        invariant 0 <= i <= |snapshot|
        invariant Told(e, snapshot, before, after, paid, i)
      {
        NotifyAt(snapshot[i], e, snapshot, before, after, i, paid);
        i := i + 1;
      }
    }

    /**
     * One turn of the loop of `Broadcast`: the `i`-th quest of `snapshot`
     * is told the event and reaches the progress `after` lists for it, and
     * leaves the active list if that completed it; the quests after it keep
     * their progress, and its reward, if due, is paid in turn.
     */
    method NotifyAt(quest: Quest, e: Event, ghost snapshot: seq<Quest>, ghost before: seq<Progress>, ghost after: seq<Progress>, ghost i: nat, ghost paid: seq<string>)
      requires Distinct(snapshot) && i < |snapshot| && quest == snapshot[i]
      requires |before| == |snapshot| && after == Responses(snapshot, before, e)
      requires Told(e, snapshot, before, after, paid, i)
      modifies this`activeQuests, quest`completedObjectives, quest`isCompleted, Payee(player)`rewards
      ensures Told(e, snapshot, before, after, paid, i + 1)
    {
      ResponsesAt(snapshot, before, e, i);
      NotifyOne(quest, e, snapshot, before, after, i, paid);
      DropIfDone(quest, snapshot, after, i);
    }

    /** `NotifyAt` before the active list is updated. */
    method NotifyOne(quest: Quest, e: Event, ghost snapshot: seq<Quest>, ghost before: seq<Progress>, ghost after: seq<Progress>, ghost i: nat, ghost paid: seq<string>)
      requires Distinct(snapshot) && i < |snapshot| && quest == snapshot[i]
      requires |before| == |snapshot| == |after| && after[i] == Respond(quest.objectives, before[i], e)
      requires Informed(e, snapshot, before, after, paid, i)
      modifies quest`completedObjectives, quest`isCompleted, Payee(player)`rewards
      ensures Informed(e, snapshot, before, after, paid, i + 1)
    {
      assert quest.State() == before[i];
      Notify(quest, e);
      assert quest.State() == after[i];
      assert Rewards(snapshot, before, e, i + 1) == Rewards(snapshot, before, e, i) + Pay(quest.reward, before[i], after[i]);
      forall j | 0 <= j < |snapshot| && j != i
        ensures snapshot[j].State() == old(snapshot[j].State())
      {
        assert snapshot[j] != quest by {
          if j < i { assert snapshot[j] != snapshot[i]; } else { assert snapshot[i] != snapshot[j]; }
        }
      }
    }

    /** The removal of `NotifyAt`: the `i`-th quest leaves the active list when it is done. */
    method DropIfDone(quest: Quest, ghost snapshot: seq<Quest>, ghost after: seq<Progress>, ghost i: nat)
      requires Distinct(snapshot) && |after| == |snapshot| && i < |snapshot| && quest == snapshot[i]
      requires activeQuests == Pending(snapshot, after, i) && quest.isCompleted == after[i].done
      modifies this`activeQuests
      ensures activeQuests == Pending(snapshot, after, i + 1)
    {
      PendingHas(snapshot, after, i);
      if quest.isCompleted {
        activeQuests := RemoveFirst(activeQuests, quest);
      }
    }

    /**
     * `Broadcast` under the manager's invariant, which it keeps: quests that
     * complete leave the active list, and an event keeps each quest's own
     * invariant.
     */
    method CheckActive(e: Event)
      requires Valid()
      modifies this`activeQuests, Objects(activeQuests)`completedObjectives, Objects(activeQuests)`isCompleted, Payee(player)`rewards
      ensures Valid()
      ensures forall q :: q in old(activeQuests) ==> q.State() == Respond(q.objectives, old(q.State()), e)
      ensures activeQuests == Unfinished(old(activeQuests))
      ensures player != null ==> player.rewards == old(player.rewards) + Rewards(old(activeQuests), old(States(activeQuests)), e, |old(activeQuests)|)
    {
      Broadcast(e);
      UnfinishedFacts(old(activeQuests));
      forall q | q in quests
        ensures q.Valid() && (q.isCompleted ==> q.isActive)
      {
        if q in old(activeQuests) {
          RespondTicksAtMostOne(q.objectives, old(q.State()), e);
        }
      }
    }

    /** Tells one quest the event, through the `check_*` method for its kind. */
    method Notify(quest: Quest, e: Event)
      modifies quest`completedObjectives, quest`isCompleted, Payee(player)`rewards
      ensures quest.State() == Respond(quest.objectives, old(quest.State()), e)
      ensures player != null ==> player.rewards == old(player.rewards) + Pay(quest.reward, old(quest.State()), quest.State())
    {
      match e {
        case RoomVisit(room) =>
          var _ := quest.CheckRoomObjective(room, player);
        case Performed(action, target) =>
          var _ := quest.CheckActionObjective(action, target, player);
        case Counted(name, count) =>
          var _ := quest.CheckCounterObjective(name, count, player);
      }
    }

    /** `check_room_objectives`. */
    method CheckRoomObjectives(roomName: string)
      requires Valid()
      modifies this`activeQuests, Objects(activeQuests)`completedObjectives, Objects(activeQuests)`isCompleted, Payee(player)`rewards
      ensures Valid()
      ensures forall q :: q in old(activeQuests) ==> q.State() == Respond(q.objectives, old(q.State()), RoomVisit(roomName))
      ensures activeQuests == Unfinished(old(activeQuests))
      ensures player != null ==> player.rewards == old(player.rewards) + Rewards(old(activeQuests), old(States(activeQuests)), RoomVisit(roomName), |old(activeQuests)|)
    {
      CheckActive(RoomVisit(roomName));
    }

    /** `check_action_objectives`. */
    method CheckActionObjectives(action: string, target: Option<string>)
      requires Valid()
      modifies this`activeQuests, Objects(activeQuests)`completedObjectives, Objects(activeQuests)`isCompleted, Payee(player)`rewards
      ensures Valid()
      ensures forall q :: q in old(activeQuests) ==> q.State() == Respond(q.objectives, old(q.State()), Performed(action, target))
      ensures activeQuests == Unfinished(old(activeQuests))
      ensures player != null ==> player.rewards == old(player.rewards) + Rewards(old(activeQuests), old(States(activeQuests)), Performed(action, target), |old(activeQuests)|)
    {
      CheckActive(Performed(action, target));
    }

    /** `check_counter_objectives`. */
    method CheckCounterObjectives(counterName: string, currentCount: int)
      requires Valid()
      modifies this`activeQuests, Objects(activeQuests)`completedObjectives, Objects(activeQuests)`isCompleted, Payee(player)`rewards
      ensures Valid()
      ensures forall q :: q in old(activeQuests) ==> q.State() == Respond(q.objectives, old(q.State()), Counted(counterName, currentCount))
      ensures activeQuests == Unfinished(old(activeQuests))
      ensures player != null ==> player.rewards == old(player.rewards) + Rewards(old(activeQuests), old(States(activeQuests)), Counted(counterName, currentCount), |old(activeQuests)|)
    {
      CheckActive(Counted(counterName, currentCount));
    }

    /** `get_quest_by_title`: the first quest with that title, if any. */
    function GetQuestByTitle(title: string): (r: Option<Quest>)
      reads this
      ensures r.Some? ==> r.value in quests && r.value.title == title
      ensures r.None? <==> forall i :: 0 <= i < |quests| ==> quests[i].title != title
    {
      var k := TitleIndex(quests, title);
      if k < |quests| then Some(quests[k]) else None
    }
  }
}
