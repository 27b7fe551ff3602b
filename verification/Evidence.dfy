/** The checker of a campaign run's evidence: a list of checkpoints, in order, that hang together. */
module Evidence {
  import opened Options
  import SseEvents

  datatype Checkpoint =
    | TauriPresent | BackendReady | CharacterCreated | AssistantReplyCompleted
    | BundledIllustration | BundledMap | VttVisible
    | CombatStarted | MoveRequested | CombatRevisionAdvanced | CombatActed | CombatTurnAdvanced | CombatEnded
    | NpcObserved | JournalObserved | SaveCreated | SaveRestored

  const REQUIRED: seq<Checkpoint> := [
    TauriPresent, BackendReady, CharacterCreated, AssistantReplyCompleted, BundledIllustration, BundledMap, VttVisible,
    CombatStarted, MoveRequested, CombatRevisionAdvanced, CombatActed, CombatTurnAdvanced, CombatEnded,
    NpcObserved, JournalObserved, SaveCreated, SaveRestored]

  datatype Number = Whole(value: int) | NotWhole

  /** number is the port or the revision, id the identifier, of the checkpoints that have one. */
  datatype Item = Item(checkpoint: Checkpoint, number: Number, id: string, bundled: bool)

  datatype Verdict =
    | Accepted
    | OutOfOrder(expected: Checkpoint, received: Checkpoint, completed: seq<Checkpoint>)
    | InvalidEvidence(checkpoint: Checkpoint, completed: seq<Checkpoint>)
    | MissingEvidence(expected: Checkpoint, completed: seq<Checkpoint>)

  predicate SafeId(id: string) {
    !SseEvents.IsBlank(id) && |id| <= 160
  }

  // ---------------------------------------------------------------- the specification

  predicate Later(a: Number, b: Number) {
    a.Whole? && b.Whole? && a.value < b.value
  }

  /** What the item at a position must say, given those before it. */
  predicate Valid(items: seq<Item>, i: nat)
    requires i < |items| && i < |REQUIRED|
  {
    var item := items[i];
    match REQUIRED[i]
    case TauriPresent => true
    case BackendReady => item.number.Whole? && 0 < item.number.value <= 65535
    case CharacterCreated => SafeId(item.id)
    case AssistantReplyCompleted => true
    case BundledIllustration => item.bundled && SafeId(item.id)
    case BundledMap => item.bundled && SafeId(item.id) && item.id != items[4].id
    case VttVisible => true
    case CombatStarted => item.number.Whole? && item.number.value >= 0
    case MoveRequested => item.number.Whole? && item.number == items[7].number
    case CombatRevisionAdvanced => Later(items[8].number, item.number)
    case CombatActed => Later(items[9].number, item.number)
    case CombatTurnAdvanced => Later(items[10].number, item.number)
    case CombatEnded => Later(items[11].number, item.number)
    case NpcObserved => SafeId(item.id)
    case JournalObserved => SafeId(item.id)
    case SaveCreated => SafeId(item.id)
    case SaveRestored => SafeId(item.id) && item.id == items[15].id
  }

  predicate Good(items: seq<Item>, i: nat)
    requires i < |items|
  {
    i < |REQUIRED| && items[i].checkpoint == REQUIRED[i] && Valid(items, i)
  }

  predicate GoodTo(items: seq<Item>, n: nat)
    requires n <= |items|
  {
    forall i :: 0 <= i < n ==> Good(items, i)
  }

  /** The first position from i that is not good. */
  function FirstBad(items: seq<Item>, i: nat): (b: nat)
    requires i <= |items|
    ensures i <= b <= |items| && (b < |items| ==> !Good(items, b))
    ensures forall k :: i <= k < b ==> Good(items, k)
    decreases |items| - i
  {
    if i < |items| && Good(items, i) then FirstBad(items, i + 1) else i
  }

  /** The verdict, from the first item that is not good. */
  function Judgement(items: seq<Item>): Verdict {
    var b := FirstBad(items, 0);
    if b < |items| then
      if b >= |REQUIRED| then OutOfOrder(SaveRestored, items[b].checkpoint, REQUIRED)
      else if items[b].checkpoint != REQUIRED[b] then OutOfOrder(REQUIRED[b], items[b].checkpoint, REQUIRED[..b])
      else InvalidEvidence(REQUIRED[b], REQUIRED[..b])
    else
      GoodIsShort(items, b);
      if b < |REQUIRED| then MissingEvidence(REQUIRED[b], REQUIRED[..b]) else Accepted
  }

  lemma GoodIs(items: seq<Item>, i: nat)
    requires i < |items|
    ensures Good(items, i) <==> i < |REQUIRED| && items[i].checkpoint == REQUIRED[i] && Valid(items, i)
  {
  }

  lemma GoodIsShort(items: seq<Item>, n: nat)
    requires n <= |items| && GoodTo(items, n)
    ensures n <= |REQUIRED|
  {
    hide Valid;
    assert n > 0 ==> Good(items, n - 1);
  }

  lemma {:induction false} BadAt(items: seq<Item>, i: nat, b: nat)
    requires i <= b <= |items| && (b < |items| ==> !Good(items, b))
    requires forall k :: i <= k < b ==> Good(items, k)
    ensures FirstBad(items, i) == b
    decreases b - i
  {
    if i < b {
      BadAt(items, i + 1, b);
    }
  }

  // ---------------------------------------------------------------- the checker

  /** What the checker remembers of the items so far. */
  datatype Memory = Memory(
    move: Option<int>,
    latest: Option<int>,
    illustration: Option<string>,
    created: Option<string>)

  /** The position of the revision that counts as the latest before position i. */
  function LatestBefore(i: nat): nat {
    if i <= 8 then 7 else if i <= 9 then 7 else if i <= 13 then i - 1 else 12
  }

  /** The memory before position i, told by the items themselves. */
  ghost predicate Remembers(memory: Memory, items: seq<Item>, i: nat)
    requires i <= |items|
  {
    && (memory.move.Some? ==> memory.move.value >= 0) && (memory.latest.Some? ==> memory.latest.value >= 0)
    && (memory.illustration == if i > 4 then Some(items[4].id) else None)
    && (memory.created == if i > 15 then Some(items[15].id) else None)
    && (if i > 8 then items[8].number.Whole? && memory.move == Some(items[8].number.value) else memory.move.None?)
    && (if i > 7 then
          && items[LatestBefore(i)].number.Whole?
          && memory.latest == Some(items[LatestBefore(i)].number.value)
        else memory.latest.None?)
  }

  /** The revision checks of one combat item. */
  method CheckRevision(memory: Memory, item: Item) returns (valid: bool, memory': Memory)
    ensures valid <==>
            if item.checkpoint.MoveRequested? then item.number.Whole? && Some(item.number.value) == memory.latest
            else if item.checkpoint.CombatRevisionAdvanced? then
              item.number.Whole? && memory.move.Some? && item.number.value > memory.move.value
            else
              item.number.Whole? && item.number.value >= 0 &&
              (memory.latest.Some? ==> item.number.value > memory.latest.value)
    ensures valid ==>
              memory' == if item.checkpoint.MoveRequested? then memory.(move := Some(item.number.value))
                         else memory.(latest := Some(item.number.value))
  {
    if item.checkpoint.MoveRequested? {
      if item.number.NotWhole? || Some(item.number.value) != memory.latest {
        return false, memory;
      }
      return true, memory.(move := Some(item.number.value));
    }
    if item.checkpoint.CombatRevisionAdvanced? {
      if item.number.NotWhole? || memory.move.None? || item.number.value <= memory.move.value {
        return false, memory;
      }
      return true, memory.(latest := Some(item.number.value));
    }
    if item.number.NotWhole? || item.number.value < 0 {
      return false, memory;
    }
    if memory.latest.Some? && item.number.value <= memory.latest.value {
      return false, memory;
    }
    return true, memory.(latest := Some(item.number.value));
  }

  /** The checks of one item whose checkpoint is the expected one. */
  method Check(memory: Memory, item: Item, ghost items: seq<Item>, ghost i: nat)
      returns (valid: bool, memory': Memory)
    requires i < |items| && i < |REQUIRED| && item == items[i] && item.checkpoint == REQUIRED[i]
    requires Remembers(memory, items, i)
    ensures valid == Valid(items, i)
    ensures valid ==> Remembers(memory', items, i + 1)
  {
    hide SafeId;
    memory' := memory;
    match item.checkpoint
    case BackendReady =>
      valid := item.number.Whole? && 0 < item.number.value <= 65535;
    case BundledIllustration =>
      valid, memory' := item.bundled && SafeId(item.id), memory.(illustration := Some(item.id));
    case BundledMap =>
      valid := item.bundled && SafeId(item.id) && Some(item.id) != memory.illustration;
    case CombatStarted | MoveRequested | CombatRevisionAdvanced | CombatActed | CombatTurnAdvanced | CombatEnded =>
      valid, memory' := CheckRevision(memory, item);
    case CharacterCreated | NpcObserved | JournalObserved =>
      valid := SafeId(item.id);
    case SaveCreated =>
      valid, memory' := SafeId(item.id), memory.(created := Some(item.id));
    case SaveRestored =>
      valid := SafeId(item.id) && Some(item.id) == memory.created;
    case TauriPresent | AssistantReplyCompleted | VttVisible =>
      valid := true;
  }

  method Evaluate(items: seq<Item>) returns (verdict: Verdict)
    ensures verdict == Judgement(items)
  {
    var completed: seq<Checkpoint> := [];
    var memory := Memory(None, None, None, None);
    assert Remembers(memory, items, 0);
    hide Valid, Remembers, SafeId, Good;
    for i := 0 to |items|
      invariant GoodTo(items, i) && |completed| == i <= |REQUIRED| && completed == REQUIRED[..i]
      invariant Remembers(memory, items, i)
    {
      var item := items[i];
      GoodIs(items, i);
      if i >= |REQUIRED| || item.checkpoint != REQUIRED[i] {
        BadAt(items, 0, i);
        var expected := if i < |REQUIRED| then REQUIRED[i] else SaveRestored;
        return OutOfOrder(expected, item.checkpoint, completed);
      }
      var valid, memory' := Check(memory, item, items, i);
      if !valid {
        BadAt(items, 0, i);
        return InvalidEvidence(item.checkpoint, completed);
      }
      memory := memory';
      completed := completed + [item.checkpoint];
    }
    BadAt(items, 0, |items|);
    if |completed| != |REQUIRED| {
      return MissingEvidence(REQUIRED[|completed|], completed);
    }
    return Accepted;
  }

  // ---------------------------------------------------------------- theorems

  /** Accepted are exactly the lists of all the required checkpoints, in order, each item valid. */
  lemma AcceptsIff(items: seq<Item>)
    ensures Judgement(items).Accepted? <==> |items| == |REQUIRED| && GoodTo(items, |items|)
  {
    if |items| == |REQUIRED| && GoodTo(items, |items|) {
      BadAt(items, 0, |items|);
    }
    GoodIsShort(items, FirstBad(items, 0));
  }

  predicate HangTogether(items: seq<Item>)
    requires |items| == |REQUIRED|
  {
    && SafeId(items[4].id) && SafeId(items[5].id) && items[4].id != items[5].id
    && SafeId(items[15].id) && items[15].id == items[16].id
    && items[7].number.Whole? && 0 <= items[7].number.value && items[7].number == items[8].number
    && Later(items[8].number, items[9].number) && Later(items[9].number, items[10].number)
    && Later(items[10].number, items[11].number) && Later(items[11].number, items[12].number)
  }

  lemma GoodAt(items: seq<Item>, i: nat)
    requires |items| == |REQUIRED| && i < |items| && Good(items, i)
    ensures i in {4, 5, 15} ==> SafeId(items[i].id)
    ensures i == 5 ==> items[4].id != items[5].id
    ensures i == 16 ==> items[15].id == items[16].id
    ensures i == 7 ==> items[7].number.Whole? && 0 <= items[7].number.value
    ensures i == 8 ==> items[7].number == items[8].number
    ensures i in {9, 10, 11, 12} ==> Later(items[i - 1].number, items[i].number)
  {
  }

  /** What an accepted list says: safe ids, two different assets, the save restored that was created, and
      revisions started == move < advanced < acted < turn < ended. */
  lemma AcceptedHangsTogether(items: seq<Item>)
    requires Judgement(items).Accepted?
    ensures |items| == |REQUIRED| && HangTogether(items)
  {
    AcceptsIff(items);
    hide Good;
    assert forall i :: 0 <= i < |items| ==> Good(items, i);
    GoodAt(items, 4);
    GoodAt(items, 5);
    GoodAt(items, 7);
    GoodAt(items, 8);
    GoodAt(items, 9);
    GoodAt(items, 10);
    GoodAt(items, 11);
    GoodAt(items, 12);
    GoodAt(items, 15);
    GoodAt(items, 16);
  }

  predicate IsSafe(id: string) {
    |id| <= 160 && exists i :: 0 <= i < |id| && !SseEvents.IsSpace(id[i])
  }

  predicate Increases(a: Number, b: Number) {
    a.Whole? && b.Whole? && a.value < b.value
  }

  /** What the item at a position must be and say, position by position. */
  predicate Says(items: seq<Item>, i: nat)
    requires i < |items| && i < 17
  {
    var Item(checkpoint, number, id, bundled) := items[i];
    if i == 0 then checkpoint == TauriPresent
    else if i == 1 then checkpoint == BackendReady && number.Whole? && 0 < number.value <= 65535
    else if i == 2 then checkpoint == CharacterCreated && IsSafe(id)
    else if i == 3 then checkpoint == AssistantReplyCompleted
    else if i == 4 then checkpoint == BundledIllustration && bundled && IsSafe(id)
    else if i == 5 then checkpoint == BundledMap && bundled && IsSafe(id) && id != items[4].id
    else if i == 6 then checkpoint == VttVisible
    else if i == 7 then checkpoint == CombatStarted && number.Whole? && 0 <= number.value
    else if i == 8 then checkpoint == MoveRequested && number.Whole? && number == items[7].number
    else if i == 9 then checkpoint == CombatRevisionAdvanced && Increases(items[8].number, number)
    else if i == 10 then checkpoint == CombatActed && Increases(items[9].number, number)
    else if i == 11 then checkpoint == CombatTurnAdvanced && Increases(items[10].number, number)
    else if i == 12 then checkpoint == CombatEnded && Increases(items[11].number, number)
    else if i == 13 then checkpoint == NpcObserved && IsSafe(id)
    else if i == 14 then checkpoint == JournalObserved && IsSafe(id)
    else if i == 15 then checkpoint == SaveCreated && IsSafe(id)
    else checkpoint == SaveRestored && IsSafe(id) && id == items[15].id
  }

  lemma SafeIs(id: string)
    ensures SafeId(id) <==> IsSafe(id)
  {
  }

  lemma GoodSaysEarly(items: seq<Item>, i: nat)
    requires i < |items| && i < 9 && (SafeId(items[i].id) <==> IsSafe(items[i].id))
    ensures Good(items, i) <==> Says(items, i)
  {
    hide SafeId, IsSafe;
  }

  lemma GoodSaysLate(items: seq<Item>, i: nat)
    requires i < |items| && 9 <= i < 17 && (SafeId(items[i].id) <==> IsSafe(items[i].id))
    ensures Good(items, i) <==> Says(items, i)
  {
    hide SafeId, IsSafe;
  }

  lemma GoodSays(items: seq<Item>, i: nat)
    requires i < |items|
    ensures Good(items, i) <==> i < 17 && Says(items, i)
  {
    SafeIs(items[i].id);
    hide SafeId, IsSafe, Says, Valid;
    if i < 9 {
      GoodSaysEarly(items, i);
    } else if i < 17 {
      GoodSaysLate(items, i);
    }
  }

  /** What the checker says of any list, told by how many of its items say what they must: all seventeen
      and no more are accepted, and otherwise the first position that is missing or wrong is reported,
      with the checkpoints before it. */
  lemma VerdictTells(items: seq<Item>, n: nat)
    requires n <= |items| && n <= 17 && forall i :: 0 <= i < n ==> Says(items, i)
    requires n < |items| && n < 17 ==> !Says(items, n)
    ensures Judgement(items) ==
            if n == |items| then (if n == 17 then Accepted else MissingEvidence(REQUIRED[n], REQUIRED[..n]))
            else if n == 17 then OutOfOrder(SaveRestored, items[17].checkpoint, REQUIRED)
            else if items[n].checkpoint != REQUIRED[n] then OutOfOrder(REQUIRED[n], items[n].checkpoint, REQUIRED[..n])
            else InvalidEvidence(REQUIRED[n], REQUIRED[..n])
  {
    hide Says, Good;
    forall i | 0 <= i < |items|
      ensures Good(items, i) <==> i < 17 && Says(items, i)
    {
      GoodSays(items, i);
    }
    BadAt(items, 0, n);
  }

  lemma GoodStays(items: seq<Item>, more: seq<Item>, i: nat)
    requires i < |items|
    ensures Good(items + more, i) == Good(items, i)
  {
    assert forall k :: 0 <= k <= i ==> (items + more)[k] == items[k];
  }

  /** A rejection by order or validity is unchanged by any extension. */
  lemma RejectionStays(items: seq<Item>, more: seq<Item>)
    requires Judgement(items).OutOfOrder? || Judgement(items).InvalidEvidence?
    ensures Judgement(items + more) == Judgement(items)
  {
    var b := FirstBad(items, 0);
    forall k | 0 <= k <= b
      ensures Good(items + more, k) == Good(items, k)
    {
      GoodStays(items, more, k);
    }
    BadAt(items + more, 0, b);
  }

  function CompletedOf(verdict: Verdict): seq<Checkpoint> {
    if verdict.Accepted? then REQUIRED else verdict.completed
  }

  /** What is reported as completed begins the required list, as long as every item was good so far. */
  lemma CompletedIsPrefix(items: seq<Item>)
    ensures FirstBad(items, 0) <= |REQUIRED|
    ensures CompletedOf(Judgement(items)) == REQUIRED[..FirstBad(items, 0)]
  {
    GoodIsShort(items, FirstBad(items, 0));
    assert REQUIRED[..|REQUIRED|] == REQUIRED;
  }

  /** An item that continues a good list. */
  function Next(items: seq<Item>): Item
    requires |items| < |REQUIRED|
  {
    var n := |items|;
    var number := if n == 8 then items[7].number
                  else if 8 < n <= 12 && items[n - 1].number.Whole? then Whole(items[n - 1].number.value + 1)
                  else Whole(1);
    var id := if n == 5 && items[4].id == "a" then "b" else if n == 16 then items[15].id else "a";
    Item(REQUIRED[n], number, id, true)
  }

  lemma SafeLetters()
    ensures SafeId("a") && SafeId("b")
  {
    assert !SseEvents.IsSpace("a"[0]) && !SseEvents.IsSpace("b"[0]);
  }

  /** What a continued list rests on: a revision before a later one, a safe id before the same one. */
  lemma PreviousIsGood(items: seq<Item>)
    requires 0 < |items| < |REQUIRED| && GoodTo(items, |items|)
    ensures 7 < |items| <= 13 ==> items[|items| - 1].number.Whole?
    ensures |items| == 16 ==> SafeId(items[15].id)
  {
    hide SafeId;
    assert Good(items, |items| - 1);
  }

  lemma NextIsValid(items: seq<Item>, n: nat)
    requires n < |REQUIRED| && |items| == n + 1
    requires items[n] == Next(items[..n])
    requires 7 < n <= 12 ==> items[n - 1].number.Whole?
    requires n == 16 ==> SafeId(items[15].id)
    ensures Good(items, n)
  {
    SafeLetters();
    hide SafeId;
    assert n > 4 ==> items[..n][4] == items[4];
    assert n > 7 ==> items[..n][7] == items[7] && items[..n][n - 1] == items[n - 1];
    assert n > 15 ==> items[..n][15] == items[15];
  }

  lemma NextIsGood(items: seq<Item>)
    requires |items| < |REQUIRED| && GoodTo(items, |items|)
    ensures Good(items + [Next(items)], |items|)
  {
    hide Good, Next, SafeId;
    if items != [] {
      PreviousIsGood(items);
    }
    var items' := items + [Next(items)];
    assert items'[..|items|] == items;
    NextIsValid(items', |items|);
  }

  lemma {:induction false} Completable(items: seq<Item>) returns (more: seq<Item>)
    requires |items| <= |REQUIRED| && GoodTo(items, |items|)
    ensures Judgement(items + more).Accepted?
    decreases |REQUIRED| - |items|
  {
    if |items| == |REQUIRED| {
      more := [];
      assert items + more == items;
      AcceptsIff(items);
    } else {
      hide Good, Next;
      var items' := items + [Next(items)];
      NextIsGood(items);
      forall i | 0 <= i < |items|
        ensures Good(items', i)
      {
        GoodStays(items, [Next(items)], i);
      }
      var rest := Completable(items');
      more := [Next(items)] + rest;
      Assoc(items, [Next(items)], rest);
    }
  }

  /** A list begins an accepted one exactly when it is not rejected by order or validity. */
  lemma BeginsAcceptedIff(items: seq<Item>)
    ensures (exists more :: Judgement(items + more).Accepted?) <==>
            Judgement(items).Accepted? || Judgement(items).MissingEvidence?
  {
    if Judgement(items).Accepted? || Judgement(items).MissingEvidence? {
      GoodIsShort(items, FirstBad(items, 0));
      var more := Completable(items);
    } else {
      forall more
        ensures Judgement(items + more) == Judgement(items)
      {
        RejectionStays(items, more);
      }
    }
  }
}
