/**
 * What the actions and undo do together: which undos restore the state, and
 * where the one-slot undo record makes undo do something else.
 */
module GameProperties {
  import opened Inventory
  import opened GameState

  /** grab then undo gives back the inventory as it was. */
  lemma GrabThenUndo(s: State, item: string)
    requires s.Valid() && item !in s.items
    ensures GrabStep(s, item).Ok?
    ensures UndoStep(GrabStep(s, item).value).items == s.items
  {
    assert GrabStep(s, item).value.items == s.items + [item];
    RemoveFirstOfAppended(s.items, item);
  }

  /**
   * A second grab of the same item fails, and the item is then held exactly
   * once; a grab never creates a duplicate.
   */
  lemma GrabTwice(s: State, item: string)
    requires item !in s.items
    ensures var t := GrabStep(s, item).value;
      && GrabStep(t, item) == Err(DuplicateItem)
      && multiset(t.items)[item] == 1
      && (NoDuplicates(s.items) ==> NoDuplicates(t.items))
  {
    var t := GrabStep(s, item).value;
    if NoDuplicates(s.items) {
      forall i, j | 0 <= i < j < |t.items| ensures t.items[i] != t.items[j] {
        if j == |s.items| {
          assert s.items[i] in s.items;
        }
      }
    }
  }

  /** drop removes the only copy of a held item. */
  lemma DropRemoves(s: State, item: string)
    requires NoDuplicates(s.items) && item in s.items
    ensures item !in DropStep(s, item).value.items
    ensures NoDuplicates(DropStep(s, item).value.items)
  {
    RemoveFirstKeepsNoDuplicates(s.items, item);
  }

  /**
   * drop then undo puts the item back at the end of the list, with the same
   * items as before; an inventory without duplicates keeps none.
   */
  lemma DropThenUndo(s: State, item: string)
    requires s.Valid() && item in s.items
    ensures var t := UndoStep(DropStep(s, item).value);
      && t.items == RemoveFirst(s.items, item) + [item]
      && multiset(t.items) == multiset(s.items)
      && (NoDuplicates(s.items) ==> NoDuplicates(t.items))
  {
    var r := RemoveFirst(s.items, item);
    if NoDuplicates(s.items) {
      RemoveFirstKeepsNoDuplicates(s.items, item);
      forall i, j | 0 <= i < j < |r| + 1 ensures (r + [item])[i] != (r + [item])[j] {
        if j == |r| {
          assert r[i] in r;
        }
      }
    }
  }

  /**
   * undo does not clear the undo record, so undoing a drop twice adds the
   * item twice and the inventory ends up with a duplicate.
   */
  lemma DoubleUndoAfterDrop(s: State, item: string)
    requires s.Valid() && NoDuplicates(s.items) && item in s.items
    ensures var t := UndoStep(UndoStep(DropStep(s, item).value));
      && multiset(t.items)[item] == 2
      && !NoDuplicates(t.items)
  {
    NoDuplicatesCountsOne(s.items, item);
    var d := DropStep(s, item).value;
    var t := UndoStep(UndoStep(d));
    assert t.items == d.items + [item] + [item];
    assert t.items[|t.items| - 2] == t.items[|t.items| - 1];
  }

  /**
   * use then undo re-adds whatever lastItem held before the use, not the used
   * item. In an inventory without duplicates the used item comes back exactly
   * when it was also the last item grabbed or dropped.
   */
  lemma UseThenUndo(s: State, item: string)
    requires s.Valid() && item in s.items
    ensures var t := UndoStep(UseStep(s, item).value);
      && t.items == RemoveFirst(s.items, item) + [s.lastItem]
      && (NoDuplicates(s.items) ==> (item in t.items <==> item == s.lastItem))
  {
    if NoDuplicates(s.items) {
      RemoveFirstKeepsNoDuplicates(s.items, item);
    }
  }

  /** From a new game: grab a, grab b, use a, undo leaves b twice and a gone. */
  lemma UseUndoReaddsOtherItem()
    ensures var s1 := GrabStep(Initial, "a").value;
      var s2 := GrabStep(s1, "b").value;
      var s3 := UseStep(s2, "a").value;
      s3.lastItem == "b" && UndoStep(s3).items == ["b", "b"]
  {
  }

  /** Undo after a successful walk or fly returns to where the character was. */
  lemma MoveThenUndo(s: State, direction: string, x: int, y: int)
    requires s.Valid()
    ensures IsDirection(direction) ==> UndoStep(WalkStep(s, direction).value).location == s.location
    ensures InFlyRange(x, y) ==> UndoStep(FlyStep(s, x, y).value).location == s.location
  {
  }

  /** The guard's boundaries: x = -100 is refused, while x = 100 and y = +/-100 are accepted. */
  lemma FlyBoundaries(s: State)
    ensures FlyStep(s, -100, 0) == Err(OutOfRange)
    ensures FlyStep(s, 101, 0) == Err(OutOfRange)
    ensures FlyStep(s, 0, 101) == Err(OutOfRange)
    ensures FlyStep(s, 0, -101) == Err(OutOfRange)
    ensures FlyStep(s, 0, 0).Ok? && FlyStep(s, 100, 0).Ok?
    ensures FlyStep(s, -99, 0).Ok? && FlyStep(s, 0, 100).Ok? && FlyStep(s, 0, -100).Ok?
  {
  }

  /** shrink then undo, and grow then undo, restore the size. */
  lemma ResizeThenUndo(s: State)
    requires s.Valid()
    ensures UndoStep(ShrinkStep(s)).size == s.size
    ensures UndoStep(GrowStep(s)).size == s.size
  {
  }

  /** Only the latest grow is undone: from size 1, grow, grow, undo gives 2. */
  lemma GrowGrowUndo()
    ensures UndoStep(GrowStep(GrowStep(Initial))).size == 2.0
  {
  }

  /** Undoing a shrink twice doubles the size twice: the character ends up twice as big. */
  lemma DoubleUndoAfterShrink(s: State)
    requires s.Valid()
    ensures UndoStep(UndoStep(ShrinkStep(s))).size == 2.0 * s.size
  {
  }

  /** Undoing a grow twice halves the size twice: the character ends up half as big. */
  lemma DoubleUndoAfterGrow(s: State)
    requires s.Valid()
    ensures UndoStep(UndoStep(GrowStep(s))).size * 2.0 == s.size
  {
  }

  /**
   * Undoing a grab twice: the first undo removes the grabbed item, and the
   * second finds nothing left to remove, so the inventory is as before the grab.
   */
  lemma DoubleUndoAfterGrab(s: State, item: string)
    requires s.Valid() && item !in s.items
    ensures UndoStep(GrabStep(s, item).value).items == s.items
    ensures UndoStep(UndoStep(GrabStep(s, item).value)).items == s.items
  {
    RemoveFirstOfAppended(s.items, item);
  }

  /** undo after examine, rest, or before any action changes nothing; examine changes no item, size or place. */
  lemma UndoOfNothing(s: State, item: string)
    requires s.Valid() && item in s.items
    ensures var t := ExamineStep(s, item).value;
      && UndoStep(t) == t
      && t.items == s.items && t.size == s.size && t.location == s.location
    ensures UndoStep(RestStep(s)) == RestStep(s)
    ensures UndoStep(Initial) == Initial
  {
  }

  /** A new character that grabs water and examines it sees the fixed description; an unlisted item gets the generic one. */
  lemma ExamineDescriptions()
    ensures ExamineMessage("water") == "The water is dirty! Don't drink!"
    ensures ExamineMessage("pen") == "Nothing special about pen"
  {
  }

  /** A grab or drop call that succeeds in state s, and so assigns lastItem. */
  predicate RecordsItem(s: State, c: Call) {
    || (c.GrabCall? && GrabStep(s, c.item).Ok?)
    || (c.DropCall? && DropStep(s, c.item).Ok?)
  }

  /** Some call of the sequence, run from s, is a grab or drop that succeeds. */
  predicate ItemRecordedDuring(s: State, calls: seq<Call>)
    requires s.Valid()
    decreases |calls|
  {
    calls != [] && (RecordsItem(s, calls[0]) || ItemRecordedDuring(Step(s, calls[0]), calls[1..]))
  }

  /**
   * The state of a game in which no grab or drop has succeeded yet: nothing
   * is held, lastItem is still the constructor's "", and neither grab, drop
   * nor use is the recorded action.
   */
  predicate Untouched(s: State) {
    s.items == [] && s.lastItem == "" && s.lastAction !in {Grab, Drop, Use}
  }

  /**
   * Until some grab or drop succeeds, the game stays Untouched. So the
   * constructor's empty lastItem is never re-added by undoing a use: a use
   * needs a held item, and by then a grab or drop has assigned lastItem.
   */
  lemma {:induction false} UntouchedUntilItemRecorded(s: State, calls: seq<Call>)
    requires s.Valid() && Untouched(s)
    requires !ItemRecordedDuring(s, calls)
    ensures Untouched(Run(s, calls))
    decreases |calls|
  {
    if calls != [] {
      var c := calls[0];
      assert !RecordsItem(s, c);
      assert Untouched(Step(s, c));
      UntouchedUntilItemRecorded(Step(s, c), calls[1..]);
    }
  }

  /** From a new game: any reached state with use as the last action had lastItem assigned by a grab or drop. */
  lemma UseAfterConstructionFollowsGrab(calls: seq<Call>)
    requires Run(Initial, calls).lastAction == Use
    ensures ItemRecordedDuring(Initial, calls)
  {
    if !ItemRecordedDuring(Initial, calls) {
      UntouchedUntilItemRecorded(Initial, calls);
    }
  }
}
