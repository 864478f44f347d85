# Text-adventure character state, with one-slot undo

This project models the `Game` class of a small Java text adventure. One
character has four things:

- an inventory, which is a list of item names;
- a size, which starts at 1;
- a current location, which starts at "Home";
- a one-slot undo record: the last action, the last item, and the last location.

Nine actions change that state: grab, drop, examine, use, walk, fly, shrink,
grow and rest. `undo` looks at the last action and applies its inverse.

The Dafny model has four modules:

- `Inventory` (inventory.dfy) models the list operations the class uses.
  `RemoveFirst` is `ArrayList.remove(Object)`: it removes the first
  occurrence of a name, if there is one. The module also has lemmas about
  lists without duplicates.
- `GameState` (game_state.dfy) holds the state of one object as a value,
  `State`, and one function per action (`GrabStep` … `RestStep`, `UndoStep`).
  Each function says when the action fails and what the new state is.
  `Step` and `Run` apply a call, or a sequence of calls, the way the class
  does. A call that throws leaves the state unchanged.
  `State.Valid()` is the object invariant: the size is positive, and when
  the last action is walk or fly, a previous location has been saved.
- `GameObject` (game.dfy) is the class `Game`. Its fields mirror the Java
  fields and its methods update them in place. Each method returns `Err` where
  the Java method throws and `Ok` with the Java return value otherwise. Each
  method is proved to leave `Model()` equal to what the matching `GameState`
  function gives. `MainScenario` replays the source's `main`.
- `GameProperties` (game_properties.dfy) holds the lemmas relating actions
  and undo: which undos restore the state, and where undo behaves unexpectedly
  because of the one-slot record.

Representation choices:

- The size is a `real`. The source only multiplies and divides it by 0.5 and
  2, so every value is exact.
- The `lastAction` string is the `Action` datatype. The constructor's `""`
  becomes `NoAction`.
- `lastLocation` is `Option<Location>`. It is `None` while the Java field is
  still null.
- A location is either `Named(..)` or `Coord(x, y)`. `Named` covers "Home" and
  the walked direction. `Coord` is the pair that `fly` formats as a string.

The quirks of the source are kept as written, and are stated as lemmas:

- `use` does not record `lastItem`. Undoing a use therefore re-adds whatever
  item was grabbed or dropped last (`UseThenUndo`). For example, after grab a,
  grab b, use a, undo, the inventory is ["b", "b"] (`UseUndoReaddsOtherItem`).
- Undo never clears `lastAction`, so a second undo applies the same inverse
  again:
  - after a drop, two undos add the item twice (`DoubleUndoAfterDrop`);
  - after a grab, the second undo finds nothing to remove (`DoubleUndoAfterGrab`);
  - after a shrink, two undos double the size twice (`DoubleUndoAfterShrink`);
  - after a grow, two undos halve the size twice (`DoubleUndoAfterGrow`).
- Undo of drop and of use appends without checking for a duplicate.
- The constructor's empty `lastItem` (Game.java:28) is never re-added by undoing
  a use. Until some grab or drop succeeds, nothing is held and no grab, drop or
  use is recorded (`UntouchedUntilItemRecorded`). So a use that succeeds
  always comes after a grab or drop has assigned `lastItem`
  (`UseAfterConstructionFollowsGrab`). An item named `""` that was grabbed
  explicitly can still be re-added, like any other name.

Where the source and its documentation disagree, the model follows the code:

- Inventory duplicates are possible. Two undos after a drop create one, and so
  does a single undo after a use, when `lastItem` names an item that is still
  held. The list is therefore a sequence, and "no duplicates" is a property of
  particular histories, not an invariant.
- The constructor leaves `lastLocation` null. The invariant
  `State.Valid()` shows that it is never read while it is null.
- The `fly` guard is `-100 < x <= 100 && -100 <= y <= 100`. The doc comment at
  Game.java:132 gives other bounds. The model uses the guard.

## Model

| member | source | states |
|---|---|---|
| `Inventory.RemoveFirst` | Game.java:63 | removing a name takes exactly one copy out of the list's multiset, and leaves the list as it was when the name is absent |
| `Inventory.RemoveFirstOfAppended` | Game.java:180-181 | removing a name that was just appended, and was not held before, gives back the original list |
| `Inventory.RemoveFirstKeepsNoDuplicates` | Game.java:60-63 | removing from a list without duplicates leaves no copy of the name behind and creates no duplicates |
| `GameState.ExamineMessage` | Game.java:81 | the message is the fixed description for the five listed items, and equals "Nothing special about " + item exactly when the item is not listed |
| `GameState.GrabStep` | Game.java:43-51 | fails with DuplicateItem exactly when the item is held; otherwise adds one copy, records grab and the item, and changes nothing else |
| `GameState.DropStep` | Game.java:60-70 | fails with ItemNotFound exactly when the item is not held; otherwise removes one copy, records drop and the item, and changes nothing else |
| `GameState.ExamineStep` | Game.java:78-87 | fails with ItemNotFound exactly when the item is not held; otherwise only the last action changes, to examine |
| `GameState.UseStep` | Game.java:94-101 | fails with ItemNotFound exactly when the item is not held; otherwise removes one copy and records use, but keeps the old lastItem |
| `GameState.WalkStep` | Game.java:110-125 | succeeds exactly for "south", "north", "east" and "west"; it then saves the old location, moves to the direction, and records walk |
| `GameState.FlyStep` | Game.java:134-144 | succeeds exactly when -100 < x <= 100 and -100 <= y <= 100; it then saves the old location, moves to (x, y), and records fly; otherwise it fails with OutOfRange |
| `GameState.ShrinkStep` | Game.java:150-155 | halves the size (a positive size stays positive and gets smaller) and records shrink |
| `GameState.GrowStep` | Game.java:161-166 | doubles the size (a positive size gets larger) and records grow |
| `GameState.RestStep` | Game.java:171-174 | records rest and changes nothing else |
| `GameState.UndoStep` | Game.java:179-208 | keeps the invariant and the whole undo record; after grab it removes one copy of lastItem; after drop or use it adds one copy of lastItem; after walk or fly it returns to the saved location; after shrink it doubles the size; after grow it halves it; each of these changes only that one field; after examine, rest, or no action it changes nothing |
| `GameState.Step` | Game.java:43-208 | every action and undo, applied to a valid state, gives a valid state |
| `GameState.Run` | Game.java:23-208 | after any sequence of calls the size is still positive, and walk or fly as the last action always has a saved location |
| `GameObject.Game.constructor` | Game.java:23-36 | empty inventory, size 1, location Home, no last action, empty lastItem, no saved location |
| `GameObject.Game.Grab` | Game.java:43-51 | Err(DuplicateItem) exactly when the item is held, with the state unchanged; otherwise the new state is GrabStep's |
| `GameObject.Game.Drop` | Game.java:60-70 | Err(ItemNotFound) exactly when the item is not held, with the state unchanged; otherwise returns the item, and the new state is DropStep's |
| `GameObject.Game.Examine` | Game.java:78-87 | Err(ItemNotFound) exactly when the item is not held; otherwise returns ExamineMessage(item), and the new state is ExamineStep's |
| `GameObject.Game.Use` | Game.java:94-101 | Err(ItemNotFound) exactly when the item is not held, with the state unchanged; otherwise the new state is UseStep's |
| `GameObject.Game.Walk` | Game.java:110-125 | returns true exactly for the four directions, and Err(InvalidDirection) with the state unchanged otherwise; the new state is WalkStep's |
| `GameObject.Game.Fly` | Game.java:134-144 | returns true exactly inside the guard's range, and Err(OutOfRange) with the state unchanged otherwise; the new state is FlyStep's |
| `GameObject.Game.Shrink` | Game.java:150-155 | returns the new size, which is positive and smaller than before; the new state is ShrinkStep's |
| `GameObject.Game.Grow` | Game.java:161-166 | returns the new size, which is larger than before; the new state is GrowStep's |
| `GameObject.Game.Rest` | Game.java:171-174 | the new state is RestStep's |
| `GameObject.Game.Undo` | Game.java:179-208 | the undo record is left unchanged, the invariant holds, and the new state is UndoStep's |
| `GameObject.MainScenario` | Game.java:214-229 | the demonstration run succeeds at every call, shows the water's fixed description, and ends holding only water, at size 1, back at (-10, 1) |
| `GameObject.DropPenTwice` | Game.java:216-219 | after grab, drop, undo, the pen is held again, so the second drop succeeds |
| `GameObject.GrabAndExamineWater` | Game.java:220-221 | examining the grabbed water gives "The water is dirty! Don't drink!" |
| `GameObject.ShrinkAndRest` | Game.java:222-225 | shrink then undo returns the size to 1, and undo after rest changes nothing |
| `GameObject.FlyThenWalkBack` | Game.java:226-228 | fly to (-10, 1), walk south, undo: the character is back at (-10, 1) |
| `GameProperties.GrabThenUndo` | Game.java:180-182 | grab of an item that is not held, then undo, restores the inventory exactly |
| `GameProperties.GrabTwice` | Game.java:43-51 | a second grab of the same item fails with DuplicateItem, and the item is held exactly once; a grab never creates a duplicate |
| `GameProperties.DropRemoves` | Game.java:60-70 | in an inventory without duplicates, drop leaves no copy of the item and no duplicates |
| `GameProperties.DropThenUndo` | Game.java:183-185 | for any inventory, drop then undo gives the same items, with the dropped one now last; an inventory without duplicates still has none |
| `GameProperties.DoubleUndoAfterDrop` | Game.java:179-185 | drop then two undos hold the dropped item twice, so the inventory has a duplicate |
| `GameProperties.UseThenUndo` | Game.java:188-190 | for any inventory, use then undo appends the previous lastItem; without duplicates, the used item comes back exactly when it was also the last item grabbed or dropped |
| `GameProperties.UseUndoReaddsOtherItem` | Game.java:94-101 | from a new game, grab a, grab b, use a, undo gives the inventory ["b", "b"] |
| `GameProperties.MoveThenUndo` | Game.java:191-196 | undo after a successful walk or fly restores the location from before the move |
| `GameProperties.FlyBoundaries` | Game.java:135 | x = -100, x = 101, y = 101 and y = -101 are refused; x = 100, y = 100 and y = -100 are accepted |
| `GameProperties.ResizeThenUndo` | Game.java:197-202 | shrink then undo, and grow then undo, restore the size |
| `GameProperties.GrowGrowUndo` | Game.java:161-166 | from a new game, grow, grow, undo gives size 2: only the last grow is undone |
| `GameProperties.DoubleUndoAfterShrink` | Game.java:197-199 | shrink then two undos leaves the size twice what it was before the shrink |
| `GameProperties.DoubleUndoAfterGrow` | Game.java:200-202 | grow then two undos leaves the size half what it was before the grow |
| `GameProperties.DoubleUndoAfterGrab` | Game.java:180-182 | grab then one or two undos gives back the inventory as before the grab, since the second removal finds nothing |
| `GameProperties.UntouchedUntilItemRecorded` | Game.java:23-208 | until a grab or drop succeeds, the inventory stays empty, lastItem stays "", and no grab, drop or use is recorded |
| `GameProperties.UseAfterConstructionFollowsGrab` | Game.java:23-101 | from a new game, any state whose last action is use was reached through a successful grab or drop, which assigned lastItem |
| `GameProperties.UndoOfNothing` | Game.java:186-187 | undo after examine, after rest, or on a new game changes nothing; examine changes neither items, size nor location |
| `GameProperties.ExamineDescriptions` | Game.java:29-35 | "water" gets its fixed description and an unlisted "pen" gets "Nothing special about pen" |

## Left out

- Console output: the println narration of every action and of undo is not modelled. The only exception is the examine message, which `Game.Examine` returns instead of printing.
- Java `double` arithmetic: the size is an exact `real`. IEEE rounding, overflow and underflow after many shrinks or grows are not modelled.
- The string that `fly` builds for the location, `"(" + x + ", " + y + ")"`, is a structured `Coord(x, y)`. Integer-to-text formatting is not modelled.
- Exceptions: a throwing call returns `Err` with a distinct error kind and leaves every field unchanged. The exception messages are not modelled.
- Null arguments are not modelled, since Dafny strings cannot be null. In Java, `ArrayList` accepts null, so `grab(null)`, `drop(null)` and `use(null)` treat null like any other name. Only `walk(null)` throws NullPointerException, at `direction.equals` (Game.java:111). `examine(null)` also throws it, when null is held, at the `getOrDefault` lookup (Game.java:81).
- The item descriptions are a module constant, `ItemMessages`, instead of an instance field. The map is never changed after construction.
- The `Contract` interface that `Game` implements is not part of this model.
