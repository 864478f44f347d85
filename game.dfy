/**
 * The Game class: one character's inventory, size, location and one-slot undo
 * record, updated in place by the actions. Each method is proved to leave the
 * object in the state the matching function of GameState describes, and a
 * method that throws in the source returns Err here with every field unchanged.
 */
module GameObject {
  import opened Inventory
  import opened GameState

  class Game {
    var items: seq<string>
    var size: real
    var location: Location
    var lastAction: Action
    var lastItem: string
    var lastLocation: Option<Location>

    /** The object's fields as a State value. */
    function Model(): State
      reads this
    {
      State(items, size, location, lastAction, lastItem, lastLocation)
    }

    predicate Valid()
      reads this
    {
      Model().Valid()
    }

    constructor ()
      ensures Valid() && Model() == Initial
    {
      items := [];
      size := 1.0;
      location := Named("Home");
      lastAction := NoAction;
      lastItem := "";
      lastLocation := None;
    }

    method Grab(item: string) returns (r: Result<()>)
      requires Valid()
      modifies this
      ensures Valid()
      ensures r.Err? <==> item in old(items)
      ensures r.Err? ==> r.error == DuplicateItem
      ensures Model() == Commit(old(Model()), GrabStep(old(Model()), item))
    {
      if item !in items {
        lastItem := item;
        items := items + [item];
        lastAction := Action.Grab;
        r := Ok(());
      } else {
        r := Err(DuplicateItem);
      }
    }

    method Drop(item: string) returns (r: Result<string>)
      requires Valid()
      modifies this
      ensures Valid()
      ensures r.Err? <==> item !in old(items)
      ensures r.Err? ==> r.error == ItemNotFound
      ensures r.Ok? ==> r.value == item
      ensures Model() == Commit(old(Model()), DropStep(old(Model()), item))
    {
      if item in items {
        lastItem := item;
        items := RemoveFirst(items, item);
        lastAction := Action.Drop;
        r := Ok(item);
      } else {
        r := Err(ItemNotFound);
      }
    }

    /** Returns the description that the source prints. */
    method Examine(item: string) returns (r: Result<string>)
      requires Valid()
      modifies this
      ensures Valid()
      ensures r.Err? <==> item !in old(items)
      ensures r.Err? ==> r.error == ItemNotFound
      ensures r.Ok? ==> r.value == ExamineMessage(item)
      ensures Model() == Commit(old(Model()), ExamineStep(old(Model()), item))
    {
      if item in items {
        lastAction := Action.Examine;
        r := Ok(ExamineMessage(item));
      } else {
        r := Err(ItemNotFound);
      }
    }

    method Use(item: string) returns (r: Result<()>)
      requires Valid()
      modifies this
      ensures Valid()
      ensures r.Err? <==> item !in old(items)
      ensures r.Err? ==> r.error == ItemNotFound
      ensures Model() == Commit(old(Model()), UseStep(old(Model()), item))
    {
      if item in items {
        items := RemoveFirst(items, item);
        lastAction := Action.Use;
        r := Ok(());
      } else {
        r := Err(ItemNotFound);
      }
    }

    method Walk(direction: string) returns (r: Result<bool>)
      requires Valid()
      modifies this
      ensures Valid()
      ensures r.Ok? <==> IsDirection(direction)
      ensures r.Ok? ==> r.value
      ensures r.Err? ==> r.error == InvalidDirection
      ensures Model() == Commit(old(Model()), WalkStep(old(Model()), direction))
    {
      if direction == "south" || direction == "north" || direction == "east" || direction == "west" {
        lastLocation := Some(location);
        location := Named(direction);
        lastAction := Action.Walk;
        r := Ok(true);
      } else {
        r := Err(InvalidDirection);
      }
    }

    method Fly(x: int, y: int) returns (r: Result<bool>)
      requires Valid()
      modifies this
      ensures Valid()
      ensures r.Ok? <==> -100 < x <= 100 && -100 <= y <= 100
      ensures r.Ok? ==> r.value
      ensures r.Err? ==> r.error == OutOfRange
      ensures Model() == Commit(old(Model()), FlyStep(old(Model()), x, y))
    {
      if (x <= 100 && x > -100) && (y <= 100 && y >= -100) {
        lastLocation := Some(location);
        location := Coord(x, y);
        lastAction := Action.Fly;
        r := Ok(true);
      } else {
        r := Err(OutOfRange);
      }
    }

    method Shrink() returns (newSize: real)
      requires Valid()
      modifies this
      ensures Valid()
      ensures newSize == size && 0.0 < size < old(size)
      ensures Model() == ShrinkStep(old(Model()))
    {
      size := size * 0.5;
      lastAction := Action.Shrink;
      newSize := size;
    }

    method Grow() returns (newSize: real)
      requires Valid()
      modifies this
      ensures Valid()
      ensures newSize == size && size > old(size)
      ensures Model() == GrowStep(old(Model()))
    {
      size := size * 2.0;
      lastAction := Action.Grow;
      newSize := size;
    }

    method Rest()
      requires Valid()
      modifies this
      ensures Valid()
      ensures Model() == RestStep(old(Model()))
    {
      lastAction := Action.Rest;
    }

    /** Dispatches on lastAction and never updates the undo record itself. */
    method Undo()
      requires Valid()
      modifies this
      ensures Valid()
      ensures lastAction == old(lastAction) && lastItem == old(lastItem) && lastLocation == old(lastLocation)
      ensures Model() == UndoStep(old(Model()))
    {
      match lastAction
      case Grab => items := RemoveFirst(items, lastItem);
      case Drop => items := items + [lastItem];
      case Examine =>
      case Use => items := items + [lastItem];
      case Walk => location := lastLocation.value;
      case Fly => location := lastLocation.value;
      case Shrink => size := size / 0.5;
      case Grow => size := size / 2.0;
      case Rest =>
      case NoAction =>
    }
  }

  /**
   * The demonstration sequence of the source's main method: every call
   * succeeds, the water gets its fixed description, and the last undo takes
   * the character back from "south" to the point it flew to. It is split into
   * the four phases below.
   */
  method MainScenario() returns (message: string, final: State)
    ensures message == "The water is dirty! Don't drink!"
    ensures final == State(["water"], 1.0, Coord(-10, 1), Walk, "water", Some(Coord(-10, 1)))
  {
    var character1 := new Game();
    DropPenTwice(character1);
    message := GrabAndExamineWater(character1);
    ShrinkAndRest(character1);
    FlyThenWalkBack(character1);
    final := character1.Model();
  }

  /** grab("pen"), drop("pen"), undo(), drop("pen"): the undo brings the pen back, so the second drop succeeds. */
  method DropPenTwice(g: Game)
    requires g.Valid() && g.Model() == Initial
    modifies g
    ensures g.Valid() && g.Model() == State([], 1.0, Named("Home"), Drop, "pen", None)
  {
    var r0 := g.Grab("pen");
    assert r0.Ok? && g.Model() == State(["pen"], 1.0, Named("Home"), Grab, "pen", None);
    var r1 := g.Drop("pen");
    assert RemoveFirst(["pen"], "pen") == [];
    assert r1 == Ok("pen") && g.Model() == State([], 1.0, Named("Home"), Drop, "pen", None);
    g.Undo();
    assert g.Model() == State(["pen"], 1.0, Named("Home"), Drop, "pen", None);
    var r2 := g.Drop("pen");
    assert r2 == Ok("pen");
  }

  /** grab("water"), examine("water"): the description is the fixed one. */
  method GrabAndExamineWater(g: Game) returns (message: string)
    requires g.Valid() && g.Model() == State([], 1.0, Named("Home"), Drop, "pen", None)
    modifies g
    ensures message == "The water is dirty! Don't drink!"
    ensures g.Valid() && g.Model() == State(["water"], 1.0, Named("Home"), Examine, "water", None)
  {
    var r0 := g.Grab("water");
    assert r0.Ok? && g.Model() == State(["water"], 1.0, Named("Home"), Grab, "water", None);
    var r1 := g.Examine("water");
    assert r1.Ok?;
    message := r1.value;
  }

  /** shrink(), undo(), rest(), undo(): the size goes back to 1 and undoing the rest changes nothing. */
  method ShrinkAndRest(g: Game)
    requires g.Valid() && g.Model() == State(["water"], 1.0, Named("Home"), Examine, "water", None)
    modifies g
    ensures g.Valid() && g.Model() == State(["water"], 1.0, Named("Home"), Rest, "water", None)
  {
    var size := g.Shrink();
    assert size == 0.5;
    g.Undo();
    assert g.Model() == State(["water"], 1.0, Named("Home"), Shrink, "water", None);
    g.Rest();
    g.Undo();
  }

  /** fly(-10, 1), walk("south"), undo(): the undo returns to the point flown to. */
  method FlyThenWalkBack(g: Game)
    requires g.Valid() && g.Model() == State(["water"], 1.0, Named("Home"), Rest, "water", None)
    modifies g
    ensures g.Valid() && g.Model() == State(["water"], 1.0, Coord(-10, 1), Walk, "water", Some(Coord(-10, 1)))
  {
    var r0 := g.Fly(-10, 1);
    assert r0 == Ok(true) && g.Model() == State(["water"], 1.0, Coord(-10, 1), Fly, "water", Some(Named("Home")));
    var r1 := g.Walk("south");
    assert r1 == Ok(true) && g.Model() == State(["water"], 1.0, Named("south"), Walk, "water", Some(Coord(-10, 1)));
    g.Undo();
  }
}
