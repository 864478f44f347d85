/**
 * The state of one Game object as a value, and the effect of each action and
 * of undo on it. The class in game.dfy is proved against these functions; the
 * lemmas in game_properties.dfy reason about sequences of them.
 */
module GameState {
  import opened Inventory

  /** Where the character is: "Home" or a walked direction, or a flown-to (x, y) pair. */
  datatype Location = Named(name: string) | Coord(x: int, y: int)

  /** The lastAction string; NoAction is the empty string the constructor stores. */
  datatype Action = NoAction | Grab | Drop | Examine | Use | Walk | Fly | Shrink | Grow | Rest

  /** Why an action throws. */
  datatype Error = DuplicateItem | ItemNotFound | InvalidDirection | OutOfRange

  datatype Result<T> = Ok(value: T) | Err(error: Error)

  datatype Option<T> = None | Some(value: T)

  /**
   * The fields of Game. lastLocation is None while the Java field is still null;
   * the size is exact, since it is only ever halved or doubled.
   */
  datatype State = State(
    items: seq<string>,
    size: real,
    location: Location,
    lastAction: Action,
    lastItem: string,
    lastLocation: Option<Location>)
  {
    /** The size stays positive, and undo of a move always finds a saved location. */
    predicate Valid() {
      && size > 0.0
      && ((lastAction == Walk || lastAction == Fly) ==> lastLocation.Some?)
    }
  }

  /** The state the constructor builds. */
  const Initial: State := State([], 1.0, Named("Home"), NoAction, "", None)

  /** The five fixed item descriptions. */
  const ItemMessages: map<string, string> := map[
    "water" := "The water is dirty! Don't drink!",
    "table" := "The table is cracked in the middle.",
    "window" := "The glass of the window is broken.",
    "chair" := "One leg of the chair is about to break!",
    "vegetables" := "Hmmm...those vegetables do not look fresh."
  ]

  const Fallback: string := "Nothing special about "

  /** What examine shows: the fixed description, or the generic one naming the item. */
  function ExamineMessage(item: string): (m: string)
    ensures item in ItemMessages ==> m == ItemMessages[item]
    ensures m == Fallback + item <==> item !in ItemMessages
  {
    if item in ItemMessages then
      var m := ItemMessages[item];
      assert m[0] != 'N';
      assert (Fallback + item)[0] == 'N';
      m
    else Fallback + item
  }

  /** The four directions walk accepts. */
  predicate IsDirection(d: string) {
    d == "south" || d == "north" || d == "east" || d == "west"
  }

  /** The fly guard as written: x's lower bound is exclusive, y's inclusive. */
  predicate InFlyRange(x: int, y: int) {
    -100 < x <= 100 && -100 <= y <= 100
  }

  /** The state after an action: the new one on success, the old one when it throws. */
  function Commit(s: State, r: Result<State>): State {
    if r.Ok? then r.value else s
  }

  function GrabStep(s: State, item: string): (r: Result<State>)
    ensures r.Err? <==> item in s.items
    ensures r.Err? ==> r.error == DuplicateItem
    ensures r.Ok? ==> multiset(r.value.items) == multiset(s.items) + multiset{item}
    ensures r.Ok? ==> r.value.lastAction == Grab && r.value.lastItem == item
    ensures r.Ok? ==> r.value.(items := s.items, lastAction := s.lastAction, lastItem := s.lastItem) == s
  {
    if item in s.items then Err(DuplicateItem)
    else Ok(s.(items := s.items + [item], lastAction := Grab, lastItem := item))
  }

  function DropStep(s: State, item: string): (r: Result<State>)
    ensures r.Err? <==> item !in s.items
    ensures r.Err? ==> r.error == ItemNotFound
    ensures r.Ok? ==> multiset(r.value.items) == multiset(s.items) - multiset{item}
    ensures r.Ok? ==> r.value.lastAction == Drop && r.value.lastItem == item
    ensures r.Ok? ==> r.value.(items := s.items, lastAction := s.lastAction, lastItem := s.lastItem) == s
  {
    if item in s.items then Ok(s.(items := RemoveFirst(s.items, item), lastAction := Drop, lastItem := item))
    else Err(ItemNotFound)
  }

  function ExamineStep(s: State, item: string): (r: Result<State>)
    ensures r.Err? <==> item !in s.items
    ensures r.Err? ==> r.error == ItemNotFound
    ensures r.Ok? ==> r.value.lastAction == Examine
    ensures r.Ok? ==> r.value.(lastAction := s.lastAction) == s
  {
    if item in s.items then Ok(s.(lastAction := Examine))
    else Err(ItemNotFound)
  }

  /** Consumes the item; lastItem is deliberately not touched, as in the source. */
  function UseStep(s: State, item: string): (r: Result<State>)
    ensures r.Err? <==> item !in s.items
    ensures r.Err? ==> r.error == ItemNotFound
    ensures r.Ok? ==> multiset(r.value.items) == multiset(s.items) - multiset{item}
    ensures r.Ok? ==> r.value.lastAction == Use && r.value.lastItem == s.lastItem
    ensures r.Ok? ==> r.value.(items := s.items, lastAction := s.lastAction) == s
  {
    if item in s.items then Ok(s.(items := RemoveFirst(s.items, item), lastAction := Use))
    else Err(ItemNotFound)
  }

  function WalkStep(s: State, direction: string): (r: Result<State>)
    ensures r.Ok? <==> IsDirection(direction)
    ensures r.Err? ==> r.error == InvalidDirection
    ensures r.Ok? ==> r.value.location == Named(direction) && r.value.lastLocation == Some(s.location)
    ensures r.Ok? ==> r.value.lastAction == Walk
    ensures r.Ok? ==> r.value.(location := s.location, lastLocation := s.lastLocation, lastAction := s.lastAction) == s
  {
    if IsDirection(direction) then
      Ok(s.(lastLocation := Some(s.location), location := Named(direction), lastAction := Walk))
    else Err(InvalidDirection)
  }

  function FlyStep(s: State, x: int, y: int): (r: Result<State>)
    ensures r.Ok? <==> -100 < x <= 100 && -100 <= y <= 100
    ensures r.Err? ==> r.error == OutOfRange
    ensures r.Ok? ==> r.value.location == Coord(x, y) && r.value.lastLocation == Some(s.location)
    ensures r.Ok? ==> r.value.lastAction == Fly
    ensures r.Ok? ==> r.value.(location := s.location, lastLocation := s.lastLocation, lastAction := s.lastAction) == s
  {
    if InFlyRange(x, y) then
      Ok(s.(lastLocation := Some(s.location), location := Coord(x, y), lastAction := Fly))
    else Err(OutOfRange)
  }

  function ShrinkStep(s: State): (r: State)
    ensures s.size > 0.0 ==> 0.0 < r.size < s.size
    ensures r.size * 2.0 == s.size
    ensures r.lastAction == Shrink && r.(size := s.size, lastAction := s.lastAction) == s
  {
    s.(size := s.size * 0.5, lastAction := Shrink)
  }

  function GrowStep(s: State): (r: State)
    ensures s.size > 0.0 ==> r.size > s.size
    ensures r.size / 2.0 == s.size
    ensures r.lastAction == Grow && r.(size := s.size, lastAction := s.lastAction) == s
  {
    s.(size := s.size * 2.0, lastAction := Grow)
  }

  function RestStep(s: State): (r: State)
    ensures r.lastAction == Rest && r.(lastAction := s.lastAction) == s
  {
    s.(lastAction := Rest)
  }

  /**
   * Applies the inverse of the last recorded action. The undo record itself is
   * left as it is, so a second undo applies the same inverse again.
   */
  function UndoStep(s: State): (r: State)
    requires s.Valid()
    ensures r.Valid()
    ensures r.lastAction == s.lastAction && r.lastItem == s.lastItem && r.lastLocation == s.lastLocation
    ensures s.lastAction in {NoAction, Examine, Rest} ==> r == s
    ensures s.lastAction == Grab ==>
      multiset(r.items) == multiset(s.items) - multiset{s.lastItem} && r.(items := s.items) == s
    ensures s.lastAction in {Drop, Use} ==>
      multiset(r.items) == multiset(s.items) + multiset{s.lastItem} && r.(items := s.items) == s
    ensures s.lastAction in {Walk, Fly} ==>
      Some(r.location) == s.lastLocation && r.(location := s.location) == s
    ensures s.lastAction == Shrink ==> r.size == 2.0 * s.size && r.(size := s.size) == s
    ensures s.lastAction == Grow ==> r.size * 2.0 == s.size && r.(size := s.size) == s
  {
    match s.lastAction
    case Grab => s.(items := RemoveFirst(s.items, s.lastItem))
    case Drop => s.(items := s.items + [s.lastItem])
    case Examine => s
    case Use => s.(items := s.items + [s.lastItem])
    case Walk => s.(location := s.lastLocation.value)
    case Fly => s.(location := s.lastLocation.value)
    case Shrink => s.(size := s.size / 0.5)
    case Grow => s.(size := s.size / 2.0)
    case Rest => s
    case NoAction => s
  }

  /** One call on a Game object. */
  datatype Call =
    | GrabCall(item: string)
    | DropCall(item: string)
    | ExamineCall(item: string)
    | UseCall(item: string)
    | WalkCall(direction: string)
    | FlyCall(x: int, y: int)
    | ShrinkCall
    | GrowCall
    | RestCall
    | UndoCall

  /** The state after one call; a call that throws leaves it unchanged. */
  function Step(s: State, c: Call): (t: State)
    requires s.Valid()
    ensures t.Valid()
  {
    match c
    case GrabCall(i) => Commit(s, GrabStep(s, i))
    case DropCall(i) => Commit(s, DropStep(s, i))
    case ExamineCall(i) => Commit(s, ExamineStep(s, i))
    case UseCall(i) => Commit(s, UseStep(s, i))
    case WalkCall(d) => Commit(s, WalkStep(s, d))
    case FlyCall(x, y) => Commit(s, FlyStep(s, x, y))
    case ShrinkCall => ShrinkStep(s)
    case GrowCall => GrowStep(s)
    case RestCall => RestStep(s)
    case UndoCall => UndoStep(s)
  }

  /** The state after a sequence of calls; every state on the way is valid. */
  function Run(s: State, calls: seq<Call>): (t: State)
    requires s.Valid()
    ensures t.Valid()
    decreases |calls|
  {
    if calls == [] then s else Run(Step(s, calls[0]), calls[1..])
  }
}
