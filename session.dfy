/**
 * The game's session as an explicit state machine. One record holds what the
 * game component keeps across frames: the bike position, the held arrow keys,
 * the debounce flag, the React state (fuel, score, time left, order index,
 * status). Each event the component reacts to is a pure transition on it:
 * a frame step, a key press, a key release, a timer tick and a restart.
 *
 * Fuel is kept in whole units of 0.2: a full tank of 100 is 500 units and a
 * moving frame drains one unit.
 */
module Session {
  import opened Geometry

  /** Full tank, 100, in units of 0.2. */
  const FullFuel: int := 500
  const StartTime: int := 30
  const DeliveryReward: int := 10

  /** The status line, as a tag for each message the game can show. */
  datatype Status = Start | Delivered | AllDone | TimesUp | Restarted

  /** A delivery target: the top-left corner of its 30-by-30 square. */
  datatype Order = Order(x: int, y: int)

  /** The order list is fixed configuration and never empty. */
  type Orders = o: seq<Order> | |o| > 0 witness [Order(0, 0)]

  /** The keys the handlers distinguish; every other key is `Other`. */
  datatype Key = ArrowUp | ArrowDown | ArrowLeft | ArrowRight | Other

  /** Which of the four arrow keys are currently held. */
  datatype Keys = Keys(up: bool, down: bool, left: bool, right: bool)

  const NoKeys: Keys := Keys(false, false, false, false)

  datatype State = State(
    x: int, y: int,
    held: Keys,
    hasDelivered: bool,
    fuel: int,
    score: int,
    timeLeft: int,
    orderIndex: nat,
    status: Status)

  /** A fresh frame loop over the given session values: new bike at the start, no key held, flag clear. */
  function FreshLoop(fuel: int, score: int, timeLeft: int, orderIndex: nat, status: Status): State {
    State(StartX, StartY, NoKeys, false, fuel, score, timeLeft, orderIndex, status)
  }

  const Initial: State := FreshLoop(FullFuel, 0, StartTime, 0, Start)

  /** The guard at the top of the frame step. */
  predicate Alive(s: State, orders: Orders) {
    s.fuel > 0 && s.timeLeft > 0 && s.orderIndex < |orders|
  }

  predicate Moving(k: Keys) {
    k.right || k.left || k.up || k.down
  }

  function DeltaX(k: Keys): int {
    (if k.right then BikeSpeed else 0) - (if k.left then BikeSpeed else 0)
  }

  function DeltaY(k: Keys): int {
    (if k.down then BikeSpeed else 0) - (if k.up then BikeSpeed else 0)
  }

  /** `Math.max(prev - 0.2, 0)` in units of 0.2. */
  function Drain(fuel: int): (r: int)
    ensures r >= 0
    ensures fuel >= 0 ==> r <= fuel
    ensures fuel > 0 ==> r == fuel - 1
    ensures fuel <= 0 ==> r == 0
  {
    if fuel - 1 > 0 then fuel - 1 else 0
  }

  /** The hit test of the current order's target against the bike at (x, y). */
  predicate HitsOrder(x: int, y: int, o: Order) {
    BikeHits(x, y, o.x, o.y)
  }

  /** Position and fuel after the movement part of an alive frame. */
  function Move(s: State): (r: State)
    ensures 0 <= r.x <= MaxX && 0 <= r.y <= MaxY
    ensures var nx := s.x + (if s.held.right then BikeSpeed else 0) - (if s.held.left then BikeSpeed else 0);
      (0 <= nx <= MaxX ==> r.x == nx) && (nx < 0 ==> r.x == 0) && (nx > MaxX ==> r.x == MaxX)
    ensures var ny := s.y + (if s.held.down then BikeSpeed else 0) - (if s.held.up then BikeSpeed else 0);
      (0 <= ny <= MaxY ==> r.y == ny) && (ny < 0 ==> r.y == 0) && (ny > MaxY ==> r.y == MaxY)
    ensures Moving(s.held) ==> r.fuel == Drain(s.fuel)
    ensures !Moving(s.held) ==> r.fuel == s.fuel
    ensures r.(x := s.x, y := s.y, fuel := s.fuel) == s
  {
    var fuel := if Moving(s.held) then Drain(s.fuel) else s.fuel;
    s.(x := Clamp(s.x + DeltaX(s.held), 0, MaxX),
       y := Clamp(s.y + DeltaY(s.held), 0, MaxY),
       fuel := fuel)
  }

  /** A hit on an undelivered target scores it. */
  predicate Delivers(s: State, orders: Orders) {
    Alive(s, orders) && !s.hasDelivered && HitsOrder(Move(s).x, Move(s).y, orders[s.orderIndex])
  }

  /**
   * The delivery handling: +10, full tank, bike back at the start. Before the
   * last order the index advances and, since the index change restarts the
   * frame loop, the keys and the debounce flag start afresh; on the last
   * order the index stays and the flag stays set.
   */
  function Deliver(m: State, orders: Orders): (r: State)
    requires m.orderIndex < |orders|
    ensures r.score == m.score + DeliveryReward && r.fuel == FullFuel
    ensures r.x == StartX && r.y == StartY && r.timeLeft == m.timeLeft
    ensures r.orderIndex < |orders|
    ensures m.orderIndex < |orders| - 1 ==>
      r.orderIndex == m.orderIndex + 1 && r.status == Delivered && r.held == NoKeys && !r.hasDelivered
    ensures m.orderIndex == |orders| - 1 ==>
      r.orderIndex == m.orderIndex && r.status == AllDone && r.held == m.held && r.hasDelivered
  {
    if m.orderIndex < |orders| - 1 then
      FreshLoop(FullFuel, m.score + DeliveryReward, m.timeLeft, m.orderIndex + 1, Delivered)
    else
      m.(x := StartX, y := StartY, hasDelivered := true,
         score := m.score + DeliveryReward, fuel := FullFuel, status := AllDone)
  }

  /**
   * One animation frame: the alive guard, then movement with drain and clamp,
   * then the hit test and delivery on the clamped position.
   */
  function Step(s: State, orders: Orders): (r: State)
    ensures !Alive(s, orders) ==> r == s
    ensures Alive(s, orders) ==> 0 <= r.x <= MaxX && 0 <= r.y <= MaxY
    ensures r.score == (if Delivers(s, orders) then s.score + DeliveryReward else s.score)
    ensures r.timeLeft == s.timeLeft
  {
    if !Alive(s, orders) then s
    else if Delivers(s, orders) then Deliver(Move(s), orders)
    else Move(s)
  }

  function Press(k: Keys, key: Key, down: bool): Keys {
    match key
    case ArrowUp => k.(up := down)
    case ArrowDown => k.(down := down)
    case ArrowLeft => k.(left := down)
    case ArrowRight => k.(right := down)
    case Other => k
  }

  /** The arrow key `key` is held in k; `Other` is never held. */
  predicate IsHeld(k: Keys, key: Key) {
    match key
    case ArrowUp => k.up
    case ArrowDown => k.down
    case ArrowLeft => k.left
    case ArrowRight => k.right
    case Other => false
  }

  /** The key-down handler. */
  function KeyDown(s: State, key: Key): (r: State)
    ensures key != Other ==> IsHeld(r.held, key)
    ensures forall other: Key :: other != key ==> IsHeld(r.held, other) == IsHeld(s.held, other)
    ensures r.(held := s.held) == s
  {
    s.(held := Press(s.held, key, true))
  }

  /** The key-up handler: releases the key and clears the debounce flag. */
  function KeyUp(s: State, key: Key): (r: State)
    ensures !IsHeld(r.held, key) && !r.hasDelivered
    ensures forall other: Key :: other != key ==> IsHeld(r.held, other) == IsHeld(s.held, other)
    ensures r.(held := s.held, hasDelivered := s.hasDelivered) == s
  {
    s.(held := Press(s.held, key, false), hasDelivered := false)
  }

  /** The one-second timer's updater on time left, with its status side effect. */
  function Tick(s: State): (r: State)
    ensures r.timeLeft >= 0
    ensures s.timeLeft > 1 ==> r.timeLeft == s.timeLeft - 1 && r.status == s.status
    ensures s.timeLeft <= 1 ==> r.timeLeft == 0 && r.status == TimesUp
    ensures r.(timeLeft := s.timeLeft, status := s.status) == s
  {
    if s.timeLeft <= 1 then s.(timeLeft := 0, status := TimesUp)
    else s.(timeLeft := s.timeLeft - 1)
  }

  /** Restart: session defaults and a fresh frame loop, whatever came before. */
  function Reset(s: State): (r: State)
    ensures r.orderIndex == 0 && r.fuel == FullFuel && r.score == 0
    ensures r.timeLeft == StartTime && r.status == Restarted
    ensures r.x == StartX && r.y == StartY && r.held == NoKeys && !r.hasDelivered
  {
    FreshLoop(FullFuel, 0, StartTime, 0, Restarted)
  }

  /** n frames in a row with no other event in between. */
  function Frames(s: State, orders: Orders, n: nat): State {
    if n == 0 then s else Step(Frames(s, orders, n - 1), orders)
  }

  /** n timer ticks in a row. */
  function Ticks(s: State, n: nat): State {
    if n == 0 then s else Tick(Ticks(s, n - 1))
  }

  /** Everything the game reacts to, in the order the host delivers it. */
  datatype Event = Frame | Down(key: Key) | Up(key: Key) | Second | Restart

  function Apply(s: State, orders: Orders, e: Event): State {
    match e
    case Frame => Step(s, orders)
    case Down(k) => KeyDown(s, k)
    case Up(k) => KeyUp(s, k)
    case Second => Tick(s)
    case Restart => Reset(s)
  }

  function Run(s: State, orders: Orders, events: seq<Event>): State {
    if events == [] then s else Apply(Run(s, orders, events[..|events| - 1]), orders, events[|events| - 1])
  }

  /** What holds of every state the game can reach. */
  predicate Inv(s: State, orders: Orders) {
    && 0 <= s.x <= MaxX && 0 <= s.y <= MaxY
    && 0 <= s.fuel <= FullFuel
    && 0 <= s.score && s.score % DeliveryReward == 0
    && 0 <= s.timeLeft <= StartTime
    && s.orderIndex < |orders|
    && (s.timeLeft == 0 ==> s.status == TimesUp)
  }
}
