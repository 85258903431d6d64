/**
 * What the transitions of the session guarantee: the bike stays on the
 * canvas, fuel and time stay in range, a delivery scores exactly once per
 * debounce cycle, the order index moves by at most one, the timer counts down
 * to zero, a restart re-arms the game, and every reachable state keeps the
 * session invariant.
 */
module SessionProperties {
  import opened Geometry
  import opened Session

  // ---------------------------------------------------------------- frame step

  /** Once the guard fails, the loop stays stopped however many frames follow. */
  lemma {:induction false} StoppedLoopStaysStopped(s: State, orders: Orders, n: nat)
    requires !Alive(s, orders)
    ensures Frames(s, orders, n) == s
  {
    if n > 0 {
      StoppedLoopStaysStopped(s, orders, n - 1);
    }
  }

  /** Fuel on an alive frame: full after a delivery, one unit less when moving, else unchanged. */
  lemma StepFuel(s: State, orders: Orders)
    requires Alive(s, orders)
    ensures Delivers(s, orders) ==> Step(s, orders).fuel == FullFuel
    ensures !Delivers(s, orders) && Moving(s.held) ==> Step(s, orders).fuel == s.fuel - 1
    ensures !Delivers(s, orders) && !Moving(s.held) ==> Step(s, orders).fuel == s.fuel
  {
  }

  /** Without a delivery, fuel is never negative and never increases. */
  lemma FuelNeverRisesWithoutDelivery(s: State, orders: Orders)
    requires s.fuel >= 0 && !Delivers(s, orders)
    ensures 0 <= Step(s, orders).fuel <= s.fuel
  {
  }

  /** A frame with no arrow key held and no delivery leaves an on-canvas bike and its fuel where they were. */
  lemma IdleFrameChangesNothing(s: State, orders: Orders)
    requires !Moving(s.held) && !Delivers(s, orders)
    requires 0 <= s.x <= MaxX && 0 <= s.y <= MaxY
    ensures Step(s, orders) == s
  {
  }

  /** The score changes exactly on a delivery, and then by exactly 10; a delivery refuels and returns the bike to the start. */
  lemma DeliveryScores(s: State, orders: Orders)
    ensures Step(s, orders).score != s.score <==> Delivers(s, orders)
    ensures Delivers(s, orders) ==>
      && Step(s, orders).score == s.score + DeliveryReward
      && Step(s, orders).fuel == FullFuel
      && Step(s, orders).x == StartX && Step(s, orders).y == StartY
      && Step(s, orders).timeLeft == s.timeLeft
  {
  }

  /** A delivery before the last order moves to the next order and starts a fresh loop. */
  lemma DeliveryBeforeLastAdvances(s: State, orders: Orders)
    requires Delivers(s, orders) && s.orderIndex < |orders| - 1
    ensures Step(s, orders).orderIndex == s.orderIndex + 1
    ensures Step(s, orders).status == Delivered
    ensures Step(s, orders).held == NoKeys && !Step(s, orders).hasDelivered
  {
  }

  /** A delivery on the last order keeps the index, reports completion and sets the debounce flag. */
  lemma DeliveryOnLastCompletes(s: State, orders: Orders)
    requires Delivers(s, orders) && s.orderIndex == |orders| - 1
    ensures Step(s, orders).orderIndex == s.orderIndex
    ensures Step(s, orders).status == AllDone
    ensures Step(s, orders).hasDelivered
    ensures Step(s, orders).held == s.held
  {
  }

  /**
   * The last delivery does not end the loop: with a full tank, the same time
   * left and the index still in range, the frame guard still passes.
   */
  lemma LastDeliveryKeepsLoopAlive(s: State, orders: Orders)
    requires Delivers(s, orders) && s.orderIndex == |orders| - 1
    ensures Alive(Step(s, orders), orders)
  {
  }

  /** The order index only changes on a delivery before the last order, and then by one. */
  lemma OrderIndexMovesByOne(s: State, orders: Orders)
    ensures Step(s, orders).orderIndex != s.orderIndex <==>
      Delivers(s, orders) && s.orderIndex < |orders| - 1
    ensures Step(s, orders).orderIndex == s.orderIndex || Step(s, orders).orderIndex == s.orderIndex + 1
  {
  }

  /** While the debounce flag is set, no number of frames scores again, and the flag stays set. */
  lemma {:induction false} DebounceHoldsUntilKeyUp(s: State, orders: Orders, n: nat)
    requires s.hasDelivered
    ensures Frames(s, orders, n).score == s.score
    ensures Frames(s, orders, n).hasDelivered
    ensures Frames(s, orders, n).orderIndex == s.orderIndex
  {
    if n > 0 {
      DebounceHoldsUntilKeyUp(s, orders, n - 1);
      var p := Frames(s, orders, n - 1);
      assert !Delivers(p, orders);
    }
  }

  /**
   * The debounce holds until a key-up: while the flag is set, frames, key-downs
   * and ticks in any order neither score nor advance, and the flag stays set.
   */
  lemma {:induction false} DebounceHoldsAcrossEvents(s: State, orders: Orders, events: seq<Event>)
    requires s.hasDelivered
    requires forall i :: 0 <= i < |events| ==> !events[i].Up? && !events[i].Restart?
    ensures Run(s, orders, events).score == s.score
    ensures Run(s, orders, events).hasDelivered
    ensures Run(s, orders, events).orderIndex == s.orderIndex
  {
    if events != [] {
      var prefix := events[..|events| - 1];
      DebounceHoldsAcrossEvents(s, orders, prefix);
      var p := Run(s, orders, prefix);
      assert !Delivers(p, orders);
    }
  }

  // ---------------------------------------------------------------- key handlers

  /** Pressing and releasing a key that was not held returns the held keys to what they were. */
  lemma PressReleaseRoundTrip(k: Keys, key: Key)
    requires !IsHeld(k, key)
    ensures Press(Press(k, key, true), key, false) == k
  {
  }

  // ---------------------------------------------------------------- timer

  /** Fewer ticks than the time left only count down. */
  lemma {:induction false} TicksCountDown(s: State, k: nat)
    requires k < s.timeLeft
    ensures Ticks(s, k) == s.(timeLeft := s.timeLeft - k)
  {
    if k > 0 {
      TicksCountDown(s, k - 1);
    }
  }

  /** Enough ticks reach zero and time's up, and stay there. */
  lemma {:induction false} TicksReachZero(s: State, n: nat)
    requires 1 <= s.timeLeft <= n
    ensures Ticks(s, n).timeLeft == 0 && Ticks(s, n).status == TimesUp
  {
    if n == s.timeLeft {
      TicksCountDown(s, n - 1);
    } else {
      TicksReachZero(s, n - 1);
    }
  }

  /** Thirty ticks from thirty seconds: one second left after 29, time's up after 30. */
  lemma ThirtyTicksFromStart(s: State)
    requires s.timeLeft == StartTime
    ensures Ticks(s, StartTime - 1).timeLeft == 1 && Ticks(s, StartTime - 1).status == s.status
    ensures Ticks(s, StartTime).timeLeft == 0 && Ticks(s, StartTime).status == TimesUp
  {
    TicksCountDown(s, StartTime - 1);
    TicksReachZero(s, StartTime);
  }

  /** Once time is up in a reachable state, a further tick changes nothing (the interval has been cleared). */
  lemma ExpiredTickIsIdle(s: State, orders: Orders)
    requires Inv(s, orders) && s.timeLeft == 0
    ensures Tick(s) == s
  {
  }

  // ---------------------------------------------------------------- restart

  /** A restart re-arms the frame loop: the result satisfies `Inv` and passes the frame guard. */
  lemma ResetRearms(s: State, orders: Orders)
    ensures Inv(Reset(s), orders) && Alive(Reset(s), orders)
  {
  }

  // ---------------------------------------------------------------- invariant

  lemma InitialSatisfiesInv(orders: Orders)
    ensures Inv(Initial, orders) && Alive(Initial, orders)
  {
  }

  lemma StepPreservesInv(s: State, orders: Orders)
    requires Inv(s, orders)
    ensures Inv(Step(s, orders), orders)
  {
  }

  lemma ApplyPreservesInv(s: State, orders: Orders, e: Event)
    requires Inv(s, orders)
    ensures Inv(Apply(s, orders, e), orders)
  {
    match e
    case Frame => StepPreservesInv(s, orders);
    case Down(k) =>
    case Up(k) =>
    case Second =>
    case Restart => ResetRearms(s, orders);
  }

  /** Every interleaving of frames, key events, ticks and restarts keeps the invariant. */
  lemma {:induction false} RunPreservesInv(s: State, orders: Orders, events: seq<Event>)
    requires Inv(s, orders)
    ensures Inv(Run(s, orders, events), orders)
  {
    if events != [] {
      RunPreservesInv(s, orders, events[..|events| - 1]);
      ApplyPreservesInv(Run(s, orders, events[..|events| - 1]), orders, events[|events| - 1]);
    }
  }

  /** From the start of a game, every reachable state is on the canvas with fuel and time in range. */
  lemma ReachableBounds(orders: Orders, events: seq<Event>)
    ensures var r := Run(Initial, orders, events);
      0 <= r.x <= MaxX && 0 <= r.y <= MaxY && 0 <= r.fuel <= FullFuel &&
      0 <= r.timeLeft <= StartTime && r.orderIndex < |orders| && r.score % DeliveryReward == 0
  {
    InitialSatisfiesInv(orders);
    RunPreservesInv(Initial, orders, events);
  }

  // ---------------------------------------------------------------- scenarios

  /** Arrow keys held that push the bike against the canvas edge: it moves no further but still burns fuel. */
  predicate Parked(s: State, orders: Orders) {
    && Moving(s.held)
    && s.timeLeft > 0 && s.orderIndex < |orders|
    && Clamp(s.x + DeltaX(s.held), 0, MaxX) == s.x
    && Clamp(s.y + DeltaY(s.held), 0, MaxY) == s.y
    && (s.hasDelivered || !HitsOrder(s.x, s.y, orders[s.orderIndex]))
  }

  /** Each parked frame burns one unit until the tank is empty. */
  lemma {:induction false} ParkedFramesDrain(s: State, orders: Orders, n: nat)
    requires Parked(s, orders) && s.fuel >= 0
    ensures Frames(s, orders, n) == s.(fuel := if s.fuel > n then s.fuel - n else 0)
  {
    if n > 0 {
      ParkedFramesDrain(s, orders, n - 1);
    }
  }

  /** From a full tank, 500 moving frames (0.2 each) reach exactly zero and stop the loop. */
  lemma EmptyTankStopsLoop(s: State, orders: Orders)
    requires Parked(s, orders) && s.fuel == FullFuel
    ensures Alive(Frames(s, orders, FullFuel - 1), orders)
    ensures Frames(s, orders, FullFuel).fuel == 0
    ensures !Alive(Frames(s, orders, FullFuel), orders)
    ensures Step(Frames(s, orders, FullFuel), orders) == Frames(s, orders, FullFuel)
  {
    ParkedFramesDrain(s, orders, FullFuel - 1);
    ParkedFramesDrain(s, orders, FullFuel);
  }

  const RightOnly: Keys := Keys(false, false, false, true)

  /** Holding only the right arrow with the target further right: k frames move 3k and burn k. */
  lemma {:induction false} RideRight(s: State, orders: Orders, k: nat)
    requires s.held == RightOnly
    requires s.timeLeft > 0 && s.orderIndex < |orders| && s.fuel >= k
    requires 0 <= s.x && s.x + BikeSpeed * k <= MaxX && 0 <= s.y <= MaxY
    requires s.x + BikeSpeed * k + BikeWidth <= orders[s.orderIndex].x
    ensures Frames(s, orders, k) == s.(x := s.x + BikeSpeed * k, fuel := s.fuel - k)
  {
    if k > 0 {
      RideRight(s, orders, k - 1);
    }
  }

  /** The one order of the example scenario: its target lies on the road, 100 to the right of the start. */
  const ScenarioOrders: Orders := [Order(200, 310)]

  /**
   * From the start position with only the right arrow held and delivery armed,
   * against the scenario order: 16 frames ride without scoring, the 17th
   * delivers, scores 10, refuels, returns the bike to the start and reports
   * that all deliveries are done.
   */
  lemma RideToScenarioTarget(s: State)
    requires s.x == StartX && s.y == StartY && s.held == RightOnly && !s.hasDelivered
    requires s.timeLeft > 0 && s.orderIndex == 0 && s.fuel >= 17
    ensures Frames(s, ScenarioOrders, 16).score == s.score
    ensures var r := Frames(s, ScenarioOrders, 17);
      && r.score == s.score + DeliveryReward
      && r.fuel == FullFuel
      && r.x == StartX && r.y == StartY
      && r.status == AllDone && r.hasDelivered
      && r.held == RightOnly && r.timeLeft == s.timeLeft && r.orderIndex == 0
  {
    RideRight(s, ScenarioOrders, 16);
    var p := Frames(s, ScenarioOrders, 16);
    assert p.x == 148 && p.y == StartY && p.fuel == s.fuel - 16;
    assert Move(p).x == 151 && Move(p).y == StartY;
    assert Delivers(p, ScenarioOrders);
    assert Frames(s, ScenarioOrders, 17) == Deliver(Move(p), ScenarioOrders);
  }

  /** The example game: pressing the right arrow at the start delivers the only order after 17 frames. */
  lemma SingleOrderScenario()
    ensures var r := Frames(KeyDown(Initial, ArrowRight), ScenarioOrders, 17);
      r.score == 10 && r.fuel == FullFuel && r.status == AllDone && r.x == StartX && r.y == StartY
  {
    RideToScenarioTarget(KeyDown(Initial, ArrowRight));
  }

  /**
   * After all deliveries are completed the game goes on: releasing and
   * pressing the arrow again and riding back to the same target scores the
   * last order a second time.
   */
  lemma FinishedGameScoresAgain()
    ensures var done := Frames(KeyDown(Initial, ArrowRight), ScenarioOrders, 17);
      var again := KeyDown(KeyUp(done, ArrowRight), ArrowRight);
      && done.status == AllDone && done.score == 10
      && Frames(again, ScenarioOrders, 17).score == 20
  {
    var done := Frames(KeyDown(Initial, ArrowRight), ScenarioOrders, 17);
    RideToScenarioTarget(KeyDown(Initial, ArrowRight));
    var again := KeyDown(KeyUp(done, ArrowRight), ArrowRight);
    RideToScenarioTarget(again);
  }
}
