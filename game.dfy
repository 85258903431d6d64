/**
 * The game component as an object updated in place. The bike position, the
 * held-key map and the debounce flag are the frame loop's own mutable
 * variables; fuel, score, time left, order index and status are the
 * component's state. Each event method (`Update`, `KeyDown`, `KeyUp`,
 * `TimerTick`, `Reset`) performs its event step by step, the way the
 * component does, and is proved to land exactly on its pure transition of the
 * session model and to keep the invariant, so every property proved there
 * holds of the object. The two parts of the frame step land on `Move`
 * (`Ride`) and on `Deliver` or no change (`HandleHit`).
 */
module GameLoop {
  import opened Geometry
  import opened Session
  import SessionProperties

  class Game {
    const orders: Orders

    var x: int
    var y: int
    var held: Keys
    var hasDelivered: bool
    var fuel: int
    var score: int
    var timeLeft: int
    var orderIndex: nat
    var status: Status

    /** The object's fields as a session record. */
    function Snapshot(): State
      reads this
    {
      State(x, y, held, hasDelivered, fuel, score, timeLeft, orderIndex, status)
    }

    ghost predicate Valid()
      reads this
    {
      Inv(Snapshot(), orders)
    }

    constructor (orders: Orders)
      ensures this.orders == orders
      ensures Snapshot() == Initial
      ensures Valid()
    {
      this.orders := orders;
      x, y := StartX, StartY;
      held := NoKeys;
      hasDelivered := false;
      fuel, score, timeLeft, orderIndex := FullFuel, 0, StartTime, 0;
      status := Start;
      new;
      SessionProperties.InitialSatisfiesInv(orders);
    }

    /** One animation frame: the alive guard, then the ride, then the hit test. */
    method Update()
      requires Valid()
      modifies this
      ensures Valid()
      ensures Snapshot() == Step(old(Snapshot()), orders)
    {
      ghost var s := Snapshot();
      SessionProperties.StepPreservesInv(s, orders);
      if fuel <= 0 || timeLeft <= 0 || orderIndex >= |orders| {
        return;
      }
      Ride();
      HandleHit();
    }

    /** Movement by the held arrow keys, fuel drain when moving, clamp to the canvas. */
    method Ride()
      modifies this
      ensures Snapshot() == Move(old(Snapshot()))
    {
      var moved := false;
      if held.right {
        x := x + BikeSpeed;
        moved := true;
      }
      if held.left {
        x := x - BikeSpeed;
        moved := true;
      }
      assert x == old(x) + DeltaX(held) && moved == (held.right || held.left);
      if held.up {
        y := y - BikeSpeed;
        moved := true;
      }
      if held.down {
        y := y + BikeSpeed;
        moved := true;
      }
      assert y == old(y) + DeltaY(held) && moved == Moving(held);

      if moved {
        fuel := Drain(fuel);
      }

      x := Clamp(x, 0, MaxX);
      y := Clamp(y, 0, MaxY);
    }

    /** The hit test against the current order and the delivery it may trigger. */
    method HandleHit()
      requires orderIndex < |orders|
      modifies this
      ensures Snapshot() ==
        if !old(hasDelivered) && HitsOrder(old(x), old(y), orders[old(orderIndex)])
        then Deliver(old(Snapshot()), orders)
        else old(Snapshot())
    {
      var d := orders[orderIndex];
      var isHit := x < d.x + TargetSize && x + BikeWidth > d.x &&
                   y < d.y + TargetSize && y + BikeHeight > d.y;
      assert isHit == HitsOrder(x, y, d);

      if isHit && !hasDelivered {
        hasDelivered := true;
        score := score + DeliveryReward;
        fuel := FullFuel;

        if orderIndex < |orders| - 1 {
          // The index change restarts the frame loop with fresh keys and flag.
          orderIndex := orderIndex + 1;
          status := Delivered;
          held := NoKeys;
          hasDelivered := false;
        } else {
          status := AllDone;
        }

        x := StartX;
        y := StartY;
      }
    }

    /** The key-down handler. */
    method KeyDown(k: Key)
      requires Valid()
      modifies this
      ensures Valid()
      ensures Snapshot() == Session.KeyDown(old(Snapshot()), k)
    {
      match k
      case ArrowUp => held := held.(up := true);
      case ArrowDown => held := held.(down := true);
      case ArrowLeft => held := held.(left := true);
      case ArrowRight => held := held.(right := true);
      case Other =>
    }

    /** The key-up handler: release the key, clear the debounce flag. */
    method KeyUp(k: Key)
      requires Valid()
      modifies this
      ensures Valid()
      ensures Snapshot() == Session.KeyUp(old(Snapshot()), k)
    {
      match k {
        case ArrowUp => held := held.(up := false);
        case ArrowDown => held := held.(down := false);
        case ArrowLeft => held := held.(left := false);
        case ArrowRight => held := held.(right := false);
        case Other =>
      }
      hasDelivered := false;
    }

    /** The one-second timer callback. */
    method TimerTick()
      requires Valid()
      modifies this
      ensures Valid()
      ensures Snapshot() == Tick(old(Snapshot()))
    {
      if timeLeft <= 1 {
        status := TimesUp;
        timeLeft := 0;
      } else {
        timeLeft := timeLeft - 1;
      }
    }

    /** The restart button. */
    method Reset()
      requires Valid()
      modifies this
      ensures Valid()
      ensures Snapshot() == Session.Reset(old(Snapshot()))
    {
      orderIndex := 0;
      fuel := FullFuel;
      score := 0;
      timeLeft := StartTime;
      status := Restarted;
      x, y := StartX, StartY;
      held := NoKeys;
      hasDelivered := false;
      SessionProperties.ResetRearms(old(Snapshot()), orders);
    }
  }
}
