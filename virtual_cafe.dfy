/**
 * The cafe object of VirtualCafe.java: its three areas, its map of connected
 * customers and its two brewing counters, changed in place by synchronized methods.
 * Each method is proved to perform the transition of the same name in CafeSpec on
 * `Abstract()`, the value the fields hold, and to keep `Valid()`.
 *
 * The cafe holds each customer's Order by value: `customers` maps a name to the
 * counters of its Order and `clientWriters` names the Orders with a writer bound.
 * A brewing thread is not modelled as a thread: the items whose thread runs are the
 * ghost multiset `inFlight`, and its callback is the method FinishBrewing, which a
 * caller may invoke for any item that CafeSpec.CanFinish allows.
 */
module Cafe {
  import opened Wrappers
  import opened Items
  import opened Orders
  import opened Areas
  import opened CafeSpec

  class VirtualCafe {
    var waitingArea: seq<OrderItem>
    var brewingArea: seq<OrderItem>
    var trayArea: map<string, seq<OrderItem>>
    /** The counters of each connected customer's Order. */
    var customers: map<string, Counters>
    /** The connected customers whose Order has a client writer. */
    var clientWriters: set<string>
    var currentBrewingTeas: int
    var currentBrewingCoffees: int
    /** The identity the next new OrderItem gets. */
    var nextId: nat
    /** The items whose brewing thread has started and not yet called back. */
    ghost var inFlight: multiset<OrderItem>
    /** Every completion notice written to a client writer, oldest first. */
    ghost var notices: seq<Notice>

    /** The state of the cafe as a value. */
    ghost function Abstract(): CafeState
      reads this
    {
      CafeState(waitingArea, brewingArea, trayArea, customers, clientWriters,
                currentBrewingTeas, currentBrewingCoffees, nextId, inFlight, notices)
    }

    ghost predicate Valid()
      reads this
    {
      Inv(Abstract())
    }

    constructor ()
      ensures Valid() && Abstract() == Opening
    {
      waitingArea := [];
      brewingArea := [];
      trayArea := map[];
      customers := map[];
      clientWriters := {};
      currentBrewingTeas := 0;
      currentBrewingCoffees := 0;
      nextId := 0;
      inFlight := multiset{};
      notices := [];
      new;
      OpeningIsValid();
    }

    method CustomerConnected(name: string)
      requires Valid()
      modifies this
      ensures Abstract() == Connect(old(Abstract()), name)
      ensures Valid()
    {
      ConnectKeepsInv(Abstract(), name);
      if name !in customers {
        customers := customers[name := NoItems];
      }
    }

    method CustomerDisconnected(name: string)
      requires Valid()
      modifies this
      ensures Abstract() == Disconnect(old(Abstract()), name)
      ensures Valid()
    {
      DisconnectKeepsInv(Abstract(), name);
      customers := customers - {name};
      clientWriters := clientWriters - {name};
      waitingArea := Without(waitingArea, name);
      brewingArea := Without(brewingArea, name);
      trayArea := trayArea - {name};
    }

    method SetClientWriter(name: string)
      requires Valid()
      modifies this
      ensures Abstract() == BindWriter(old(Abstract()), name)
      ensures Valid()
    {
      BindWriterKeepsInv(Abstract(), name);
      if name in customers {
        clientWriters := clientWriters + {name};
      }
    }

    /** One loop of placeOrder (lines 96-98 or 99-101): append `n` new items of kind `t` for `name`. */
    method QueueItems(name: string, t: ItemType, n: nat)
      modifies this`waitingArea, this`nextId
      ensures waitingArea == old(waitingArea) + Batch(old(nextId), name, t, n)
      ensures nextId == old(nextId) + n
    {
      var i := 0;
      while i < n
        invariant 0 <= i <= n
        invariant waitingArea == old(waitingArea) + Batch(old(nextId), name, t, i)
        invariant nextId == old(nextId) + i
      {
        waitingArea := waitingArea + [OrderItem(nextId, name, t)];
        nextId := nextId + 1;
        i := i + 1;
      }
    }

    /** Lines 91-101 of placeOrder: raise the waiting counters, then queue the teas and the coffees. */
    method QueueOrder(name: string, teas: nat, coffees: nat)
      requires name in customers
      modifies this
      ensures Abstract() == Enqueue(old(Abstract()), name, teas, coffees)
    {
      var order := customers[name];
      customers := customers[name := order.(teasWaiting := order.teasWaiting + teas,
                                            coffeesWaiting := order.coffeesWaiting + coffees)];
      QueueItems(name, Tea, teas);
      QueueItems(name, Coffee, coffees);
    }

    method PlaceOrder(name: string, teas: int, coffees: int) returns (r: Result<(), CafeError>)
      requires Valid()
      modifies this
      ensures (Abstract(), r) == CafeSpec.PlaceOrder(old(Abstract()), name, teas, coffees)
      ensures Valid()
    {
      if name !in customers {
        return Failure(CustomerNotFound(name));
      }
      if teas < 0 || coffees < 0 {
        return Failure(NegativeQuantity);
      }
      ghost var s := Abstract();
      QueueOrder(name, teas, coffees);
      PlaceOrderKeepsInv(s, name, teas, coffees);
      EnqueueKeepsOwners(s, name, teas, coffees);
      StartBrewingIfCapacityAvailable();
      r := Success(());
    }

    /**
     * Lines 206-215 (and 219-228 for a coffee) of startBrewingIfCapacityAvailable: the
     * item leaves the waiting area, which then holds `rest`, and starts brewing.
     */
    method MoveToBrewing(item: OrderItem, rest: seq<OrderItem>)
      requires item.customerName in customers
      modifies this
      ensures Abstract() == AdmitOne(old(Abstract()), item, rest)
    {
      var order := customers[item.customerName];
      if item.itemType == Tea {
        customers := customers[item.customerName := order.(teasWaiting := order.teasWaiting - 1,
                                                           teasBrewing := order.teasBrewing + 1)];
        currentBrewingTeas := currentBrewingTeas + 1;
      } else {
        customers := customers[item.customerName := order.(coffeesWaiting := order.coffeesWaiting - 1,
                                                           coffeesBrewing := order.coffeesBrewing + 1)];
        currentBrewingCoffees := currentBrewingCoffees + 1;
      }
      waitingArea := rest;
      brewingArea := brewingArea + [item];
      inFlight := inFlight + multiset{item};
    }

    /**
     * startBrewingIfCapacityAvailable: walk the waiting area from its head and start
     * brewing every item whose kind has a free slot.
     */
    method StartBrewingIfCapacityAvailable()
      requires forall x | x in waitingArea :: x.customerName in customers
      modifies this
      ensures Abstract() == Admit(old(Abstract()))
    {
      ghost var s0 := Abstract();
      var w := waitingArea;
      var kept: seq<OrderItem> := [];
      ghost var admitted: seq<OrderItem> := [];
      var i := 0;
      while i < |w|
        invariant forall x | x in w :: x.customerName in customers
        invariant Passing(s0, w, i, admitted, kept, Abstract())
      {
        var item := w[i];
        PassStep(s0, w, i, admitted, kept, Abstract());
        if || (item.itemType == Tea && currentBrewingTeas < MaxBrewingTeas)
           || (item.itemType == Coffee && currentBrewingCoffees < MaxBrewingCoffees)
        {
          MoveToBrewing(item, kept + w[i + 1..]);
          admitted := admitted + [item];
        } else {
          kept := kept + [item];
        }
        i := i + 1;
      }
      PassEnd(s0, admitted, kept, Abstract());
    }

    /** Lines 256-269 of finishBrewing: the item goes from the brewing area to its owner's tray. */
    method MoveToTray(item: OrderItem)
      requires item.customerName in customers
      modifies this
      ensures Abstract() == Serve(old(Abstract()), item)
    {
      var name := item.customerName;
      customers := customers[name := ToReady(customers[name], item.itemType)];
      if item.itemType == Tea {
        currentBrewingTeas := currentBrewingTeas - 1;
      } else {
        currentBrewingCoffees := currentBrewingCoffees - 1;
      }
      brewingArea := RemoveFirst(brewingArea, item);
      trayArea := AddToTray(trayArea, name, item);
    }

    /**
     * finishBrewing, the callback of `item`'s brewing thread: the thread ends; if the
     * owner is still connected the item is served, the owner is notified if their
     * order is now complete, and the waiting area is scanned again.
     */
    method FinishBrewing(item: OrderItem)
      requires Valid() && CanFinish(Abstract(), item)
      modifies this
      ensures Abstract() == CafeSpec.FinishBrewing(old(Abstract()), item)
      ensures Valid()
    {
      ghost var s := Abstract();
      FinishKeepsInv(s, item);
      inFlight := inFlight - multiset{item};
      var name := item.customerName;
      if name !in customers {
        return;
      }
      ServedKeepsOwners(s, item);
      MoveToTray(item);
      CheckOrderCompletion(name);
      StartBrewingIfCapacityAvailable();
    }

    /** checkOrderCompletion: a complete order whose customer has a writer gets the notice. */
    method CheckOrderCompletion(name: string)
      requires name in customers
      modifies this`notices
      ensures Abstract() == NotifyIfComplete(old(Abstract()), name)
    {
      var order := customers[name];
      if Complete(order) && name in clientWriters {
        notices := notices + [Notice(name, order.teasReady, order.coffeesReady)];
      }
    }

    method GetOrderStatus(name: string) returns (r: Result<Status, CafeError>)
      ensures r == OrderStatus(Abstract(), name)
    {
      if name !in customers {
        return Failure(CustomerNotFound(name));
      }
      var order := customers[name];
      if Idle(order) {
        return Success(NoOrderFound);
      }
      var waiting: Option<Line> := None;
      var brewing: Option<Line> := None;
      var tray: Option<Line> := None;
      if order.teasWaiting > 0 || order.coffeesWaiting > 0 {
        waiting := Some(Line(order.coffeesWaiting, order.teasWaiting));
      }
      if order.teasBrewing > 0 || order.coffeesBrewing > 0 {
        brewing := Some(Line(order.coffeesBrewing, order.teasBrewing));
      }
      if order.teasReady > 0 || order.coffeesReady > 0 {
        tray := Some(Line(order.coffeesReady, order.teasReady));
      }
      r := Success(Breakdown(waiting, brewing, tray));
    }

    method IsOrderComplete(name: string) returns (r: Result<bool, CafeError>)
      ensures r == OrderComplete(Abstract(), name)
    {
      if name !in customers {
        return Failure(CustomerNotFound(name));
      }
      r := Success(Complete(customers[name]));
    }

    method CollectOrder(name: string) returns (r: Result<Collection, CafeError>)
      requires Valid()
      modifies this
      ensures (Abstract(), r) == CafeSpec.CollectOrder(old(Abstract()), name)
      ensures Valid()
    {
      CollectKeepsInv(Abstract(), name);
      if name !in customers {
        return Failure(CustomerNotFound(name));
      }
      var order := customers[name];
      if Idle(order) {
        return Success(NothingToCollect);
      }
      if !Complete(order) {
        return Failure(OrderPending);
      }
      var teas := order.teasReady;
      var coffees := order.coffeesReady;
      customers := customers[name := order.(teasReady := 0, coffeesReady := 0)];
      trayArea := trayArea - {name};
      r := Success(Collected(teas, coffees));
    }

    method GetNumberOfClients() returns (n: nat)
      ensures n == Clients(Abstract())
    {
      n := |customers|;
    }

    /** getNumberOfClientsWaiting: count, one Order at a time, the customers whose Order is not idle. */
    method GetNumberOfClientsWaiting() returns (n: nat)
      ensures n == |Busy(Abstract())|
    {
      var unvisited := customers.Keys;
      ghost var visited: set<string> := {};
      ghost var counted: set<string> := {};
      n := 0;
      while unvisited != {}
        invariant unvisited + visited == customers.Keys && unvisited !! visited
        invariant counted == set c | c in visited && !Idle(customers[c])
        invariant n == |counted|
        decreases |unvisited|
      {
        var c :| c in unvisited;
        if !Idle(customers[c]) {
          counted := counted + {c};
          n := n + 1;
        }
        unvisited := unvisited - {c};
        visited := visited + {c};
      }
      assert visited == customers.Keys;
    }
  }
}
