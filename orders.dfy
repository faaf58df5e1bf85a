/**
 * One customer's ledger (Order.java): how many teas and coffees of the customer are
 * in each of the three areas of the cafe. The cafe keeps these counters equal to the
 * items it holds (see Cafe.VirtualCafe.Valid).
 */
module Orders {

  /** The six counters of a ledger at one moment. */
  datatype Counters = Counters(
    teasWaiting: int, coffeesWaiting: int,
    teasBrewing: int, coffeesBrewing: int,
    teasReady: int, coffeesReady: int)

  const NoItems := Counters(0, 0, 0, 0, 0, 0)

  /** The number of the customer's items in all three areas (getTotalItems). */
  function Total(c: Counters): int
  {
    c.teasWaiting + c.coffeesWaiting + c.teasBrewing + c.coffeesBrewing + c.teasReady + c.coffeesReady
  }

  /** isIdle: no order in progress, the six counters add up to zero. */
  function Idle(c: Counters): (idle: bool)
    ensures idle <==> Total(c) == 0
  {
    c.teasWaiting + c.coffeesWaiting + c.teasBrewing + c.coffeesBrewing + c.teasReady + c.coffeesReady == 0
  }

  /** isComplete: nothing waiting or brewing, and something on the tray. */
  function Complete(c: Counters): (complete: bool)
    ensures complete ==> !Idle(c)
    ensures complete ==> Total(c) == c.teasReady + c.coffeesReady
  {
    c.teasWaiting + c.coffeesWaiting + c.teasBrewing + c.coffeesBrewing == 0
    && c.teasReady + c.coffeesReady > 0
  }

  /** A new Order is idle and not complete. */
  lemma NoItemsIsIdle()
    ensures Idle(NoItems) && !Complete(NoItems) && Total(NoItems) == 0
  {
  }

  /** The counters the cafe keeps: none below zero. */
  predicate NonNegative(c: Counters)
  {
    c.teasWaiting >= 0 && c.coffeesWaiting >= 0 && c.teasBrewing >= 0
    && c.coffeesBrewing >= 0 && c.teasReady >= 0 && c.coffeesReady >= 0
  }

  /** With non-negative counters, idle means that every counter is zero. */
  lemma IdleMeansNoItems(c: Counters)
    requires NonNegative(c)
    ensures Idle(c) <==> c == NoItems
  {
  }

  /** With non-negative counters, complete means all items are ready and there is at least one. */
  lemma CompleteMeansAllReady(c: Counters)
    requires NonNegative(c)
    ensures Complete(c) <==>
      c.teasWaiting == 0 && c.coffeesWaiting == 0 && c.teasBrewing == 0 && c.coffeesBrewing == 0
      && c.teasReady + c.coffeesReady > 0
  {
  }

  class Order {
    const customerName: string
    var teasWaiting: int
    var coffeesWaiting: int
    var teasBrewing: int
    var coffeesBrewing: int
    var teasReady: int
    var coffeesReady: int
    /** Whether a client writer is bound (clientWriter != null); completion notices go there. */
    var hasWriter: bool

    function Snapshot(): Counters
      reads this
    {
      Counters(teasWaiting, coffeesWaiting, teasBrewing, coffeesBrewing, teasReady, coffeesReady)
    }

    constructor (name: string)
      ensures customerName == name
      ensures Snapshot() == NoItems && !hasWriter
    {
      customerName := name;
      teasWaiting, coffeesWaiting := 0, 0;
      teasBrewing, coffeesBrewing := 0, 0;
      teasReady, coffeesReady := 0, 0;
      hasWriter := false;
    }

    method SetTeasWaiting(n: int)
      modifies this
      ensures Snapshot() == old(Snapshot()).(teasWaiting := n)
      ensures hasWriter == old(hasWriter)
    {
      teasWaiting := n;
    }

    method SetCoffeesWaiting(n: int)
      modifies this
      ensures Snapshot() == old(Snapshot()).(coffeesWaiting := n)
      ensures hasWriter == old(hasWriter)
    {
      coffeesWaiting := n;
    }

    method SetTeasBrewing(n: int)
      modifies this
      ensures Snapshot() == old(Snapshot()).(teasBrewing := n)
      ensures hasWriter == old(hasWriter)
    {
      teasBrewing := n;
    }

    method SetCoffeesBrewing(n: int)
      modifies this
      ensures Snapshot() == old(Snapshot()).(coffeesBrewing := n)
      ensures hasWriter == old(hasWriter)
    {
      coffeesBrewing := n;
    }

    method SetTeasReady(n: int)
      modifies this
      ensures Snapshot() == old(Snapshot()).(teasReady := n)
      ensures hasWriter == old(hasWriter)
    {
      teasReady := n;
    }

    method SetCoffeesReady(n: int)
      modifies this
      ensures Snapshot() == old(Snapshot()).(coffeesReady := n)
      ensures hasWriter == old(hasWriter)
    {
      coffeesReady := n;
    }

    /** Binds a client writer (setClientWriter with a non-null writer). */
    method SetClientWriter()
      modifies this
      ensures hasWriter
      ensures Snapshot() == old(Snapshot())
    {
      hasWriter := true;
    }

    /** getTotalItems */
    function TotalItems(): (total: int)
      reads this
      ensures NonNegative(Snapshot()) ==> total >= 0
      ensures NonNegative(Snapshot()) ==> (total == 0 <==> Snapshot() == NoItems)
    {
      Total(Snapshot())
    }

    /** isIdle */
    function IsIdle(): (idle: bool)
      reads this
      ensures idle <==> TotalItems() == 0
    {
      Idle(Snapshot())
    }

    /** isComplete */
    function IsComplete(): (complete: bool)
      reads this
      ensures complete ==> !IsIdle()
    {
      Complete(Snapshot())
    }
  }
}
