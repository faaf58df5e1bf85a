/**
 * What VirtualCafe.java does, as a value and its transitions. `CafeState` is the
 * whole shared state of the cafe at one moment; each public (synchronized) method,
 * and the brewing callback, is a function from one state to the next. `Inv` is what
 * the cafe keeps true between steps: every ledger agrees with the items in the
 * areas, and the brewing counters respect the capacity of two per kind.
 * The class Cafe.VirtualCafe is proved to perform exactly these transitions.
 */
module CafeSpec {
  import opened Wrappers
  import opened Items
  import opened Orders
  import opened Areas

  datatype CafeError =
    | CustomerNotFound(name: string)  // "Customer not found: <name>"
    | NegativeQuantity                // "Order quantities must be non-negative."
    | OrderPending                    // "Order is still pending"

  /** "Order completed for <name> (<teas> teas and <coffees> coffees). Please collect!" */
  datatype Notice = Notice(customerName: string, teas: int, coffees: int)

  /** One line of the status text: "  - <coffees> coffee and <teas> teas ..." */
  datatype Line = Line(coffees: int, teas: int)

  /** The text of getOrderStatus: "No order found for <name>", or one optional line per area. */
  datatype Status =
    | NoOrderFound
    | Breakdown(waiting: Option<Line>, brewing: Option<Line>, tray: Option<Line>)

  /** The text of collectOrder: "No order found for <name>", or the collected counts. */
  datatype Collection = NothingToCollect | Collected(teas: int, coffees: int)

  /**
   * The cafe at one moment. `ledgers` holds the counters of each connected customer's
   * Order and `writers` the customers whose Order has a client writer bound.
   * `inFlight` holds the items whose brewing thread is running, and `notices` every
   * completion message written so far; neither is a field of the source.
   */
  datatype CafeState = CafeState(
    waiting: seq<OrderItem>,
    brewing: seq<OrderItem>,
    tray: map<string, seq<OrderItem>>,
    ledgers: map<string, Counters>,
    writers: set<string>,
    brewingTeas: int,
    brewingCoffees: int,
    nextId: nat,
    inFlight: multiset<OrderItem>,
    notices: seq<Notice>)

  /** The cafe when the server starts. */
  const Opening := CafeState([], [], map[], map[], {}, 0, 0, 0, multiset{}, [])

  /** The items on `name`'s tray (none when the tray has no entry). */
  function TrayOf(s: CafeState, name: string): seq<OrderItem>
  {
    if name in s.tray then s.tray[name] else []
  }

  /** What `name`'s ledger should read: the numbers of `name`'s items in each area. */
  function Tally(s: CafeState, name: string): Counters
  {
    Counters(
      CountOf(s.waiting, name, Tea), CountOf(s.waiting, name, Coffee),
      CountOf(s.brewing, name, Tea), CountOf(s.brewing, name, Coffee),
      CountOf(TrayOf(s, name), name, Tea), CountOf(TrayOf(s, name), name, Coffee))
  }

  /** Every item in an area belongs to a connected customer; a tray holds only its owner's items. */
  ghost predicate Placed(s: CafeState)
  {
    && (forall x | x in s.waiting :: x.customerName in s.ledgers)
    && (forall x | x in s.brewing :: x.customerName in s.ledgers)
    && s.tray.Keys <= s.ledgers.Keys
    && (forall name, x | name in s.tray && x in s.tray[name] :: x.customerName == name)
    && s.writers <= s.ledgers.Keys
  }

  /**
   * The brewing counters: each is at most the capacity of its kind and at least the
   * number of items of that kind in the brewing area, and every brewing item has a
   * running thread.
   */
  ghost predicate WithinCapacity(s: CafeState)
  {
    && multiset(s.brewing) <= s.inFlight
    && CountKind(s.brewing, Tea) <= s.brewingTeas <= MaxBrewingTeas
    && CountKind(s.brewing, Coffee) <= s.brewingCoffees <= MaxBrewingCoffees
  }

  /** Every connected customer's ledger reads what the areas hold for them. */
  ghost predicate Agrees(s: CafeState)
  {
    forall name | name in s.ledgers :: s.ledgers[name] == Tally(s, name)
  }

  /**
   * Every item the cafe holds, in an area or with a running thread, was numbered
   * before `nextId`, so the items placeOrder creates next are new.
   */
  ghost predicate Fresh(s: CafeState)
  {
    && (forall x | x in s.waiting :: x.id < s.nextId)
    && (forall x | x in s.brewing :: x.id < s.nextId)
    && (forall x | x in s.inFlight :: x.id < s.nextId)
    && (forall name, x | name in s.tray && x in s.tray[name] :: x.id < s.nextId)
  }

  /** What the cafe keeps true between any two steps. */
  ghost predicate Inv(s: CafeState)
  {
    Placed(s) && WithinCapacity(s) && Agrees(s) && Fresh(s)
  }

  lemma OpeningIsValid()
    ensures Inv(Opening)
  {
  }

  // ---------------------------------------------------------------------------
  // Connections

  /** customerConnected: a new customer gets an empty Order; a known one keeps theirs. */
  function Connect(s: CafeState, name: string): (t: CafeState)
    ensures t.ledgers.Keys == s.ledgers.Keys + {name}
    ensures forall c | c in s.ledgers :: t.ledgers[c] == s.ledgers[c]
    ensures t.(ledgers := s.ledgers) == s
  {
    if name in s.ledgers then s else s.(ledgers := s.ledgers[name := NoItems])
  }

  /** customerDisconnected: forget the customer and every item of theirs, in every area. */
  function Disconnect(s: CafeState, name: string): (t: CafeState)
    ensures t.ledgers.Keys == s.ledgers.Keys - {name}
    ensures forall x | x in t.waiting :: x in s.waiting && x.customerName != name
    ensures forall x | x in t.brewing :: x in s.brewing && x.customerName != name
  {
    s.(ledgers := s.ledgers - {name}, writers := s.writers - {name},
       waiting := Without(s.waiting, name), brewing := Without(s.brewing, name),
       tray := s.tray - {name})
  }

  /** setClientWriter: bind a writer to a connected customer's Order; ignored otherwise. */
  function BindWriter(s: CafeState, name: string): (t: CafeState)
    ensures t.ledgers == s.ledgers && s.writers <= t.writers
    ensures name in t.writers <==> name in s.writers || name in s.ledgers
    ensures t.writers - {name} == s.writers - {name}
  {
    if name in s.ledgers then s.(writers := s.writers + {name}) else s
  }

  lemma ConnectKeepsInv(s: CafeState, name: string)
    requires Inv(s)
    ensures Inv(Connect(s, name))
  {
    var s' := Connect(s, name);
    if name !in s.ledgers {
      CountOfAbsent(s.waiting, name);
      CountOfAbsent(s.brewing, name);
      assert TrayOf(s', name) == [];
      assert s'.ledgers[name] == Tally(s', name);
    }
  }

  /** Connecting twice is connecting once; a customer who was not known starts idle. */
  lemma ConnectIsIdempotent(s: CafeState, name: string)
    ensures Connect(Connect(s, name), name) == Connect(s, name)
    ensures name in Connect(s, name).ledgers
    ensures name !in s.ledgers ==> Idle(Connect(s, name).ledgers[name])
  {
  }

  lemma DisconnectKeepsInv(s: CafeState, name: string)
    requires Inv(s)
    ensures Inv(Disconnect(s, name))
  {
    var s' := Disconnect(s, name);
    WithoutShrinks(s.brewing, name);
    WithoutShrinksKinds(s.brewing, name, Tea);
    WithoutShrinksKinds(s.brewing, name, Coffee);
    assert Placed(s');
    assert WithinCapacity(s');
    DisconnectKeepsAgreement(s, name);
  }

  lemma DisconnectKeepsAgreement(s: CafeState, name: string)
    requires Agrees(s)
    ensures Agrees(Disconnect(s, name))
  {
    var s' := Disconnect(s, name);
    WithoutKeepsOthers(s.waiting, name);
    WithoutKeepsOthers(s.brewing, name);
    forall c | c in s'.ledgers
      ensures s'.ledgers[c] == Tally(s', c)
    {
      assert TrayOf(s', c) == TrayOf(s, c);
    }
  }

  /**
   * Disconnecting purges the customer from every area, keeps everyone else's items
   * in their order, and leaves both brewing counters as they were: a slot held by one
   * of the purged brewing items stays taken. Every other customer keeps their ledger,
   * their tray and their writer.
   */
  lemma {:induction false} DisconnectPurges(s: CafeState, name: string)
    ensures var s' := Disconnect(s, name);
      && name !in s'.ledgers && name !in s'.tray && name !in s'.writers
      && (forall x | x in s'.waiting + s'.brewing :: x.customerName != name)
      && (forall x | x in s.waiting && x.customerName != name :: x in s'.waiting)
      && (forall x | x in s.brewing && x.customerName != name :: x in s'.brewing)
      && s'.brewingTeas == s.brewingTeas && s'.brewingCoffees == s.brewingCoffees
      && s'.inFlight == s.inFlight && s'.nextId == s.nextId && s'.notices == s.notices
      && (forall c | c in s.ledgers && c != name ::
            c in s'.ledgers && s'.ledgers[c] == s.ledgers[c] && TrayOf(s', c) == TrayOf(s, c)
            && (c in s'.writers <==> c in s.writers))
  {
    WithoutKeepsOthers(s.waiting, name);
    WithoutKeepsOthers(s.brewing, name);
  }

  /** Disconnecting a customer twice is disconnecting once. */
  lemma DisconnectIsIdempotent(s: CafeState, name: string)
    ensures Disconnect(Disconnect(s, name), name) == Disconnect(s, name)
  {
    var once := Disconnect(s, name);
    WithoutIsIdempotent(s.waiting, name);
    WithoutIsIdempotent(s.brewing, name);
    assert once.ledgers - {name} == once.ledgers;
    assert once.writers - {name} == once.writers;
    assert once.tray - {name} == once.tray;
  }

  // ---------------------------------------------------------------------------
  // Placing an order and admitting items to brewing

  /** Lines 91-101 of placeOrder: raise the waiting counters, then queue the teas and then the coffees. */
  function Enqueue(s: CafeState, name: string, teas: nat, coffees: nat): (t: CafeState)
    requires name in s.ledgers
    ensures |t.waiting| == |s.waiting| + teas + coffees && t.waiting[..|s.waiting|] == s.waiting
    ensures t.nextId == s.nextId + teas + coffees
    ensures name in t.ledgers && Total(t.ledgers[name]) == Total(s.ledgers[name]) + teas + coffees
  {
    var l := s.ledgers[name];
    s.(ledgers := s.ledgers[name := l.(teasWaiting := l.teasWaiting + teas,
                                       coffeesWaiting := l.coffeesWaiting + coffees)],
       waiting := s.waiting + Batch(s.nextId, name, Tea, teas) + Batch(s.nextId + teas, name, Coffee, coffees),
       nextId := s.nextId + teas + coffees)
  }

  /** The ledger change for one item moving from waiting to brewing. */
  function ToBrewing(c: Counters, t: ItemType): Counters
  {
    if t == Tea then c.(teasWaiting := c.teasWaiting - 1, teasBrewing := c.teasBrewing + 1)
    else c.(coffeesWaiting := c.coffeesWaiting - 1, coffeesBrewing := c.coffeesBrewing + 1)
  }

  /** The ledgers after each item of `items`, in turn, moved from waiting to brewing. */
  function ShiftAll(ledgers: map<string, Counters>, items: seq<OrderItem>): map<string, Counters>
    decreases |items|
  {
    if items == [] then ledgers
    else
      var m := ShiftAll(ledgers, items[..|items| - 1]);
      var x := items[|items| - 1];
      if x.customerName in m then m[x.customerName := ToBrewing(m[x.customerName], x.itemType)] else m
  }

  /**
   * The state part way through an admission pass that started in `s`: `admitted`
   * have moved to brewing, `kept` were passed over, `rest` is still to be looked at.
   */
  function Admitting(s: CafeState, admitted: seq<OrderItem>, kept: seq<OrderItem>, rest: seq<OrderItem>): CafeState
  {
    s.(waiting := kept + rest, brewing := s.brewing + admitted,
       ledgers := ShiftAll(s.ledgers, admitted),
       brewingTeas := s.brewingTeas + CountKind(admitted, Tea),
       brewingCoffees := s.brewingCoffees + CountKind(admitted, Coffee),
       inFlight := s.inFlight + multiset(admitted))
  }

  /**
   * Lines 206-215 (and 219-228 for a coffee) of startBrewingIfCapacityAvailable: one
   * waiting item starts brewing, and `rest` is what the waiting area holds afterwards.
   */
  function AdmitOne(s: CafeState, item: OrderItem, rest: seq<OrderItem>): (t: CafeState)
    ensures t.brewingTeas + t.brewingCoffees == s.brewingTeas + s.brewingCoffees + 1
    ensures item.customerName in s.ledgers ==>
      item.customerName in t.ledgers && Total(t.ledgers[item.customerName]) == Total(s.ledgers[item.customerName])
    ensures t.ledgers.Keys == s.ledgers.Keys && t.tray == s.tray && item in t.inFlight
  {
    var name := item.customerName;
    assert item.itemType == Tea || item.itemType == Coffee;
    assert name in s.ledgers ==> Total(ToBrewing(s.ledgers[name], item.itemType)) == Total(s.ledgers[name]);
    s.(waiting := rest, brewing := s.brewing + [item],
       ledgers := if name in s.ledgers then s.ledgers[name := ToBrewing(s.ledgers[name], item.itemType)] else s.ledgers,
       brewingTeas := if item.itemType == Tea then s.brewingTeas + 1 else s.brewingTeas,
       brewingCoffees := if item.itemType == Coffee then s.brewingCoffees + 1 else s.brewingCoffees,
       inFlight := s.inFlight + multiset{item})
  }

  /** Admitting the next item of the pass, one at a time, is the pass with one more item admitted. */
  lemma AdmitOneStep(s: CafeState, admitted: seq<OrderItem>, kept: seq<OrderItem>, item: OrderItem, rest: seq<OrderItem>)
    ensures AdmitOne(Admitting(s, admitted, kept, [item] + rest), item, kept + rest)
            == Admitting(s, admitted + [item], kept, rest)
  {
    var grown := admitted + [item];
    assert grown[..|grown| - 1] == admitted;
    CountConcat(admitted, [item]);
    CountSingle(item);
    assert s.brewing + admitted + [item] == s.brewing + grown;
  }

  /** Passing over the next item of the pass moves it to the kept items. */
  lemma KeepOneStep(s: CafeState, admitted: seq<OrderItem>, kept: seq<OrderItem>, item: OrderItem, rest: seq<OrderItem>)
    ensures Admitting(s, admitted, kept, [item] + rest) == Admitting(s, admitted, kept + [item], rest)
  {
    assert kept + ([item] + rest) == (kept + [item]) + rest;
  }

  /** Whether the admission pass, in state `t`, starts brewing `item`: its kind has a free slot. */
  predicate Admits(t: CafeState, item: OrderItem)
  {
    || (item.itemType == Tea && t.brewingTeas < MaxBrewingTeas)
    || (item.itemType == Coffee && t.brewingCoffees < MaxBrewingCoffees)
  }

  /**
   * `t` is the state of an admission pass over `w` that started in `s0` and has looked
   * at the first `i` items: `admitted` have moved to brewing and `kept` were passed
   * over, as the scan of the whole of `w` decides.
   */
  ghost predicate Passing(s0: CafeState, w: seq<OrderItem>, i: nat, admitted: seq<OrderItem>, kept: seq<OrderItem>, t: CafeState)
  {
    && i <= |w|
    && t == Admitting(s0, admitted, kept, w[i..])
    && Scan(w, s0.brewingTeas, s0.brewingCoffees) == Resume(w[i..], t.brewingTeas, t.brewingCoffees, admitted, kept)
  }

  /** One iteration of the pass: item `w[i]` starts brewing if `Admits` says so, else it stays. */
  lemma PassStep(s0: CafeState, w: seq<OrderItem>, i: nat, admitted: seq<OrderItem>, kept: seq<OrderItem>, t: CafeState)
    requires i < |w| && Passing(s0, w, i, admitted, kept, t)
    ensures Admits(t, w[i]) ==> Passing(s0, w, i + 1, admitted + [w[i]], kept, AdmitOne(t, w[i], kept + w[i + 1..]))
    ensures !Admits(t, w[i]) ==> Passing(s0, w, i + 1, admitted, kept + [w[i]], t)
  {
    ResumeStep(w, i, t.brewingTeas, t.brewingCoffees, admitted, kept);
    assert w[i..] == [w[i]] + w[i + 1..];
    if Admits(t, w[i]) {
      PassAdmits(s0, w, i, admitted, kept, t);
    } else {
      KeepOneStep(s0, admitted, kept, w[i], w[i + 1..]);
    }
  }

  lemma PassAdmits(s0: CafeState, w: seq<OrderItem>, i: nat, admitted: seq<OrderItem>, kept: seq<OrderItem>, t: CafeState)
    requires i < |w| && t == Admitting(s0, admitted, kept, [w[i]] + w[i + 1..]) && Admits(t, w[i])
    requires Scan(w, s0.brewingTeas, s0.brewingCoffees)
             == Resume(w[i + 1..], AdmitOne(t, w[i], kept + w[i + 1..]).brewingTeas,
                       AdmitOne(t, w[i], kept + w[i + 1..]).brewingCoffees, admitted + [w[i]], kept)
    ensures Passing(s0, w, i + 1, admitted + [w[i]], kept, AdmitOne(t, w[i], kept + w[i + 1..]))
  {
    AdmitOneStep(s0, admitted, kept, w[i], w[i + 1..]);
  }

  /** A pass over the whole waiting area of `s0` ends in the state `Admit` describes. */
  lemma PassEnd(s0: CafeState, admitted: seq<OrderItem>, kept: seq<OrderItem>, t: CafeState)
    requires Passing(s0, s0.waiting, |s0.waiting|, admitted, kept, t)
    ensures t == Admit(s0)
  {
    assert s0.waiting[|s0.waiting|..] == [];
    assert admitted + [] == admitted && kept + [] == kept;
  }

  /** startBrewingIfCapacityAvailable: one pass over the waiting area, as Scan decides it. */
  function Admit(s: CafeState): CafeState
  {
    var r := Scan(s.waiting, s.brewingTeas, s.brewingCoffees);
    Admitting(s, r.admitted, r.kept, [])
  }

  /** placeOrder: the two errors are checked before anything changes. */
  function PlaceOrder(s: CafeState, name: string, teas: int, coffees: int): (r: (CafeState, Result<(), CafeError>))
    ensures r.1.Failure? ==> r.0 == s
    ensures r.1.Success? ==> r.0.nextId == s.nextId + teas + coffees && r.0.ledgers.Keys == s.ledgers.Keys
  {
    if name !in s.ledgers then (s, Failure(CustomerNotFound(name)))
    else if teas < 0 || coffees < 0 then (s, Failure(NegativeQuantity))
    else
      AdmitFrame(Enqueue(s, name, teas, coffees));
      (Admit(Enqueue(s, name, teas, coffees)), Success(()))
  }

  /** Ledger `l` of customer `c` once `c`'s items among `items` have moved from waiting to brewing. */
  function Shifted(l: Counters, items: seq<OrderItem>, c: string): Counters
  {
    l.(teasWaiting := l.teasWaiting - CountOf(items, c, Tea),
       coffeesWaiting := l.coffeesWaiting - CountOf(items, c, Coffee),
       teasBrewing := l.teasBrewing + CountOf(items, c, Tea),
       coffeesBrewing := l.coffeesBrewing + CountOf(items, c, Coffee))
  }

  lemma {:induction false} ShiftAllKeys(ledgers: map<string, Counters>, items: seq<OrderItem>)
    ensures ShiftAll(ledgers, items).Keys == ledgers.Keys
  {
    if items != [] {
      ShiftAllKeys(ledgers, items[..|items| - 1]);
    }
  }

  /** ShiftAll moves each customer's counters by exactly that customer's items. */
  lemma {:induction false} ShiftAllCounts(ledgers: map<string, Counters>, items: seq<OrderItem>, c: string)
    requires c in ledgers
    ensures c in ShiftAll(ledgers, items)
    ensures ShiftAll(ledgers, items)[c] == Shifted(ledgers[c], items, c)
  {
    ShiftAllKeys(ledgers, items);
    if items != [] {
      var front := items[..|items| - 1];
      var x := items[|items| - 1];
      assert items == front + [x];
      ShiftAllKeys(ledgers, front);
      ShiftAllCounts(ledgers, front, c);
      CountConcat(front, [x]);
      CountSingle(x);
    }
  }

  /** Moving items from waiting to brewing changes neither whether an order is idle or complete, nor its ready counts. */
  lemma ShiftAllKeepsCompleteness(ledgers: map<string, Counters>, items: seq<OrderItem>, c: string)
    requires c in ledgers
    ensures c in ShiftAll(ledgers, items)
    ensures Complete(ShiftAll(ledgers, items)[c]) == Complete(ledgers[c])
    ensures Idle(ShiftAll(ledgers, items)[c]) == Idle(ledgers[c])
    ensures ShiftAll(ledgers, items)[c].teasReady == ledgers[c].teasReady
    ensures ShiftAll(ledgers, items)[c].coffeesReady == ledgers[c].coffeesReady
  {
    ShiftAllCounts(ledgers, items, c);
  }

  lemma {:induction false} EnqueueKeepsInv(s: CafeState, name: string, teas: nat, coffees: nat)
    requires Inv(s) && name in s.ledgers
    ensures Inv(Enqueue(s, name, teas, coffees))
  {
    var s' := Enqueue(s, name, teas, coffees);
    var bt := Batch(s.nextId, name, Tea, teas);
    var bc := Batch(s.nextId + teas, name, Coffee, coffees);
    assert Placed(s') by {
      assert s'.waiting == s.waiting + (bt + bc);
      assert forall x: OrderItem | x in bt + bc :: x.customerName == name;
    }
    assert WithinCapacity(s');
    EnqueueItemsAreNew(s, name, teas, coffees);
    EnqueueKeepsAgreement(s, name, teas, coffees);
  }

  lemma {:induction false} EnqueueKeepsAgreement(s: CafeState, name: string, teas: nat, coffees: nat)
    requires Agrees(s) && name in s.ledgers
    ensures Agrees(Enqueue(s, name, teas, coffees))
  {
    var s' := Enqueue(s, name, teas, coffees);
    var bt := Batch(s.nextId, name, Tea, teas);
    var bc := Batch(s.nextId + teas, name, Coffee, coffees);
    BatchCounts(s.nextId, name, Tea, teas);
    BatchCounts(s.nextId + teas, name, Coffee, coffees);
    CountConcat(s.waiting, bt);
    CountConcat(s.waiting + bt, bc);
    forall c | c in s'.ledgers
      ensures s'.ledgers[c] == Tally(s', c)
    {
      assert TrayOf(s', c) == TrayOf(s, c);
    }
  }

  /**
   * A successful placeOrder raises the waiting counters by exactly the ordered
   * numbers, and appends to the tail of the queue the teas first, then the coffees,
   * numbered on from `nextId`. Nothing else in the cafe changes. (That the numbers are
   * new is EnqueueItemsAreNew; the admission pass that follows is AdmitRespectsCapacity.)
   */
  lemma EnqueueAppends(s: CafeState, name: string, teas: nat, coffees: nat)
    requires name in s.ledgers
    ensures var s' := Enqueue(s, name, teas, coffees);
      && |s'.waiting| == |s.waiting| + teas + coffees
      && s'.waiting[..|s.waiting|] == s.waiting
      && (forall k | |s.waiting| <= k < |s'.waiting| ::
            s'.waiting[k].customerName == name && s'.waiting[k].id == s.nextId + (k - |s.waiting|)
            && s'.waiting[k].itemType == if k < |s.waiting| + teas then Tea else Coffee)
      && s'.nextId == s.nextId + teas + coffees
      && s'.ledgers.Keys == s.ledgers.Keys
      && s'.ledgers[name] == s.ledgers[name].(teasWaiting := s.ledgers[name].teasWaiting + teas,
                                               coffeesWaiting := s.ledgers[name].coffeesWaiting + coffees)
      && (forall c | c in s.ledgers && c != name :: s'.ledgers[c] == s.ledgers[c])
      && s'.brewing == s.brewing && s'.tray == s.tray && s'.writers == s.writers
      && s'.brewingTeas == s.brewingTeas && s'.brewingCoffees == s.brewingCoffees
      && s'.inFlight == s.inFlight && s'.notices == s.notices
  {
    var s' := Enqueue(s, name, teas, coffees);
    var bt := Batch(s.nextId, name, Tea, teas);
    var bc := Batch(s.nextId + teas, name, Coffee, coffees);
    assert s'.waiting == s.waiting + (bt + bc);
  }

  /**
   * The items an order queues are new: none of them is already waiting, brewing,
   * running a brewing thread or on a tray, and the cafe stays fresh.
   */
  lemma EnqueueItemsAreNew(s: CafeState, name: string, teas: nat, coffees: nat)
    requires Fresh(s) && name in s.ledgers
    ensures var s' := Enqueue(s, name, teas, coffees);
      && Fresh(s')
      && forall k | |s.waiting| <= k < |s'.waiting| ::
           && s'.waiting[k] !in s.waiting && s'.waiting[k] !in s.brewing && s'.waiting[k] !in s.inFlight
           && forall c | c in s.tray :: s'.waiting[k] !in s.tray[c]
  {
    var s' := Enqueue(s, name, teas, coffees);
    EnqueueAppends(s, name, teas, coffees);
    forall k | |s.waiting| <= k < |s'.waiting|
      ensures s'.waiting[k].id >= s.nextId
    {
    }
  }

  /** Every waiting item still belongs to a connected customer once an order is queued. */
  lemma EnqueueKeepsOwners(s: CafeState, name: string, teas: nat, coffees: nat)
    requires name in s.ledgers
    requires forall x | x in s.waiting :: x.customerName in s.ledgers
    ensures var s' := Enqueue(s, name, teas, coffees);
      forall x | x in s'.waiting :: x.customerName in s'.ledgers
  {
    var bt := Batch(s.nextId, name, Tea, teas);
    var bc := Batch(s.nextId + teas, name, Coffee, coffees);
    assert forall x: OrderItem | x in bt + bc :: x.customerName == name;
  }

  /** The errors of placeOrder change nothing, and the unknown customer is reported first. */
  lemma PlaceOrderErrors(s: CafeState, name: string, teas: int, coffees: int)
    ensures var (s', r) := PlaceOrder(s, name, teas, coffees);
      && (r.Failure? ==> s' == s)
      && (r == Failure(CustomerNotFound(name)) <==> name !in s.ledgers)
      && (r == Failure(NegativeQuantity) <==> name in s.ledgers && (teas < 0 || coffees < 0))
      && (r.Success? <==> name in s.ledgers && teas >= 0 && coffees >= 0)
  {
  }

  lemma {:induction false} AdmitKeepsPlaced(s: CafeState)
    requires Placed(s)
    ensures Placed(Admit(s))
  {
    var r := Scan(s.waiting, s.brewingTeas, s.brewingCoffees);
    ScanInterleaves(s.waiting, s.brewingTeas, s.brewingCoffees);
    InterleavingItems(s.waiting, r.admitted, r.kept);
    assert forall x | x in r.admitted :: x in multiset(s.waiting);
    assert forall x | x in r.kept :: x in multiset(s.waiting);
    ShiftAllKeys(s.ledgers, r.admitted);
    assert Admit(s).waiting == r.kept;
  }

  lemma {:induction false} AdmitKeepsCapacity(s: CafeState)
    requires WithinCapacity(s)
    ensures WithinCapacity(Admit(s))
  {
    var r := Scan(s.waiting, s.brewingTeas, s.brewingCoffees);
    ScanRespectsCapacity(s.waiting, s.brewingTeas, s.brewingCoffees);
    CountConcat(s.brewing, r.admitted);
  }

  lemma {:induction false} AdmitKeepsAgreement(s: CafeState)
    requires Agrees(s)
    ensures Agrees(Admit(s))
  {
    var r := Scan(s.waiting, s.brewingTeas, s.brewingCoffees);
    ShiftAllKeys(s.ledgers, r.admitted);
    forall c | c in Admit(s).ledgers
      ensures Admit(s).ledgers[c] == Tally(Admit(s), c)
    {
      AdmitKeepsTally(s, c);
    }
  }

  /** The admission pass keeps one customer's ledger in step with the areas. */
  lemma AdmitKeepsTally(s: CafeState, c: string)
    requires c in s.ledgers && s.ledgers[c] == Tally(s, c)
    ensures c in Admit(s).ledgers && Admit(s).ledgers[c] == Tally(Admit(s), c)
  {
    var r := Scan(s.waiting, s.brewingTeas, s.brewingCoffees);
    var s' := Admit(s);
    ScanInterleaves(s.waiting, s.brewingTeas, s.brewingCoffees);
    InterleavingCounts(s.waiting, r.admitted, r.kept);
    CountConcat(s.brewing, r.admitted);
    ShiftAllCounts(s.ledgers, r.admitted, c);
    assert s'.waiting == r.kept;
    assert TrayOf(s', c) == TrayOf(s, c);
  }

  lemma AdmitKeepsInv(s: CafeState)
    requires Inv(s)
    ensures Inv(Admit(s))
  {
    AdmitKeepsPlaced(s);
    AdmitKeepsCapacity(s);
    AdmitKeepsAgreement(s);
    AdmitKeepsFresh(s);
  }

  /** The admission pass only moves items the cafe already held. */
  lemma AdmitKeepsFresh(s: CafeState)
    requires Fresh(s)
    ensures Fresh(Admit(s))
  {
    var r := Scan(s.waiting, s.brewingTeas, s.brewingCoffees);
    ScanInterleaves(s.waiting, s.brewingTeas, s.brewingCoffees);
    InterleavingItems(s.waiting, r.admitted, r.kept);
    assert forall x | x in r.admitted :: x in multiset(s.waiting);
    assert forall x | x in r.kept :: x in multiset(s.waiting);
  }

  /**
   * The admission pass fills each kind up to its capacity and no further: afterwards
   * both counters are within capacity, and a kind still has items waiting only if it
   * is at capacity. A second pass would admit nothing.
   */
  lemma AdmitRespectsCapacity(s: CafeState)
    requires s.brewingTeas <= MaxBrewingTeas && s.brewingCoffees <= MaxBrewingCoffees
    ensures var s' := Admit(s);
      && s'.brewingTeas <= MaxBrewingTeas && s'.brewingCoffees <= MaxBrewingCoffees
      && (CountKind(s'.waiting, Tea) == 0 || s'.brewingTeas == MaxBrewingTeas)
      && (CountKind(s'.waiting, Coffee) == 0 || s'.brewingCoffees == MaxBrewingCoffees)
  {
    var r := Scan(s.waiting, s.brewingTeas, s.brewingCoffees);
    ScanRespectsCapacity(s.waiting, s.brewingTeas, s.brewingCoffees);
    assert Admit(s).waiting == r.kept;
  }

  /** One pass is enough: a second admission pass straight after the first changes nothing. */
  lemma AdmitIsIdempotent(s: CafeState)
    requires s.brewingTeas <= MaxBrewingTeas && s.brewingCoffees <= MaxBrewingCoffees
    ensures Admit(Admit(s)) == Admit(s)
  {
    ScanIsSaturating(s.waiting, s.brewingTeas, s.brewingCoffees);
    AdmitLeaves(s);
    AdmitNothing(Admit(s));
  }

  /**
   * The admission pass only moves items from the waiting area to the brewing area:
   * no item is lost or added, the same customers stay connected, and trays, writers,
   * notices and the id counter are untouched.
   */
  lemma AdmitFrame(s: CafeState)
    ensures var t := Admit(s);
      && |t.waiting| + |t.brewing| == |s.waiting| + |s.brewing|
      && multiset(t.waiting) + multiset(t.brewing) == multiset(s.waiting) + multiset(s.brewing)
      && t.ledgers.Keys == s.ledgers.Keys
      && t.tray == s.tray && t.writers == s.writers && t.notices == s.notices && t.nextId == s.nextId
  {
    var r := Scan(s.waiting, s.brewingTeas, s.brewingCoffees);
    ShiftAllKeys(s.ledgers, r.admitted);
    ScanInterleaves(s.waiting, s.brewingTeas, s.brewingCoffees);
    InterleavingItems(s.waiting, r.admitted, r.kept);
    assert r.kept + [] == r.kept;
    var t := Admit(s);
    assert |multiset(t.waiting) + multiset(t.brewing)| == |t.waiting| + |t.brewing|;
    assert |multiset(s.waiting) + multiset(s.brewing)| == |s.waiting| + |s.brewing|;
  }

  /** What the admission pass leaves waiting, and the counters it ends with. */
  lemma AdmitLeaves(s: CafeState)
    ensures var r := Scan(s.waiting, s.brewingTeas, s.brewingCoffees);
      && Admit(s).waiting == r.kept
      && Admit(s).brewingTeas == s.brewingTeas + CountKind(r.admitted, Tea)
      && Admit(s).brewingCoffees == s.brewingCoffees + CountKind(r.admitted, Coffee)
  {
    var r := Scan(s.waiting, s.brewingTeas, s.brewingCoffees);
    assert r.kept + [] == r.kept;
  }

  /** A pass that finds nothing to admit leaves the state as it is. */
  lemma AdmitNothing(t: CafeState)
    requires Scan(t.waiting, t.brewingTeas, t.brewingCoffees) == Admission([], t.waiting)
    ensures Admit(t) == t
  {
    assert ShiftAll(t.ledgers, []) == t.ledgers;
    assert t.brewing + [] == t.brewing;
    assert t.waiting + [] == t.waiting;
  }

  /**
   * First come, first served within a kind: the pass moves to brewing, in queue
   * order, the earliest waiting items of each kind, and the items it passes over stay
   * in their order. Nothing is lost: the moved items and the items left make up the
   * old queue.
   */
  lemma AdmitIsFifoPerKind(s: CafeState, t: ItemType)
    ensures var s' := Admit(s);
      && |s'.brewing| >= |s.brewing| && s'.brewing[..|s.brewing|] == s.brewing
      && OfKind(s'.brewing[|s.brewing|..], t) + OfKind(s'.waiting, t) == OfKind(s.waiting, t)
      && Interleaving(s.waiting, s'.brewing[|s.brewing|..], s'.waiting)
  {
    var r := Scan(s.waiting, s.brewingTeas, s.brewingCoffees);
    var s' := Admit(s);
    assert s'.brewing[|s.brewing|..] == r.admitted;
    assert s'.waiting == r.kept;
    ScanFifoPerKind(s.waiting, s.brewingTeas, s.brewingCoffees, t);
    ScanInterleaves(s.waiting, s.brewingTeas, s.brewingCoffees);
  }

  lemma PlaceOrderKeepsInv(s: CafeState, name: string, teas: int, coffees: int)
    requires Inv(s)
    ensures Inv(PlaceOrder(s, name, teas, coffees).0)
  {
    if name in s.ledgers && teas >= 0 && coffees >= 0 {
      EnqueueKeepsInv(s, name, teas, coffees);
      AdmitKeepsInv(Enqueue(s, name, teas, coffees));
    }
  }

  // ---------------------------------------------------------------------------
  // The end of a brewing thread

  /** The ledger change for one item moving from brewing to the tray. */
  function ToReady(c: Counters, t: ItemType): Counters
  {
    if t == Tea then c.(teasBrewing := c.teasBrewing - 1, teasReady := c.teasReady + 1)
    else c.(coffeesBrewing := c.coffeesBrewing - 1, coffeesReady := c.coffeesReady + 1)
  }

  /** Line 269 of finishBrewing: append `item` to `name`'s tray, creating the tray if it is absent. */
  function AddToTray(tray: map<string, seq<OrderItem>>, name: string, item: OrderItem): map<string, seq<OrderItem>>
  {
    tray[name := (if name in tray then tray[name] else []) + [item]]
  }

  /** Lines 256-269 of finishBrewing: the item goes from the brewing area to its owner's tray. */
  function Serve(s: CafeState, item: OrderItem): (t: CafeState)
    requires item.customerName in s.ledgers
    ensures t.brewingTeas == s.brewingTeas - (if item.itemType == Tea then 1 else 0)
    ensures t.brewingCoffees == s.brewingCoffees - (if item.itemType == Coffee then 1 else 0)
    ensures TrayOf(t, item.customerName) == TrayOf(s, item.customerName) + [item]
    ensures t.ledgers.Keys == s.ledgers.Keys
  {
    var name := item.customerName;
    s.(ledgers := s.ledgers[name := ToReady(s.ledgers[name], item.itemType)],
       brewingTeas := if item.itemType == Tea then s.brewingTeas - 1 else s.brewingTeas,
       brewingCoffees := if item.itemType == Coffee then s.brewingCoffees - 1 else s.brewingCoffees,
       brewing := RemoveFirst(s.brewing, item),
       tray := AddToTray(s.tray, name, item))
  }

  /** checkOrderCompletion: a complete order whose customer has a writer gets one notice. */
  function NotifyIfComplete(s: CafeState, name: string): (t: CafeState)
    requires name in s.ledgers
    ensures t == s.(notices := t.notices)
    ensures t.notices == s.notices || t.notices == s.notices + [Notice(name, s.ledgers[name].teasReady, s.ledgers[name].coffeesReady)]
    ensures t.notices != s.notices <==> Complete(s.ledgers[name]) && name in s.writers
  {
    var l := s.ledgers[name];
    if Complete(l) && name in s.writers then s.(notices := s.notices + [Notice(name, l.teasReady, l.coffeesReady)])
    else s
  }

  /**
   * finishBrewing(item), called when the item's brewing thread wakes up. The thread
   * ends in every case; if the owner has disconnected nothing else happens (and the
   * brewing slot the item held is not given back).
   */
  function FinishBrewing(s: CafeState, item: OrderItem): (t: CafeState)
    ensures t.ledgers.Keys == s.ledgers.Keys && t.writers == s.writers && t.nextId == s.nextId
    ensures item.customerName !in s.ledgers ==>
      t.brewing == s.brewing && t.brewingTeas == s.brewingTeas && t.brewingCoffees == s.brewingCoffees
  {
    var ended := s.(inFlight := s.inFlight - multiset{item});
    if item.customerName !in s.ledgers then ended
    else
      var n := NotifyIfComplete(Serve(ended, item), item.customerName);
      AdmitFrame(n);
      Admit(n)
  }

  /**
   * When the brewing callback of `item` can run: its thread is running, and if its
   * owner is connected the item is still in the brewing area. (The second part rules
   * out a customer who disconnects and reconnects under the same name while one of
   * their items brews.)
   */
  ghost predicate CanFinish(s: CafeState, item: OrderItem)
  {
    item in s.inFlight && (item.customerName in s.ledgers ==> item in s.brewing)
  }

  lemma ServeKeepsPlaced(s: CafeState, item: OrderItem)
    requires Placed(s) && item in s.brewing
    ensures item.customerName in s.ledgers
    ensures Placed(Serve(s, item))
  {
    var s' := Serve(s, item);
    RemoveFirstRemoves(s.brewing, item);
    assert forall x | x in s'.brewing :: x in multiset(s'.brewing);
  }

  lemma ServeKeepsCapacity(s: CafeState, item: OrderItem)
    requires WithinCapacity(s) && item in s.brewing && item.customerName in s.ledgers
    ensures WithinCapacity(Serve(s.(inFlight := s.inFlight - multiset{item}), item))
  {
    RemoveFirstCounts(s.brewing, item);
    RemoveFirstRemoves(s.brewing, item);
  }

  lemma {:induction false} ServeKeepsAgreement(s: CafeState, item: OrderItem)
    requires Agrees(s) && item in s.brewing && item.customerName in s.ledgers
    ensures Agrees(Serve(s, item))
  {
    var name := item.customerName;
    var s' := Serve(s, item);
    RemoveFirstCounts(s.brewing, item);
    CountConcat(TrayOf(s, name), [item]);
    CountSingle(item);
    forall c | c in s'.ledgers
      ensures s'.ledgers[c] == Tally(s', c)
    {
      if c == name {
        assert TrayOf(s', name) == TrayOf(s, name) + [item];
      } else {
        assert TrayOf(s', c) == TrayOf(s, c);
      }
    }
  }

  /** Serving moves an item that was brewing onto a tray; no new item appears. */
  lemma ServeKeepsFresh(s: CafeState, item: OrderItem)
    requires Fresh(s) && item.customerName in s.ledgers && item in s.brewing
    ensures Fresh(Serve(s, item))
  {
    var s' := Serve(s, item);
    RemoveFirstRemoves(s.brewing, item);
    forall x | x in s'.brewing
      ensures x.id < s'.nextId
    {
      assert x in multiset(s'.brewing);
      assert multiset(s'.brewing) <= multiset(s.brewing);
      assert x in s.brewing;
    }
    forall c, x | c in s'.tray && x in s'.tray[c]
      ensures x.id < s'.nextId
    {
      if c == item.customerName {
        assert s'.tray[c] == TrayOf(s, c) + [item];
      } else {
        assert s'.tray[c] == s.tray[c];
      }
    }
  }

  /**
   * Serving an item gives back the brewing slot it held: the counter of its kind
   * falls by one, one copy of the item leaves the brewing area, and in the owner's
   * ledger the item moves from brewing to ready. Nobody else's ledger or tray changes.
   */
  lemma ServeReleasesSlot(s: CafeState, item: OrderItem)
    requires item.customerName in s.ledgers
    ensures var t, name := Serve(s, item), item.customerName;
      && t.brewingTeas == s.brewingTeas - (if item.itemType == Tea then 1 else 0)
      && t.brewingCoffees == s.brewingCoffees - (if item.itemType == Coffee then 1 else 0)
      && multiset(t.brewing) == multiset(s.brewing) - multiset{item}
      && TrayOf(t, name) == TrayOf(s, name) + [item]
      && var l, l' := s.ledgers[name], t.ledgers[name];
      && Total(l') == Total(l)
      && l'.teasBrewing == l.teasBrewing - (if item.itemType == Tea then 1 else 0)
      && l'.coffeesBrewing == l.coffeesBrewing - (if item.itemType == Coffee then 1 else 0)
      && l'.teasReady == l.teasReady + (if item.itemType == Tea then 1 else 0)
      && l'.coffeesReady == l.coffeesReady + (if item.itemType == Coffee then 1 else 0)
    ensures var t := Serve(s, item);
      && (forall c | c in s.ledgers && c != item.customerName :: t.ledgers[c] == s.ledgers[c])
      && (forall c | c != item.customerName :: TrayOf(t, c) == TrayOf(s, c))
      && t.waiting == s.waiting && t.writers == s.writers && t.inFlight == s.inFlight
  {
    RemoveFirstRemoves(s.brewing, item);
  }

  lemma NotifyKeepsInv(s: CafeState, name: string)
    requires Inv(s) && name in s.ledgers
    ensures Inv(NotifyIfComplete(s, name))
  {
    var n := NotifyIfComplete(s, name);
    assert n == s.(notices := n.notices);
    assert Placed(n) && WithinCapacity(n);
    assert forall c :: Tally(n, c) == Tally(s, c);
  }

  lemma FinishAbsentKeepsInv(s: CafeState, item: OrderItem)
    requires Inv(s) && item.customerName !in s.ledgers
    ensures Inv(FinishBrewing(s, item))
  {
    var ended := FinishBrewing(s, item);
    assert item !in s.brewing;
    assert multiset(s.brewing)[item] == 0;
    assert WithinCapacity(ended);
    assert forall c :: Tally(ended, c) == Tally(s, c);
  }

  /** The state finishBrewing hands to its admission pass satisfies the invariant. */
  lemma ServedKeepsInv(s: CafeState, item: OrderItem)
    requires Inv(s) && item.customerName in s.ledgers && item in s.brewing
    ensures Inv(NotifyIfComplete(Serve(s.(inFlight := s.inFlight - multiset{item}), item), item.customerName))
  {
    var ended := s.(inFlight := s.inFlight - multiset{item});
    assert forall c :: Tally(ended, c) == Tally(s, c);
    ServeKeepsPlaced(ended, item);
    ServeKeepsCapacity(s, item);
    ServeKeepsAgreement(ended, item);
    ServeKeepsFresh(ended, item);
    NotifyKeepsInv(Serve(ended, item), item.customerName);
  }

  /** Serving an item and notifying its owner leave every waiting item with a connected owner. */
  lemma ServedKeepsOwners(s: CafeState, item: OrderItem)
    requires item.customerName in s.ledgers
    requires forall x | x in s.waiting :: x.customerName in s.ledgers
    ensures var t := NotifyIfComplete(Serve(s.(inFlight := s.inFlight - multiset{item}), item), item.customerName);
      forall x | x in t.waiting :: x.customerName in t.ledgers
  {
  }

  lemma FinishPresentKeepsInv(s: CafeState, item: OrderItem)
    requires Inv(s) && item.customerName in s.ledgers && item in s.brewing
    ensures Inv(FinishBrewing(s, item))
  {
    ServedKeepsInv(s, item);
    AdmitKeepsInv(NotifyIfComplete(Serve(s.(inFlight := s.inFlight - multiset{item}), item), item.customerName));
  }

  lemma FinishKeepsInv(s: CafeState, item: OrderItem)
    requires Inv(s) && CanFinish(s, item)
    ensures Inv(FinishBrewing(s, item))
  {
    if item.customerName !in s.ledgers {
      FinishAbsentKeepsInv(s, item);
    } else {
      FinishPresentKeepsInv(s, item);
    }
  }

  /**
   * When the owner is still connected, the item ends up on their tray, their ready
   * count for its kind goes up by one, and they get a completion notice exactly when
   * their order is complete afterwards and they have a writer bound. When the owner
   * has gone, only the brewing thread ends. Before the waiting area is scanned again
   * the item's slot has been given back: its kind's counter is one lower and the
   * item has left the brewing area.
   */
  lemma {:induction false} FinishServesOwner(s: CafeState, item: OrderItem)
    ensures var s' := FinishBrewing(s, item);
      var name := item.customerName;
      if name !in s.ledgers then s' == s.(inFlight := s.inFlight - multiset{item})
      else
        var t := Serve(s.(inFlight := s.inFlight - multiset{item}), item);
        && s' == Admit(NotifyIfComplete(t, name))
        && t.brewingTeas == s.brewingTeas - (if item.itemType == Tea then 1 else 0)
        && t.brewingCoffees == s.brewingCoffees - (if item.itemType == Coffee then 1 else 0)
        && multiset(t.brewing) == multiset(s.brewing) - multiset{item}
        && name in s'.ledgers
        && TrayOf(s', name) == TrayOf(s, name) + [item]
        && s'.ledgers[name].teasReady == s.ledgers[name].teasReady + (if item.itemType == Tea then 1 else 0)
        && s'.ledgers[name].coffeesReady == s.ledgers[name].coffeesReady + (if item.itemType == Coffee then 1 else 0)
        && s'.notices == s.notices +
             (if Complete(s'.ledgers[name]) && name in s.writers
              then [Notice(name, s'.ledgers[name].teasReady, s'.ledgers[name].coffeesReady)] else [])
  {
    var name := item.customerName;
    if name in s.ledgers {
      var ended := s.(inFlight := s.inFlight - multiset{item});
      var n := NotifyIfComplete(Serve(ended, item), name);
      var r := Scan(n.waiting, n.brewingTeas, n.brewingCoffees);
      ShiftAllKeepsCompleteness(n.ledgers, r.admitted, name);
      ServeReleasesSlot(ended, item);
    }
  }

  /**
   * In a valid cafe a finishing item of a connected owner frees a slot of its kind,
   * and the scan that follows refills it: afterwards a kind has items waiting only if
   * all its slots are taken.
   */
  lemma FinishFreesSlot(s: CafeState, item: OrderItem)
    requires Inv(s) && CanFinish(s, item) && item.customerName in s.ledgers
    ensures var t := Serve(s.(inFlight := s.inFlight - multiset{item}), item);
      && (item.itemType == Tea ==> t.brewingTeas < MaxBrewingTeas)
      && (item.itemType == Coffee ==> t.brewingCoffees < MaxBrewingCoffees)
    ensures var s' := FinishBrewing(s, item);
      && (CountKind(s'.waiting, Tea) == 0 || s'.brewingTeas == MaxBrewingTeas)
      && (CountKind(s'.waiting, Coffee) == 0 || s'.brewingCoffees == MaxBrewingCoffees)
  {
    var t := Serve(s.(inFlight := s.inFlight - multiset{item}), item);
    ServeReleasesSlot(s.(inFlight := s.inFlight - multiset{item}), item);
    AdmitRespectsCapacity(NotifyIfComplete(t, item.customerName));
  }

  // ---------------------------------------------------------------------------
  // Queries and collection

  /** getOrderStatus: the error for an unknown customer, else the non-empty lines of the ledger. */
  function OrderStatus(s: CafeState, name: string): (r: Result<Status, CafeError>)
    ensures r.Failure? <==> name !in s.ledgers
    ensures r == Success(NoOrderFound) <==> name in s.ledgers && Idle(s.ledgers[name])
  {
    if name !in s.ledgers then Failure(CustomerNotFound(name))
    else
      var l := s.ledgers[name];
      if Idle(l) then Success(NoOrderFound)
      else Success(Breakdown(
        if l.teasWaiting > 0 || l.coffeesWaiting > 0 then Some(Line(l.coffeesWaiting, l.teasWaiting)) else None,
        if l.teasBrewing > 0 || l.coffeesBrewing > 0 then Some(Line(l.coffeesBrewing, l.teasBrewing)) else None,
        if l.teasReady > 0 || l.coffeesReady > 0 then Some(Line(l.coffeesReady, l.teasReady)) else None))
  }

  /** isOrderComplete */
  function OrderComplete(s: CafeState, name: string): (r: Result<bool, CafeError>)
    ensures r.Failure? <==> name !in s.ledgers
    ensures r == Success(true) ==> !Idle(s.ledgers[name])
  {
    if name !in s.ledgers then Failure(CustomerNotFound(name)) else Success(Complete(s.ledgers[name]))
  }

  /** collectOrder: hand over a complete order, emptying the tray and the ready counters. */
  function CollectOrder(s: CafeState, name: string): (r: (CafeState, Result<Collection, CafeError>))
    ensures r.1.Failure? ==> r.0 == s
    ensures r.1 == Success(NothingToCollect) ==> r.0 == s
    ensures r.1.Success? && r.1.value.Collected? ==> name in r.0.ledgers && name !in r.0.tray
  {
    if name !in s.ledgers then (s, Failure(CustomerNotFound(name)))
    else
      var l := s.ledgers[name];
      if Idle(l) then (s, Success(NothingToCollect))
      else if !Complete(l) then (s, Failure(OrderPending))
      else (s.(ledgers := s.ledgers[name := l.(teasReady := 0, coffeesReady := 0)], tray := s.tray - {name}),
            Success(Collected(l.teasReady, l.coffeesReady)))
  }

  /** getNumberOfClients */
  function Clients(s: CafeState): (n: nat)
    ensures n == 0 <==> s.ledgers == map[]
  {
    |s.ledgers|
  }

  /** The customers whose Order is not idle. */
  function Busy(s: CafeState): (busy: set<string>)
    ensures busy <= s.ledgers.Keys
  {
    set name | name in s.ledgers && !Idle(s.ledgers[name])
  }

  /** The number of `name`'s items in all three areas. */
  function Holding(s: CafeState, name: string): nat
  {
    CountOf(s.waiting, name, Tea) + CountOf(s.waiting, name, Coffee)
    + CountOf(s.brewing, name, Tea) + CountOf(s.brewing, name, Coffee)
    + CountOf(TrayOf(s, name), name, Tea) + CountOf(TrayOf(s, name), name, Coffee)
  }

  /**
   * The status a customer sees is what the areas hold: no order exactly when none of
   * their items is anywhere, and a line for an area exactly when they have an item in it,
   * with that area's counts.
   */
  lemma StatusReflectsAreas(s: CafeState, name: string)
    requires Inv(s) && name in s.ledgers
    ensures OrderStatus(s, name) == Success(NoOrderFound) <==> Holding(s, name) == 0
    ensures OrderStatus(s, name).Success?
    ensures OrderStatus(s, name).value.Breakdown? ==>
      var st := OrderStatus(s, name).value;
      && (st.waiting.Some? <==> CountOf(s.waiting, name, Tea) + CountOf(s.waiting, name, Coffee) > 0)
      && (st.brewing.Some? <==> CountOf(s.brewing, name, Tea) + CountOf(s.brewing, name, Coffee) > 0)
      && (st.tray.Some? <==> |TrayOf(s, name)| > 0)
      && (st.tray.Some? ==> st.tray.value == Line(CountKind(TrayOf(s, name), Coffee), CountKind(TrayOf(s, name), Tea)))
  {
    TrayCounts(s, name);
  }

  /** A tray holds only its owner's items, so its counts by owner are its counts by kind. */
  lemma TrayCounts(s: CafeState, name: string)
    requires Inv(s)
    ensures CountOf(TrayOf(s, name), name, Tea) == CountKind(TrayOf(s, name), Tea)
    ensures CountOf(TrayOf(s, name), name, Coffee) == CountKind(TrayOf(s, name), Coffee)
    ensures |TrayOf(s, name)| == CountKind(TrayOf(s, name), Tea) + CountKind(TrayOf(s, name), Coffee)
  {
    assert forall x | x in TrayOf(s, name) :: x.customerName == name;
    OwnCounts(TrayOf(s, name), name);
  }

  /** In a sequence of one customer's items, counting by owner and kind is counting by kind. */
  lemma {:induction false} OwnCounts(items: seq<OrderItem>, name: string)
    requires forall x | x in items :: x.customerName == name
    ensures CountOf(items, name, Tea) == CountKind(items, Tea)
    ensures CountOf(items, name, Coffee) == CountKind(items, Coffee)
    ensures |items| == CountKind(items, Tea) + CountKind(items, Coffee)
  {
    if items != [] {
      assert forall x | x in items[1..] :: x in items;
      OwnCounts(items[1..], name);
    }
  }

  /**
   * isOrderComplete holds exactly when none of the customer's items is waiting or
   * brewing and their tray is not empty.
   */
  lemma CompleteMeansTrayOnly(s: CafeState, name: string)
    requires Inv(s) && name in s.ledgers
    ensures OrderComplete(s, name) == Success(
      CountOf(s.waiting, name, Tea) + CountOf(s.waiting, name, Coffee) == 0
      && CountOf(s.brewing, name, Tea) + CountOf(s.brewing, name, Coffee) == 0
      && |TrayOf(s, name)| > 0)
  {
    TrayCounts(s, name);
  }

  /**
   * collectOrder: an unknown customer is an error, an idle one has nothing to collect,
   * an incomplete order is an error; none of these change anything. A complete order
   * hands over exactly the items on the tray, by kind, and leaves the customer idle
   * with no tray entry; nothing else in the cafe changes.
   */
  lemma CollectOrderCases(s: CafeState, name: string)
    requires Inv(s)
    ensures var (s', r) := CollectOrder(s, name);
      && (name !in s.ledgers ==> r == Failure(CustomerNotFound(name)) && s' == s)
      && (name in s.ledgers && Holding(s, name) == 0 ==> r == Success(NothingToCollect) && s' == s)
      && (name in s.ledgers && Holding(s, name) > 0 && !Complete(s.ledgers[name]) ==> r == Failure(OrderPending) && s' == s)
      && (name in s.ledgers && Complete(s.ledgers[name]) ==>
            && r == Success(Collected(CountKind(TrayOf(s, name), Tea), CountKind(TrayOf(s, name), Coffee)))
            && s'.ledgers[name] == NoItems && name !in s'.tray
            && s'.waiting == s.waiting && s'.brewing == s.brewing
            && (forall c | c in s.ledgers && c != name :: s'.ledgers[c] == s.ledgers[c] && TrayOf(s', c) == TrayOf(s, c))
            && s'.writers == s.writers && s'.inFlight == s.inFlight && s'.notices == s.notices
            && s'.brewingTeas == s.brewingTeas && s'.brewingCoffees == s.brewingCoffees && s'.nextId == s.nextId)
  {
    TrayCounts(s, name);
  }

  /** Collecting never connects or disconnects anyone. */
  lemma CollectKeepsCustomers(s: CafeState, name: string)
    ensures CollectOrder(s, name).0.ledgers.Keys == s.ledgers.Keys
  {
  }

  lemma {:induction false} CollectKeepsInv(s: CafeState, name: string)
    requires Inv(s)
    ensures Inv(CollectOrder(s, name).0)
  {
    if name in s.ledgers && Complete(s.ledgers[name]) {
      var s' := CollectOrder(s, name).0;
      assert TrayOf(s', name) == [];
      assert forall c | c in s'.ledgers && c != name :: TrayOf(s', c) == TrayOf(s, c);
      assert s'.ledgers[name] == Tally(s', name);
    }
  }

  /** getNumberOfClientsWaiting counts the customers who have an item somewhere in the cafe. */
  lemma BusyMeansHolding(s: CafeState)
    requires Inv(s)
    ensures Busy(s) == set name | name in s.ledgers && Holding(s, name) > 0
  {
  }

  lemma BindWriterKeepsInv(s: CafeState, name: string)
    requires Inv(s)
    ensures Inv(BindWriter(s, name))
  {
  }
}
