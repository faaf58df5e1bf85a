/**
 * One turn of a customer's session in CustomerHandler.java: a line is classified and
 * the matching cafe operation runs on the cafe state, producing the reply the
 * customer reads. Socket I/O is not modelled; a reply is a value.
 */
module Session {
  import opened Wrappers
  import opened Commands
  import opened Orders
  import opened CafeSpec

  /** What the handler writes back for one line. */
  datatype Reply =
    | Silent                                            // a blank line gets no reply
    | StatusText(status: Result<Status, CafeError>)     // getOrderStatus, or "ERROR <message>"
    | Received(name: string, teas: int, coffees: int)   // "Order received for <name> (<teas> teas and <coffees> coffees)"
    | BadOrder(parseError: ParseError)                  // "ERROR <message>" from parseOrderCommand
    | Refused(cafeError: CafeError)                     // "ERROR <message>" from placeOrder
    | CollectText(result: Result<Collection, CafeError>) // collectOrder, or "ERROR <message>"
    | Goodbye(name: string)                             // "Goodbye <name>"
    | UnknownCommand(line: string)                      // "ERROR Unknown command: <line>. Valid commands: ..."

  /**
   * Lines 36-42: the name the customer types, trimmed, is connected and gets the
   * session's writer. An empty name is refused, and the cleanup of lines 116-120 then
   * disconnects the empty name.
   */
  function Start(s: CafeState, raw: string): (r: (CafeState, Option<string>))
    ensures r.1.Some? ==> r.1.value != [] && r.0.ledgers.Keys == s.ledgers.Keys + {r.1.value}
    ensures r.1.None? ==> r.0.ledgers.Keys == s.ledgers.Keys - {[]}
  {
    var name := Trim(raw);
    if name == [] then (Disconnect(s, name), None)
    else (BindWriter(Connect(s, name), name), Some(name))
  }

  /** Lines 70-86: parse the order, then place it; either step may fail with a message. */
  function HandleOrder(s: CafeState, name: string, words: seq<string>): (r: (CafeState, Reply))
    ensures r.1.BadOrder? || r.1.Refused? || r.1.Received?
    ensures !r.1.Received? ==> r.0 == s
    ensures r.0.ledgers.Keys == s.ledgers.Keys
    ensures r.1.Received? ==>
      && r.1.name == name && name in s.ledgers
      && r.1.teas >= 0 && r.1.coffees >= 0 && r.1.teas + r.1.coffees > 0
      && r.0.nextId == s.nextId + r.1.teas + r.1.coffees
  {
    match ParseOrder(words)
    case Failure(e) => (s, BadOrder(e))
    case Success(o) =>
      var (s', r) := PlaceOrder(s, name, o.numTeas, o.numCoffees);
      if r.Failure? then (s', Refused(r.error)) else (s', Received(name, o.numTeas, o.numCoffees))
  }

  /** Lines 48-102: one line of the command loop. */
  function HandleLine(s: CafeState, name: string, raw: string): (r: (CafeState, Reply))
    ensures r.0.ledgers.Keys <= s.ledgers.Keys
    ensures r.1.Goodbye? ==> r.1.name == name && name !in r.0.ledgers
  {
    match Classify(raw)
    case Blank => (s, Silent)
    case StatusRequest => (s, StatusText(OrderStatus(s, name)))
    case OrderRequest(words) => HandleOrder(s, name, words)
    case CollectRequest =>
      CollectKeepsCustomers(s, name);
      var (s', r) := CollectOrder(s, name);
      (s', CollectText(r))
    case ExitRequest => (Disconnect(s, name), Goodbye(name))
    case Unknown(line) => (s, UnknownCommand(line))
  }

  lemma HandleOrderKeepsInv(s: CafeState, name: string, words: seq<string>)
    requires Inv(s)
    ensures Inv(HandleOrder(s, name, words).0)
  {
    if ParseOrder(words).Success? {
      var o := ParseOrder(words).value;
      PlaceOrderKeepsInv(s, name, o.numTeas, o.numCoffees);
    }
  }

  /** Whatever a customer types, the cafe's invariant holds afterwards. */
  lemma HandleLineKeepsInv(s: CafeState, name: string, raw: string)
    requires Inv(s)
    ensures Inv(HandleLine(s, name, raw).0)
  {
    match Classify(raw)
    case OrderRequest(words) => HandleOrderKeepsInv(s, name, words);
    case CollectRequest => CollectKeepsInv(s, name);
    case ExitRequest => DisconnectKeepsInv(s, name);
    case _ =>
  }

  /**
   * Only an order that is parsed and placed, a collection and an exit change the cafe;
   * blank lines, status requests, unknown commands and rejected orders leave it as it was.
   */
  lemma HandleLineChangesOnlyOnEffect(s: CafeState, name: string, raw: string)
    ensures var (s', reply) := HandleLine(s, name, raw);
            (reply.Silent? || reply.StatusText? || reply.BadOrder? || reply.Refused? || reply.UnknownCommand?) ==> s' == s
  {
  }

  /**
   * An order typed by a connected customer as valid clauses whose sums stay in int
   * range is received with exactly those sums, and the cafe performs placeOrder.
   */
  lemma OrderLineReceived(s: CafeState, name: string, raw: string)
    requires name in s.ledgers && Classify(raw).OrderRequest?
    requires ParseOrder(Classify(raw).words).Success?
    requires Sum(TeaQuantities(ClausesOf(Classify(raw).words[1..]))) <= IntMax
    requires Sum(CoffeeQuantities(ClausesOf(Classify(raw).words[1..]))) <= IntMax
    ensures var words := Classify(raw).words;
            var cs := ClausesOf(words[1..]);
            var teas := Sum(TeaQuantities(cs));
            var coffees := Sum(CoffeeQuantities(cs));
            HandleLine(s, name, raw) == (PlaceOrder(s, name, teas, coffees).0, Received(name, teas, coffees))
  {
    ParsedWithoutOverflow(Classify(raw).words);
  }

  /**
   * What a connected customer's order line leads to, for every line the parser gets
   * through: the quantities are the per-kind sums wrapped to Java ints. Both zero is
   * "No items ordered"; either negative is refused by placeOrder; otherwise the order
   * is placed and acknowledged with the wrapped sums, which are the typed sums only
   * when those stay below 2^31.
   */
  lemma OrderOutcome(s: CafeState, name: string, words: seq<string>)
    requires name in s.ledgers && Completed(ParseOrder(words))
    ensures var cs := ClausesOf(words[1..]);
      var teas, coffees := Wrap32(Sum(TeaQuantities(cs))), Wrap32(Sum(CoffeeQuantities(cs)));
      HandleOrder(s, name, words) ==
        if teas == 0 && coffees == 0 then (s, BadOrder(NothingOrdered))
        else if teas < 0 || coffees < 0 then (s, Refused(NegativeQuantity))
        else (PlaceOrder(s, name, teas, coffees).0, Received(name, teas, coffees))
  {
    ParseOrderAcceptsOnlyClauses(words);
  }

  /**
   * One order line whose tea sum wraps to a negative int: placeOrder refuses it as a
   * negative quantity, leaving the cafe unchanged.
   */
  lemma OverflowIsRefused(s: CafeState, name: string)
    requires name in s.ledgers
    ensures HandleOrder(s, name, ["order", Decimal(IntMax), "tea", "and", Decimal(1), "tea"]) == (s, Refused(NegativeQuantity))
  {
    OverflowIsReachable();
  }

  /**
   * One order line whose tea sum wraps all the way round to a positive int: the cafe
   * accepts it and queues one tea, not the 4294967297 typed.
   */
  lemma WrongQuantityReceived(s: CafeState, name: string)
    requires name in s.ledgers
    ensures HandleOrder(s, name, ["order", Decimal(IntMax), "tea", "and", Decimal(IntMax), "tea", "and", Decimal(3), "tea"])
            == (PlaceOrder(s, name, 1, 0).0, Received(name, 1, 0))
  {
    PositiveOverflowIsReachable();
  }

  lemma StartKeepsInv(s: CafeState, raw: string)
    requires Inv(s)
    ensures Inv(Start(s, raw).0)
  {
    var name := Trim(raw);
    if name == [] {
      DisconnectKeepsInv(s, name);
    } else {
      ConnectKeepsInv(s, name);
      BindWriterKeepsInv(Connect(s, name), name);
    }
  }

  /**
   * A session starts exactly when the trimmed name is not empty; the customer is then
   * connected with a writer bound, keeping the Order they already had, or an idle one.
   */
  lemma StartConnects(s: CafeState, raw: string)
    ensures Start(s, raw).1.Some? <==> Trim(raw) != []
    ensures Start(s, raw).1.Some? ==>
      var (s', name) := (Start(s, raw).0, Start(s, raw).1.value);
      && name == Trim(raw)
      && name in s'.ledgers && name in s'.writers
      && (name in s.ledgers ==> s'.ledgers[name] == s.ledgers[name])
      && (name !in s.ledgers ==> Idle(s'.ledgers[name]))
  {
  }

  /**
   * After "exit" the cleanup of lines 116-120 disconnects the customer a second time,
   * which changes nothing.
   */
  lemma ExitCleanupIsHarmless(s: CafeState, name: string, raw: string)
    requires Classify(raw) == ExitRequest
    ensures var s' := HandleLine(s, name, raw).0;
            Disconnect(s', name) == s' && name !in s'.ledgers
  {
    DisconnectIsIdempotent(s, name);
  }
}
