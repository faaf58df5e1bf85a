/**
 * The command language of CustomerHandler.java: how a line typed by a customer is
 * classified (order status, order, collect, exit, or unknown), and the grammar of an
 * order, `order N item (and N item)*`, which parseOrderCommand reads into a number
 * of teas and a number of coffees. Quantities are Java `int`s, so the running sums
 * wrap around at 32 bits, and the model says so explicitly.
 */
module Commands {
  import opened Wrappers

  // ---------------------------------------------------------------------------
  // Java int arithmetic

  const IntMin: int := -0x8000_0000
  const IntMax: int := 0x7fff_ffff
  const Modulus: int := 0x1_0000_0000

  /** The Java `int` that `x` becomes: the one value in int range that `x` is congruent to. */
  function Wrap32(x: int): (r: int)
    ensures IntMin <= r <= IntMax
  {
    (x - IntMin) % Modulus + IntMin
  }

  /** Wrap32(x) differs from `x` by a multiple of 2^32. */
  lemma Wrap32Congruent(x: int)
    ensures (x - Wrap32(x)) % Modulus == 0
  {
  }

  /** Only one int is congruent to `x`, so anything in range that is congruent to `x` is Wrap32(x). */
  lemma Wrap32Unique(x: int, r: int)
    requires IntMin <= r <= IntMax && (x - r) % Modulus == 0
    ensures Wrap32(x) == r
  {
    var w := Wrap32(x);
    Wrap32Congruent(x);
    var d1 := (x - r) / Modulus;
    var d2 := (x - w) / Modulus;
    assert x - r == Modulus * d1;
    assert x - w == Modulus * d2;
    assert w - r == Modulus * (d1 - d2);
  }

  /** Wrapping after every addition is wrapping once at the end. */
  lemma Wrap32Add(a: int, q: int)
    ensures Wrap32(Wrap32(a) + q) == Wrap32(a + q)
  {
    var w := Wrap32(a);
    var r := Wrap32(w + q);
    Wrap32Congruent(a);
    Wrap32Congruent(w + q);
    var d1 := (a - w) / Modulus;
    var d2 := (w + q - r) / Modulus;
    assert a - w == Modulus * d1;
    assert w + q - r == Modulus * d2;
    assert (a + q) - r == Modulus * (d1 + d2);
    Wrap32Unique(a + q, r);
  }

  // ---------------------------------------------------------------------------
  // Integer.parseInt

  predicate IsDigit(c: char)
  {
    '0' <= c <= '9'
  }

  predicate AllDigits(s: string)
  {
    forall k | 0 <= k < |s| :: IsDigit(s[k])
  }

  /** The value of a string of decimal digits, most significant first. */
  function DigitsValue(s: string): nat
    requires AllDigits(s)
  {
    if s == [] then 0
    else DigitsValue(s[..|s| - 1]) * 10 + (s[|s| - 1] as int - '0' as int)
  }

  /**
   * Integer.parseInt(s): an optional '-' or '+' sign, then one or more decimal digits,
   * and a value in int range; anything else is a NumberFormatException (None).
   */
  function ParseInt(s: string): (r: Option<int>)
    ensures r.Some? ==> IntMin <= r.value <= IntMax
  {
    if s == [] then None
    else
      var negative := s[0] == '-';
      var digits := if s[0] == '-' || s[0] == '+' then s[1..] else s;
      if digits == [] || !AllDigits(digits) then None
      else
        var v: int := if negative then 0 - DigitsValue(digits) as int else DigitsValue(digits);
        if IntMin <= v <= IntMax then Some(v) else None
  }

  /** The decimal digits of `n`, without sign or leading zeros (Integer.toString for n >= 0). */
  function Decimal(n: nat): (s: string)
  {
    if n < 10 then [('0' as int + n) as char]
    else Decimal(n / 10) + [('0' as int + n % 10) as char]
  }

  lemma {:induction false} DecimalDigits(n: nat)
    ensures Decimal(n) != [] && AllDigits(Decimal(n)) && DigitsValue(Decimal(n)) == n
  {
    if n >= 10 {
      DecimalDigits(n / 10);
      var s := Decimal(n);
      assert s[..|s| - 1] == Decimal(n / 10);
    }
  }

  /** parseInt reads back what toString writes, for every non-negative int. */
  lemma ParseIntDecimal(n: nat)
    requires n <= IntMax
    ensures ParseInt(Decimal(n)) == Some(n)
  {
    DecimalDigits(n);
    assert IsDigit(Decimal(n)[0]);
  }

  // ---------------------------------------------------------------------------
  // The order grammar

  /** OrderResult: the numbers of teas and coffees an order command asks for. */
  datatype OrderResult = OrderResult(numTeas: int, numCoffees: int)

  /** The exceptions parseOrderCommand throws, by message. */
  datatype ParseError =
    | TooFewWords                    // "Invalid order format. Use: order <quantity> <tea/coffee> [and ...]"
    | NotANumber(word: string)       // "Expected a number, got: <word>"
    | NotPositive                    // "Quantity must be positive"
    | MissingItem                    // "Expected 'tea' or 'coffee' after quantity"
    | UnknownItem(word: string)      // "Unknown item: <word>. Use 'tea' or 'coffee'"
    | MissingQuantityAfterAnd        // "Expected quantity after 'and'"
    | UnexpectedWord(word: string)   // "Unexpected word: <word>. Expected 'and' or end of command"
    | NothingOrdered                 // "No items ordered"

  predicate IsTeaWord(w: string)
  {
    w == "tea" || w == "teas"
  }

  predicate IsCoffeeWord(w: string)
  {
    w == "coffee" || w == "coffees"
  }

  /** Lines 192-197: the result, unless nothing at all was ordered. */
  function Finish(teas: int, coffees: int): Result<OrderResult, ParseError>
  {
    if teas == 0 && coffees == 0 then Failure(NothingOrdered) else Success(OrderResult(teas, coffees))
  }

  /** Lines 166-171: a tea word adds the quantity to the teas, as an int. */
  function AddTeas(teas: int, item: string, q: int): int
  {
    if IsTeaWord(item) then Wrap32(teas + q) else teas
  }

  /** Lines 172-173: a coffee word adds the quantity to the coffees, as an int. */
  function AddCoffees(coffees: int, item: string, q: int): int
  {
    if IsCoffeeWord(item) then Wrap32(coffees + q) else coffees
  }

  /**
   * The loop of parseOrderCommand (lines 143-190) from the word at index `i`, with
   * `teas` and `coffees` ordered so far: read a quantity and an item, add the quantity
   * to the item's sum as a Java int, then stop at the end of the words or go on after
   * an "and".
   */
  function ParseFrom(words: seq<string>, i: nat, teas: int, coffees: int): (r: Result<OrderResult, ParseError>)
    ensures r.Success? ==> r.value.numTeas != 0 || r.value.numCoffees != 0
    decreases |words| - i
  {
    if i >= |words| then Finish(teas, coffees)
    else
      var q := ParseInt(words[i]);
      if q.None? then Failure(NotANumber(words[i]))
      else if q.value <= 0 then Failure(NotPositive)
      else if i + 1 >= |words| then Failure(MissingItem)
      else
        var item := words[i + 1];
        if !IsTeaWord(item) && !IsCoffeeWord(item) then Failure(UnknownItem(item))
        else
          var teas' := AddTeas(teas, item, q.value);
          var coffees' := AddCoffees(coffees, item, q.value);
          var j := i + 2;
          if j >= |words| then Finish(teas', coffees')
          else if words[j] != "and" then Failure(UnexpectedWord(words[j]))
          else if j + 1 >= |words| then Failure(MissingQuantityAfterAnd)
          else ParseFrom(words, j + 1, teas', coffees')
  }

  /** parseOrderCommand(words): at least three words, then clauses from the second word on. */
  function ParseOrder(words: seq<string>): (r: Result<OrderResult, ParseError>)
    ensures |words| < 3 ==> r == Failure(TooFewWords)
    ensures r.Success? ==> r.value != OrderResult(0, 0)
  {
    if |words| < 3 then Failure(TooFewWords) else ParseFrom(words, 1, 0, 0)
  }

  /**
   * parseOrderCommand, as written: a loop over the words with the index `i` and the
   * two int accumulators. (The check of lines 145-147 cannot fail inside the loop and
   * has no counterpart here.)
   */
  method ParseOrderCommand(words: seq<string>) returns (r: Result<OrderResult, ParseError>)
    ensures r == ParseOrder(words)
  {
    var numTeas := 0;
    var numCoffees := 0;
    if |words| < 3 {
      return Failure(TooFewWords);
    }
    var i := 1;
    while i < |words|
      invariant 1 <= i <= |words|
      invariant ParseOrder(words) == ParseFrom(words, i, numTeas, numCoffees)
      decreases |words| - i
    {
      var parsed := ParseInt(words[i]);
      if parsed.None? {
        return Failure(NotANumber(words[i]));
      }
      var quantity := parsed.value;
      i := i + 1;
      if quantity <= 0 {
        return Failure(NotPositive);
      }
      if i >= |words| {
        return Failure(MissingItem);
      }
      var item := words[i];
      i := i + 1;
      if item == "tea" || item == "teas" {
        numTeas := Wrap32(numTeas + quantity);
      } else if item == "coffee" || item == "coffees" {
        numCoffees := Wrap32(numCoffees + quantity);
      } else {
        return Failure(UnknownItem(item));
      }
      if i < |words| {
        if words[i] == "and" {
          i := i + 1;
          if i >= |words| {
            return Failure(MissingQuantityAfterAnd);
          }
        } else {
          return Failure(UnexpectedWord(words[i]));
        }
      }
    }
    if numTeas == 0 && numCoffees == 0 {
      return Failure(NothingOrdered);
    }
    return Success(OrderResult(numTeas, numCoffees));
  }

  /** One clause of an order as typed: a quantity word and an item word. */
  datatype Clause = Clause(quantity: string, item: string)

  /** A clause parseOrderCommand accepts: a positive int and a tea or coffee word. */
  predicate ValidClause(c: Clause)
  {
    && ParseInt(c.quantity).Some? && ParseInt(c.quantity).value > 0
    && (IsTeaWord(c.item) || IsCoffeeWord(c.item))
  }

  /** The words of an order after its first word: the clauses joined by "and". */
  function Render(cs: seq<Clause>): seq<string>
  {
    if cs == [] then []
    else if |cs| == 1 then [cs[0].quantity, cs[0].item]
    else [cs[0].quantity, cs[0].item, "and"] + Render(cs[1..])
  }

  /** The words read as clauses: a quantity and an item, then an "and" to skip. */
  function ClausesOf(ws: seq<string>): seq<Clause>
    decreases |ws|
  {
    if |ws| < 2 then []
    else if |ws| < 3 then [Clause(ws[0], ws[1])]
    else [Clause(ws[0], ws[1])] + ClausesOf(ws[3..])
  }

  /** The quantity a clause asks for (zero for a quantity word that is not an int). */
  function Quantity(c: Clause): int
  {
    match ParseInt(c.quantity)
    case Some(v) => v
    case None => 0
  }

  /** The tea quantities of the clauses, in order. */
  function TeaQuantities(cs: seq<Clause>): seq<int>
  {
    if cs == [] then []
    else (if IsTeaWord(cs[0].item) then [Quantity(cs[0])] else []) + TeaQuantities(cs[1..])
  }

  /** The coffee quantities of the clauses, in order. */
  function CoffeeQuantities(cs: seq<Clause>): seq<int>
  {
    if cs == [] then []
    else (if IsCoffeeWord(cs[0].item) then [Quantity(cs[0])] else []) + CoffeeQuantities(cs[1..])
  }

  /** The exact sum of some quantities. */
  function Sum(qs: seq<int>): int
  {
    if qs == [] then 0 else qs[0] + Sum(qs[1..])
  }

  /** `acc += q` for each quantity in turn, on a Java int. */
  function IntSum(acc: int, qs: seq<int>): int
    decreases |qs|
  {
    if qs == [] then acc else IntSum(Wrap32(acc + qs[0]), qs[1..])
  }

  /** A running int sum is the exact sum wrapped once, at the end. */
  lemma {:induction false} IntSumWraps(acc: int, qs: seq<int>)
    requires IntMin <= acc <= IntMax
    ensures IntSum(acc, qs) == Wrap32(acc + Sum(qs))
    decreases |qs|
  {
    if qs == [] {
      Wrap32Unique(acc, acc);
    } else {
      IntSumWraps(Wrap32(acc + qs[0]), qs[1..]);
      Wrap32Add(acc + qs[0], Sum(qs[1..]));
      assert acc + Sum(qs) == (acc + qs[0]) + Sum(qs[1..]);
    }
  }

  lemma IntSumFromZero(qs: seq<int>)
    ensures IntSum(0, qs) == Wrap32(Sum(qs))
  {
    IntSumWraps(0, qs);
    assert 0 + Sum(qs) == Sum(qs);
  }

  /** Reading a rendering clause by clause gives the clauses back. */
  lemma {:induction false} ClausesOfRender(cs: seq<Clause>)
    ensures ClausesOf(Render(cs)) == cs
  {
    if |cs| > 1 {
      ClausesOfRender(cs[1..]);
      assert Render(cs)[3..] == Render(cs[1..]);
    }
  }


  /** Reading one more valid clause adds its quantity to the running sum of its kind. */
  lemma TallyStep(teas: int, coffees: int, cs: seq<Clause>)
    requires cs != [] && ValidClause(cs[0])
    ensures IntSum(teas, TeaQuantities(cs))
            == IntSum(AddTeas(teas, cs[0].item, Quantity(cs[0])), TeaQuantities(cs[1..]))
    ensures IntSum(coffees, CoffeeQuantities(cs))
            == IntSum(AddCoffees(coffees, cs[0].item, Quantity(cs[0])), CoffeeQuantities(cs[1..]))
  {
    var q := Quantity(cs[0]);
    var ts := TeaQuantities(cs[1..]);
    var ks := CoffeeQuantities(cs[1..]);
    if IsTeaWord(cs[0].item) {
      assert !IsCoffeeWord(cs[0].item);
      assert TeaQuantities(cs) == [q] + ts && ([q] + ts)[1..] == ts;
      assert CoffeeQuantities(cs) == ks;
    } else {
      assert CoffeeQuantities(cs) == [q] + ks && ([q] + ks)[1..] == ks;
      assert TeaQuantities(cs) == ts;
    }
  }

  /** A valid clause that ends the words ends the parse. */
  lemma LastClause(words: seq<string>, i: nat, teas: int, coffees: int)
    requires i + 2 == |words| && ValidClause(Clause(words[i], words[i + 1]))
    ensures ParseFrom(words, i, teas, coffees)
            == Finish(AddTeas(teas, words[i + 1], Quantity(Clause(words[i], words[i + 1]))),
                      AddCoffees(coffees, words[i + 1], Quantity(Clause(words[i], words[i + 1]))))
  {
  }

  /** A valid clause followed by "and" and more words goes on after the "and". */
  lemma NextClause(words: seq<string>, i: nat, teas: int, coffees: int)
    requires i + 3 < |words| && ValidClause(Clause(words[i], words[i + 1])) && words[i + 2] == "and"
    ensures ParseFrom(words, i, teas, coffees)
            == ParseFrom(words, i + 3, AddTeas(teas, words[i + 1], Quantity(Clause(words[i], words[i + 1]))),
                         AddCoffees(coffees, words[i + 1], Quantity(Clause(words[i], words[i + 1]))))
  {
  }

  /** The words at `i` begin with the first of several clauses, an "and", and the rest. */
  lemma RenderedSplit(words: seq<string>, i: nat, cs: seq<Clause>)
    requires i <= |words| && words[i..] == Render(cs) && |cs| > 1
    ensures i + 3 < |words| && cs[0] == Clause(words[i], words[i + 1]) && words[i + 2] == "and"
    ensures words[i + 3..] == Render(cs[1..])
  {
    assert words[i..] == [cs[0].quantity, cs[0].item, "and"] + Render(cs[1..]);
    assert words[i + 3..] == words[i..][3..];
  }

  /** The words at `i` are exactly one clause. */
  lemma RenderedLast(words: seq<string>, i: nat, cs: seq<Clause>)
    requires i <= |words| && words[i..] == Render(cs) && |cs| == 1
    ensures i + 2 == |words| && cs[0] == Clause(words[i], words[i + 1])
  {
    assert words[i..] == [cs[0].quantity, cs[0].item];
  }

  /**
   * Every well-formed order is accepted, with the tea and the coffee quantities
   * summed as Java ints, unless both sums are zero.
   */
  lemma {:induction false} ParseFromRendered(words: seq<string>, i: nat, teas: int, coffees: int, cs: seq<Clause>)
    requires i <= |words| && words[i..] == Render(cs) && cs != []
    requires forall k | 0 <= k < |cs| :: ValidClause(cs[k])
    ensures ParseFrom(words, i, teas, coffees)
            == Finish(IntSum(teas, TeaQuantities(cs)), IntSum(coffees, CoffeeQuantities(cs)))
    decreases |cs|
  {
    var c := cs[0];
    assert ValidClause(c);
    TallyStep(teas, coffees, cs);
    if |cs| == 1 {
      RenderedLast(words, i, cs);
      LastClause(words, i, teas, coffees);
    } else {
      RenderedSplit(words, i, cs);
      NextClause(words, i, teas, coffees);
      ParseFromRendered(words, i + 3, AddTeas(teas, c.item, Quantity(c)), AddCoffees(coffees, c.item, Quantity(c)), cs[1..]);
    }
  }

  /** A parse that got to the end of the words: a result, or nothing ordered at all. */
  predicate Completed(r: Result<OrderResult, ParseError>)
  {
    r.Success? || r == Failure(NothingOrdered)
  }

  /** A parse that gets to the end reads a valid clause first, then ends or goes on after an "and". */
  lemma CompletedStep(words: seq<string>, i: nat, teas: int, coffees: int)
    requires i < |words| && Completed(ParseFrom(words, i, teas, coffees))
    ensures i + 1 < |words|
    ensures var c := Clause(words[i], words[i + 1]);
            && ValidClause(c)
            && (|| i + 2 == |words|
                || (&& i + 3 < |words| && words[i + 2] == "and"
                    && Completed(ParseFrom(words, i + 3, AddTeas(teas, c.item, Quantity(c)),
                                           AddCoffees(coffees, c.item, Quantity(c))))))
  {
  }

  /** Every parse that gets to the end has read valid clauses joined by "and", and nothing else. */
  lemma {:induction false} RenderedIfParsed(words: seq<string>, i: nat, teas: int, coffees: int)
    requires i < |words| && Completed(ParseFrom(words, i, teas, coffees))
    ensures var cs := ClausesOf(words[i..]);
            && cs != [] && words[i..] == Render(cs)
            && forall k | 0 <= k < |cs| :: ValidClause(cs[k])
    decreases |words| - i
  {
    CompletedStep(words, i, teas, coffees);
    var c := Clause(words[i], words[i + 1]);
    if i + 2 == |words| {
      assert words[i..] == [c.quantity, c.item];
      assert ClausesOf(words[i..]) == [c];
    } else {
      RenderedIfParsed(words, i + 3, AddTeas(teas, c.item, Quantity(c)), AddCoffees(coffees, c.item, Quantity(c)));
      var rest := ClausesOf(words[i + 3..]);
      assert words[i..][3..] == words[i + 3..];
      assert ClausesOf(words[i..]) == [c] + rest;
      assert words[i..] == [c.quantity, c.item, "and"] + words[i + 3..];
      assert ([c] + rest)[1..] == rest;
    }
  }

  /**
   * parseOrderCommand accepts exactly the orders made of valid clauses joined by
   * "and": the result is the tea and the coffee quantities, each summed as a Java int,
   * unless both sums are zero. The first word is not looked at.
   */
  lemma ParseOrderAccepts(first: string, cs: seq<Clause>)
    requires cs != [] && forall k | 0 <= k < |cs| :: ValidClause(cs[k])
    ensures ParseOrder([first] + Render(cs))
            == Finish(Wrap32(Sum(TeaQuantities(cs))), Wrap32(Sum(CoffeeQuantities(cs))))
  {
    var words := [first] + Render(cs);
    assert words[1..] == Render(cs);
    assert |Render(cs)| >= 2;
    assert ParseOrder(words) == ParseFrom(words, 1, 0, 0);
    ParseFromRendered(words, 1, 0, 0, cs);
    IntSumFromZero(TeaQuantities(cs));
    IntSumFromZero(CoffeeQuantities(cs));
  }

  /** The converse: whatever parseOrderCommand accepts is such an order. */
  lemma ParseOrderAcceptsOnlyClauses(words: seq<string>)
    requires Completed(ParseOrder(words))
    ensures var cs := ClausesOf(words[1..]);
            && cs != [] && words[1..] == Render(cs)
            && (forall k | 0 <= k < |cs| :: ValidClause(cs[k]))
            && ParseOrder(words) == Finish(Wrap32(Sum(TeaQuantities(cs))), Wrap32(Sum(CoffeeQuantities(cs))))
  {
    var cs := ClausesOf(words[1..]);
    assert cs != [] && words[1..] == Render(cs) && forall k | 0 <= k < |cs| :: ValidClause(cs[k]) by {
      RenderedIfParsed(words, 1, 0, 0);
    }
    assert [words[0]] + Render(cs) == words;
    ParseOrderAccepts(words[0], cs);
  }

  /** The last word of a rendering is the item word of its last clause. */
  lemma {:induction false} RenderEndsWithItem(cs: seq<Clause>)
    requires cs != []
    ensures |Render(cs)| >= 2 && Render(cs)[|Render(cs)| - 1] == cs[|cs| - 1].item
  {
    if |cs| > 1 {
      RenderEndsWithItem(cs[1..]);
    }
  }

  /** Every line the loop gets through ends in a tea or coffee word. */
  lemma CompletedEndsWithItem(words: seq<string>)
    requires Completed(ParseOrder(words))
    ensures |words| > 0 && (IsTeaWord(words[|words| - 1]) || IsCoffeeWord(words[|words| - 1]))
  {
    ParseOrderAcceptsOnlyClauses(words);
    var cs := ClausesOf(words[1..]);
    RenderEndsWithItem(cs);
    assert words[|words| - 1] == Render(cs)[|Render(cs)| - 1];
    assert ValidClause(cs[|cs| - 1]);
  }

  /** An order that ends in "and", or in anything but a tea or coffee word, is rejected. */
  lemma RejectsDanglingEnd(words: seq<string>)
    requires |words| > 0 && !IsTeaWord(words[|words| - 1]) && !IsCoffeeWord(words[|words| - 1])
    ensures ParseOrder(words).Failure? && ParseOrder(words) != Failure(NothingOrdered)
  {
    if Completed(ParseOrder(words)) {
      CompletedEndsWithItem(words);
    }
  }

  /**
   * The errors of the first clause, in the order the loop meets them: fewer than
   * three words, a quantity that is not an int, one that is not positive, an unknown
   * item, then a word other than "and", or an "and" with nothing after it.
   */
  lemma FirstClauseErrors(words: seq<string>)
    ensures |words| < 3 ==> ParseOrder(words) == Failure(TooFewWords)
    ensures |words| >= 3 && ParseInt(words[1]).None? ==> ParseOrder(words) == Failure(NotANumber(words[1]))
    ensures |words| >= 3 && ParseInt(words[1]).Some? && ParseInt(words[1]).value <= 0
            ==> ParseOrder(words) == Failure(NotPositive)
    ensures |words| >= 3 && ParseInt(words[1]).Some? && ParseInt(words[1]).value > 0
            && !IsTeaWord(words[2]) && !IsCoffeeWord(words[2])
            ==> ParseOrder(words) == Failure(UnknownItem(words[2]))
    ensures |words| > 3 && ValidClause(Clause(words[1], words[2])) && words[3] != "and"
            ==> ParseOrder(words) == Failure(UnexpectedWord(words[3]))
    ensures |words| == 4 && ValidClause(Clause(words[1], words[2])) && words[3] == "and"
            ==> ParseOrder(words) == Failure(MissingQuantityAfterAnd)
  {
  }

  /** Quantities of valid clauses are positive, so their sums are not negative and not both zero. */
  lemma {:induction false} SumsPositive(cs: seq<Clause>)
    requires forall k | 0 <= k < |cs| :: ValidClause(cs[k])
    ensures Sum(TeaQuantities(cs)) >= 0 && Sum(CoffeeQuantities(cs)) >= 0
    ensures cs != [] ==> Sum(TeaQuantities(cs)) + Sum(CoffeeQuantities(cs)) > 0
  {
    if cs != [] {
      SumsPositive(cs[1..]);
      var q := Quantity(cs[0]);
      assert ValidClause(cs[0]) && q > 0;
      var ts := TeaQuantities(cs[1..]);
      var ks := CoffeeQuantities(cs[1..]);
      if IsTeaWord(cs[0].item) {
        assert !IsCoffeeWord(cs[0].item);
        assert TeaQuantities(cs) == [q] + ts && ([q] + ts)[1..] == ts;
        assert CoffeeQuantities(cs) == ks;
      } else {
        assert CoffeeQuantities(cs) == [q] + ks && ([q] + ks)[1..] == ks;
        assert TeaQuantities(cs) == ts;
      }
    }
  }

  /**
   * When neither sum overflows, the parsed numbers are the exact sums: neither is
   * negative and they are not both zero.
   */
  lemma ParsedWithoutOverflow(words: seq<string>)
    requires ParseOrder(words).Success?
    requires Sum(TeaQuantities(ClausesOf(words[1..]))) <= IntMax
    requires Sum(CoffeeQuantities(ClausesOf(words[1..]))) <= IntMax
    ensures var r := ParseOrder(words).value;
            var cs := ClausesOf(words[1..]);
            && r.numTeas == Sum(TeaQuantities(cs)) >= 0
            && r.numCoffees == Sum(CoffeeQuantities(cs)) >= 0
            && r.numTeas + r.numCoffees > 0
  {
    ParseOrderAcceptsOnlyClauses(words);
    var cs := ClausesOf(words[1..]);
    SumsPositive(cs);
    Wrap32Unique(Sum(TeaQuantities(cs)), Sum(TeaQuantities(cs)));
    Wrap32Unique(Sum(CoffeeQuantities(cs)), Sum(CoffeeQuantities(cs)));
  }

  /**
   * The check of lines 193-195 can fail only through overflow: if nothing was ordered,
   * one of the sums reached 2^31 and wrapped.
   */
  lemma NothingOrderedOnlyOnOverflow(words: seq<string>)
    requires ParseOrder(words) == Failure(NothingOrdered)
    ensures var cs := ClausesOf(words[1..]);
            Sum(TeaQuantities(cs)) > IntMax || Sum(CoffeeQuantities(cs)) > IntMax
  {
    ParseOrderAcceptsOnlyClauses(words);
    var cs := ClausesOf(words[1..]);
    SumsPositive(cs);
    var t := Sum(TeaQuantities(cs));
    var k := Sum(CoffeeQuantities(cs));
    if t <= IntMax && k <= IntMax {
      Wrap32Unique(t, t);
      Wrap32Unique(k, k);
      assert false;
    }
  }

  /**
   * "order 2147483647 tea and 1 tea" overflows: the teas wrap around to the most
   * negative int.
   */
  lemma OverflowWraps(max: string, one: string)
    requires ParseInt(max) == Some(IntMax) && ParseInt(one) == Some(1)
    ensures ParseOrder(["order", max, "tea", "and", one, "tea"]) == Success(OrderResult(IntMin, 0))
  {
    var cs := [Clause(max, "tea"), Clause(one, "tea")];
    assert Quantity(cs[0]) == IntMax && Quantity(cs[1]) == 1;
    assert ValidClause(cs[0]) && ValidClause(cs[1]);
    ParseOrderAccepts("order", cs);
    assert ["order"] + Render(cs) == ["order", max, "tea", "and", one, "tea"];
    var tail := cs[1..];
    assert tail == [cs[1]] && tail[1..] == [];
    assert TeaQuantities(tail) == [1] && CoffeeQuantities(tail) == [];
    assert TeaQuantities(cs) == [IntMax] + [1] && CoffeeQuantities(cs) == [];
    assert Wrap32(IntMax + 1) == IntMin;
  }

  /**
   * "order 2147483647 tea and 2147483647 tea and 3 tea" overflows all the way round:
   * the teas wrap to 1, a positive number that is not what was typed.
   */
  lemma OverflowWrapsToPositive(max: string, three: string)
    requires ParseInt(max) == Some(IntMax) && ParseInt(three) == Some(3)
    ensures ParseOrder(["order", max, "tea", "and", max, "tea", "and", three, "tea"]) == Success(OrderResult(1, 0))
  {
    var cs := [Clause(max, "tea"), Clause(max, "tea"), Clause(three, "tea")];
    assert Quantity(cs[0]) == IntMax && Quantity(cs[2]) == 3;
    assert ValidClause(cs[0]) && ValidClause(cs[1]) && ValidClause(cs[2]);
    ParseOrderAccepts("order", cs);
    var last := [Clause(three, "tea")];
    assert cs[1..] == [Clause(max, "tea")] + last && cs[1..][1..] == last;
    assert ["order"] + Render(cs) == ["order", max, "tea", "and", max, "tea", "and", three, "tea"] by {
      assert Render(last) == [three, "tea"];
      assert Render(cs[1..]) == [max, "tea", "and"] + Render(last);
    }
    ThreeTeaSums(cs);
    Wrap32Unique(Modulus + 1, 1);
    Wrap32Unique(0, 0);
  }

  /** The sums of the order of OverflowWrapsToPositive: 2^32 + 1 teas and no coffee. */
  lemma ThreeTeaSums(cs: seq<Clause>)
    requires |cs| == 3 && Quantity(cs[0]) == IntMax && Quantity(cs[1]) == IntMax && Quantity(cs[2]) == 3
    requires IsTeaWord(cs[0].item) && IsTeaWord(cs[1].item) && IsTeaWord(cs[2].item)
    ensures Sum(TeaQuantities(cs)) == Modulus + 1 && Sum(CoffeeQuantities(cs)) == 0
  {
    var last := cs[1..][1..];
    assert last == [cs[2]] && last[1..] == [];
    assert forall k | 0 <= k < 3 :: !IsCoffeeWord(cs[k].item);
    assert TeaQuantities(last) == [3] && CoffeeQuantities(last) == [];
    assert TeaQuantities(cs[1..]) == [IntMax] + [3] by {
      assert cs[1..][0] == cs[1];
    }
    assert TeaQuantities(cs) == [IntMax] + ([IntMax] + [3]);
    assert CoffeeQuantities(cs[1..]) == [] && CoffeeQuantities(cs) == [];
    var qs := [IntMax] + ([IntMax] + [3]);
    assert qs[1..] == [IntMax] + [3] && qs[1..][1..] == [3] && qs[1..][1..][1..] == [];
    assert Sum(qs[1..][1..]) == 3;
    assert Sum(qs[1..]) == IntMax + 3;
  }

  /** Such words exist: the decimal writings of 2^31 - 1 and of 1. */
  lemma OverflowIsReachable()
    ensures ParseOrder(["order", Decimal(IntMax), "tea", "and", Decimal(1), "tea"]) == Success(OrderResult(IntMin, 0))
  {
    ParseIntDecimal(IntMax);
    ParseIntDecimal(1);
    OverflowWraps(Decimal(IntMax), Decimal(1));
  }

  /** And for the second overflow: the decimal writings of 2^31 - 1 and of 3. */
  lemma PositiveOverflowIsReachable()
    ensures ParseOrder(["order", Decimal(IntMax), "tea", "and", Decimal(IntMax), "tea", "and", Decimal(3), "tea"])
            == Success(OrderResult(1, 0))
  {
    ParseIntDecimal(IntMax);
    ParseIntDecimal(3);
    OverflowWrapsToPositive(Decimal(IntMax), Decimal(3));
  }

  // ---------------------------------------------------------------------------
  // Lines and commands

  /** What the regular expression `\s` matches: space, tab, line feed, vertical tab, form feed, carriage return. */
  predicate IsSpace(c: char)
  {
    c == ' ' || '\t' <= c <= '\r'
  }

  /** String.toLowerCase on one character, for the ASCII letters. */
  function LowerChar(c: char): char
  {
    if 'A' <= c <= 'Z' then (c as int - 'A' as int + 'a' as int) as char else c
  }

  function Lower(s: string): (r: string)
    ensures |r| == |s|
  {
    seq(|s|, k requires 0 <= k < |s| => LowerChar(s[k]))
  }

  /** String.trim, first half: drop the leading characters at or below U+0020. */
  function TrimStart(s: string): (r: string)
    ensures |r| <= |s| && r == s[|s| - |r|..]
    ensures forall k | 0 <= k < |s| - |r| :: s[k] <= ' '
    ensures r != [] ==> r[0] > ' '
  {
    if s != [] && s[0] <= ' ' then TrimStart(s[1..]) else s
  }

  /** String.trim, second half: drop the trailing characters at or below U+0020. */
  function TrimEnd(s: string): (r: string)
    ensures |r| <= |s| && r == s[..|r|]
    ensures forall k | |r| <= k < |s| :: s[k] <= ' '
    ensures r != [] ==> r[|r| - 1] > ' '
  {
    if s != [] && s[|s| - 1] <= ' ' then TrimEnd(s[..|s| - 1]) else s
  }

  function Trim(s: string): (r: string)
    ensures |r| <= |s|
    ensures r != [] ==> r[0] > ' ' && r[|r| - 1] > ' '
  {
    TrimEnd(TrimStart(s))
  }

  function StartsWith(s: string, prefix: string): bool
  {
    |prefix| <= |s| && s[..|prefix|] == prefix
  }

  /**
   * The words of `s` after the word `cur` read so far: its maximal runs of
   * non-space characters, in order.
   */
  function WordsFrom(s: string, cur: string): (ws: seq<string>)
    requires forall k | 0 <= k < |cur| :: !IsSpace(cur[k])
    ensures forall i | 0 <= i < |ws| :: ws[i] != [] && forall k | 0 <= k < |ws[i]| :: !IsSpace(ws[i][k])
    decreases |s|
  {
    if s == [] then (if cur == [] then [] else [cur])
    else if IsSpace(s[0]) then (if cur == [] then [] else [cur]) + WordsFrom(s[1..], [])
    else WordsFrom(s[1..], cur + [s[0]])
  }

  /** line.split("\\s+") on a line without leading white space. */
  function Words(s: string): (ws: seq<string>)
    ensures forall i | 0 <= i < |ws| :: IsWord(ws[i])
  {
    WordsFrom(s, [])
  }

  /** The words joined by single spaces. */
  function Join(ws: seq<string>): string
  {
    if ws == [] then [] else if |ws| == 1 then ws[0] else ws[0] + [' '] + Join(ws[1..])
  }

  predicate IsWord(w: string)
  {
    w != [] && forall k | 0 <= k < |w| :: !IsSpace(w[k])
  }

  lemma {:induction false} WordsFromWord(w: string, s: string, cur: string)
    requires forall k | 0 <= k < |cur| :: !IsSpace(cur[k])
    requires forall k | 0 <= k < |w| :: !IsSpace(w[k])
    ensures WordsFrom(w + s, cur) == WordsFrom(s, cur + w)
    decreases |w|
  {
    if w != [] {
      assert (w + s)[1..] == w[1..] + s;
      WordsFromWord(w[1..], s, cur + [w[0]]);
      assert cur + [w[0]] + w[1..] == cur + w;
    } else {
      assert w + s == s && cur + w == cur;
    }
  }

  /** Splitting undoes joining: words joined by single spaces split back into the same words. */
  lemma {:induction false} WordsOfJoin(ws: seq<string>)
    requires forall i | 0 <= i < |ws| :: IsWord(ws[i])
    ensures Words(Join(ws)) == ws
  {
    if |ws| == 1 {
      WordsFromWord(ws[0], [], []);
      assert ws[0] + [] == ws[0] && [] + ws[0] == ws[0];
    } else if |ws| > 1 {
      var rest := Join(ws[1..]);
      assert Join(ws) == ws[0] + ([' '] + rest);
      WordsFromWord(ws[0], [' '] + rest, []);
      assert [] + ws[0] == ws[0];
      assert ([' '] + rest)[1..] == rest;
      WordsOfJoin(ws[1..]);
    }
  }

  /** A command line, once classified (the run loop of CustomerHandler, lines 48-102). */
  datatype Command =
    | Blank                            // an empty line, skipped
    | StatusRequest                    // starts with "order status"
    | OrderRequest(words: seq<string>) // otherwise starts with "order"
    | CollectRequest                   // exactly "collect"
    | ExitRequest                      // exactly "exit"
    | Unknown(line: string)            // "Unknown command: <line>"

  /**
   * Trim the line, skip it if empty, then match its lower-case form (CustomerHandler,
   * lines 48-56).
   */
  function Classify(raw: string): (c: Command)
    ensures c == Blank <==> Trim(raw) == []
    ensures c.Unknown? ==> c.line == Lower(Trim(raw))
  {
    var line := Trim(raw);
    if line == [] then Blank else Match(Lower(line))
  }

  /**
   * Lines 63-101: "order status" before "order", and "collect" and "exit" only as
   * the whole line. An order carries the line's words for parseOrderCommand.
   */
  function Match(lower: string): (c: Command)
    ensures c != Blank
    ensures c.OrderRequest? || c == StatusRequest ==> StartsWith(lower, "order")
    ensures c.OrderRequest? ==> |c.words| > 0 && StartsWith(c.words[0], "order")
  {
    if StartsWith(lower, "order status") then StatusRequest
    else if StartsWith(lower, "order") then OrderWordsStart(lower); OrderRequest(Words(lower))
    else if lower == "collect" then CollectRequest
    else if lower == "exit" then ExitRequest
    else Unknown(lower)
  }

  /** A line is skipped exactly when it holds nothing above U+0020. */
  lemma ClassifyBlank(raw: string)
    ensures Classify(raw) == Blank <==> forall k | 0 <= k < |raw| :: raw[k] <= ' '
  {
    var t := TrimStart(raw);
    if t != [] {
      assert t[0] > ' ';
      assert Trim(raw) != [];
      assert raw[|raw| - |t|] == t[0];
    }
  }

  /**
   * "order status" is matched before "order", so an order line never starts with
   * "order status"; "collect" and "exit" are matched only as the whole trimmed line.
   */
  lemma ClassifyPrecedence(raw: string)
    ensures var lower := Lower(Trim(raw));
            && (Classify(raw) == StatusRequest <==> StartsWith(lower, "order status"))
            && (Classify(raw).OrderRequest? <==> StartsWith(lower, "order") && !StartsWith(lower, "order status"))
            && (Classify(raw) == CollectRequest <==> lower == "collect")
            && (Classify(raw) == ExitRequest <==> lower == "exit")
  {
    var lower := Lower(Trim(raw));
    if lower == "collect" || lower == "exit" {
      assert lower[0] != 'o';
    }
  }

  /** The first word of `s`, after the word `cur` read so far, extends `cur`. */
  lemma {:induction false} FirstWordExtends(s: string, cur: string)
    requires cur != [] && forall k | 0 <= k < |cur| :: !IsSpace(cur[k])
    ensures WordsFrom(s, cur) != [] && StartsWith(WordsFrom(s, cur)[0], cur)
    decreases |s|
  {
    if s != [] && !IsSpace(s[0]) {
      FirstWordExtends(s[1..], cur + [s[0]]);
      var w := WordsFrom(s, cur)[0];
      assert w[..|cur| + 1] == cur + [s[0]];
      assert w[..|cur|] == (cur + [s[0]])[..|cur|];
    }
  }

  /** A line that starts with "order" splits into words, the first of which starts with "order". */
  lemma OrderWordsStart(lower: string)
    requires StartsWith(lower, "order")
    ensures Words(lower) != [] && StartsWith(Words(lower)[0], "order")
  {
    var order := "order";
    assert lower == order + lower[5..];
    WordsFromWord(order, lower[5..], []);
    assert [] + order == order;
    FirstWordExtends(lower[5..], order);
  }

  /** An order line has words, and its first word (the one parseOrderCommand skips) starts with "order". */
  lemma OrderLineWords(raw: string)
    requires Classify(raw).OrderRequest?
    ensures var ws := Classify(raw).words;
            ws != [] && StartsWith(ws[0], "order")
  {
    var lower := Lower(Trim(raw));
    assert Classify(raw) == Match(lower);
    OrderWordsStart(lower);
  }

  lemma LowerIdempotent(s: string)
    ensures Lower(Lower(s)) == Lower(s)
  {
  }

  lemma {:induction false} TrimStartLower(s: string)
    ensures TrimStart(Lower(s)) == Lower(TrimStart(s))
    decreases |s|
  {
    if s != [] {
      assert Lower(s)[0] == LowerChar(s[0]);
      if s[0] <= ' ' {
        assert Lower(s)[1..] == Lower(s[1..]);
        TrimStartLower(s[1..]);
      }
    }
  }

  lemma {:induction false} TrimEndLower(s: string)
    ensures TrimEnd(Lower(s)) == Lower(TrimEnd(s))
    decreases |s|
  {
    if s != [] {
      assert Lower(s)[|s| - 1] == LowerChar(s[|s| - 1]);
      if s[|s| - 1] <= ' ' {
        assert Lower(s)[..|s| - 1] == Lower(s[..|s| - 1]);
        TrimEndLower(s[..|s| - 1]);
      }
    }
  }

  lemma TrimLower(s: string)
    ensures Trim(Lower(s)) == Lower(Trim(s))
  {
    TrimStartLower(s);
    TrimEndLower(TrimStart(s));
  }

  /** Commands are case-insensitive: a line and its lower-case form are classified alike. */
  lemma ClassifyIgnoresCase(raw: string)
    ensures Classify(Lower(raw)) == Classify(raw)
  {
    var line := Trim(raw);
    TrimLower(raw);
    LowerIdempotent(line);
  }
}
