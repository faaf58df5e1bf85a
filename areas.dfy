/**
 * The item sequences of VirtualCafe.java's areas and what the cafe does to them:
 * tallies by customer and kind, removal of a customer's items (removeIf), removal of
 * one item by identity (ArrayList.remove), and the admission scan of the waiting area
 * (startBrewingIfCapacityAvailable) as a function of the queue and the two brewing
 * counters.
 */
module Areas {
  import opened Items

  const MaxBrewingTeas: nat := 2
  const MaxBrewingCoffees: nat := 2

  /** The number of items in `s` that belong to `name` and are of kind `t`. */
  function CountOf(s: seq<OrderItem>, name: string, t: ItemType): nat
  {
    if s == [] then 0
    else (if s[0].customerName == name && s[0].itemType == t then 1 else 0) + CountOf(s[1..], name, t)
  }

  /** The number of items of kind `t` in `s`, whoever owns them (the tallies of logState). */
  function CountKind(s: seq<OrderItem>, t: ItemType): nat
  {
    if s == [] then 0
    else (if s[0].itemType == t then 1 else 0) + CountKind(s[1..], t)
  }

  /** The items of kind `t` in `s`, in their order in `s`. */
  function OfKind(s: seq<OrderItem>, t: ItemType): seq<OrderItem>
  {
    if s == [] then []
    else (if s[0].itemType == t then [s[0]] else []) + OfKind(s[1..], t)
  }

  lemma {:induction false} CountConcat(a: seq<OrderItem>, b: seq<OrderItem>)
    ensures forall name, t :: CountOf(a + b, name, t) == CountOf(a, name, t) + CountOf(b, name, t)
    ensures forall t :: CountKind(a + b, t) == CountKind(a, t) + CountKind(b, t)
    ensures forall t :: OfKind(a + b, t) == OfKind(a, t) + OfKind(b, t)
  {
    if a == [] {
      assert a + b == b;
    } else {
      assert (a + b)[1..] == a[1..] + b;
      CountConcat(a[1..], b);
    }
  }

  /** The items of a kind in a sequence with an item in front. */
  lemma OfKindCons(x: OrderItem, s: seq<OrderItem>, t: ItemType)
    ensures OfKind([x] + s, t) == (if x.itemType == t then [x] else []) + OfKind(s, t)
  {
    assert ([x] + s)[1..] == s;
  }

  /** A single item counts once, for its own owner and kind. */
  lemma CountSingle(x: OrderItem)
    ensures forall c, t :: CountOf([x], c, t) == if x.customerName == c && x.itemType == t then 1 else 0
    ensures forall t :: CountKind([x], t) == if x.itemType == t then 1 else 0
  {
    assert [x][1..] == [];
  }

  /** An item whose owner or kind differs is not counted. */
  lemma {:induction false} CountOfAbsent(s: seq<OrderItem>, name: string)
    requires forall x | x in s :: x.customerName != name
    ensures forall t :: CountOf(s, name, t) == 0
  {
    if s != [] {
      assert forall x | x in s[1..] :: x in s;
      CountOfAbsent(s[1..], name);
    }
  }

  /** The items one placeOrder loop appends: `n` items of kind `t` for `name`, numbered from `firstId`. */
  function Batch(firstId: nat, name: string, t: ItemType, n: nat): (r: seq<OrderItem>)
    ensures |r| == n
    ensures forall k | 0 <= k < n :: r[k] == OrderItem(firstId + k, name, t)
  {
    if n == 0 then [] else Batch(firstId, name, t, n - 1) + [OrderItem(firstId + n - 1, name, t)]
  }

  /** A batch holds `n` items of its own owner and kind, and nothing else. */
  lemma {:induction false} BatchCounts(firstId: nat, name: string, t: ItemType, n: nat)
    ensures forall c, u :: CountOf(Batch(firstId, name, t, n), c, u) == if c == name && u == t then n else 0
    ensures forall u :: CountKind(Batch(firstId, name, t, n), u) == if u == t then n else 0
  {
    if n > 0 {
      var last := OrderItem(firstId + n - 1, name, t);
      BatchCounts(firstId, name, t, n - 1);
      var b := Batch(firstId, name, t, n - 1);
      assert Batch(firstId, name, t, n) == b + [last];
      CountConcat(b, [last]);
      CountSingle(last);
    }
  }

  /** removeIf(item -> item.getCustomerName().equals(name)): keeps everyone else's items, in order. */
  function Without(s: seq<OrderItem>, name: string): (r: seq<OrderItem>)
    ensures forall x | x in r :: x in s && x.customerName != name
  {
    if s == [] then []
    else (if s[0].customerName == name then [] else [s[0]]) + Without(s[1..], name)
  }

  /** Every item of another customer stays, and the tallies of other customers do not change. */
  lemma {:induction false} WithoutKeepsOthers(s: seq<OrderItem>, name: string)
    ensures forall x | x in s && x.customerName != name :: x in Without(s, name)
    ensures forall c, t :: CountOf(Without(s, name), c, t) == if c == name then 0 else CountOf(s, c, t)
  {
    if s != [] {
      var head := if s[0].customerName == name then [] else [s[0]];
      WithoutKeepsOthers(s[1..], name);
      CountConcat(head, Without(s[1..], name));
    }
  }

  /** Purging a customer only takes items away. */
  lemma {:induction false} WithoutShrinks(s: seq<OrderItem>, name: string)
    ensures multiset(Without(s, name)) <= multiset(s)
  {
    if s != [] {
      WithoutShrinks(s[1..], name);
      assert s == [s[0]] + s[1..];
      assert multiset(s) == multiset{s[0]} + multiset(s[1..]);
    }
  }

  /** Purging a customer lowers no count of a kind. */
  lemma {:induction false} WithoutShrinksKinds(s: seq<OrderItem>, name: string, t: ItemType)
    ensures CountKind(Without(s, name), t) <= CountKind(s, t)
  {
    if s != [] {
      var head := if s[0].customerName == name then [] else [s[0]];
      WithoutShrinksKinds(s[1..], name, t);
      CountConcat(head, Without(s[1..], name));
    }
  }

  /** Purging a customer who has no items changes nothing. */
  lemma {:induction false} WithoutAbsent(s: seq<OrderItem>, name: string)
    requires forall x | x in s :: x.customerName != name
    ensures Without(s, name) == s
  {
    if s != [] {
      assert s[0] in s;
      WithoutAbsent(s[1..], name);
      assert [s[0]] + s[1..] == s;
    }
  }

  /** Purging a customer a second time removes nothing more. */
  lemma WithoutIsIdempotent(s: seq<OrderItem>, name: string)
    ensures Without(Without(s, name), name) == Without(s, name)
  {
    WithoutAbsent(Without(s, name), name);
  }

  /** ArrayList.remove(item): drops the first occurrence of `x`, if there is one. */
  function RemoveFirst(s: seq<OrderItem>, x: OrderItem): (r: seq<OrderItem>)
    ensures |r| == if x in s then |s| - 1 else |s|
  {
    if s == [] then []
    else if s[0] == x then s[1..]
    else [s[0]] + RemoveFirst(s[1..], x)
  }

  /** Removing an item takes exactly one copy of it away, and nothing when it is absent. */
  lemma {:induction false} RemoveFirstRemoves(s: seq<OrderItem>, x: OrderItem)
    ensures x in s ==> multiset(RemoveFirst(s, x)) == multiset(s) - multiset{x}
    ensures x !in s ==> RemoveFirst(s, x) == s
  {
    if s != [] {
      assert s == [s[0]] + s[1..];
      if s[0] != x {
        RemoveFirstRemoves(s[1..], x);
        assert RemoveFirst(s, x) == [s[0]] + RemoveFirst(s[1..], x);
      }
    }
  }

  lemma {:induction false} RemoveFirstCounts(s: seq<OrderItem>, x: OrderItem)
    requires x in s
    ensures forall c, t :: CountOf(RemoveFirst(s, x), c, t)
                           == CountOf(s, c, t) - (if x.customerName == c && x.itemType == t then 1 else 0)
    ensures forall t :: CountKind(RemoveFirst(s, x), t) == CountKind(s, t) - (if x.itemType == t then 1 else 0)
  {
    if s[0] != x {
      RemoveFirstCounts(s[1..], x);
      CountConcat([s[0]], RemoveFirst(s[1..], x));
    }
  }

  /** The outcome of one admission scan: what moved to brewing, and what stays waiting. */
  datatype Admission = Admission(admitted: seq<OrderItem>, kept: seq<OrderItem>)

  /**
   * One pass over the waiting queue from its head, with `teas` teas and `coffees`
   * coffees already brewing: an item is admitted when its kind still has capacity,
   * and the pass goes on past items that must wait.
   */
  function Scan(w: seq<OrderItem>, teas: int, coffees: int): Admission
    decreases |w|
  {
    if w == [] then Admission([], [])
    else if w[0].itemType == Tea && teas < MaxBrewingTeas then
      var rest := Scan(w[1..], teas + 1, coffees);
      Admission([w[0]] + rest.admitted, rest.kept)
    else if w[0].itemType == Coffee && coffees < MaxBrewingCoffees then
      var rest := Scan(w[1..], teas, coffees + 1);
      Admission([w[0]] + rest.admitted, rest.kept)
    else
      var rest := Scan(w[1..], teas, coffees);
      Admission(rest.admitted, [w[0]] + rest.kept)
  }

  /** A scan that has already admitted `admitted` and kept `kept`, resumed on `w` with the given counters. */
  function Resume(w: seq<OrderItem>, teas: int, coffees: int, admitted: seq<OrderItem>, kept: seq<OrderItem>): Admission
  {
    var r := Scan(w, teas, coffees);
    Admission(admitted + r.admitted, kept + r.kept)
  }

  /** One step of a resumed scan: item `w[i]` is admitted when its kind has a free slot, else kept. */
  lemma ResumeStep(w: seq<OrderItem>, i: nat, teas: int, coffees: int, admitted: seq<OrderItem>, kept: seq<OrderItem>)
    requires i < |w|
    ensures Resume(w[i..], teas, coffees, admitted, kept) ==
      if w[i].itemType == Tea && teas < MaxBrewingTeas then Resume(w[i + 1..], teas + 1, coffees, admitted + [w[i]], kept)
      else if w[i].itemType == Coffee && coffees < MaxBrewingCoffees then Resume(w[i + 1..], teas, coffees + 1, admitted + [w[i]], kept)
      else Resume(w[i + 1..], teas, coffees, admitted, kept + [w[i]])
  {
    assert w[i..][1..] == w[i + 1..];
    var r1 := Scan(w[i + 1..], teas + 1, coffees);
    var r2 := Scan(w[i + 1..], teas, coffees + 1);
    var r3 := Scan(w[i + 1..], teas, coffees);
    assert admitted + ([w[i]] + r1.admitted) == admitted + [w[i]] + r1.admitted;
    assert admitted + ([w[i]] + r2.admitted) == admitted + [w[i]] + r2.admitted;
    assert kept + ([w[i]] + r3.kept) == kept + [w[i]] + r3.kept;
  }

  /** `w` is `a` and `k` merged: each keeps the relative order its items have in `w`. */
  ghost predicate Interleaving(w: seq<OrderItem>, a: seq<OrderItem>, k: seq<OrderItem>)
    decreases |w|
  {
    if w == [] then a == [] && k == []
    else
      (a != [] && a[0] == w[0] && Interleaving(w[1..], a[1..], k))
      || (k != [] && k[0] == w[0] && Interleaving(w[1..], a, k[1..]))
  }

  /** The scan splits the queue without reordering: admitted and kept items are both in arrival order. */
  lemma {:induction false} ScanInterleaves(w: seq<OrderItem>, teas: int, coffees: int)
    ensures Interleaving(w, Scan(w, teas, coffees).admitted, Scan(w, teas, coffees).kept)
  {
    if w != [] {
      if w[0].itemType == Tea && teas < MaxBrewingTeas {
        ScanInterleaves(w[1..], teas + 1, coffees);
      } else if w[0].itemType == Coffee && coffees < MaxBrewingCoffees {
        ScanInterleaves(w[1..], teas, coffees + 1);
      } else {
        ScanInterleaves(w[1..], teas, coffees);
      }
    }
  }

  /** A merge loses and gains nothing, for every customer and kind. */
  lemma {:induction false} InterleavingCounts(w: seq<OrderItem>, a: seq<OrderItem>, k: seq<OrderItem>)
    requires Interleaving(w, a, k)
    ensures forall c, t :: CountOf(a, c, t) + CountOf(k, c, t) == CountOf(w, c, t)
  {
    if w != [] {
      if a != [] && a[0] == w[0] && Interleaving(w[1..], a[1..], k) {
        InterleavingCounts(w[1..], a[1..], k);
      } else {
        InterleavingCounts(w[1..], a, k[1..]);
      }
    }
  }

  /** A merge loses and gains no item. */
  lemma {:induction false} InterleavingItems(w: seq<OrderItem>, a: seq<OrderItem>, k: seq<OrderItem>)
    requires Interleaving(w, a, k)
    ensures multiset(a) + multiset(k) == multiset(w)
  {
    if w != [] {
      assert w == [w[0]] + w[1..];
      if a != [] && a[0] == w[0] && Interleaving(w[1..], a[1..], k) {
        InterleavingItems(w[1..], a[1..], k);
        assert a == [a[0]] + a[1..];
      } else {
        InterleavingItems(w[1..], a, k[1..]);
        assert k == [k[0]] + k[1..];
      }
    }
  }

  /** A kind that is at capacity when the scan starts gets nothing admitted. */
  lemma {:induction false} ScanSkipsFullKind(w: seq<OrderItem>, teas: int, coffees: int, t: ItemType)
    requires if t == Tea then teas >= MaxBrewingTeas else coffees >= MaxBrewingCoffees
    ensures OfKind(Scan(w, teas, coffees).admitted, t) == []
  {
    if w != [] {
      var x := w[0];
      if x.itemType == Tea && teas < MaxBrewingTeas {
        ScanSkipsFullKind(w[1..], teas + 1, coffees, t);
        CountConcat([x], Scan(w[1..], teas + 1, coffees).admitted);
      } else if x.itemType == Coffee && coffees < MaxBrewingCoffees {
        ScanSkipsFullKind(w[1..], teas, coffees + 1, t);
        CountConcat([x], Scan(w[1..], teas, coffees + 1).admitted);
      } else {
        ScanSkipsFullKind(w[1..], teas, coffees, t);
      }
    }
  }

  /**
   * First come, first served within a kind: the admitted items of a kind are the
   * earliest items of that kind in the queue, and the rest of that kind keep waiting
   * in their order.
   */
  lemma {:induction false} ScanFifoPerKind(w: seq<OrderItem>, teas: int, coffees: int, t: ItemType)
    ensures OfKind(Scan(w, teas, coffees).admitted, t) + OfKind(Scan(w, teas, coffees).kept, t) == OfKind(w, t)
  {
    if w != [] {
      var x := w[0];
      assert w == [x] + w[1..];
      if x.itemType == Tea && teas < MaxBrewingTeas {
        var rest := Scan(w[1..], teas + 1, coffees);
        ScanFifoPerKind(w[1..], teas + 1, coffees, t);
        FrontAdmitted(x, w[1..], rest.admitted, rest.kept, t);
      } else if x.itemType == Coffee && coffees < MaxBrewingCoffees {
        var rest := Scan(w[1..], teas, coffees + 1);
        ScanFifoPerKind(w[1..], teas, coffees + 1, t);
        FrontAdmitted(x, w[1..], rest.admitted, rest.kept, t);
      } else {
        var rest := Scan(w[1..], teas, coffees);
        ScanFifoPerKind(w[1..], teas, coffees, t);
        if x.itemType == t {
          ScanSkipsFullKind(w[1..], teas, coffees, t);
        }
        FrontKept(x, w[1..], rest.admitted, rest.kept, t);
      }
    }
  }

  /** Admitting the front item keeps the split of a kind in queue order. */
  lemma FrontAdmitted(x: OrderItem, w: seq<OrderItem>, a: seq<OrderItem>, k: seq<OrderItem>, t: ItemType)
    requires OfKind(a, t) + OfKind(k, t) == OfKind(w, t)
    ensures OfKind([x] + a, t) + OfKind(k, t) == OfKind([x] + w, t)
  {
    OfKindCons(x, a, t);
    OfKindCons(x, w, t);
    var head := if x.itemType == t then [x] else [];
    assert (head + OfKind(a, t)) + OfKind(k, t) == head + (OfKind(a, t) + OfKind(k, t));
  }

  /** Keeping the front item keeps the split too, when nothing of its kind was admitted. */
  lemma FrontKept(x: OrderItem, w: seq<OrderItem>, a: seq<OrderItem>, k: seq<OrderItem>, t: ItemType)
    requires OfKind(a, t) + OfKind(k, t) == OfKind(w, t)
    requires x.itemType == t ==> OfKind(a, t) == []
    ensures OfKind(a, t) + OfKind([x] + k, t) == OfKind([x] + w, t)
  {
    OfKindCons(x, k, t);
    OfKindCons(x, w, t);
    var head := if x.itemType == t then [x] else [];
    assert OfKind(a, t) + (head + OfKind(k, t)) == head + (OfKind(a, t) + OfKind(k, t));
  }

  /**
   * The scan never overfills a kind, and it leaves an item of a kind waiting only
   * when that kind is at capacity afterwards.
   */
  lemma {:induction false} ScanRespectsCapacity(w: seq<OrderItem>, teas: int, coffees: int)
    requires teas <= MaxBrewingTeas && coffees <= MaxBrewingCoffees
    ensures var r := Scan(w, teas, coffees);
      && teas + CountKind(r.admitted, Tea) <= MaxBrewingTeas
      && coffees + CountKind(r.admitted, Coffee) <= MaxBrewingCoffees
      && (CountKind(r.kept, Tea) == 0 || teas + CountKind(r.admitted, Tea) == MaxBrewingTeas)
      && (CountKind(r.kept, Coffee) == 0 || coffees + CountKind(r.admitted, Coffee) == MaxBrewingCoffees)
  {
    if w != [] {
      var x := w[0];
      if x.itemType == Tea && teas < MaxBrewingTeas {
        var rest := Scan(w[1..], teas + 1, coffees);
        ScanRespectsCapacity(w[1..], teas + 1, coffees);
        CountConcat([x], rest.admitted);
      } else if x.itemType == Coffee && coffees < MaxBrewingCoffees {
        var rest := Scan(w[1..], teas, coffees + 1);
        ScanRespectsCapacity(w[1..], teas, coffees + 1);
        CountConcat([x], rest.admitted);
      } else {
        var rest := Scan(w[1..], teas, coffees);
        ScanRespectsCapacity(w[1..], teas, coffees);
        CountConcat([x], rest.kept);
      }
    }
  }

  /** When every waiting kind is at capacity, a scan admits nothing. */
  lemma {:induction false} ScanAtCapacity(k: seq<OrderItem>, teas: int, coffees: int)
    requires CountKind(k, Tea) == 0 || teas >= MaxBrewingTeas
    requires CountKind(k, Coffee) == 0 || coffees >= MaxBrewingCoffees
    ensures Scan(k, teas, coffees) == Admission([], k)
  {
    if k != [] {
      CountConcat([k[0]], k[1..]);
      assert k == [k[0]] + k[1..];
      ScanAtCapacity(k[1..], teas, coffees);
    }
  }

  /** One pass suffices: scanning what is left, with the counters the pass ended with, admits nothing more. */
  lemma ScanIsSaturating(w: seq<OrderItem>, teas: int, coffees: int)
    requires teas <= MaxBrewingTeas && coffees <= MaxBrewingCoffees
    ensures var r := Scan(w, teas, coffees);
      Scan(r.kept, teas + CountKind(r.admitted, Tea), coffees + CountKind(r.admitted, Coffee)) == Admission([], r.kept)
  {
    var r := Scan(w, teas, coffees);
    ScanRespectsCapacity(w, teas, coffees);
    ScanAtCapacity(r.kept, teas + CountKind(r.admitted, Tea), coffees + CountKind(r.admitted, Coffee));
  }
}
