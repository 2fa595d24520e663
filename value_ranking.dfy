/**
 * Value ranking (`find_best_value_flights`): the records sorted by price,
 * those priced at most 1.2 times the average nonzero price, at most eight.
 */
module ValueRanking {
  import opened Wrappers
  import opened Flights

  /** At most this many flights are returned. */
  const MaxValueFlights := 8

  /** The sort key of a record; only consulted when every record has a price. */
  function Key(r: FlightRecord): int {
    r.price.GetOr(0)
  }

  /** Every record has a price (none is `None`), so every comparison is between numbers. */
  predicate AllPriced(s: seq<FlightRecord>) {
    forall i | 0 <= i < |s| :: s[i].price.Some?
  }

  /** The sequence is in non-decreasing price order. */
  predicate SortedByPrice(s: seq<FlightRecord>) {
    forall i, j | 0 <= i < j < |s| :: Key(s[i]) <= Key(s[j])
  }

  /** A test a record passes or fails: a given price, or the value threshold. */
  datatype Criterion =
    | PricedAt(p: int)
    | WithinThreshold(total: int, count: nat)
    | TruthyPrice

  /** `avg_price`: the mean of `count` prices summing to `total`, and `0` when there are none. */
  function Average(total: int, count: nat): real {
    if count == 0 then 0.0 else total as real / count as real
  }

  /**
   * `price <= avg_price * 1.2`, decided in integers: with `count` truthy
   * prices summing to `total`, `5 * price * count <= 6 * total`, and
   * `price <= 0` when there are none.
   */
  predicate Qualifies(r: FlightRecord, total: int, count: nat) {
    if count == 0 then Key(r) <= 0 else 5 * (Key(r) * count) <= 6 * total
  }

  /**
   * The integer test is the source's `price <= avg_price * 1.2` read in
   * exact arithmetic: multiplying out the positive count turns the one
   * into the other.
   */
  lemma QualifiesAverage(r: FlightRecord, total: int, count: nat)
    ensures Qualifies(r, total, count) <==> Key(r) as real <= Average(total, count) * 1.2
  {
    var price := Key(r);
    if count > 0 {
      var c := count as real;
      var avg := total as real / c;
      assert avg * c == total as real;
      assert price as real <= avg * 1.2 <==> price as real * c <= avg * 1.2 * c;
      assert avg * 1.2 * c == 1.2 * total as real;
      assert (5 * (price * count)) as real == 5.0 * (price as real * c);
    }
  }

  predicate Accepts(c: Criterion, r: FlightRecord) {
    match c
    case PricedAt(p) => Key(r) == p
    case WithinThreshold(total, count) => Qualifies(r, total, count)
    case TruthyPrice => Key(r) != 0
  }

  /** The records of `s` that `c` accepts, in their order in `s`. */
  function Select(s: seq<FlightRecord>, c: Criterion): (t: seq<FlightRecord>)
    ensures |t| <= |s|
    ensures forall i | 0 <= i < |t| :: Accepts(c, t[i])
  {
    if s == [] then []
    else (if Accepts(c, s[0]) then [s[0]] else []) + Select(s[1..], c)
  }

  /** Selection distributes over concatenation. */
  lemma {:induction false} SelectAppend(a: seq<FlightRecord>, b: seq<FlightRecord>, c: Criterion)
    ensures Select(a + b, c) == Select(a, c) + Select(b, c)
    decreases |a|
  {
    if a == [] {
      assert a + b == b;
    } else {
      assert (a + b)[1..] == a[1..] + b;
      SelectAppend(a[1..], b, c);
    }
  }

  /** Selection takes records of its input only, each at most as often. */
  lemma {:induction false} SelectSubMultiset(s: seq<FlightRecord>, c: Criterion)
    ensures multiset(Select(s, c)) <= multiset(s)
    decreases |s|
  {
    if s != [] {
      SelectSubMultiset(s[1..], c);
      assert s == [s[0]] + s[1..];
    }
  }

  /** Taking the same record out of two permutations of each other leaves permutations. */
  lemma RemoveMatching(a: seq<FlightRecord>, b: seq<FlightRecord>, k: int)
    requires multiset(a) == multiset(b) && a != [] && 0 <= k < |b| && b[k] == a[0]
    ensures multiset(a[1..]) == multiset(b[..k] + b[k + 1..])
  {
    var x := a[0];
    assert a == [x] + a[1..];
    assert b == b[..k] + ([x] + b[k + 1..]);
    forall y
      ensures multiset(a[1..])[y] == multiset(b[..k] + b[k + 1..])[y]
    {
      assert multiset(a)[y] == multiset{x}[y] + multiset(a[1..])[y];
      assert multiset(b)[y] == multiset(b[..k])[y] + multiset{x}[y] + multiset(b[k + 1..])[y];
    }
  }

  /** Selecting from `b` with its `k`-th record moved to the front selects the same multiset. */
  lemma SelectMoveToFront(b: seq<FlightRecord>, k: int, c: Criterion)
    requires 0 <= k < |b|
    ensures multiset(Select(b, c)) == multiset(Select([b[k]] + (b[..k] + b[k + 1..]), c))
  {
    var x := b[k];
    assert b == (b[..k] + [x]) + b[k + 1..];
    SelectAppend(b[..k] + [x], b[k + 1..], c);
    SelectAppend(b[..k], [x], c);
    SelectAppend(b[..k], b[k + 1..], c);
    SelectAppend([x], b[..k] + b[k + 1..], c);
  }

  /** Selection sees only the multiset of its input. */
  lemma {:induction false} SelectPermutation(a: seq<FlightRecord>, b: seq<FlightRecord>, c: Criterion)
    requires multiset(a) == multiset(b)
    ensures multiset(Select(a, c)) == multiset(Select(b, c))
    decreases |a|
  {
    if a != [] {
      assert a[0] in multiset(b);
      var k :| 0 <= k < |b| && b[k] == a[0];
      var rest := b[..k] + b[k + 1..];
      RemoveMatching(a, b, k);
      SelectPermutation(a[1..], rest, c);
      SelectMoveToFront(b, k, c);
      assert ([a[0]] + rest)[1..] == rest;
    }
  }

  /** Nothing is selected from records that `c` rejects. */
  lemma {:induction false} NoneSelected(s: seq<FlightRecord>, c: Criterion)
    requires forall i | 0 <= i < |s| :: !Accepts(c, s[i])
    ensures Select(s, c) == []
    decreases |s|
  {
    if s != [] {
      NoneSelected(s[1..], c);
    }
  }

  /** The records priced exactly `p`, in order: the subsequence a stable sort must preserve. */
  function WithPrice(s: seq<FlightRecord>, p: int): seq<FlightRecord> {
    Select(s, PricedAt(p))
  }

  /** Where `sorted` places `x` in the already sorted `t`: before the first record priced at least as much. */
  function InsertionPoint(x: FlightRecord, t: seq<FlightRecord>): (k: nat)
    ensures k <= |t|
    ensures forall i | 0 <= i < k :: Key(t[i]) < Key(x)
    ensures k < |t| ==> Key(x) <= Key(t[k])
  {
    if t == [] || Key(x) <= Key(t[0]) then 0 else 1 + InsertionPoint(x, t[1..])
  }

  /** `t` with `x` inserted at its insertion point. */
  function Insert(x: FlightRecord, t: seq<FlightRecord>): seq<FlightRecord> {
    var k := InsertionPoint(x, t);
    t[..k] + [x] + t[k..]
  }

  /**
   * Python's `sorted` by price: a stable sort, built by inserting each
   * record in front of the later records it is not dearer than.
   */
  function SortByPrice(s: seq<FlightRecord>): (sorted: seq<FlightRecord>)
    ensures |sorted| == |s|
    decreases |s|
  {
    if s == [] then [] else Insert(s[0], SortByPrice(s[1..]))
  }

  /** Inserting into a sorted sequence keeps it sorted. */
  lemma InsertSorted(x: FlightRecord, t: seq<FlightRecord>)
    requires SortedByPrice(t)
    ensures SortedByPrice(Insert(x, t))
  {
    var k := InsertionPoint(x, t);
    var u := Insert(x, t);
    assert |u| == |t| + 1;
    forall i, j | 0 <= i < j < |u|
      ensures Key(u[i]) <= Key(u[j])
    {
      if j < k {
        assert u[i] == t[i] && u[j] == t[j];
      } else if i > k {
        assert u[i] == t[i - 1] && u[j] == t[j - 1];
      } else if i == k {
        assert u[i] == x && u[j] == t[j - 1];
      } else if j == k {
        assert u[i] == t[i] && u[j] == x;
      } else {
        assert u[i] == t[i] && u[j] == t[j - 1];
      }
    }
  }

  /** Inserting adds exactly `x`. */
  lemma InsertMultiset(x: FlightRecord, t: seq<FlightRecord>)
    ensures multiset(Insert(x, t)) == multiset(t) + multiset{x}
  {
    var k := InsertionPoint(x, t);
    assert t == t[..k] + t[k..];
  }

  /** Selecting from `t` with `x` inserted: the part before the insertion point, `x`, the rest. */
  lemma SelectInsert(x: FlightRecord, t: seq<FlightRecord>, c: Criterion)
    ensures var k := InsertionPoint(x, t);
            Select(Insert(x, t), c) == Select(t[..k], c) + Select([x], c) + Select(t[k..], c)
  {
    var k := InsertionPoint(x, t);
    SelectAppend(t[..k] + [x], t[k..], c);
    SelectAppend(t[..k], [x], c);
  }

  /** Selecting from `[x] + t`, with `t` cut anywhere. */
  lemma SelectCons(x: FlightRecord, t: seq<FlightRecord>, k: int, c: Criterion)
    requires 0 <= k <= |t|
    ensures Select([x] + t, c) == Select([x], c) + Select(t[..k], c) + Select(t[k..], c)
  {
    assert t == t[..k] + t[k..];
    SelectAppend([x], t, c);
    SelectAppend(t[..k], t[k..], c);
  }

  /** Among the records of its own price, `x` goes first, as it did in `[x] + t`. */
  lemma InsertStable(x: FlightRecord, t: seq<FlightRecord>, p: int)
    ensures WithPrice(Insert(x, t), p) == WithPrice([x] + t, p)
  {
    var k := InsertionPoint(x, t);
    var c := PricedAt(p);
    SelectInsert(x, t, c);
    SelectCons(x, t, k, c);
    if Key(x) == p {
      NoneSelected(t[..k], c);
    } else {
      assert [x][1..] == [];
    }
  }

  /** `sorted` orders the records by price. */
  lemma {:induction false} SortByPriceSorted(s: seq<FlightRecord>)
    ensures SortedByPrice(SortByPrice(s))
    decreases |s|
  {
    if s != [] {
      SortByPriceSorted(s[1..]);
      InsertSorted(s[0], SortByPrice(s[1..]));
    }
  }

  /** `sorted` returns a permutation of its input. */
  lemma {:induction false} SortByPricePermutation(s: seq<FlightRecord>)
    ensures multiset(SortByPrice(s)) == multiset(s)
    decreases |s|
  {
    if s != [] {
      SortByPricePermutation(s[1..]);
      InsertMultiset(s[0], SortByPrice(s[1..]));
      assert s == [s[0]] + s[1..];
    }
  }

  /** `sorted` is stable: for every price, the records of that price keep their input order. */
  lemma {:induction false} SortByPriceStable(s: seq<FlightRecord>, p: int)
    ensures WithPrice(SortByPrice(s), p) == WithPrice(s, p)
    decreases |s|
  {
    if s != [] {
      var t := SortByPrice(s[1..]);
      SortByPriceStable(s[1..], p);
      InsertStable(s[0], t, p);
      assert s == [s[0]] + s[1..];
      SelectAppend([s[0]], t, PricedAt(p));
      SelectAppend([s[0]], s[1..], PricedAt(p));
    }
  }

  /** The sum of the prices of some records. */
  function SumOfPrices(s: seq<FlightRecord>): int {
    if s == [] then 0 else Key(s[0]) + SumOfPrices(s[1..])
  }

  /**
   * `sum(prices)`, where `prices` are the truthy prices (`None` and `0`
   * are left out): the sum over the records with a truthy price.
   */
  function PricedSum(s: seq<FlightRecord>): int {
    if s == [] then 0 else (if Key(s[0]) != 0 then Key(s[0]) else 0) + PricedSum(s[1..])
  }

  /** `len(prices)`: how many records have a truthy price. */
  function PricedCount(s: seq<FlightRecord>): (n: nat)
    ensures n <= |s|
  {
    if s == [] then 0 else (if Key(s[0]) != 0 then 1 else 0) + PricedCount(s[1..])
  }

  /**
   * The records of `s` priced within 20% of the average `total / count`:
   * exactly the qualifying records of `s`, in their order.
   */
  function Qualifying(s: seq<FlightRecord>, total: int, count: nat): seq<FlightRecord> {
    Select(s, WithinThreshold(total, count))
  }

  /** The filter keeps flights of the input that qualify, and every one of them. */
  lemma QualifyingMembers(s: seq<FlightRecord>, total: int, count: nat)
    ensures forall x | x in Qualifying(s, total, count) :: x in s && Qualifies(x, total, count)
    ensures forall x | x in s && Qualifies(x, total, count) :: x in Qualifying(s, total, count)
  {
    SelectMembers(s, WithinThreshold(total, count));
  }

  /**
   * `prices` is the list of the truthy prices: `PricedCount` is its length
   * and `PricedSum` its sum.
   */
  lemma {:induction false} PricesList(s: seq<FlightRecord>)
    ensures PricedCount(s) == |Select(s, TruthyPrice)|
    ensures PricedSum(s) == SumOfPrices(Select(s, TruthyPrice))
    decreases |s|
  {
    if s != [] {
      PricesList(s[1..]);
      var rest := Select(s[1..], TruthyPrice);
      if Key(s[0]) != 0 {
        assert Select(s, TruthyPrice) == [s[0]] + rest;
        assert ([s[0]] + rest)[1..] == rest;
      } else {
        assert Select(s, TruthyPrice) == rest;
      }
    }
  }

  /** A record is selected exactly when it is in the input and accepted. */
  lemma {:induction false} SelectMembers(s: seq<FlightRecord>, c: Criterion)
    ensures forall x :: x in Select(s, c) <==> x in s && Accepts(c, x)
    decreases |s|
  {
    if s != [] {
      SelectMembers(s[1..], c);
      assert forall x :: x in s <==> x == s[0] || x in s[1..];
    }
  }

  /**
   * `find_best_value_flights`. `None` stands for the `TypeError` the source
   * raises when a record's price is `None`: the sort and the threshold then
   * compare `None` with a number.
   */
  function FindBestValueFlights(s: seq<FlightRecord>): (r: Option<seq<FlightRecord>>)
    ensures r.None? <==> s != [] && !AllPriced(s)
    ensures r.Some? ==> |r.value| <= MaxValueFlights
  {
    if s == [] then Some([])
    else if !AllPriced(s) then None
    else Some(Text.Take(Qualifying(SortByPrice(s), PricedSum(s), PricedCount(s)), MaxValueFlights))
  }

  /** A cheaper record qualifies whenever a dearer one does. */
  lemma QualifiesDownward(a: FlightRecord, b: FlightRecord, total: int, count: nat)
    requires Key(a) <= Key(b) && Qualifies(b, total, count)
    ensures Qualifies(a, total, count)
  {
    if count > 0 {
      assert Key(a) * count <= Key(b) * count;
    }
  }

  /** Of a price-sorted sequence, the qualifying records are a prefix. */
  lemma {:induction false} QualifyingPrefix(t: seq<FlightRecord>, total: int, count: nat)
    requires SortedByPrice(t)
    ensures var q := Qualifying(t, total, count); |q| <= |t| && q == t[..|q|]
    decreases |t|
  {
    if t != [] {
      var c := WithinThreshold(total, count);
      assert Qualifying(t, total, count) == Select(t, c);
      assert Qualifying(t[1..], total, count) == Select(t[1..], c);
      assert SortedByPrice(t[1..]);
      if Accepts(c, t[0]) {
        QualifyingPrefix(t[1..], total, count);
        assert Select(t, c) == [t[0]] + Select(t[1..], c);
        assert t == [t[0]] + t[1..];
      } else {
        forall i | 0 <= i < |t[1..]|
          ensures !Accepts(c, t[1..][i])
        {
          if Accepts(c, t[1..][i]) {
            QualifiesDownward(t[0], t[1..][i], total, count);
          }
        }
        NoneSelected(t[1..], c);
      }
    }
  }

  /** The result is the first records both of the qualifying ones and of the sorted input. */
  lemma RankedPrefix(s: seq<FlightRecord>)
    requires s != [] && AllPriced(s)
    ensures var r := FindBestValueFlights(s).value;
            var t := SortByPrice(s);
            var q := Qualifying(t, PricedSum(s), PricedCount(s));
            |r| <= |q| <= |t| && r == q[..|r|] && r == t[..|r|]
  {
    var t := SortByPrice(s);
    SortByPriceSorted(s);
    QualifyingPrefix(t, PricedSum(s), PricedCount(s));
  }

  /**
   * The result is ordered by price, and its records are records of the
   * input that qualify.
   */
  lemma BestValueSound(s: seq<FlightRecord>)
    requires AllPriced(s)
    ensures var r := FindBestValueFlights(s).value;
            && SortedByPrice(r)
            && multiset(r) <= multiset(s)
            && forall x | x in r :: Qualifies(x, PricedSum(s), PricedCount(s))
  {
    if s != [] {
      var t := SortByPrice(s);
      var r := FindBestValueFlights(s).value;
      RankedPrefix(s);
      BestValueSorted(s);
      BestValueQualifies(s);
      SortByPricePermutation(s);
      assert multiset(r) <= multiset(t) by {
        assert t == r + t[|r|..];
      }
    }
  }

  /** The ranked records keep the order of the sort. */
  lemma BestValueSorted(s: seq<FlightRecord>)
    requires s != [] && AllPriced(s)
    ensures SortedByPrice(FindBestValueFlights(s).value)
  {
    var t := SortByPrice(s);
    var r := FindBestValueFlights(s).value;
    RankedPrefix(s);
    SortByPriceSorted(s);
    forall i, j | 0 <= i < j < |r|
      ensures Key(r[i]) <= Key(r[j])
    {
      assert r[i] == t[i] && r[j] == t[j];
    }
  }

  /** Every ranked record is within the threshold. */
  lemma BestValueQualifies(s: seq<FlightRecord>)
    requires s != [] && AllPriced(s)
    ensures forall x | x in FindBestValueFlights(s).value :: Qualifies(x, PricedSum(s), PricedCount(s))
  {
    var q := Qualifying(SortByPrice(s), PricedSum(s), PricedCount(s));
    var r := FindBestValueFlights(s).value;
    RankedPrefix(s);
    forall x | x in r
      ensures Qualifies(x, PricedSum(s), PricedCount(s))
    {
      var i :| 0 <= i < |r| && r[i] == x;
      assert q[i] == x;
      assert Accepts(WithinThreshold(PricedSum(s), PricedCount(s)), q[i]);
    }
  }


  /**
   * The result is the cheapest end of the price-sorted input: a prefix of
   * it, as long as there are qualifying records, up to eight.
   */
  lemma BestValueCheapest(s: seq<FlightRecord>)
    requires AllPriced(s)
    ensures var r := FindBestValueFlights(s).value;
            var q := Qualifying(s, PricedSum(s), PricedCount(s));
            && r == SortByPrice(s)[..|r|]
            && |r| == if |q| < MaxValueFlights then |q| else MaxValueFlights
  {
    if s != [] {
      var t := SortByPrice(s);
      RankedPrefix(s);
      SortByPricePermutation(s);
      var c := WithinThreshold(PricedSum(s), PricedCount(s));
      SelectPermutation(t, s, c);
      assert |Select(t, c)| == |multiset(Select(t, c))|;
      assert |Select(s, c)| == |multiset(Select(s, c))|;
    }
  }

  /** With no record left out, every qualifying record of the input is in the result. */
  lemma BestValueComplete(s: seq<FlightRecord>)
    requires AllPriced(s)
    ensures var r := FindBestValueFlights(s).value;
            |r| < MaxValueFlights ==> multiset(r) == multiset(Qualifying(s, PricedSum(s), PricedCount(s)))
  {
    if s != [] {
      var t := SortByPrice(s);
      SortByPriceSorted(s);
      SortByPricePermutation(s);
      SelectPermutation(t, s, WithinThreshold(PricedSum(s), PricedCount(s)));
    }
  }

  /** Every record is priced at least as much as `m`, so the truthy prices sum to at least `m` each. */
  lemma {:induction false} SumAtLeast(s: seq<FlightRecord>, m: int)
    requires forall i | 0 <= i < |s| :: m <= Key(s[i])
    ensures m * PricedCount(s) <= PricedSum(s)
    decreases |s|
  {
    if s != [] {
      SumAtLeast(s[1..], m);
    }
  }

  /** With no negative price, a non-zero count means a non-negative sum, and a zero count means every price is zero. */
  lemma {:induction false} NonNegativePrices(s: seq<FlightRecord>)
    requires forall i | 0 <= i < |s| :: 0 <= Key(s[i])
    ensures 0 <= PricedSum(s)
    ensures PricedCount(s) == 0 ==> forall i | 0 <= i < |s| :: Key(s[i]) == 0
    decreases |s|
  {
    if s != [] {
      NonNegativePrices(s[1..]);
      if PricedCount(s) == 0 {
        forall i | 0 <= i < |s|
          ensures Key(s[i]) == 0
        {
          if i > 0 {
            assert s[i] == s[1..][i - 1];
          }
        }
      }
    }
  }

  /** With no negative price, the cheapest flight always qualifies: a non-empty search yields a non-empty result. */
  lemma BestValueNonEmpty(s: seq<FlightRecord>)
    requires s != [] && AllPriced(s)
    requires forall i | 0 <= i < |s| :: 0 <= Key(s[i])
    ensures |FindBestValueFlights(s).value| > 0
  {
    var t := SortByPrice(s);
    CheapestQualifies(s);
    assert t == [t[0]] + t[1..];
    SelectAppend([t[0]], t[1..], WithinThreshold(PricedSum(s), PricedCount(s)));
  }

  /** With no negative price, the cheapest record is within the threshold. */
  lemma CheapestQualifies(s: seq<FlightRecord>)
    requires s != [] && AllPriced(s)
    requires forall i | 0 <= i < |s| :: 0 <= Key(s[i])
    ensures SortByPrice(s) != [] && Qualifies(SortByPrice(s)[0], PricedSum(s), PricedCount(s))
  {
    var t := SortByPrice(s);
    SortByPriceSorted(s);
    SortByPricePermutation(s);
    assert t != [] by {
      assert |multiset(t)| == |multiset(s)| == |s|;
    }
    var m := t[0];
    forall i | 0 <= i < |s|
      ensures Key(m) <= Key(s[i])
    {
      assert s[i] in multiset(t);
      var j :| 0 <= j < |t| && t[j] == s[i];
    }
    NonNegativePrices(s);
    if PricedCount(s) == 0 {
      assert s[0] in multiset(t);
      assert Key(m) <= 0;
    } else {
      SumAtLeast(s, Key(m));
    }
  }


  /** An unpriced record makes the ranking raise, whatever the others are. */
  lemma BestValueUnpriced(s: seq<FlightRecord>, i: int)
    requires 0 <= i < |s| && s[i].price.None?
    ensures FindBestValueFlights(s).None?
  {
  }

  /** A record that differs from the others of an example only in its price and airline. */
  function Sample(price: int, airline: string): FlightRecord {
    FlightRecord(0, None, Some(price), None, airline, "", "", "", "", "", None, "", "", NoReturnLeg,
                 BookingLink("", "", 0), JsonValues.JArr([]))
  }

  /** The example's sort: the cheap flights first, in their input order. */
  lemma ExampleSort(a: FlightRecord, b: FlightRecord, c: FlightRecord)
    requires Key(a) == 100 && Key(b) == 1000 && Key(c) == 100
    ensures SortByPrice([a, b, c]) == [a, c, b]
  {
    assert [a, b, c][1..] == [b, c] && [b, c][1..] == [c] && [c][1..] == [];
    assert SortByPrice([c]) == [c];
    assert SortByPrice([b, c]) == [c, b];
  }

  /** The example's threshold inputs: three truthy prices summing to 1200. */
  lemma ExampleSums(a: FlightRecord, b: FlightRecord, c: FlightRecord)
    requires Key(a) == 100 && Key(b) == 1000 && Key(c) == 100
    ensures PricedSum([a, b, c]) == 1200 && PricedCount([a, b, c]) == 3
  {
    assert [a, b, c][1..] == [b, c] && [b, c][1..] == [c] && [c][1..] == [];
    assert PricedSum([c]) == 100 && PricedCount([c]) == 1;
    assert PricedSum([b, c]) == 1100 && PricedCount([b, c]) == 2;
  }

  /** The example's filter: 100 is within 480, 1000 is not. */
  lemma ExampleQualifying(a: FlightRecord, b: FlightRecord, c: FlightRecord)
    requires Key(a) == 100 && Key(b) == 1000 && Key(c) == 100
    ensures Qualifying([a, c, b], 1200, 3) == [a, c]
  {
    assert [a, c, b][1..] == [c, b] && [c, b][1..] == [b] && [b][1..] == [];
    assert Qualifying([b], 1200, 3) == [];
    assert Qualifying([c, b], 1200, 3) == [c];
  }

  /**
   * Prices 100, 1000 and 100 average 400, so the threshold is 480: the
   * two cheap flights are kept, in their input order.
   */
  lemma BestValueExample()
    ensures var a, b, c := Sample(100, "A"), Sample(1000, "B"), Sample(100, "C");
            FindBestValueFlights([a, b, c]) == Some([a, c])
  {
    var a, b, c := Sample(100, "A"), Sample(1000, "B"), Sample(100, "C");
    ExampleSort(a, b, c);
    ExampleSums(a, b, c);
    ExampleQualifying(a, b, c);
    assert AllPriced([a, b, c]);
  }
}
