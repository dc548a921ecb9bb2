/** `RangeSet` (src/ranges.rs): a set of u64 values kept as disjoint half-open
    ranges in an ordered map from the start of a range to its end.

    The pure functions say what each operation does to the map; the class has the
    source's loops and is proved to compute them; the lemmas relate the map to the
    mathematical set of values it stands for. */
module Ranges {
  import opened Base

  /** A half-open range of values; empty when `end <= start`. */
  datatype Range = Range(start: nat, end: nat)

  /** The ordered map inside a `RangeSet`: start of a range -> its end. */
  type Map = map<nat, nat>

  // ---------------------------------------------------------------- ordered map

  function Greatest(s: set<nat>): (x: nat)
    requires s != {}
    ensures x in s && forall y | y in s :: y <= x
  {
    GreatestExists(s);
    var x :| x in s && forall y | y in s :: y <= x;
    x
  }

  function Least(s: set<nat>): (x: nat)
    requires s != {}
    ensures x in s && forall y | y in s :: x <= y
  {
    LeastExists(s);
    var x :| x in s && forall y | y in s :: x <= y;
    x
  }

  lemma GreatestExists(s: set<nat>)
    requires s != {}
    ensures exists x :: x in s && forall y | y in s :: y <= x
  {
    var x :| x in s;
    if y :| y in s && x < y {
      assert y in s - {x};
      GreatestExists(s - {x});
      var z :| z in s - {x} && forall w | w in s - {x} :: w <= z;
      forall w | w in s ensures w <= z { assert y <= z; assert w == x || w in s - {x}; }
    }
  }

  lemma LeastExists(s: set<nat>)
    requires s != {}
    ensures exists x :: x in s && forall y | y in s :: x <= y
  {
    var x :| x in s;
    LeastFrom(s, x);
  }

  lemma LeastFrom(s: set<nat>, x: nat)
    requires x in s
    ensures exists z :: z in s && forall y | y in s :: z <= y
  {
    if y :| y in s && y < x { LeastFrom(s, y); }
  }

  lemma GreatestIs(s: set<nat>, k: nat)
    requires k in s && forall y | y in s :: y <= k
    ensures Greatest(s) == k
  {
  }

  /** The start of the closest range that begins at or before `x`. */
  function PrevTo(m: Map, x: nat): (r: Option<nat>)
    ensures r.None? ==> forall k | k in m :: x < k
    ensures r.Some? ==> r.value in m && r.value <= x && forall k | k in m && k <= x :: k <= r.value
  {
    var below := set k | k in m && k <= x;
    assert forall k | k in m && k <= x :: k in below;
    if below == {} then None else Some(Greatest(below))
  }

  /** The start of the closest range that begins at or after `x`. */
  function NextTo(m: Map, x: nat): (r: Option<nat>)
    ensures r.None? ==> forall k | k in m :: k < x
    ensures r.Some? ==> r.value in m && x <= r.value && forall k | k in m && x <= k :: r.value <= k
  {
    var above := set k | k in m && x <= k;
    assert forall k | k in m && x <= k :: k in above;
    if above == {} then None else Some(Least(above))
  }

  // -------------------------------------------------------------- what it stands for

  /** Every range is non-empty and at least one value is missing between two ranges. */
  ghost predicate Canonical(m: Map)
  {
    && (forall k | k in m :: k < m[k])
    && (forall j, k | j in m && k in m && j < k :: m[j] < k)
  }

  ghost predicate Has(m: Map, x: nat)
  {
    exists k :: k in m && k <= x < m[k]
  }

  /** The set of values a map of ranges stands for. */
  ghost function Values(m: Map): iset<nat>
  {
    iset x: nat | Has(m, x)
  }

  predicate Within(s: nat, e: nat, x: nat) { s <= x < e }

  ghost function Interval(s: nat, e: nat): iset<nat>
  {
    iset x: nat | Within(s, e, x)
  }

  /** All ranges lie within u64. */
  ghost predicate Bounded(m: Map)
  {
    forall k | k in m :: m[k] <= U64_MAX
  }

  // ------------------------------------------------------------------------ insert

  /** The ranges that overlap or touch `s..e`. */
  function Touched(m: Map, s: nat, e: nat): set<nat>
  {
    set k | k in m && k <= e && s <= m[k]
  }

  /** The ranges an insertion of `s..e` leaves alone. */
  function Untouched(m: Map, s: nat, e: nat): Map { m - Touched(m, s, e) }

  predicate Covered(m: Map, s: nat, e: nat)
  {
    PrevTo(m, s).Some? && e <= m[PrevTo(m, s).value]
  }

  function MergedStart(m: Map, s: nat): nat
  {
    var p := PrevTo(m, s);
    if p.Some? && s <= m[p.value] then p.value else s
  }

  function MergedEnd(m: Map, e: nat): nat
  {
    var q := PrevTo(m, e);
    if q.Some? then Max(e, m[q.value]) else e
  }

  function WithoutLowest(m: Map): Map
  {
    if m == map[] then m else m - {Least(m.Keys)}
  }

  /** The map without its lowest range when it has no room left. */
  function Evict(m: Map, capacity: nat): Map
  {
    if |m| >= capacity then WithoutLowest(m) else m
  }

  function Inserted(m: Map, capacity: nat, s: nat, e: nat): Map
  {
    if e <= s || Covered(m, s, e) then m
    else Evict(Untouched(m, s, e), capacity)[MergedStart(m, s) := MergedEnd(m, e)]
  }

  /** `a..b` stays clear of every range of `m`, with a value missing on either side. */
  ghost predicate Clear(m: Map, a: nat, b: nat)
  {
    forall k | k in m :: m[k] < a || b < k
  }

  lemma AddClear(m: Map, a: nat, b: nat)
    requires Canonical(m) && a < b && Clear(m, a, b)
    ensures Canonical(m[a := b])
    ensures forall x: nat :: Has(m[a := b], x) <==> Has(m, x) || Within(a, b, x)
  {
    var r := m[a := b];
    assert a !in m;
    forall x: nat ensures Has(r, x) <==> Has(m, x) || Within(a, b, x) {
      if Has(m, x) {
        var k :| k in m && k <= x < m[k];
        assert k in r && k <= x < r[k];
      }
      if Within(a, b, x) { assert a in r && a <= x < r[a]; }
    }
  }

  lemma Submap(m: Map, ks: set<nat>)
    requires Canonical(m)
    ensures Canonical(m - ks)
    ensures forall x: nat :: Has(m, x) <==> Has(m - ks, x) || exists k :: k in ks && k in m && k <= x < m[k]
  {
    forall x: nat ensures Has(m, x) <==> Has(m - ks, x) || exists k :: k in ks && k in m && k <= x < m[k] {
      if Has(m, x) {
        var k :| k in m && k <= x < m[k];
        if k !in ks { assert k in m - ks; }
      }
    }
  }

  lemma MergedClear(m: Map, s: nat, e: nat)
    requires Canonical(m) && s < e && !Covered(m, s, e)
    ensures MergedStart(m, s) <= s && e <= MergedEnd(m, e)
    ensures Clear(Untouched(m, s, e), MergedStart(m, s), MergedEnd(m, e))
  {
  }

  /** The merged range holds the new range, every range it touches, and nothing else. */
  lemma MergedValues(m: Map, s: nat, e: nat, x: nat)
    requires Canonical(m) && s < e && !Covered(m, s, e)
    ensures Within(MergedStart(m, s), MergedEnd(m, e), x) <==>
            Within(s, e, x) || exists k :: k in Touched(m, s, e) && k in m && k <= x < m[k]
  {
    hide PrevTo; hide NextTo; hide Least; hide Greatest;
    var t := Touched(m, s, e);
    var p, q := PrevTo(m, s), PrevTo(m, e);
    if MergedStart(m, s) <= x < s {
      assert p.value in t && p.value <= x < m[p.value];
    }
    if e <= x < MergedEnd(m, e) {
      assert q.value in t && q.value <= x < m[q.value];
    }
  }

  lemma InsertedCanonical(m: Map, capacity: nat, s: nat, e: nat)
    requires Canonical(m)
    ensures Canonical(Inserted(m, capacity, s, e))
  {
    if s < e && !Covered(m, s, e) {
      var base := Untouched(m, s, e);
      Submap(m, Touched(m, s, e));
      MergedClear(m, s, e);
      if base != map[] { Submap(base, {Least(base.Keys)}); }
      AddClear(Evict(base, capacity), MergedStart(m, s), MergedEnd(m, e));
    }
  }

  lemma CoveredValues(m: Map, s: nat, e: nat)
    requires Canonical(m) && Covered(m, s, e)
    ensures Interval(s, e) <= Values(m)
  {
    var p := PrevTo(m, s).value;
    forall x: nat | Within(s, e, x) ensures Has(m, x) { assert p in m && p <= x < m[p]; }
  }

  /** The set is full even after merging, so that the insertion drops a range. */
  predicate Evicts(m: Map, capacity: nat, s: nat, e: nat)
  {
    s < e && !Covered(m, s, e) && Untouched(m, s, e) != map[] && capacity <= |Untouched(m, s, e)|
  }

  /** Without eviction, insertion is set union. */
  lemma InsertIsUnion(m: Map, capacity: nat, s: nat, e: nat)
    requires Canonical(m) && !Evicts(m, capacity, s, e)
    ensures Values(Inserted(m, capacity, s, e)) == Values(m) + Interval(s, e)
  {
    hide PrevTo; hide Inserted;
    if e <= s || Covered(m, s, e) {
      NotInserted(m, capacity, s, e);
      if Covered(m, s, e) { CoveredValues(m, s, e); } else { assert Interval(s, e) == iset{}; }
    } else {
      UnionByMerging(m, capacity, s, e);
    }
  }

  lemma UnionByMerging(m: Map, capacity: nat, s: nat, e: nat)
    requires Canonical(m) && s < e && !Covered(m, s, e) && !Evicts(m, capacity, s, e)
    ensures Values(Inserted(m, capacity, s, e)) == Values(m) + Interval(s, e)
  {
    hide PrevTo; hide MergedStart; hide MergedEnd; hide Has; hide Canonical; hide Clear; hide Untouched; hide Inserted;
    var base, a, b := Untouched(m, s, e), MergedStart(m, s), MergedEnd(m, e);
    PlainInsert(m, capacity, s, e);
    UntouchedClear(m, s, e);
    AddClear(base, a, b);
    forall x: nat ensures Has(base[a := b], x) <==> Has(m, x) || Within(s, e, x) {
      MergedUnion(m, s, e, x);
    }
  }

  lemma PlainInsert(m: Map, capacity: nat, s: nat, e: nat)
    requires s < e && !Covered(m, s, e) && !Evicts(m, capacity, s, e)
    ensures Inserted(m, capacity, s, e) == Untouched(m, s, e)[MergedStart(m, s) := MergedEnd(m, e)]
  {
    hide PrevTo; hide MergedStart; hide MergedEnd; hide Touched;
  }

  lemma UntouchedClear(m: Map, s: nat, e: nat)
    requires Canonical(m) && s < e && !Covered(m, s, e)
    ensures Canonical(Untouched(m, s, e)) && MergedStart(m, s) < MergedEnd(m, e)
    ensures Clear(Untouched(m, s, e), MergedStart(m, s), MergedEnd(m, e))
  {
    hide PrevTo; hide NextTo; hide Least; hide Greatest;
    Submap(m, Touched(m, s, e));
    MergedClear(m, s, e);
  }

  /** The merged range and the ranges left alone make up the union. */
  lemma MergedUnion(m: Map, s: nat, e: nat, x: nat)
    requires Canonical(m) && s < e && !Covered(m, s, e)
    ensures Has(Untouched(m, s, e), x) || Within(MergedStart(m, s), MergedEnd(m, e), x)
       <==> Has(m, x) || Within(s, e, x)
  {
    hide PrevTo; hide NextTo; hide Least; hide Greatest; hide Touched; hide MergedStart; hide MergedEnd;
    Submap(m, Touched(m, s, e));
    MergedValues(m, s, e, x);
  }

  // ---------------------------------------------------------------------- capacity

  lemma {:induction false} CountBelow(s: set<nat>, n: nat)
    requires forall x | x in s :: x < n
    ensures |s| <= n
  {
    if n == 0 {
      assert s == {};
    } else {
      CountBelow(s - {n - 1}, n - 1);
      assert s <= (s - {n - 1}) + {n - 1};
      if n - 1 in s { assert |s| == |s - {n - 1}| + 1; } else { assert s == s - {n - 1}; }
    }
  }

  /** A u64 set never fills the default capacity of `usize::MAX` ranges. */
  lemma RoomAtDefault(m: Map, s: nat, e: nat)
    requires Canonical(m) && Bounded(m) && e <= U64_MAX && s < e && !Covered(m, s, e)
    ensures |Untouched(m, s, e)| < U64_MAX
  {
    var base := Untouched(m, s, e);
    var low := MergedStart(m, s);
    MergedClear(m, s, e);
    assert low !in base;
    CountBelow(base.Keys + {low}, U64_MAX);
  }

  lemma InsertedBounded(m: Map, capacity: nat, s: nat, e: nat)
    requires Bounded(m) && e <= U64_MAX
    ensures Bounded(Inserted(m, capacity, s, e))
  {
    hide PrevTo; hide NextTo; hide Least; hide Greatest;
  }

  lemma InsertIsUnionByDefault(m: Map, s: nat, e: nat)
    requires Canonical(m) && Bounded(m) && e <= U64_MAX
    ensures Values(Inserted(m, U64_MAX, s, e)) == Values(m) + Interval(s, e)
  {
    if e <= s {
      assert Interval(s, e) == iset{};
    } else if Covered(m, s, e) {
      CoveredValues(m, s, e);
    } else {
      RoomAtDefault(m, s, e);
      InsertIsUnion(m, U64_MAX, s, e);
    }
  }

  /** An eviction loses exactly the lowest of the ranges that could not be merged. */
  lemma InsertEvicts(m: Map, capacity: nat, s: nat, e: nat)
    requires Canonical(m) && Evicts(m, capacity, s, e)
    ensures
      var low := Least(Untouched(m, s, e).Keys);
      && Values(Inserted(m, capacity, s, e)) == Values(m) + Interval(s, e) - Interval(low, m[low])
      && |Inserted(m, capacity, s, e)| == |Untouched(m, s, e)|
  {
    hide PrevTo; hide Least; hide Inserted; hide Untouched; hide Has; hide Canonical;
    EvictingInsert(m, capacity, s, e);
    var low, r := Least(Untouched(m, s, e).Keys), Inserted(m, capacity, s, e);
    forall x: nat ensures Has(r, x) <==> (Has(m, x) || Within(s, e, x)) && !Within(low, m[low], x) {
      EvictingInsertAt(m, capacity, s, e, x);
    }
  }

  lemma EvictingInsert(m: Map, capacity: nat, s: nat, e: nat)
    requires Canonical(m) && Evicts(m, capacity, s, e)
    ensures
      var base := Untouched(m, s, e);
      var low := Least(base.Keys);
      && low in m && base[low] == m[low]
      && Inserted(m, capacity, s, e) == (base - {low})[MergedStart(m, s) := MergedEnd(m, e)]
      && |Inserted(m, capacity, s, e)| == |base|
  {
    hide PrevTo; hide Least; hide Touched; hide MergedStart; hide MergedEnd;
    UntouchedClear(m, s, e);
    ReplaceRange(Untouched(m, s, e), Least(Untouched(m, s, e).Keys), MergedStart(m, s), MergedEnd(m, e));
  }

  lemma EvictingInsertAt(m: Map, capacity: nat, s: nat, e: nat, x: nat)
    requires Canonical(m) && Evicts(m, capacity, s, e)
    ensures
      var low := Least(Untouched(m, s, e).Keys);
      && low in m
      && (Has(Inserted(m, capacity, s, e), x) <==> (Has(m, x) || Within(s, e, x)) && !Within(low, m[low], x))
  {
    hide PrevTo; hide Least; hide Inserted; hide Untouched; hide Has; hide Canonical; hide Clear;
    hide MergedStart; hide MergedEnd;
    var base, a, b := Untouched(m, s, e), MergedStart(m, s), MergedEnd(m, e);
    var low := Least(base.Keys);
    EvictingInsert(m, capacity, s, e);
    UntouchedClear(m, s, e);
    ReplaceRange(base, low, a, b);
    MergedUnion(m, s, e, x);
    LostRange(base, low, a, b, x);
  }

  /** Trading range `k` for a clear one. */
  lemma ReplaceRange(m: Map, k: nat, a: nat, b: nat)
    requires Canonical(m) && k in m && a < b && Clear(m, a, b)
    ensures forall x: nat :: Has((m - {k})[a := b], x) <==> Has(m - {k}, x) || Within(a, b, x)
    ensures |(m - {k})[a := b]| == |m|
  {
    var rest := m - {k};
    Submap(m, {k});
    AddClear(rest, a, b);
    assert rest.Keys == m.Keys - {k};
    assert rest[a := b].Keys == rest.Keys + {a};
  }

  lemma LostRange(m: Map, k: nat, a: nat, b: nat, x: nat)
    requires Canonical(m) && k in m && Clear(m, a, b)
    ensures Has(m - {k}, x) <==> Has(m, x) && !Within(k, m[k], x)
    ensures Within(k, m[k], x) ==> !Within(a, b, x)
  {
    Submap(m, {k});
  }

  lemma NothingTouched(m: Map, s: nat, e: nat)
    requires Canonical(m) && s < e && Touched(m, s, e) == {}
    ensures m - Touched(m, s, e) == m && Clear(m, s, e)
    ensures !Covered(m, s, e) && MergedStart(m, s) == s && MergedEnd(m, e) == e
  {
    forall k | k in m ensures m[k] < s || e < k { assert k !in Touched(m, s, e); }
  }

  /** A merged range takes the place of the ranges it touches. */
  lemma InsertedCount(m: Map, capacity: nat, s: nat, e: nat)
    requires Canonical(m) && s < e && !Covered(m, s, e) && !Evicts(m, capacity, s, e)
    ensures |Inserted(m, capacity, s, e)| == |Untouched(m, s, e)| + 1
  {
    hide PrevTo; hide NextTo; hide Least; hide Greatest;
    MergedClear(m, s, e);
    var base, low := Untouched(m, s, e), MergedStart(m, s);
    assert base[low := MergedEnd(m, e)].Keys == base.Keys + {low};
  }

  lemma UntouchedCount(m: Map, s: nat, e: nat)
    ensures |Untouched(m, s, e)| == |m| - |Touched(m, s, e)|
  {
    assert Untouched(m, s, e).Keys == m.Keys - Touched(m, s, e);
  }

  /** From any canonical set, whatever its capacity: an insertion always holds what was
      inserted, is a union but for an evicted range, and never takes the set further above
      its capacity. A set within its capacity evicts if and only if it is full and nothing
      can be merged, and then it loses its lowest range. */
  lemma BoundedInsert(m: Map, capacity: nat, s: nat, e: nat)
    requires Canonical(m)
    ensures Canonical(Inserted(m, capacity, s, e))
    ensures |Inserted(m, capacity, s, e)| <= Max(|m|, Max(capacity, 1))
    ensures Interval(s, e) <= Values(Inserted(m, capacity, s, e))
    ensures
      Values(Inserted(m, capacity, s, e)) ==
        if Evicts(m, capacity, s, e)
        then
          var low := Least(Untouched(m, s, e).Keys);
          Values(m) + Interval(s, e) - Interval(low, m[low])
        else Values(m) + Interval(s, e)
    ensures |m| <= capacity && 1 <= capacity ==>
      (Evicts(m, capacity, s, e) <==> s < e && |m| == capacity && Touched(m, s, e) == {})
    ensures |m| <= capacity && Evicts(m, capacity, s, e) ==> Untouched(m, s, e) == m
  {
    hide PrevTo; hide NextTo; hide Least; hide Greatest; hide Inserted; hide Touched;
    InsertedCanonical(m, capacity, s, e);
    UntouchedCount(m, s, e);
    EvictsWithinCapacity(m, capacity, s, e);
    if Evicts(m, capacity, s, e) {
      InsertEvicts(m, capacity, s, e);
      Evicted(m, capacity, s, e);
    } else {
      InsertIsUnion(m, capacity, s, e);
      if s < e && !Covered(m, s, e) { InsertedCount(m, capacity, s, e); } else { NotInserted(m, capacity, s, e); }
    }
  }

  lemma NotInserted(m: Map, capacity: nat, s: nat, e: nat)
    requires e <= s || Covered(m, s, e)
    ensures Inserted(m, capacity, s, e) == m
  {
  }

  /** What is evicted lies outside the inserted range. */
  lemma Evicted(m: Map, capacity: nat, s: nat, e: nat)
    requires Canonical(m) && Evicts(m, capacity, s, e)
    ensures var low := Least(Untouched(m, s, e).Keys); Interval(s, e) !! Interval(low, m[low])
  {
    hide PrevTo; hide NextTo; hide Greatest;
    MergedClear(m, s, e);
  }

  lemma EvictsWithinCapacity(m: Map, capacity: nat, s: nat, e: nat)
    requires Canonical(m)
    ensures |m| <= capacity && 1 <= capacity ==>
      (Evicts(m, capacity, s, e) <==> s < e && |m| == capacity && Touched(m, s, e) == {})
    ensures |m| <= capacity && Evicts(m, capacity, s, e) ==> Untouched(m, s, e) == m
  {
    hide PrevTo; hide NextTo; hide Least; hide Greatest;
    UntouchedCount(m, s, e);
    if Touched(m, s, e) == {} && s < e { NothingTouched(m, s, e); }
  }

  // ------------------------------------------------------------------------ remove

  function Removed(m: Map, s: nat, e: nat): Map
  {
    if e <= s then m else Below(m, s) + Above(m, e)
  }

  /** What is left of the map below `s`. */
  function Below(m: Map, s: nat): Map
  {
    map k | k in m && k < s :: if m[k] < s then m[k] else s
  }

  /** What is left of the map from `e` on: the tail of a range that straddles `e`, and
      the ranges that begin at `e` or later. */
  function Above(m: Map, e: nat): Map
    requires 0 < e
  {
    var q := PrevTo(m, e - 1);
    if q.Some? && e < m[q.value] then From(m, e)[e := m[q.value]] else From(m, e)
  }

  function From(m: Map, e: nat): Map
  {
    map k | k in m && e <= k :: m[k]
  }

  /** `remove_until` puts the tail of a range that straddles `x` back through `insert`, which
      may evict. */
  function RemovedUntil(m: Map, capacity: nat, x: nat): Map
  {
    var q := PrevTo(m, x);
    if q.Some? && x + 1 < m[q.value] then Evict(From(m, x + 1), capacity)[x + 1 := m[q.value]]
    else From(m, x + 1)
  }

  lemma AboveStraddled(m: Map, e: nat, q: nat)
    requires Canonical(m) && q in m && q < e < m[q]
    ensures Above(m, e) == From(m, e)[e := m[q]]
  {
    assert PrevTo(m, e - 1) == Some(q);
  }

  lemma AboveClean(m: Map, e: nat)
    requires 0 < e && forall k | k in m && k < e :: m[k] <= e
    ensures Above(m, e) == From(m, e)
  {
  }

  lemma BelowIs(m: Map, s: nat)
    requires Canonical(m)
    ensures Canonical(Below(m, s))
    ensures forall k | k in Below(m, s) :: Below(m, s)[k] <= s
    ensures forall x: nat :: Has(Below(m, s), x) <==> Has(m, x) && x < s
  {
    hide PrevTo; hide NextTo; hide Least; hide Greatest;
    var r := Below(m, s);
    forall x: nat | Has(m, x) && x < s ensures Has(r, x) {
      var k :| k in m && k <= x < m[k];
      assert k in r && k <= x < r[k];
    }
    forall x: nat | Has(r, x) ensures Has(m, x) && x < s {
      var k :| k in r && k <= x < r[k];
      assert k in m && k <= x < m[k];
    }
  }

  lemma AboveShape(m: Map, e: nat)
    requires Canonical(m) && 0 < e
    ensures Canonical(Above(m, e))
    ensures forall k | k in Above(m, e) :: e <= k
    ensures forall k | k in m && e <= k :: k in Above(m, e) && Above(m, e)[k] == m[k]
  {
    var q := PrevTo(m, e - 1);
    if q.Some? && e < m[q.value] { assert e !in m; }
  }

  lemma AboveIs(m: Map, e: nat, x: nat)
    requires Canonical(m) && 0 < e
    ensures Has(Above(m, e), x) <==> Has(m, x) && e <= x
  {
    hide PrevTo; hide NextTo; hide Least; hide Greatest;
    AboveShape(m, e);
    var r := Above(m, e);
    var q := PrevTo(m, e - 1);
    if Has(m, x) && e <= x {
      var k :| k in m && k <= x < m[k];
      if e <= k { assert k in r && k <= x < r[k]; }
      else { assert k == q.value; assert e in r && e <= x < r[e]; }
    }
    if Has(r, x) {
      var k :| k in r && k <= x < r[k];
      if k in m { assert k <= x < m[k]; } else { assert q.value <= x < m[q.value]; }
    }
  }

  lemma Join(a: Map, b: Map, s: nat, e: nat)
    requires Canonical(a) && Canonical(b) && s < e
    requires (forall k | k in a :: a[k] <= s) && (forall k | k in b :: e <= k)
    ensures Canonical(a + b)
    ensures forall x: nat :: Has(a + b, x) <==> Has(a, x) || Has(b, x)
  {
    forall x: nat | Has(a, x) ensures Has(a + b, x) {
      var k :| k in a && k <= x < a[k];
      assert k in a + b && k <= x < (a + b)[k];
    }
    forall x: nat | Has(b, x) ensures Has(a + b, x) {
      var k :| k in b && k <= x < b[k];
      assert k in a + b && k <= x < (a + b)[k];
    }
  }

  /** Removal is set difference, and keeps the map canonical. */
  lemma RemoveIsDifference(m: Map, s: nat, e: nat)
    requires Canonical(m)
    ensures Canonical(Removed(m, s, e))
    ensures Values(Removed(m, s, e)) == Values(m) - Interval(s, e)
  {
    if e <= s {
      assert Interval(s, e) == iset{};
    } else {
      BelowIs(m, s);
      AboveShape(m, e);
      Join(Below(m, s), Above(m, e), s, e);
      forall x: nat ensures Has(Removed(m, s, e), x) <==> Has(m, x) && !Within(s, e, x) {
        AboveIs(m, e, x);
      }
    }
  }

  lemma SubsetBounded(r: Map, m: Map)
    requires Canonical(r) && Bounded(m) && Values(r) <= Values(m)
    ensures Bounded(r)
  {
    forall k | k in r ensures r[k] <= U64_MAX {
      var x: nat := r[k] - 1;
      assert Has(r, x) by { assert k in r && k <= x < r[k]; }
      assert x in Values(m);
    }
  }

  // ----------------------------------------------------------------------- queries

  /** The first part of `s..e` that the set does not cover, as the source computes it. */
  function Filter(m: Map, s: nat, e: nat): Option<Range>
  {
    if m == map[] then Some(Range(s, e)) else
    var p := PrevTo(m, s);
    if p.Some? && e <= m[p.value] then None else
    var start := if p.Some? && s < m[p.value] then m[p.value] else s;
    var n := NextTo(m, s + 1);
    Some(Range(start, if n.Some? && n.value < e then n.value else e))
  }

  /** `Filter` gives the first maximal uncovered piece of a non-empty range. */
  lemma FilterIsFirstGap(m: Map, s: nat, e: nat)
    requires Canonical(m) && s < e
    ensures Filter(m, s, e).None? <==> Interval(s, e) <= Values(m)
    ensures Filter(m, s, e).Some? ==>
      var g := Filter(m, s, e).value;
      && s <= g.start < g.end <= e
      && (forall x: nat :: Within(s, g.start, x) ==> Has(m, x))
      && (forall x: nat :: Within(g.start, g.end, x) ==> !Has(m, x))
      && (g.end == e || Has(m, g.end))
  {
    hide PrevTo; hide NextTo; hide Least; hide Greatest;
    var p := PrevTo(m, s);
    if Filter(m, s, e).None? {
      forall x: nat | Within(s, e, x) ensures Has(m, x) { assert p.value <= x < m[p.value]; }
    } else {
      var g := Filter(m, s, e).value;
      forall x: nat | Within(s, g.start, x) ensures Has(m, x) { assert p.value <= x < m[p.value]; }
      if g.end != e { assert g.end in m && g.end <= g.end < m[g.end]; }
      forall x: nat | Within(g.start, g.end, x) ensures !Has(m, x) {
        assert forall k | k in m :: !(k <= x < m[k]);
      }
      assert Within(g.start, g.end, g.start);
      assert g.start in Interval(s, e) && g.start !in Values(m);
    }
  }

  predicate ContainsIn(m: Map, x: nat)
  {
    || (PrevTo(m, x).Some? && x < m[PrevTo(m, x).value])
    || (NextTo(m, x).Some? && NextTo(m, x).value <= x < m[NextTo(m, x).value])
  }

  lemma ContainsIsMembership(m: Map, x: nat)
    requires Canonical(m)
    ensures ContainsIn(m, x) <==> x in Values(m)
  {
    if ContainsIn(m, x) {
      var k := PrevTo(m, x).value;
      assert k in m && k <= x < m[k];
    } else {
      assert forall k | k in m :: !(k <= x < m[k]);
    }
  }

  /** The values of `s` above its lowest unbroken run: those with a hole between them
      and some smaller value. */
  ghost function AboveLowestRun(s: iset<nat>): iset<nat>
  {
    iset x: nat | x in s && exists y: nat, z: nat :: z in s && y !in s && z < y < x
  }

  lemma PopMinDropsLowestRun(m: Map)
    requires Canonical(m)
    ensures Canonical(WithoutLowest(m))
    ensures Values(WithoutLowest(m)) == AboveLowestRun(Values(m))
  {
    if m != map[] {
      Submap(m, {Least(m.Keys)});
    }
    forall x: nat ensures Has(WithoutLowest(m), x) <==> x in AboveLowestRun(Values(m)) {
      if m != map[] { PopMinPointwise(m, x); }
    }
  }

  lemma PopMinPointwise(m: Map, x: nat)
    requires Canonical(m) && m != map[]
    ensures Has(m - {Least(m.Keys)}, x) <==> x in AboveLowestRun(Values(m))
  {
    hide Least; hide Has; hide Canonical;
    var low := Least(m.Keys);
    LowestRun(m, low);
    LowestSplits(m, low, x);
    assert low in Values(m) && m[low] !in Values(m);
  }

  /** The lowest range is the lowest unbroken run: a hole follows it. */
  lemma LowestRun(m: Map, low: nat)
    requires Canonical(m) && low in m && forall k | k in m :: low <= k
    ensures low < m[low] && Has(m, low) && !Has(m, m[low])
    ensures forall x: nat | Has(m, x) :: low <= x
    ensures forall x: nat | low <= x < m[low] :: Has(m, x)
  {
    forall x: nat | low <= x < m[low] ensures Has(m, x) { assert low in m && low <= x < m[low]; }
  }

  lemma LowestSplits(m: Map, low: nat, x: nat)
    requires Canonical(m) && low in m && forall k | k in m :: low <= k
    ensures Has(m - {low}, x) <==> Has(m, x) && m[low] < x
  {
    if Has(m, x) && m[low] < x {
      var k :| k in m && k <= x < m[k];
      assert k in m - {low};
    }
  }

  // --------------------------------------------------------------------- the object

  class RangeSet {
    var ranges: Map
    var capacity: nat

    constructor (capacity: nat)
      ensures ranges == map[] && this.capacity == capacity
    {
      ranges := map[];
      this.capacity := capacity;
    }

    method PopFirst()
      modifies this`ranges
      ensures ranges == WithoutLowest(old(ranges))
    {
      if ranges != map[] { ranges := ranges - {Least(ranges.Keys)}; }
    }

    /** The last two steps of `Insert`: make room if the set is full, then store the range. */
    method Place(start: nat, end: nat)
      modifies this`ranges
      ensures ranges == Evict(old(ranges), capacity)[start := end]
    {
      if |ranges| >= capacity { PopFirst(); }
      ranges := ranges[start := end];
    }

    method Insert(s: nat, e: nat)
      requires Canonical(ranges)
      modifies this`ranges
      ensures ranges == Inserted(old(ranges), capacity, s, e)
    {
      hide PrevTo; hide NextTo; hide Least; hide Greatest; hide Touched;
      if e <= s { return; }
      ghost var m := ranges;
      var start, end := s, e;
      var p := PrevTo(ranges, start);
      if p.Some? {
        var pEnd := ranges[p.value];
        if pEnd >= end {
          return;
        } else if pEnd >= start {
          ranges := ranges - {p.value};
          start := p.value;
        }
      }
      var n := NextTo(ranges, start);
      MergingStarts(m, s, e);
      while n.Some?
        invariant n == NextTo(ranges, start)
        invariant Canonical(m) && !Covered(m, s, e)
        invariant Merging(m, ranges, s, e, start, end)
        decreases ranges.Keys
      {
        var nEnd := ranges[n.value];
        if n.value > end { assert Absorbed(ranges, start, end); break; }
        MergingStep(m, ranges, s, e, start, end);
        ranges := ranges - {n.value};
        end := Max(nEnd, end);
        n := NextTo(ranges, start);
      }
      InsertedFromMerge(m, ranges, capacity, s, e, start, end);
      Place(start, end);
    }

    method AddElem(x: nat)
      requires Canonical(ranges)
      modifies this`ranges
      ensures ranges == Inserted(old(ranges), capacity, x, x + 1)
    {
      Insert(x, x + 1);
    }

    method Remove(s: nat, e: nat)
      requires Canonical(ranges)
      modifies this`ranges
      ensures ranges == Removed(old(ranges), s, e)
    {
      if ranges == map[] || e <= s { return; }
      ghost var m := ranges;
      var p := PrevTo(ranges, s);
      if p.Some? {
        var pEnd := ranges[p.value];
        if pEnd > s {
          ranges := ranges - {p.value};
          if p.value < s { ranges := ranges[p.value := s]; }
          if pEnd > e { ranges := ranges[e := pEnd]; }
          if pEnd >= e { RemovedWithin(m, s, e); return; }
        }
      }
      RemovingStarts(m, s, e);
      var n := NextTo(ranges, s);
      while n.Some?
        invariant n == NextTo(ranges, s)
        invariant Canonical(m) && Removing(m, ranges, s, e)
        decreases ranges.Keys
      {
        var nEnd := ranges[n.value];
        if n.value > e { break; }
        RemovingStep(m, ranges, s, e);
        ranges := ranges - {n.value};
        if nEnd > e {
          ranges := ranges[e := nEnd];
          return;
        }
        n := NextTo(ranges, s);
      }
      RemovingDone(m, ranges, s, e);
    }

    method RemoveElem(x: nat)
      requires Canonical(ranges)
      modifies this`ranges
      ensures ranges == Removed(old(ranges), x, x + 1)
    {
      Remove(x, x + 1);
    }

    /** One round of the loop of `RemoveUntil`. */
    method RemoveKeyThenInsert(k: nat, kEnd: nat, x: nat)
      requires Canonical(ranges - {k})
      modifies this`ranges
      ensures ranges == if kEnd > x + 1 then Inserted(old(ranges) - {k}, capacity, x + 1, kEnd) else old(ranges) - {k}
    {
      ranges := ranges - {k};
      if kEnd > x + 1 { Insert(x + 1, kEnd); }
    }

    method RemoveUntil(x: nat)
      requires Canonical(ranges)
      modifies this`ranges
      ensures ranges == RemovedUntil(old(ranges), capacity, x)
    {
      ghost var m := ranges;
      var todo := set k | k in ranges && k <= x;
      UntilStarts(m, x, capacity);
      while todo != {}
        invariant Canonical(m)
        invariant Until(m, ranges, todo, x, capacity)
        decreases todo
      {
        var k := Least(todo);
        var kEnd := ranges[k];
        UntilStep(m, ranges, todo, x, capacity);
        RemoveKeyThenInsert(k, kEnd, x);
        todo := todo - {k};
      }
    }

    method PopMin() returns (r: Option<Range>)
      modifies this`ranges
      ensures ranges == WithoutLowest(old(ranges))
      ensures r.None? <==> old(ranges) == map[]
      ensures r.Some? ==> r.value.start in old(ranges) && r.value.end == old(ranges)[r.value.start]
      ensures r.Some? ==> forall k | k in old(ranges) :: r.value.start <= k
    {
      if ranges == map[] { return None; }
      var k := Least(ranges.Keys);
      r := Some(Range(k, ranges[k]));
      ranges := ranges - {k};
    }

    method Contains(x: nat) returns (b: bool)
      requires Canonical(ranges)
      ensures b <==> x in Values(ranges)
    {
      ContainsIsMembership(ranges, x);
      var p := PrevTo(ranges, x);
      if p.Some? && x < ranges[p.value] { return true; }
      var n := NextTo(ranges, x);
      if n.Some? && n.value <= x < ranges[n.value] { return true; }
      return false;
    }
  }

  // ------------------------------------------------------------ proofs of the loops

  /** The merging loop of `Insert` has turned `m` into `r` and the new range into
      `start..end`: only touched ranges went, in ascending order. */
  ghost predicate Merging(m: Map, r: Map, s: nat, e: nat, start: nat, end: nat)
  {
    && start == MergedStart(m, s) && e <= end
    && (start < s ==> start !in r)
    && (forall k | k in r :: k in m && r[k] == m[k])
    && (forall k | k in m && k !in r :: k <= e && s <= m[k] && m[k] <= end && start <= k)
    && (end == e || exists k :: k in m && k !in r && end == m[k])
  }

  /** No range is left that begins within `start..=end`. */
  ghost predicate Absorbed(r: Map, start: nat, end: nat)
  {
    forall k | k in r :: k < start || end < k
  }

  lemma MergingStarts(m: Map, s: nat, e: nat)
    requires Canonical(m) && s < e && !Covered(m, s, e)
    ensures Merging(m, if MergedStart(m, s) in m then m - {MergedStart(m, s)} else m, s, e, MergedStart(m, s), e)
  {
  }

  lemma MergingStep(m: Map, r: Map, s: nat, e: nat, start: nat, end: nat)
    requires Canonical(m) && s < e && !Covered(m, s, e) && Merging(m, r, s, e, start, end)
    requires NextTo(r, start).Some? && NextTo(r, start).value <= end
    ensures var k := NextTo(r, start).value; Merging(m, r - {k}, s, e, start, Max(r[k], end))
  {
    hide PrevTo; hide NextTo; hide Least; hide Greatest;
    var k := NextTo(r, start).value;
    assert k <= e by {
      if end != e { var j :| j in m && j !in r && end == m[j]; }
    }
  }

  /** When the merging loop stops, exactly the touched ranges are gone. */
  lemma MergingDone(m: Map, r: Map, s: nat, e: nat, start: nat, end: nat)
    requires Canonical(m) && s < e && !Covered(m, s, e) && Merging(m, r, s, e, start, end)
    requires Absorbed(r, start, end)
    ensures r == m - Touched(m, s, e) && end == MergedEnd(m, e)
  {
    hide PrevTo; hide NextTo; hide Least; hide Greatest;
    forall k | k in r ensures k !in Touched(m, s, e) { assert k < start || end < k; }
    assert r == m - Touched(m, s, e);
    MergedEndIs(m, r, s, e, start, end);
  }

  lemma InsertedFromMerge(m: Map, r: Map, capacity: nat, s: nat, e: nat, start: nat, end: nat)
    requires Canonical(m) && s < e && !Covered(m, s, e) && Merging(m, r, s, e, start, end)
    requires Absorbed(r, start, end)
    ensures Inserted(m, capacity, s, e) == Evict(r, capacity)[start := end]
  {
    MergingDone(m, r, s, e, start, end);
  }

  lemma MergedEndIs(m: Map, r: Map, s: nat, e: nat, start: nat, end: nat)
    requires Canonical(m) && s < e && !Covered(m, s, e) && Merging(m, r, s, e, start, end)
    requires r == m - Touched(m, s, e)
    ensures end == MergedEnd(m, e)
  {
    hide PrevTo; hide NextTo; hide Least; hide Greatest;
    var q := PrevTo(m, e);
    if q.Some? && q.value !in r {
      if end != e {
        var k :| k in m && k !in r && end == m[k];
        assert k <= q.value;
      }
    } else if q.Some? {
      assert q.value !in Touched(m, s, e);
    }
  }

  /** The loop of `Remove` has turned `m` into `r`: below `s` everything is cut at `s`,
      from `s` on only ranges that end by `e` are gone. */
  ghost predicate Removing(m: Map, r: Map, s: nat, e: nat)
  {
    && s < e
    && (forall k | k in m && k < s :: m[k] < e && k in r && r[k] == if m[k] < s then m[k] else s)
    && (forall k | k in r :: k in m && (s <= k ==> r[k] == m[k]))
    && (forall k | k in m && s <= k && k !in r :: m[k] <= e)
  }

  lemma RemovedWithin(m: Map, s: nat, e: nat)
    requires Canonical(m) && s < e && PrevTo(m, s).Some?
    requires var p := PrevTo(m, s).value; s < m[p] && e <= m[p]
    ensures
      var p := PrevTo(m, s).value;
      var r := if p < s then (m - {p})[p := s] else m - {p};
      Removed(m, s, e) == if e < m[p] then r[e := m[p]] else r
  {
    hide PrevTo; hide Above; hide From; hide Below;
    var p := PrevTo(m, s).value;
    var r := if p < s then (m - {p})[p := s] else m - {p};
    CutAround(m, s, e, p);
    if e < m[p] { AboveStraddled(m, e, p); } else { AboveClean(m, e); }
    forall k: nat ensures Get(if e < m[p] then r[e := m[p]] else r, k) == Get(Removed(m, s, e), k) {
      assert Get(r, k) == Get(Below(m, s) + From(m, e), k);
    }
    SameMap(if e < m[p] then r[e := m[p]] else r, Removed(m, s, e));
  }

  /** Taking out the one range around `s..e` and putting back its part below `s`. */
  lemma CutAround(m: Map, s: nat, e: nat, p: nat)
    requires Canonical(m) && p in m && p <= s < e <= m[p]
    ensures forall k: nat :: Get(if p < s then (m - {p})[p := s] else m - {p}, k) == Get(Below(m, s) + From(m, e), k)
    ensures forall k | k in m && k < e :: m[k] <= m[p]
  {
    assert forall k | k in m :: k < p || k == p || e < k;
  }

  lemma RemovingStarts(m: Map, s: nat, e: nat)
    requires Canonical(m) && s < e
    requires PrevTo(m, s).Some? ==> m[PrevTo(m, s).value] < e
    ensures
      var p := PrevTo(m, s);
      Removing(m, if p.None? || m[p.value] <= s then m
                  else if p.value < s then (m - {p.value})[p.value := s]
                  else m - {p.value}, s, e)
  {
  }

  lemma RemovingStep(m: Map, r: Map, s: nat, e: nat)
    requires Canonical(m) && Removing(m, r, s, e)
    requires NextTo(r, s).Some? && NextTo(r, s).value <= e
    ensures
      var n := NextTo(r, s).value;
      && n in r
      && (r[n] <= e ==> Removing(m, r - {n}, s, e))
      && (r[n] > e ==> (r - {n})[e := r[n]] == Removed(m, s, e))
  {
    hide PrevTo; hide NextTo; hide Least; hide Greatest;
    var n := NextTo(r, s).value;
    if r[n] > e {
      CutKeys(m, r, s, e, n);
    }
  }

  lemma CutKeys(m: Map, r: Map, s: nat, e: nat, n: nat)
    requires Canonical(m) && Removing(m, r, s, e)
    requires n in r && s <= n <= e < r[n] && forall k | k in r && s <= k :: n <= k
    ensures (r - {n})[e := r[n]] == Removed(m, s, e)
  {
    hide Removed; hide Get; hide Canonical;
    var c := (r - {n})[e := r[n]];
    if n < e { StraddlesFrom(m, s, e, n); } else { CleanFrom(m, s, e); }
    hide Removing;
    forall k: nat ensures Get(c, k) == Get(Removed(m, s, e), k) { CutKeyAt(m, r, s, e, n, k); }
    SameMap(c, Removed(m, s, e));
  }

  lemma StraddlesFrom(m: Map, s: nat, e: nat, n: nat)
    requires Canonical(m) && s < e && n in m && n < e < m[n]
    ensures Removed(m, s, e) == Below(m, s) + From(m, e)[e := m[n]]
  {
    AboveStraddled(m, e, n);
  }

  lemma CleanFrom(m: Map, s: nat, e: nat)
    requires s < e && forall k | k in m && k < e :: m[k] <= e
    ensures Removed(m, s, e) == Below(m, s) + From(m, e)
  {
    AboveClean(m, e);
  }

  lemma CutKeyAt(m: Map, r: Map, s: nat, e: nat, n: nat, k: nat)
    requires Canonical(m) && Removing(m, r, s, e)
    requires n in r && s <= n <= e < r[n] && forall j | j in r && s <= j :: n <= j
    requires Removed(m, s, e) == if n < e then Below(m, s) + From(m, e)[e := m[n]] else Below(m, s) + From(m, e)
    ensures Get((r - {n})[e := r[n]], k) == Get(Removed(m, s, e), k)
  {
    hide Removed;
    assert k in r ==> k < s || k == n || e < k;
  }

  lemma RemovingDone(m: Map, r: Map, s: nat, e: nat)
    requires Canonical(m) && Removing(m, r, s, e)
    requires NextTo(r, s).None? || NextTo(r, s).value > e
    ensures r == Removed(m, s, e)
  {
    hide PrevTo; hide NextTo; hide Least; hide Greatest;
    assert forall k | k in r :: k < s || e < k;
    AboveClean(m, e);
    forall k: nat ensures Get(r, k) == Get(Removed(m, s, e), k) {
      assert k in r ==> k < s || e < k;
    }
    SameMap(r, Removed(m, s, e));
  }

  function Get(m: Map, k: nat): Option<nat>
  {
    if k in m then Some(m[k]) else None
  }

  lemma SameMap(a: Map, b: Map)
    requires forall k: nat :: Get(a, k) == Get(b, k)
    ensures a == b
  {
    forall k: nat ensures (k in a <==> k in b) && (k in a ==> a[k] == b[k]) { assert Get(a, k) == Get(b, k); }
  }

  ghost predicate Pending(m: Map, r: Map, todo: set<nat>, x: nat)
  {
    && (forall k | k in r :: k in m && r[k] == m[k] && (k in todo || x < k))
    && (forall k | k in m && (k in todo || x < k) :: k in r)
  }

  /** The loop of `RemoveUntil` still has the ranges starting at `todo` to go; only the
      last of them can reach past `x`. */
  ghost predicate Until(m: Map, r: Map, todo: set<nat>, x: nat, capacity: nat)
  {
    && (forall k | k in todo :: k in m && k <= x)
    && (if todo == {} then r == RemovedUntil(m, capacity, x) else Pending(m, r, todo, x))
    && (forall j, k | j in m && j <= x && j !in todo && k in todo :: j < k)
  }

  lemma UntilStarts(m: Map, x: nat, capacity: nat)
    requires Canonical(m)
    ensures Until(m, m, (set k | k in m && k <= x), x, capacity)
  {
    hide Least; hide Greatest;
    var todo := set k | k in m && k <= x;
    if todo == {} {
      assert forall k | k in m && k <= x :: k in todo;
      assert From(m, x + 1) == m;
    }
  }

  lemma UntilStep(m: Map, r: Map, todo: set<nat>, x: nat, capacity: nat)
    requires Canonical(m) && todo != {} && Until(m, r, todo, x, capacity)
    ensures
      var k := Least(todo);
      && k in r && Canonical(r - {k})
      && Until(m, if r[k] > x + 1 then Inserted(r - {k}, capacity, x + 1, r[k]) else r - {k}, todo - {k}, x, capacity)
  {
    hide Inserted; hide RemovedUntil; hide Canonical;
    var k := Least(todo);
    if todo - {k} == {} {
      assert todo == {k};
      assert forall j | j in m && j <= x :: j <= k;
      UntilLast(m, r, k, x, capacity);
    } else {
      UntilMiddle(m, r, todo, k, x, capacity);
    }
  }

  lemma UntilMiddle(m: Map, r: Map, todo: set<nat>, k: nat, x: nat, capacity: nat)
    requires Canonical(m) && Until(m, r, todo, x, capacity)
    requires k in todo && todo - {k} != {} && forall j | j in todo :: k <= j
    ensures k in r && r[k] <= x + 1 && Canonical(r - {k}) && Until(m, r - {k}, todo - {k}, x, capacity)
  {
    hide RemovedUntil;
    var j :| j in todo - {k};
    assert m[k] < j;
    PendingStep(m, r, todo, k, x);
  }

  lemma PendingStep(m: Map, r: Map, todo: set<nat>, k: nat, x: nat)
    requires Canonical(m) && Pending(m, r, todo, x) && k in todo && k <= x
    ensures Canonical(r - {k}) && Pending(m, r - {k}, todo - {k}, x)
  {
  }

  lemma UntilLast(m: Map, r: Map, k: nat, x: nat, capacity: nat)
    requires Canonical(m) && k in m && k <= x && Pending(m, r, {k}, x)
    requires forall j | j in m && j <= x :: j <= k
    ensures k in r && r[k] == m[k] && Canonical(r - {k})
    ensures RemovedUntil(m, capacity, x)
         == if r[k] > x + 1 then Inserted(r - {k}, capacity, x + 1, r[k]) else r - {k}
  {
    hide Inserted; hide PrevTo; hide Evict;
    PendingLast(m, r, k, x);
    assert PrevTo(m, x) == Some(k);
    if m[k] > x + 1 {
      hide Canonical; hide Pending;
      UntilInsert(m, k, x, capacity);
    }
  }

  lemma PendingLast(m: Map, r: Map, k: nat, x: nat)
    requires Canonical(m) && k in m && k <= x && Pending(m, r, {k}, x)
    ensures k in r && r[k] == m[k] && r - {k} == From(m, x + 1) && Canonical(r - {k})
  {
    assert r - {k} == From(m, x + 1);
  }

  lemma UntilInsert(m: Map, k: nat, x: nat, capacity: nat)
    requires Canonical(m) && k in m && k <= x && x + 1 < m[k]
    ensures Inserted(From(m, x + 1), capacity, x + 1, m[k]) == Evict(From(m, x + 1), capacity)[x + 1 := m[k]]
  {
    hide Inserted; hide From; hide Canonical; hide Clear; hide Evict;
    FromClear(m, k, x);
    InsertClear(From(m, x + 1), capacity, x + 1, m[k]);
  }

  lemma FromClear(m: Map, k: nat, x: nat)
    requires Canonical(m) && k in m && k <= x && x + 1 < m[k]
    ensures
      var r := From(m, x + 1);
      Canonical(r) && Clear(r, x + 1, m[k]) && r.Keys <= m.Keys - {k}
  {
  }

  lemma InsertClear(r: Map, capacity: nat, s: nat, e: nat)
    requires Canonical(r) && s < e && Clear(r, s, e)
    ensures Inserted(r, capacity, s, e) == Evict(r, capacity)[s := e]
  {
    hide Evict; hide PrevTo;
    assert Touched(r, s, e) == {};
    NothingTouched(r, s, e);
  }

  lemma SubsetCount(a: set<nat>, b: set<nat>)
    requires a <= b
    ensures |a| <= |b|
  {
    assert |b| == |a| + |b - a| by { assert b == a + (b - a); }
  }

  /** The tail of a range that straddles `x` finds no room. */
  predicate UntilEvicts(m: Map, capacity: nat, x: nat)
  {
    var q := PrevTo(m, x);
    q.Some? && x + 1 < m[q.value] && From(m, x + 1) != map[] && capacity <= |From(m, x + 1)|
  }

  /** `remove_until` is a plain removal if and only if it does not evict; then it loses the
      next range above `x` as well. */
  lemma RemoveUntilIsRemoval(m: Map, capacity: nat, x: nat)
    requires Canonical(m)
    ensures RemovedUntil(m, capacity, x) == Removed(m, 0, x + 1) <==> !UntilEvicts(m, capacity, x)
    ensures UntilEvicts(m, capacity, x) ==>
      var low := Least(From(m, x + 1).Keys);
      low in Removed(m, 0, x + 1) && RemovedUntil(m, capacity, x) == Removed(m, 0, x + 1) - {low}
  {
    hide RemovedUntil; hide Removed; hide From; hide Canonical; hide Clear; hide Least;
    var q := PrevTo(m, x);
    UntilForms(m, capacity, x);
    if q.Some? && x + 1 < m[q.value] {
      FromClear(m, q.value, x);
      DropThenAdd(From(m, x + 1), x + 1, m[q.value]);
    }
  }

  lemma UntilForms(m: Map, capacity: nat, x: nat)
    requires Canonical(m)
    ensures
      var q, r := PrevTo(m, x), From(m, x + 1);
      if q.Some? && x + 1 < m[q.value]
      then
        && Removed(m, 0, x + 1) == r[x + 1 := m[q.value]]
        && RemovedUntil(m, capacity, x)
           == if r != map[] && capacity <= |r| then (r - {Least(r.Keys)})[x + 1 := m[q.value]]
              else r[x + 1 := m[q.value]]
      else Removed(m, 0, x + 1) == r == RemovedUntil(m, capacity, x)
  {
    hide PrevTo; hide Least; hide From;
    assert Below(m, 0) == map[];
    assert Removed(m, 0, x + 1) == Above(m, x + 1);
  }

  lemma DropThenAdd(r: Map, a: nat, b: nat)
    requires Clear(r, a, b) && Canonical(r) && a < b
    ensures r != map[] ==>
      var low := Least(r.Keys);
      && low != a && low in r[a := b]
      && (r - {low})[a := b] == r[a := b] - {low} && (r - {low})[a := b] != r[a := b]
  {
    hide Least; hide Greatest;
    if r != map[] {
      var low := Least(r.Keys);
      assert low !in (r - {low})[a := b];
    }
  }

  /** A set within its capacity never evicts here. */
  lemma RemoveUntilWithinCapacity(m: Map, capacity: nat, x: nat)
    requires Canonical(m) && |m| <= capacity
    ensures RemovedUntil(m, capacity, x) == Removed(m, 0, x + 1)
  {
    hide RemovedUntil; hide Removed; hide Greatest; hide Least;
    RemoveUntilIsRemoval(m, capacity, x);
    var q := PrevTo(m, x);
    if q.Some? && x + 1 < m[q.value] {
      FromClear(m, q.value, x);
      SubsetCount(From(m, x + 1).Keys, m.Keys - {q.value});
    }
  }

  // -------------------------------------------------------------------- whole runs

  datatype Op =
    | OpInsert(s: nat, e: nat)
    | OpAddElem(x: nat)
    | OpRemove(s: nat, e: nat)
    | OpRemoveElem(x: nat)
    | OpRemoveUntil(x: nat)
    | OpPopMin

  /** Arguments are u64, and `elem + 1` does not overflow. */
  predicate ValidOp(op: Op)
  {
    match op
    case OpInsert(s, e) => s <= U64_MAX && e <= U64_MAX
    case OpRemove(s, e) => s <= U64_MAX && e <= U64_MAX
    case OpAddElem(x) => x < U64_MAX
    case OpRemoveElem(x) => x < U64_MAX
    case OpRemoveUntil(x) => x < U64_MAX
    case OpPopMin => true
  }

  /** What an operation means for the set of values. */
  ghost function Meaning(v: iset<nat>, op: Op): iset<nat>
  {
    match op
    case OpInsert(s, e) => v + Interval(s, e)
    case OpAddElem(x) => v + iset{x}
    case OpRemove(s, e) => v - Interval(s, e)
    case OpRemoveElem(x) => v - iset{x}
    case OpRemoveUntil(x) => v - Interval(0, x + 1)
    case OpPopMin => AboveLowestRun(v)
  }

  ghost function MeaningOfRun(ops: seq<Op>): iset<nat>
  {
    if ops == [] then iset{} else Meaning(MeaningOfRun(ops[..|ops| - 1]), ops[|ops| - 1])
  }

  lemma SingleValue(x: nat)
    ensures Interval(x, x + 1) == iset{x}
  {
  }

  lemma FitsByDefault(m: Map)
    requires Canonical(m) && Bounded(m)
    ensures |m| <= U64_MAX
  {
    CountBelow(m.Keys, U64_MAX);
  }

  lemma InsertMeaning(m: Map, s: nat, e: nat)
    requires Canonical(m) && Bounded(m) && e <= U64_MAX
    ensures var r := Inserted(m, U64_MAX, s, e);
      Canonical(r) && Bounded(r) && Values(r) == Values(m) + Interval(s, e)
  {
    InsertedCanonical(m, U64_MAX, s, e);
    InsertedBounded(m, U64_MAX, s, e);
    InsertIsUnionByDefault(m, s, e);
  }

  lemma RemoveMeaning(m: Map, s: nat, e: nat)
    requires Canonical(m) && Bounded(m)
    ensures var r := Removed(m, s, e);
      Canonical(r) && Bounded(r) && Values(r) == Values(m) - Interval(s, e)
  {
    RemoveIsDifference(m, s, e);
    SubsetBounded(Removed(m, s, e), m);
  }

  lemma PopMeaning(m: Map)
    requires Canonical(m) && Bounded(m)
    ensures var r := WithoutLowest(m);
      Canonical(r) && Bounded(r) && Values(r) == AboveLowestRun(Values(m))
  {
    PopMinDropsLowestRun(m);
  }

  /** What an operation does to the map, at any capacity. */
  function After(m: Map, capacity: nat, op: Op): Map
  {
    match op
    case OpInsert(s, e) => Inserted(m, capacity, s, e)
    case OpAddElem(x) => Inserted(m, capacity, x, x + 1)
    case OpRemove(s, e) => Removed(m, s, e)
    case OpRemoveElem(x) => Removed(m, x, x + 1)
    case OpRemoveUntil(x) => RemovedUntil(m, capacity, x)
    case OpPopMin => WithoutLowest(m)
  }

  function AfterRun(capacity: nat, ops: seq<Op>): Map
  {
    if ops == [] then map[] else After(AfterRun(capacity, ops[..|ops| - 1]), capacity, ops[|ops| - 1])
  }

  /** Every operation keeps the map canonical, at any capacity. */
  lemma AfterCanonical(m: Map, capacity: nat, op: Op)
    requires Canonical(m)
    ensures Canonical(After(m, capacity, op))
  {
    hide Inserted; hide Removed; hide RemovedUntil; hide Canonical;
    match op
    case OpInsert(s, e) => InsertedCanonical(m, capacity, s, e);
    case OpAddElem(x) => InsertedCanonical(m, capacity, x, x + 1);
    case OpRemove(s, e) => RemoveIsDifference(m, s, e);
    case OpRemoveElem(x) => RemoveIsDifference(m, x, x + 1);
    case OpRemoveUntil(x) => RemovedUntilCanonical(m, capacity, x);
    case OpPopMin => PopMinDropsLowestRun(m);
  }

  lemma RemovedUntilCanonical(m: Map, capacity: nat, x: nat)
    requires Canonical(m)
    ensures Canonical(RemovedUntil(m, capacity, x))
  {
    hide Removed; hide RemovedUntil; hide From; hide Canonical; hide Least;
    RemoveIsDifference(m, 0, x + 1);
    RemoveUntilIsRemoval(m, capacity, x);
    if UntilEvicts(m, capacity, x) { Submap(Removed(m, 0, x + 1), {Least(From(m, x + 1).Keys)}); }
  }

  /** At default capacity an operation does to the set of values what it means. */
  lemma AfterMeaning(m: Map, op: Op)
    requires Canonical(m) && Bounded(m) && ValidOp(op)
    ensures
      var r := After(m, U64_MAX, op);
      Bounded(r) && Values(r) == Meaning(Values(m), op)
  {
    hide Inserted; hide Removed; hide RemovedUntil; hide Canonical; hide Bounded; hide Values;
    match op
    case OpInsert(s, e) => InsertMeaning(m, s, e);
    case OpAddElem(x) => InsertMeaning(m, x, x + 1); SingleValue(x);
    case OpRemove(s, e) => RemoveMeaning(m, s, e);
    case OpRemoveElem(x) => RemoveMeaning(m, x, x + 1); SingleValue(x);
    case OpRemoveUntil(x) =>
      FitsByDefault(m);
      RemoveUntilWithinCapacity(m, U64_MAX, x);
      RemoveMeaning(m, 0, x + 1);
    case OpPopMin => PopMeaning(m);
  }

  lemma {:induction false} RunCanonical(capacity: nat, ops: seq<Op>)
    ensures Canonical(AfterRun(capacity, ops))
  {
    hide After;
    if ops != [] {
      RunCanonical(capacity, ops[..|ops| - 1]);
      AfterCanonical(AfterRun(capacity, ops[..|ops| - 1]), capacity, ops[|ops| - 1]);
    }
  }

  /** Over every run at default capacity, the map stands for exactly the set the operations
      describe. */
  lemma {:induction false} RunMeaning(ops: seq<Op>)
    requires forall op | op in ops :: ValidOp(op)
    ensures Bounded(AfterRun(U64_MAX, ops))
    ensures Values(AfterRun(U64_MAX, ops)) == MeaningOfRun(ops)
  {
    hide After; hide Meaning; hide ValidOp; hide Canonical;
    if ops == [] {
      assert Values(map[]) == iset{};
    } else {
      var prefix := ops[..|ops| - 1];
      RunMeaning(prefix);
      RunCanonical(U64_MAX, prefix);
      AfterMeaning(AfterRun(U64_MAX, prefix), ops[|ops| - 1]);
    }
  }

  method Apply(rs: RangeSet, op: Op)
    requires Canonical(rs.ranges)
    modifies rs`ranges
    ensures rs.ranges == After(old(rs.ranges), rs.capacity, op) && Canonical(rs.ranges)
  {
    hide Inserted; hide Removed; hide RemovedUntil; hide WithoutLowest; hide Canonical;
    AfterCanonical(rs.ranges, rs.capacity, op);
    match op
    case OpInsert(s, e) => rs.Insert(s, e);
    case OpAddElem(x) => rs.AddElem(x);
    case OpRemove(s, e) => rs.Remove(s, e);
    case OpRemoveElem(x) => rs.RemoveElem(x);
    case OpRemoveUntil(x) => rs.RemoveUntil(x);
    case OpPopMin => var _ := rs.PopMin();
  }

  /** Every run of operations from an empty set leaves a canonical map; at default capacity
      it stands for exactly the set the operations describe. */
  method Execute(capacity: nat, ops: seq<Op>) returns (rs: RangeSet)
    ensures fresh(rs) && rs.capacity == capacity && Canonical(rs.ranges)
    ensures rs.ranges == AfterRun(capacity, ops)
    ensures capacity == U64_MAX && (forall op | op in ops :: ValidOp(op)) ==> Values(rs.ranges) == MeaningOfRun(ops)
  {
    hide After; hide Canonical; hide Values; hide ValidOp; hide MeaningOfRun;
    rs := new RangeSet(capacity);
    RunCanonical(capacity, []);
    for i := 0 to |ops|
      invariant fresh(rs) && rs.capacity == capacity && Canonical(rs.ranges)
      invariant rs.ranges == AfterRun(capacity, ops[..i])
    {
      Apply(rs, ops[i]);
      assert ops[..i + 1][..i] == ops[..i];
    }
    assert ops[..|ops|] == ops;
    if capacity == U64_MAX && forall op | op in ops :: ValidOp(op) { RunMeaning(ops); }
  }

  // -------------------------------------------------------------- runs and capacity

  /** The removal cuts one range in two. */
  predicate Splits(m: Map, op: Op)
  {
    match op
    case OpRemove(s, e) => SplitsAt(m, s, e)
    case OpRemoveElem(x) => SplitsAt(m, x, x + 1)
    case _ => false
  }

  predicate SplitsAt(m: Map, s: nat, e: nat)
  {
    var p := PrevTo(m, s);
    s < e && p.Some? && p.value < s && e < m[p.value]
  }

  lemma RemovedCount(m: Map, s: nat, e: nat)
    requires Canonical(m)
    ensures SplitsAt(m, s, e) ==> |Removed(m, s, e)| == |m| + 1
    ensures !SplitsAt(m, s, e) ==> |Removed(m, s, e)| <= |m|
  {
    if s < e {
      hide Removed; hide Canonical; hide PrevTo;
      RemovedKeys(m, s, e);
      var kept := Kept(m, s, e);
      SubsetCount(kept, m.Keys);
      if Cut(m, e) && !SplitsAt(m, s, e) {
        LostKey(m, s, e);
        SubsetCount(kept, m.Keys - {PrevTo(m, e - 1).value});
      } else if SplitsAt(m, s, e) {
        NothingLost(m, s, e);
      }
    }
  }

  /** A range straddles `e`. */
  predicate Cut(m: Map, e: nat)
    requires 0 < e
  {
    PrevTo(m, e - 1).Some? && e < m[PrevTo(m, e - 1).value]
  }

  function Kept(m: Map, s: nat, e: nat): set<nat>
  {
    set k | k in m && (k < s || e <= k)
  }

  lemma RemovedKeys(m: Map, s: nat, e: nat)
    requires Canonical(m) && s < e
    ensures Removed(m, s, e).Keys == if Cut(m, e) then Kept(m, s, e) + {e} else Kept(m, s, e)
    ensures Cut(m, e) ==> e !in m
  {
    hide PrevTo;
  }

  lemma LostKey(m: Map, s: nat, e: nat)
    requires Canonical(m) && s < e && Cut(m, e) && !SplitsAt(m, s, e)
    ensures var q := PrevTo(m, e - 1).value; q in m && Kept(m, s, e) <= m.Keys - {q}
  {
    hide Greatest; hide Least;
    assert s <= PrevTo(m, e - 1).value;
  }

  lemma NothingLost(m: Map, s: nat, e: nat)
    requires Canonical(m) && SplitsAt(m, s, e)
    ensures Cut(m, e) && Kept(m, s, e) == m.Keys
  {
    hide Greatest; hide Least;
    var p := PrevTo(m, s).value;
    assert forall k | k in m :: k <= p || e < k;
    assert PrevTo(m, e - 1) == Some(p);
  }

  /** From within the bound, an operation leaves the bound if and only if it splits a range
      of a full set. */
  lemma BoundKeptStep(m: Map, capacity: nat, op: Op)
    requires Canonical(m) && |m| <= capacity && 1 <= capacity
    ensures |After(m, capacity, op)| <= capacity <==> !(|m| == capacity && Splits(m, op))
  {
    hide Inserted; hide Removed; hide RemovedUntil; hide Canonical; hide SplitsAt; hide Evicts; hide WithoutLowest;
    match op
    case OpInsert(s, e) => BoundedInsert(m, capacity, s, e);
    case OpAddElem(x) => BoundedInsert(m, capacity, x, x + 1);
    case OpRemove(s, e) => RemovedCount(m, s, e);
    case OpRemoveElem(x) => RemovedCount(m, x, x + 1);
    case OpRemoveUntil(x) =>
      RemoveUntilWithinCapacity(m, capacity, x);
      RemovedCount(m, 0, x + 1);
      NoSplitAtZero(m, x + 1);
    case OpPopMin => PopMinCount(m);
  }

  lemma PopMinCount(m: Map)
    ensures |WithoutLowest(m)| <= |m|
  {
    if m != map[] { assert WithoutLowest(m).Keys == m.Keys - {Least(m.Keys)}; }
  }

  lemma NoSplitAtZero(m: Map, e: nat)
    ensures !SplitsAt(m, 0, e)
  {
  }

  /** The set stayed within its capacity all along the run. */
  predicate BoundedAllAlong(capacity: nat, ops: seq<Op>)
  {
    && |AfterRun(capacity, ops)| <= capacity
    && (ops != [] ==> BoundedAllAlong(capacity, ops[..|ops| - 1]))
  }

  /** No removal of the run split a range of a full set. */
  predicate NeverSplitsFull(capacity: nat, ops: seq<Op>)
  {
    ops != [] ==>
      var m := AfterRun(capacity, ops[..|ops| - 1]);
      NeverSplitsFull(capacity, ops[..|ops| - 1]) && !(|m| == capacity && Splits(m, ops[|ops| - 1]))
  }

  /** A run stays within its capacity if and only if no removal splits a range of a full
      set: `remove` does not look at the capacity. */
  lemma {:induction false} BoundKeptIff(capacity: nat, ops: seq<Op>)
    requires 1 <= capacity
    ensures BoundedAllAlong(capacity, ops) <==> NeverSplitsFull(capacity, ops)
  {
    hide After; hide Splits;
    if ops != [] {
      var prefix := ops[..|ops| - 1];
      BoundKeptIff(capacity, prefix);
      RunCanonical(capacity, prefix);
      if BoundedAllAlong(capacity, prefix) {
        BoundKeptStep(AfterRun(capacity, prefix), capacity, ops[|ops| - 1]);
      }
    }
  }

  /** At capacity 1, inserting 0..10 and removing 3..4 leaves two ranges, and removing
      everything up to 1 then evicts 4..10 as well. */
  lemma SplitLeavesBound()
    ensures
      var m := Removed(Inserted(map[], 1, 0, 10), 3, 4);
      && m == map[0 := 3, 4 := 10] && |m| == 2
      && Removed(m, 0, 2) == map[2 := 3, 4 := 10] && RemovedUntil(m, 1, 1) == map[2 := 3]
  {
    hide Inserted; hide Removed; hide RemovedUntil;
    InsertIntoEmpty();
    SplitOne();
    UntilOne();
  }

  lemma InsertIntoEmpty()
    ensures Inserted(map[], 1, 0, 10) == map[0 := 10]
  {
    InsertClear(map[], 1, 0, 10);
  }

  lemma SplitOne()
    ensures Removed(map[0 := 10], 3, 4) == map[0 := 3, 4 := 10]
  {
    var one: Map := map[0 := 10];
    hide Removed; hide Greatest; hide Least; hide PrevTo;
    StraddlesFrom(one, 3, 4, 0);
    assert Below(one, 3) == map[0 := 3] && From(one, 4) == map[];
  }

  lemma UntilOne()
    ensures
      var two: Map := map[0 := 3, 4 := 10];
      Removed(two, 0, 2) == map[2 := 3, 4 := 10] && RemovedUntil(two, 1, 1) == map[2 := 3]
  {
    hide Removed; hide RemovedUntil; hide Greatest; hide Least;
    var two: Map := map[0 := 3, 4 := 10];
    assert Canonical(two);
    assert 0 in two && forall k | k in two :: k == 0 || k == 4;
    assert PrevTo(two, 1) == Some(0);
    var above: Map := map[4 := 10];
    assert From(two, 2) == above;
    UntilForms(two, 1, 1);
    hide From; hide PrevTo;
    assert above - {4} == map[];
    assert |above| == 1;
  }

  /** Two canonical maps with the same values are the same map, so a run's result is
      determined by its meaning alone. */
  lemma CanonicalIsUnique(a: Map, b: Map)
    requires Canonical(a) && Canonical(b) && Values(a) == Values(b)
    ensures a == b
  {
    forall k: nat ensures Get(a, k) == Get(b, k) {
      if k in a { SameRange(a, b, k); }
      if k in b { SameRange(b, a, k); }
    }
    SameMap(a, b);
  }

  lemma Edges(m: Map, k: nat)
    requires Canonical(m) && k in m
    ensures Has(m, k) && !Has(m, m[k]) && (0 < k ==> !Has(m, k - 1))
    ensures forall x: nat :: k <= x < m[k] ==> Has(m, x)
  {
    forall x: nat | k <= x < m[k] ensures Has(m, x) { assert k in m && k <= x < m[k]; }
  }

  lemma EdgeIsKey(m: Map, k: nat)
    requires Has(m, k) && (0 < k ==> !Has(m, k - 1))
    ensures k in m
  {
    var j :| j in m && j <= k < m[j];
  }

  lemma SameRange(a: Map, b: Map, k: nat)
    requires Canonical(a) && Canonical(b) && Values(a) == Values(b) && k in a
    ensures k in b && a[k] == b[k]
  {
    assert forall x: nat :: Has(a, x) <==> x in Values(a);
    assert forall x: nat :: Has(b, x) <==> x in Values(b);
    Edges(a, k);
    EdgeIsKey(b, k);
    Edges(b, k);
  }
}
