/** Layering up to the order of keys, which `==` on Python's dicts ignores. */
module DictEquality {
  import opened Text
  import opened ConfigTree
  import opened MergeLaws

  /** `==` on parsed trees. */
  ghost predicate Same(n: Node, m: Node)
    decreases n
  {
    match n
    case Mapping(es) =>
      && m.Mapping? && (forall k :: k in Keys(m.entries) ==> k in Keys(es))
      && forall i :: 0 <= i < |es| ==>
           Lookup(m.entries, es[i].key).Some? && Same(es[i].value, Lookup(m.entries, es[i].key).value)
    case Listing(items) =>
      m.Listing? && |items| == |m.items| && forall i :: 0 <= i < |items| ==> Same(items[i], m.items[i])
    case _ => n == m
  }

  ghost predicate SameAt(a: Option<Node>, b: Option<Node>) {
    (a.Some? <==> b.Some?) && (a.Some? ==> Same(a.value, b.value))
  }

  ghost predicate SameByKey(a: seq<Entry>, b: seq<Entry>) { forall k :: SameAt(Lookup(a, k), Lookup(b, k)) }

  /** Two mappings are equal when they agree key by key. */
  lemma SameMappingIff(a: seq<Entry>, b: seq<Entry>)
    requires WellFormedEntries(a)
    ensures Same(Mapping(a), Mapping(b)) <==> SameByKey(a, b)
  {
    if Same(Mapping(a), Mapping(b)) {
      forall k ensures SameAt(Lookup(a, k), Lookup(b, k)) {
        if k in Keys(a) {
          var i := IndexOf(a, k);
          LookupAt(a, i);
        }
      }
    }
    if SameByKey(a, b) {
      forall k | k in Keys(b) ensures k in Keys(a) {
        assert SameAt(Lookup(a, k), Lookup(b, k));
      }
      forall i: int | 0 <= i < |a|
        ensures Lookup(b, a[i].key).Some? && Same(a[i].value, Lookup(b, a[i].key).value)
      {
        LookupAt(a, i);
        assert SameAt(Lookup(a, a[i].key), Lookup(b, a[i].key));
      }
    }
  }

  lemma {:induction false} SameReflexive(n: Node)
    requires WellFormed(n)
    ensures Same(n, n)
  {
    match n
    case Mapping(es) =>
      forall i: nat | i < |es| ensures Lookup(es, es[i].key) == Some(es[i].value) && Same(es[i].value, es[i].value) {
        LookupAt(es, i);
        SameReflexive(es[i].value);
      }
    case Listing(items) =>
      forall i | 0 <= i < |items| ensures Same(items[i], items[i]) {
        SameReflexive(items[i]);
      }
    case _ =>
  }

  lemma {:induction false} SameSymmetric(n: Node, m: Node)
    requires WellFormed(n) && WellFormed(m) && Same(n, m)
    ensures Same(m, n)
  {
    match n
    case Mapping(es) =>
      SameMappingIff(es, m.entries);
      assert SameByKey(es, m.entries);
      forall k ensures SameAt(Lookup(m.entries, k), Lookup(es, k)) {
        assert SameAt(Lookup(es, k), Lookup(m.entries, k));
        if k in Keys(es) {
          var i := IndexOf(es, k);
          LookupAt(es, i);
          WellFormedLookup(m.entries, k);
          SameSymmetric(es[i].value, Lookup(m.entries, k).value);
        }
      }
      SameMappingIff(m.entries, es);
    case Listing(items) =>
      forall i | 0 <= i < |items| ensures Same(m.items[i], items[i]) {
        SameSymmetric(items[i], m.items[i]);
      }
    case _ =>
  }

  // ---- When a layer leaves the one above it alone ---------------------------

  /** Every key of `x` is a key of `z`, and so for mappings inside of mappings. */
  ghost predicate Includes(z: seq<Entry>, x: seq<Entry>)
    decreases z
  {
    (forall k :: k in Keys(x) ==> k in Keys(z)) &&
    forall i :: 0 <= i < |z| ==> IncludesAt(z[i].value, Lookup(x, z[i].key))
  }

  ghost predicate IncludesAt(over: Node, under: Option<Node>)
    decreases over
  {
    under.Some? && under.value.Mapping? && over.Mapping? ==> Includes(over.entries, under.value.entries)
  }

  /** Laying `z` over `x` gives a dict equal to `z` if and only if `z` includes `x`. */
  lemma {:induction false} IncludesIff(x: seq<Entry>, z: seq<Entry>)
    requires WellFormedEntries(x) && WellFormedEntries(z)
    ensures Same(Mapping(Merge(x, z)), Mapping(z)) <==> Includes(z, x)
    decreases z
  {
    WellFormedMerge(x, z);
    SameMappingIff(Merge(x, z), z);
    forall k
      ensures SameAt(Lookup(Merge(x, z), k), Lookup(z, k)) <==> IncludesKey(z, x, k)
    {
      MergeLookup(x, z, k);
      WellFormedLookup(x, k);
      if Lookup(z, k).Some? {
        var i := IndexOf(z, k);
        LookupAt(z, i);
        SameReflexive(z[i].value);
        var under := Lookup(x, k);
        if under.Some? && under.value.Mapping? && z[i].value.Mapping? {
          IncludesIff(under.value.entries, z[i].value.entries);
        }
      }
    }
    assert SameByKey(Merge(x, z), z) <==> forall k :: IncludesKey(z, x, k);
    IncludesByKey(z, x);
    hide *;
  }

  ghost predicate IncludesKey(z: seq<Entry>, x: seq<Entry>, k: string) {
    if Lookup(z, k).Some? then IncludesAt(Lookup(z, k).value, Lookup(x, k)) else Lookup(x, k).None?
  }

  lemma IncludesByKey(z: seq<Entry>, x: seq<Entry>)
    requires WellFormedEntries(z)
    ensures Includes(z, x) <==> forall k :: IncludesKey(z, x, k)
  {
    if Includes(z, x) {
      forall k ensures IncludesKey(z, x, k) {
        if k in Keys(z) {
          var i := IndexOf(z, k);
          LookupAt(z, i);
        }
      }
    }
    if forall k :: IncludesKey(z, x, k) {
      forall k | k in Keys(x) ensures k in Keys(z) {
        assert IncludesKey(z, x, k);
      }
      forall i: int | 0 <= i < |z| ensures IncludesAt(z[i].value, Lookup(x, z[i].key)) {
        LookupAt(z, i);
        assert IncludesKey(z, x, z[i].key);
      }
    }
  }

  // ---- Associativity ---------------------------------------------------------

  /** As `Associates`, with `Includes` for `Covers`: the middle layer nowhere replaces a mapping of the
      first by something else while the last brings back a mapping that lacks a key of the first. */
  ghost predicate AssociatesAnyOrder(a: seq<Entry>, b: seq<Entry>, c: seq<Entry>)
    decreases c
  {
    forall i :: 0 <= i < |c| ==> AnyOrderAt(Lookup(a, c[i].key), Lookup(b, c[i].key), c[i].value)
  }

  ghost predicate AnyOrderAt(a: Option<Node>, b: Option<Node>, c: Node)
    decreases c
  {
    a.Some? && a.value.Mapping? && b.Some? && c.Mapping? ==>
      if b.value.Mapping? then AssociatesAnyOrder(a.value.entries, b.value.entries, c.entries)
      else Includes(c.entries, a.value.entries)
  }

  /** The two groupings of three layers are equal as dicts if and only if no such clash occurs. */
  lemma {:induction false} AssociativeAnyOrderIff(a: seq<Entry>, b: seq<Entry>, c: seq<Entry>)
    requires WellFormedEntries(a) && WellFormedEntries(b) && WellFormedEntries(c)
    ensures Same(Mapping(Merge(a, Merge(b, c))), Mapping(Merge(Merge(a, b), c))) <==> AssociatesAnyOrder(a, b, c)
    decreases c, 1
  {
    var left, right := Merge(Merge(a, b), c), Merge(a, Merge(b, c));
    GroupingKeys(a, b, c);
    SameMappingIff(right, left);
    forall k
      ensures SameAt(Lookup(right, k), Lookup(left, k)) <==> AnyOrderKey(a, b, c, k)
    {
      GroupedLookups(a, b, c, k);
      WellFormedLookup(a, k);
      WellFormedLookup(b, k);
      WellFormedLookup(c, k);
      if Lookup(c, k).Some? {
        var i := IndexOf(c, k);
        LookupAt(c, i);
        OverrideAnyOrder(Lookup(a, k), Lookup(b, k), c[i].value);
      } else if Lookup(left, k).Some? {
        WellFormedLookup(left, k);
        SameReflexive(Lookup(left, k).value);
      }
    }
    assert SameByKey(right, left) <==> forall k :: AnyOrderKey(a, b, c, k);
    AnyOrderByKey(a, b, c);
    hide *;
  }

  lemma GroupedLookups(a: seq<Entry>, b: seq<Entry>, c: seq<Entry>, k: string)
    requires WellFormedEntries(a) && WellFormedEntries(b) && WellFormedEntries(c)
    ensures var av, bv, cv := Lookup(a, k), Lookup(b, k), Lookup(c, k);
      && Lookup(Merge(Merge(a, b), c), k) == Overlaid(Overlaid(av, bv), cv)
      && Lookup(Merge(a, Merge(b, c)), k) == Overlaid(av, Overlaid(bv, cv))
  {
    MergeLookup(a, b, k);
    MergeLookup(b, c, k);
    WellFormedMerge(b, c);
    MergeLookup(Merge(a, b), c, k);
    MergeLookup(a, Merge(b, c), k);
    hide Merge, WellFormed, Lookup, Overlaid;
  }

  ghost predicate AnyOrderKey(a: seq<Entry>, b: seq<Entry>, c: seq<Entry>, k: string) {
    Lookup(c, k).Some? ==> AnyOrderAt(Lookup(a, k), Lookup(b, k), Lookup(c, k).value)
  }

  lemma AnyOrderByKey(a: seq<Entry>, b: seq<Entry>, c: seq<Entry>)
    requires WellFormedEntries(c)
    ensures AssociatesAnyOrder(a, b, c) <==> forall k :: AnyOrderKey(a, b, c, k)
  {
    if AssociatesAnyOrder(a, b, c) {
      forall k ensures AnyOrderKey(a, b, c, k) {
        if k in Keys(c) {
          var i := IndexOf(c, k);
          LookupAt(c, i);
        }
      }
    }
    if forall k :: AnyOrderKey(a, b, c, k) {
      forall i: int | 0 <= i < |c| ensures AnyOrderAt(Lookup(a, c[i].key), Lookup(b, c[i].key), c[i].value) {
        LookupAt(c, i);
        assert AnyOrderKey(a, b, c, c[i].key);
      }
    }
  }

  lemma OverrideAnyOrder(a: Option<Node>, b: Option<Node>, c: Node)
    requires WellFormed(c) && (a.Some? ==> WellFormed(a.value)) && (b.Some? ==> WellFormed(b.value))
    ensures Same(Override(a, Override(b, c)), Override(Overlaid(a, b), c)) <==> AnyOrderAt(a, b, c)
    decreases c, 0
  {
    if c.Mapping? && a.Some? && a.value.Mapping? && b.Some? {
      if b.value.Mapping? {
        AssociativeAnyOrderIff(a.value.entries, b.value.entries, c.entries);
      } else {
        IncludesIff(a.value.entries, c.entries);
      }
    } else {
      assert Override(a, Override(b, c)) == Override(Overlaid(a, b), c);
      OverrideWellFormed(b, c);
      OverrideWellFormed(a, Override(b, c));
      SameReflexive(Override(a, Override(b, c)));
    }
  }

  lemma OverrideWellFormed(under: Option<Node>, over: Node)
    requires WellFormed(over) && (under.Some? ==> WellFormed(under.value))
    ensures WellFormed(Override(under, over))
  {
    if under.Some? && under.value.Mapping? && over.Mapping? {
      WellFormedMerge(under.value.entries, over.entries);
    }
  }

  /** With key order the condition is stronger: here the groupings are equal as dicts, but list the keys of
      `d` in different orders. */
  lemma OnlyTheOrderDiffers() returns (a: seq<Entry>, b: seq<Entry>, c: seq<Entry>)
    ensures WellFormedEntries(a) && WellFormedEntries(b) && WellFormedEntries(c)
    ensures Merge(a, Merge(b, c)) != Merge(Merge(a, b), c)
    ensures Same(Mapping(Merge(a, Merge(b, c))), Mapping(Merge(Merge(a, b), c)))
  {
    var first, last := [Entry("x", Str("1")), Entry("y", Str("2"))], [Entry("y", Str("3")), Entry("x", Str("4"))];
    TwoKeys("x", Str("1"), "y", Str("2"));
    TwoKeys("y", Str("3"), "x", Str("4"));
    assert Includes(last, first);
    assert !Covers(last, first) by { assert Keys(first)[0] != Keys(last)[0]; }
    a, b, c := [Entry("d", Mapping(first))], [Entry("d", Str("0"))], [Entry("d", Mapping(last))];
    OneKey("d", Mapping(first));
    OneKey("d", Str("0"));
    OneKey("d", Mapping(last));
    OneKeyClash(first, last);
    hide *;
    AssociativeIff(a, b, c);
    AssociativeAnyOrderIff(a, b, c);
  }

  lemma OneKey(k: string, n: Node)
    requires WellFormed(n)
    ensures WellFormedEntries([Entry(k, n)])
  {
  }

  lemma TwoKeys(k: string, n: Node, l: string, m: Node)
    requires k != l && n.Str? && m.Str?
    ensures var es := [Entry(k, n), Entry(l, m)];
      Keys(es) == [k, l] && WellFormedEntries(es) && WellFormed(Mapping(es))
  {
    var es := [Entry(k, n), Entry(l, m)];
    assert es[1..] == [Entry(l, m)] && Keys(es[1..]) == [l];
  }

  lemma OneKeyClash(first: seq<Entry>, last: seq<Entry>)
    ensures var a, b, c := [Entry("d", Mapping(first))], [Entry("d", Str("0"))], [Entry("d", Mapping(last))];
      (AssociatesAnyOrder(a, b, c) <==> Includes(last, first)) && (Associates(a, b, c) <==> Covers(last, first))
  {
    var a, b, c := [Entry("d", Mapping(first))], [Entry("d", Str("0"))], [Entry("d", Mapping(last))];
    assert Lookup(a, "d") == Some(Mapping(first)) && Lookup(b, "d") == Some(Str("0")) && c[0].key == "d";
    hide Includes, Covers, Lookup;
    assert AssociatesAnyOrder(a, b, c) <==> AnyOrderAt(Lookup(a, c[0].key), Lookup(b, c[0].key), c[0].value);
    assert Associates(a, b, c) <==> AssociatesAt(Lookup(a, c[0].key), Lookup(b, c[0].key), c[0].value);
  }
}
