/** Parsed configuration trees and `_deep_merge`. A mapping is its entries in insertion order,
    as a Python dict keeps them; equality of trees here includes that order. */
module ConfigTree {
  import opened Text

  datatype Node =
    | Mapping(entries: seq<Entry>)
    | Listing(items: seq<Node>)
    | Str(text: string)
    | Scalar(repr: string)

  datatype Entry = Entry(key: string, value: Node)

  function Keys(es: seq<Entry>): (ks: seq<string>)
    ensures |ks| == |es|
  {
    if es == [] then [] else [es[0].key] + Keys(es[1..])
  }

  function Lookup(es: seq<Entry>, k: string): (v: Option<Node>)
    ensures v.Some? <==> k in Keys(es)
    ensures v.Some? ==> Entry(k, v.value) in es
  {
    if es == [] then None
    else if es[0].key == k then Some(es[0].value)
    else Lookup(es[1..], k)
  }

  /** `out[k] = v`: replaced in place, or appended. */
  function Put(es: seq<Entry>, k: string, v: Node): seq<Entry> {
    if es == [] then [Entry(k, v)]
    else if es[0].key == k then [Entry(k, v)] + es[1..]
    else [es[0]] + Put(es[1..], k, v)
  }

  predicate Distinct(ks: seq<string>) {
    forall i, j :: 0 <= i < j < |ks| ==> ks[i] != ks[j]
  }

  /** No mapping has a key twice. */
  ghost predicate WellFormed(n: Node) {
    match n
    case Mapping(es) => WellFormedEntries(es)
    case Listing(items) => forall i :: 0 <= i < |items| ==> WellFormed(items[i])
    case _ => true
  }

  ghost predicate WellFormedEntries(es: seq<Entry>) {
    Distinct(Keys(es)) && forall i :: 0 <= i < |es| ==> WellFormed(es[i].value)
  }

  // ---- Merging --------------------------------------------------------------

  /** What the overlay value `over` becomes at a key that holds `under`. */
  function Override(under: Option<Node>, over: Node): Node
    decreases over
  {
    if under.Some? && under.value.Mapping? && over.Mapping?
    then Mapping(Merge(under.value.entries, over.entries))
    else over
  }

  /** The state of `out` after the loop of `_deep_merge` over the overlay's items. */
  function Merge(out: seq<Entry>, overlay: seq<Entry>): seq<Entry>
    decreases overlay
  {
    if overlay == [] then out
    else
      var Entry(k, v) := overlay[0];
      Merge(Put(out, k, Override(Lookup(out, k), v)), overlay[1..])
  }

  method DeepMerge(base: seq<Entry>, overlay: seq<Entry>) returns (out: seq<Entry>)
    ensures out == Merge(base, overlay)
    decreases overlay
  {
    out := base;
    for i := 0 to |overlay|
      invariant Merge(out, overlay[i..]) == Merge(base, overlay)
    {
      var Entry(k, v) := overlay[i];
      var current := Lookup(out, k);
      assert overlay[i..][0] == overlay[i] && overlay[i..][1..] == overlay[i + 1..];
      if current.Some? && current.value.Mapping? && v.Mapping? {
        var merged := DeepMerge(current.value.entries, v.entries);
        out := Put(out, k, Mapping(merged));
      } else {
        out := Put(out, k, v);
      }
    }
  }

  // ---- Entries as a finite function in key order ---------------------------

  lemma {:induction false} LookupPut(es: seq<Entry>, k: string, v: Node, q: string)
    ensures Lookup(Put(es, k, v), q) == if q == k then Some(v) else Lookup(es, q)
    ensures Keys(Put(es, k, v)) == if k in Keys(es) then Keys(es) else Keys(es) + [k]
  {
    if es != [] && es[0].key != k {
      LookupPut(es[1..], k, v, q);
    }
  }

  lemma {:induction false} WellFormedPut(es: seq<Entry>, k: string, v: Node)
    requires WellFormedEntries(es) && WellFormed(v)
    ensures WellFormedEntries(Put(es, k, v))
  {
    LookupPut(es, k, v, k);
    PutValues(es, k, v);
    assert Distinct(Keys(Put(es, k, v)));
    hide Put, Keys, Lookup, Distinct;
    var after := Put(es, k, v);
    forall i | 0 <= i < |after| ensures WellFormed(after[i].value) {
      assert after[i] == Entry(k, v) || after[i] in es;
    }
  }

  lemma {:induction false} PutValues(es: seq<Entry>, k: string, v: Node)
    ensures forall i :: 0 <= i < |Put(es, k, v)| ==> Put(es, k, v)[i] == Entry(k, v) || Put(es, k, v)[i] in es
  {
    if es != [] && es[0].key != k {
      PutValues(es[1..], k, v);
    }
  }

  /** Two mappings with the same keys in the same order and the same value at each are equal. */
  lemma {:induction false} SameEntries(a: seq<Entry>, b: seq<Entry>)
    requires Keys(a) == Keys(b) && Distinct(Keys(a))
    requires forall k :: k in Keys(a) ==> Lookup(a, k) == Lookup(b, k)
    ensures a == b
  {
    if a != [] {
      var k := a[0].key;
      assert Keys(a)[0] == k && Keys(b)[0] == b[0].key;
      DistinctTail(a);
      DistinctTail(b);
      assert Lookup(a, k) == Lookup(b, k);
      forall q | q in Keys(a[1..])
        ensures Lookup(a[1..], q) == Lookup(b[1..], q)
      {
        assert q in Keys(a) && q != k;
      }
      SameEntries(a[1..], b[1..]);
    }
  }

  lemma DistinctTail(es: seq<Entry>)
    requires es != [] && Distinct(Keys(es))
    ensures Keys(es) == [es[0].key] + Keys(es[1..]) && Keys(es)[1..] == Keys(es[1..])
    ensures Distinct(Keys(es[1..])) && es[0].key !in Keys(es[1..])
  {
    var ks, tail := Keys(es), Keys(es[1..]);
    assert forall i :: 0 <= i < |tail| ==> tail[i] == ks[i + 1] != ks[0];
  }

  lemma WellFormedTail(es: seq<Entry>)
    requires WellFormedEntries(es) && es != []
    ensures WellFormed(es[0].value) && WellFormedEntries(es[1..])
    ensures Lookup(es[1..], es[0].key) == None
  {
    DistinctTail(es);
  }

  lemma WellFormedLookup(es: seq<Entry>, k: string)
    requires WellFormedEntries(es)
    ensures Lookup(es, k).Some? ==> WellFormed(Lookup(es, k).value)
  {
  }

  /** The keys of `ls` that are not among `ks`, in order. */
  function NewKeys(ks: seq<string>, ls: seq<string>): seq<string> {
    if ls == [] then []
    else if ls[0] in ks then NewKeys(ks, ls[1..])
    else [ls[0]] + NewKeys(ks, ls[1..])
  }

  /** A value after merging, key by key. */
  function Overlaid(under: Option<Node>, over: Option<Node>): Option<Node> {
    if over.None? then under else Some(Override(under, over.value))
  }

  /** The merged mapping, key by key: the loop over the overlay treats every key on its own. */
  lemma {:induction false} MergeLookup(b: seq<Entry>, o: seq<Entry>, q: string)
    requires WellFormedEntries(o)
    ensures Lookup(Merge(b, o), q) == Overlaid(Lookup(b, q), Lookup(o, q))
    decreases o
  {
    if o != [] {
      var Entry(k, v) := o[0];
      var over := Override(Lookup(b, k), v);
      WellFormedTail(o);
      MergeLookup(Put(b, k, over), o[1..], q);
      LookupPut(b, k, over, q);
    }
  }

  /** The merged keys: the base's in their order, then the overlay's new ones in theirs. */
  lemma {:induction false} MergeKeys(b: seq<Entry>, o: seq<Entry>)
    requires Distinct(Keys(o))
    ensures Keys(Merge(b, o)) == Keys(b) + NewKeys(Keys(b), Keys(o))
    decreases o
  {
    if o != [] {
      var Entry(k, v) := o[0];
      DistinctTail(o);
      LookupPut(b, k, Override(Lookup(b, k), v), k);
      MergeKeys(Put(b, k, Override(Lookup(b, k), v)), o[1..]);
      NewKeysOfPut(Keys(b), k, Keys(o[1..]));
    }
  }

  lemma NewKeysOfPut(ks: seq<string>, k: string, ls: seq<string>)
    requires k !in ls
    ensures k in ks ==> NewKeys(ks, [k] + ls) == NewKeys(ks, ls)
    ensures k !in ks ==> (ks + [k]) + NewKeys(ks + [k], ls) == ks + NewKeys(ks, [k] + ls)
  {
    assert ([k] + ls)[1..] == ls;
    NewKeysSkip(ks, k, ls);
  }

  lemma {:induction false} NewKeysSkip(ks: seq<string>, k: string, ls: seq<string>)
    requires k !in ls
    ensures NewKeys(ks + [k], ls) == NewKeys(ks, ls)
  {
    if ls != [] {
      NewKeysSkip(ks, k, ls[1..]);
    }
  }

  lemma {:induction false} NewKeysMembers(ks: seq<string>, ls: seq<string>)
    requires Distinct(ls)
    ensures forall k :: k in NewKeys(ks, ls) <==> k in ls && k !in ks
    ensures Distinct(NewKeys(ks, ls))
  {
    if ls != [] {
      NewKeysMembers(ks, ls[1..]);
    }
  }

  lemma {:induction false} WellFormedMerge(b: seq<Entry>, o: seq<Entry>)
    requires WellFormedEntries(b) && WellFormedEntries(o)
    ensures WellFormedEntries(Merge(b, o))
    decreases o
  {
    if o != [] {
      var Entry(k, v) := o[0];
      WellFormedTail(o);
      WellFormedLookup(b, k);
      var under := Lookup(b, k);
      if under.Some? && under.value.Mapping? && v.Mapping? {
        WellFormedMerge(under.value.entries, v.entries);
      }
      WellFormedPut(b, k, Override(under, v));
      WellFormedMerge(Put(b, k, Override(under, v)), o[1..]);
    }
  }
}
