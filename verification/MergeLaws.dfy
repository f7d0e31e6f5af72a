/** The laws of layering configuration with `_deep_merge`. */
module MergeLaws {
  import opened Text
  import opened ConfigTree

  /** Two merges are equal when they list the same keys and agree key by key. */
  lemma MergesAgree(a: seq<Entry>, b: seq<Entry>)
    requires WellFormedEntries(a) && WellFormedEntries(b) && Keys(a) == Keys(b)
    requires forall k :: k in Keys(a) ==> Lookup(a, k) == Lookup(b, k)
    ensures a == b
  {
    SameEntries(a, b);
  }

  // ---- Idempotence -----------------------------------------------------------

  /** Applying an overlay a second time changes nothing. */
  lemma {:induction false} Idempotent(b: seq<Entry>, o: seq<Entry>)
    requires WellFormedEntries(b) && WellFormedEntries(o)
    ensures Merge(Merge(b, o), o) == Merge(b, o)
    decreases o, 1
  {
    var m := Merge(b, o);
    WellFormedMerge(b, o);
    WellFormedMerge(m, o);
    MergeKeys(b, o);
    MergeKeys(m, o);
    NewKeysMembers(Keys(b), Keys(o));
    NoNewKeys(Keys(m), Keys(o));
    forall k | k in Keys(m)
      ensures Lookup(Merge(m, o), k) == Lookup(m, k)
    {
      MergeLookup(b, o, k);
      MergeLookup(m, o, k);
      if Lookup(o, k).Some? {
        WellFormedLookup(b, k);
        WellFormedLookup(o, k);
        OverrideTwice(Lookup(b, k), Lookup(o, k).value);
      }
    }
    MergesAgree(Merge(m, o), m);
  }

  lemma {:induction false} OverrideTwice(under: Option<Node>, over: Node)
    requires WellFormed(over) && (under.Some? ==> WellFormed(under.value))
    ensures Override(Some(Override(under, over)), over) == Override(under, over)
    decreases over
  {
    if over.Mapping? {
      if under.Some? && under.value.Mapping? {
        Idempotent(under.value.entries, over.entries);
      } else {
        MergeIntoEmpty(over.entries);
        Idempotent([], over.entries);
      }
    }
  }

  lemma {:induction false} NoNewKeys(ks: seq<string>, ls: seq<string>)
    requires forall l :: l in ls ==> l in ks
    ensures NewKeys(ks, ls) == []
  {
    if ls != [] {
      assert ls[0] in ls;
      NoNewKeys(ks, ls[1..]);
    }
  }

  lemma {:induction false} AllNewKeys(ks: seq<string>, ls: seq<string>)
    requires forall l :: l in ls ==> l !in ks
    ensures NewKeys(ks, ls) == ls
  {
    if ls != [] {
      assert ls[0] in ls;
      AllNewKeys(ks, ls[1..]);
    }
  }

  lemma MergeIntoEmpty(o: seq<Entry>)
    requires WellFormedEntries(o)
    ensures Merge([], o) == o
  {
    MergeKeys([], o);
    AllNewKeys([], Keys(o));
    WellFormedMerge([], o);
    forall k | k in Keys(o)
      ensures Lookup(Merge([], o), k) == Lookup(o, k)
    {
      MergeLookup([], o, k);
    }
    MergesAgree(Merge([], o), o);
  }

  // ---- Overridden defaults ---------------------------------------------------

  /** The merge sees a replaced value only through what the overlay makes of it. */
  lemma MergePut(b: seq<Entry>, o: seq<Entry>, k: string, v: Node)
    requires WellFormedEntries(b) && WellFormedEntries(o) && WellFormed(v) && k in Keys(b)
    requires Overlaid(Some(v), Lookup(o, k)) == Overlaid(Lookup(b, k), Lookup(o, k))
    ensures Merge(Put(b, k, v), o) == Merge(b, o)
  {
    var b' := Put(b, k, v);
    LookupPut(b, k, v, k);
    WellFormedPut(b, k, v);
    WellFormedMerge(b, o);
    WellFormedMerge(b', o);
    MergeKeys(b, o);
    MergeKeys(b', o);
    forall q | q in Keys(Merge(b, o))
      ensures Lookup(Merge(b', o), q) == Lookup(Merge(b, o), q)
    {
      MergeLookup(b, o, q);
      MergeLookup(b', o, q);
      LookupPut(b, k, v, q);
    }
    MergesAgree(Merge(b', o), Merge(b, o));
  }

  /** Where the overlay has something other than a mapping, the default's value is irrelevant:
      any other default would give the same configuration. */
  lemma OverriddenDefaultIsIrrelevant(b: seq<Entry>, o: seq<Entry>, k: string, other: Node)
    requires WellFormedEntries(b) && WellFormedEntries(o) && WellFormed(other)
    requires k in Keys(b) && Lookup(o, k).Some? && !Lookup(o, k).value.Mapping?
    ensures Merge(Put(b, k, other), o) == Merge(b, o)
  {
    MergePut(b, o, k, other);
  }

  // ---- The path law ----------------------------------------------------------

  /** The node at a path of mapping keys. */
  function At(n: Node, path: seq<string>): Option<Node> {
    if path == [] then Some(n)
    else if !n.Mapping? || Lookup(n.entries, path[0]).None? then None
    else At(Lookup(n.entries, path[0]).value, path[1..])
  }

  /** A proper prefix of the path holds something other than a mapping. */
  predicate Blocked(n: Node, path: seq<string>) {
    path != [] &&
    (!n.Mapping? ||
     (Lookup(n.entries, path[0]).Some? && Blocked(Lookup(n.entries, path[0]).value, path[1..])))
  }

  lemma {:induction false} BlockedMeans(n: Node, path: seq<string>)
    ensures Blocked(n, path) <==>
            exists i :: 0 <= i < |path| && At(n, path[..i]).Some? && !At(n, path[..i]).value.Mapping?
  {
    if path != [] {
      if !n.Mapping? {
        assert At(n, path[..0]) == Some(n);
      } else {
        var next := Lookup(n.entries, path[0]);
        forall i | 0 < i <= |path|
          ensures At(n, path[..i]) == if next.None? then None else At(next.value, path[1..][..i - 1])
        {
          assert path[..i][0] == path[0] && path[..i][1..] == path[1..][..i - 1];
        }
        assert At(n, path[..0]) == Some(n);
        if next.Some? {
          BlockedMeans(next.value, path[1..]);
          if Blocked(n, path) {
            var j :| 0 <= j < |path[1..]| && At(next.value, path[1..][..j]).Some?
              && !At(next.value, path[1..][..j]).value.Mapping?;
            assert At(n, path[..j + 1]) == At(next.value, path[1..][..j + 1 - 1]);
          }
        }
      }
    }
  }

  /** What a merged configuration holds at any path, in terms of its two layers. */
  function Layered(under: Option<Node>, over: Option<Node>, blocked: bool): Option<Node> {
    if over.Some? then Some(Override(under, over.value))
    else if blocked then None
    else under
  }

  /** The path law. At every path: where both layers have mappings there is their merge; otherwise
      the overlay's node wins; a base node survives exactly where the overlay neither has a node
      nor an ancestor of it that is not a mapping. */
  lemma {:induction false} PathLaw(b: seq<Entry>, o: seq<Entry>, path: seq<string>)
    requires WellFormedEntries(b) && WellFormedEntries(o)
    ensures At(Mapping(Merge(b, o)), path)
         == Layered(At(Mapping(b), path), At(Mapping(o), path), Blocked(Mapping(o), path))
    decreases path
  {
    if path != [] {
      var k, rest := path[0], path[1..];
      MergeLookup(b, o, k);
      WellFormedLookup(b, k);
      WellFormedLookup(o, k);
      var under, over := Lookup(b, k), Lookup(o, k);
      if over.Some? && under.Some? && under.value.Mapping? && over.value.Mapping? {
        PathLaw(under.value.entries, over.value.entries, rest);
      }
    }
  }

  // ---- Which defaults matter ---------------------------------------------------

  /** The mapping with the node at a path of its own replaced. */
  function PutAt(es: seq<Entry>, path: seq<string>, v: Node): seq<Entry>
    requires path != [] && At(Mapping(es), path).Some?
  {
    var inner := Lookup(es, path[0]).value;
    assert At(inner, path[1..]).Some?;
    if |path| == 1 then Put(es, path[0], v) else Put(es, path[0], Mapping(PutAt(inner.entries, path[1..], v)))
  }

  /** A default may be replaced by another, at any depth, if the path law gives the same node for both. */
  lemma {:induction false} ReplaceableAt(b: seq<Entry>, o: seq<Entry>, path: seq<string>, v: Node)
    requires WellFormedEntries(b) && WellFormedEntries(o) && WellFormed(v)
    requires path != [] && At(Mapping(b), path).Some?
    requires var over, blocked := At(Mapping(o), path), Blocked(Mapping(o), path);
      Layered(Some(v), over, blocked) == Layered(At(Mapping(b), path), over, blocked)
    ensures Merge(PutAt(b, path, v), o) == Merge(b, o) && WellFormedEntries(PutAt(b, path, v))
    decreases path
  {
    var k, rest := path[0], path[1..];
    var under, over := Lookup(b, k), Lookup(o, k);
    WellFormedLookup(b, k);
    WellFormedLookup(o, k);
    if rest == [] {
      assert At(under.value, rest) == under;
      WellFormedPut(b, k, v);
      MergePut(b, o, k, v);
    } else {
      var inner := under.value.entries;
      var o' := if over.Some? && over.value.Mapping? then over.value.entries else [];
      if over.Some? && !over.value.Mapping? {
        PutAtWellFormed(inner, rest, v);
      } else if over.None? {
        PutAtSame(inner, rest);
        PutAtWellFormed(inner, rest, v);
      } else {
        ReplaceableAt(inner, o', rest, v);
      }
      WellFormedPut(b, k, Mapping(PutAt(inner, rest, v)));
      MergePut(b, o, k, Mapping(PutAt(inner, rest, v)));
    }
  }

  lemma {:induction false} PutAtWellFormed(es: seq<Entry>, path: seq<string>, v: Node)
    requires WellFormedEntries(es) && WellFormed(v) && path != [] && At(Mapping(es), path).Some?
    ensures WellFormedEntries(PutAt(es, path, v))
    decreases path
  {
    WellFormedLookup(es, path[0]);
    if |path| == 1 {
      WellFormedPut(es, path[0], v);
    } else {
      PutAtWellFormed(Lookup(es, path[0]).value.entries, path[1..], v);
      WellFormedPut(es, path[0], Mapping(PutAt(Lookup(es, path[0]).value.entries, path[1..], v)));
    }
  }

  lemma {:induction false} PutSame(es: seq<Entry>, k: string)
    requires k in Keys(es)
    ensures Put(es, k, Lookup(es, k).value) == es
  {
    if es[0].key != k {
      PutSame(es[1..], k);
    }
  }

  /** Putting back what is there changes nothing; and what is put is found. */
  lemma {:induction false} PutAtSame(es: seq<Entry>, path: seq<string>)
    requires path != [] && At(Mapping(es), path).Some?
    ensures PutAt(es, path, At(Mapping(es), path).value) == es
    decreases path
  {
    PutSame(es, path[0]);
    if |path| > 1 {
      PutAtSame(Lookup(es, path[0]).value.entries, path[1..]);
    } else {
      assert path[1..] == [];
    }
  }

  lemma {:induction false} AtPutAt(es: seq<Entry>, path: seq<string>, v: Node)
    requires path != [] && At(Mapping(es), path).Some?
    ensures At(Mapping(PutAt(es, path, v)), path) == Some(v)
    decreases path
  {
    if |path| == 1 {
      LookupPut(es, path[0], v, path[0]);
    } else {
      var inner := PutAt(Lookup(es, path[0]).value.entries, path[1..], v);
      LookupPut(es, path[0], Mapping(inner), path[0]);
      AtPutAt(Lookup(es, path[0]).value.entries, path[1..], v);
    }
  }

  /** Exactly when a default may be replaced by another without changing the configuration: the overlay
      has another than a mapping there or above, or makes the same of both. */
  lemma DefaultIsIrrelevantIff(b: seq<Entry>, o: seq<Entry>, path: seq<string>, v: Node)
    requires WellFormedEntries(b) && WellFormedEntries(o) && WellFormed(v)
    requires path != [] && At(Mapping(b), path).Some?
    ensures var under, over, blocked := At(Mapping(b), path), At(Mapping(o), path), Blocked(Mapping(o), path);
      Merge(PutAt(b, path, v), o) == Merge(b, o) <==>
        Layered(Some(v), over, blocked) == Layered(under, over, blocked)
  {
    var over, blocked := At(Mapping(o), path), Blocked(Mapping(o), path);
    if Layered(Some(v), over, blocked) == Layered(At(Mapping(b), path), over, blocked) {
      ReplaceableAt(b, o, path, v);
    }
    PutAtWellFormed(b, path, v);
    PathLaw(b, o, path);
    PathLaw(PutAt(b, path, v), o, path);
    AtPutAt(b, path, v);
  }

  // ---- Associativity ---------------------------------------------------------

  /** Laying `z` over `x` gives `z` itself: every key of `x` comes first in `z`, in `x`'s order,
      and inner mappings are covered likewise. */
  ghost predicate Covers(z: seq<Entry>, x: seq<Entry>)
    decreases z
  {
    Keys(x) <= Keys(z) &&
    forall i :: 0 <= i < |z| ==> CoversAt(z[i].value, Lookup(x, z[i].key))
  }

  ghost predicate CoversAt(over: Node, under: Option<Node>)
    decreases over
  {
    under.Some? && under.value.Mapping? && over.Mapping? ==> Covers(over.entries, under.value.entries)
  }

  lemma {:induction false} CoversIff(x: seq<Entry>, z: seq<Entry>)
    requires WellFormedEntries(x) && WellFormedEntries(z)
    ensures Merge(x, z) == z <==> Covers(z, x)
    decreases z
  {
    WellFormedMerge(x, z);
    MergeKeys(x, z);
    PrefixKeys(Keys(x), Keys(z));
    forall i | 0 <= i < |z|
      ensures Lookup(Merge(x, z), z[i].key) == Some(z[i].value) <==> CoversAt(z[i].value, Lookup(x, z[i].key))
    {
      var k := z[i].key;
      LookupAt(z, i);
      MergeLookup(x, z, k);
      WellFormedLookup(x, k);
      var under := Lookup(x, k);
      if under.Some? && under.value.Mapping? && z[i].value.Mapping? {
        CoversIff(under.value.entries, z[i].value.entries);
      }
    }
    if Merge(x, z) == z {
      forall i | 0 <= i < |z| ensures CoversAt(z[i].value, Lookup(x, z[i].key)) {
        LookupAt(z, i);
      }
    }
    if Covers(z, x) {
      forall k | k in Keys(z) ensures Lookup(Merge(x, z), k) == Lookup(z, k) {
        var i := IndexOf(z, k);
        LookupAt(z, i);
      }
      MergesAgree(Merge(x, z), z);
    }
  }

  lemma {:induction false} LookupAt(es: seq<Entry>, i: nat)
    requires WellFormedEntries(es) && i < |es|
    ensures Lookup(es, es[i].key) == Some(es[i].value)
  {
    if i > 0 {
      WellFormedTail(es);
      LookupAt(es[1..], i - 1);
      assert es[1..][i - 1] == es[i];
    }
  }

  lemma {:induction false} IndexOf(es: seq<Entry>, k: string) returns (i: nat)
    requires k in Keys(es)
    ensures i < |es| && es[i].key == k
  {
    if es[0].key == k {
      i := 0;
    } else {
      i := IndexOf(es[1..], k);
      i := i + 1;
    }
  }

  lemma PrefixKeys(ks: seq<string>, ls: seq<string>)
    requires Distinct(ks) && Distinct(ls)
    ensures ks + NewKeys(ks, ls) == ls <==> ks <= ls
  {
    if ks <= ls {
      var rest := ls[|ks|..];
      assert ls == ks + rest;
      forall l | l in rest ensures l !in ks {
        var j :| 0 <= j < |rest| && rest[j] == l;
        assert ls[|ks| + j] == l;
        assert forall i :: 0 <= i < |ks| ==> ls[i] == ks[i];
      }
      NewKeysAfter(ks, ks, rest);
      AllNewKeys(ks, rest);
    }
  }

  lemma {:induction false} NewKeysAfter(ks: seq<string>, seen: seq<string>, rest: seq<string>)
    requires forall k :: k in seen ==> k in ks
    ensures NewKeys(ks, seen + rest) == NewKeys(ks, rest)
  {
    if seen == [] {
      assert seen + rest == rest;
    } else {
      assert (seen + rest)[0] == seen[0] && (seen + rest)[1..] == seen[1..] + rest;
      NewKeysAfter(ks, seen[1..], rest);
    }
  }

  /** Grouping matters only where the middle layer replaces a mapping by something else and the
      last layer brings a mapping back: `a`'s old mapping then reappears unless `c`'s covers it. */
  ghost predicate Associates(a: seq<Entry>, b: seq<Entry>, c: seq<Entry>)
    decreases c
  {
    forall i :: 0 <= i < |c| ==> AssociatesAt(Lookup(a, c[i].key), Lookup(b, c[i].key), c[i].value)
  }

  ghost predicate AssociatesAt(a: Option<Node>, b: Option<Node>, c: Node)
    decreases c
  {
    a.Some? && a.value.Mapping? && b.Some? && c.Mapping? ==>
      if b.value.Mapping? then Associates(a.value.entries, b.value.entries, c.entries)
      else Covers(c.entries, a.value.entries)
  }

  /** Layering three files is associative if and only if no such clash occurs at any path. */
  lemma {:induction false} AssociativeIff(a: seq<Entry>, b: seq<Entry>, c: seq<Entry>)
    requires WellFormedEntries(a) && WellFormedEntries(b) && WellFormedEntries(c)
    ensures Merge(Merge(a, b), c) == Merge(a, Merge(b, c)) <==> Associates(a, b, c)
    decreases c, 1
  {
    var left, right := Merge(Merge(a, b), c), Merge(a, Merge(b, c));
    GroupingKeys(a, b, c);
    forall k
      ensures var av, bv, cv := Lookup(a, k), Lookup(b, k), Lookup(c, k);
        Lookup(left, k) == Lookup(right, k) <==> (cv.Some? ==> AssociatesAt(av, bv, cv.value))
    {
      MergeLookup(a, b, k);
      MergeLookup(b, c, k);
      WellFormedMerge(b, c);
      MergeLookup(Merge(a, b), c, k);
      MergeLookup(a, Merge(b, c), k);
      WellFormedLookup(a, k);
      WellFormedLookup(b, k);
      WellFormedLookup(c, k);
      if Lookup(c, k).Some? {
        OverrideAssociates(Lookup(a, k), Lookup(b, k), Lookup(c, k).value);
      }
    }
    if left == right {
      forall i | 0 <= i < |c|
        ensures AssociatesAt(Lookup(a, c[i].key), Lookup(b, c[i].key), c[i].value)
      {
        LookupAt(c, i);
      }
    }
    if Associates(a, b, c) {
      forall k | k in Keys(left) ensures Lookup(left, k) == Lookup(right, k) {
        if k in Keys(c) {
          var i := IndexOf(c, k);
          LookupAt(c, i);
        }
      }
      MergesAgree(left, right);
    }
  }

  lemma OverrideAssociates(a: Option<Node>, b: Option<Node>, c: Node)
    requires WellFormed(c) && (a.Some? ==> WellFormed(a.value)) && (b.Some? ==> WellFormed(b.value))
    ensures Override(Overlaid(a, b), c) == Override(a, Override(b, c)) <==> AssociatesAt(a, b, c)
    decreases c, 0
  {
    if c.Mapping? && a.Some? && a.value.Mapping? && b.Some? {
      if b.value.Mapping? {
        AssociativeIff(a.value.entries, b.value.entries, c.entries);
      } else {
        CoversIff(a.value.entries, c.entries);
      }
    }
  }

  lemma GroupingKeys(a: seq<Entry>, b: seq<Entry>, c: seq<Entry>)
    requires WellFormedEntries(a) && WellFormedEntries(b) && WellFormedEntries(c)
    ensures WellFormedEntries(Merge(Merge(a, b), c)) && WellFormedEntries(Merge(a, Merge(b, c)))
    ensures Keys(Merge(Merge(a, b), c)) == Keys(Merge(a, Merge(b, c)))
  {
    WellFormedMerge(a, b);
    WellFormedMerge(b, c);
    WellFormedMerge(Merge(a, b), c);
    WellFormedMerge(a, Merge(b, c));
    MergeKeys(a, b);
    MergeKeys(b, c);
    MergeKeys(Merge(a, b), c);
    MergeKeys(a, Merge(b, c));
    NewKeysGroup(Keys(a), Keys(b), Keys(c));
  }

  lemma {:induction false} NewKeysGroup(x: seq<string>, y: seq<string>, z: seq<string>)
    requires Distinct(y) && Distinct(z)
    ensures (x + NewKeys(x, y)) + NewKeys(x + NewKeys(x, y), z) == x + NewKeys(x, y + NewKeys(y, z))
  {
    NewKeysMembers(x, y);
    NewKeysConcat(x, y, NewKeys(y, z));
    NewKeysFilter(x, y, x + NewKeys(x, y), z);
  }

  lemma {:induction false} NewKeysConcat(x: seq<string>, y: seq<string>, z: seq<string>)
    ensures NewKeys(x, y + z) == NewKeys(x, y) + NewKeys(x, z)
  {
    if y == [] {
      assert y + z == z;
    } else {
      assert (y + z)[1..] == y[1..] + z;
      NewKeysConcat(x, y[1..], z);
    }
  }

  lemma {:induction false} NewKeysFilter(x: seq<string>, y: seq<string>, xy: seq<string>, z: seq<string>)
    requires forall k :: k in xy <==> k in x || k in y
    ensures NewKeys(xy, z) == NewKeys(x, NewKeys(y, z))
  {
    if z != [] {
      NewKeysFilter(x, y, xy, z[1..]);
    }
  }

  predicate IsMappingAt(n: Node, path: seq<string>) {
    At(n, path).Some? && At(n, path).value.Mapping?
  }

  /** At this path the middle layer has a non-mapping between two mappings. */
  predicate ClashAt(a: seq<Entry>, b: seq<Entry>, c: seq<Entry>, path: seq<string>) {
    && IsMappingAt(Mapping(a), path) && IsMappingAt(Mapping(c), path)
    && At(Mapping(b), path).Some? && !IsMappingAt(Mapping(b), path)
  }

  /** The simple sufficient condition: without a clash at any path the grouping does not matter. */
  lemma {:induction false} NoClashAssociates(a: seq<Entry>, b: seq<Entry>, c: seq<Entry>)
    requires WellFormedEntries(a) && WellFormedEntries(b) && WellFormedEntries(c)
    requires forall path :: !ClashAt(a, b, c, path)
    ensures Associates(a, b, c)
    ensures Merge(Merge(a, b), c) == Merge(a, Merge(b, c))
    decreases c
  {
    forall i | 0 <= i < |c|
      ensures AssociatesAt(Lookup(a, c[i].key), Lookup(b, c[i].key), c[i].value)
    {
      var k := c[i].key;
      LookupAt(c, i);
      WellFormedLookup(a, k);
      WellFormedLookup(b, k);
      var av, bv, cv := Lookup(a, k), Lookup(b, k), c[i].value;
      if av.Some? && av.value.Mapping? && bv.Some? && cv.Mapping? {
        NoClashInside(a, b, c, k);
        NoClashAssociates(av.value.entries, bv.value.entries, cv.entries);
      }
    }
    AssociativeIff(a, b, c);
    hide *;
  }

  lemma NoClashInside(a: seq<Entry>, b: seq<Entry>, c: seq<Entry>, k: string)
    requires forall path :: !ClashAt(a, b, c, path)
    requires var av, bv, cv := Lookup(a, k), Lookup(b, k), Lookup(c, k);
      av.Some? && av.value.Mapping? && bv.Some? && cv.Some? && cv.value.Mapping?
    ensures Lookup(b, k).value.Mapping?
    ensures var ae, be, ce := Lookup(a, k).value.entries, Lookup(b, k).value.entries, Lookup(c, k).value.entries;
      forall path :: !ClashAt(ae, be, ce, path)
  {
    ClashStep(a, b, c, k, []);
    assert !ClashAt(a, b, c, [k] + []);
    var ae, be, ce := Lookup(a, k).value.entries, Lookup(b, k).value.entries, Lookup(c, k).value.entries;
    forall path ensures !ClashAt(ae, be, ce, path) {
      ClashStep(a, b, c, k, path);
      assert !ClashAt(a, b, c, [k] + path);
    }
  }

  lemma ClashStep(a: seq<Entry>, b: seq<Entry>, c: seq<Entry>, k: string, path: seq<string>)
    ensures At(Mapping(a), [k] + path) == if Lookup(a, k).None? then None else At(Lookup(a, k).value, path)
    ensures At(Mapping(b), [k] + path) == if Lookup(b, k).None? then None else At(Lookup(b, k).value, path)
    ensures At(Mapping(c), [k] + path) == if Lookup(c, k).None? then None else At(Lookup(c, k).value, path)
  {
  }

  /** Layering is not associative in general. */
  lemma NotAssociative() returns (a: seq<Entry>, b: seq<Entry>, c: seq<Entry>)
    ensures WellFormedEntries(a) && WellFormedEntries(b) && WellFormedEntries(c)
    ensures Merge(Merge(a, b), c) != Merge(a, Merge(b, c))
  {
    a := [Entry("db", Mapping([Entry("host", Str("x"))]))];
    b := [Entry("db", Str("off"))];
    c := [Entry("db", Mapping([]))];
    assert Keys([Entry("host", Str("x"))]) == ["host"];
    assert !Covers([], [Entry("host", Str("x"))]);
    assert AssociatesAt(Lookup(a, "db"), Lookup(b, "db"), c[0].value) <==> Covers([], [Entry("host", Str("x"))]);
    AssociativeIff(a, b, c);
  }
}
