/** Phase 2 of `load_config`: resolving the references of a merged configuration tree. */
module ConfigLoader {
  import opened Text
  import opened Substitution
  import opened ConfigTree
  import opened MergeLaws

  // ---- The walk as a function ----------------------------------------------

  function SubstituteNode(n: Node, env: Env): Node {
    match n
    case Mapping(es) => Mapping(SubstituteEntries(es, env))
    case Listing(items) => Listing(SubstituteItems(items, env))
    case Str(text) => Str(SubstituteText(text, env).text)
    case Scalar(_) => n
  }

  function SubstituteEntries(es: seq<Entry>, env: Env): seq<Entry> {
    if es == [] then []
    else [Entry(es[0].key, SubstituteNode(es[0].value, env))] + SubstituteEntries(es[1..], env)
  }

  function SubstituteItems(items: seq<Node>, env: Env): seq<Node> {
    if items == [] then []
    else [SubstituteNode(items[0], env)] + SubstituteItems(items[1..], env)
  }

  /** What the walk appends to the error list. */
  function Reports(n: Node, env: Env): seq<string> {
    match n
    case Mapping(es) => ReportsOfEntries(es, env)
    case Listing(items) => ReportsOfItems(items, env)
    case Str(text) => SubstituteText(text, env).unset
    case Scalar(_) => []
  }

  function ReportsOfEntries(es: seq<Entry>, env: Env): seq<string> {
    if es == [] then [] else Reports(es[0].value, env) + ReportsOfEntries(es[1..], env)
  }

  function ReportsOfItems(items: seq<Node>, env: Env): seq<string> {
    if items == [] then [] else Reports(items[0], env) + ReportsOfItems(items[1..], env)
  }

  // ---- The tree before and after ----------------------------------------------

  /** What the loader makes of one string. */
  function Resolver(env: Env): string -> string { text => SubstituteText(text, env).text }

  /** What the single scan makes of it. */
  function Scanner(env: Env): string -> string { text => Render(Tokens(text), env) }

  /** The same tree but for its strings, on each of which `f` was used: mappings have the same keys in
      order, lists the same length, and other scalars are unchanged. */
  ghost predicate Related(n: Node, m: Node, f: string -> string)
    decreases n
  {
    match n
    case Mapping(es) =>
      m.Mapping? && |m.entries| == |es|
      && forall i :: 0 <= i < |es| ==>
           m.entries[i].key == es[i].key && Related(es[i].value, m.entries[i].value, f)
    case Listing(items) =>
      m.Listing? && |m.items| == |items| && forall i :: 0 <= i < |items| ==> Related(items[i], m.items[i], f)
    case Str(text) => m == Str(f(text))
    case Scalar(_) => m == n
  }

  lemma {:induction false} EntriesAt(es: seq<Entry>, env: Env)
    ensures var out := SubstituteEntries(es, env);
      |out| == |es| && forall i :: 0 <= i < |es| ==> out[i] == Entry(es[i].key, SubstituteNode(es[i].value, env))
  {
    if es != [] {
      EntriesAt(es[1..], env);
      hide SubstituteNode;
    }
  }

  lemma {:induction false} ItemsAt(items: seq<Node>, env: Env)
    ensures var out := SubstituteItems(items, env);
      |out| == |items| && forall i :: 0 <= i < |items| ==> out[i] == SubstituteNode(items[i], env)
  {
    if items != [] {
      ItemsAt(items[1..], env);
      hide SubstituteNode;
    }
  }

  /** The walk resolves every string of the tree, at any depth and in lists too, and nothing else. */
  lemma {:induction false} SubstituteRelates(n: Node, env: Env)
    ensures Related(n, SubstituteNode(n, env), Resolver(env))
  {
    hide SubstituteText;
    match n
    case Mapping(es) =>
      hide Resolver;
      EntriesAt(es, env);
      forall i | 0 <= i < |es| ensures Related(es[i].value, SubstituteNode(es[i].value, env), Resolver(env)) {
        SubstituteRelates(es[i].value, env);
      }
    case Listing(items) =>
      hide Resolver;
      ItemsAt(items, env);
      forall i | 0 <= i < |items| ensures Related(items[i], SubstituteNode(items[i], env), Resolver(env)) {
        SubstituteRelates(items[i], env);
      }
    case Str(_) =>
    case Scalar(_) =>
  }

  /** No string of the tree spells a sentinel that is no escape, on its own or through a value. */
  ghost predicate Unwritten(n: Node, env: Env) {
    match n
    case Mapping(es) => forall i :: 0 <= i < |es| ==> Unwritten(es[i].value, env)
    case Listing(items) => forall i :: 0 <= i < |items| ==> Unwritten(items[i], env)
    case Str(text) => !Written(Marks(Tokens(text), env))
    case Scalar(_) => true
  }

  /** A resolved tree is the scanned tree exactly then. */
  lemma {:induction false} ResolvedIsScannedIff(n: Node, m: Node, env: Env)
    requires Related(n, m, Resolver(env))
    ensures Related(n, m, Scanner(env)) <==> Unwritten(n, env)
    decreases n
  {
    hide SubstituteText, Written, Marks, Tokens, Render;
    match n
    case Mapping(es) =>
      hide Resolver, Scanner;
      forall i | 0 <= i < |es|
        ensures Related(es[i].value, m.entries[i].value, Scanner(env)) <==> Unwritten(es[i].value, env)
      {
        ResolvedIsScannedIff(es[i].value, m.entries[i].value, env);
      }
    case Listing(items) =>
      hide Resolver, Scanner;
      forall i | 0 <= i < |items| ensures Related(items[i], m.items[i], Scanner(env)) <==> Unwritten(items[i], env) {
        ResolvedIsScannedIff(items[i], m.items[i], env);
      }
    case Str(text) => PassesAreScanIff(text, env);
    case Scalar(_) =>
  }

  /** There is only one such tree. */
  lemma {:induction false} RelatedIsUnique(n: Node, m: Node, m': Node, f: string -> string)
    requires Related(n, m, f) && Related(n, m', f)
    ensures m == m'
    decreases n
  {
    match n
    case Mapping(es) =>
      forall i | 0 <= i < |es| ensures m.entries[i] == m'.entries[i] {
        RelatedIsUnique(es[i].value, m.entries[i].value, m'.entries[i].value, f);
      }
      assert m.entries == m'.entries;
    case Listing(items) =>
      forall i | 0 <= i < |items| ensures m.items[i] == m'.items[i] {
        RelatedIsUnique(items[i], m.items[i], m'.items[i], f);
      }
      assert m.items == m'.items;
    case Str(_) =>
    case Scalar(_) =>
  }

  // ---- The walk as the loader runs it --------------------------------------

  /** The list that every call of `_substitute` appends to. */
  class ErrorList {
    var names: seq<string>

    constructor ()
      ensures names == []
    {
      names := [];
    }
  }

  method Substitute(n: Node, env: Env, errors: ErrorList) returns (r: Node)
    modifies errors
    ensures r == SubstituteNode(n, env) && Related(n, r, Resolver(env))
    ensures errors.names == old(errors.names) + Reports(n, env)
    decreases n, 1
  {
    SubstituteRelates(n, env);
    hide Related, Resolver, SubstituteText;
    match n {
      case Mapping(es) =>
        var out := SubstituteMapping(es, env, errors);
        r := Mapping(out);
      case Listing(items) =>
        var out := SubstituteListing(items, env, errors);
        r := Listing(out);
      case Str(text) =>
        var resolved := SubstituteText(text, env);
        errors.names := errors.names + resolved.unset;
        r := Str(resolved.text);
      case Scalar(_) =>
        r := n;
    }
  }

  method SubstituteMapping(es: seq<Entry>, env: Env, errors: ErrorList) returns (out: seq<Entry>)
    modifies errors
    ensures out == SubstituteEntries(es, env)
    ensures errors.names == old(errors.names) + ReportsOfEntries(es, env)
    decreases es, 0
  {
    hide SubstituteNode, Reports, Related, Resolver;
    out := [];
    for i := 0 to |es|
      invariant out + SubstituteEntries(es[i..], env) == SubstituteEntries(es, env)
      invariant errors.names + ReportsOfEntries(es[i..], env) == old(errors.names) + ReportsOfEntries(es, env)
    {
      EntriesStep(es, i, env);
      ghost var next, reported := SubstituteEntries(es[i + 1..], env), ReportsOfEntries(es[i + 1..], env);
      ghost var before := errors.names;
      var value := Substitute(es[i].value, env, errors);
      hide *;
      Regroup(out, [Entry(es[i].key, value)], next);
      Regroup(before, Reports(es[i].value, env), reported);
      out := out + [Entry(es[i].key, value)];
    }
  }

  method SubstituteListing(items: seq<Node>, env: Env, errors: ErrorList) returns (out: seq<Node>)
    modifies errors
    ensures out == SubstituteItems(items, env)
    ensures errors.names == old(errors.names) + ReportsOfItems(items, env)
    decreases items, 0
  {
    hide SubstituteNode, Reports, Related, Resolver;
    out := [];
    for i := 0 to |items|
      invariant out + SubstituteItems(items[i..], env) == SubstituteItems(items, env)
      invariant errors.names + ReportsOfItems(items[i..], env) == old(errors.names) + ReportsOfItems(items, env)
    {
      ItemsStep(items, i, env);
      ghost var next, reported := SubstituteItems(items[i + 1..], env), ReportsOfItems(items[i + 1..], env);
      ghost var before := errors.names;
      var value := Substitute(items[i], env, errors);
      hide *;
      Regroup(out, [value], next);
      Regroup(before, Reports(items[i], env), reported);
      out := out + [value];
    }
  }

  lemma EntriesStep(es: seq<Entry>, i: nat, env: Env)
    requires i < |es|
    ensures SubstituteEntries(es[i..], env)
         == [Entry(es[i].key, SubstituteNode(es[i].value, env))] + SubstituteEntries(es[i + 1..], env)
    ensures ReportsOfEntries(es[i..], env) == Reports(es[i].value, env) + ReportsOfEntries(es[i + 1..], env)
  {
    assert es[i..][1..] == es[i + 1..];
    hide SubstituteNode, Reports;
  }

  lemma ItemsStep(items: seq<Node>, i: nat, env: Env)
    requires i < |items|
    ensures SubstituteItems(items[i..], env) == [SubstituteNode(items[i], env)] + SubstituteItems(items[i + 1..], env)
    ensures ReportsOfItems(items[i..], env) == Reports(items[i], env) + ReportsOfItems(items[i + 1..], env)
  {
    assert items[i..][1..] == items[i + 1..];
    hide SubstituteNode, Reports;
  }

  datatype Loaded = BaseNotMapping | OverlayNotMapping | UnsetVariables(names: seq<string>) | Merged(tree: Node)

  /** `load_config` between parsing and validation. The files are given as parsed trees. */
  method LoadMerged(base: Node, overlay: Option<Node>, env: Env) returns (r: Loaded)
    ensures r.BaseNotMapping? <==> !base.Mapping?
    ensures r.OverlayNotMapping? <==> base.Mapping? && overlay.Some? && !overlay.value.Mapping?
    ensures r.UnsetVariables? || r.Merged? ==>
      var over := if overlay.Some? then overlay.value.entries else [];
      var merged := Mapping(Merge(base.entries, over));
      var unset := Unset(ReferencesOf(merged), env);
      (r.UnsetVariables? <==> unset != []) && (r.UnsetVariables? ==> r.names == unset)
      && (r.Merged? ==> Related(merged, r.tree, Resolver(env)))
  {
    hide Related, Resolver, ReferencesOf, Reports, SubstituteNode, Merge, Unset;
    if !base.Mapping? { return BaseNotMapping; }
    if overlay.Some? && !overlay.value.Mapping? { return OverlayNotMapping; }
    var merged := DeepMerge(base.entries, if overlay.Some? then overlay.value.entries else []);
    var errors := new ErrorList();
    var tree := Substitute(Mapping(merged), env, errors);
    ReportsExact(Mapping(merged), env);
    if errors.names != [] { return UnsetVariables(errors.names); }
    return Merged(tree);
  }

  // ---- What phase 2 reports -------------------------------------------------

  /** The names a tree refers to: depth first, in order, with duplicates. */
  function ReferencesOf(n: Node): seq<string> {
    match n
    case Mapping(es) => ReferencesOfEntries(es)
    case Listing(items) => ReferencesOfItems(items)
    case Str(text) => References(Tokens(text))
    case Scalar(_) => []
  }

  function ReferencesOfEntries(es: seq<Entry>): seq<string> {
    if es == [] then [] else ReferencesOf(es[0].value) + ReferencesOfEntries(es[1..])
  }

  function ReferencesOfItems(items: seq<Node>): seq<string> {
    if items == [] then [] else ReferencesOf(items[0]) + ReferencesOfItems(items[1..])
  }

  /** The report is the tree's references that the environment lacks: in order, duplicates kept,
      so that one missing name never hides another. */
  lemma {:induction false} ReportsExact(n: Node, env: Env)
    ensures Reports(n, env) == Unset(ReferencesOf(n), env)
  {
    match n
    case Mapping(es) => EntriesReportsExact(es, env);
    case Listing(items) => ItemsReportsExact(items, env);
    case Str(text) => ReportIsScan(text, env);
    case Scalar(_) =>
  }

  lemma {:induction false} EntriesReportsExact(es: seq<Entry>, env: Env)
    ensures ReportsOfEntries(es, env) == Unset(ReferencesOfEntries(es), env)
  {
    if es != [] {
      ReportsExact(es[0].value, env);
      EntriesReportsExact(es[1..], env);
      UnsetConcat(ReferencesOf(es[0].value), ReferencesOfEntries(es[1..]), env);
    }
  }

  lemma {:induction false} ItemsReportsExact(items: seq<Node>, env: Env)
    ensures ReportsOfItems(items, env) == Unset(ReferencesOfItems(items), env)
  {
    if items != [] {
      ReportsExact(items[0], env);
      ItemsReportsExact(items[1..], env);
      UnsetConcat(ReferencesOf(items[0]), ReferencesOfItems(items[1..]), env);
    }
  }

  /** Phase 2 succeeds exactly when every reference in the tree is set. */
  lemma RaisesIffUnset(n: Node, env: Env)
    ensures Reports(n, env) == [] <==> forall name :: name in ReferencesOf(n) ==> name in env
  {
    ReportsExact(n, env);
    var refs := ReferencesOf(n);
    forall name ensures name in Unset(refs, env) <==> name in refs && name !in env {
      UnsetMembers(refs, env, name);
    }
    if Unset(refs, env) != [] {
      assert Unset(refs, env)[0] in Unset(refs, env);
    }
  }

  // ---- Substitution and merging commute ------------------------------------

  lemma {:induction false} SubstituteKeepsKeys(es: seq<Entry>, env: Env, k: string)
    ensures Keys(SubstituteEntries(es, env)) == Keys(es)
    ensures Lookup(SubstituteEntries(es, env), k)
         == if Lookup(es, k).None? then None else Some(SubstituteNode(Lookup(es, k).value, env))
  {
    if es != [] {
      SubstituteKeepsKeys(es[1..], env, k);
      assert SubstituteEntries(es, env)[1..] == SubstituteEntries(es[1..], env);
    }
  }

  lemma {:induction false} SubstitutePut(es: seq<Entry>, k: string, v: Node, env: Env)
    ensures SubstituteEntries(Put(es, k, v), env) == Put(SubstituteEntries(es, env), k, SubstituteNode(v, env))
  {
    if es != [] {
      assert SubstituteEntries(es, env)[1..] == SubstituteEntries(es[1..], env);
      if es[0].key != k {
        SubstitutePut(es[1..], k, v, env);
      }
    }
  }

  /** Substituting the merge of two trees is merging the two substituted trees. */
  lemma {:induction false} SubstituteMerge(b: seq<Entry>, o: seq<Entry>, env: Env)
    ensures SubstituteEntries(Merge(b, o), env) == Merge(SubstituteEntries(b, env), SubstituteEntries(o, env))
    decreases o
  {
    if o != [] {
      var Entry(k, v) := o[0];
      var under := Lookup(b, k);
      var over := Override(under, v);
      if under.Some? && under.value.Mapping? && v.Mapping? {
        SubstituteMerge(under.value.entries, v.entries, env);
      }
      SubstituteKeepsKeys(b, env, k);
      assert SubstituteNode(over, env) == Override(Lookup(SubstituteEntries(b, env), k), SubstituteNode(v, env));
      SubstitutePut(b, k, over, env);
      SubstituteMerge(Put(b, k, over), o[1..], env);
      assert SubstituteEntries(o, env)[1..] == SubstituteEntries(o[1..], env);
    }
  }

  /** The reports of a mapping, without their order. */
  ghost function Bag(es: seq<Entry>, env: Env): multiset<string> { multiset(ReportsOfEntries(es, env)) }

  ghost function BagAt(v: Option<Node>, env: Env): multiset<string> {
    if v.Some? then multiset(Reports(v.value, env)) else multiset{}
  }

  lemma BagCons(es: seq<Entry>, env: Env)
    ensures es == [] ==> Bag(es, env) == multiset{}
    ensures es != [] ==> Bag(es, env) == BagAt(Some(es[0].value), env) + Bag(es[1..], env)
    ensures BagAt(Some(Mapping(es)), env) == Bag(es, env) && BagAt(None, env) == multiset{}
  {
  }

  /** Storing a value trades the reports of the one replaced, if any, for its own. */
  lemma {:induction false} PutReports(es: seq<Entry>, k: string, v: Node, env: Env)
    ensures BagAt(Lookup(es, k), env) <= Bag(es, env)
    ensures Bag(Put(es, k, v), env) == Bag(es, env) - BagAt(Lookup(es, k), env) + BagAt(Some(v), env)
  {
    hide Bag, BagAt;
    BagCons(Put(es, k, v), env);
    BagCons(es, env);
    if es == [] {
      assert Put(es, k, v)[1..] == es;
    } else if es[0].key == k {
      assert Put(es, k, v)[1..] == es[1..];
    } else {
      PutReports(es[1..], k, v, env);
      assert Put(es, k, v)[1..] == Put(es[1..], k, v);
    }
  }

  /** Overriding a value reports no more than the two values do. */
  lemma {:induction false} OverrideReportsNoMore(under: Option<Node>, v: Node, env: Env)
    ensures BagAt(Some(Override(under, v)), env) <= BagAt(under, env) + BagAt(Some(v), env)
    decreases v
  {
    hide Bag, BagAt;
    if under.Some? && under.value.Mapping? && v.Mapping? {
      MergeReportsNoMore(under.value.entries, v.entries, env);
      BagCons(under.value.entries, env);
      BagCons(v.entries, env);
      BagCons(Merge(under.value.entries, v.entries), env);
    }
  }

  /** Merging reports nothing that neither file reports alone, and nothing more often. */
  lemma {:induction false} MergeReportsNoMore(b: seq<Entry>, o: seq<Entry>, env: Env)
    ensures Bag(Merge(b, o), env) <= Bag(b, env) + Bag(o, env)
    decreases o
  {
    hide Bag, BagAt;
    BagCons(o, env);
    if o != [] {
      var Entry(k, v) := o[0];
      var over := Override(Lookup(b, k), v);
      OverrideReportsNoMore(Lookup(b, k), v, env);
      hide Override;
      PutReports(b, k, over, env);
      MergeReportsNoMore(Put(b, k, over), o[1..], env);
    }
  }

  // ---- Whose references the merge reports ------------------------------------

  /** A node other than a mapping that stands at the path and refers to the name. */
  predicate RefersAt(n: Node, path: seq<string>, name: string) {
    At(n, path).Some? && !At(n, path).value.Mapping? && name in ReferencesOf(At(n, path).value)
  }

  lemma {:induction false} EntriesReferTo(es: seq<Entry>, name: string)
    ensures name in ReferencesOfEntries(es) <==> exists i :: 0 <= i < |es| && name in ReferencesOf(es[i].value)
  {
    if es != [] {
      EntriesReferTo(es[1..], name);
      if i :| 0 <= i < |es| && name in ReferencesOf(es[i].value) {
        assert i > 0 ==> es[1..][i - 1] == es[i];
      }
    }
  }

  /** A tree refers to what its nodes other than mappings refer to. */
  lemma {:induction false} RefersSomewhereIff(n: Node, name: string)
    requires WellFormed(n)
    ensures name in ReferencesOf(n) <==> exists path :: RefersAt(n, path, name)
    decreases n
  {
    if n.Mapping? {
      var es := n.entries;
      EntriesReferTo(es, name);
      if name in ReferencesOf(n) {
        var i :| 0 <= i < |es| && name in ReferencesOf(es[i].value);
        RefersSomewhereIff(es[i].value, name);
        LookupAt(es, i);
        var path :| RefersAt(es[i].value, path, name);
        assert ([es[i].key] + path)[1..] == path;
        assert RefersAt(n, [es[i].key] + path, name);
      }
      if path :| RefersAt(n, path, name) {
        var i := IndexOf(es, path[0]);
        LookupAt(es, i);
        assert RefersAt(es[i].value, path[1..], name);
        RefersSomewhereIff(es[i].value, name);
      }
    } else {
      assert name in ReferencesOf(n) ==> RefersAt(n, [], name);
    }
  }

  /** The default's node at the path shows through: the overlay has no node there and nothing but
      mappings above. */
  predicate ShowsThrough(o: Node, path: seq<string>) { At(o, path).None? && !Blocked(o, path) }

  /** The merge refers to a name if and only if the overlay does, or a node of the base does that shows
      through: the reference of an overridden default is never reported, and no other is lost. */
  lemma MergedReferencesIff(b: seq<Entry>, o: seq<Entry>, name: string)
    requires WellFormedEntries(b) && WellFormedEntries(o)
    ensures name in ReferencesOf(Mapping(Merge(b, o))) <==>
            name in ReferencesOf(Mapping(o))
            || exists path :: RefersAt(Mapping(b), path, name) && ShowsThrough(Mapping(o), path)
  {
    var m := Mapping(Merge(b, o));
    WellFormedMerge(b, o);
    RefersSomewhereIff(m, name);
    RefersSomewhereIff(Mapping(o), name);
    forall path
      ensures RefersAt(m, path, name) <==>
        RefersAt(Mapping(o), path, name) || (RefersAt(Mapping(b), path, name) && ShowsThrough(Mapping(o), path))
    {
      PathLaw(b, o, path);
    }
    hide RefersAt, ReferencesOf, ShowsThrough, Merge, WellFormed;
  }
}
