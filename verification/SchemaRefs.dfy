/** `_resolve_field_python_type`: resolving a JSON Schema field to a Python type through `$ref`
    pointers, with the exceptions that Python's operators raise on unexpected JSON. */
module SchemaRefs {
  import opened Text

  datatype Json =
    | Null
    | Bool(b: bool)
    | Number(n: int)
    | Str(s: string)
    | Arr(items: seq<Json>)
    | Obj(fields: seq<Field>)

  datatype Field = Field(key: string, value: Json)

  datatype PyType = StrType | IntType | FloatType | BoolType | DictType | ListType

  /** The resolved type, or the exception that leaves the function. */
  datatype Outcome = Type(t: PyType) | TypeError | AttributeError | RecursionError

  function Get(fields: seq<Field>, key: string): Option<Json> {
    if fields == [] then None
    else if fields[0].key == key then Some(fields[0].value)
    else Get(fields[1..], key)
  }

  // ---- Python's operators on parsed JSON ------------------------------------

  predicate Substring(sub: string, s: string)
    decreases |s|
  {
    sub <= s || (s != "" && Substring(sub, s[1..]))
  }

  lemma {:induction false} SubstringIff(sub: string, s: string)
    ensures Substring(sub, s) <==> exists i: nat :: i <= |s| && sub <= s[i..]
    decreases |s|
  {
    assert s[0..] == s;
    if s != "" {
      SubstringIff(sub, s[1..]);
      if i: nat :| i <= |s[1..]| && sub <= s[1..][i..] {
        assert s[1..][i..] == s[i + 1..];
      }
      if i: nat :| 0 < i <= |s| && sub <= s[i..] {
        assert s[1..][i - 1..] == s[i..];
      }
    }
  }

  /** `key in node`; None where `in` raises TypeError. */
  function Contains(node: Json, key: string): Option<bool> {
    match node
    case Obj(fields) => Some(Get(fields, key).Some?)
    case Arr(items) => Some(Str(key) in items)
    case Str(s) => Some(Substring(key, s))
    case _ => None
  }

  /** `s.lstrip("#/")` */
  function StripHash(s: string): string {
    if s != "" && (s[0] == '#' || s[0] == '/') then StripHash(s[1..]) else s
  }

  /** The loop `resolved = resolved[part]`; None where a KeyError or TypeError ends it. */
  function Walk(node: Json, parts: seq<string>): Option<Json>
    decreases parts
  {
    if parts == [] then Some(node)
    else
      match node
      case Obj(fields) =>
        (match Get(fields, parts[0]) case Some(next) => Walk(next, parts[1..]) case None => None)
      case _ => None
  }

  function Target(root: Json, pointer: string): Option<Json> { Walk(root, Split(StripHash(pointer), '/')) }

  // ---- Resolution ------------------------------------------------------------

  /** The pointer of an object that refers on. */
  function RefOf(node: Json): Option<string> {
    match node
    case Obj(fields) => (match Get(fields, "$ref") case Some(Str(p)) => Some(p) case _ => None)
    case _ => None
  }

  function MappedType(json: Json): Outcome {
    match json
    case Str(s) =>
      Type(if s == "integer" then IntType else if s == "number" then FloatType else if s == "boolean" then BoolType
           else if s == "object" then DictType else if s == "array" then ListType else StrType)
    case Arr(_) => TypeError
    case Obj(_) => TypeError
    case _ => Type(StrType)
  }

  predicate HasCombinator(node: Json) {
    Contains(node, "allOf") == Some(true) || Contains(node, "anyOf") == Some(true)
      || Contains(node, "oneOf") == Some(true)
  }

  /** The function on a node that does not refer on. A `$ref` that is not a string has no `lstrip`; a
      text or list that contains "$ref" cannot be indexed by it. */
  function Leaf(node: Json): Outcome
    requires RefOf(node).None?
  {
    match Contains(node, "$ref")
    case None => TypeError
    case Some(true) => if node.Obj? then AttributeError else TypeError
    case Some(false) =>
      if HasCombinator(node) then Type(DictType)
      else if !node.Obj? then AttributeError
      else match Get(node.fields, "type") case Some(json) => MappedType(json) case None => Type(StrType)
  }

  /** The except clause around the recursive call. */
  function Caught(o: Outcome): Outcome { if o == TypeError then Type(DictType) else o }

  /** Every pointer that a walk from here can come across. */
  function Pointers(node: Json): set<string> {
    match node
    case Obj(fields) => PointersOf(fields) + (match RefOf(node) case Some(p) => {p} case None => {})
    case _ => {}
  }

  function PointersOf(fields: seq<Field>): set<string> {
    if fields == [] then {} else Pointers(fields[0].value) + PointersOf(fields[1..])
  }

  lemma {:induction false} WalkStaysInside(node: Json, parts: seq<string>)
    ensures Walk(node, parts).Some? ==> Pointers(Walk(node, parts).value) <= Pointers(node)
    ensures Walk(node, parts).Some? && RefOf(Walk(node, parts).value).Some? ==>
      RefOf(Walk(node, parts).value).value in Pointers(node)
    decreases parts
  {
    if parts != [] && node.Obj? && Get(node.fields, parts[0]).Some? {
      FieldInside(node.fields, parts[0]);
      WalkStaysInside(Get(node.fields, parts[0]).value, parts[1..]);
    }
  }

  lemma {:induction false} FieldInside(fields: seq<Field>, key: string)
    ensures Get(fields, key).Some? ==> Pointers(Get(fields, key).value) <= PointersOf(fields)
  {
    if fields != [] && fields[0].key != key {
      FieldInside(fields[1..], key);
    }
  }

  /** The recursion along pointers. It is cut at the first pointer seen before: there Python recurses
      until it raises RecursionError. The measure is the number of pointers not yet seen. */
  function Follow(pointer: string, root: Json, all: set<string>, seen: set<string>): Outcome
    requires Pointers(root) <= all && pointer in all && seen <= all
    decreases all - seen
  {
    if pointer in seen then RecursionError
    else
      match Target(root, pointer)
      case None => Type(DictType)
      case Some(node) =>
        WalkStaysInside(root, Split(StripHash(pointer), '/'));
        Caught(match RefOf(node)
               case Some(next) => Follow(next, root, all, seen + {pointer})
               case None => Leaf(node))
  }

  function Resolve(field: Json, root: Json): Outcome {
    match RefOf(field)
    case Some(pointer) => Follow(pointer, root, Pointers(root) + {pointer}, {})
    case None => Leaf(field)
  }

  // ---- The chain of references, as a relation -------------------------------

  /** One hop: where the node's pointer leads. */
  function Hop(root: Json, node: Json): Option<Json> {
    match RefOf(node) case Some(pointer) => Target(root, pointer) case None => None
  }

  /** The node `k` hops on, if the chain is that long. */
  function After(root: Json, node: Json, k: nat): Option<Json>
    decreases k
  {
    if k == 0 then Some(node)
    else match Hop(root, node) case Some(next) => After(root, next, k - 1) case None => None
  }

  /** The chain ends at `end` after `k` hops: it does not refer on, or to nothing. */
  predicate EndsAt(root: Json, node: Json, k: nat, end: Json) {
    After(root, node, k) == Some(end) && Hop(root, end).None?
  }

  ghost predicate Endless(root: Json, node: Json) { forall k: nat :: After(root, node, k).Some? }

  /** What the last node of a chain resolves to. */
  function EndType(end: Json): Outcome {
    if RefOf(end).Some? then Type(DictType) else Leaf(end)
  }

  lemma {:induction false} AfterAdd(root: Json, node: Json, a: nat, b: nat)
    requires After(root, node, a).Some?
    ensures After(root, node, a + b) == After(root, After(root, node, a).value, b)
    decreases a
  {
    hide RefOf, Target;
    if a > 0 {
      AfterAdd(root, Hop(root, node).value, a - 1, b);
    }
  }

  lemma {:induction false} AfterShorter(root: Json, node: Json, a: nat, b: nat)
    requires a <= b && After(root, node, b).Some?
    ensures After(root, node, a).Some?
    decreases a
  {
    if a > 0 {
      AfterShorter(root, Hop(root, node).value, a - 1, b - 1);
    }
  }

  /** A chain that comes back never ends. */
  lemma {:induction false} CycleIsEndless(root: Json, node: Json, k: nat, n: nat)
    requires k >= 1 && After(root, node, k) == Some(node)
    ensures After(root, node, n).Some?
    decreases n
  {
    if n < k {
      AfterShorter(root, node, n, k);
    } else {
      CycleIsEndless(root, node, k, n - k);
      AfterAdd(root, node, k, n - k);
    }
  }

  lemma EndIsShorter(root: Json, node: Json, k: nat, end: Json, l: nat)
    requires EndsAt(root, node, k, end) && k < l
    ensures After(root, node, l).None?
  {
    hide RefOf, Target;
    AfterAdd(root, node, k, l - k);
  }

  /** A chain that ends does so in one place. */
  lemma EndIsUnique(root: Json, node: Json, k: nat, end: Json, l: nat, end': Json)
    requires EndsAt(root, node, k, end) && EndsAt(root, node, l, end')
    ensures k == l && end == end'
  {
    if k < l {
      EndIsShorter(root, node, k, end, l);
    } else if l < k {
      EndIsShorter(root, node, l, end', k);
    }
  }

  lemma EndsOrEndless(root: Json, node: Json, k: nat, end: Json)
    requires EndsAt(root, node, k, end)
    ensures !Endless(root, node)
  {
    EndIsShorter(root, node, k, end, k + 1);
  }

  // ---- Resolution agrees with the chain -------------------------------------

  /** Every pointer seen leads, in one or more hops from a node that holds it, to `node`. */
  ghost predicate LeadsTo(root: Json, seen: set<string>, node: Json) {
    forall p :: p in seen ==> Leads(root, p, node)
  }

  ghost predicate Leads(root: Json, pointer: string, node: Json) {
    exists k: nat :: Target(root, pointer).Some? && After(root, Target(root, pointer).value, k) == Some(node)
  }

  lemma LeadsOn(root: Json, pointer: string, node: Json, next: Json)
    requires Leads(root, pointer, node) && Hop(root, node) == Some(next)
    ensures Leads(root, pointer, next)
  {
    var start := Target(root, pointer).value;
    var k: nat :| After(root, start, k) == Some(node);
    AfterAdd(root, start, k, 1);
    assert After(root, start, k + 1) == After(root, node, 1) == Some(next) by {
      assert After(root, next, 0) == Some(next);
    }
  }

  /** Following a pointer held by `node` gives the type at the end of `node`'s chain, or RecursionError
      if the chain never ends. */
  lemma {:induction false} FollowIsChain(node: Json, pointer: string, root: Json, all: set<string>, seen: set<string>)
    requires Pointers(root) <= all && pointer in all && seen <= all
    requires RefOf(node) == Some(pointer) && LeadsTo(root, seen, node)
    ensures Follow(pointer, root, all, seen) == RecursionError ==> Endless(root, node)
    ensures Follow(pointer, root, all, seen) != RecursionError ==>
      exists k: nat, end :: EndsAt(root, node, k, end) && Follow(pointer, root, all, seen) == Caught(EndType(end))
    decreases all - seen
  {
    if pointer in seen {
      SeenIsEndless(node, pointer, root);
    } else if Target(root, pointer).None? {
      assert EndsAt(root, node, 0, node);
    } else {
      var next := Target(root, pointer).value;
      WalkStaysInside(root, Split(StripHash(pointer), '/'));
      if RefOf(next).Some? {
        forall p | p in seen + {pointer} ensures Leads(root, p, next) {
          if p in seen {
            LeadsOn(root, p, node, next);
          } else {
            assert After(root, next, 0) == Some(next);
          }
        }
        var q := RefOf(next).value;
        FollowIsChain(next, q, root, all, seen + {pointer});
        if Follow(q, root, all, seen + {pointer}) == RecursionError {
          forall k: nat ensures After(root, node, k).Some? {
            if k > 0 { assert After(root, next, k - 1).Some?; }
          }
        } else {
          var k: nat, end :| EndsAt(root, next, k, end)
            && Follow(q, root, all, seen + {pointer}) == Caught(EndType(end));
          assert EndsAt(root, node, k + 1, end);
        }
      } else {
        assert After(root, next, 0) == Some(next);
        assert EndsAt(root, node, 1, next);
      }
    }
  }

  lemma SeenIsEndless(node: Json, pointer: string, root: Json)
    requires RefOf(node) == Some(pointer) && Leads(root, pointer, node)
    ensures Endless(root, node)
  {
    var start := Target(root, pointer).value;
    var k: nat :| After(root, start, k) == Some(node);
    assert After(root, node, k + 1) == Some(node);
    forall n: nat ensures After(root, node, n).Some? {
      CycleIsEndless(root, node, k + 1, n);
    }
  }

  /** Resolution raises RecursionError if and only if the chain of references never ends. */
  lemma RecursionErrorIffEndless(field: Json, root: Json)
    ensures Resolve(field, root) == RecursionError <==> Endless(root, field)
  {
    match RefOf(field)
    case None =>
      assert EndsAt(root, field, 0, field);
      EndsOrEndless(root, field, 0, field);
    case Some(pointer) =>
      var all := Pointers(root) + {pointer};
      FollowIsChain(field, pointer, root, all, {});
      if Resolve(field, root) != RecursionError {
        var k: nat, end :| EndsAt(root, field, k, end) && Follow(pointer, root, all, {}) == Caught(EndType(end));
        EndsOrEndless(root, field, k, end);
      }
  }

  /** Otherwise it is the type of the last node of the chain; a TypeError raised behind a reference is
      caught and becomes `dict`. */
  lemma ResolvesToChainEnd(field: Json, root: Json, k: nat, end: Json)
    requires EndsAt(root, field, k, end)
    ensures Resolve(field, root) == if RefOf(field).None? then EndType(end) else Caught(EndType(end))
  {
    match RefOf(field)
    case None =>
      assert k == 0;
    case Some(pointer) =>
      var all := Pointers(root) + {pointer};
      FollowIsChain(field, pointer, root, all, {});
      EndsOrEndless(root, field, k, end);
      var l: nat, end' :| EndsAt(root, field, l, end') && Follow(pointer, root, all, {}) == Caught(EndType(end'));
      EndIsUnique(root, field, k, end, l, end');
  }

  /** The clean case: a chain of objects that ends at one with a plain `type` resolves to that type. */
  lemma PlainTypeIsFound(field: Json, root: Json, k: nat, end: Json, name: string)
    requires After(root, field, k) == Some(end) && end.Obj? && Get(end.fields, "$ref").None? && !HasCombinator(end)
    requires Get(end.fields, "type") == Some(Str(name))
    ensures Resolve(field, root).Type?
    ensures Resolve(field, root) == Type(IntType) <==> name == "integer"
    ensures Resolve(field, root) == Type(FloatType) <==> name == "number"
    ensures Resolve(field, root) == Type(BoolType) <==> name == "boolean"
    ensures Resolve(field, root) == Type(DictType) <==> name == "object"
    ensures Resolve(field, root) == Type(ListType) <==> name == "array"
  {
    ResolvesToChainEnd(field, root, k, end);
  }

  /** Where the function raises TypeError on the node itself: `in` or indexing is not defined on it, or its
      `type` cannot be a dictionary key. */
  predicate Unhashable(node: Json) {
    match node
    case Obj(fields) =>
      Get(fields, "$ref").None? && !HasCombinator(node)
      && Get(fields, "type").Some? && (Get(fields, "type").value.Arr? || Get(fields, "type").value.Obj?)
    case Arr(items) => Str("$ref") in items
    case Str(text) => Substring("$ref", text)
    case _ => true
  }

  /** Where it raises AttributeError: the `$ref` is no string, or a list or string has no `get`. */
  predicate Attributeless(node: Json) {
    match node
    case Obj(fields) => Get(fields, "$ref").Some? && !Get(fields, "$ref").value.Str?
    case Arr(items) => Str("$ref") !in items && !HasCombinator(node)
    case Str(text) => !Substring("$ref", text) && !HasCombinator(node)
    case _ => false
  }

  lemma LeafRaises(node: Json)
    requires RefOf(node).None?
    ensures Leaf(node) == TypeError <==> Unhashable(node)
    ensures Leaf(node) == AttributeError <==> Attributeless(node)
    ensures Leaf(node) != RecursionError
  {
  }

  lemma ReferrersRaiseNothing(node: Json)
    requires RefOf(node).Some?
    ensures !Unhashable(node) && !Attributeless(node)
  {
  }

  /** TypeError leaves the function exactly for such a field itself; behind a reference it is caught. */
  lemma TypeErrorIff(field: Json, root: Json)
    ensures Resolve(field, root) == TypeError <==> Unhashable(field)
  {
    match RefOf(field)
    case None => LeafRaises(field);
    case Some(pointer) =>
      ReferrersRaiseNothing(field);
      FollowNeverRaisesTypeError(pointer, root, Pointers(root) + {pointer}, {});
  }

  lemma FollowNeverRaisesTypeError(pointer: string, root: Json, all: set<string>, seen: set<string>)
    requires Pointers(root) <= all && pointer in all && seen <= all
    ensures Follow(pointer, root, all, seen) != TypeError
  {
  }

  /** AttributeError leaves it exactly if the chain of references ends at such a node. */
  lemma AttributeErrorIff(field: Json, root: Json)
    ensures Resolve(field, root) == AttributeError <==>
            exists k: nat, end :: EndsAt(root, field, k, end) && Attributeless(end)
  {
    hide Attributeless, Unhashable, HasCombinator, Leaf;
    if Endless(root, field) {
      RecursionErrorIffEndless(field, root);
      forall k: nat, end | EndsAt(root, field, k, end) ensures false {
        EndsOrEndless(root, field, k, end);
      }
    } else {
      var k, end := ChainEnd(root, field);
      ResolvesToChainEnd(field, root, k, end);
      if RefOf(end).None? { LeafRaises(end); } else { ReferrersRaiseNothing(end); }
      forall l: nat, end' | EndsAt(root, field, l, end') ensures end' == end {
        EndIsUnique(root, field, k, end, l, end');
      }
    }
  }

  /** A chain that is not endless ends. */
  lemma ChainEnd(root: Json, node: Json) returns (k: nat, end: Json)
    requires !Endless(root, node)
    ensures EndsAt(root, node, k, end)
  {
    var n: nat :| After(root, node, n).None?;
    k, end := ChainEndWithin(root, node, n);
  }

  lemma {:induction false} ChainEndWithin(root: Json, node: Json, n: nat) returns (k: nat, end: Json)
    requires After(root, node, n).None?
    ensures EndsAt(root, node, k, end)
    decreases n
  {
    match Hop(root, node)
    case None => k, end := 0, node;
    case Some(next) =>
      k, end := ChainEndWithin(root, next, n - 1);
      k := k + 1;
  }

  /** A list of types crashes a field that has it directly, but not one that refers to it. */
  lemma TypeListCrashesOnlyDirectly(root: Json, field: Json, end: Json, k: nat)
    requires EndsAt(root, field, k, end) && end.Obj? && Get(end.fields, "$ref").None? && !HasCombinator(end)
    requires Get(end.fields, "type").Some? && Get(end.fields, "type").value.Arr?
    ensures Resolve(field, root) == if k == 0 then TypeError else Type(DictType)
  {
    ResolvesToChainEnd(field, root, k, end);
    if k == 0 {
      assert field == end;
    } else {
      AfterShorter(root, field, 1, k);
    }
  }

  // ---- Where a pointer leads ---------------------------------------------------

  /** `"/".join(names)` */
  function Joined(names: seq<string>): string {
    if names == [] then "" else if |names| == 1 then names[0] else names[0] + ['/'] + Joined(names[1..])
  }

  lemma {:induction false} SplitsBack(names: seq<string>)
    requires names != [] && forall i :: 0 <= i < |names| ==> Free(names[i], '/')
    ensures Split(Joined(names), '/') == names
  {
    if |names| == 1 {
      SplitOne(names[0], '/');
      assert names == [names[0]];
    } else {
      SplitsBack(names[1..]);
      SplitFirst(names[0], Joined(names[1..]), '/');
      assert names == [names[0]] + names[1..];
    }
  }

  /** Every text is the joining of the '/'-free parts it is split into. */
  lemma {:induction false} SplitIsJoined(s: string)
    ensures Joined(Split(s, '/')) == s
  {
    if s != "" {
      var rest := Split(s[1..], '/');
      SplitIsJoined(s[1..]);
      JoinedCons(rest);
      JoinedPrepend(s[0], rest);
      hide Joined;
      assert s == [s[0]] + s[1..];
    }
  }

  lemma JoinedCons(rest: seq<string>)
    requires rest != []
    ensures Joined([""] + rest) == ['/'] + Joined(rest)
  {
    assert ([""] + rest)[1..] == rest;
  }

  lemma JoinedPrepend(c: char, names: seq<string>)
    requires names != []
    ensures Joined([[c] + names[0]] + names[1..]) == [c] + Joined(names)
  {
    var all := [[c] + names[0]] + names[1..];
    assert all[0] == [c] + names[0] && all[1..] == names[1..];
    if |names| > 1 {
      assert Joined(names) == names[0] + ['/'] + Joined(names[1..]);
      assert ([c] + names[0]) + ['/'] + Joined(names[1..]) == [c] + (names[0] + ['/'] + Joined(names[1..]));
    }
  }

  lemma {:induction false} SplitPartsFree(s: string)
    ensures forall i :: 0 <= i < |Split(s, '/')| ==> Free(Split(s, '/')[i], '/')
  {
    if s != "" {
      SplitPartsFree(s[1..]);
    }
  }

  /** `lstrip` takes exactly the leading `#` and `/`. */
  lemma {:induction false} StripHashIs(prefix: string, s: string)
    requires forall i :: 0 <= i < |prefix| ==> prefix[i] == '#' || prefix[i] == '/'
    requires s != "" ==> s[0] != '#' && s[0] != '/'
    ensures StripHash(prefix + s) == s
  {
    if prefix == "" {
      assert prefix + s == s;
    } else {
      assert (prefix + s)[1..] == prefix[1..] + s;
      StripHashIs(prefix[1..], s);
    }
  }

  /** A walk through objects, one field after the other. */
  ghost predicate Path(nodes: seq<Json>, names: seq<string>) {
    |nodes| == |names| + 1 &&
    forall i :: 0 <= i < |names| ==> nodes[i].Obj? && Get(nodes[i].fields, names[i]) == Some(nodes[i + 1])
  }

  ghost predicate Leading(root: Json, names: seq<string>, node: Json) {
    exists nodes :: Path(nodes, names) && nodes[0] == root && nodes[|names|] == node
  }

  lemma PathCons(root: Json, nodes: seq<Json>, names: seq<string>)
    requires names != [] && |nodes| == |names|
    ensures Path([root] + nodes, names) <==>
            root.Obj? && Get(root.fields, names[0]) == Some(nodes[0]) && Path(nodes, names[1..])
  {
    var all := [root] + nodes;
    assert forall i :: 0 < i < |all| ==> all[i] == nodes[i - 1];
    assert forall i :: 0 <= i < |names| - 1 ==> names[1..][i] == names[i + 1];
    hide Get;
    if root.Obj? && Get(root.fields, names[0]) == Some(nodes[0]) && Path(nodes, names[1..]) {
      forall i | 0 <= i < |names| ensures all[i].Obj? && Get(all[i].fields, names[i]) == Some(all[i + 1]) {
        if i > 0 {
          assert nodes[i - 1].Obj? && Get(nodes[i - 1].fields, names[1..][i - 1]) == Some(nodes[i - 1 + 1]);
        }
      }
    }
    if Path(all, names) {
      assert all[0] == root && all[0].Obj? && Get(all[0].fields, names[0]) == Some(all[0 + 1]);
      forall i | 0 <= i < |names| - 1
        ensures nodes[i].Obj? && Get(nodes[i].fields, names[1..][i]) == Some(nodes[i + 1])
      {
        assert all[i + 1].Obj? && Get(all[i + 1].fields, names[i + 1]) == Some(all[i + 1 + 1]);
      }
    }
  }

  lemma {:induction false} WalkLeads(root: Json, names: seq<string>, node: Json)
    requires Walk(root, names) == Some(node)
    ensures Leading(root, names, node)
    decreases names
  {
    if names == [] {
      assert Path([root], names);
    } else {
      var next := Get(root.fields, names[0]).value;
      WalkLeads(next, names[1..], node);
      var nodes :| Path(nodes, names[1..]) && nodes[0] == next && nodes[|names[1..]|] == node;
      PathCons(root, nodes, names);
      hide Path, Get, Walk;
      assert ([root] + nodes)[0] == root && ([root] + nodes)[|names|] == node;
    }
  }

  lemma {:induction false} LeadsWalk(nodes: seq<Json>, names: seq<string>)
    requires Path(nodes, names)
    ensures Walk(nodes[0], names) == Some(nodes[|names|])
    decreases names
  {
    if names != [] {
      var tail := nodes[1..];
      assert nodes == [nodes[0]] + tail;
      PathCons(nodes[0], tail, names);
      LeadsWalk(tail, names[1..]);
      hide Path;
    }
  }

  lemma WalkIff(root: Json, names: seq<string>, node: Json)
    ensures Walk(root, names) == Some(node) <==> Leading(root, names, node)
  {
    if Walk(root, names) == Some(node) {
      WalkLeads(root, names, node);
    }
    if Leading(root, names, node) {
      var nodes :| Path(nodes, names) && nodes[0] == root && nodes[|names|] == node;
      LeadsWalk(nodes, names);
    }
    hide Walk, Path;
  }

  /** A pointer leads to a node exactly if its names, from the first to the last, lead there from the root
      through objects; everything else is unresolvable. */
  lemma TargetIff(root: Json, pointer: string, names: seq<string>, node: Json)
    requires names != [] && StripHash(pointer) == Joined(names)
    requires forall i :: 0 <= i < |names| ==> Free(names[i], '/')
    ensures Target(root, pointer) == Some(node) <==> Leading(root, names, node)
  {
    SplitsBack(names);
    WalkIff(root, names, node);
  }

  /** The usual form. */
  lemma HashPointerIff(root: Json, names: seq<string>, node: Json)
    requires names != [] && names[0] != "" && names[0][0] != '#'
    requires forall i :: 0 <= i < |names| ==> Free(names[i], '/')
    ensures Target(root, "#/" + Joined(names)) == Some(node) <==> Leading(root, names, node)
  {
    assert Free(names[0], '/') && names[0][0] != '/';
    assert Joined(names)[0] == names[0][0];
    StripHashIs("#/", Joined(names));
    TargetIff(root, "#/" + Joined(names), names, node);
  }

  /** A field is found under the first entry of its key; a parsed object has only one. */
  lemma {:induction false} GetIff(fields: seq<Field>, key: string, v: Json)
    ensures Get(fields, key) == Some(v) <==>
            exists i :: FirstAt(fields, key, i) && fields[i].value == v
    ensures Get(fields, key).None? <==> forall i :: 0 <= i < |fields| ==> fields[i].key != key
  {
    if fields != [] && fields[0].key != key {
      var rest := fields[1..];
      GetIff(rest, key, v);
      assert forall i :: 0 <= i < |rest| ==> rest[i] == fields[i + 1];
      if i :| FirstAt(rest, key, i) && rest[i].value == v {
        assert FirstAt(fields, key, i + 1);
      }
      if i :| FirstAt(fields, key, i) && fields[i].value == v {
        assert FirstAt(rest, key, i - 1);
      }
    } else if fields != [] {
      assert FirstAt(fields, key, 0);
    }
  }

  predicate FirstAt(fields: seq<Field>, key: string, i: int) {
    0 <= i < |fields| && fields[i].key == key && forall j :: 0 <= j < i ==> fields[j].key != key
  }

  // ---- The types without a plain name -----------------------------------------

  /** A combinator makes a `dict` of the last object of the chain, whatever else it has. */
  lemma CombinatorIsDict(field: Json, root: Json, k: nat, end: Json, key: string)
    requires After(root, field, k) == Some(end) && end.Obj? && Get(end.fields, "$ref").None?
    requires key in {"allOf", "anyOf", "oneOf"} && Get(end.fields, key).Some?
    ensures Resolve(field, root) == Type(DictType)
  {
    ResolvesToChainEnd(field, root, k, end);
  }

  /** Without combinators, a missing type, or one that is null, a number or a boolean, makes it a string. */
  lemma NoTypeIsStr(field: Json, root: Json, k: nat, end: Json)
    requires After(root, field, k) == Some(end) && end.Obj? && Get(end.fields, "$ref").None?
    requires forall key :: key in {"allOf", "anyOf", "oneOf"} ==> Get(end.fields, key).None?
    requires Get(end.fields, "type").Some? ==>
      var t := Get(end.fields, "type").value; t.Null? || t.Number? || t.Bool?
    ensures Resolve(field, root) == Type(StrType)
  {
    assert !HasCombinator(end);
    ResolvesToChainEnd(field, root, k, end);
  }

  /** A reference to nothing makes a `dict`. */
  lemma DanglingIsDict(field: Json, root: Json, k: nat, end: Json, pointer: string)
    requires After(root, field, k) == Some(end) && RefOf(end) == Some(pointer) && Target(root, pointer).None?
    ensures Resolve(field, root) == Type(DictType)
  {
    ResolvesToChainEnd(field, root, k, end);
  }

  // ---- Instances -------------------------------------------------------------

  /** A definition that refers to itself. */
  const LOOP := Obj([Field("$ref", Str("#/x"))])

  lemma LoopRaisesRecursionError()
    ensures Resolve(LOOP, Obj([Field("x", LOOP)])) == RecursionError
  {
    var root := Obj([Field("x", LOOP)]);
    assert StripHash("#/x") == "x" by { assert "#/x"[1..] == "/x" && "/x"[1..] == "x"; }
    SplitOne("x", '/');
    assert Walk(root, ["x"]) == Some(LOOP) by { assert ["x"][1..] == []; }
    assert Hop(root, LOOP) == Some(LOOP);
    forall k: nat ensures After(root, LOOP, k).Some? {
      assert After(root, LOOP, 1) == Some(LOOP) by { assert After(root, LOOP, 0) == Some(LOOP); }
      CycleIsEndless(root, LOOP, 1, k);
    }
    RecursionErrorIffEndless(LOOP, root);
  }

  /** A reference that is a number. */
  lemma NumericRefRaisesAttributeError(root: Json, n: int)
    ensures Resolve(Obj([Field("$ref", Number(n))]), root) == AttributeError
  {
    var field := Obj([Field("$ref", Number(n))]);
    assert EndsAt(root, field, 0, field) && Attributeless(field);
    AttributeErrorIff(field, root);
  }

  /** A list of types. */
  lemma TypeListRaisesTypeError(root: Json, names: seq<Json>)
    ensures Resolve(Obj([Field("type", Arr(names))]), root) == TypeError
  {
    var field := Obj([Field("type", Arr(names))]);
    forall key: string | key != "type" ensures Get(field.fields, key).None? {
      assert field.fields[1..] == [];
    }
    assert |"type"| != |"allOf"| == |"anyOf"| == |"oneOf"| && "type"[0] != "$ref"[0];
    assert Unhashable(field);
    TypeErrorIff(field, root);
  }

  /** A definition, two names down. */
  lemma DefinitionIsFound()
    ensures var address := Obj([Field("type", Str("string"))]);
      var root := Obj([Field("$defs", Obj([Field("Address", address)]))]);
      Resolve(Obj([Field("$ref", Str("#/$defs/Address"))]), root) == Type(StrType)
  {
    var address := Obj([Field("type", Str("string"))]);
    var defs := Obj([Field("Address", address)]);
    var root := Obj([Field("$defs", defs)]);
    var field := Obj([Field("$ref", Str("#/$defs/Address"))]);
    OnlyType(address);
    AddressIsAt(root, defs, address);
    assert Hop(root, field) == Some(address);
    hide Get, Target, HasCombinator;
    assert After(root, address, 0) == Some(address) && After(root, field, 1) == Some(address);
    PlainTypeIsFound(field, root, 1, address, "string");
  }

  lemma AddressIsAt(root: Json, defs: Json, address: Json)
    requires root.Obj? && Get(root.fields, "$defs") == Some(defs)
    requires defs.Obj? && Get(defs.fields, "Address") == Some(address)
    ensures Target(root, "#/$defs/Address") == Some(address)
  {
    var names, nodes := ["$defs", "Address"], [root, defs, address];
    assert names[1..] == ["Address"] && Joined(names) == "$defs" + ['/'] + "Address";
    assert "#/" + ("$defs" + ['/'] + "Address") == "#/$defs/Address";
    hide Get, Target;
    assert Path(nodes, names) && nodes[0] == root && nodes[|names|] == address;
    HashPointerIff(root, names, address);
  }

  lemma OnlyType(node: Json)
    requires node.Obj? && |node.fields| == 1 && node.fields[0].key == "type"
    ensures Get(node.fields, "$ref").None? && !HasCombinator(node)
    ensures Get(node.fields, "type") == Some(node.fields[0].value)
  {
    forall key: string | key != "type" ensures Get(node.fields, key).None? {
      assert node.fields[1..] == [];
    }
    assert |"type"| != |"allOf"| == |"anyOf"| == |"oneOf"| && "type"[0] != "$ref"[0];
  }
}
