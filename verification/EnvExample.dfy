/** `check-env-example`: the scan of the raw YAML text, the keys of `.env.example`, and why a
    passing check means that the loader's substitution phase finds every variable. */
module EnvExample {
  import opened Text
  import opened Substitution
  import opened ConfigTree
  import opened ConfigLoader

  // ---- The scan --------------------------------------------------------------

  /** `_VAR_REF_RE.findall`. */
  function FindAll(s: string): seq<string>
    decreases |s|
  {
    if s == "" then []
    else
      match MatchReference(s)
      case Some(name) => [name] + FindAll(s[|name| + 3..])
      case None => FindAll(s[1..])
  }

  function ScanText(text: string): seq<string> { FindAll(Replace(text, ESCAPE, "")) }

  method ScanYamlVars(files: seq<string>) returns (found: set<string>)
    ensures forall name :: name in found <==> Referenced(files, name)
  {
    found := {};
    for i := 0 to |files|
      invariant forall name :: name in found <==> exists j :: 0 <= j < i && name in ScanText(files[j])
    {
      var text := Replace(files[i], ESCAPE, "");
      var names := FindAll(text);
      found := found + (set name | name in names);
    }
  }

  predicate OccursAt(sub: string, s: string, i: nat) { i <= |s| && sub <= s[i..] }

  /** Leftmost matching misses no reference: two of them never overlap. */
  lemma {:induction false} FindAllComplete(s: string, i: nat, name: string)
    requires IsName(name) && OccursAt(Reference(name), s, i)
    ensures name in FindAll(s)
    decreases |s|
  {
    if i == 0 {
      MatchIsPrefix(s, name);
    } else {
      var ref := Reference(name);
      assert s[i] == ref[0] == '$';
      var k := SkippedAt(s, i);
      assert s[k..][i - k..] == s[i..];
      FindAllComplete(s[k..], i - k, name);
    }
  }

  /** One step of the search from the head of `s` does not pass a later dollar. */
  lemma SkippedAt(s: string, i: nat) returns (k: nat)
    requires 0 < i < |s| && s[i] == '$'
    ensures 0 < k <= i && forall name :: name in FindAll(s[k..]) ==> name in FindAll(s)
  {
    match MatchReference(s)
    case Some(other) =>
      MatchIsPrefix(s, other);
      k := |other| + 3;
      var ref := Reference(other);
      assert forall j :: 1 <= j < k ==> s[j] == ref[j] != '$';
    case None =>
      k := 1;
  }

  lemma {:induction false} FindAllSound(s: string, name: string) returns (i: nat)
    requires name in FindAll(s)
    ensures IsName(name) && OccursAt(Reference(name), s, i)
    decreases |s|
  {
    var first := MatchReference(s);
    if first.Some? {
      MatchIsPrefix(s, first.value);
      hide MatchReference;
    }
    if first == Some(name) {
      i := 0;
      assert s[0..] == s;
    } else {
      var w := if first.Some? then |first.value| + 3 else 1;
      i := FindAllSound(s[w..], name);
      assert s[w..][i..] == s[w + i..];
      i := w + i;
    }
  }

  /** The names found are exactly those that some reference in the text has. */
  lemma FindAllIff(s: string, name: string)
    ensures name in FindAll(s) <==> IsName(name) && exists i: nat :: OccursAt(Reference(name), s, i)
  {
    if name in FindAll(s) {
      var i := FindAllSound(s, name);
    }
    if IsName(name) && exists i: nat :: OccursAt(Reference(name), s, i) {
      var i: nat :| OccursAt(Reference(name), s, i);
      FindAllComplete(s, i, name);
    }
    hide FindAll, OccursAt, IsName;
  }

  // ---- Which references the loader resolves ----------------------------------

  /** The loader's scan of `s` takes the reference to `name` that stands at `p`. */
  predicate ResolvedAt(s: string, p: nat, name: string)
    decreases |s|
  {
    s != "" &&
    if p == 0 then NextToken(s) == Var(name)
    else var w := Width(NextToken(s)); w <= p && w <= |s| && ResolvedAt(s[w..], p - w, name)
  }

  lemma {:induction false} ResolvedSomewhere(s: string, name: string) returns (p: nat)
    requires name in References(Tokens(s))
    ensures ResolvedAt(s, p, name)
    decreases |s|
  {
    var t := NextToken(s);
    TokensStep(s, t);
    RenderCons(t, Tokens(s[Width(t)..]), map[]);
    hide NextToken, Tokens, References;
    if t == Var(name) {
      p := 0;
    } else {
      p := ResolvedSomewhere(s[Width(t)..], name);
      p := p + Width(t);
    }
  }

  /** The loader resolves exactly the references with an even number of dollars directly before them. */
  lemma {:induction false} ResolvedIff(s: string, p: nat, name: string)
    ensures ResolvedAt(s, p, name) <==>
            IsName(name) && OccursAt(Reference(name), s, p) && DollarsBefore(s, p) % 2 == 0
    decreases |s|
  {
    if s != "" {
      if p == 0 {
        MatchIsPrefix(s, name);
        assert Reference(name) <= s ==> !(ESCAPE <= s) by {
          if Reference(name) <= s { assert s[1] == Reference(name)[1] == '{'; }
        }
        assert s[0..] == s;
        hide MatchReference;
      } else {
        var w := Width(NextToken(s));
        WidthFits(s);
        if w <= p {
          ResolvedIff(s[w..], p - w, name);
          if p <= |s| { assert s[w..][p - w..] == s[p..]; }
        }
        OccursAtDollar(name, s, p);
        if OccursAt(Reference(name), s, p) {
          ParityPastToken(s, p);
        }
        hide NextToken, DollarsBefore, OccursAt, IsName;
      }
    }
  }

  lemma OccursAtDollar(name: string, s: string, p: nat)
    ensures OccursAt(Reference(name), s, p) ==> p + 1 < |s| && s[p] == '$' && s[p + 1] == '{'
  {
  }

  // ---- Which references the deletion of escapes leaves -----------------------

  /** The character at `i` is in an escape that the scan deletes. */
  predicate DeletedAt(s: string, i: nat)
    decreases |s|
  {
    s != "" &&
    if ESCAPE <= s then i < 2 || DeletedAt(s[2..], i - 2) else i > 0 && DeletedAt(s[1..], i - 1)
  }

  /** Where the deletion begins anew. */
  function NextStep(s: string): nat { if ESCAPE <= s then 2 else 1 }

  lemma ParityPastStep(s: string, i: nat)
    requires s != "" && NextStep(s) <= i <= |s|
    requires i == 1 ==> s[0] != '$'
    ensures DollarsBefore(s, i) % 2 == DollarsBefore(s[NextStep(s)..], i - NextStep(s)) % 2
  {
    var w := NextStep(s);
    DollarsInTail(s, w, i);
    WholeRun(s[w..], i - w);
    assert DollarsBefore(s, 1) == if s[0] == '$' then 1 + DollarsBefore(s, 0) else 0;
    if w == 2 {
      assert DollarsBefore(s, 2) == 1 + DollarsBefore(s, 1);
    } else if s[0] == '$' {
      assert s[1] != '$' && s[1..][0] == s[1];
    }
  }

  /** The deletion takes the dollar of a reference exactly if an odd number of dollars is directly before it. */
  lemma {:induction false} DeletedIff(s: string, i: nat)
    requires i + 1 < |s| && s[i] == '$' && s[i + 1] != '$'
    ensures DeletedAt(s, i) <==> DollarsBefore(s, i) % 2 == 1
    decreases |s|
  {
    var w := NextStep(s);
    if w <= i {
      ParityPastStep(s, i);
      assert s[w..][i - w] == s[i] && s[w..][i - w + 1] == s[i + 1];
      DeletedIff(s[w..], i - w);
    } else if i == 1 {
      assert DollarsBefore(s, 1) == 1 + DollarsBefore(s, 0);
    }
  }

  /** After an even number of dollars the deletion begins anew. */
  lemma {:induction false} DeletionSplits(s: string, p: nat)
    requires p <= |s| && DollarsBefore(s, p) % 2 == 0
    ensures Replace(s, ESCAPE, "") == Replace(s[..p], ESCAPE, "") + Replace(s[p..], ESCAPE, "")
    decreases |s|
  {
    if p == 0 {
      assert s[0..] == s && s[..0] == "" && Replace("", ESCAPE, "") == "";
    } else {
      var w := NextStep(s);
      assert DollarsBefore(s, 1) == if s[0] == '$' then 1 + DollarsBefore(s, 0) else 0;
      ParityPastStep(s, p);
      DeletionSplits(s[w..], p - w);
      StepOf(s);
      StepOfPrefix(s, p);
      hide *;
      Slices(s, w, p);
      Regroup(if w == 2 then "" else [s[0]], Replace(s[..p][w..], ESCAPE, ""), Replace(s[p..], ESCAPE, ""));
    }
  }

  lemma Slices(s: string, w: nat, p: nat)
    requires w <= p <= |s|
    ensures s[w..][..p - w] == s[..p][w..] && s[w..][p - w..] == s[p..]
  {
  }

  lemma StepOfPrefix(s: string, p: nat)
    requires NextStep(s) <= p <= |s|
    ensures s[..p] != "" && s[..p][0] == s[0] && NextStep(s[..p]) == NextStep(s)
    ensures Replace(s[..p], ESCAPE, "")
         == (if NextStep(s) == 2 then "" else [s[0]]) + Replace(s[..p][NextStep(s)..], ESCAPE, "")
  {
  }

  lemma StepOf(s: string)
    requires s != ""
    ensures Replace(s, ESCAPE, "") == (if NextStep(s) == 2 then "" else [s[0]]) + Replace(s[NextStep(s)..], ESCAPE, "")
    ensures NextStep(s) == if ESCAPE <= s then 2 else 1
  {
  }

  lemma OccursAfter(p: string, sub: string, s: string, i: nat)
    requires OccursAt(sub, s, i)
    ensures OccursAt(sub, p + s, |p| + i)
  {
  }

  lemma KeptReference(text: string, p: nat, name: string) returns (i: nat)
    requires IsName(name) && OccursAt(Reference(name), text, p) && DollarsBefore(text, p) % 2 == 0
    ensures OccursAt(Reference(name), Replace(text, ESCAPE, ""), i)
  {
    var rest := text[p..];
    DeletionSplits(text, p);
    ReplacePastReference(name, rest, "");
    var ref, after, before := Reference(name), Replace(rest[|name| + 3..], ESCAPE, ""), Replace(text[..p], ESCAPE, "");
    i := |before|;
    assert OccursAt(ref, ref + after, 0) by { assert (ref + after)[0..] == ref + after; }
    hide Replace, Reference, OccursAt;
    OccursAfter(before, ref, ref + after, 0);
  }

  /** Every reference that the loader would resolve in a text is still there without the escapes. */
  lemma LoaderReferencesRemain(s: string, name: string) returns (i: nat)
    requires name in References(Tokens(s))
    ensures IsName(name) && OccursAt(Reference(name), Replace(s, ESCAPE, ""), i)
  {
    var p := ResolvedSomewhere(s, name);
    ResolvedIff(s, p, name);
    hide *;
    i := KeptReference(s, p, name);
  }

  /** A reference whose dollar is not deleted is found. */
  lemma KeptIsFound(text: string, p: nat, name: string)
    requires IsName(name) && OccursAt(Reference(name), text, p) && !DeletedAt(text, p)
    ensures name in ScanText(text)
  {
    OccursAtDollar(name, text, p);
    DeletedIff(text, p);
    var i := KeptReference(text, p, name);
    FindAllComplete(Replace(text, ESCAPE, ""), i, name);
  }

  // ---- Scalars in a file -----------------------------------------------------

  /** A reference that the loader resolves in a scalar is deleted from a text that the scalar stands in
      if and only if nothing but dollars is before it in the scalar, and an odd number of them directly
      before the scalar. What follows the scalar does not matter. */
  lemma DeletedInTextIff(s: string, text: string, i: nat, p: nat, name: string)
    requires OccursAt(s, text, i) && ResolvedAt(s, p, name)
    ensures p <= |s| && OccursAt(Reference(name), text, i + p)
    ensures DeletedAt(text, i + p) <==> DollarsBefore(s, p) == p && DollarsBefore(text, i) % 2 == 1
  {
    ResolvedIff(s, p, name);
    hide *;
    OccursInside(Reference(name), s, p, text, i);
    DollarsBeforeInside(s, text, i, p);
    OccursAtDollar(name, text, i + p);
    DeletedIff(text, i + p);
  }

  lemma DollarsBeforeInside(s: string, text: string, i: nat, p: nat)
    requires OccursAt(s, text, i) && p <= |s|
    ensures var n := DollarsBefore(s, p);
      i + p <= |text| && DollarsBefore(text, i + p) == if n < p then n else p + DollarsBefore(text, i)
  {
    DollarsInTail(text, i, i + p);
    DollarsInPrefix(s, text[i..], p);
    hide DollarsBefore;
  }

  lemma OccursInside(sub: string, s: string, p: nat, text: string, i: nat)
    requires OccursAt(sub, s, p) && OccursAt(s, text, i)
    ensures p <= |s| && OccursAt(sub, text, i + p)
  {
  }

  /** The scalar is a reference after nothing but dollars. */
  ghost predicate Opens(s: string, name: string) {
    exists p: nat :: p <= |s| && ResolvedAt(s, p, name) && DollarsBefore(s, p) == p
  }

  /** `s` stands in the text at `i`, with an even number of dollars directly before it unless it does
      not begin with a reference. */
  ghost predicate StandsAt(s: string, text: string, i: nat) {
    OccursAt(s, text, i) && (DollarsBefore(text, i) % 2 == 0 || forall name :: !Opens(s, name))
  }

  /** That is exactly when none of its references is deleted. */
  lemma StandsIff(s: string, text: string, i: nat)
    requires OccursAt(s, text, i)
    ensures StandsAt(s, text, i) <==> forall p: nat, name :: ResolvedAt(s, p, name) ==> !DeletedAt(text, i + p)
  {
    if StandsAt(s, text, i) {
      forall p: nat, name | ResolvedAt(s, p, name) ensures !DeletedAt(text, i + p) {
        DeletedInTextIff(s, text, i, p, name);
        assert DollarsBefore(s, p) == p ==> Opens(s, name);
      }
    } else {
      var name :| Opens(s, name);
      var p: nat :| p <= |s| && ResolvedAt(s, p, name) && DollarsBefore(s, p) == p;
      DeletedInTextIff(s, text, i, p, name);
    }
  }

  /** Every variable that the loader would resolve in a scalar is found by the scan of any text
      that the scalar stands in. */
  lemma ScanCoversScalar(s: string, text: string, i: nat, name: string)
    requires StandsAt(s, text, i) && name in References(Tokens(s))
    ensures name in ScanText(text)
  {
    var p := ResolvedSomewhere(s, name);
    ResolvedIff(s, p, name);
    StandsIff(s, text, i);
    DeletedInTextIff(s, text, i, p, name);
    assert !DeletedAt(text, i + p);
    hide *;
    KeptIsFound(text, i + p, name);
  }

  /** For instance, in the text of an escape the scan finds nothing, where the loader would resolve the
      reference if it stood alone. */
  lemma DollarNeighbourHides(name: string)
    requires IsName(name)
    ensures References(Tokens(Reference(name))) == [name] && ScanText("$" + Reference(name)) == []
  {
    var ref := Reference(name);
    assert ref + "" == ref;
    ReferenceScans(name, "", map[]);
    assert References([Var(name)] + []) == [name];
    var tail := ReferenceParts(name, ref);
    hide Reference, Tokens;
    assert "$" + ref == ESCAPE + tail;
    ReplaceHits(tail, ESCAPE, "");
    assert tail + "" == tail && "" + tail == tail;
    ReplaceSkips(tail, "", ESCAPE, "");
    NoDollarNoNames(tail);
  }

  lemma {:induction false} NoDollarNoNames(s: string)
    requires Free(s, '$')
    ensures FindAll(s) == []
  {
    if s != "" {
      NoDollarNoNames(s[1..]);
    }
  }

  // ---- `.env.example` --------------------------------------------------------

  predicate IsSpace(c: char) {
    c in " \t\n\r" || '\U{0b}' <= c <= '\U{0c}' || '\U{1c}' <= c <= '\U{1f}' || c == '\U{85}' || c == '\U{a0}'
    || c == '\U{1680}' || '\U{2000}' <= c <= '\U{200a}' || c == '\U{2028}' || c == '\U{2029}' || c == '\U{202f}'
    || c == '\U{205f}' || c == '\U{3000}'
  }

  function StripLeft(s: string): string {
    if s != "" && IsSpace(s[0]) then StripLeft(s[1..]) else s
  }

  function StripRight(s: string): string {
    if s != "" && IsSpace(s[|s| - 1]) then StripRight(s[..|s| - 1]) else s
  }

  function Strip(s: string): string { StripRight(StripLeft(s)) }

  /** The text before the first `=`; the whole text if there is none. */
  function BeforeEquals(s: string): string {
    if s == "" || s[0] == '=' then "" else [s[0]] + BeforeEquals(s[1..])
  }

  /** The key a line declares, if any. */
  function KeyOf(line: string): Option<string> {
    var l := Strip(line);
    if l == "" || l[0] == '#' || '=' !in l then None
    else var key := Strip(BeforeEquals(l)); if key == "" then None else Some(key)
  }

  method ParseEnvExample(lines: seq<string>) returns (keys: set<string>)
    ensures forall key :: key in keys <==> Documented(lines, key)
  {
    keys := {};
    for i := 0 to |lines|
      invariant forall key :: key in keys <==> exists j :: 0 <= j < i && KeyOf(lines[j]) == Some(key)
    {
      var line := Strip(lines[i]);
      if line == "" || line[0] == '#' { continue; }
      if '=' !in line { continue; }
      var key := Strip(BeforeEquals(line));
      if key != "" {
        keys := keys + {key};
      }
    }
  }

  predicate Trimmed(s: string) {
    s != "" ==> !IsSpace(s[0]) && !IsSpace(s[|s| - 1])
  }

  predicate Blank(s: string) { forall i :: 0 <= i < |s| ==> IsSpace(s[i]) }

  lemma {:induction false} StripLeftPad(p: string, s: string)
    requires Blank(p) && (s != "" ==> !IsSpace(s[0]))
    ensures StripLeft(p + s) == s
  {
    if p == "" {
      assert p + s == s;
    } else {
      assert (p + s)[1..] == p[1..] + s;
      StripLeftPad(p[1..], s);
    }
  }

  lemma {:induction false} StripRightPad(s: string, p: string)
    requires Blank(p) && (s != "" ==> !IsSpace(s[|s| - 1]))
    ensures StripRight(s + p) == s
  {
    if p == "" {
      assert s + p == s;
    } else {
      assert (s + p)[..|s + p| - 1] == s + p[..|p| - 1];
      StripRightPad(s, p[..|p| - 1]);
    }
  }

  lemma {:induction false} BeforeEqualsSplits(key: string, rest: string)
    requires '=' !in key
    ensures BeforeEquals(key + "=" + rest) == key
  {
    var s := key + "=" + rest;
    if key != "" {
      assert s[0] == key[0] && s[1..] == key[1..] + "=" + rest;
      BeforeEqualsSplits(key[1..], rest);
    }
  }

  lemma {:induction false} StripLeftSplits(s: string) returns (pad: string)
    ensures s == pad + StripLeft(s) && Blank(pad)
    ensures StripLeft(s) != "" ==> !IsSpace(StripLeft(s)[0])
  {
    if s != "" && IsSpace(s[0]) {
      pad := StripLeftSplits(s[1..]);
      pad := [s[0]] + pad;
      assert s == [s[0]] + s[1..];
    } else {
      pad := "";
    }
  }

  lemma {:induction false} StripRightSplits(s: string) returns (end: string)
    ensures s == StripRight(s) + end && Blank(end)
    ensures StripRight(s) != "" ==> !IsSpace(StripRight(s)[|StripRight(s)| - 1])
  {
    if s != "" && IsSpace(s[|s| - 1]) {
      end := StripRightSplits(s[..|s| - 1]);
      end := end + [s[|s| - 1]];
      assert s == s[..|s| - 1] + [s[|s| - 1]];
    } else {
      end := "";
    }
  }

  lemma {:induction false} StripRightStopsAt(a: string, rest: string) returns (left: string)
    ensures StripRight(a + "=" + rest) == a + "=" + left
    decreases |rest|
  {
    var s := a + "=" + rest;
    if rest != "" && IsSpace(rest[|rest| - 1]) {
      assert s[..|s| - 1] == a + "=" + rest[..|rest| - 1];
      left := StripRightStopsAt(a, rest[..|rest| - 1]);
    } else {
      assert rest == "" ==> s[|s| - 1] == '=';
      left := rest;
    }
  }

  lemma {:induction false} BeforeEqualsIs(s: string) returns (rest: string)
    requires '=' in s
    ensures s == BeforeEquals(s) + "=" + rest && '=' !in BeforeEquals(s)
  {
    if s[0] == '=' {
      rest := s[1..];
      assert s == "" + "=" + rest;
    } else {
      rest := BeforeEqualsIs(s[1..]);
      assert s == [s[0]] + s[1..];
    }
  }

  /** The line is the key, between blanks, an equals sign, and anything. */
  predicate DeclaresWith(line: string, key: string, pad: string, gap: string, rest: string) {
    line == pad + (key + gap + "=" + rest) && Blank(pad) && Blank(gap)
  }

  predicate IsKey(key: string) { key != "" && Trimmed(key) && '=' !in key && key[0] != '#' }

  lemma DeclaredKey(line: string, key: string, pad: string, gap: string, rest: string)
    requires IsKey(key) && DeclaresWith(line, key, pad, gap, rest)
    ensures KeyOf(line) == Some(key)
  {
    var before := key + gap;
    assert (before + "=" + rest)[0] == key[0] && before[0] == key[0];
    StripLeftPad(pad, before + "=" + rest);
    var left := StripRightStopsAt(before, rest);
    assert '=' !in before && (before + "=" + left)[|before|] == '=' && (before + "=" + left)[0] == key[0];
    BeforeEqualsSplits(before, left);
    StripLeftPad("", before);
    assert "" + before == before;
    StripRightPad(key, gap);
    hide StripLeft, StripRight, BeforeEquals, IsSpace;
  }

  lemma KeyIsDeclared(line: string, key: string) returns (pad: string, gap: string, rest: string)
    requires KeyOf(line) == Some(key)
    ensures IsKey(key) && DeclaresWith(line, key, pad, gap, rest)
  {
    var stripped, l := StripLeft(line), Strip(line);
    pad := StripLeftSplits(line);
    var end := StripRightSplits(stripped);
    var after := BeforeEqualsIs(l);
    gap := KeyPart(l, BeforeEquals(l), after);
    assert key == Strip(BeforeEquals(l)) && l[0] != '#';
    rest := after + end;
    Assembled(line, pad, stripped, l, end, key, gap, after);
    hide StripLeft, StripRight, Strip, IsSpace, BeforeEquals, KeyOf, Blank, Trimmed, IsKey;
    KeyPartIsKey(l, key, gap, after);
  }

  lemma KeyPart(l: string, before: string, after: string) returns (gap: string)
    requires l == before + "=" + after && Strip(before) != "" && (l != "" ==> !IsSpace(l[0]))
    ensures before == Strip(before) + gap && Blank(gap) && Trimmed(Strip(before))
  {
    var key := Strip(before);
    assert before != "" && before[0] == l[0];
    StripLeftPad("", before);
    assert "" + before == before;
    gap := StripRightSplits(before);
    hide StripLeft, StripRight, IsSpace;
    assert before == key + gap && key[0] == before[0];
  }

  lemma KeyPartIsKey(l: string, key: string, gap: string, after: string)
    requires l == key + gap + "=" + after && key != "" && Trimmed(key) && '=' !in key + gap && l[0] != '#'
    ensures IsKey(key)
  {
    assert l[0] == key[0];
    assert forall i :: 0 <= i < |key| ==> (key + gap)[i] == key[i];
  }

  lemma Assembled(line: string, pad: string, stripped: string, l: string, end: string, key: string, gap: string,
                  after: string)
    requires line == pad + stripped && stripped == l + end && l == key + gap + "=" + after
    ensures line == pad + (key + gap + "=" + (after + end))
  {
    assert l + end == key + gap + "=" + (after + end);
  }

  /** A line declares a key exactly if it is of that form. */
  lemma KeyOfIff(line: string, key: string)
    ensures KeyOf(line) == Some(key) <==>
            IsKey(key) && exists pad, gap, rest :: DeclaresWith(line, key, pad, gap, rest)
  {
    if KeyOf(line) == Some(key) {
      var pad, gap, rest := KeyIsDeclared(line, key);
    }
    if IsKey(key) && exists pad, gap, rest :: DeclaresWith(line, key, pad, gap, rest) {
      var pad, gap, rest :| DeclaresWith(line, key, pad, gap, rest);
      DeclaredKey(line, key, pad, gap, rest);
    }
    hide KeyOf, IsKey, DeclaresWith;
  }

  /** Writing a declaration and parsing it gives the key back, whatever the padding and the value. */
  lemma DeclarationParses(pad: string, key: string, gap: string, value: string, end: string)
    requires key != "" && Trimmed(key) && '=' !in key && key[0] != '#'
    requires Blank(pad) && Blank(gap) && Blank(end)
    requires value != "" ==> !IsSpace(value[|value| - 1])
    ensures KeyOf(pad + (key + gap + "=" + value + end)) == Some(key)
  {
    assert key + gap + "=" + value + end == key + gap + "=" + (value + end);
    DeclaredKey(pad + (key + gap + "=" + value + end), key, pad, gap, value + end);
  }

  lemma {:induction false} StripRightKeepsHead(s: string)
    requires s != "" && !IsSpace(s[0])
    ensures StripRight(s) != "" && StripRight(s)[0] == s[0]
  {
    if IsSpace(s[|s| - 1]) {
      StripRightKeepsHead(s[..|s| - 1]);
    }
  }

  /** A blank line or a comment declares nothing, even if the comment contains a declaration. */
  lemma CommentsDeclareNothing(pad: string, comment: string)
    requires Blank(pad)
    ensures KeyOf(pad) == None && KeyOf(pad + ("#" + comment)) == None
  {
    StripLeftPad(pad, "");
    assert pad + "" == pad;
    StripLeftPad(pad, "#" + comment);
    StripRightKeepsHead("#" + comment);
  }

  // ---- A passing check -------------------------------------------------------

  ghost predicate Referenced(files: seq<string>, name: string) {
    exists i :: 0 <= i < |files| && name in ScanText(files[i])
  }

  ghost predicate Documented(lines: seq<string>, name: string) {
    exists i :: 0 <= i < |lines| && KeyOf(lines[i]) == Some(name)
  }

  const RUNTIME_ONLY := {"INTERNAL_API_KEY", "ENVIRONMENT", "CONFIG_DIR"}

  /** The command fails if and only if `missing` is non-empty. */
  method CheckEnvExample(files: seq<string>, lines: seq<string>)
      returns (missing: set<string>, unreferenced: set<string>)
    ensures forall name :: name in missing <==> Referenced(files, name) && !Documented(lines, name)
    ensures forall name :: name in unreferenced <==>
      Documented(lines, name) && !Referenced(files, name) && name !in RUNTIME_ONLY
  {
    var referenced := ScanYamlVars(files);
    var documented := ParseEnvExample(lines);
    missing := referenced - documented;
    unreferenced := documented - referenced - RUNTIME_ONLY;
  }

  /** Every string scalar of the tree stands in the file's text. */
  ghost predicate StandsIn(n: Node, text: string) {
    match n
    case Mapping(es) => forall i :: 0 <= i < |es| ==> StandsIn(es[i].value, text)
    case Listing(items) => forall i :: 0 <= i < |items| ==> StandsIn(items[i], text)
    case Str(s) => exists i: nat :: StandsAt(s, text, i)
    case Scalar(_) => true
  }

  lemma {:induction false} ScanCoversTree(n: Node, text: string, name: string)
    requires StandsIn(n, text) && name in ReferencesOf(n)
    ensures name in ScanText(text)
  {
    match n
    case Mapping(es) =>
      var i := EntryReferring(es, name);
      ScanCoversTree(es[i].value, text, name);
    case Listing(items) =>
      var i := ItemReferring(items, name);
      ScanCoversTree(items[i], text, name);
    case Str(s) =>
      var i: nat :| StandsAt(s, text, i);
      ScanCoversScalar(s, text, i, name);
  }

  lemma {:induction false} EntryReferring(es: seq<Entry>, name: string) returns (i: nat)
    requires name in ReferencesOfEntries(es)
    ensures i < |es| && name in ReferencesOf(es[i].value)
  {
    if name in ReferencesOf(es[0].value) {
      i := 0;
    } else {
      i := EntryReferring(es[1..], name);
      i := i + 1;
    }
  }

  lemma {:induction false} ItemReferring(items: seq<Node>, name: string) returns (i: nat)
    requires name in ReferencesOfItems(items)
    ensures i < |items| && name in ReferencesOf(items[i])
  {
    if name in ReferencesOf(items[0]) {
      i := 0;
    } else {
      i := ItemReferring(items[1..], name);
      i := i + 1;
    }
  }

  /** If the check finds nothing missing and every documented key is set, phase 2 reports nothing
      for any two of the files layered. */
  lemma PassingCheckMeansResolved(base: seq<Entry>, overlay: seq<Entry>, files: seq<string>, fb: nat, fo: nat,
                                  lines: seq<string>, env: Env)
    requires fb < |files| && fo < |files|
    requires StandsIn(Mapping(base), files[fb]) && StandsIn(Mapping(overlay), files[fo])
    requires forall name :: Referenced(files, name) ==> Documented(lines, name)
    requires forall name :: Documented(lines, name) ==> name in env
    ensures Reports(Mapping(Merge(base, overlay)), env) == []
  {
    forall name | name in ReferencesOf(Mapping(base)) ensures name in env {
      ScanCoversTree(Mapping(base), files[fb], name);
      assert Referenced(files, name);
    }
    forall name | name in ReferencesOf(Mapping(overlay)) ensures name in env {
      ScanCoversTree(Mapping(overlay), files[fo], name);
      assert Referenced(files, name);
    }
    RaisesIffUnset(Mapping(base), env);
    RaisesIffUnset(Mapping(overlay), env);
    MergeReportsNoMore(base, overlay, env);
    var reports := ReportsOfEntries(Merge(base, overlay), env);
    assert multiset(reports) == multiset{};
    assert |multiset(reports)| == |reports|;
  }
}
