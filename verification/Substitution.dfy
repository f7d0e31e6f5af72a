/** `_substitute` on one string: three passes through a NUL-delimited sentinel, and the
    single left-to-right scan that they are meant to amount to. */
module Substitution {
  import opened Text

  type Env = map<string, string>

  /** The text produced and the names reported as unset, in the order they were reported. */
  datatype Resolved = Resolved(text: string, unset: seq<string>)

  const ESCAPE := "$$"
  const SENTINEL := "\0DOLLAR\0"

  function Prepend(p: string, r: Resolved): Resolved { r.(text := p + r.text) }

  /** The second pass, `_VAR_RE.sub(_resolve, work)`. */
  function ResolveReferences(s: string, env: Env): Resolved
    decreases |s|
  {
    if s == "" then Resolved("", [])
    else
      match MatchReference(s)
      case Some(name) =>
        var rest := ResolveReferences(s[|name| + 3..], env);
        if name in env then Prepend(env[name], rest)
        else Resolved(Reference(name) + rest.text, [name] + rest.unset)
      case None =>
        Prepend([s[0]], ResolveReferences(s[1..], env))
  }

  function SubstituteText(s: string, env: Env): Resolved {
    var work := ResolveReferences(Replace(s, ESCAPE, SENTINEL), env);
    Resolved(Replace(work.text, SENTINEL, "$"), work.unset)
  }

  // ---- The reference: one pass over the text -------------------------------

  datatype Token = Copy(c: char) | Dollar | Var(name: string)

  function NextToken(s: string): Token
    requires s != ""
  {
    if ESCAPE <= s then Dollar
    else
      match MatchReference(s)
      case Some(name) => Var(name)
      case None => Copy(s[0])
  }

  /** The number of characters a token stands for. */
  function Width(t: Token): nat {
    match t
    case Copy(_) => 1
    case Dollar => 2
    case Var(name) => |name| + 3
  }

  function Tokens(s: string): seq<Token>
    decreases |s|
  {
    if s == "" then []
    else var t := NextToken(s); [t] + Tokens(s[Width(t)..])
  }

  function Spell(t: Token, env: Env): string {
    match t
    case Copy(c) => [c]
    case Dollar => "$"
    case Var(name) => if name in env then env[name] else Reference(name)
  }

  function Render(ts: seq<Token>, env: Env): string {
    if ts == [] then "" else Spell(ts[0], env) + Render(ts[1..], env)
  }

  /** The names a text refers to, in order, with duplicates. */
  function References(ts: seq<Token>): seq<string> {
    if ts == [] then []
    else if ts[0].Var? then [ts[0].name] + References(ts[1..])
    else References(ts[1..])
  }

  function Unset(names: seq<string>, env: Env): seq<string> {
    if names == [] then []
    else if names[0] in env then Unset(names[1..], env)
    else [names[0]] + Unset(names[1..], env)
  }

  function UnsetIn(s: string, env: Env): seq<string> { Unset(References(Tokens(s)), env) }

  ghost predicate NulFreeEnv(env: Env) { forall name :: name in env ==> Free(env[name], '\0') }

  // ---- The passes amount to the scan ---------------------------------------

  lemma NoDollarNoMatch(s: string)
    ensures s != "" && s[0] != '$' ==> MatchReference(s) == None && !(ESCAPE <= s)
  {
  }

  /** Text without a dollar passes through the second pass unchanged. */
  lemma {:induction false} ResolveSkips(p: string, s: string, env: Env)
    requires Free(p, '$')
    ensures ResolveReferences(p + s, env) == Prepend(p, ResolveReferences(s, env))
  {
    NoDollarNoMatch(p + s);
    hide MatchReference;
    if p == "" {
      assert p + s == s;
    } else {
      assert (p + s)[0] == p[0] && (p + s)[1..] == p[1..] + s;
      ResolveSkips(p[1..], s, env);
    }
  }

  /** The first pass invents no plain text: a prefix without dollars and NULs was already there. */
  lemma {:induction false} FirstPassKeepsPrefix(p: string, s: string)
    requires Free(p, '$') && Free(p, '\0')
    requires p <= Replace(s, ESCAPE, SENTINEL)
    ensures p <= s
  {
    if p != "" {
      assert Replace(s, ESCAPE, SENTINEL)[0] == p[0];
      if ESCAPE <= s {
        assert false;
      }
      assert Replace(s, ESCAPE, SENTINEL)[1..] == Replace(s[1..], ESCAPE, SENTINEL);
      FirstPassKeepsPrefix(p[1..], s[1..]);
    }
  }

  /** A reference that starts with an unescaped dollar is matched after the first pass
      if and only if it was there before it. */
  lemma FirstPassKeepsMatch(s: string)
    requires s != "" && !(ESCAPE <= s)
    ensures var work := Replace(s, ESCAPE, SENTINEL);
            MatchReference(work) == MatchReference(s)
  {
    var work := Replace(s, ESCAPE, SENTINEL);
    ReplaceCopies(s, SENTINEL);
    hide MatchReference, Replace;
    if MatchReference(work).Some? {
      var name := MatchReference(work).value;
      MatchIsPrefix(work, name);
      FirstPassKeepsReference(s, name);
      MatchIsPrefix(s, name);
    }
    if MatchReference(s).Some? {
      var name := MatchReference(s).value;
      MatchIsPrefix(s, name);
      ReplacePastReference(name, s, SENTINEL);
      MatchIsPrefix(work, name);
    }
  }

  lemma FirstPassKeepsReference(s: string, name: string)
    requires s != "" && !(ESCAPE <= s) && IsName(name) && Reference(name) <= Replace(s, ESCAPE, SENTINEL)
    ensures Reference(name) <= s
  {
    var work := Replace(s, ESCAPE, SENTINEL);
    var tail := ReferenceParts(name, work);
    ReplaceCopies(s, SENTINEL);
    assert work[0] == '$' && s[0] == '$' && work[1..] == tail + work[|name| + 3..];
    assert Free(tail, '\0') by {
      assert forall i :: 0 <= i < |tail| ==> tail[i] == Reference(name)[i + 1];
    }
    hide Reference, IsName, Replace;
    FirstPassKeepsPrefix(tail, s[1..]);
    assert s == ['$'] + s[1..];
  }

  lemma ReferenceParts(name: string, s: string) returns (tail: string)
    requires IsName(name) && Reference(name) <= s
    ensures Free(tail, '$') && tail != "" && tail[0] == '{'
    ensures Reference(name) == ['$'] + tail && s == ['$'] + (tail + s[|name| + 3..])
  {
    var ref := Reference(name);
    tail := ref[1..];
    assert forall i :: 0 <= i < |ref| ==> s[i] == ref[i];
  }

  /** Whatever escapes are replaced by, an unescaped reference is passed over. */
  lemma ReplacePastReference(name: string, s: string, with: string)
    requires IsName(name) && Reference(name) <= s
    ensures Replace(s, ESCAPE, with) == Reference(name) + Replace(s[|name| + 3..], ESCAPE, with)
  {
    var tail := ReferenceParts(name, s);
    var rest := s[|name| + 3..];
    assert s[0] == '$' && s[1] == '{' && s[1..] == tail + rest && Free(tail, ESCAPE[0]);
    hide Reference, IsName, Free, Replace;
    ReplaceSkips(tail, rest, ESCAPE, with);
    ReplaceCopies(s, with);
    Regroup(['$'], tail, Replace(rest, ESCAPE, with));
  }

  lemma ReplaceCopies(s: string, with: string)
    requires s != "" && !(ESCAPE <= s)
    ensures Replace(s, ESCAPE, with) == [s[0]] + Replace(s[1..], ESCAPE, with)
  {
  }

  lemma Regroup<T>(a: seq<T>, b: seq<T>, c: seq<T>)
    ensures (a + b) + c == a + (b + c)
  {
  }

  // What reaches the third pass, with the escapes still told apart from the text around them.

  datatype Mark = Plain(c: char) | Esc

  function Plains(s: string): seq<Mark> { seq(|s|, i requires 0 <= i < |s| => Plain(s[i])) }

  function MarksOf(t: Token, env: Env): seq<Mark> { if t.Dollar? then [Esc] else Plains(Spell(t, env)) }

  function Marks(ts: seq<Token>, env: Env): seq<Mark> {
    if ts == [] then [] else MarksOf(ts[0], env) + Marks(ts[1..], env)
  }

  /** As the second pass leaves them. */
  function Flat(m: seq<Mark>): string {
    if m == [] then "" else (if m[0].Esc? then SENTINEL else [m[0].c]) + Flat(m[1..])
  }

  /** As they are meant. */
  function Meant(m: seq<Mark>): string {
    if m == [] then "" else (if m[0].Esc? then "$" else [m[0].c]) + Meant(m[1..])
  }

  lemma FlatCons(k: Mark, m: seq<Mark>)
    ensures Flat([k] + m) == (if k.Esc? then SENTINEL else [k.c]) + Flat(m)
    ensures Meant([k] + m) == (if k.Esc? then "$" else [k.c]) + Meant(m)
  {
  }

  lemma {:induction false} FlatPlains(s: string, m: seq<Mark>)
    ensures Flat(Plains(s) + m) == s + Flat(m) && Meant(Plains(s) + m) == s + Meant(m)
  {
    hide Flat, Meant;
    if s == "" {
      assert Plains(s) + m == m && s + Flat(m) == Flat(m) && s + Meant(m) == Meant(m);
    } else {
      FlatPlains(s[1..], m);
      FlatCons(Plain(s[0]), Plains(s[1..]) + m);
      assert Plains(s) + m == [Plain(s[0])] + (Plains(s[1..]) + m);
      assert s + Flat(m) == [s[0]] + (s[1..] + Flat(m)) && s + Meant(m) == [s[0]] + (s[1..] + Meant(m));
    }
  }

  lemma {:induction false} MeantIsRendered(ts: seq<Token>, env: Env)
    ensures Meant(Marks(ts, env)) == Render(ts, env)
  {
    hide Flat, Meant, Spell;
    if ts == [] {
      assert Meant([]) == "" by { MeantNothing(); }
    } else {
      MeantIsRendered(ts[1..], env);
      FlatCons(Esc, Marks(ts[1..], env));
      FlatPlains(Spell(ts[0], env), Marks(ts[1..], env));
      assert ts[0].Dollar? ==> Spell(ts[0], env) == "$" by { SpellDollar(env); }
    }
  }

  lemma MeantNothing()
    ensures Meant([]) == "" && Flat([]) == ""
  {
  }

  lemma SpellDollar(env: Env)
    ensures Spell(Dollar, env) == "$"
  {
  }

  lemma EscapeStep(s: string, env: Env)
    requires ESCAPE <= s
    ensures ResolveReferences(Replace(s, ESCAPE, SENTINEL), env)
         == Prepend(SENTINEL, ResolveReferences(Replace(s[2..], ESCAPE, SENTINEL), env))
  {
    ResolveSkips(SENTINEL, Replace(s[2..], ESCAPE, SENTINEL), env);
    hide ResolveReferences;
  }

  lemma CopyStep(s: string, env: Env)
    requires s != "" && NextToken(s).Copy?
    ensures ResolveReferences(Replace(s, ESCAPE, SENTINEL), env)
         == Prepend([s[0]], ResolveReferences(Replace(s[1..], ESCAPE, SENTINEL), env))
  {
    FirstPassKeepsMatch(s);
    assert Replace(s, ESCAPE, SENTINEL)[1..] == Replace(s[1..], ESCAPE, SENTINEL);
    hide MatchReference;
  }

  lemma ResolveReference(name: string, rest: string, env: Env)
    requires IsName(name)
    ensures ResolveReferences(Reference(name) + rest, env)
         == Resolved(Spell(Var(name), env) + ResolveReferences(rest, env).text,
                     (if name in env then [] else [name]) + ResolveReferences(rest, env).unset)
  {
    var s := Reference(name) + rest;
    MatchIsPrefix(s, name);
    assert s != "" && s[|name| + 3..] == rest;
    hide MatchReference, Reference, IsName;
  }

  lemma ReferenceStep(s: string, env: Env)
    requires s != "" && NextToken(s).Var?
    ensures var t := NextToken(s); var rest := ResolveReferences(Replace(s[Width(t)..], ESCAPE, SENTINEL), env);
      ResolveReferences(Replace(s, ESCAPE, SENTINEL), env)
      == Resolved(Spell(t, env) + rest.text, (if t.name in env then [] else [t.name]) + rest.unset)
  {
    var name := NextToken(s).name;
    MatchIsPrefix(s, name);
    ReplacePastReference(name, s, SENTINEL);
    ResolveReference(name, Replace(s[|name| + 3..], ESCAPE, SENTINEL), env);
    hide MatchReference, ResolveReferences, Replace, Spell, Reference;
  }

  /** The first two passes, on every text and in every environment: each token of the scan appears with
      its escapes still sentinels, and the report is that of the scan. */
  lemma {:induction false} TwoPassesAreMarks(s: string, env: Env)
    ensures ResolveReferences(Replace(s, ESCAPE, SENTINEL), env)
         == Resolved(Flat(Marks(Tokens(s), env)), UnsetIn(s, env))
    decreases |s|
  {
    if s != "" {
      hide MatchReference, ResolveReferences, Replace, Flat;
      var t := NextToken(s);
      WidthFits(s);
      match t {
        case Dollar => EscapeStep(s, env);
        case Copy(_) => CopyStep(s, env);
        case Var(_) => ReferenceStep(s, env);
      }
      hide NextToken;
      var rest := s[Width(t)..];
      TwoPassesAreMarks(rest, env);
      assert Tokens(s) == [t] + Tokens(rest);
      var m := Marks(Tokens(rest), env);
      assert Marks(Tokens(s), env) == MarksOf(t, env) + m;
      FlatCons(Esc, m);
      FlatPlains(Spell(t, env), m);
    }
  }

  /** The report never depends on the third pass: it is that of the scan on every text. */
  lemma ReportIsScan(s: string, env: Env)
    ensures SubstituteText(s, env).unset == UnsetIn(s, env)
  {
    TwoPassesAreMarks(s, env);
    hide ResolveReferences, Replace, Flat, UnsetIn;
  }

  /** Marks that begin by spelling a sentinel that is no escape; an escape may supply its last NUL. */
  predicate WrittenFirst(m: seq<Mark>) {
    |m| > 7 && m[..7] == Plains("\0DOLLAR") && (m[7] == Plain('\0') || m[7] == Esc)
  }

  /** They do so somewhere. */
  predicate Written(m: seq<Mark>) { m != [] && (WrittenFirst(m) || Written(m[1..])) }

  lemma FlatHead(m: seq<Mark>)
    ensures (Flat(m) != "" <==> m != [])
    ensures m != [] ==> Flat(m)[0] == if m[0].Esc? then '\0' else m[0].c
  {
  }

  /** The text from a plain mark on begins with a run of other characters only if plain marks spell it. */
  lemma {:induction false} SpelledByPlains(p: string, m: seq<Mark>)
    requires Free(p, '\0')
    ensures p <= Flat(m) <==> Plains(p) <= m
  {
    FlatHead(m);
    if p != "" && m != [] {
      var q := p[1..];
      assert Plains(p) == [Plain(p[0])] + Plains(q);
      if m[0] == Plain(p[0]) {
        SpelledByPlains(q, m[1..]);
        assert Flat(m)[1..] == Flat(m[1..]);
        assert p <= Flat(m) <==> q <= Flat(m)[1..];
        assert Plains(p) <= m <==> Plains(q) <= m[1..];
      }
    }
  }

  lemma SentinelParts(f: string)
    ensures SENTINEL <= f <==> |f| > 7 && f[0] == '\0' && "DOLLAR" <= f[1..] && f[7] == '\0'
  {
  }

  lemma WrittenParts(m: seq<Mark>)
    ensures WrittenFirst(m) <==>
            |m| > 7 && m[0] == Plain('\0') && Plains("DOLLAR") <= m[1..] && (m[7] == Plain('\0') || m[7] == Esc)
  {
    PlainsCons("\0DOLLAR");
    assert "\0DOLLAR"[1..] == "DOLLAR";
    var p := Plains("DOLLAR");
    if |m| > 7 {
      assert m[..7] == [m[0]] + m[1..7] && m[1..][..6] == m[1..7];
      if p <= m[1..] {
        assert m[1..][..6] == p;
      }
    }
    hide Plains;
  }

  lemma SentinelIffWritten(m: seq<Mark>)
    requires m != [] && m[0].Plain?
    ensures SENTINEL <= Flat(m) <==> WrittenFirst(m)
  {
    var p, rest := "DOLLAR", m[1..];
    SentinelParts(Flat(m));
    WrittenParts(m);
    FlatCons(m[0], rest);
    assert m == [m[0]] + rest;
    SpelledByPlains(p, rest);
    assert Flat(m)[0] == m[0].c && Flat(m)[1..] == Flat(rest);
    hide *;
    if Plains(p) <= rest {
      AfterPlains(p, rest);
    }
  }

  lemma AfterPlains(p: string, m: seq<Mark>)
    requires Plains(p) <= m
    ensures |Flat(m)| > |p| <==> |m| > |p|
    ensures |m| > |p| ==> Flat(m)[|p|] == if m[|p|].Esc? then '\0' else m[|p|].c
  {
    var rest := m[|p|..];
    assert m == Plains(p) + rest;
    FlatPlains(p, rest);
    FlatHead(rest);
    hide Flat;
  }

  /** The third pass takes the first sentinel it meets. It gives what is meant exactly if none is written. */
  lemma {:induction false} ThirdPassExact(m: seq<Mark>)
    ensures Replace(Flat(m), SENTINEL, "$") == Meant(m) <==> !Written(m)
  {
    if m == [] {
      MeantNothing();
    } else {
      var rest := m[1..];
      ThirdPassExact(rest);
      FlatCons(m[0], rest);
      assert m == [m[0]] + rest;
      PlainFirst(m);
      if m[0].Esc? {
        ReplaceHits(Flat(rest), SENTINEL, "$");
        assert Replace(Flat(m), SENTINEL, "$") == "$" + Replace(Flat(rest), SENTINEL, "$");
        assert Meant(m) == "$" + Meant(rest);
        SameTail('$', Replace(Flat(rest), SENTINEL, "$"), Meant(rest));
      } else {
        var c := m[0].c;
        SentinelIffWritten(m);
        ReplaceOnce(c, Flat(rest));
        assert Flat(m) == [c] + Flat(rest) && Meant(m) == [c] + Meant(rest);
        SameTail(c, Replace(Flat(rest), SENTINEL, "$"), Meant(rest));
      }
      hide Replace, Flat, Meant, WrittenFirst;
    }
  }

  lemma SameTail(c: char, a: string, b: string)
    ensures [c] + a == [c] + b <==> a == b
  {
    assert ([c] + a)[1..] == a && ([c] + b)[1..] == b;
  }

  lemma PlainFirst(m: seq<Mark>)
    ensures WrittenFirst(m) ==> m[0] == Plain('\0')
  {
  }

  /** One step of the third pass; a text that begins with a sentinel does not come out as it went in. */
  lemma ReplaceOnce(c: char, rest: string)
    ensures var s := [c] + rest;
      if SENTINEL <= s then forall t :: Replace(s, SENTINEL, "$") != [c] + t
      else Replace(s, SENTINEL, "$") == [c] + Replace(rest, SENTINEL, "$")
  {
    var s := [c] + rest;
    assert s[1..] == rest;
    if SENTINEL <= s {
      assert s[0] == SENTINEL[0];
      assert Replace(s, SENTINEL, "$")[0] == '$';
    }
  }

  /** Main theorem of the escape trick, for every text and environment: although the sentinel overlaps
      itself, the three passes give the text of the single scan if and only if neither the text nor a
      value spells a sentinel that is no escape; the report is that of the scan in any case. */
  lemma PassesAreScanIff(s: string, env: Env)
    ensures SubstituteText(s, env).text == Render(Tokens(s), env) <==> !Written(Marks(Tokens(s), env))
    ensures SubstituteText(s, env).unset == UnsetIn(s, env)
  {
    TwoPassesAreMarks(s, env);
    ThirdPassExact(Marks(Tokens(s), env));
    MeantIsRendered(Tokens(s), env);
    hide Tokens, Render, Marks, Flat, Meant, Written, UnsetIn, ResolveReferences;
  }

  predicate NulFreeMarks(m: seq<Mark>) { forall i :: 0 <= i < |m| ==> m[i] != Plain('\0') }

  lemma {:induction false} NulFreeNotWritten(m: seq<Mark>)
    requires NulFreeMarks(m)
    ensures !Written(m)
  {
    if m != [] {
      PlainFirst(m);
      NulFreeNotWritten(m[1..]);
    }
  }

  lemma MarksOfNulFree(s: string, env: Env)
    requires s != "" && Free(s, '\0') && NulFreeEnv(env)
    ensures NulFreeMarks(MarksOf(NextToken(s), env))
  {
    var t := NextToken(s);
    if t.Var? {
      MatchIsPrefix(s, t.name);
      hide MatchReference;
      assert Reference(t.name) <= s;
      assert forall i :: 0 <= i < |Reference(t.name)| ==> s[i] == Reference(t.name)[i];
      hide Reference, IsName;
    }
  }

  lemma {:induction false} MarksNulFree(s: string, env: Env)
    requires Free(s, '\0') && NulFreeEnv(env)
    ensures NulFreeMarks(Marks(Tokens(s), env))
    decreases |s|
  {
    if s != "" {
      MarksOfNulFree(s, env);
      WidthFits(s);
      hide NextToken, MarksOf;
      MarksNulFree(s[Width(NextToken(s))..], env);
      assert Tokens(s) == [NextToken(s)] + Tokens(s[Width(NextToken(s))..]);
    }
  }

  /** In particular on NUL-free text with NUL-free values, which the sentinel was chosen for. */
  lemma PassesAreScan(s: string, env: Env)
    requires Free(s, '\0') && NulFreeEnv(env)
    ensures SubstituteText(s, env) == Resolved(Render(Tokens(s), env), UnsetIn(s, env))
  {
    PassesAreScanIff(s, env);
    MarksNulFree(s, env);
    NulFreeNotWritten(Marks(Tokens(s), env));
    hide *;
  }

  lemma {:induction false} MarksOfPlainText(p: string, s: string, env: Env)
    requires Free(p, '$')
    ensures Marks(Tokens(p + s), env) == Plains(p) + Marks(Tokens(s), env)
    decreases |p|
  {
    var m := Marks(Tokens(s), env);
    if p == "" {
      assert p + s == s;
      assert Plains(p) + m == m;
    } else {
      assert p[0] != '$' && Free(p[1..], '$');
      hide *;
      MarksOfPlainText(p[1..], s, env);
      MarksOfCopy(p[0], p[1..] + s, env);
      PlainsCons(p);
      Regroup([p[0]], p[1..], s);
      Regroup([Plain(p[0])], Plains(p[1..]), m);
    }
  }

  lemma PlainsCons(p: string)
    requires p != ""
    ensures Plains(p) == [Plain(p[0])] + Plains(p[1..]) && p == [p[0]] + p[1..]
  {
  }

  lemma MarksOfCopy(c: char, rest: string, env: Env)
    requires c != '$'
    ensures Marks(Tokens([c] + rest), env) == [Plain(c)] + Marks(Tokens(rest), env)
  {
    TokensOfCopy(c, rest);
    MarksCons(Copy(c), Tokens(rest), env);
    assert MarksOf(Copy(c), env) == [Plain(c)];
    hide Tokens, Marks, MarksOf;
  }

  lemma TokensOfCopy(c: char, rest: string)
    requires c != '$'
    ensures Tokens([c] + rest) == [Copy(c)] + Tokens(rest)
  {
    NoDollarNoMatch([c] + rest);
    assert ([c] + rest)[1..] == rest;
    hide MatchReference;
  }

  lemma TokensOfEscape(rest: string)
    ensures Tokens(ESCAPE + rest) == [Dollar] + Tokens(rest)
  {
  }

  lemma MarksCons(t: Token, ts: seq<Token>, env: Env)
    ensures Marks([t] + ts, env) == MarksOf(t, env) + Marks(ts, env)
    ensures Marks([], env) == []
  {
  }

  lemma WrittenHere(s: string, env: Env, last: Mark)
    requires Marks(Tokens(s), env) == Plains("\0DOLLAR") + [last] && (last == Plain('\0') || last == Esc)
    ensures SubstituteText(s, env).text != Render(Tokens(s), env)
  {
    var m := Marks(Tokens(s), env);
    assert m[..7] == Plains("\0DOLLAR") && m[7] == last;
    assert Written(m);
    PassesAreScanIff(s, env);
  }

  /** Three ways to write a sentinel: outright, with an escape for its end, and with a variable in it. */
  lemma NulTextIsEaten(env: Env)
    ensures var s := "\0DOLLAR" + "\0"; SubstituteText(s, env).text != Render(Tokens(s), env)
    ensures var s := "\0DOLLAR" + "$$"; SubstituteText(s, env).text != Render(Tokens(s), env)
    ensures var s := "\0" + (Reference("X") + "\0");
      "X" in env && env["X"] == "DOLLAR" ==> SubstituteText(s, env).text != Render(Tokens(s), env)
  {
    var head, nul := "\0DOLLAR", "\0";
    OnlyMark(env);
    MarksOfPlainText(head, nul, env);
    WrittenHere(head + nul, env, Plain('\0'));
    MarksOfPlainText(head, ESCAPE, env);
    WrittenHere(head + ESCAPE, env, Esc);
    if "X" in env && env["X"] == "DOLLAR" {
      WrittenAround("X", env);
    }
    hide *;
  }

  lemma WrittenAround(name: string, env: Env)
    requires IsName(name) && name in env && env[name] == "DOLLAR"
    ensures var s := "\0" + (Reference(name) + "\0"); SubstituteText(s, env).text != Render(Tokens(s), env)
  {
    var nul := "\0";
    var tail := Reference(name) + nul;
    MarksAround(name, env);
    WrittenHere(nul + tail, env, Plain('\0'));
    hide *;
  }

  lemma MarksAround(name: string, env: Env)
    requires IsName(name) && name in env && env[name] == "DOLLAR"
    ensures Marks(Tokens("\0" + (Reference(name) + "\0")), env) == Plains("\0DOLLAR") + [Plain('\0')]
  {
    var nul, value := "\0", "DOLLAR";
    OnlyMark(env);
    ReferenceScans(name, nul, env);
    MarksCons(Var(name), Tokens(nul), env);
    assert MarksOf(Var(name), env) == Plains(value);
    MarksOfPlainText(nul, Reference(name) + nul, env);
    assert Plains(nul) == [Plain('\0')];
    PlainsCons("\0DOLLAR");
    assert "\0DOLLAR"[1..] == value;
    hide *;
    Regroup([Plain('\0')], Plains(value), [Plain('\0')]);
  }

  lemma OnlyMark(env: Env)
    ensures Marks(Tokens("\0"), env) == [Plain('\0')] && Marks(Tokens(ESCAPE), env) == [Esc]
  {
  }

  /** Text without dollars scans to itself. */
  lemma {:induction false} CopiesRender(s: string, env: Env)
    requires Free(s, '$')
    ensures Render(Tokens(s), env) == s && References(Tokens(s)) == []
  {
    if s != "" {
      CopiesRender(s[1..], env);
      TokensOfCopy(s[0], s[1..]);
      RenderCons(Copy(s[0]), Tokens(s[1..]), env);
      assert s == [s[0]] + s[1..];
      hide Tokens, Render, References;
    }
  }

  // ---- Escaping -------------------------------------------------------------

  /** Doubling every dollar. */
  function Escape(s: string): string {
    if s == "" then "" else (if s[0] == '$' then ESCAPE else [s[0]]) + Escape(s[1..])
  }

  lemma {:induction false} EscapeScans(s: string, env: Env)
    ensures Marks(Tokens(Escape(s)), env) == EscapedMarks(s) && References(Tokens(Escape(s))) == []
    ensures Render(Tokens(Escape(s)), env) == s
  {
    if s != "" {
      EscapeScans(s[1..], env);
      var rest := Escape(s[1..]);
      var t := if s[0] == '$' then Dollar else Copy(s[0]);
      if s[0] == '$' { TokensOfEscape(rest); } else { TokensOfCopy(s[0], rest); }
      assert Tokens(Escape(s)) == [t] + Tokens(rest);
      MarksCons(t, Tokens(rest), env);
      RenderCons(t, Tokens(rest), env);
      assert MarksOf(t, env) == [if s[0] == '$' then Esc else Plain(s[0])];
      assert Spell(t, env) == [s[0]] && s == [s[0]] + s[1..];
      EscapedCons(s);
      hide *;
    }
  }

  lemma EscapedCons(s: string)
    requires s != ""
    ensures EscapedMarks(s) == [if s[0] == '$' then Esc else Plain(s[0])] + EscapedMarks(s[1..])
  {
  }

  lemma RenderCons(t: Token, ts: seq<Token>, env: Env)
    ensures Render([t] + ts, env) == Spell(t, env) + Render(ts, env)
    ensures References([t] + ts) == (if t.Var? then [t.name] else []) + References(ts)
  {
  }

  function EscapedMarks(s: string): seq<Mark> {
    seq(|s|, i requires 0 <= i < |s| => if s[i] == '$' then Esc else Plain(s[i]))
  }

  /** Somewhere the text has the sentinel's first seven characters with a NUL or a dollar after them. */
  predicate SpellsSentinel(s: string) {
    s != "" && (SpelledFirst(s) || SpellsSentinel(s[1..]))
  }

  predicate SpelledFirst(s: string) {
    |s| > 7 && s[..7] == "\0DOLLAR" && (s[7] == '\0' || s[7] == '$')
  }

  lemma EscapedWrittenFirst(s: string)
    ensures WrittenFirst(EscapedMarks(s)) <==> SpelledFirst(s)
  {
    var m, head := EscapedMarks(s), "\0DOLLAR";
    if |s| > 7 {
      assert forall j :: 0 <= j < 7 ==> Plains(head)[j] == Plain(head[j]) && m[..7][j] == m[j] && s[..7][j] == s[j];
      if m[..7] == Plains(head) {
        assert forall j :: 0 <= j < 7 ==> m[..7][j] == Plain(head[j]);
        assert s[..7] == head;
      }
      if s[..7] == head {
        assert forall j :: 0 <= j < 7 ==> s[..7][j] == head[j] != '$';
        assert m[..7] == Plains(head);
      }
    }
  }

  lemma {:induction false} EscapedWritten(s: string)
    ensures Written(EscapedMarks(s)) <==> SpellsSentinel(s)
  {
    if s != "" {
      EscapedWritten(s[1..]);
      EscapedWrittenFirst(s);
      hide WrittenFirst, SpelledFirst;
      assert EscapedMarks(s)[1..] == EscapedMarks(s[1..]);
    }
  }

  /** Escaping is undone, in every environment and without a report, whatever references the text seems
      to contain, if and only if it does not spell the sentinel. */
  lemma EscapeRoundTripIff(s: string, env: Env)
    ensures SubstituteText(Escape(s), env) == Resolved(s, []) <==> !SpellsSentinel(s)
  {
    EscapeScans(s, env);
    PassesAreScanIff(Escape(s), env);
    EscapedWritten(s);
    hide SubstituteText, Written, SpellsSentinel, Render, Marks, Escape;
  }

  /** In particular any NUL-free text can be written down. */
  lemma EscapeRoundTrip(s: string, env: Env)
    requires Free(s, '\0')
    ensures SubstituteText(Escape(s), env) == Resolved(s, [])
  {
    EscapeRoundTripIff(s, env);
    NulFreeSpellsNothing(s);
  }

  lemma {:induction false} NulFreeSpellsNothing(s: string)
    requires Free(s, '\0')
    ensures !SpellsSentinel(s)
  {
    if s != "" {
      assert |s| > 7 ==> s[..7][0] == s[0];
      NulFreeSpellsNothing(s[1..]);
    }
  }

  // ---- Where a reference is resolved ---------------------------------------

  lemma {:induction false} RenderConcat(a: seq<Token>, b: seq<Token>, env: Env)
    ensures Render(a + b, env) == Render(a, env) + Render(b, env)
    ensures References(a + b) == References(a) + References(b)
    decreases |a|
  {
    if a == [] {
      assert a + b == b;
    } else {
      hide *;
      var t, rest := a[0], a[1..];
      assert a == [t] + rest;
      Regroup([t], rest, b);
      RenderCons(t, rest, env);
      RenderCons(t, rest + b, env);
      RenderConcat(rest, b, env);
      Regroup(Spell(t, env), Render(rest, env), Render(b, env));
      Regroup(if t.Var? then [t.name] else [], References(rest), References(b));
    }
  }

  lemma {:induction false} UnsetConcat(a: seq<string>, b: seq<string>, env: Env)
    ensures Unset(a + b, env) == Unset(a, env) + Unset(b, env)
  {
    if a == [] {
      assert a + b == b;
    } else {
      assert (a + b)[1..] == a[1..] + b;
      UnsetConcat(a[1..], b, env);
    }
  }

  /** A name is reported if and only if the text refers to it and the environment lacks it. */
  lemma {:induction false} UnsetMembers(names: seq<string>, env: Env, name: string)
    ensures name in Unset(names, env) <==> name in names && name !in env
  {
    if names != [] {
      UnsetMembers(names[1..], env, name);
      assert names == [names[0]] + names[1..];
    }
  }

  /** The length of the run of dollars that ends right before `i`. */
  function DollarsBefore(s: string, i: nat): (n: nat)
    requires i <= |s|
    ensures n <= i
  {
    if i == 0 || s[i - 1] != '$' then 0 else 1 + DollarsBefore(s, i - 1)
  }

  lemma {:induction false} WholeRun(s: string, i: nat)
    requires i <= |s|
    ensures 0 < i == DollarsBefore(s, i) ==> s[0] == '$'
  {
    if i > 1 {
      WholeRun(s, i - 1);
    }
  }

  lemma {:induction false} DollarsInTail(s: string, w: nat, i: nat)
    requires w <= i <= |s|
    ensures var n := DollarsBefore(s[w..], i - w);
      DollarsBefore(s, i) == if n < i - w then n else n + DollarsBefore(s, w)
    decreases i
  {
    if w < i {
      assert s[w..][i - w - 1] == s[i - 1];
      DollarsInTail(s, w, i - 1);
    }
  }

  /** Past a token the parity of the run is the same for every reference but one that the token escapes. */
  lemma ParityPastToken(s: string, i: nat)
    requires s != "" && i < |s| && s[i] == '$'
    ensures var w := Width(NextToken(s));
      0 < w <= |s| && (w <= i ==> DollarsBefore(s, i) % 2 == DollarsBefore(s[w..], i - w) % 2)
    ensures 0 < i < Width(NextToken(s)) ==> NextToken(s).Dollar? && DollarsBefore(s, i) == 1
  {
    var t := NextToken(s);
    var w := Width(t);
    WidthFits(s);
    InsideToken(s, t);
    if w <= i {
      DollarsInTail(s, w, i);
      DollarsAfterToken(s, t);
      WholeRun(s[w..], i - w);
      hide NextToken, DollarsBefore;
      assert w < |s| ==> s[w..][0] == s[w];
    }
  }

  lemma InsideToken(s: string, t: Token)
    requires s != "" && t == NextToken(s)
    ensures Width(t) <= |s| && forall k :: 0 < k < Width(t) && s[k] == '$' ==> t.Dollar? && k == 1
    ensures t.Dollar? ==> DollarsBefore(s, 1) == 1
  {
    WidthFits(s);
    assert t.Dollar? ==> s[0] == '$' && Width(t) == 2;
    assert t.Copy? ==> Width(t) == 1;
    if t.Dollar? { FirstDollar(s); }
    if t.Var? {
      MatchIsPrefix(s, t.name);
      assert IsName(t.name) && Reference(t.name) <= s && Width(t) == |t.name| + 3;
      hide *;
      ReferenceInside(s, t.name);
    }
  }

  lemma FirstDollar(s: string)
    requires s != "" && s[0] == '$'
    ensures DollarsBefore(s, 1) == 1
  {
  }

  lemma ReferenceInside(s: string, name: string)
    requires IsName(name) && Reference(name) <= s
    ensures |s| >= |name| + 3 && forall k :: 0 < k < |name| + 3 ==> s[k] != '$'
  {
  }

  lemma DollarsAfterToken(s: string, t: Token)
    requires s != "" && t == NextToken(s) && Width(t) <= |s|
    ensures DollarsBefore(s, Width(t)) == if t.Dollar? then 2 else if t == Copy('$') then 1 else 0
    ensures t == Copy('$') && |s| > 1 ==> s[1] != '$'
  {
  }

  lemma ParityAtSeam(a: string)
    requires a != "" && DollarsBefore(a, |a|) % 2 == 0
    ensures var w := Width(NextToken(a));
      0 < w <= |a| && DollarsBefore(a[w..], |a| - w) % 2 == 0 && a != "$"
  {
    hide *;
    var w := Width(NextToken(a));
    TokenAtSeam(a);
    DollarsInTail(a, w, |a|);
    WholeRun(a[w..], |a| - w);
  }

  lemma TokenAtSeam(a: string)
    requires a != ""
    ensures var w := Width(NextToken(a));
      0 < w <= |a| && (DollarsBefore(a, w) in {0, 2}
          || (w == 1 && DollarsBefore(a, w) == 1 && (|a| > 1 ==> a[1..][0] != '$')))
    ensures a == "$" ==> DollarsBefore(a, |a|) == 1
  {
    var t := NextToken(a);
    WidthFits(a);
    DollarsAfterToken(a, t);
    if a == "$" { OneDollar(a); }
    assert Width(t) > 0 && (t.Copy? ==> Width(t) == 1);
    hide *;
  }

  lemma OneDollar(a: string)
    requires a == "$"
    ensures DollarsBefore(a, |a|) == 1
  {
  }

  /** Two texts scan independently of each other when neither an escape nor a reference
      can straddle the seam. */
  lemma {:induction false} ScanConcat(a: string, b: string)
    requires DollarsBefore(a, |a|) % 2 == 0
    requires b != "" ==> b[0] == '$'
    ensures Tokens(a + b) == Tokens(a) + Tokens(b)
    decreases |a|
  {
    if a == "" {
      assert a + b == b && Tokens(a) == [];
      hide *;
    } else {
      var t := NextToken(a);
      ParityAtSeam(a);
      SeamKeepsToken(a, b);
      TokensStep(a, t);
      TokensStep(a + b, t);
      hide *;
      var rest := a[Width(t)..];
      DropFirst(a, b, Width(t));
      assert |rest| == |a| - Width(t);
      ScanConcat(rest, b);
      Regroup([t], Tokens(rest), Tokens(b));
    }
  }

  lemma DropFirst(a: string, b: string, k: nat)
    requires k <= |a|
    ensures (a + b)[k..] == a[k..] + b
  {
  }

  lemma TokensStep(s: string, t: Token)
    requires s != "" && t == NextToken(s)
    ensures 1 <= Width(t) <= |s| && Tokens(s) == [t] + Tokens(s[Width(t)..])
  {
  }

  lemma WidthFits(s: string)
    requires s != ""
    ensures Width(NextToken(s)) <= |s|
  {
  }

  lemma SeamKeepsToken(a: string, b: string)
    requires a != "" && a != "$" && (b != "" ==> b[0] == '$')
    ensures NextToken(a + b) == NextToken(a)
  {
    SeamKeepsMatch(a, b);
    assert (a + b)[0] == a[0];
    if |a| > 1 {
      assert (a + b)[1] == a[1];
    } else {
      assert a[0] != '$';
    }
    assert ESCAPE <= a + b <==> ESCAPE <= a;
  }

  lemma SeamKeepsMatch(a: string, b: string)
    requires a != "" && (b != "" ==> b[0] == '$')
    ensures MatchReference(a + b) == MatchReference(a)
  {
    if MatchReference(a + b).Some? {
      var name := MatchReference(a + b).value;
      MatchIsPrefix(a + b, name);
      var ref := Reference(name);
      assert forall i :: 1 <= i < |ref| ==> ref[i] != '$';
      var seam := if |a| < |ref| then |a| else 0;
      assert (a + b)[seam] == ref[seam];
      assert ref <= a;
      MatchIsPrefix(a, name);
    }
    if MatchReference(a).Some? {
      MatchIsPrefix(a, MatchReference(a).value);
      MatchIsPrefix(a + b, MatchReference(a).value);
    }
  }

  /** After an even number of dollars a reference resolves, and what stands around it as it would alone. */
  lemma ScanAround(before: string, name: string, after: string, env: Env)
    requires IsName(name) && DollarsBefore(before, |before|) % 2 == 0
    ensures Render(Tokens(before + (Reference(name) + after)), env)
         == Render(Tokens(before), env) + (Spell(Var(name), env) + Render(Tokens(after), env))
    ensures UnsetIn(before + (Reference(name) + after), env)
         == UnsetIn(before, env) + ((if name in env then [] else [name]) + UnsetIn(after, env))
  {
    var tail := Reference(name) + after;
    ReferenceScans(name, after, env);
    hide *;
    ScanConcat(before, tail);
    ScansJoin(before, tail, env);
  }

  lemma ScansJoin(a: string, b: string, env: Env)
    requires Tokens(a + b) == Tokens(a) + Tokens(b)
    ensures Render(Tokens(a + b), env) == Render(Tokens(a), env) + Render(Tokens(b), env)
    ensures UnsetIn(a + b, env) == UnsetIn(a, env) + UnsetIn(b, env)
  {
    RenderConcat(Tokens(a), Tokens(b), env);
    UnsetConcat(References(Tokens(a)), References(Tokens(b)), env);
    hide Render, References, Unset, Tokens;
  }

  /** An unset reference stays as it is written, and is reported between the reports of the two sides. */
  lemma UnsetReferenceStays(before: string, name: string, after: string, env: Env)
    requires IsName(name) && name !in env && DollarsBefore(before, |before|) % 2 == 0
    ensures Render(Tokens(before + ("${" + name + "}" + after)), env)
         == Render(Tokens(before), env) + ("${" + name + "}" + Render(Tokens(after), env))
    ensures SubstituteText(before + ("${" + name + "}" + after), env).unset
         == UnsetIn(before, env) + ([name] + UnsetIn(after, env))
  {
    assert Spell(Var(name), env) == "${" + name + "}" == Reference(name);
    hide *;
    ScanAround(before, name, after, env);
    ReportIsScan(before + (Reference(name) + after), env);
  }

  /** After an odd number it does not: the last of them escapes it, and it stays as it is written. */
  lemma ScanAroundEscaped(before: string, name: string, after: string, env: Env)
    requires IsName(name) && DollarsBefore(before, |before|) % 2 == 1
    ensures Render(Tokens(before + (Reference(name) + after)), env)
         == Render(Tokens(before[..|before| - 1]), env) + (Reference(name) + Render(Tokens(after), env))
    ensures UnsetIn(before + (Reference(name) + after), env)
         == UnsetIn(before[..|before| - 1], env) + UnsetIn(after, env)
  {
    var init := before[..|before| - 1];
    var tail := EscapedParts(before, name, after);
    hide *;
    var rest := tail + after;
    TokensOfEscape(rest);
    PlainScans(tail, after, env);
    RenderCons(Dollar, Tokens(rest), env);
    SpellDollar(env);
    ScanConcat(init, ESCAPE + rest);
    ScansJoin(init, ESCAPE + rest, env);
    UnsetOfEscape(rest, env);
    Regroup("$", tail, Render(Tokens(after), env));
  }

  lemma EscapedParts(before: string, name: string, after: string) returns (tail: string)
    requires IsName(name) && DollarsBefore(before, |before|) % 2 == 1
    ensures Free(tail, '$') && Reference(name) == "$" + tail
    ensures var init := before[..|before| - 1];
      before + (Reference(name) + after) == init + (ESCAPE + (tail + after))
      && (ESCAPE + (tail + after))[0] == '$' && DollarsBefore(init, |init|) % 2 == 0
  {
    var init, ref := before[..|before| - 1], Reference(name);
    tail := ref[1..];
    assert forall i :: 0 <= i < |ref| ==> ref[i] == (ref + "")[i];
    assert ref[0] == '$' && Free(tail, '$');
    DollarsInPrefix(init, before, |init|);
    assert DollarsBefore(before, |before|) == 1 + DollarsBefore(before, |before| - 1);
    assert before == init + "$" && ref == "$" + tail;
    hide *;
    Regroup("$", tail, after);
    Regroup("$", "$", tail + after);
    Regroup(init, "$", ref + after);
    assert "$" + "$" == ESCAPE;
  }

  lemma {:induction false} DollarsInPrefix(s: string, text: string, p: nat)
    requires s <= text && p <= |s|
    ensures DollarsBefore(text, p) == DollarsBefore(s, p)
    decreases p
  {
    if p > 0 {
      DollarsInPrefix(s, text, p - 1);
    }
  }

  lemma UnsetOfEscape(s: string, env: Env)
    ensures UnsetIn(ESCAPE + s, env) == UnsetIn(s, env)
  {
  }

  lemma {:induction false} PlainScans(p: string, s: string, env: Env)
    requires Free(p, '$')
    ensures Render(Tokens(p + s), env) == p + Render(Tokens(s), env)
      && References(Tokens(p + s)) == References(Tokens(s))
    ensures UnsetIn(p + s, env) == UnsetIn(s, env)
    decreases |p|
  {
    if p == "" {
      assert p + s == s;
    } else {
      var rest := p[1..] + s;
      assert p[0] != '$' && Free(p[1..], '$') && p == [p[0]] + p[1..];
      PlainScans(p[1..], s, env);
      TokensOfCopy(p[0], rest);
      RenderCons(Copy(p[0]), Tokens(rest), env);
      hide Tokens, Render, References, Unset, Free;
      Regroup([p[0]], p[1..], s);
      Regroup([p[0]], p[1..], Render(Tokens(s), env));
      assert [] + References(Tokens(rest)) == References(Tokens(rest));
    }
  }

  /** A value is inserted as it stands, even when it looks like an escape or a reference: what stands
      around a reference resolves as it would alone. The text is so exactly if no sentinel is written,
      the report in any case. */
  lemma ValueNotRescannedIff(before: string, name: string, after: string, env: Env)
    requires IsName(name) && name in env && DollarsBefore(before, |before|) % 2 == 0
    ensures var s := before + (Reference(name) + after);
      SubstituteText(s, env).text == Render(Tokens(before), env) + (env[name] + Render(Tokens(after), env))
      <==> !Written(Marks(Tokens(s), env))
    ensures SubstituteText(before + (Reference(name) + after), env).unset
         == SubstituteText(before, env).unset + SubstituteText(after, env).unset
  {
    var s := before + (Reference(name) + after);
    hide *;
    ScanAroundSet(before, name, after, env);
    PassesAreScanIff(s, env);
    ReportIsScan(before, env);
    ReportIsScan(after, env);
  }

  lemma ScanAroundSet(before: string, name: string, after: string, env: Env)
    requires IsName(name) && name in env && DollarsBefore(before, |before|) % 2 == 0
    ensures Render(Tokens(before + (Reference(name) + after)), env)
         == Render(Tokens(before), env) + (env[name] + Render(Tokens(after), env))
    ensures UnsetIn(before + (Reference(name) + after), env) == UnsetIn(before, env) + UnsetIn(after, env)
  {
    assert Spell(Var(name), env) == env[name];
    hide *;
    ScanAround(before, name, after, env);
    assert [] + UnsetIn(after, env) == UnsetIn(after, env);
  }

  lemma NulFreeAround(before: string, name: string, after: string)
    requires IsName(name) && Free(before, '\0') && Free(after, '\0')
    ensures Free(before + (Reference(name) + after), '\0')
  {
  }

  /** In particular among NUL-free text and values. */
  lemma ValueNotRescanned(before: string, name: string, after: string, env: Env)
    requires IsName(name) && name in env && DollarsBefore(before, |before|) % 2 == 0
    requires Free(before, '\0') && Free(after, '\0') && NulFreeEnv(env)
    ensures SubstituteText(before + (Reference(name) + after), env)
         == Resolved(SubstituteText(before, env).text + (env[name] + SubstituteText(after, env).text),
                     SubstituteText(before, env).unset + SubstituteText(after, env).unset)
  {
    var s := before + (Reference(name) + after);
    NulFreeAround(before, name, after);
    hide *;
    PassesAreScan(s, env);
    PassesAreScan(before, env);
    PassesAreScan(after, env);
    ScanAroundSet(before, name, after, env);
  }

  lemma ReferenceScans(name: string, after: string, env: Env)
    requires IsName(name)
    ensures (Reference(name) + after)[0] == '$'
    ensures Tokens(Reference(name) + after) == [Var(name)] + Tokens(after)
    ensures Render(Tokens(Reference(name) + after), env) == Spell(Var(name), env) + Render(Tokens(after), env)
    ensures UnsetIn(Reference(name) + after, env) == (if name in env then [] else [name]) + UnsetIn(after, env)
  {
    var tail := Reference(name) + after;
    assert tail[|name| + 3..] == after && Reference(name) <= tail;
    assert tail[0] == '$' && tail[1] == '{';
    MatchIsPrefix(tail, name);
    hide MatchReference, Reference, IsName;
    TokensStep(tail, Var(name));
    RenderCons(Var(name), Tokens(after), env);
    hide *;
    UnsetConcat([name], References(Tokens(after)), env);
    UnsetOne(name, env);
  }

  lemma UnsetOne(name: string, env: Env)
    ensures Unset([name], env) == if name in env then [] else [name]
  {
  }
}
