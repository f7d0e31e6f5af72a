/** The string operations of Python that the configuration code is built from. */
module Text {

  datatype Option<+T> = None | Some(value: T)

  /** `s.replace(pattern, with)`: occurrences are found left to right and do not overlap. */
  function Replace(s: string, pattern: string, with: string): string
    requires pattern != ""
    decreases |s|
  {
    if s == "" then ""
    else if pattern <= s then with + Replace(s[|pattern|..], pattern, with)
    else [s[0]] + Replace(s[1..], pattern, with)
  }

  predicate IsNameStart(c: char) { 'A' <= c <= 'Z' || c == '_' }

  predicate IsNameChar(c: char) { IsNameStart(c) || '0' <= c <= '9' }

  /** The names `[A-Z_][A-Z0-9_]*` that may stand between the braces of a reference. */
  predicate IsName(n: string) {
    n != "" && IsNameStart(n[0]) && forall i :: 0 <= i < |n| ==> IsNameChar(n[i])
  }

  function Reference(name: string): string { "${" + name + "}" }

  function NameRun(s: string): (n: nat)
    ensures n <= |s|
    ensures forall i :: 0 <= i < n ==> IsNameChar(s[i])
    ensures n < |s| ==> !IsNameChar(s[n])
  {
    if s != "" && IsNameChar(s[0]) then 1 + NameRun(s[1..]) else 0
  }

  /** What the reference expression matches at the head of `s`: the captured name, if any.
      The name is matched greedily; the closing brace is not a name character. */
  function MatchReference(s: string): Option<string> {
    if |s| > 2 && s[0] == '$' && s[1] == '{' && IsNameStart(s[2]) then
      var n := NameRun(s[2..]);
      if 2 + n < |s| && s[2 + n] == '}' then Some(s[2..2 + n]) else None
    else None
  }

  /** Greedy matching finds a name exactly when the text begins with that reference. */
  lemma MatchIsPrefix(s: string, name: string)
    ensures MatchReference(s) == Some(name) <==> IsName(name) && Reference(name) <= s
  {
    var ref := Reference(name);
    if IsName(name) && ref <= s {
      assert forall i :: 0 <= i < |name| ==> s[2 + i] == ref[2 + i] == name[i];
      assert s[2 + |name|] == ref[2 + |name|] == '}';
      var n := NameRun(s[2..]);
      assert forall i :: 0 <= i < |name| ==> IsNameChar(s[2..][i]);
      assert s[2..][|name|] == '}';
      assert s[0] == ref[0] && s[1] == ref[1] && s[2] == name[0];
      assert s[2..2 + n] == name;
    }
    if MatchReference(s) == Some(name) {
      var n := NameRun(s[2..]);
      assert forall i :: 0 <= i < n ==> name[i] == s[2..][i];
      assert s[..n + 3] == ref;
    }
  }

  /** Upper-case letters, digits that do not come first, and underscores. */
  lemma NameExamples()
    ensures IsName("A") && IsName("Z") && IsName("_") && IsName("DB_HOST1") && IsName("_09")
    ensures !IsName("") && !IsName("1A") && !IsName("a")
    ensures forall c :: c in "/:@[^`az -.$" ==> !IsName(['A', c])
  {
    forall c | c in "/:@[^`az -.$" ensures !IsName(['A', c]) {
      assert ['A', c][1] == c && !IsNameChar(c);
    }
  }

  predicate Free(s: string, c: char) { forall i :: 0 <= i < |s| ==> s[i] != c }

  /** A prefix without the pattern's first character is copied unchanged. */
  lemma {:induction false} ReplaceSkips(p: string, s: string, pattern: string, with: string)
    requires pattern != "" && Free(p, pattern[0])
    ensures Replace(p + s, pattern, with) == p + Replace(s, pattern, with)
  {
    if p == "" {
      assert p + s == s;
    } else {
      assert (p + s)[0] == p[0] && (p + s)[1..] == p[1..] + s;
      ReplaceSkips(p[1..], s, pattern, with);
    }
  }

  /** A pattern at the head of the text is the first occurrence replaced. */
  lemma ReplaceHits(s: string, pattern: string, with: string)
    requires pattern != ""
    ensures Replace(pattern + s, pattern, with) == with + Replace(s, pattern, with)
  {
  }

  /** `s.split(separator)`: one part more than there are separators. */
  function Split(s: string, separator: char): (parts: seq<string>)
    ensures parts != []
    ensures |parts| == 1 <==> Free(s, separator)
  {
    if s == "" then [""]
    else
      var rest := Split(s[1..], separator);
      if s[0] == separator then [""] + rest else [[s[0]] + rest[0]] + rest[1..]
  }

  lemma {:induction false} SplitOne(s: string, separator: char)
    requires Free(s, separator)
    ensures Split(s, separator) == [s]
  {
    if s != "" {
      SplitOne(s[1..], separator);
      assert [s[0]] + s[1..] == s;
    }
  }

  lemma {:induction false} SplitFirst(a: string, b: string, separator: char)
    requires Free(a, separator)
    ensures Split(a + [separator] + b, separator) == [a] + Split(b, separator)
    decreases a
  {
    var s := a + [separator] + b;
    if a == "" {
      assert s[1..] == b;
    } else {
      assert s[0] == a[0] && s[1..] == a[1..] + [separator] + b;
      SplitFirst(a[1..], b, separator);
      assert [a[0]] + a[1..] == a;
    }
  }

  lemma SplitJoined(a: string, b: string, separator: char)
    requires Free(a, separator) && Free(b, separator)
    ensures Split(a + [separator] + b, separator) == [a, b]
  {
    SplitFirst(a, b, separator);
    SplitOne(b, separator);
  }

  lemma {:induction false} SplitParts(s: string, separator: char)
    requires |Split(s, separator)| == 2
    ensures var parts := Split(s, separator);
      s == parts[0] + [separator] + parts[1] && Free(parts[0], separator) && Free(parts[1], separator)
  {
    var rest := Split(s[1..], separator);
    if s[0] == separator {
      SplitOne(s[1..], separator);
    } else {
      SplitParts(s[1..], separator);
      assert s == [s[0]] + s[1..];
    }
  }
}
