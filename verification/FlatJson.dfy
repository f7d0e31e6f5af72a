/** The part of JSON that a signed context is written in: one object whose values are strings or
    lists of strings, as `json.dumps` prints it (ASCII only; section 7 of RFC 8259). */
module FlatJson {
  import opened Text

  /** The code point of a character in a Python string, which may be a lone surrogate. */
  type Code = c: int | 0 <= c < 0x110000

  type PyText = seq<Code>

  function Codes(s: string): (t: PyText)
    ensures |t| == |s| && forall i :: 0 <= i < |s| ==> t[i] == s[i] as int
  {
    seq(|s|, i requires 0 <= i < |s| => s[i] as int)
  }

  datatype Value = Str(text: PyText) | List(items: seq<PyText>)

  datatype Member = Member(key: PyText, value: Value)

  // ---- Printing --------------------------------------------------------------

  function HexDigit(d: nat): char
    requires d < 16
  {
    if d < 10 then '0' + d as char else 'a' + (d - 10) as char
  }

  function UnicodeEscape(n: nat): string
    requires n < 0x10000
  {
    ['\\', 'u', HexDigit(n / 4096), HexDigit(n / 256 % 16), HexDigit(n / 16 % 16), HexDigit(n % 16)]
  }

  function High(n: nat): nat
    requires 0x10000 <= n < 0x110000
  {
    0xd800 + (n - 0x10000) / 1024
  }

  function Low(n: nat): nat
    requires 0x10000 <= n < 0x110000
  {
    0xdc00 + (n - 0x10000) % 1024
  }

  function EscapeChar(c: Code): string {
    if c == '"' as int then ['\\', '"']
    else if c == '\\' as int then ['\\', '\\']
    else if c == '\n' as int then ['\\', 'n']
    else if c == '\r' as int then ['\\', 'r']
    else if c == '\t' as int then ['\\', 't']
    else if c == 0x0c then ['\\', 'f']
    else if c == 0x08 then ['\\', 'b']
    else if 0x20 <= c < 0x7f then [c as char]
    else if c < 0x10000 then UnicodeEscape(c)
    else UnicodeEscape(High(c)) + UnicodeEscape(Low(c))
  }

  // Every printer takes the text that follows.

  function PrintChars(s: PyText, after: string): string {
    if s == [] then ['"'] + after else EscapeChar(s[0]) + PrintChars(s[1..], after)
  }

  function PrintString(s: PyText, after: string): string { ['"'] + PrintChars(s, after) }

  function PrintItems(items: seq<PyText>, after: string): string
    requires items != []
  {
    PrintString(items[0], if |items| == 1 then [']'] + after else [',', ' '] + PrintItems(items[1..], after))
  }

  function PrintValue(v: Value, after: string): string {
    match v
    case Str(text) => PrintString(text, after)
    case List(items) => if items == [] then ['[', ']'] + after else ['['] + PrintItems(items, after)
  }

  function PrintMember(m: Member, after: string): string {
    PrintString(m.key, [':', ' '] + PrintValue(m.value, after))
  }

  function PrintMembers(ms: seq<Member>, after: string): string
    requires ms != []
  {
    PrintMember(ms[0], if |ms| == 1 then ['}'] + after else [',', ' '] + PrintMembers(ms[1..], after))
  }

  function Print(ms: seq<Member>): string { if ms == [] then ['{', '}'] else ['{'] + PrintMembers(ms, "") }

  // ---- Parsing ---------------------------------------------------------------

  datatype Parsed<T> = Parsed(value: T, rest: string)

  function HexValue(c: char): Option<nat> {
    if '0' <= c <= '9' then Some((c - '0') as nat)
    else if 'a' <= c <= 'f' then Some((c - 'a') as nat + 10)
    else if 'A' <= c <= 'F' then Some((c - 'A') as nat + 10)
    else None
  }

  /** The code of a `\uXXXX` escape at the head of the text. */
  function UnicodeAt(s: string): (n: Option<nat>)
    ensures n.Some? ==> n.value < 0x10000 && |s| >= 6
  {
    if |s| < 6 || s[0] != '\\' || s[1] != 'u' then None
    else
      match (HexValue(s[2]), HexValue(s[3]), HexValue(s[4]), HexValue(s[5]))
      case (Some(a), Some(b), Some(c), Some(d)) =>
        HexBounds(s[2]); HexBounds(s[3]); HexBounds(s[4]); HexBounds(s[5]);
        Some(a * 4096 + b * 256 + c * 16 + d)
      case _ => None
  }

  lemma HexBounds(c: char)
    ensures HexValue(c).Some? ==> HexValue(c).value < 16
  {
  }

  datatype Scanned = Scanned(c: Code, width: nat)

  predicate IsHigh(c: int) { 0xd800 <= c < 0xdc00 }

  predicate IsLow(c: int) { 0xdc00 <= c < 0xe000 }

  function Join(high: int, low: int): Code
    requires IsHigh(high) && IsLow(low)
  {
    0x10000 + (high - 0xd800) * 1024 + (low - 0xdc00)
  }

  /** The character that the text begins with, which may be written as one or two escapes. */
  function NextChar(s: string): (r: Option<Scanned>)
    ensures r.Some? ==> 1 <= r.value.width <= |s|
  {
    if s == "" || s[0] < ' ' then None
    else if s[0] != '\\' then Some(Scanned(s[0] as int, 1))
    else if |s| < 2 then None
    else if s[1] == '"' || s[1] == '\\' || s[1] == '/' then Some(Scanned(s[1] as int, 2))
    else if s[1] == 'n' then Some(Scanned('\n' as int, 2))
    else if s[1] == 'r' then Some(Scanned('\r' as int, 2))
    else if s[1] == 't' then Some(Scanned('\t' as int, 2))
    else if s[1] == 'f' then Some(Scanned(0x0c, 2))
    else if s[1] == 'b' then Some(Scanned(0x08, 2))
    else
      match UnicodeAt(s)
      case None => None
      case Some(n) =>
        if IsHigh(n) && LowAt(s[6..]).Some? then Some(Scanned(Join(n, LowAt(s[6..]).value), 12))
        else Some(Scanned(n, 6))
  }

  /** A low surrogate's escape at the head of the text. */
  function LowAt(s: string): (n: Option<int>)
    ensures n.Some? ==> IsLow(n.value) && |s| >= 6
  {
    match UnicodeAt(s) case Some(n) => (if IsLow(n) then Some(n) else None) case None => None
  }

  function ParseChars(s: string): (r: Option<Parsed<PyText>>)
    ensures r.Some? ==> |r.value.rest| < |s|
    decreases |s|
  {
    if s == "" then None
    else if s[0] == '"' then Some(Parsed([], s[1..]))
    else
      match NextChar(s)
      case None => None
      case Some(next) =>
        match ParseChars(s[next.width..])
        case Some(more) => Some(Parsed([next.c] + more.value, more.rest))
        case None => None
  }

  function ParseString(s: string): (r: Option<Parsed<PyText>>)
    ensures r.Some? ==> |r.value.rest| < |s|
  {
    if s != "" && s[0] == '"' then ParseChars(s[1..]) else None
  }

  function SkipSpace(s: string): (r: string)
    ensures |r| <= |s|
  {
    if s != "" && s[0] in " \t\n\r" then SkipSpace(s[1..]) else s
  }

  /** The items up to and including the closing bracket. */
  function ParseItems(s: string): (r: Option<Parsed<seq<PyText>>>)
    ensures r.Some? ==> |r.value.rest| < |s|
    decreases |s|
  {
    match ParseString(s)
    case None => None
    case Some(first) =>
      var next := SkipSpace(first.rest);
      if next == "" then None
      else if next[0] == ']' then Some(Parsed([first.value], next[1..]))
      else if next[0] != ',' then None
      else match ParseItems(SkipSpace(next[1..]))
           case Some(more) => Some(Parsed([first.value] + more.value, more.rest))
           case None => None
  }

  function ParseValue(s: string): (r: Option<Parsed<Value>>)
    ensures r.Some? ==> |r.value.rest| < |s|
  {
    if s != "" && s[0] == '[' then
      var inner := SkipSpace(s[1..]);
      if inner != "" && inner[0] == ']' then Some(Parsed(List([]), inner[1..]))
      else match ParseItems(inner)
           case Some(p) => Some(Parsed(List(p.value), p.rest))
           case None => None
    else
      match ParseString(s)
      case Some(p) => Some(Parsed(Str(p.value), p.rest))
      case None => None
  }

  /** A key, a colon and a value, and the text after them. */
  function ParseMember(s: string): (r: Option<Parsed<Member>>)
    ensures r.Some? ==> |r.value.rest| < |s|
  {
    match ParseString(s)
    case None => None
    case Some(key) =>
      var colon := SkipSpace(key.rest);
      if colon == "" || colon[0] != ':' then None
      else match ParseValue(SkipSpace(colon[1..]))
           case Some(v) => Some(Parsed(Member(key.value, v.value), v.rest))
           case None => None
  }

  function ParseMembers(s: string): (r: Option<Parsed<seq<Member>>>)
    ensures r.Some? ==> |r.value.rest| < |s|
    decreases |s|
  {
    match ParseMember(s)
    case None => None
    case Some(first) =>
      var next := SkipSpace(first.rest);
      if next == "" then None
      else if next[0] == '}' then Some(Parsed([first.value], next[1..]))
      else if next[0] != ',' then None
      else match ParseMembers(SkipSpace(next[1..]))
           case Some(more) => Some(Parsed([first.value] + more.value, more.rest))
           case None => None
  }

  function Parse(s: string): Option<seq<Member>> {
    var start := SkipSpace(s);
    if start == "" || start[0] != '{' then None
    else
      var inner := SkipSpace(start[1..]);
      if inner != "" && inner[0] == '}' then (if SkipSpace(inner[1..]) == "" then Some([]) else None)
      else match ParseMembers(inner)
           case Some(p) => if SkipSpace(p.rest) == "" then Some(p.value) else None
           case None => None
  }

  // ---- Parsing undoes printing ----------------------------------------------

  lemma HexRoundTrip(d: nat)
    requires d < 16
    ensures HexValue(HexDigit(d)) == Some(d)
  {
  }

  lemma FourDigits(n: nat)
    requires n < 0x10000
    ensures n / 4096 < 16
    ensures n == n / 4096 * 4096 + n / 256 % 16 * 256 + n / 16 % 16 * 16 + n % 16
  {
    var a := n / 16;
    var b := a / 16;
    assert n / 256 == b && n / 4096 == b / 16;
    assert n == a * 16 + n % 16 && a == b * 16 + a % 16 && b == b / 16 * 16 + b % 16;
  }

  lemma UnicodeRoundTrip(n: nat, after: string)
    requires n < 0x10000
    ensures UnicodeAt(UnicodeEscape(n) + after) == Some(n)
  {
    FourDigits(n);
    var a, b, c, d := n / 4096, n / 256 % 16, n / 16 % 16, n % 16;
    HexRoundTrip(a);
    HexRoundTrip(b);
    HexRoundTrip(c);
    HexRoundTrip(d);
    var s := UnicodeEscape(n) + after;
    assert s[..6] == ['\\', 'u', HexDigit(a), HexDigit(b), HexDigit(c), HexDigit(d)];
    assert s[0] == '\\' && s[1] == 'u' && s[2] == HexDigit(a) && s[3] == HexDigit(b) && s[4] == HexDigit(c)
      && s[5] == HexDigit(d);
    hide HexDigit, HexValue, UnicodeEscape;
  }

  /** What comes back: a high surrogate directly before a low one is read as the character they encode. */
  function Joined(s: PyText): (t: PyText)
    ensures |t| <= |s|
  {
    if s == [] then []
    else if |s| > 1 && IsHigh(s[0]) && IsLow(s[1]) then [Join(s[0], s[1])] + Joined(s[2..])
    else [s[0]] + Joined(s[1..])
  }

  predicate PairFree(s: PyText) { forall i :: 0 <= i < |s| - 1 ==> !(IsHigh(s[i]) && IsLow(s[i + 1])) }

  lemma {:induction false} JoinedIff(s: PyText)
    ensures Joined(s) == s <==> PairFree(s)
    ensures !PairFree(s) ==> |Joined(s)| < |s|
  {
    if s != [] && !(|s| > 1 && IsHigh(s[0]) && IsLow(s[1])) {
      var rest := s[1..];
      JoinedIff(rest);
      assert s == [s[0]] + rest && Joined(s)[1..] == Joined(rest);
      assert forall i :: 0 <= i < |rest| ==> rest[i] == s[i + 1];
      if PairFree(rest) {
        forall i | 0 <= i < |s| - 1 ensures !(IsHigh(s[i]) && IsLow(s[i + 1])) {
          if i > 0 { assert !(IsHigh(rest[i - 1]) && IsLow(rest[i])); }
        }
      } else {
        var i :| 0 <= i < |rest| - 1 && IsHigh(rest[i]) && IsLow(rest[i + 1]);
        assert IsHigh(s[i + 1]) && IsLow(s[i + 1 + 1]);
      }
    }
  }

  /** The characters written as themselves or as a two-character escape. */
  predicate Short(c: Code) { 0x20 <= c < 0x7f || c in {0x0a, 0x0d, 0x09, 0x0c, 0x08} }

  lemma ShortRoundTrip(c: Code, after: string)
    requires Short(c)
    ensures EscapeChar(c)[0] != '"'
    ensures NextChar(EscapeChar(c) + after) == Some(Scanned(c, |EscapeChar(c)|))
    ensures UnicodeAt(EscapeChar(c) + after) == None
  {
  }

  lemma LongEscape(c: Code)
    requires !Short(c)
    ensures c < 0x10000 ==> EscapeChar(c) == UnicodeEscape(c)
    ensures c >= 0x10000 ==> EscapeChar(c) == UnicodeEscape(High(c)) + UnicodeEscape(Low(c))
  {
  }

  lemma NextUnicode(n: nat, after: string)
    requires n < 0x10000
    ensures NextChar(UnicodeEscape(n) + after)
         == if IsHigh(n) && LowAt(after).Some? then Some(Scanned(Join(n, LowAt(after).value), 12))
            else Some(Scanned(n, 6))
  {
    UnicodeRoundTrip(n, after);
    var s := UnicodeEscape(n) + after;
    assert s[0] == '\\' && s[1] == 'u' && s[6..] == after;
    hide UnicodeAt, UnicodeEscape, Join;
  }

  lemma JoinSplits(n: nat)
    requires 0x10000 <= n < 0x110000
    ensures IsHigh(High(n)) && IsLow(Low(n)) && Join(High(n), Low(n)) == n
  {
  }

  /** A character is scanned back, unless it is a high surrogate and a low one follows. */
  lemma EscapeRoundTrip(c: Code, after: string)
    ensures EscapeChar(c)[0] != '"'
    ensures NextChar(EscapeChar(c) + after)
         == if IsHigh(c) && LowAt(after).Some? then Some(Scanned(Join(c, LowAt(after).value), 12))
            else Some(Scanned(c, |EscapeChar(c)|))
    ensures LowAt(EscapeChar(c) + after) == if IsLow(c) then Some(c) else None
  {
    if Short(c) {
      ShortRoundTrip(c, after);
    } else {
      LongEscape(c);
      hide EscapeChar, NextChar;
      if c >= 0x10000 {
        var low := UnicodeEscape(Low(c)) + after;
        assert UnicodeEscape(High(c)) + UnicodeEscape(Low(c)) + after == UnicodeEscape(High(c)) + low;
        JoinSplits(c);
        NextUnicode(High(c), low);
        UnicodeRoundTrip(High(c), low);
        UnicodeRoundTrip(Low(c), after);
        hide UnicodeAt, High, Low, Join;
      } else {
        NextUnicode(c, after);
        UnicodeRoundTrip(c, after);
        hide UnicodeAt;
      }
    }
  }

  lemma LowAtPrint(s: PyText, after: string)
    ensures LowAt(PrintChars(s, after)) == if s != [] && IsLow(s[0]) then Some(s[0]) else None
  {
    if s != [] {
      EscapeRoundTrip(s[0], PrintChars(s[1..], after));
    }
  }

  lemma ParseCharsStep(s: string, c: Code, width: nat, more: PyText, after: string)
    requires s != "" && s[0] != '"' && NextChar(s) == Some(Scanned(c, width)) && width <= |s|
    requires ParseChars(s[width..]) == Some(Parsed(more, after))
    ensures ParseChars(s) == Some(Parsed([c] + more, after))
  {
  }

  lemma PairWidth(high: Code, low: Code)
    requires IsHigh(high) && IsLow(low)
    ensures |EscapeChar(high)| == 6 && |EscapeChar(low)| == 6
  {
  }

  lemma {:induction false} CharsRoundTrip(s: PyText, after: string)
    ensures ParseChars(PrintChars(s, after)) == Some(Parsed(Joined(s), after))
    decreases |s|
  {
    var p := PrintChars(s, after);
    if s == [] {
      assert p[1..] == after;
    } else {
      var e, rest := EscapeChar(s[0]), PrintChars(s[1..], after);
      EscapeRoundTrip(s[0], rest);
      LowAtPrint(s[1..], after);
      assert p == e + rest;
      hide EscapeChar, NextChar, ParseChars, LowAt, Join;
      assert p[0] == e[0] && p[|e|..] == rest;
      if |s| > 1 && IsHigh(s[0]) && IsLow(s[1]) {
        PairWidth(s[0], s[1]);
        AfterPair(s, after);
        CharsRoundTrip(s[2..], after);
        ParseCharsStep(p, Join(s[0], s[1]), 12, Joined(s[2..]), after);
      } else {
        CharsRoundTrip(s[1..], after);
        ParseCharsStep(p, s[0], |e|, Joined(s[1..]), after);
      }
    }
  }

  lemma AfterPair(s: PyText, after: string)
    requires |s| > 1 && |EscapeChar(s[0])| == 6 && |EscapeChar(s[1])| == 6
    ensures |PrintChars(s, after)| >= 12 && PrintChars(s, after)[12..] == PrintChars(s[2..], after)
  {
    hide EscapeChar;
    assert s[1..][1..] == s[2..];
    assert PrintChars(s, after)[6..] == PrintChars(s[1..], after);
    assert PrintChars(s[1..], after)[6..] == PrintChars(s[2..], after);
  }

  lemma StringRoundTrip(s: PyText, after: string)
    ensures ParseString(PrintString(s, after)) == Some(Parsed(Joined(s), after))
    ensures PrintString(s, after) != "" && PrintString(s, after)[0] == '"'
  {
    CharsRoundTrip(s, after);
    assert PrintString(s, after)[1..] == PrintChars(s, after);
  }

  function JoinedItems(items: seq<PyText>): seq<PyText> {
    if items == [] then [] else [Joined(items[0])] + JoinedItems(items[1..])
  }

  function JoinedValue(v: Value): Value {
    match v case Str(text) => Str(Joined(text)) case List(items) => List(JoinedItems(items))
  }

  function JoinedMembers(ms: seq<Member>): seq<Member> {
    if ms == [] then [] else [Member(Joined(ms[0].key), JoinedValue(ms[0].value))] + JoinedMembers(ms[1..])
  }

  lemma SkipNothing(s: string)
    requires s == "" || s[0] !in " \t\n\r"
    ensures SkipSpace(s) == s
  {
  }

  lemma SkipOne(s: string)
    requires s == "" || s[0] !in " \t\n\r"
    ensures SkipSpace([' '] + s) == s
  {
  }

  lemma {:induction false} ItemsRoundTrip(items: seq<PyText>, after: string)
    requires items != []
    ensures ParseItems(PrintItems(items, after)) == Some(Parsed(JoinedItems(items), after))
    ensures PrintItems(items, after) != "" && PrintItems(items, after)[0] == '"'
  {
    hide ParseString, PrintString;
    if |items| == 1 {
      var next := [']'] + after;
      StringRoundTrip(items[0], next);
      SkipNothing(next);
      assert next[1..] == after && JoinedItems(items) == [Joined(items[0])];
    } else {
      var more := PrintItems(items[1..], after);
      var next := [',', ' '] + more;
      StringRoundTrip(items[0], next);
      SkipNothing(next);
      ItemsRoundTrip(items[1..], after);
      assert next[1..] == [' '] + more;
      SkipOne(more);
    }
  }

  lemma ListRoundTrip(items: seq<PyText>, after: string)
    ensures ParseValue(PrintValue(List(items), after)) == Some(Parsed(List(JoinedItems(items)), after))
    ensures PrintValue(List(items), after) != "" && PrintValue(List(items), after)[0] == '['
  {
    PrintListParts(items, after);
    if items == [] {
      var inner := [']'] + after;
      ParseListStep(inner);
      assert inner[1..] == after;
      assert JoinedItems(items) == [];
      hide *;
    } else {
      var inner := PrintItems(items, after);
      ItemsRoundTrip(items, after);
      ParseListStep(inner);
      hide *;
    }
  }

  lemma PrintListParts(items: seq<PyText>, after: string)
    ensures var p := PrintValue(List(items), after);
      p == ['['] + (if items == [] then [']'] + after else PrintItems(items, after)) && p[0] == '['
  {
  }

  lemma ParseListStep(inner: string)
    requires inner != "" && inner[0] !in " \t\n\r"
    ensures ParseValue(['['] + inner)
         == if inner[0] == ']' then Some(Parsed(List([]), inner[1..]))
            else match ParseItems(inner) case Some(p) => Some(Parsed(List(p.value), p.rest)) case None => None
  {
  }

  lemma ValueRoundTrip(v: Value, after: string)
    ensures ParseValue(PrintValue(v, after)) == Some(Parsed(JoinedValue(v), after))
    ensures PrintValue(v, after) != "" && PrintValue(v, after)[0] !in " \t\n\r"
  {
    match v
    case Str(text) =>
      StringRoundTrip(text, after);
      hide PrintString, ParseString;
    case List(items) =>
      ListRoundTrip(items, after);
  }

  lemma MemberRoundTrip(m: Member, after: string)
    ensures ParseMember(PrintMember(m, after)) == Some(Parsed(Member(Joined(m.key), JoinedValue(m.value)), after))
    ensures PrintMember(m, after) != "" && PrintMember(m, after)[0] == '"'
  {
    var value := PrintValue(m.value, after);
    var colon := [':', ' '] + value;
    StringRoundTrip(m.key, colon);
    ValueRoundTrip(m.value, after);
    hide PrintString, ParseString, PrintValue, ParseValue;
    SkipNothing(colon);
    assert colon[1..] == [' '] + value;
    SkipOne(value);
  }

  lemma {:induction false} MembersRoundTrip(ms: seq<Member>, after: string)
    requires ms != []
    ensures ParseMembers(PrintMembers(ms, after)) == Some(Parsed(JoinedMembers(ms), after))
    ensures PrintMembers(ms, after) != "" && PrintMembers(ms, after)[0] == '"'
  {
    hide ParseMember, PrintMember;
    if |ms| == 1 {
      var next := ['}'] + after;
      MemberRoundTrip(ms[0], next);
      SkipNothing(next);
      assert next[1..] == after;
      assert JoinedMembers(ms) == [Member(Joined(ms[0].key), JoinedValue(ms[0].value))] by {
        assert JoinedMembers(ms[1..]) == [];
      }
    } else {
      var more := PrintMembers(ms[1..], after);
      var next := [',', ' '] + more;
      MemberRoundTrip(ms[0], next);
      SkipNothing(next);
      MembersRoundTrip(ms[1..], after);
      assert next[1..] == [' '] + more;
      SkipOne(more);
    }
  }

  /** Parsing undoes printing, but for the surrogate pairs that it joins, for every text in keys and values. */
  lemma RoundTrip(ms: seq<Member>)
    ensures Parse(Print(ms)) == Some(JoinedMembers(ms))
  {
    var p := Print(ms);
    SkipNothing(p);
    if ms == [] {
      assert p[1..] == ['}'];
      SkipNothing(['}']);
      assert ['}'][1..] == "";
      SkipNothing("");
    } else {
      MembersRoundTrip(ms, "");
      assert p[1..] == PrintMembers(ms, "");
      SkipNothing(PrintMembers(ms, ""));
      SkipNothing("");
    }
  }

  predicate PairFreeItems(items: seq<PyText>) { forall i :: 0 <= i < |items| ==> PairFree(items[i]) }

  predicate PairFreeMember(m: Member) {
    PairFree(m.key) && if m.value.Str? then PairFree(m.value.text) else PairFreeItems(m.value.items)
  }

  predicate PairFreeMembers(ms: seq<Member>) { forall i :: 0 <= i < |ms| ==> PairFreeMember(ms[i]) }

  lemma {:induction false} JoinedItemsIff(items: seq<PyText>)
    ensures JoinedItems(items) == items <==> PairFreeItems(items)
  {
    if items != [] {
      JoinedIff(items[0]);
      JoinedItemsIff(items[1..]);
      hide PairFree, Joined;
      assert JoinedItems(items)[1..] == JoinedItems(items[1..]) && items == [items[0]] + items[1..];
      assert PairFreeItems(items) <==> PairFree(items[0]) && PairFreeItems(items[1..]);
    }
  }

  lemma {:induction false} JoinedMembersIff(ms: seq<Member>)
    ensures JoinedMembers(ms) == ms <==> PairFreeMembers(ms)
  {
    if ms != [] {
      var m, rest := ms[0], ms[1..];
      var j := Member(Joined(m.key), JoinedValue(m.value));
      JoinedMemberIff(m);
      JoinedMembersIff(rest);
      SameCons(j, JoinedMembers(rest), m, rest);
      assert ms == [m] + rest;
      assert forall i :: 0 <= i < |rest| ==> rest[i] == ms[i + 1];
      hide PairFreeMember, Joined, JoinedValue;
    }
  }

  lemma JoinedMemberIff(m: Member)
    ensures Member(Joined(m.key), JoinedValue(m.value)) == m <==> PairFreeMember(m)
  {
    JoinedIff(m.key);
    match m.value
    case Str(text) => JoinedIff(text);
    case List(items) => JoinedItemsIff(items);
  }

  lemma SameCons<T>(x: T, a: seq<T>, y: T, b: seq<T>)
    ensures [x] + a == [y] + b <==> x == y && a == b
  {
    assert ([x] + a)[0] == x && ([y] + b)[0] == y && ([x] + a)[1..] == a && ([y] + b)[1..] == b;
  }

  /** For instance, the two halves of an emoji come back as one character. */
  lemma PairIsJoined(key: PyText)
    requires PairFree(key)
    ensures Parse(Print([Member(key, Str([0xd83d, 0xde00]))])) == Some([Member(key, Str([0x1f600]))])
  {
    var m := Member(key, Str([0xd83d, 0xde00]));
    RoundTrip([m]);
    JoinedIff(key);
    JoinedPair();
    assert [m][1..] == [] && JoinedMembers([]) == [];
    assert JoinedMembers([m]) == [Member(Joined(m.key), JoinedValue(m.value))];
    hide Joined, Parse, Print, JoinedMembers;
  }

  lemma JoinedPair()
    ensures Joined([0xd83d, 0xde00]) == [0x1f600]
  {
  }

  /** It comes back unchanged exactly if no text has a high surrogate directly before a low one. */
  lemma RoundTripIff(ms: seq<Member>)
    ensures Parse(Print(ms)) == Some(ms) <==> PairFreeMembers(ms)
  {
    RoundTrip(ms);
    JoinedMembersIff(ms);
    hide *;
  }

  // ---- The print is ASCII ----------------------------------------------------

  predicate Printable(s: string) { forall i :: 0 <= i < |s| ==> ' ' <= s[i] <= '~' }

  lemma EscapePrintable(c: Code)
    ensures Printable(EscapeChar(c))
  {
  }

  lemma {:induction false} CharsPrintable(s: PyText, after: string)
    requires Printable(after)
    ensures Printable(PrintChars(s, after)) && Printable(PrintString(s, after))
  {
    if s != [] {
      EscapePrintable(s[0]);
      hide EscapeChar;
      CharsPrintable(s[1..], after);
    }
  }

  lemma {:induction false} ItemsPrintable(items: seq<PyText>, after: string)
    requires items != [] && Printable(after)
    ensures Printable(PrintItems(items, after))
  {
    hide PrintString;
    if |items| == 1 {
      CharsPrintable(items[0], [']'] + after);
    } else {
      ItemsPrintable(items[1..], after);
      CharsPrintable(items[0], [',', ' '] + PrintItems(items[1..], after));
    }
  }

  lemma ValuePrintable(v: Value, after: string)
    requires Printable(after)
    ensures Printable(PrintValue(v, after))
  {
    match v
    case Str(text) => CharsPrintable(text, after);
    case List(items) => if items != [] { ItemsPrintable(items, after); }
  }

  lemma {:induction false} MembersPrintable(ms: seq<Member>, after: string)
    requires ms != [] && Printable(after)
    ensures Printable(PrintMembers(ms, after))
  {
    hide PrintString, PrintValue;
    var next := if |ms| == 1 then ['}'] + after else [',', ' '] + PrintMembers(ms[1..], after);
    if |ms| > 1 {
      MembersPrintable(ms[1..], after);
    }
    ValuePrintable(ms[0].value, next);
    CharsPrintable(ms[0].key, [':', ' '] + PrintValue(ms[0].value, next));
  }

  lemma PrintPrintable(ms: seq<Member>)
    ensures Printable(Print(ms))
  {
    if ms != [] {
      MembersPrintable(ms, "");
    }
  }

  /** Every kind of escape. */
  lemma EscapesAre()
    ensures EscapeChar(0x22) == "\\\"" && EscapeChar(0x5c) == "\\\\" && EscapeChar(0x0a) == "\\n"
    ensures EscapeChar(0x0d) == "\\r" && EscapeChar(0x09) == "\\t" && EscapeChar(0x0c) == "\\f"
    ensures EscapeChar(0x08) == "\\b" && EscapeChar(0x2f) == "/"
  {
    hide UnicodeEscape, High, Low;
  }

  lemma UnicodeEscapesAre()
    ensures EscapeChar(0x7f) == ['\\', 'u', '0', '0', '7', 'f'] && EscapeChar(0xe9) == ['\\', 'u', '0', '0', 'e', '9']
    ensures EscapeChar(0x1f600) == ['\\', 'u', 'd', '8', '3', 'd'] + ['\\', 'u', 'd', 'e', '0', '0']
  {
    assert High(0x1f600) == 0xd83d && Low(0x1f600) == 0xde00;
    hide High, Low;
  }

  lemma LetterPrints(c: char, after: string)
    requires 'a' <= c <= 'z'
    ensures PrintString(Codes([c]), after) == ['"', c, '"'] + after
  {
    var t := Codes([c]);
    assert t[1..] == [] && EscapeChar(t[0]) == [c];
    assert PrintChars(t, after) == [c] + (['"'] + after) by { assert PrintChars([], after) == ['"'] + after; }
  }

  /** The separators: a colon and a comma, each with a space after it. */
  lemma PrintIs(a: char, b: char, c: char)
    requires 'a' <= a <= 'z' && 'a' <= b <= 'z' && 'a' <= c <= 'z'
    ensures Print([]) == "{}" && PrintValue(List([]), "") == "[]"
    ensures PrintValue(List([Codes([b]), Codes([c])]), "") == "[" + (['"', b, '"'] + (", " + (['"', c, '"'] + "]")))
    ensures Print([Member(Codes([a]), Str(Codes([b])))]) == "{" + (['"', a, '"'] + (": " + (['"', b, '"'] + "}")))
  {
    var items := [Codes([b]), Codes([c])];
    assert items[1..] == [Codes([c])];
    LetterPrints(c, "]");
    LetterPrints(b, ", " + (['"', c, '"'] + "]"));
    LetterPrints(b, "}");
    LetterPrints(a, ": " + (['"', b, '"'] + "}"));
    hide PrintString;
    assert PrintItems([Codes([c])], "") == PrintString(Codes([c]), "]") by { assert [']'] + "" == "]"; }
    var m := Member(Codes([a]), Str(Codes([b])));
    assert PrintMember(m, "}") == PrintString(m.key, ": " + PrintString(Codes([b]), "}"));
    assert ['}'] + "" == "}" && [',', ' '] == ", ";
  }

  /** Two members: the second follows a comma and a space. */
  lemma TwoMembersPrint(m: Member, n: Member)
    ensures Print([m, n]) == ['{'] + PrintMember(m, ", " + PrintMember(n, "}"))
  {
    assert [m, n][1..] == [n];
    hide PrintMember;
    assert PrintMembers([n], "") == PrintMember(n, "}") by { assert ['}'] + "" == "}"; }
    assert PrintMembers([m, n], "") == PrintMember(m, ", " + PrintMembers([n], ""));
  }
}
