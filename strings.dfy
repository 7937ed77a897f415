/** The string operations the analyzers and routes call: `str.lower`, `str.strip`,
    `str.find`, `str.rfind`, `str.startswith`, `in`, `str.replace(p, '')` and `' '.join`.
    Characters are compared one by one; only the ASCII part of Python's Unicode
    case and whitespace tables is modelled. */
module Strings {
  import opened Wrappers

  predicate IsDigit(c: char) { '0' <= c <= '9' }

  predicate IsUpper(c: char) { 'A' <= c <= 'Z' }

  predicate IsAsciiLetter(c: char) { IsUpper(c) || 'a' <= c <= 'z' }

  /** The characters `str.strip()` removes, restricted to ASCII: space, tab, the line and
      form feeds, carriage return, and the four separators U+001C to U+001F. */
  predicate IsSpace(c: char) {
    c == ' ' || '\t' <= c <= '\r' || '\U{001C}' <= c <= '\U{001F}'
  }

  function LowerChar(c: char): char {
    if IsUpper(c) then (c as int + 32) as char else c
  }

  function UpperChar(c: char): char {
    if 'a' <= c <= 'z' then (c as int - 32) as char else c
  }

  /** `s.title()`: a letter that follows a letter is lowered, any other character
      raised. */
  function TitleCase(s: string): (r: string)
    ensures |r| == |s|
  {
    seq(|s|, i requires 0 <= i < |s| =>
      if i > 0 && IsAsciiLetter(s[i - 1]) then LowerChar(s[i]) else UpperChar(s[i]))
  }

  /** `s.lower()` */
  function Lower(s: string): (r: string)
    ensures |r| == |s|
    ensures forall i :: 0 <= i < |s| ==> r[i] == LowerChar(s[i])
  {
    seq(|s|, i requires 0 <= i < |s| => LowerChar(s[i]))
  }

  lemma LowerIdempotent(s: string)
    ensures Lower(Lower(s)) == Lower(s)
  {
  }

  /** `s.lstrip()` */
  function StripLeft(s: string): (r: string)
    ensures |r| <= |s| && r == s[|s| - |r|..]
    ensures r == [] || !IsSpace(r[0])
  {
    if s != [] && IsSpace(s[0]) then StripLeft(s[1..]) else s
  }

  /** `s.rstrip()` */
  function StripRight(s: string): (r: string)
    ensures |r| <= |s| && r == s[..|r|]
    ensures r == [] || !IsSpace(r[|r| - 1])
  {
    if s != [] && IsSpace(s[|s| - 1]) then StripRight(s[..|s| - 1]) else s
  }

  /** `s.strip()` */
  function Strip(s: string): string {
    StripRight(StripLeft(s))
  }

  /** `s.find(c)`: the first index of `c`, or -1. */
  function Find(s: string, c: char): (r: int)
    ensures -1 <= r < |s|
    ensures r == -1 <==> c !in s
    ensures r >= 0 ==> s[r] == c && c !in s[..r]
  {
    if s == [] then -1
    else if s[0] == c then 0
    else
      var k := Find(s[1..], c);
      if k == -1 then -1
      else
        assert s[..k + 1] == [s[0]] + s[1..][..k];
        k + 1
  }

  /** `s.rfind(c)`: the last index of `c`, or -1. */
  function RFind(s: string, c: char): (r: int)
    ensures -1 <= r < |s|
    ensures r == -1 <==> c !in s
    ensures r >= 0 ==> s[r] == c && c !in s[r + 1..]
  {
    if s == [] then -1
    else if s[|s| - 1] == c then |s| - 1
    else
      var k := RFind(s[..|s| - 1], c);
      assert k >= 0 ==> s[k + 1..] == s[..|s| - 1][k + 1..] + [s[|s| - 1]];
      assert s == s[..|s| - 1] + [s[|s| - 1]];
      k
  }

  predicate StartsWith(s: string, prefix: string) {
    |prefix| <= |s| && s[..|prefix|] == prefix
  }

  predicate OccursAt(s: string, part: string, i: int) {
    0 <= i <= |s| - |part| && s[i..i + |part|] == part
  }

  /** `part in s` for strings. */
  predicate Contains(s: string, part: string) {
    exists i | 0 <= i <= |s| - |part| :: OccursAt(s, part, i)
  }

  /** `s.replace(pat, '')`: every non-overlapping occurrence, scanned from the left, is removed. */
  function RemoveAll(s: string, pat: string): (r: string)
    requires pat != []
    ensures |r| <= |s|
    decreases |s|
  {
    if |s| < |pat| then s
    else if s[..|pat|] == pat then RemoveAll(s[|pat|..], pat)
    else [s[0]] + RemoveAll(s[1..], pat)
  }

  /** Replacing a pattern that does not occur leaves the string as it is. */
  lemma {:induction false} RemoveAllAbsent(s: string, pat: string)
    requires pat != [] && !Contains(s, pat)
    ensures RemoveAll(s, pat) == s
    decreases |s|
  {
    if |s| >= |pat| {
      assert !OccursAt(s, pat, 0);
      forall i | 0 <= i <= |s[1..]| - |pat| ensures !OccursAt(s[1..], pat, i) {
        assert s[1..][i..i + |pat|] == s[i + 1..i + 1 + |pat|];
        assert !OccursAt(s, pat, i + 1);
      }
      RemoveAllAbsent(s[1..], pat);
    }
  }

  /** Every occurrence of the pattern at the front of the string is dropped. */
  lemma {:induction false} RemoveAllPrefix(s: string, pat: string)
    requires pat != []
    ensures RemoveAll(pat + s, pat) == RemoveAll(s, pat)
  {
    assert (pat + s)[..|pat|] == pat;
    assert (pat + s)[|pat|..] == s;
  }

  /** `sep.join(parts)` */
  function Join(parts: seq<string>, sep: string): string {
    if parts == [] then []
    else if |parts| == 1 then parts[0]
    else Join(parts[..|parts| - 1], sep) + sep + parts[|parts| - 1]
  }

  /** `s.split(sep)` for a one-character separator: the pieces between separators, so
      the empty text gives one empty piece. */
  function Split(s: string, sep: char): (r: seq<string>)
    ensures |r| >= 1
  {
    if s == [] then [""]
    else
      var init := Split(s[..|s| - 1], sep);
      var last := s[|s| - 1];
      if last == sep then init + [""]
      else init[..|init| - 1] + [init[|init| - 1] + [last]]
  }

  /** A text without the separator is one piece. */
  lemma {:induction false} SplitNone(s: string, sep: char)
    requires sep !in s
    ensures Split(s, sep) == [s]
  {
    if s != [] {
      SplitNone(s[..|s| - 1], sep);
      assert s[..|s| - 1] + [s[|s| - 1]] == s;
    }
  }

  /** Text after the last separator forms the last piece. */
  lemma {:induction false} SplitAfter(a: string, sep: char, b: string)
    requires sep !in b
    ensures Split(a + [sep] + b, sep) == Split(a, sep) + [b]
    decreases |b|
  {
    var s := a + [sep] + b;
    if b == [] {
      assert s[..|s| - 1] == a;
    } else {
      var b' := b[..|b| - 1];
      assert s[..|s| - 1] == a + [sep] + b';
      SplitAfter(a, sep, b');
      assert b' + [b[|b| - 1]] == b;
    }
  }

  /** Splitting a join on a separator no part contains gives the parts back. */
  lemma {:induction false} SplitJoin(parts: seq<string>, sep: char)
    requires parts != []
    requires forall i :: 0 <= i < |parts| ==> sep !in parts[i]
    ensures Split(Join(parts, [sep]), sep) == parts
  {
    if |parts| == 1 {
      SplitNone(parts[0], sep);
    } else {
      var init := parts[..|parts| - 1];
      SplitJoin(init, sep);
      SplitAfter(Join(init, [sep]), sep, parts[|parts| - 1]);
      assert init + [parts[|parts| - 1]] == parts;
    }
  }

  /** The slice from the first `open` through the last `close`, when that `close` comes
      after that `open`; `None` otherwise. */
  function Enclosed(s: string, open: char, close: char): (r: Option<string>)
    requires open != close
    ensures r.Some? <==> open in s && close in s && Find(s, open) < RFind(s, close)
    ensures r.Some? ==> r.value == s[Find(s, open)..RFind(s, close) + 1]
    ensures r.Some? ==> |r.value| >= 2 && r.value[0] == open && r.value[|r.value| - 1] == close
  {
    var start := Find(s, open);
    var end := RFind(s, close) + 1;
    if start != -1 && end > start then
      assert s[start] != s[end - 1];
      Some(s[start..end])
    else None
  }

  /** The first `c` of a text is the one right after a prefix that has none. */
  lemma FindAfter(prefix: string, rest: string, c: char)
    requires c !in prefix && rest != [] && rest[0] == c
    ensures Find(prefix + rest, c) == |prefix|
  {
    var s := prefix + rest;
    var f := Find(s, c);
    assert s[|prefix|] == c;
    assert forall i :: 0 <= i < |prefix| ==> s[i] == prefix[i];
  }

  /** The last `c` of a text is the one right before a suffix that has none. */
  lemma RFindBefore(rest: string, suffix: string, c: char)
    requires c !in suffix && rest != [] && rest[|rest| - 1] == c
    ensures RFind(rest + suffix, c) == |rest| - 1
  {
    var s := rest + suffix;
    var r := RFind(s, c);
    assert s[|rest| - 1] == c;
    assert forall i :: |rest| <= i < |s| ==> s[i] == suffix[i - |rest|];
  }

  /** A text made of a prefix without `open`, an enclosed body, and a suffix without
      `close` yields exactly the enclosed part. */
  lemma EnclosedOf(prefix: string, body: string, suffix: string, open: char, close: char)
    requires open != close && open !in prefix && close !in suffix
    ensures Enclosed(prefix + [open] + body + [close] + suffix, open, close) == Some([open] + body + [close])
  {
    var part := [open] + body + [close];
    var s := prefix + part + suffix;
    assert prefix + [open] + body + [close] + suffix == s;
    PartBounds(prefix, part, suffix, open, close);
    assert s[|prefix|..|prefix| + |part|] == part;
  }

  lemma PartBounds(prefix: string, part: string, suffix: string, open: char, close: char)
    requires open != close && open !in prefix && close !in suffix
    requires |part| >= 2 && part[0] == open && part[|part| - 1] == close
    ensures Find(prefix + part + suffix, open) == |prefix|
    ensures RFind(prefix + part + suffix, close) == |prefix| + |part| - 1
  {
    var s := prefix + part + suffix;
    assert s == prefix + (part + suffix);
    FindAfter(prefix, part + suffix, open);
    RFindBefore(prefix + part, suffix, close);
  }
}
