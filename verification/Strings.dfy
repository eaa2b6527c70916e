// The string operations of Go's standard library that the authorizer relies on.
// A string is a sequence of characters, so it is always valid UTF-8.
module Strings {

  /** strings.Split for a one-character separator: always at least one part. */
  function Split(s: string, sep: char): (parts: seq<string>)
    ensures |parts| > 0
  {
    if s == "" then [""]
    else
      var rest := Split(s[1..], sep);
      if s[0] == sep then [""] + rest else [[s[0]] + rest[0]] + rest[1..]
  }

  function Join(parts: seq<string>, sep: string): string {
    if |parts| == 0 then ""
    else if |parts| == 1 then parts[0]
    else parts[0] + sep + Join(parts[1..], sep)
  }

  /** unicode.ToLower, for the letters whose lower-case form is an ASCII letter. */
  function LowerChar(c: char): char {
    if 'A' <= c <= 'Z' then c + 32 as char
    else if c == '\U{130}' then 'i'
    else if c == '\U{212A}' then 'k'
    else c
  }

  function ToLower(s: string): (r: string)
    ensures |r| == |s|
    ensures forall i :: 0 <= i < |s| ==> r[i] == LowerChar(s[i])
  {
    if s == "" then "" else [LowerChar(s[0])] + ToLower(s[1..])
  }

  /** unicode.IsSpace. */
  predicate IsSpace(c: char) {
    || '\U{9}' <= c <= '\U{D}' || c == ' ' || c == '\U{85}' || c == '\U{A0}' || c == '\U{1680}'
    || '\U{2000}' <= c <= '\U{200A}' || c == '\U{2028}' || c == '\U{2029}' || c == '\U{202F}' || c == '\U{205F}' || c == '\U{3000}'
  }

  function TrimLeft(s: string, blank: char -> bool): string {
    if s != "" && blank(s[0]) then TrimLeft(s[1..], blank) else s
  }

  function TrimRight(s: string, blank: char -> bool): string {
    if s != "" && blank(s[|s| - 1]) then TrimRight(s[..|s| - 1], blank) else s
  }

  function Trim(s: string, blank: char -> bool): string {
    TrimRight(TrimLeft(s, blank), blank)
  }

  function TrimSpace(s: string): string {
    Trim(s, IsSpace)
  }

  /** The encoded length of a character in UTF-8. */
  function Utf8Len(c: char): nat {
    if c < '\U{80}' then 1 else if c < '\U{800}' then 2 else if c < '\U{10000}' then 3 else 4
  }

  /** len(s) in Go: the number of bytes. */
  function ByteLen(s: string): nat {
    if s == "" then 0 else Utf8Len(s[0]) + ByteLen(s[1..])
  }

  // No part of a split contains the separator.
  lemma {:induction false} SplitPartsAvoidSeparator(s: string, sep: char)
    ensures forall k :: 0 <= k < |Split(s, sep)| ==> sep !in Split(s, sep)[k]
  {
    if s != "" {
      SplitPartsAvoidSeparator(s[1..], sep);
    }
  }

  lemma {:induction false} JoinSplit(s: string, sep: char)
    ensures Join(Split(s, sep), [sep]) == s
  {
    if s != "" {
      JoinSplit(s[1..], sep);
      var rest := Split(s[1..], sep);
      if s[0] == sep {
        assert Split(s, sep)[1..] == rest;
      } else if |rest| > 1 {
        assert Split(s, sep)[1..] == rest[1..];
      }
    }
  }

  // Lower-casing and splitting commute, because lower-casing fixes the separator.
  lemma {:induction false} ToLowerCons(s: string)
    requires s != ""
    ensures ToLower(s)[0] == LowerChar(s[0]) && ToLower(s)[1..] == ToLower(s[1..])
  {
  }

  lemma {:induction false} ToLowerPrepend(c: char, s: string)
    ensures ToLower([c] + s) == [LowerChar(c)] + ToLower(s)
  {
    assert ([c] + s)[1..] == s;
  }

  lemma {:induction false} LowerStays(s: string)
    requires forall i :: 0 <= i < |s| ==> LowerChar(s[i]) == s[i]
    ensures ToLower(s) == s
  {
  }

  /** The parts of the lower-cased text are the lower-cased parts. */
  predicate LowerParts(lower: seq<string>, parts: seq<string>) {
    |lower| == |parts| && forall k :: 0 <= k < |parts| ==> lower[k] == ToLower(parts[k])
  }

  lemma {:induction false} PartsToLower(s: string, sep: char)
    requires forall c :: LowerChar(c) == sep <==> c == sep
    ensures LowerParts(Split(ToLower(s), sep), Split(s, sep))
  {
    if s != "" {
      PartsToLower(s[1..], sep);
      ToLowerCons(s);
      ToLowerPrepend(s[0], Split(s[1..], sep)[0]);
    }
  }

  lemma {:induction false} SplitToLower(s: string, sep: char)
    requires forall c :: LowerChar(c) == sep <==> c == sep
    ensures |Split(ToLower(s), sep)| == |Split(s, sep)|
    ensures forall k :: 0 <= k < |Split(s, sep)| ==> Split(ToLower(s), sep)[k] == ToLower(Split(s, sep)[k])
  {
    PartsToLower(s, sep);
  }

  lemma {:induction false} LowerFixes(c: char)
    requires c == '/' || c == '*' || c == '+'
    ensures forall x :: LowerChar(x) == c <==> x == c
  {
  }

  lemma {:induction false} ToLowerPrefix(p: string, s: string)
    requires p <= s
    ensures ToLower(p) <= ToLower(s)
  {
    assert forall i :: 0 <= i < |p| ==> ToLower(p)[i] == ToLower(s)[i];
  }

  /** The byte order of strings, which for UTF-8 is the order of code points. */
  predicate LexLe(a: string, b: string) {
    a == "" || (b != "" && (a[0] < b[0] || (a[0] == b[0] && LexLe(a[1..], b[1..]))))
  }

  lemma {:induction false} LexTotal(a: string, b: string)
    ensures LexLe(a, b) || LexLe(b, a)
  {
    if a != "" && b != "" && a[0] == b[0] {
      LexTotal(a[1..], b[1..]);
    }
  }

  lemma {:induction false} LexAntisymmetric(a: string, b: string)
    requires LexLe(a, b) && LexLe(b, a)
    ensures a == b
  {
    if a != "" {
      LexAntisymmetric(a[1..], b[1..]);
      assert a == [a[0]] + a[1..] && b == [b[0]] + b[1..];
    }
  }

  lemma {:induction false} LexTransitive(a: string, b: string, c: string)
    requires LexLe(a, b) && LexLe(b, c)
    ensures LexLe(a, c)
  {
    if a != "" && a[0] == b[0] && b[0] == c[0] {
      LexTransitive(a[1..], b[1..], c[1..]);
    }
  }

  predicate Ascending(s: seq<string>) {
    forall i, j :: 0 <= i < j < |s| ==> LexLe(s[i], s[j])
  }

  predicate StrictlyAscending(s: seq<string>) {
    forall i, j :: 0 <= i < j < |s| ==> LexLe(s[i], s[j]) && s[i] != s[j]
  }

  function Elements(s: seq<string>): set<string> {
    set x | x in s
  }

  lemma {:induction false} PrependLeast(x: string, s: seq<string>)
    requires Ascending(s) && (s == [] || LexLe(x, s[0]))
    ensures Ascending([x] + s)
  {
    forall j | 0 <= j < |s| ensures LexLe(x, s[j]) {
      if j > 0 {
        LexTransitive(x, s[0], s[j]);
      }
    }
  }

  lemma {:induction false} HeadStaysLeast(x: string, s: seq<string>, rest: seq<string>)
    requires s != [] && Ascending(s) && LexLe(s[0], x)
    requires multiset(rest) == multiset(s[1..]) + multiset{x}
    ensures rest == [] || LexLe(s[0], rest[0])
  {
    if rest != [] {
      assert rest[0] in multiset(rest);
      assert rest[0] == x || rest[0] in s[1..];
    }
  }

  function InsertOrdered(x: string, s: seq<string>): (r: seq<string>)
    requires Ascending(s)
    ensures Ascending(r)
    ensures multiset(r) == multiset(s) + multiset{x}
  {
    if s == [] then [x]
    else if LexLe(x, s[0]) then
      PrependLeast(x, s);
      [x] + s
    else
      LexTotal(x, s[0]);
      var rest := InsertOrdered(x, s[1..]);
      HeadStaysLeast(x, s, rest);
      PrependLeast(s[0], rest);
      assert s == [s[0]] + s[1..];
      [s[0]] + rest
  }

  /** slices.Sort: ascending order, same elements. */
  function Sort(s: seq<string>): (r: seq<string>)
    ensures Ascending(r)
    ensures multiset(r) == multiset(s)
  {
    if s == [] then []
    else
      assert s == [s[0]] + s[1..];
      InsertOrdered(s[0], Sort(s[1..]))
  }

  // A strictly ascending sequence is determined by its elements.
  lemma {:induction false} StrictlyAscendingUnique(a: seq<string>, b: seq<string>)
    requires StrictlyAscending(a) && StrictlyAscending(b)
    requires Elements(a) == Elements(b)
    ensures a == b
  {
    HeadIsElement(a);
    HeadIsElement(b);
    if a != [] {
      LexLeast(a, b[0]);
      LexLeast(b, a[0]);
      LexAntisymmetric(a[0], b[0]);
      assert Elements(a[1..]) == Elements(a) - {a[0]};
      assert Elements(b[1..]) == Elements(b) - {b[0]};
      StrictlyAscendingUnique(a[1..], b[1..]);
    }
  }

  lemma {:induction false} HeadIsElement(s: seq<string>)
    ensures s != [] ==> s[0] in Elements(s)
  {
  }

  lemma {:induction false} LexLeast(a: seq<string>, x: string)
    requires StrictlyAscending(a) && x in a
    ensures LexLe(a[0], x)
  {
    LexTotal(x, x);
  }

  // Sorting distinct strings gives a strictly ascending sequence.
  lemma {:induction false} SortDistinct(s: seq<string>)
    requires forall i, j :: 0 <= i < j < |s| ==> s[i] != s[j]
    ensures StrictlyAscending(Sort(s)) && Elements(Sort(s)) == Elements(s)
  {
    var r := Sort(s);
    DistinctMultiset(s);
    forall i, j | 0 <= i < j < |r| ensures r[i] != r[j] {
      MultisetCountsTwice(r, i, j);
    }
    SameElements(r, s);
  }

  lemma {:induction false} MultisetCountsTwice(r: seq<string>, i: nat, j: nat)
    requires i < j < |r|
    ensures r[i] == r[j] ==> multiset(r)[r[i]] >= 2
  {
    assert r == r[..j] + r[j..];
    assert r[i] in r[..j] && r[j] in r[j..];
  }

  lemma {:induction false} SameElements(a: seq<string>, b: seq<string>)
    requires multiset(a) == multiset(b)
    ensures Elements(a) == Elements(b)
  {
    forall x ensures x in a <==> x in b {
      assert x in multiset(a) <==> x in multiset(b);
    }
  }

  lemma {:induction false} DistinctMultiset(s: seq<string>)
    requires forall i, j :: 0 <= i < j < |s| ==> s[i] != s[j]
    ensures forall x :: multiset(s)[x] <= 1
  {
    if s != [] {
      DistinctMultiset(s[1..]);
      assert s == [s[0]] + s[1..];
    }
  }

  predicate AllBlank(s: string, blank: char -> bool) {
    forall i :: 0 <= i < |s| ==> blank(s[i])
  }

  /** The text neither begins nor ends with a blank. */
  predicate Tight(s: string, blank: char -> bool) {
    s == "" || (!blank(s[0]) && !blank(s[|s| - 1]))
  }

  lemma {:induction false} TrimLeftExact(before: string, s: string, blank: char -> bool)
    requires AllBlank(before, blank) && (s == "" || !blank(s[0]))
    ensures TrimLeft(before + s, blank) == s
  {
    if before == "" {
      assert before + s == s;
    } else {
      assert (before + s)[1..] == before[1..] + s;
      TrimLeftExact(before[1..], s, blank);
    }
  }

  lemma {:induction false} TrimRightExact(s: string, after: string, blank: char -> bool)
    requires AllBlank(after, blank) && (s == "" || !blank(s[|s| - 1]))
    ensures TrimRight(s + after, blank) == s
  {
    if after == "" {
      assert s + after == s;
    } else {
      var n := |after| - 1;
      assert (s + after)[..|s + after| - 1] == s + after[..n];
      TrimRightExact(s, after[..n], blank);
    }
  }

  lemma {:induction false} TightStays(s: string, blank: char -> bool)
    requires Tight(s, blank)
    ensures Trim(s, blank) == s
  {
  }

  // Of blanks alone nothing is left.
  lemma {:induction false} TrimBlank(s: string, blank: char -> bool)
    requires AllBlank(s, blank)
    ensures Trim(s, blank) == ""
  {
    TrimLeftExact(s, "", blank);
    assert s + "" == s;
  }

  /** Trimming takes blanks off both ends and nothing else. */
  lemma {:induction false} TrimExact(before: string, s: string, after: string, blank: char -> bool)
    requires AllBlank(before, blank) && AllBlank(after, blank) && Tight(s, blank)
    ensures Trim(before + s + after, blank) == s
  {
    assert before + s + after == before + (s + after);
    if s == "" {
      assert before + s + after == before + after;
      TrimBlank(before + after, blank);
    } else {
      TrimLeftExact(before, s + after, blank);
      TrimRightExact(s, after, blank);
    }
  }

  lemma {:induction false} LeftTrimmed(s: string, blank: char -> bool) returns (before: string)
    ensures s == before + TrimLeft(s, blank) && AllBlank(before, blank)
    ensures TrimLeft(s, blank) == "" || !blank(TrimLeft(s, blank)[0])
  {
    before := "";
    if s != "" && blank(s[0]) {
      var rest := LeftTrimmed(s[1..], blank);
      before := [s[0]] + rest;
      assert s == [s[0]] + s[1..];
    }
  }

  lemma {:induction false} RightTrimmed(s: string, blank: char -> bool) returns (after: string)
    ensures s == TrimRight(s, blank) + after && AllBlank(after, blank)
    ensures TrimRight(s, blank) == "" || !blank(TrimRight(s, blank)[|TrimRight(s, blank)| - 1])
  {
    after := "";
    if s != "" && blank(s[|s| - 1]) {
      var rest := RightTrimmed(s[..|s| - 1], blank);
      after := rest + [s[|s| - 1]];
      assert s == s[..|s| - 1] + [s[|s| - 1]];
    }
  }

  /** What trimming leaves stands in the text between blanks. */
  lemma {:induction false} Trimmed(s: string, blank: char -> bool) returns (before: string, after: string)
    ensures s == before + Trim(s, blank) + after && AllBlank(before, blank) && AllBlank(after, blank)
    ensures Tight(Trim(s, blank), blank)
  {
    before := LeftTrimmed(s, blank);
    after := RightTrimmed(TrimLeft(s, blank), blank);
    var t := Trim(s, blank);
    assert t != "" ==> t[0] == TrimLeft(s, blank)[0];
    assert s == before + (t + after) == before + t + after;
  }

  lemma {:induction false} SplitPrefix(part: string, rest: string, sep: char)
    requires sep !in part
    ensures Split(part + [sep] + rest, sep) == [part] + Split(rest, sep)
  {
    if part == "" {
      assert (part + [sep] + rest)[1..] == rest;
    } else {
      assert (part + [sep] + rest)[1..] == part[1..] + [sep] + rest;
      SplitPrefix(part[1..], rest, sep);
      assert part == [part[0]] + part[1..];
    }
  }

  lemma {:induction false} SplitPlain(part: string, sep: char)
    requires sep !in part
    ensures Split(part, sep) == [part]
  {
    if part != "" {
      SplitPlain(part[1..], sep);
      assert part == [part[0]] + part[1..];
    }
  }

  /** Splitting undoes joining, for parts without the separator. */
  lemma {:induction false} SplitJoin(parts: seq<string>, sep: char)
    requires parts != [] && forall k :: 0 <= k < |parts| ==> sep !in parts[k]
    ensures Split(Join(parts, [sep]), sep) == parts
  {
    if |parts| == 1 {
      SplitPlain(parts[0], sep);
    } else {
      SplitJoin(parts[1..], sep);
      SplitPrefix(parts[0], Join(parts[1..], [sep]), sep);
      assert parts == [parts[0]] + parts[1..];
    }
  }
}
