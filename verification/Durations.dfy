// The Go-style durations approvers read and type: whole seconds as hours, minutes and
// seconds. Numbers stay within JavaScript's safe integers, where they are exact.
module Durations {
  import opened Options
  import Strings

  const MAX_SAFE_INTEGER := 9007199254740991

  predicate IsDigit(c: char) {
    '0' <= c <= '9'
  }

  function Size(unit: char): nat {
    if unit == 'h' then 3600 else if unit == 'm' then 60 else if unit == 's' then 1 else 0
  }

  /** What a group of digits is worth: count times the unit's size. */
  function Worth(count: nat, unit: char): nat {
    if unit == 'h' then count * 3600 else if unit == 'm' then count * 60 else if unit == 's' then count else 0
  }

  function DigitChar(d: nat): char
    requires d < 10
  {
    '0' + d as char
  }

  /** The decimal text of a number. */
  function Decimal(n: nat): string {
    if n < 10 then [DigitChar(n)] else Decimal(n / 10) + [DigitChar(n % 10)]
  }

  // ---------------------------------------------------------------- formatting

  function Part(count: nat, unit: char): string {
    if count == 0 then "" else Decimal(count) + [unit]
  }

  /** What is left of seconds after the first k units. */
  function Left(seconds: nat, k: nat): nat {
    if k == 0 then seconds else if k == 1 then seconds % 3600 else if k == 2 then seconds % 3600 % 60 else 0
  }

  function Unit(k: nat): char {
    if k == 0 then 'h' else if k == 1 then 'm' else 's'
  }

  function Count(seconds: nat, k: nat): nat {
    if k == 0 then seconds / 3600 else if k == 1 then seconds % 3600 / 60 else seconds % 3600 % 60
  }

  /** The text of the first k units. */
  function Shown(seconds: nat, k: nat): string {
    if k == 0 then "" else Shown(seconds, k - 1) + Part(Count(seconds, k - 1), Unit(k - 1))
  }

  function Formatted(seconds: int): string {
    if seconds <= 0 then "0s" else Shown(seconds, 3)
  }

  lemma {:induction false} OneUnit(seconds: nat, k: nat)
    requires k < 3
    ensures Left(seconds, k) / Size(Unit(k)) == Count(seconds, k)
    ensures Left(seconds, k) - Count(seconds, k) * Size(Unit(k)) == Left(seconds, k + 1)
  {
  }

  method FormatDuration(seconds: int) returns (text: string)
    ensures text == Formatted(seconds)
  {
    var remaining := seconds;
    if remaining <= 0 {
      return "0s";
    }
    text := "";
    for k := 0 to 3
      invariant remaining == Left(seconds, k)
      invariant text == Shown(seconds, k)
    {
      var size := Size(Unit(k));
      OneUnit(seconds, k);
      var count := remaining / size;
      remaining := remaining - count * size;
      text := text + if count != 0 then Decimal(count) + [Unit(k)] else "";
    }
  }

  // ------------------------------------------------------------------- parsing

  /** Where the run of digits from i on ends. */
  function DigitsEnd(s: string, i: nat): (end: nat)
    requires i <= |s|
    ensures i <= end <= |s|
    ensures end < |s| ==> !IsDigit(s[end])
    decreases |s| - i
  {
    if i < |s| && IsDigit(s[i]) then DigitsEnd(s, i + 1) else i
  }

  /** Number of the digits s[i..j]. */
  function Number(s: string, i: nat, j: nat): nat
    requires i <= j <= |s|
    requires forall k :: i <= k < j ==> IsDigit(s[k])
    decreases j
  {
    if i == j then 0 else assert IsDigit(s[j - 1]); 10 * Number(s, i, j - 1) + (s[j - 1] - '0') as nat
  }

  lemma {:induction false} DigitsUpTo(s: string, i: nat)
    requires i <= |s|
    ensures forall k :: i <= k < DigitsEnd(s, i) ==> IsDigit(s[k])
    decreases |s| - i
  {
    if i < |s| && IsDigit(s[i]) {
      DigitsUpTo(s, i + 1);
    }
  }

  /** The seconds of the digit-and-unit groups from i on, if the text goes on in groups. */
  function Total(s: string, i: nat): Option<nat>
    requires i <= |s|
    decreases |s| - i
  {
    if i == |s| then Some(0)
    else
      var n := DigitsEnd(s, i);
      if n == i || n == |s| || Size(s[n]) == 0 then None
      else match Total(s, n + 1)
        case None => None
        case Some(rest) => DigitsUpTo(s, i); Some(Worth(Number(s, i, n), s[n]) + rest)
  }

  /** What String.prototype.trim removes: white space and line terminators. */
  predicate IsSpace(c: char) {
    || '\U{9}' <= c <= '\U{D}' || c == ' ' || c == '\U{A0}' || c == '\U{1680}' || '\U{2000}' <= c <= '\U{200A}'
    || c == '\U{2028}' || c == '\U{2029}' || c == '\U{202F}' || c == '\U{205F}' || c == '\U{3000}' || c == '\U{FEFF}'
  }

  function Trim(s: string): string {
    Strings.Trim(s, IsSpace)
  }

  function ParsedTrimmed(trimmed: string): Option<nat> {
    match Total(trimmed, 0)
    case None => None
    case Some(seconds) => if trimmed == "" || seconds == 0 || seconds > MAX_SAFE_INTEGER then None else Some(seconds)
  }

  function Parsed(value: string): Option<nat> {
    ParsedTrimmed(Trim(value))
  }

  /** The text's seconds, once trimmed; undefined unless positive and a safe integer. */
  method ParseDuration(value: string) returns (seconds: Option<nat>)
    ensures seconds == Parsed(value)
  {
    var trimmed := Trim(value);
    if Total(trimmed, 0) == None || trimmed == "" {
      return None;
    }
    var sum := 0;
    var i := 0;
    while i < |trimmed|
      invariant i <= |trimmed|
      invariant Total(trimmed, i).Some? && sum + Total(trimmed, i).value == Total(trimmed, 0).value
    {
      var n := DigitsEnd(trimmed, i);
      DigitsUpTo(trimmed, i);
      var count := Number(trimmed, i, n);
      var size := Size(trimmed[n]);
      assert count * size == Worth(count, trimmed[n]);
      sum := sum + count * size;
      i := n + 1;
    }
    if sum <= 0 || sum > MAX_SAFE_INTEGER {
      return None;
    }
    return Some(sum);
  }

  // --------------------------------------------------------------- round trip

  /** word stands in s at i. */
  predicate StandsAt(word: string, s: string, i: nat) {
    i + |word| <= |s| && forall k :: 0 <= k < |word| ==> s[i + k] == word[k]
  }

  lemma {:induction false} DecimalReadsBack(n: nat, s: string, i: nat)
    requires StandsAt(Decimal(n), s, i)
    ensures |Decimal(n)| > 0 && forall k :: i <= k < i + |Decimal(n)| ==> IsDigit(s[k])
    ensures Number(s, i, i + |Decimal(n)|) == n
  {
    if n >= 10 {
      var front := Decimal(n / 10);
      assert Decimal(n) == front + [DigitChar(n % 10)];
      assert StandsAt(front, s, i) by {
        forall k | 0 <= k < |front| ensures s[i + k] == front[k] {
          assert s[i + k] == Decimal(n)[k];
        }
      }
      DecimalReadsBack(n / 10, s, i);
      assert s[i + |front|] == Decimal(n)[|front|];
    } else {
      assert s[i] == Decimal(n)[0];
      assert Number(s, i, i) == 0;
    }
  }

  lemma {:induction false} RunEnds(s: string, i: nat, j: nat)
    requires i <= j < |s| && !IsDigit(s[j])
    requires forall k :: i <= k < j ==> IsDigit(s[k])
    ensures DigitsEnd(s, i) == j
    decreases j - i
  {
    if i < j {
      RunEnds(s, i + 1, j);
    }
  }

  /** A formatted count, read where it stands, adds its worth to what follows it. */
  lemma {:induction false} PartReadsBack(count: nat, unit: char, s: string, i: nat, t: nat)
    requires Size(unit) > 0 && StandsAt(Part(count, unit), s, i)
    requires Total(s, i + |Part(count, unit)|) == Some(t)
    ensures Total(s, i) == Some(Worth(count, unit) + t)
  {
    if count > 0 {
      var digits := Decimal(count);
      var j := i + |digits|;
      assert Part(count, unit)[|digits|] == unit;
      assert StandsAt(digits, s, i) by {
        forall k | 0 <= k < |digits| ensures s[i + k] == digits[k] {
          assert s[i + k] == Part(count, unit)[k];
        }
      }
      DecimalReadsBack(count, s, i);
      RunEnds(s, i, j);
    }
  }

  lemma {:induction false} PartsReadBack(text: string, h: nat, u: char, m: nat, v: char, s: nat, w: char, i: nat, j: nat)
    requires Size(u) > 0 && Size(v) > 0 && Size(w) > 0
    requires i == |Part(h, u)| && j == i + |Part(m, v)| && |text| == j + |Part(s, w)|
    requires StandsAt(Part(h, u), text, 0) && StandsAt(Part(m, v), text, i) && StandsAt(Part(s, w), text, j)
    ensures Total(text, 0) == Some(Worth(h, u) + (Worth(m, v) + Worth(s, w)))
  {
    assert Total(text, |text|) == Some(0);
    PartReadsBack(s, w, text, j, 0);
    PartReadsBack(m, v, text, i, Worth(s, w));
    PartReadsBack(h, u, text, 0, Worth(m, v) + Worth(s, w));
  }

  lemma {:induction false} ThreeStand(a: string, b: string, c: string, text: string)
    requires text == a + b + c
    ensures StandsAt(a, text, 0) && StandsAt(b, text, |a|) && StandsAt(c, text, |a| + |b|)
  {
  }

  lemma {:induction false} ShownInFull(seconds: nat)
    ensures Shown(seconds, 3) == Part(Count(seconds, 0), 'h') + Part(Count(seconds, 1), 'm') + Part(Count(seconds, 2), 's')
  {
    assert Shown(seconds, 1) == Part(Count(seconds, 0), 'h');
    assert Shown(seconds, 2) == Shown(seconds, 1) + Part(Count(seconds, 1), 'm');
  }

  lemma {:induction false} DecimalDigits(n: nat)
    ensures Decimal(n) != "" && forall c :: c in Decimal(n) ==> IsDigit(c)
  {
    if n >= 10 {
      DecimalDigits(n / 10);
    }
  }

  predicate Visible(s: string) {
    forall c :: c in s ==> !IsSpace(c)
  }

  lemma {:induction false} PartVisible(count: nat, unit: char)
    requires unit == 'h' || unit == 'm' || unit == 's'
    ensures Visible(Part(count, unit))
  {
    if count > 0 {
      DecimalDigits(count);
    }
  }

  lemma {:induction false} VisibleStays(s: string)
    requires Visible(s)
    ensures Trim(s) == s
  {
    Strings.TightStays(s, IsSpace);
  }

  lemma {:induction false} ShownVisible(seconds: nat, k: nat)
    ensures Visible(Shown(seconds, k))
  {
    if k > 0 {
      ShownVisible(seconds, k - 1);
      PartVisible(Count(seconds, k - 1), Unit(k - 1));
    }
  }

  lemma {:induction false} ReadsBack(seconds: nat)
    requires 0 < seconds <= MAX_SAFE_INTEGER
    ensures ParsedTrimmed(Shown(seconds, 3)) == Some(seconds)
  {
    ShownInFull(seconds);
    ThreeParts(Count(seconds, 0), 'h', Count(seconds, 1), 'm', Count(seconds, 2), 's', Shown(seconds, 3));
    CountsAddUp(seconds);
    assert Shown(seconds, 3) != "" by {
      assert Total("", 0) == Some(0);
    }
  }

  /** Reading back a formatted duration gives its seconds, up to the safe-integer bound. */
  lemma {:induction false} DurationRoundTrip(seconds: nat)
    requires 0 < seconds <= MAX_SAFE_INTEGER
    ensures Parsed(Formatted(seconds)) == Some(seconds)
  {
    ShownVisible(seconds, 3);
    VisibleStays(Shown(seconds, 3));
    ReadsBack(seconds);
  }

  lemma {:induction false} CountsAddUp(seconds: nat)
    ensures Worth(Count(seconds, 0), 'h') + (Worth(Count(seconds, 1), 'm') + Worth(Count(seconds, 2), 's')) == seconds
  {
  }

  lemma {:induction false} ThreeParts(h: nat, u: char, m: nat, v: char, s: nat, w: char, text: string)
    requires Size(u) > 0 && Size(v) > 0 && Size(w) > 0
    requires text == Part(h, u) + Part(m, v) + Part(s, w)
    ensures Total(text, 0) == Some(Worth(h, u) + (Worth(m, v) + Worth(s, w)))
  {
    var a, b, c := Part(h, u), Part(m, v), Part(s, w);
    ThreeStand(a, b, c, text);
    PartsReadBack(text, h, u, m, v, s, w, |a|, |a| + |b|);
  }

  // ------------------------------------------------------- what is read and written

  /** A count and its unit, as written. */
  datatype Group = Group(digits: string, unit: char)

  predicate WellFormed(g: Group) {
    && g.digits != "" && (forall i :: 0 <= i < |g.digits| ==> '0' <= g.digits[i] <= '9')
    && (g.unit == 'h' || g.unit == 'm' || g.unit == 's')
  }

  predicate WellWritten(groups: seq<Group>) {
    forall k :: 0 <= k < |groups| ==> WellFormed(groups[k])
  }

  function TextOf(groups: seq<Group>): string {
    if groups == [] then "" else groups[0].digits + [groups[0].unit] + TextOf(groups[1..])
  }

  /** The number a text of decimal digits stands for. */
  function Value(digits: string): nat {
    if digits == "" then 0
    else
      var last := digits[|digits| - 1];
      10 * Value(digits[..|digits| - 1]) + if '0' <= last <= '9' then (last - '0') as nat else 0
  }

  function Seconds(g: Group): nat {
    var count := Value(g.digits);
    if g.unit == 'h' then count * 3600 else if g.unit == 'm' then count * 60 else count
  }

  function Sum(groups: seq<Group>): nat {
    if groups == [] then 0 else Seconds(groups[0]) + Sum(groups[1..])
  }

  lemma {:induction false} NumberExact(s: string, i: nat, j: nat)
    requires i <= j <= |s| && forall k :: i <= k < j ==> IsDigit(s[k])
    ensures Number(s, i, j) == Value(s[i..j])
    decreases j
  {
    if i < j {
      NumberExact(s, i, j - 1);
      assert s[i..j][..j - i - 1] == s[i..j - 1];
    }
  }

  lemma {:induction false} StandsInOrder(a: string, b: string, s: string, i: nat)
    requires StandsAt(a + b, s, i)
    ensures StandsAt(a, s, i) && StandsAt(b, s, i + |a|)
  {
    assert forall k :: 0 <= k < |a| ==> (a + b)[k] == a[k];
    forall k | 0 <= k < |b| ensures s[i + |a| + k] == b[k] {
      assert (a + b)[|a| + k] == b[k];
    }
  }

  // A group is read where it stands.
  lemma {:induction false} GroupReads(s: string, i: nat, g: Group, t: nat)
    requires WellFormed(g) && StandsAt(g.digits + [g.unit], s, i) && Total(s, i + |g.digits| + 1) == Some(t)
    ensures Total(s, i) == Some(Seconds(g) + t)
  {
    var j := i + |g.digits|;
    StandsInOrder(g.digits, [g.unit], s, i);
    assert s[j] == [g.unit][0];
    assert s[i..j] == g.digits;
    forall k | i <= k < j ensures IsDigit(s[k]) {
      assert s[i + (k - i)] == g.digits[k - i];
    }
    RunEnds(s, i, j);
    NumberExact(s, i, j);
  }

  // A text of groups is read as their sum.
  lemma {:induction false} ReadsGroups(s: string, i: nat, groups: seq<Group>)
    requires StandsAt(TextOf(groups), s, i) && i + |TextOf(groups)| == |s| && WellWritten(groups)
    ensures Total(s, i) == Some(Sum(groups))
    decreases |groups|
  {
    if groups != [] {
      var g, rest := groups[0], groups[1..];
      StandsInOrder(g.digits + [g.unit], TextOf(rest), s, i);
      ReadsGroups(s, i + |g.digits| + 1, rest);
      GroupReads(s, i, g, Sum(rest));
    }
  }

  // What is read is a text of groups.
  lemma {:induction false} GroupsRead(s: string, i: nat) returns (groups: seq<Group>)
    requires i <= |s| && Total(s, i).Some?
    ensures i + |TextOf(groups)| == |s| && StandsAt(TextOf(groups), s, i)
    ensures WellWritten(groups) && Total(s, i).value == Sum(groups)
    decreases |s| - i
  {
    groups := [];
    if i < |s| {
      var n := FirstGroup(s, i);
      var rest := GroupsRead(s, n + 1);
      groups := WithFirst(s, i, n, rest);
    }
  }

  lemma {:induction false} WithFirst(s: string, i: nat, n: nat, rest: seq<Group>) returns (groups: seq<Group>)
    requires i < n < |s| && WellFormed(Group(s[i..n], s[n])) && WellWritten(rest)
    requires n + 1 + |TextOf(rest)| == |s| && StandsAt(TextOf(rest), s, n + 1)
    ensures i + |TextOf(groups)| == |s| && StandsAt(TextOf(groups), s, i)
    ensures WellWritten(groups) && Sum(groups) == Seconds(Group(s[i..n], s[n])) + Sum(rest)
  {
    groups := [Group(s[i..n], s[n])] + rest;
    assert groups[1..] == rest;
    var text := TextOf(groups);
    assert text == s[i..n] + [s[n]] + TextOf(rest);
    forall k | 0 <= k < |text| ensures s[i + k] == text[k] {
      if k > n - i {
        assert text[k] == TextOf(rest)[k - (n - i) - 1];
      }
    }
  }

  lemma {:induction false} FirstGroup(s: string, i: nat) returns (n: nat)
    requires i < |s| && Total(s, i).Some?
    ensures i < n < |s| && Total(s, n + 1).Some? && WellFormed(Group(s[i..n], s[n]))
    ensures Total(s, i) == Some(Seconds(Group(s[i..n], s[n])) + Total(s, n + 1).value)
  {
    n := DigitsEnd(s, i);
    DigitsUpTo(s, i);
    NumberExact(s, i, n);
  }

  /** The text is these groups, one at least, between white space. */
  predicate Spells(value: string, before: string, groups: seq<Group>, after: string) {
    && value == before + TextOf(groups) + after
    && Strings.AllBlank(before, IsSpace) && Strings.AllBlank(after, IsSpace)
    && groups != [] && WellWritten(groups)
  }

  lemma {:induction false} TextTight(groups: seq<Group>)
    requires groups != [] && WellWritten(groups)
    ensures TextOf(groups) != "" && Strings.Tight(TextOf(groups), IsSpace)
  {
    var text := TextOf(groups);
    assert text[0] == groups[0].digits[0];
    if |groups| > 1 {
      TextTight(groups[1..]);
      assert text[|text| - 1] == TextOf(groups[1..])[|TextOf(groups[1..])| - 1];
    }
  }

  lemma {:induction false} SpelledIsParsed(value: string, before: string, groups: seq<Group>, after: string)
    requires Spells(value, before, groups, after)
    ensures Parsed(value) == if 0 < Sum(groups) <= 9007199254740991 then Some(Sum(groups)) else None
  {
    TextTight(groups);
    Strings.TrimExact(before, TextOf(groups), after, IsSpace);
    ReadsGroups(TextOf(groups), 0, groups);
  }

  /** A text is parsed exactly when it spells groups with a positive, exact sum, and to that sum. */
  lemma {:induction false} ParsedExact(value: string)
    ensures match Parsed(value)
            case Some(seconds) => 0 < seconds <= 9007199254740991 && exists before, groups, after :: Spells(value, before, groups, after) && Sum(groups) == seconds
            case None => forall before, groups, after :: Spells(value, before, groups, after) ==> !(0 < Sum(groups) <= 9007199254740991)
  {
    if Parsed(value).Some? {
      var before, after := Strings.Trimmed(value, IsSpace);
      var groups := GroupsRead(Trim(value), 0);
      assert Trim(value) == TextOf(groups);
      assert Spells(value, before, groups, after);
    } else {
      forall before, groups, after | Spells(value, before, groups, after) ensures !(0 < Sum(groups) <= 9007199254740991) {
        SpelledIsParsed(value, before, groups, after);
      }
    }
  }

  /** The decimal text of a number: only digits, no leading zero, and it stands for the number. */
  lemma {:induction false} DecimalExact(n: nat)
    ensures var text := Decimal(n);
            && text != "" && (forall i :: 0 <= i < |text| ==> '0' <= text[i] <= '9')
            && (n > 0 ==> text[0] != '0') && Value(text) == n
  {
    if n >= 10 {
      DecimalExact(n / 10);
      assert Decimal(n)[..|Decimal(n)| - 1] == Decimal(n / 10);
    } else {
      assert Value(Decimal(n)[..0]) == 0;
    }
  }

  /** A positive duration is written as hours, minutes and seconds, the last two under sixty, none of them zero. */
  lemma {:induction false} FormattedExact(seconds: int)
    ensures seconds <= 0 ==> Formatted(seconds) == "0s"
    ensures seconds > 0 ==> exists h: nat, m: nat, s: nat ::
              && seconds == 3600 * h + 60 * m + s && m < 60 && s < 60
              && Formatted(seconds) == (if h == 0 then "" else Decimal(h) + "h") + (if m == 0 then "" else Decimal(m) + "m")
                                       + (if s == 0 then "" else Decimal(s) + "s")
  {
    if seconds > 0 {
      ShownInFull(seconds);
      CountsAddUp(seconds);
    }
  }
}
