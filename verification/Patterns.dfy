// ACL path patterns: `+` stands for one whole segment, a trailing `*` for any suffix.
module Patterns {
  import opened Strings

  const DENIED_SEGMENTS := {"sys", "auth", "identity", "cubbyhole"}

  predicate EndsWithStar(s: string) {
    s != "" && s[|s| - 1] == '*'
  }

  /** strings.CutSuffix(s, "*"). */
  function CutStar(s: string): (r: string)
    ensures r <= s
  {
    if EndsWithStar(s) then s[..|s| - 1] else s
  }

  predicate ValidPattern(pattern: string) {
    && pattern != ""
    && pattern[0] != '/'
    && (forall i :: 0 <= i < |pattern| && pattern[i] == '*' ==> i == |pattern| - 1)
    && (forall part :: part in Split(pattern, '/') && '+' in part ==> part == "+")
  }

  /** What a pattern means, character by character, with no mention of segments. */
  ghost predicate Denotes(pattern: string, path: string)
    decreases |pattern|
  {
    if pattern == "" then path == ""
    else if pattern == "*" then true
    else if pattern[0] == '+' then
      exists k :: 0 <= k <= |path| && '/' !in path[..k] && Denotes(pattern[1..], path[k..])
    else path != "" && path[0] == pattern[0] && Denotes(pattern[1..], path[1..])
  }

  predicate PartMatches(parts: seq<string>, isPrefix: bool, pathParts: seq<string>, k: nat)
    requires k < |parts| && k < |pathParts|
  {
    parts[k] == "+" || parts[k] == pathParts[k] || (isPrefix && k == |parts| - 1 && parts[k] <= pathParts[k])
  }

  predicate SegmentsMatch(parts: seq<string>, isPrefix: bool, pathParts: seq<string>) {
    && |parts| <= |pathParts|
    && (!isPrefix ==> |parts| == |pathParts|)
    && forall k :: 0 <= k < |parts| ==> PartMatches(parts, isPrefix, pathParts, k)
  }

  /** The decision MatchPattern computes: a prefix or equality test when there is no `+`. */
  predicate Matches(pattern: string, path: string) {
    var prefix := CutStar(pattern);
    if '+' !in prefix then
      if EndsWithStar(pattern) then prefix <= path else pattern == path
    else SegmentsMatch(Split(prefix, '/'), EndsWithStar(pattern), Split(path, '/'))
  }

  method MatchPattern(pattern: string, path: string) returns (matched: bool)
    ensures matched == Matches(pattern, path)
    ensures ValidPattern(pattern) ==> (matched <==> Denotes(pattern, path))
  {
    if ValidPattern(pattern) {
      MatchesIsDenotes(pattern, path);
    }
    var prefix, isPrefix := CutStar(pattern), EndsWithStar(pattern);
    if '+' !in prefix {
      return if isPrefix then prefix <= path else pattern == path;
    }
    var patternParts := Split(prefix, '/');
    var pathParts := Split(path, '/');
    if |pathParts| < |patternParts| || (!isPrefix && |pathParts| != |patternParts|) {
      return false;
    }
    for index := 0 to |patternParts|
      invariant forall k :: 0 <= k < index ==> PartMatches(patternParts, isPrefix, pathParts, k)
    {
      var part := patternParts[index];
      if part == "+" || part == pathParts[index] {
      } else if isPrefix && index == |patternParts| - 1 && part <= pathParts[index] {
      } else {
        assert !PartMatches(patternParts, isPrefix, pathParts, index);
        return false;
      }
    }
    return true;
  }

  method ValidatePattern(pattern: string) returns (ok: bool)
    ensures ok <==> ValidPattern(pattern)
  {
    if pattern == "" || pattern[0] == '/' {
      return false;
    }
    if exists i :: 0 <= i < |pattern| - 1 && pattern[i] == '*' {
      return false;
    }
    var parts := Split(pattern, '/');
    for index := 0 to |parts|
      invariant forall k :: 0 <= k < index && '+' in parts[k] ==> parts[k] == "+"
    {
      if '+' in parts[index] && parts[index] != "+" {
        return false;
      }
    }
    return true;
  }

  // `+` fills whole segments only; `start` says the first part is a whole segment.
  ghost predicate PlusComplete(parts: seq<string>, start: bool, isPrefix: bool)
    requires |parts| > 0
  {
    && (start && '+' in parts[0] ==> parts[0] == "+")
    && (!start ==> '+' !in parts[0])
    && (forall k :: 0 < k < |parts| && '+' in parts[k] ==> parts[k] == "+")
    && (isPrefix ==> '+' !in parts[|parts| - 1])
  }

  function Star(isPrefix: bool): string {
    if isPrefix then "*" else ""
  }

  // The segment-by-segment algorithm decides the character-by-character meaning.
  lemma {:induction false} SegmentsDenote(prefix: string, isPrefix: bool, path: string, start: bool)
    requires '*' !in prefix
    requires PlusComplete(Split(prefix, '/'), start, isPrefix)
    ensures SegmentsMatch(Split(prefix, '/'), isPrefix, Split(path, '/')) <==> Denotes(prefix + Star(isPrefix), path)
    decreases |prefix|
  {
    var parts, pathParts := Split(prefix, '/'), Split(path, '/');
    if prefix == "" {
      assert "" + Star(isPrefix) == Star(isPrefix);
      if !isPrefix && SegmentsMatch(parts, isPrefix, pathParts) {
        assert PartMatches(parts, isPrefix, pathParts, 0);
        JoinSplit(path, '/');
      }
    } else {
      var rest := prefix[1..];
      assert prefix + Star(isPrefix) == [prefix[0]] + (rest + Star(isPrefix));
      if prefix[0] == '/' {
        SlashStep(prefix, isPrefix, path);
      } else if prefix[0] == '+' {
        assert parts[0] == "+";
        assert Split(rest, '/')[0] == "";
        PlusStep(prefix, isPrefix, path);
      } else {
        LiteralStep(prefix, isPrefix, path, start);
      }
    }
  }

  lemma {:induction false} SlashStep(prefix: string, isPrefix: bool, path: string)
    requires prefix != "" && prefix[0] == '/' && '*' !in prefix
    requires PlusComplete(Split(prefix, '/')[1..], true, isPrefix)
    ensures SegmentsMatch(Split(prefix, '/'), isPrefix, Split(path, '/')) <==> Denotes(prefix + Star(isPrefix), path)
    decreases |prefix|, 0
  {
    var rest := prefix[1..];
    var parts, pathParts := Split(prefix, '/'), Split(path, '/');
    assert parts == [""] + Split(rest, '/');
    assert (prefix + Star(isPrefix))[1..] == rest + Star(isPrefix);
    if path != "" && path[0] == '/' {
      SegmentsDenote(rest, isPrefix, path[1..], true);
      assert pathParts == [""] + Split(path[1..], '/');
      Shift(parts, isPrefix, pathParts);
    } else if |pathParts| >= |parts| {
      assert pathParts[0] != "";
      assert !PartMatches(parts, isPrefix, pathParts, 0);
    }
  }

  // Dropping an equal first part from both sides changes nothing.
  lemma {:induction false} Shift(parts: seq<string>, isPrefix: bool, pathParts: seq<string>)
    requires |parts| > 1 && |pathParts| > 1 && (parts[0] == pathParts[0] || parts[0] == "+")
    ensures SegmentsMatch(parts, isPrefix, pathParts) <==> SegmentsMatch(parts[1..], isPrefix, pathParts[1..])
  {
    if |parts| <= |pathParts| {
      assert PartMatches(parts, isPrefix, pathParts, 0);
      forall k | 0 <= k < |parts| - 1
        ensures PartMatches(parts[1..], isPrefix, pathParts[1..], k) <==> PartMatches(parts, isPrefix, pathParts, k + 1)
      {
      }
      assert forall k :: 0 < k < |parts| ==>
        (PartMatches(parts, isPrefix, pathParts, k) <==> PartMatches(parts[1..], isPrefix, pathParts[1..], k - 1));
    }
  }

  lemma {:induction false} LiteralStep(prefix: string, isPrefix: bool, path: string, start: bool)
    requires prefix != "" && prefix[0] != '/' && prefix[0] != '+' && '*' !in prefix
    requires PlusComplete(Split(prefix, '/'), start, isPrefix)
    ensures SegmentsMatch(Split(prefix, '/'), isPrefix, Split(path, '/')) <==> Denotes(prefix + Star(isPrefix), path)
    decreases |prefix|, 0
  {
    var rest, c := prefix[1..], prefix[0];
    var restParts := Split(rest, '/');
    LiteralParts(prefix, start, isPrefix);
    assert (prefix + Star(isPrefix))[1..] == rest + Star(isPrefix);
    if path != "" && path[0] == c {
      SegmentsDenote(rest, isPrefix, path[1..], false);
      Extend(c, restParts, isPrefix, Split(path[1..], '/'));
    } else {
      HeadDiffers(c, Split(prefix, '/'), isPrefix, Split(path, '/'));
    }
  }

  lemma {:induction false} LiteralParts(prefix: string, start: bool, isPrefix: bool)
    requires prefix != "" && prefix[0] != '/' && prefix[0] != '+'
    requires PlusComplete(Split(prefix, '/'), start, isPrefix)
    ensures PlusComplete(Split(prefix[1..], '/'), false, isPrefix)
  {
    var parts, restParts := Split(prefix, '/'), Split(prefix[1..], '/');
    assert parts == [[prefix[0]] + restParts[0]] + restParts[1..];
    assert parts[0][0] == prefix[0] && forall i :: 0 <= i < |restParts[0]| ==> restParts[0][i] == parts[0][i + 1];
    assert forall k :: 0 < k < |parts| ==> restParts[k] == parts[k];
  }

  lemma {:induction false} HeadDiffers(c: char, parts: seq<string>, isPrefix: bool, pathParts: seq<string>)
    requires |parts| > 0 && parts[0] != "" && parts[0][0] == c && c != '+'
    requires |pathParts| > 0 && (pathParts[0] == "" || pathParts[0][0] != c)
    ensures !SegmentsMatch(parts, isPrefix, pathParts)
  {
    assert !PartMatches(parts, isPrefix, pathParts, 0);
  }

  // Prepending a literal character to the first part of both sides changes nothing.
  lemma {:induction false} Extend(c: char, parts: seq<string>, isPrefix: bool, pathParts: seq<string>)
    requires c != '+' && |parts| > 0 && |pathParts| > 0 && '+' !in parts[0]
    ensures SegmentsMatch([[c] + parts[0]] + parts[1..], isPrefix, [[c] + pathParts[0]] + pathParts[1..])
            <==> SegmentsMatch(parts, isPrefix, pathParts)
  {
    var longer, longerPath := [[c] + parts[0]] + parts[1..], [[c] + pathParts[0]] + pathParts[1..];
    HeadPrefix(c, parts[0], pathParts[0]);
    assert longer[0][0] == c;
    assert forall k :: 0 <= k < |parts| && k < |pathParts| ==>
      (PartMatches(longer, isPrefix, longerPath, k) <==> PartMatches(parts, isPrefix, pathParts, k));
  }

  lemma {:induction false} HeadPrefix(c: char, a: string, b: string)
    ensures [c] + a == [c] + b <==> a == b
    ensures [c] + a <= [c] + b <==> a <= b
  {
    assert ([c] + a)[1..] == a && ([c] + b)[1..] == b;
    assert forall i :: 0 <= i < |a| ==> a[i] == ([c] + a)[i + 1];
    assert forall i :: 0 <= i < |b| ==> b[i] == ([c] + b)[i + 1];
  }

  lemma {:induction false} PlusStep(prefix: string, isPrefix: bool, path: string)
    requires prefix != "" && prefix[0] == '+' && '*' !in prefix
    requires Split(prefix[1..], '/')[0] == ""
    requires PlusComplete(Split(prefix, '/'), true, isPrefix)
    ensures SegmentsMatch(Split(prefix, '/'), isPrefix, Split(path, '/')) <==> Denotes(prefix + Star(isPrefix), path)
    decreases |prefix|, 1
  {
    var rest := prefix[1..];
    var pattern := prefix + Star(isPrefix);
    var parts, pathParts := Split(prefix, '/'), Split(path, '/');
    assert pattern[1..] == rest + Star(isPrefix);
    assert parts == ["+"] + Split(rest, '/')[1..];
    if rest == "" {
      assert !isPrefix;
      if |pathParts| == 1 {
        SplitPartsAvoidSeparator(path, '/');
        JoinSplit(path, '/');
        assert path[..|path|] == path && path[|path|..] == "";
        assert Denotes(pattern[1..], path[|path|..]);
        assert PartMatches(parts, isPrefix, pathParts, 0);
      } else if Denotes(pattern, path) {
        var k :| 0 <= k <= |path| && '/' !in path[..k] && Denotes(pattern[1..], path[k..]);
        assert path == path[..k] + path[k..];
        SplitWithout(path);
      }
    } else {
      assert rest[0] == '/';
      if '/' in path {
        var n := SlashIndex(path);
        SplitAtSlash(path, n);
        SlashTail(prefix, isPrefix, path, n);
      } else {
        SplitWithout(path);
        if Denotes(pattern, path) {
          var k :| 0 <= k <= |path| && '/' !in path[..k] && Denotes(pattern[1..], path[k..]);
          DenotesFromSlash(pattern[1..], path, k);
        }
      }
    }
  }

  // After `+`, the slash of the pattern is the first slash of the path.
  lemma {:induction false} SlashTail(prefix: string, isPrefix: bool, path: string, n: nat)
    requires |prefix| > 1 && prefix[0] == '+' && prefix[1] == '/' && '*' !in prefix
    requires PlusComplete(Split(prefix, '/'), true, isPrefix)
    requires n < |path| && path[n] == '/' && '/' !in path[..n]
    requires Split(path, '/') == [path[..n]] + Split(path[n + 1..], '/')
    ensures SegmentsMatch(Split(prefix, '/'), isPrefix, Split(path, '/')) <==> Denotes(prefix + Star(isPrefix), path)
    decreases |prefix|, 0
  {
    var rest, inner := prefix[1..], prefix[2..];
    var pattern := prefix + Star(isPrefix);
    var parts, pathParts := Split(prefix, '/'), Split(path, '/');
    assert rest[1..] == inner && rest[0] == '/';
    assert Split(rest, '/') == [""] + Split(inner, '/');
    assert parts == ["+"] + Split(inner, '/');
    assert forall k :: 0 <= k < |parts| - 1 ==> Split(inner, '/')[k] == parts[k + 1];
    assert pattern[1..] == rest + Star(isPrefix);
    assert pattern[1..][1..] == inner + Star(isPrefix);
    SegmentsDenote(inner, isPrefix, path[n + 1..], true);
    Shift(parts, isPrefix, pathParts);
    assert path[n..][1..] == path[n + 1..];
    if Denotes(inner + Star(isPrefix), path[n + 1..]) {
      assert Denotes(pattern[1..], path[n..]);
    }
    if Denotes(pattern, path) {
      var k :| 0 <= k <= |path| && '/' !in path[..k] && Denotes(pattern[1..], path[k..]);
      DenotesFromSlash(pattern[1..], path, k);
      FirstSlashUnique(path, n, k);
    }
  }

  lemma {:induction false} FirstSlashUnique(path: string, n: nat, k: nat)
    requires n < |path| && path[n] == '/' && '/' !in path[..n]
    requires k < |path| && path[k] == '/' && '/' !in path[..k]
    ensures n == k
  {
    assert forall i :: 0 <= i < n ==> path[..n][i] == path[i];
    assert forall i :: 0 <= i < k ==> path[..k][i] == path[i];
  }

  lemma {:induction false} DenotesFromSlash(pattern: string, path: string, k: nat)
    requires pattern != "" && pattern[0] == '/' && k <= |path| && Denotes(pattern, path[k..])
    ensures k < |path| && path[k] == '/' && '/' in path
  {
  }

  function SlashIndex(path: string): (n: nat)
    requires '/' in path
    ensures n < |path| && path[n] == '/' && '/' !in path[..n]
  {
    if path[0] == '/' then 0
    else
      var n := SlashIndex(path[1..]) + 1;
      assert path[..n] == [path[0]] + path[1..][..n - 1];
      n
  }

  lemma {:induction false} SplitAtSlash(path: string, n: nat)
    requires n < |path| && path[n] == '/' && '/' !in path[..n]
    ensures Split(path, '/') == [path[..n]] + Split(path[n + 1..], '/')
  {
    if n > 0 {
      assert path[0] in path[..n];
      assert path[1..][..n - 1] == path[..n][1..];
      SplitAtSlash(path[1..], n - 1);
      assert path[1..][n..] == path[n + 1..];
      assert [path[0]] + path[1..][..n - 1] == path[..n];
    }
  }

  lemma {:induction false} SplitWithout(path: string)
    requires '/' !in path
    ensures Split(path, '/') == [path]
  {
    if path != "" {
      SplitWithout(path[1..]);
      assert [path[0]] + path[1..] == path;
    }
  }

  lemma {:induction false} SplitAppend(s: string, c: char)
    requires c != '/'
    ensures Split(s + [c], '/') == Split(s, '/')[..|Split(s, '/')| - 1] + [Split(s, '/')[|Split(s, '/')| - 1] + [c]]
  {
    if s == "" {
      SplitWithout([c]);
      assert "" + [c] == [c];
    } else {
      var t := s[1..];
      SplitAppend(t, c);
      assert (s + [c])[1..] == t + [c];
      var below, above := Split(t, '/'), Split(t + [c], '/');
      if s[0] != '/' && |below| == 1 {
        assert [s[0]] + (below[0] + [c]) == ([s[0]] + below[0]) + [c];
      }
    }
  }

  // The parts of a pattern and of its starless prefix differ only in the last one.
  lemma {:induction false} PatternParts(pattern: string)
    requires EndsWithStar(pattern)
    ensures var parts := Split(CutStar(pattern), '/');
            Split(pattern, '/') == parts[..|parts| - 1] + [parts[|parts| - 1] + "*"]
  {
    assert pattern == CutStar(pattern) + ['*'];
    SplitAppend(CutStar(pattern), '*');
  }

  // Without a trailing star the parts are those of the pattern itself.
  lemma {:induction false} PlainParts(parts: seq<string>)
    requires |parts| > 0 && forall part :: part in parts && '+' in part ==> part == "+"
    ensures PlusComplete(parts, true, false)
  {
    assert forall k :: 0 <= k < |parts| ==> parts[k] in parts;
  }

  // With a trailing star the last part of the pattern is a star longer.
  lemma {:induction false} StarParts(parts: seq<string>, whole: seq<string>)
    requires |parts| > 0 && whole == parts[..|parts| - 1] + [parts[|parts| - 1] + "*"]
    requires forall part :: part in whole && '+' in part ==> part == "+"
    ensures PlusComplete(parts, true, true)
  {
    var last := |parts| - 1;
    assert whole[last] in whole && whole[last][|parts[last]|] == '*';
    assert forall c :: c in parts[last] ==> c in whole[last];
    forall k | 0 <= k < last ensures '+' in parts[k] ==> parts[k] == "+" {
      assert whole[k] in whole && whole[k] == parts[k];
    }
  }

  lemma {:induction false} ValidPatternShape(pattern: string)
    requires ValidPattern(pattern)
    ensures '*' !in CutStar(pattern)
    ensures PlusComplete(Split(CutStar(pattern), '/'), true, EndsWithStar(pattern))
    ensures pattern == CutStar(pattern) + Star(EndsWithStar(pattern))
  {
    if EndsWithStar(pattern) {
      PatternParts(pattern);
      StarParts(Split(CutStar(pattern), '/'), Split(pattern, '/'));
    } else {
      PlainParts(Split(pattern, '/'));
    }
  }

  // Without `+`, the meaning is a prefix or equality test.
  lemma {:induction false} LiteralDenotes(prefix: string, isPrefix: bool, path: string)
    requires '+' !in prefix && '*' !in prefix
    ensures Denotes(prefix + Star(isPrefix), path) <==> if isPrefix then prefix <= path else prefix == path
  {
    if prefix == "" {
      assert "" + Star(isPrefix) == Star(isPrefix);
    } else {
      assert prefix[0] in prefix;
      assert (prefix + Star(isPrefix))[1..] == prefix[1..] + Star(isPrefix);
      if path != "" && path[0] == prefix[0] {
        LiteralDenotes(prefix[1..], isPrefix, path[1..]);
        assert prefix == [prefix[0]] + prefix[1..] && path == [path[0]] + path[1..];
        assert prefix <= path <==> prefix[1..] <= path[1..];
      }
    }
  }

  /** MatchPattern's algorithm, fast path included, decides exactly the pattern's language. */
  lemma {:induction false} MatchesIsDenotes(pattern: string, path: string)
    requires ValidPattern(pattern)
    ensures Matches(pattern, path) <==> Denotes(pattern, path)
    ensures Matches(pattern, path) <==> SegmentsMatch(Split(CutStar(pattern), '/'), EndsWithStar(pattern), Split(path, '/'))
  {
    var prefix, isPrefix := CutStar(pattern), EndsWithStar(pattern);
    ValidPatternShape(pattern);
    SegmentsDenote(prefix, isPrefix, path, true);
    if '+' !in prefix {
      LiteralDenotes(prefix, isPrefix, path);
    }
  }

  predicate SegmentOverlaps(index: nat, segment: string) {
    || (index == 0 && (segment == "+" || segment == "*"))
    || (EndsWithStar(segment) && CutStar(segment) != "" && exists denied :: denied in DENIED_SEGMENTS && CutStar(segment) <= denied)
    || segment in DENIED_SEGMENTS
  }

  predicate OverlapsDenylist(pattern: string) {
    var segments := Split(ToLower(pattern), '/');
    exists index :: 0 <= index < |segments| && SegmentOverlaps(index, segments[index])
  }

  method CheckDenylist(pattern: string) returns (overlaps: bool)
    ensures overlaps == OverlapsDenylist(pattern)
  {
    var segments := Split(ToLower(pattern), '/');
    for index := 0 to |segments|
      invariant forall k :: 0 <= k < index ==> !SegmentOverlaps(k, segments[k])
    {
      if SegmentOverlaps(index, segments[index]) {
        return true;
      }
    }
    return false;
  }

  /** A segment of a pattern that names something: a literal or a named prefix glob. */
  predicate NamesSegment(part: string) {
    part != "+" && part != "*"
  }

  /**
    * The configuration-time denylist check is sound for the matcher: in any path an
    * accepted pattern matches, no segment standing at a naming position is denied,
    * whatever its letter case. The first segment always stands at such a position.
    */
  lemma {:induction false} AcceptedPatternsAvoidDenylist(pattern: string, path: string)
    requires ValidPattern(pattern) && !OverlapsDenylist(pattern) && Matches(pattern, path)
    ensures NamesSegment(Split(pattern, '/')[0])
    ensures |Split(CutStar(pattern), '/')| == |Split(pattern, '/')| <= |Split(path, '/')|
    ensures forall k :: 0 <= k < |Split(pattern, '/')| && NamesSegment(Split(pattern, '/')[k])
                        ==> ToLower(Split(path, '/')[k]) !in DENIED_SEGMENTS
  {
    MatchesIsDenotes(pattern, path);
    PatternPart(pattern, 0);
    assert |Split(CutStar(pattern), '/')| == |Split(pattern, '/')|;
    forall k | 0 <= k < |Split(pattern, '/')| && NamesSegment(Split(pattern, '/')[k])
      ensures ToLower(Split(path, '/')[k]) !in DENIED_SEGMENTS
    {
      PatternPart(pattern, k);
      PositionAvoidsDenylist(pattern, Split(CutStar(pattern), '/'), Split(pattern, '/')[k], Split(path, '/'), k);
    }
  }

  // The k-th part of an accepted pattern: its starless form, and its passing the check.
  lemma {:induction false} PatternPart(pattern: string, k: nat)
    requires ValidPattern(pattern) && !OverlapsDenylist(pattern)
    requires k < |Split(pattern, '/')|
    ensures |Split(CutStar(pattern), '/')| == |Split(pattern, '/')|
    ensures var parts, named := Split(CutStar(pattern), '/'), Split(pattern, '/')[k];
            && named == (if EndsWithStar(pattern) && k == |parts| - 1 then parts[k] + "*" else parts[k])
            && (parts[k] == "+" ==> named == "+")
            && !SegmentOverlaps(k, ToLower(named))
            && (k == 0 ==> NamesSegment(named))
  {
    if EndsWithStar(pattern) {
      PatternParts(pattern);
    }
    LowerFixes('/');
    SplitToLower(pattern, '/');
    var named := Split(pattern, '/')[k];
    assert named in Split(pattern, '/');
    assert Split(ToLower(pattern), '/')[k] == ToLower(named);
    assert ToLower("+") == "+" && ToLower("*") == "*";
  }

  lemma {:induction false} PositionAvoidsDenylist(pattern: string, parts: seq<string>, named: string, pathParts: seq<string>, k: nat)
    requires k < |parts| && SegmentsMatch(parts, EndsWithStar(pattern), pathParts)
    requires named == if EndsWithStar(pattern) && k == |parts| - 1 then parts[k] + "*" else parts[k]
    requires parts[k] == "+" ==> named == "+"
    requires NamesSegment(named) && !SegmentOverlaps(k, ToLower(named))
    ensures ToLower(pathParts[k]) !in DENIED_SEGMENTS
  {
    assert PartMatches(parts, EndsWithStar(pattern), pathParts, k);
    if EndsWithStar(pattern) && k == |parts| - 1 {
      assert parts[k] == "" ==> named == "*";
      NamedGlobAvoidsDenylist(parts[k], pathParts[k], k);
    }
  }

  lemma {:induction false} NamedGlobAvoidsDenylist(prefix: string, segment: string, k: nat)
    requires prefix != "" && prefix <= segment
    requires !SegmentOverlaps(k, ToLower(prefix + "*"))
    ensures ToLower(segment) !in DENIED_SEGMENTS
  {
    var glob := ToLower(prefix + "*");
    assert glob == ToLower(prefix) + "*";
    assert CutStar(glob) == ToLower(prefix);
    ToLowerPrefix(prefix, segment);
  }

  /** A valid pattern, character by character: a star only at the end, a plus only as a whole segment. */
  ghost predicate WellFormed(pattern: string) {
    && pattern != "" && pattern[0] != '/'
    && (forall i: nat :: i < |pattern| && pattern[i] == '*' ==> i == |pattern| - 1)
    && (forall i: nat :: i < |pattern| && pattern[i] == '+' ==>
          (i == 0 || pattern[i - 1] == '/') && (i == |pattern| - 1 || pattern[i + 1] == '/'))
  }

  /** Every plus in s stands alone between slashes; `start` tells whether s begins a segment. */
  predicate PlusAlone(s: string, start: bool) {
    forall i: nat :: i < |s| ==> PlusAt(s, start, i)
  }

  predicate PartsAlone(parts: seq<string>, start: bool)
    requires |parts| > 0
  {
    && ('+' in parts[0] ==> start && parts[0] == "+")
    && forall k :: 0 < k < |parts| && '+' in parts[k] ==> parts[k] == "+"
  }

  // The character at i of a text, seen from its tail.
  predicate PlusAt(s: string, start: bool, i: nat)
    requires i < |s|
  {
    s[i] == '+' ==> (if i == 0 then start else s[i - 1] == '/') && (i == |s| - 1 || s[i + 1] == '/')
  }

  lemma {:induction false} PlusAtTail(s: string, start: bool, i: nat)
    requires 0 < i < |s|
    ensures PlusAt(s, start, i) <==> PlusAt(s[1..], s[0] == '/', i - 1)
  {
  }

  lemma {:induction false} PlusTail(s: string, start: bool)
    requires s != ""
    ensures PlusAlone(s, start) <==> PlusAt(s, start, 0) && PlusAlone(s[1..], s[0] == '/')
  {
    forall i: nat | 0 < i < |s| ensures PlusAt(s, start, i) <==> PlusAt(s[1..], s[0] == '/', i - 1) {
      PlusAtTail(s, start, i);
    }
    if PlusAlone(s, start) {
      TailAlone(s[1..], s, start, s[0] == '/');
    }
  }

  lemma {:induction false} TailAlone(rest: string, s: string, start: bool, begins: bool)
    requires |s| == |rest| + 1 && PlusAlone(s, start)
    requires forall i: nat :: 0 < i < |s| ==> (PlusAt(s, start, i) <==> PlusAt(rest, begins, i - 1))
    ensures PlusAlone(rest, begins)
  {
    forall i: nat {:trigger PlusAt(rest, begins, i)} | i < |rest| ensures PlusAt(rest, begins, i) {
      assert PlusAt(s, start, i + 1);
    }
  }

  lemma {:induction false} PlusInParts(s: string, start: bool)
    ensures PlusAlone(s, start) <==> PartsAlone(Split(s, '/'), start)
  {
    if s != "" {
      var rest := Split(s[1..], '/');
      PlusTail(s, start);
      PlusInParts(s[1..], s[0] == '/');
      if s[0] == '/' {
        SlashParts(rest, start);
      } else {
        CharParts(s[0], s[1..], rest, start);
      }
    }
  }

  lemma {:induction false} SlashParts(rest: seq<string>, start: bool)
    requires |rest| > 0
    ensures PartsAlone([""] + rest, start) <==> PartsAlone(rest, true)
  {
    var parts := [""] + rest;
    assert forall k :: 0 <= k < |rest| ==> parts[k + 1] == rest[k];
    if PartsAlone(parts, start) {
      assert parts[1] == rest[0];
      forall k | 0 < k < |rest| && '+' in rest[k] ensures rest[k] == "+" {
        assert parts[k + 1] == rest[k];
      }
    }
  }

  lemma {:induction false} CharParts(c: char, tail: string, rest: seq<string>, start: bool)
    requires c != '/' && rest == Split(tail, '/')
    ensures PartsAlone([[c] + rest[0]] + rest[1..], start) <==>
            (c == '+' ==> start && (tail == "" || tail[0] == '/')) && PartsAlone(rest, false)
  {
    var parts := [[c] + rest[0]] + rest[1..];
    assert forall k :: 0 < k < |rest| ==> parts[k] == rest[k];
    assert rest[0] == "" <==> tail == "" || tail[0] == '/';
    assert ([c] + rest[0])[1..] == rest[0] && '+' in [c] + rest[0] <==> c == '+' || '+' in rest[0];
    assert [c] + rest[0] == "+" <==> c == '+' && rest[0] == "";
  }

  /** The check by segments accepts exactly the well-formed patterns. */
  lemma {:induction false} ValidPatternExact(pattern: string)
    ensures ValidPattern(pattern) <==> WellFormed(pattern)
  {
    var parts := Split(pattern, '/');
    PlusInParts(pattern, true);
    PartsMembers(parts);
    PlusWritten(pattern);
  }

  lemma {:induction false} PlusWritten(s: string)
    ensures PlusAlone(s, true) <==>
            forall i: nat :: i < |s| && s[i] == '+' ==> (i == 0 || s[i - 1] == '/') && (i == |s| - 1 || s[i + 1] == '/')
  {
    if PlusAlone(s, true) {
      forall i: nat | i < |s| && s[i] == '+' ensures (i == 0 || s[i - 1] == '/') && (i == |s| - 1 || s[i + 1] == '/') {
        assert PlusAt(s, true, i);
      }
    }
  }

  lemma {:induction false} PartsMembers(parts: seq<string>)
    requires |parts| > 0
    ensures (forall part :: part in parts && '+' in part ==> part == "+") <==> PartsAlone(parts, true)
  {
    if PartsAlone(parts, true) {
      forall part | part in parts && '+' in part ensures part == "+" {
        var k :| 0 <= k < |parts| && parts[k] == part;
      }
    }
  }

  // --------------------------------------------------- what the denylist check refuses

  lemma {:induction false} DeniedLetters(denied: string, i: nat)
    requires denied in DENIED_SEGMENTS && i < |denied|
    ensures LowerChar(denied[i]) == denied[i] != '/'
  {
  }

  // A denied name in the place of a glob, keeping the letters the glob gives.
  lemma {:induction false} CompleteGlob(prefix: string, denied: string)
    requires denied in DENIED_SEGMENTS && ToLower(prefix) <= denied && '/' !in prefix
    ensures var word := prefix + denied[|prefix|..]; ToLower(word) == denied && '/' !in word && prefix <= word
  {
    var word := prefix + denied[|prefix|..];
    forall i | 0 <= i < |word| ensures ToLower(word)[i] == denied[i] && word[i] != '/' {
      DeniedLetters(denied, i);
      if i < |prefix| {
        assert ToLower(prefix)[i] == denied[i];
        assert prefix[i] in prefix;
      }
    }
  }

  /** A path the pattern matches, with `word` at position k. */
  function Instance(parts: seq<string>, k: nat, word: string): seq<string> {
    seq(|parts|, j requires 0 <= j < |parts| => if j == k then word else if parts[j] == "+" then "x" else parts[j])
  }

  lemma {:induction false} InstanceMatches(pattern: string, parts: seq<string>, k: nat, word: string)
    requires ValidPattern(pattern) && parts == Split(CutStar(pattern), '/') && k < |parts| && '/' !in word
    requires parts[k] == word || (EndsWithStar(pattern) && k == |parts| - 1 && parts[k] <= word)
    ensures var path := Join(Instance(parts, k, word), "/");
            Matches(pattern, path) && Split(path, '/') == Instance(parts, k, word)
  {
    SplitPartsAvoidSeparator(CutStar(pattern), '/');
    SplitJoin(Instance(parts, k, word), '/');
    MatchesIsDenotes(pattern, Join(Instance(parts, k, word), "/"));
    assert forall j: nat {:trigger PartMatches(parts, EndsWithStar(pattern), Instance(parts, k, word), j)} :: j < |parts| ==>
      PartMatches(parts, EndsWithStar(pattern), Instance(parts, k, word), j);
  }

  /** The pattern matches some path with a denied name, in some letter case, where the pattern names a segment. */
  ghost predicate ReachesDenied(pattern: string) {
    exists path, k :: Matches(pattern, path) && 0 <= k < |Split(pattern, '/')| && k < |Split(path, '/')|
                      && NamesSegment(Split(pattern, '/')[k]) && ToLower(Split(path, '/')[k]) in DENIED_SEGMENTS
  }

  lemma {:induction false} OverlapReaches(pattern: string, k: nat)
    requires ValidPattern(pattern) && k < |Split(pattern, '/')|
    requires SegmentOverlaps(k, ToLower(Split(pattern, '/')[k])) && NamesSegment(Split(pattern, '/')[k])
    ensures ReachesDenied(pattern)
  {
    var word := DeniedWord(pattern, k);
    ReachesWord(pattern, k, word);
  }

  // The denied name a path can have at position k, in the letters the pattern fixes.
  lemma {:induction false} DeniedWord(pattern: string, k: nat) returns (word: string)
    requires ValidPattern(pattern) && k < |Split(pattern, '/')|
    requires SegmentOverlaps(k, ToLower(Split(pattern, '/')[k])) && NamesSegment(Split(pattern, '/')[k])
    ensures ToLower(word) in DENIED_SEGMENTS && '/' !in word
    ensures Fits(pattern, k, word)
  {
    var named := Split(pattern, '/')[k];
    if ToLower(named) in DENIED_SEGMENTS {
      SplitPartsAvoidSeparator(pattern, '/');
      DeniedIsLiteral(pattern, k);
      word := named;
    } else {
      var denied := GlobWord(named);
      StarIsLast(pattern, k);
      word := Completed(pattern, k, denied);
    }
  }

  /** A path matching the pattern can have the word at position k. */
  predicate Fits(pattern: string, k: nat, word: string) {
    var parts := Split(CutStar(pattern), '/');
    k < |parts| && (parts[k] == word || (EndsWithStar(pattern) && k == |parts| - 1 && parts[k] <= word))
  }

  lemma {:induction false} Completed(pattern: string, k: nat, denied: string) returns (word: string)
    requires EndsWithStar(pattern) && k == |Split(pattern, '/')| - 1 && denied in DENIED_SEGMENTS
    requires ToLower(CutStar(Split(pattern, '/')[k])) <= denied
    ensures ToLower(word) in DENIED_SEGMENTS && '/' !in word && Fits(pattern, k, word)
  {
    LastPart(pattern, k);
    var prefix := CutStar(Split(pattern, '/')[k]);
    CompleteGlob(prefix, denied);
    word := prefix + denied[|prefix|..];
  }

  lemma {:induction false} LastPart(pattern: string, k: nat)
    requires EndsWithStar(pattern) && k == |Split(pattern, '/')| - 1
    ensures var parts, prefix := Split(CutStar(pattern), '/'), CutStar(Split(pattern, '/')[k]);
            k == |parts| - 1 && parts[k] == prefix && '/' !in prefix
  {
    PatternParts(pattern);
    SplitPartsAvoidSeparator(CutStar(pattern), '/');
    var parts := Split(CutStar(pattern), '/');
    assert Split(pattern, '/')[k] == parts[k] + "*";
  }

  lemma {:induction false} ReachesWord(pattern: string, k: nat, word: string)
    requires ValidPattern(pattern) && k < |Split(pattern, '/')| && NamesSegment(Split(pattern, '/')[k])
    requires ToLower(word) in DENIED_SEGMENTS && '/' !in word && Fits(pattern, k, word)
    ensures ReachesDenied(pattern)
  {
    var parts := Split(CutStar(pattern), '/');
    InstanceMatches(pattern, parts, k, word);
    assert Split(Join(Instance(parts, k, word), "/"), '/')[k] == word;
  }

  // A segment that overlaps without being denied is a named glob.
  lemma {:induction false} GlobWord(named: string) returns (denied: string)
    requires ToLower(named) !in DENIED_SEGMENTS && NamesSegment(named)
    requires exists index :: SegmentOverlaps(index, ToLower(named))
    ensures EndsWithStar(named) && denied in DENIED_SEGMENTS && ToLower(CutStar(named)) <= denied
  {
    WildcardLower(named);
    var lower := ToLower(named);
    denied :| denied in DENIED_SEGMENTS && CutStar(lower) <= denied;
    LowerFixes('*');
    assert EndsWithStar(named) && ToLower(CutStar(named)) == CutStar(lower);
  }

  // Lower-casing makes no wildcard.
  lemma {:induction false} WildcardLower(named: string)
    ensures ToLower(named) == "+" <==> named == "+"
    ensures ToLower(named) == "*" <==> named == "*"
  {
    LowerFixes('*');
    LowerFixes('+');
    if ToLower(named) == "+" || ToLower(named) == "*" {
      assert |named| == 1 && named == [named[0]] && ToLower(named)[0] == LowerChar(named[0]);
    }
  }

  lemma {:induction false} StarIsLast(pattern: string, k: nat)
    requires ValidPattern(pattern) && k < |Split(pattern, '/')| && '*' in Split(pattern, '/')[k]
    ensures EndsWithStar(pattern) && k == |Split(pattern, '/')| - 1
  {
    ValidPatternShape(pattern);
    PartsWithout(CutStar(pattern), '*');
    if EndsWithStar(pattern) {
      PatternParts(pattern);
    }
  }

  lemma {:induction false} PartsWithout(s: string, c: char)
    requires c !in s
    ensures forall k :: 0 <= k < |Split(s, '/')| ==> c !in Split(s, '/')[k]
  {
    if s != "" {
      PartsWithout(s[1..], c);
    }
  }

  // A denied segment is a literal part of the pattern.
  lemma {:induction false} DeniedIsLiteral(pattern: string, k: nat)
    requires ValidPattern(pattern) && k < |Split(pattern, '/')| && ToLower(Split(pattern, '/')[k]) in DENIED_SEGMENTS
    ensures k < |Split(CutStar(pattern), '/')| && Split(CutStar(pattern), '/')[k] == Split(pattern, '/')[k]
  {
    var named := Split(pattern, '/')[k];
    DeniedEnds(named);
    if EndsWithStar(pattern) {
      PatternParts(pattern);
    }
  }

  lemma {:induction false} DeniedEnds(named: string)
    requires ToLower(named) in DENIED_SEGMENTS
    ensures named != "" && named[|named| - 1] != '*'
  {
    LowerFixes('*');
    var last := |named| - 1;
    assert ToLower(named)[last] == LowerChar(named[last]);
  }

  /**
    * The check refuses exactly the patterns that open with a wildcard or match some path
    * with a denied name where they name a segment.
    */
  lemma {:induction false} OverlapsExact(pattern: string)
    requires ValidPattern(pattern)
    ensures OverlapsDenylist(pattern) <==> !NamesSegment(Split(pattern, '/')[0]) || ReachesDenied(pattern)
  {
    LowerFixes('/');
    SplitToLower(pattern, '/');
    WildcardLower(Split(pattern, '/')[0]);
    if OverlapsDenylist(pattern) && NamesSegment(Split(pattern, '/')[0]) {
      var k :| 0 <= k < |Split(pattern, '/')| && SegmentOverlaps(k, ToLower(Split(pattern, '/')[k]));
      OverlapNames(Split(pattern, '/')[k], k);
      OverlapReaches(pattern, k);
    }
    if !OverlapsDenylist(pattern) {
      NothingReached(pattern);
    }
    if !NamesSegment(Split(pattern, '/')[0]) {
      assert SegmentOverlaps(0, ToLower(Split(pattern, '/')[0]));
    }
  }

  lemma {:induction false} NothingReached(pattern: string)
    requires ValidPattern(pattern) && !OverlapsDenylist(pattern)
    ensures !ReachesDenied(pattern)
  {
    forall path | Matches(pattern, path)
      ensures forall k :: 0 <= k < |Split(pattern, '/')| && k < |Split(path, '/')| && NamesSegment(Split(pattern, '/')[k])
                          ==> ToLower(Split(path, '/')[k]) !in DENIED_SEGMENTS
    {
      AcceptedPatternsAvoidDenylist(pattern, path);
    }
  }

  // Further in, a bare wildcard overlaps nothing.
  lemma {:induction false} OverlapNames(part: string, k: nat)
    requires SegmentOverlaps(k, ToLower(part)) && (k == 0 ==> NamesSegment(part))
    ensures NamesSegment(part)
  {
    assert ToLower("+") == "+" && ToLower("*") == "*";
    assert CutStar("*") == "";
  }
}
