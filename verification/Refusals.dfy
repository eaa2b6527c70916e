// What the rule engine accepts and what it refuses, written out on the requested text:
// paths character by character, denied names in any letter case, capabilities as typed.
module Refusals {
  import opened Options
  import opened Patterns
  import opened Rules
  import opened Strings
  import opened Time

  /** c is the small ASCII letter, or one of the letters that lower-case to it. */
  predicate SameLetter(c: char, small: char) {
    || c == small
    || ('A' <= c <= 'Z' && c as int + 32 == small as int)
    || (c == '\U{130}' && small == 'i')
    || (c == '\U{212A}' && small == 'k')
  }

  predicate SpelledLike(text: string, name: string) {
    |text| == |name| && forall i :: 0 <= i < |name| ==> SameLetter(text[i], name[i])
  }

  lemma {:induction false} SpelledExact(text: string, name: string)
    requires SmallLetters(name)
    ensures ToLower(text) == name <==> SpelledLike(text, name)
  {
    if SpelledLike(text, name) {
      assert forall i :: 0 <= i < |text| ==> ToLower(text)[i] == name[i];
    }
  }

  // ------------------------------------------------------------------ the denylist

  predicate NamesDenied(segment: string) {
    || SpelledLike(segment, "sys") || SpelledLike(segment, "auth")
    || SpelledLike(segment, "identity") || SpelledLike(segment, "cubbyhole")
  }

  lemma {:induction false} NamesDeniedExact(segment: string)
    ensures ToLower(segment) in DENIED_SEGMENTS <==> NamesDenied(segment)
  {
    SpelledExact(segment, "sys");
    SpelledExact(segment, "auth");
    SpelledExact(segment, "identity");
    SpelledExact(segment, "cubbyhole");
  }

  lemma {:induction false} FirstDeniedExact(segments: seq<string>)
    ensures FirstDenied(segments).Some? <==> exists k :: 0 <= k < |segments| && segments[k] in DENIED_SEGMENTS
    ensures FirstDenied(segments).Some? ==>
              exists k :: && 0 <= k < |segments| && segments[k] == FirstDenied(segments).value && segments[k] in DENIED_SEGMENTS
                          && forall j :: 0 <= j < k ==> segments[j] !in DENIED_SEGMENTS
  {
    if segments != [] && segments[0] !in DENIED_SEGMENTS {
      FirstDeniedExact(segments[1..]);
      if FirstDenied(segments).Some? {
        var k :| && 0 <= k < |segments[1..]| && segments[1..][k] == FirstDenied(segments).value && segments[1..][k] in DENIED_SEGMENTS
                 && forall j :: 0 <= j < k ==> segments[1..][j] !in DENIED_SEGMENTS;
        assert segments[k + 1] == segments[1..][k];
        assert forall j :: 0 < j < k + 1 ==> segments[j] == segments[1..][j - 1];
      }
      if exists k :: 0 <= k < |segments| && segments[k] in DENIED_SEGMENTS {
        var k :| 0 <= k < |segments| && segments[k] in DENIED_SEGMENTS;
        assert segments[1..][k - 1] == segments[k];
      }
    }
  }

  /** No segment of the path is a denied name, in any letter case. */
  predicate NoneDenied(path: string) {
    forall k :: 0 <= k < |Split(path, '/')| ==> !NamesDenied(Split(path, '/')[k])
  }

  /** segment is the lower-case form of the first part that is a denied name. */
  predicate FirstDeniedSegment(parts: seq<string>, segment: string) {
    exists k :: 0 <= k < |parts| && NamesDenied(parts[k]) && segment == ToLower(parts[k]) && forall j :: 0 <= j < k ==> !NamesDenied(parts[j])
  }

  /** The denylist looks at every segment of a path, in any letter case, and reports the first denied one. */
  lemma {:induction false} DeniedExact(path: string)
    ensures match DeniedIn(path)
            case None => NoneDenied(path)
            case Some(segment) => FirstDeniedSegment(Split(path, '/'), segment)
  {
    var parts, lower := Split(path, '/'), Split(ToLower(path), '/');
    LowerFixes('/');
    SplitToLower(path, '/');
    FirstDeniedExact(lower);
    forall k | 0 <= k < |parts| ensures lower[k] in DENIED_SEGMENTS <==> NamesDenied(parts[k]) {
      NamesDeniedExact(parts[k]);
    }
    if DeniedIn(path).Some? {
      var k :| && 0 <= k < |lower| && lower[k] == DeniedIn(path).value && lower[k] in DENIED_SEGMENTS
               && forall j :: 0 <= j < k ==> lower[j] !in DENIED_SEGMENTS;
      assert NamesDenied(parts[k]) && forall j :: 0 <= j < k ==> !NamesDenied(parts[j]);
    }
  }

  /** No accepted path has a segment named sys, auth, identity or cubbyhole, in any letter case. */
  lemma {:induction false} AcceptedPathsUndenied(p: Policy, input: ItemInput)
    requires Resolve(p, input).Accepted?
    ensures Resolve(p, input).item.path == input.path
    ensures forall k :: 0 <= k < |Split(input.path, '/')| ==> !NamesDenied(Split(input.path, '/')[k])
  {
    ResolveExact(p, input);
    DeniedExact(input.path);
  }

  // ---------------------------------------------------------------- concrete paths

  /** The defect each refusal of a path names. */
  predicate Defective(path: string, hidden: set<char>, defect: Refusal) {
    match defect
    case NoPath => path == ""
    case PathTooLong => ByteLen(path) > 512
    case PathNotConcrete => exists i :: 0 <= i < |path| && (path[i] == '*' || path[i] == '+')
    case LeadingSlash => path != "" && path[0] == '/'
    case BadCharacter =>
      exists i :: 0 <= i < |path| &&
        (path[i] < '!' || path[i] in hidden || path[i] == '"' || path[i] == '\\' || path[i] == '{' || path[i] == '}' || path[i] == '$')
    case BadSegment => exists k :: 0 <= k < |Split(path, '/')| && Misplaced(Split(path, '/'), k)
    case _ => false
  }

  /** A segment `.` or `..`, or an empty one that is not just what follows a final slash. */
  predicate Misplaced(parts: seq<string>, k: nat)
    requires k < |parts|
  {
    parts[k] == "." || parts[k] == ".." || (parts[k] == "" && (k == 0 || k < |parts| - 1))
  }

  lemma {:induction false} SplitFinalSlash(s: string)
    ensures Split(s + "/", '/') == Split(s, '/') + [""]
  {
    if s == "" {
      assert s + "/" == "/" && "/"[1..] == "";
    } else {
      assert (s + "/")[1..] == s[1..] + "/";
      SplitFinalSlash(s[1..]);
    }
  }

  lemma {:induction false} SegmentsExact(path: string)
    requires path != "" && path[0] != '/'
    ensures (exists part :: part in Split(TrimSlash(path), '/') && BadPart(part)) <==>
            exists k :: 0 <= k < |Split(path, '/')| && Misplaced(Split(path, '/'), k)
  {
    var parts, trimmed := Split(path, '/'), Split(TrimSlash(path), '/');
    if path[|path| - 1] == '/' {
      assert path == TrimSlash(path) + "/";
      SplitFinalSlash(TrimSlash(path));
    } else {
      LastPartNamed(path);
    }
    FirstPartNamed(path);
    if exists k :: 0 <= k < |parts| && Misplaced(parts, k) {
      var k :| 0 <= k < |parts| && Misplaced(parts, k);
      assert k < |trimmed| && trimmed[k] == parts[k];
      assert trimmed[k] in trimmed && BadPart(trimmed[k]);
    }
    if exists part :: part in trimmed && BadPart(part) {
      var part :| part in trimmed && BadPart(part);
      var k :| 0 <= k < |trimmed| && trimmed[k] == part;
      assert parts[k] == part && Misplaced(parts, k);
    }
  }

  lemma {:induction false} FirstPartNamed(path: string)
    requires path != "" && path[0] != '/'
    ensures Split(path, '/')[0] != ""
  {
  }

  lemma {:induction false} LastPartNamed(path: string)
    requires path != "" && path[|path| - 1] != '/'
    ensures var parts := Split(path, '/'); parts[|parts| - 1] != ""
  {
    var front, c := path[..|path| - 1], path[|path| - 1];
    assert path == front + [c];
    SplitAppend(front, c);
  }

  /** The order in which the defects of a path are looked for. */
  function Rank(defect: Refusal): nat {
    match defect
    case NoPath => 0
    case PathTooLong => 1
    case PathNotConcrete => 2
    case LeadingSlash => 3
    case BadCharacter => 4
    case BadSegment => 5
    case _ => 6
  }

  /** A path is concrete exactly when it has no defect, and is refused for the first it has. */
  lemma {:induction false} ConcretePathExact(path: string, hidden: set<char>)
    ensures match ConcretePath(path, hidden)
            case None => forall defect :: !Defective(path, hidden, defect)
            case Some(refusal) =>
              Defective(path, hidden, refusal) && forall defect :: Rank(defect) < Rank(refusal) ==> !Defective(path, hidden, defect)
  {
    CharacterDefects(path, hidden);
    if path != "" && path[0] != '/' {
      SegmentsExact(path);
    }
  }

  lemma {:induction false} CharacterDefects(path: string, hidden: set<char>)
    ensures Defective(path, hidden, PathNotConcrete) <==> '*' in path || '+' in path
    ensures Defective(path, hidden, BadCharacter) <==> exists c :: c in path && BadChar(c, hidden)
  {
    if exists c :: c in path && BadChar(c, hidden) {
      var c :| c in path && BadChar(c, hidden);
      var i :| 0 <= i < |path| && path[i] == c;
    }
    if Defective(path, hidden, BadCharacter) {
      var i :| 0 <= i < |path| &&
        (path[i] < '!' || path[i] in hidden || path[i] == '"' || path[i] == '\\' || path[i] == '{' || path[i] == '}' || path[i] == '$');
      assert path[i] in path && BadChar(path[i], hidden);
    }
  }

  // ------------------------------------------------------------------ capabilities

  predicate Grantable(name: string) {
    name == "create" || name == "read" || name == "update" || name == "patch" || name == "delete" || name == "list"
  }

  /** The text is the capability's name in any letter case, between white space. */
  ghost predicate AsksFor(text: string, name: string) {
    exists before, word, after :: text == before + word + after
      && AllBlank(before, IsSpace) && AllBlank(after, IsSpace) && SpelledLike(word, name)
  }

  ghost predicate AsksGrantable(text: string) {
    exists name :: Grantable(name) && AsksFor(text, name)
  }

  lemma {:induction false} LetterVisible(c: char, small: char)
    requires 'a' <= small <= 'z' && SameLetter(c, small)
    ensures !IsSpace(c)
  {
  }

  lemma {:induction false} AsksForExact(text: string, name: string)
    requires SmallLetters(name) && name != ""
    ensures NormalForm(text) == name <==> AsksFor(text, name)
  {
    if NormalForm(text) == name {
      var before, after := Trimmed(text, IsSpace);
      SpelledExact(TrimSpace(text), name);
    }
    if AsksFor(text, name) {
      var before, word, after :| text == before + word + after
        && AllBlank(before, IsSpace) && AllBlank(after, IsSpace) && SpelledLike(word, name);
      LetterVisible(word[0], name[0]);
      LetterVisible(word[|word| - 1], name[|name| - 1]);
      TrimExact(before, word, after, IsSpace);
      SpelledExact(word, name);
    }
  }

  lemma {:induction false} GrantableExact(name: string)
    ensures name in GRANTABLE <==> Grantable(name)
    ensures Grantable(name) || name == "sudo" ==> SmallLetters(name) && name != ""
  {
  }

  lemma {:induction false} AsksGrantableExact(text: string)
    ensures NormalForm(text) in GRANTABLE <==> AsksGrantable(text)
  {
    if NormalForm(text) in GRANTABLE {
      GrantableExact(NormalForm(text));
      AsksForExact(text, NormalForm(text));
    }
    if AsksGrantable(text) {
      var name :| Grantable(name) && AsksFor(text, name);
      GrantableExact(name);
      AsksForExact(text, name);
    }
  }

  /** The requested texts come to this list, each capability in it once. */
  ghost predicate NormalizedTo(requested: seq<string>, list: seq<string>) {
    && requested != [] && (forall i :: 0 <= i < |requested| ==> AsksGrantable(requested[i]))
    && StrictlyAscending(list)
    && (forall name :: name in list <==> Grantable(name) && exists i :: 0 <= i < |requested| && AsksFor(requested[i], name))
  }

  /** The first text that asks for nothing grantable. */
  ghost predicate FirstBad(requested: seq<string>, i: nat) {
    i < |requested| && !AsksGrantable(requested[i]) && forall j :: 0 <= j < i ==> AsksGrantable(requested[j])
  }

  ghost predicate BadFor(requested: seq<string>, refusal: Refusal) {
    if requested == [] then refusal == NoCapability
    else exists i: nat :: FirstBad(requested, i) &&
           refusal == if AsksFor(requested[i], "sudo") then SudoDenied else UnknownCapability(NormalForm(requested[i]))
  }

  lemma {:induction false} ListExact(requested: seq<string>)
    requires Normalization(requested).Capabilities?
    ensures NormalizedTo(requested, Normalization(requested).list)
  {
    var list := Normalization(requested).list;
    NormalizationExact(requested);
    forall i | 0 <= i < |requested| ensures AsksGrantable(requested[i]) {
      AsksGrantableExact(requested[i]);
    }
    forall name ensures name in list <==> Grantable(name) && exists i :: 0 <= i < |requested| && AsksFor(requested[i], name) {
      ListMember(requested, list, name);
    }
  }

  lemma {:induction false} ListMember(requested: seq<string>, list: seq<string>, name: string)
    requires forall c :: c in list ==> c in GRANTABLE
    requires forall c :: c in list <==> exists i :: 0 <= i < |requested| && NormalForm(requested[i]) == c
    ensures name in list <==> Grantable(name) && exists i :: 0 <= i < |requested| && AsksFor(requested[i], name)
  {
    GrantableExact(name);
    if Grantable(name) {
      forall i | 0 <= i < |requested| ensures NormalForm(requested[i]) == name <==> AsksFor(requested[i], name) {
        AsksForExact(requested[i], name);
      }
    }
  }

  lemma {:induction false} BadExact(requested: seq<string>)
    requires Normalization(requested).BadCapability?
    ensures BadFor(requested, Normalization(requested).refusal)
  {
    if requested != [] {
      var forms := NormalForms(requested);
      var i := CollectedRefusal(forms, |requested|);
      AsksGrantableExact(requested[i]);
      forall j | 0 <= j < i ensures AsksGrantable(requested[j]) {
        assert forms[j] == NormalForm(requested[j]);
        AsksGrantableExact(requested[j]);
      }
      GrantableExact("sudo");
      AsksForExact(requested[i], "sudo");
      assert FirstBad(requested, i);
    }
  }

  /** What normalizing makes of the requested texts, and what it refuses them for. */
  lemma {:induction false} CapabilitiesExact(requested: seq<string>)
    ensures match Normalization(requested)
            case Capabilities(list) => NormalizedTo(requested, list)
            case BadCapability(refusal) => BadFor(requested, refusal)
  {
    if Normalization(requested).Capabilities? {
      ListExact(requested);
    } else {
      BadExact(requested);
    }
  }

  /** Stored as one column, separated by commas, capabilities read back as they were. */
  lemma {:induction false} ColumnRoundTrip(list: seq<string>)
    requires NormalCapabilities(list)
    ensures Split(Join(list, ","), ',') == list
  {
    forall k | 0 <= k < |list| ensures ',' !in list[k] {
      assert list[k] in list;
      GrantableLetters(list[k]);
    }
    SplitJoin(list, ',');
  }

  // -------------------------------------------------------------------- resolution

  /** Every text asks for one of the allowed capabilities. */
  ghost predicate AskWithin(requested: seq<string>, allowed: seq<string>) {
    forall i :: 0 <= i < |requested| ==> AsksWithin(requested[i], allowed)
  }

  ghost predicate AsksWithin(text: string, allowed: seq<string>) {
    exists name :: name in allowed && AsksFor(text, name)
  }

  /** The rule stands in the policy, its pattern covers the path, and it names every requested capability. */
  ghost predicate Covering(p: Policy, rule: Rule, input: ItemInput) {
    && rule in p.rules && Denotes(rule.path, input.path)
    && AskWithin(input.capabilities, rule.capabilities)
  }

  /** maximum is the largest lifetime a covering rule allows. */
  ghost predicate Limit(p: Policy, input: ItemInput, maximum: int) {
    && (exists rule :: Covering(p, rule, input) && maximum == if rule.maxTTL > 0 then rule.maxTTL else p.defaultTTL)
    && (forall rule :: Covering(p, rule, input) ==> (if rule.maxTTL > 0 then rule.maxTTL else p.defaultTTL) <= maximum)
  }

  lemma {:induction false} CoveringExact(p: Policy, rule: Rule, input: ItemInput, list: seq<string>)
    requires ValidPolicy(p) && rule in p.rules && Normalization(input.capabilities) == Capabilities(list)
    ensures CoversItem(rule, input.path, list) <==> Covering(p, rule, input)
  {
    MatchesIsDenotes(rule.path, input.path);
    NormalizationExact(input.capabilities);
    SubsetExact(rule.capabilities, input.capabilities, list);
  }

  lemma {:induction false} SubsetExact(allowed: seq<string>, requested: seq<string>, list: seq<string>)
    requires forall c :: c in allowed ==> c in GRANTABLE
    requires forall c :: c in list <==> exists i :: 0 <= i < |requested| && NormalForm(requested[i]) == c
    ensures IsSubset(list, allowed) <==> AskWithin(requested, allowed)
  {
    forall i | 0 <= i < |requested| ensures AsksWithin(requested[i], allowed) <==> NormalForm(requested[i]) in allowed {
      WithinExact(requested[i], allowed);
    }
    assert forall i :: 0 <= i < |requested| ==> NormalForm(requested[i]) in list;
  }

  lemma {:induction false} WithinExact(text: string, allowed: seq<string>)
    requires forall c :: c in allowed ==> c in GRANTABLE
    ensures AsksWithin(text, allowed) <==> NormalForm(text) in allowed
  {
    if AsksWithin(text, allowed) {
      var name :| name in allowed && AsksFor(text, name);
      GrantableExact(name);
      AsksForExact(text, name);
    }
    if NormalForm(text) in allowed {
      GrantableExact(NormalForm(text));
      AsksForExact(text, NormalForm(text));
    }
  }

  ghost predicate Agree(p: Policy, input: ItemInput, list: seq<string>) {
    forall rule :: rule in p.rules ==> (CoversItem(rule, input.path, list) <==> Covering(p, rule, input))
  }

  lemma {:induction false} AllAgree(p: Policy, input: ItemInput, list: seq<string>)
    requires ValidPolicy(p) && Normalization(input.capabilities) == Capabilities(list)
    ensures Agree(p, input, list)
  {
    forall rule | rule in p.rules ensures CoversItem(rule, input.path, list) <==> Covering(p, rule, input) {
      CoveringExact(p, rule, input, list);
    }
  }

  lemma {:induction false} LimitExact(p: Policy, input: ItemInput, list: seq<string>, maximum: int)
    requires Agree(p, input, list)
    ensures LargestCap(p, input.path, list, maximum) <==> Limit(p, input, maximum)
  {
    if LargestCap(p, input.path, list, maximum) {
      LargestIsLimit(p, input, list, maximum);
    } else if Limit(p, input, maximum) {
      LimitIsLargest(p, input, list, maximum);
    }
  }

  lemma {:induction false} LargestIsLimit(p: Policy, input: ItemInput, list: seq<string>, maximum: int)
    requires Agree(p, input, list)
    requires LargestCap(p, input.path, list, maximum)
    ensures Limit(p, input, maximum)
  {
    var best :| best in p.rules && CoversItem(best, input.path, list) && CapOf(p, best) == maximum;
    assert Covering(p, best, input);
    forall rule | Covering(p, rule, input) ensures (if rule.maxTTL > 0 then rule.maxTTL else p.defaultTTL) <= maximum {
      assert rule in p.rules && CoversItem(rule, input.path, list);
      assert CapOf(p, rule) <= maximum;
    }
  }

  lemma {:induction false} LimitIsLargest(p: Policy, input: ItemInput, list: seq<string>, maximum: int)
    requires Agree(p, input, list)
    requires Limit(p, input, maximum)
    ensures LargestCap(p, input.path, list, maximum)
  {
    var best :| Covering(p, best, input) && maximum == if best.maxTTL > 0 then best.maxTTL else p.defaultTTL;
    assert best in p.rules && CoversItem(best, input.path, list) && CapOf(p, best) == maximum;
    forall rule | rule in p.rules && CoversItem(rule, input.path, list) ensures CapOf(p, rule) <= maximum {
      assert Covering(p, rule, input);
    }
  }

  /** The path is concrete and its capabilities are grantable. */
  ghost predicate WellPut(p: Policy, input: ItemInput) {
    Flawless(input.path, p.hidden) && AllGrantable(input.capabilities)
  }

  ghost predicate Flawless(path: string, hidden: set<char>) {
    forall defect :: !Defective(path, hidden, defect)
  }

  ghost predicate AllGrantable(requested: seq<string>) {
    requested != [] && forall i :: 0 <= i < |requested| ==> AsksGrantable(requested[i])
  }

  /** Well put, with no denied name in any segment and no lifetime under a second. */
  ghost predicate Presentable(p: Policy, input: ItemInput) {
    && WellPut(p, input) && NoneDenied(input.path)
    && (input.ttl.NoTtl? || (input.ttl.Ttl? && input.ttl.duration >= 1_000_000_000))
  }

  /** What a resolved item is: the path as given, its capabilities, and the lifetime asked for, or the default, up to the limit. */
  ghost predicate ResolvedTo(p: Policy, input: ItemInput, item: Resolved) {
    && item.path == input.path && NormalizedTo(input.capabilities, item.capabilities)
    && Limit(p, input, item.maxTTL)
    && (input.ttl.NoTtl? ==> item.ttl == if p.defaultTTL < item.maxTTL then p.defaultTTL else item.maxTTL)
    && (input.ttl.Ttl? ==> item.ttl == WholeSeconds(input.ttl.duration) <= item.maxTTL)
    && (exists rule :: Covering(p, rule, input) && rule.name == item.rule
                       && item.maxTTL == if rule.maxTTL > 0 then rule.maxTTL else p.defaultTTL)
  }

  /** Why an input is refused, in the order in which the reasons are looked for. */
  ghost predicate RefusedFor(p: Policy, input: ItemInput, refusal: Refusal) {
    if !Flawless(input.path, p.hidden) then
      Defective(input.path, p.hidden, refusal) && forall defect :: Rank(defect) < Rank(refusal) ==> !Defective(input.path, p.hidden, defect)
    else if !AllGrantable(input.capabilities) then BadFor(input.capabilities, refusal)
    else match refusal
      case DeniedSegment(segment) => FirstDeniedSegment(Split(input.path, '/'), segment)
      case TtlTooShort => NoneDenied(input.path) && (input.ttl.BadTtl? || (input.ttl.Ttl? && input.ttl.duration < 1_000_000_000))
      case NoMatchingRule => Presentable(p, input) && forall rule :: rule in p.rules ==> !Denotes(rule.path, input.path)
      case CapabilitiesExceed =>
        && Presentable(p, input) && (exists rule :: rule in p.rules && Denotes(rule.path, input.path))
        && forall rule :: !Covering(p, rule, input)
      case TtlExceeds(maximum) =>
        Presentable(p, input) && Limit(p, input, maximum) && input.ttl.Ttl? && WholeSeconds(input.ttl.duration) > maximum
      case _ => false
  }

  /** The resolution accepts a presentable input, or refuses it for the reason it names. */
  ghost predicate Explained(p: Policy, input: ItemInput, resolution: Resolution) {
    match resolution
    case Accepted(item) => Presentable(p, input) && ResolvedTo(p, input, item)
    case Refused(refusal) => RefusedFor(p, input, refusal)
  }

  lemma {:induction false} FlawlessExact(path: string, hidden: set<char>)
    ensures ConcretePath(path, hidden) == None <==> Flawless(path, hidden)
  {
    ConcretePathExact(path, hidden);
  }

  lemma {:induction false} AllGrantableExact(requested: seq<string>)
    ensures Normalization(requested).Capabilities? <==> AllGrantable(requested)
  {
    CapabilitiesExact(requested);
    if Normalization(requested).BadCapability? && requested != [] {
      var i: nat :| FirstBad(requested, i);
    }
  }

  /** Under a valid policy an input is resolved or refused for exactly these reasons. */
  lemma {:induction false} ResolutionExact(p: Policy, input: ItemInput)
    requires ValidPolicy(p)
    ensures Explained(p, input, Resolve(p, input))
  {
    FlawlessExact(input.path, p.hidden);
    AllGrantableExact(input.capabilities);
    if Flawless(input.path, p.hidden) && AllGrantable(input.capabilities) {
      PutResolution(p, input, Normalization(input.capabilities).list);
    } else {
      BadlyPut(p, input);
    }
  }

  lemma {:induction false} BadlyPut(p: Policy, input: ItemInput)
    requires !(Flawless(input.path, p.hidden) && AllGrantable(input.capabilities))
    ensures Explained(p, input, Resolve(p, input))
  {
    FlawlessExact(input.path, p.hidden);
    ConcretePathExact(input.path, p.hidden);
    if Flawless(input.path, p.hidden) {
      AllGrantableExact(input.capabilities);
      BadExact(input.capabilities);
    }
  }

  lemma {:induction false} PutResolution(p: Policy, input: ItemInput, list: seq<string>)
    requires ValidPolicy(p) && WellPut(p, input)
    requires ConcretePath(input.path, p.hidden) == None && Normalization(input.capabilities) == Capabilities(list)
    ensures Explained(p, input, Resolve(p, input))
  {
    DeniedExact(input.path);
    if Presentable(p, input) {
      PickExact(p, input, list);
    }
  }

  lemma {:induction false} PickExact(p: Policy, input: ItemInput, list: seq<string>)
    requires ValidPolicy(p) && Presentable(p, input) && Normalization(input.capabilities) == Capabilities(list)
    ensures Explained(p, input, PickRule(p, input.path, list, RequestedTTL(input.ttl)))
  {
    AllAgree(p, input, list);
    BestRuleExact(p, input.path, list, |p.rules|);
    match BestRule(p, input.path, list, |p.rules|)
    case None => PickNone(p, input, list);
    case Some(best) =>
      ListExact(input.capabilities);
      PickBest(p, input, list, best);
  }

  lemma {:induction false} PickNone(p: Policy, input: ItemInput, list: seq<string>)
    requires ValidPolicy(p) && Presentable(p, input) && Agree(p, input, list)
    requires forall i :: 0 <= i < |p.rules| ==> !CoversItem(p.rules[i], input.path, list)
    ensures RefusedFor(p, input, if SomeRuleMatches(p, input.path, |p.rules|) then CapabilitiesExceed else NoMatchingRule)
  {
    forall rule | rule in p.rules ensures !Covering(p, rule, input) {
      var i :| 0 <= i < |p.rules| && p.rules[i] == rule;
    }
    SomeDenotes(p, input.path);
  }

  lemma {:induction false} SomeDenotes(p: Policy, path: string)
    requires ValidPolicy(p)
    ensures SomeRuleMatches(p, path, |p.rules|) <==> exists rule :: rule in p.rules && Denotes(rule.path, path)
  {
    forall i | 0 <= i < |p.rules| ensures Matches(p.rules[i].path, path) <==> Denotes(p.rules[i].path, path) {
      assert p.rules[i] in p.rules;
      MatchesIsDenotes(p.rules[i].path, path);
    }
    if exists rule :: rule in p.rules && Denotes(rule.path, path) {
      var rule :| rule in p.rules && Denotes(rule.path, path);
      var i :| 0 <= i < |p.rules| && p.rules[i] == rule;
    }
  }

  lemma {:induction false} PickBest(p: Policy, input: ItemInput, list: seq<string>, best: nat)
    requires ValidPolicy(p) && Presentable(p, input) && Agree(p, input, list) && NormalizedTo(input.capabilities, list)
    requires BestRule(p, input.path, list, |p.rules|) == Some(best) && IsBest(p, input.path, list, |p.rules|, Some(best))
    ensures Explained(p, input, PickRule(p, input.path, list, RequestedTTL(input.ttl)))
  {
    var rule, maximum := p.rules[best], CapOf(p, p.rules[best]);
    assert rule in p.rules && Covering(p, rule, input);
    BestIsLargest(p, input.path, list, best);
    LimitExact(p, input, list, maximum);
    if input.ttl.Ttl? {
      WholeSecondsAtLeastOne(input.ttl.duration);
    }
  }

  lemma {:induction false} BestIsLargest(p: Policy, path: string, list: seq<string>, best: nat)
    requires IsBest(p, path, list, |p.rules|, Some(best))
    ensures LargestCap(p, path, list, CapOf(p, p.rules[best]))
  {
    assert p.rules[best] in p.rules;
    forall rule | rule in p.rules && CoversItem(rule, path, list) ensures CapOf(p, rule) <= CapOf(p, p.rules[best]) {
      var i :| 0 <= i < |p.rules| && p.rules[i] == rule;
    }
  }

  // ------------------------------------------------------------------------- rules

  /** The pattern's one wildcard is in its last segment, and the directory is concrete and not denied. */
  ghost predicate Discoverable(rule: Rule, hidden: set<char>) {
    var parts := Split(rule.path, '/');
    var last := parts[|parts| - 1];
    && (forall k :: 0 <= k < |parts| - 1 ==> '+' !in parts[k] && '*' !in parts[k])
    && (last == "+" || (last != "" && last[|last| - 1] == '*'))
    && Flawless(rule.discover, hidden) && NoneDenied(rule.discover)
  }

  lemma {:induction false} SplitLast(front: string, last: string)
    requires '/' !in last
    ensures Split(front + "/" + last, '/') == Split(front, '/') + [last]
  {
    if front == "" {
      SplitPrefix("", last, '/');
      SplitPlain(last, '/');
      assert "" + ['/'] + last == front + "/" + last;
    } else {
      assert (front + "/" + last)[1..] == front[1..] + "/" + last;
      SplitLast(front[1..], last);
    }
  }

  lemma {:induction false} InSomePart(s: string, c: char)
    requires c != '/'
    ensures c in s <==> exists k :: 0 <= k < |Split(s, '/')| && c in Split(s, '/')[k]
  {
    if s != "" {
      var rest, parts := Split(s[1..], '/'), Split(s, '/');
      InSomePart(s[1..], c);
      assert c in s <==> c == s[0] || c in s[1..];
      if s[0] == '/' {
        assert forall k :: 0 <= k < |rest| ==> parts[k + 1] == rest[k];
      } else {
        assert c in parts[0] <==> c == s[0] || c in rest[0];
        assert forall k :: 0 < k < |rest| ==> parts[k] == rest[k];
      }
    }
  }

  lemma {:induction false} LastSegmentExact(path: string)
    ensures var parts, (directory, last) := Split(path, '/'), SplitLastSegment(path);
            && last == parts[|parts| - 1]
            && forall c :: c != '/' ==> (c in directory <==> exists k :: 0 <= k < |parts| - 1 && c in parts[k])
  {
    var (directory, last) := SplitLastSegment(path);
    if directory == "" {
      SplitPlain(last, '/');
      assert path == last;
    } else {
      var front := directory[..|directory| - 1];
      assert directory == front + "/" && path == front + "/" + last;
      SplitLast(front, last);
      var parts := Split(path, '/');
      assert forall k :: 0 <= k < |parts| - 1 ==> parts[k] == Split(front, '/')[k];
      forall c | c != '/' ensures c in directory <==> exists k :: 0 <= k < |parts| - 1 && c in parts[k] {
        InSomePart(front, c);
      }
    }
  }

  // A path without wildcards overlaps the denylist exactly when a segment is denied.
  lemma {:induction false} ConcreteOverlaps(path: string)
    requires '*' !in path && '+' !in path
    ensures OverlapsDenylist(path) <==> !NoneDenied(path)
  {
    var parts, lower := Split(path, '/'), Split(ToLower(path), '/');
    LowerFixes('/');
    SplitToLower(path, '/');
    PartsWithout(path, '*');
    PartsWithout(path, '+');
    forall k | 0 <= k < |parts| ensures SegmentOverlaps(k, lower[k]) <==> NamesDenied(parts[k]) {
      NamesDeniedExact(parts[k]);
      PlainOverlaps(parts[k], k);
    }
  }

  lemma {:induction false} PlainOverlaps(part: string, k: nat)
    requires '*' !in part && '+' !in part
    ensures SegmentOverlaps(k, ToLower(part)) <==> ToLower(part) in DENIED_SEGMENTS
  {
    LowerFixes('*');
    WildcardLower(part);
    assert !EndsWithStar(ToLower(part));
  }

  lemma {:induction false} DiscoverExact(rule: Rule, hidden: set<char>)
    ensures ValidDiscover(rule, hidden) <==> Discoverable(rule, hidden)
  {
    LastSegmentExact(rule.path);
    FlawlessExact(rule.discover, hidden);
    if Flawless(rule.discover, hidden) {
      CharacterDefects(rule.discover, hidden);
      assert !Defective(rule.discover, hidden, PathNotConcrete);
      ConcreteOverlaps(rule.discover);
    }
  }

  lemma {:induction false} BlankExact(name: string)
    ensures BlankName(name) <==> forall i :: 0 <= i < |name| ==> IsSpace(name[i])
  {
    var before, after := Trimmed(name, IsSpace);
    if BlankName(name) {
      assert name == before + after;
    } else {
      var i := |before|;
      assert name[i] == TrimSpace(name)[0] && !IsSpace(name[i]);
    }
  }

  /**
    * A rule is valid exactly when it is named, its pattern is well formed, opens with no
    * wildcard and reaches no denied name, its capabilities are grantable, its cap is not
    * negative, and what it discovers is a concrete directory that is not denied.
    */
  lemma {:induction false} ValidRuleExact(rule: Rule, hidden: set<char>)
    ensures ValidRule(rule, hidden) <==>
            && (exists i :: 0 <= i < |rule.name| && !IsSpace(rule.name[i]))
            && WellFormed(rule.path) && NamesSegment(Split(rule.path, '/')[0]) && !ReachesDenied(rule.path)
            && rule.capabilities != [] && (forall c :: c in rule.capabilities ==> Grantable(c))
            && rule.maxTTL >= 0
            && (rule.discover != "" ==> Discoverable(rule, hidden))
  {
    BlankExact(rule.name);
    ValidPatternExact(rule.path);
    if ValidPattern(rule.path) {
      OverlapsExact(rule.path);
    }
    forall c ensures c in GRANTABLE <==> Grantable(c) {
      GrantableExact(c);
    }
    DiscoverExact(rule, hidden);
  }
}
