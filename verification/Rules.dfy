// The rule engine: which Permission Items may be requested at all, and for how long.
module Rules {
  import opened Options
  import opened Patterns
  import opened Strings
  import opened Time

  const GRANTABLE := ["create", "read", "update", "patch", "delete", "list"]
  const MAX_PATH_BYTES := 512

  /** An operator-defined Grantable Rule; maxTTL 0 means the policy's default. */
  datatype Rule = Rule(name: string, path: string, capabilities: seq<string>, maxTTL: int, discover: string)

  /** `hidden` holds the control and format characters of the Unicode tables. */
  datatype Policy = Policy(rules: seq<Rule>, defaultTTL: int, hidden: set<char>)

  /** A requested duration after time.ParseDuration. */
  datatype TtlInput = NoTtl | BadTtl | Ttl(duration: int)

  datatype ItemInput = ItemInput(path: string, capabilities: seq<string>, ttl: TtlInput)

  datatype Refusal =
    | NoPath | PathTooLong | PathNotConcrete | LeadingSlash | BadCharacter | BadSegment
    | NoCapability | SudoDenied | UnknownCapability(capability: string)
    | DeniedSegment(segment: string)
    | TtlTooShort
    | CapabilitiesExceed | NoMatchingRule
    | TtlExceeds(maximum: int)
    | Duplicate

  datatype Resolved = Resolved(path: string, capabilities: seq<string>, ttl: int, rule: string, maxTTL: int)

  datatype Resolution = Accepted(item: Resolved) | Refused(refusal: Refusal)

  // ---------------------------------------------------------------- validation

  predicate BlankName(name: string) {
    TrimSpace(name) == ""
  }

  predicate ValidRule(rule: Rule, hidden: set<char>) {
    && !BlankName(rule.name)
    && ValidPattern(rule.path)
    && !OverlapsDenylist(rule.path)
    && rule.capabilities != []
    && (forall c :: c in rule.capabilities ==> c in GRANTABLE)
    && rule.maxTTL >= 0
    && (rule.discover != "" ==> ValidDiscover(rule, hidden))
  }

  predicate ValidDiscover(rule: Rule, hidden: set<char>) {
    var (directory, last) := SplitLastSegment(rule.path);
    && '+' !in directory && '*' !in directory
    && (last == "+" || EndsWithStar(last))
    && ConcretePath(rule.discover, hidden) == None
    && !OverlapsDenylist(rule.discover)
  }

  /** Everything up to and including the last slash, and the last segment. */
  function SplitLastSegment(path: string): (r: (string, string))
    ensures r.0 + r.1 == path
    ensures '/' !in r.1
    ensures r.0 == "" || r.0[|r.0| - 1] == '/'
  {
    if path == "" then ("", "")
    else if path[|path| - 1] == '/' then (path, "")
    else
      var (directory, last) := SplitLastSegment(path[..|path| - 1]);
      (directory, last + [path[|path| - 1]])
  }

  /** A policy as configuration loading leaves it. */
  predicate ValidPolicy(p: Policy) {
    && p.defaultTTL >= SECOND
    && (forall rule :: rule in p.rules ==> ValidRule(rule, p.hidden) && (rule.maxTTL == 0 || rule.maxTTL >= SECOND))
  }

  method ValidateRule(rule: Rule, hidden: set<char>) returns (ok: bool)
    ensures ok <==> ValidRule(rule, hidden)
  {
    if BlankName(rule.name) {
      return false;
    }
    var valid := ValidatePattern(rule.path);
    if !valid {
      return false;
    }
    var overlaps := CheckDenylist(rule.path);
    if overlaps || rule.capabilities == [] {
      return false;
    }
    for index := 0 to |rule.capabilities|
      invariant forall k :: 0 <= k < index ==> rule.capabilities[k] in GRANTABLE
    {
      var capability := rule.capabilities[index];
      if capability == "sudo" || capability !in GRANTABLE {
        assert "sudo" !in GRANTABLE;
        return false;
      }
    }
    return rule.maxTTL >= 0 && (rule.discover != "" ==> ValidDiscover(rule, hidden));
  }

  predicate BadChar(c: char, hidden: set<char>) {
    c < '\U{21}' || c in hidden || c in "\"\\{}$"
  }

  predicate BadPart(part: string) {
    part == "" || part == "." || part == ".."
  }

  function TrimSlash(path: string): string {
    if path != "" && path[|path| - 1] == '/' then path[..|path| - 1] else path
  }

  /** checkConcretePath: the first objection to a requested path, if any. */
  function ConcretePath(path: string, hidden: set<char>): Option<Refusal> {
    if path == "" then Some(NoPath)
    else if ByteLen(path) > MAX_PATH_BYTES then Some(PathTooLong)
    else if '*' in path || '+' in path then Some(PathNotConcrete)
    else if path[0] == '/' then Some(LeadingSlash)
    else if exists c :: c in path && BadChar(c, hidden) then Some(BadCharacter)
    else if exists part :: part in Split(TrimSlash(path), '/') && BadPart(part) then Some(BadSegment)
    else None
  }

  method CheckConcretePath(path: string, hidden: set<char>) returns (refusal: Option<Refusal>)
    ensures refusal == ConcretePath(path, hidden)
  {
    if path == "" {
      return Some(NoPath);
    } else if ByteLen(path) > MAX_PATH_BYTES {
      return Some(PathTooLong);
    } else if '*' in path || '+' in path {
      return Some(PathNotConcrete);
    } else if path[0] == '/' {
      return Some(LeadingSlash);
    }
    for index := 0 to |path|
      invariant forall k :: 0 <= k < index ==> !BadChar(path[k], hidden)
    {
      if BadChar(path[index], hidden) {
        return Some(BadCharacter);
      }
    }
    var parts := Split(TrimSlash(path), '/');
    for index := 0 to |parts|
      invariant forall k :: 0 <= k < index ==> !BadPart(parts[k])
    {
      if BadPart(parts[index]) {
        return Some(BadSegment);
      }
    }
    return None;
  }

  // -------------------------------------------------------------- capabilities

  datatype Normalized = Capabilities(list: seq<string>) | BadCapability(refusal: Refusal)

  function NormalForm(capability: string): string {
    ToLower(TrimSpace(capability))
  }

  function NormalForms(requested: seq<string>): (forms: seq<string>)
    ensures |forms| == |requested|
    ensures forall i :: 0 <= i < |requested| ==> forms[i] == NormalForm(requested[i])
  {
    seq(|requested|, i requires 0 <= i < |requested| => NormalForm(requested[i]))
  }

  /** The distinct capabilities among the first n normal forms, in order of appearance. */
  function Collected(forms: seq<string>, n: nat): Normalized
    requires n <= |forms|
  {
    if n == 0 then Capabilities([])
    else match Collected(forms, n - 1)
      case BadCapability(refusal) => BadCapability(refusal)
      case Capabilities(list) =>
        var c := forms[n - 1];
        if c == "sudo" then BadCapability(SudoDenied)
        else if c !in GRANTABLE then BadCapability(UnknownCapability(c))
        else if c in list then Capabilities(list)
        else Capabilities(list + [c])
  }

  function Normalization(requested: seq<string>): Normalized {
    if requested == [] then BadCapability(NoCapability)
    else match Collected(NormalForms(requested), |requested|)
      case BadCapability(refusal) => BadCapability(refusal)
      case Capabilities(list) => Capabilities(Sort(list))
  }

  method NormalizeCapabilities(requested: seq<string>) returns (result: Normalized)
    ensures result == Normalization(requested)
  {
    if requested == [] {
      return BadCapability(NoCapability);
    }
    ghost var forms := NormalForms(requested);
    var capabilities := [];
    for index := 0 to |requested|
      invariant Collected(forms, index) == Capabilities(capabilities)
    {
      var capability := NormalForm(requested[index]);
      assert forms[index] == capability;
      if capability == "sudo" || capability !in GRANTABLE {
        result := BadCapability(if capability == "sudo" then SudoDenied else UnknownCapability(capability));
        RefusalPersists(forms, index + 1, |requested|);
        return;
      }
      if capability !in capabilities {
        capabilities := capabilities + [capability];
      }
    }
    return Capabilities(Sort(capabilities));
  }

  lemma {:induction false} RefusalPersists(forms: seq<string>, n: nat, m: nat)
    requires n <= m <= |forms| && Collected(forms, n).BadCapability?
    ensures Collected(forms, m) == Collected(forms, n)
  {
    if n < m {
      RefusalPersists(forms, n, m - 1);
    }
  }

  /** The form in which capabilities are stored: grantable, strictly ascending, not empty. */
  predicate NormalCapabilities(list: seq<string>) {
    list != [] && StrictlyAscending(list) && forall c :: c in list ==> c in GRANTABLE
  }

  lemma {:induction false} CollectedShape(forms: seq<string>, n: nat)
    requires n <= |forms| && Collected(forms, n).Capabilities?
    ensures var list := Collected(forms, n).list;
            && (forall i, j :: 0 <= i < j < |list| ==> list[i] != list[j])
            && (forall c :: c in list ==> c in GRANTABLE)
  {
    if n > 0 {
      CollectedShape(forms, n - 1);
    }
  }

  lemma {:induction false} CollectedElements(forms: seq<string>, n: nat, c: string)
    requires n <= |forms| && Collected(forms, n).Capabilities?
    ensures c in Collected(forms, n).list <==> exists i :: 0 <= i < n && forms[i] == c
  {
    if n > 0 {
      CollectedElements(forms, n - 1, c);
    }
  }

  lemma {:induction false} CollectedSucceeds(forms: seq<string>, n: nat)
    requires n <= |forms|
    ensures Collected(forms, n).Capabilities? <==> forall i :: 0 <= i < n ==> forms[i] in GRANTABLE
  {
    assert "sudo" !in GRANTABLE;
    if n > 0 {
      CollectedSucceeds(forms, n - 1);
    }
  }

  /** A bad capability is the first that is not grantable. */
  lemma {:induction false} CollectedRefusal(forms: seq<string>, n: nat) returns (i: nat)
    requires n <= |forms| && Collected(forms, n).BadCapability?
    ensures i < n && forms[i] !in GRANTABLE && forall j :: 0 <= j < i ==> forms[j] in GRANTABLE
    ensures Collected(forms, n).refusal == if forms[i] == "sudo" then SudoDenied else UnknownCapability(forms[i])
  {
    assert "sudo" !in GRANTABLE;
    if Collected(forms, n - 1).BadCapability? {
      i := CollectedRefusal(forms, n - 1);
    } else {
      i := n - 1;
      CollectedSucceeds(forms, n - 1);
    }
  }

  /** Normalizing succeeds exactly when every requested capability is grantable, and keeps them all. */
  lemma {:induction false} NormalizationExact(requested: seq<string>)
    ensures Normalization(requested).Capabilities? <==>
            requested != [] && forall i :: 0 <= i < |requested| ==> NormalForm(requested[i]) in GRANTABLE
    ensures Normalization(requested).Capabilities? ==>
            var list := Normalization(requested).list;
            && NormalCapabilities(list)
            && forall c :: c in list <==> exists i :: 0 <= i < |requested| && NormalForm(requested[i]) == c
  {
    if requested != [] {
      var forms := NormalForms(requested);
      CollectedSucceeds(forms, |requested|);
      if Collected(forms, |requested|).Capabilities? {
        var list := Collected(forms, |requested|).list;
        CollectedShape(forms, |requested|);
        SortDistinct(list);
        forall c ensures c in Sort(list) <==> exists i :: 0 <= i < |requested| && forms[i] == c {
          assert c in Elements(Sort(list)) <==> c in Elements(list);
          CollectedElements(forms, |requested|, c);
        }
        assert forms[0] in Sort(list);
      }
    }
  }

  predicate SmallLetters(c: string) {
    forall i :: 0 <= i < |c| ==> 'a' <= c[i] <= 'z'
  }

  lemma {:induction false} GrantableLetters(c: string)
    requires c in GRANTABLE
    ensures SmallLetters(c)
  {
  }

  lemma {:induction false} SmallIsNormal(c: string)
    requires SmallLetters(c)
    ensures NormalForm(c) == c
  {
    TightStays(c, IsSpace);
    LowerStays(c);
  }

  lemma {:induction false} GrantableIsNormal(c: string)
    requires c in GRANTABLE
    ensures NormalForm(c) == c
  {
    GrantableLetters(c);
    SmallIsNormal(c);
  }

  /** Stored capabilities normalize to themselves, so re-resolution sees the same set. */
  lemma {:induction false} NormalizationIdempotent(list: seq<string>)
    requires NormalCapabilities(list)
    ensures Normalization(list) == Capabilities(list)
  {
    forall i | 0 <= i < |list| ensures NormalForm(list[i]) == list[i] {
      assert list[i] in list;
      GrantableIsNormal(list[i]);
    }
    NormalizationExact(list);
    var again := Normalization(list).list;
    forall c ensures c in Elements(again) <==> c in Elements(list) {
      assert c in list <==> exists i :: 0 <= i < |list| && list[i] == c;
    }
    StrictlyAscendingUnique(again, list);
  }

  // ---------------------------------------------------------------- resolution

  function FirstDenied(segments: seq<string>): Option<string> {
    if segments == [] then None
    else if segments[0] in DENIED_SEGMENTS then Some(segments[0])
    else FirstDenied(segments[1..])
  }

  function DeniedIn(path: string): Option<string> {
    FirstDenied(Split(ToLower(path), '/'))
  }

  function CapOf(p: Policy, rule: Rule): int {
    if rule.maxTTL > 0 then rule.maxTTL else p.defaultTTL
  }

  predicate IsSubset(values: seq<string>, allowed: seq<string>) {
    forall v :: v in values ==> v in allowed
  }

  predicate CoversItem(rule: Rule, path: string, capabilities: seq<string>) {
    Matches(rule.path, path) && IsSubset(capabilities, rule.capabilities)
  }

  /** The covering rule with the largest cap among the first n; the first of equals. */
  function BestRule(p: Policy, path: string, capabilities: seq<string>, n: nat): (best: Option<nat>)
    requires n <= |p.rules|
    ensures best.Some? ==> best.value < n
  {
    if n == 0 then None
    else
      var best := BestRule(p, path, capabilities, n - 1);
      if CoversItem(p.rules[n - 1], path, capabilities)
         && (best == None || CapOf(p, p.rules[n - 1]) > CapOf(p, p.rules[best.value]))
      then Some(n - 1) else best
  }

  predicate SomeRuleMatches(p: Policy, path: string, n: nat)
    requires n <= |p.rules|
  {
    exists i :: 0 <= i < n && Matches(p.rules[i].path, path)
  }

  function RequestedTTL(ttl: TtlInput): int {
    if ttl.Ttl? then WholeSeconds(ttl.duration) else 0
  }

  predicate TtlAcceptable(ttl: TtlInput) {
    ttl.NoTtl? || (ttl.Ttl? && ttl.duration >= SECOND)
  }

  function PickRule(p: Policy, path: string, capabilities: seq<string>, requested: int): Resolution {
    match BestRule(p, path, capabilities, |p.rules|)
    case None => Refused(if SomeRuleMatches(p, path, |p.rules|) then CapabilitiesExceed else NoMatchingRule)
    case Some(best) =>
      var maximum := CapOf(p, p.rules[best]);
      if requested > maximum then Refused(TtlExceeds(maximum))
      else
        var ttl := if requested == 0 then p.defaultTTL else requested;
        Accepted(Resolved(path, capabilities, Min(ttl, maximum), p.rules[best].name, maximum))
  }

  function Resolve(p: Policy, input: ItemInput): Resolution {
    match ConcretePath(input.path, p.hidden)
    case Some(refusal) => Refused(refusal)
    case None =>
      match Normalization(input.capabilities)
      case BadCapability(refusal) => Refused(refusal)
      case Capabilities(capabilities) =>
        match DeniedIn(input.path)
        case Some(segment) => Refused(DeniedSegment(segment))
        case None =>
          if !TtlAcceptable(input.ttl) then Refused(TtlTooShort)
          else PickRule(p, input.path, capabilities, RequestedTTL(input.ttl))
  }

  method FindDenied(path: string) returns (segment: Option<string>)
    ensures segment == DeniedIn(path)
  {
    var segments := Split(ToLower(path), '/');
    for index := 0 to |segments|
      invariant FirstDenied(segments) == FirstDenied(segments[index..])
    {
      if segments[index] in DENIED_SEGMENTS {
        return Some(segments[index]);
      }
    }
    return None;
  }

  // The most permissive of the rules that cover the item.
  method ChooseRule(p: Policy, path: string, capabilities: seq<string>) returns (pathMatched: bool, best: Option<nat>)
    ensures pathMatched == SomeRuleMatches(p, path, |p.rules|)
    ensures best == BestRule(p, path, capabilities, |p.rules|)
  {
    pathMatched := false;
    best := None;
    for index := 0 to |p.rules|
      invariant pathMatched == SomeRuleMatches(p, path, index)
      invariant best == BestRule(p, path, capabilities, index)
    {
      var rule := p.rules[index];
      var matched := MatchPattern(rule.path, path);
      if !matched {
        continue;
      }
      pathMatched := true;
      if !IsSubset(capabilities, rule.capabilities) {
        continue;
      }
      if best == None || CapOf(p, rule) > CapOf(p, p.rules[best.value]) {
        best := Some(index);
      }
    }
  }

  method ResolveItem(p: Policy, input: ItemInput) returns (result: Resolution)
    ensures result == Resolve(p, input)
  {
    var path := input.path;
    var objection := CheckConcretePath(path, p.hidden);
    if objection.Some? {
      return Refused(objection.value);
    }
    var normalized := NormalizeCapabilities(input.capabilities);
    if normalized.BadCapability? {
      return Refused(normalized.refusal);
    }
    var capabilities := normalized.list;
    var segment := FindDenied(path);
    if segment.Some? {
      return Refused(DeniedSegment(segment.value));
    }
    var requested := 0;
    if input.ttl != NoTtl {
      if input.ttl.BadTtl? || input.ttl.duration < SECOND {
        return Refused(TtlTooShort);
      }
      requested := WholeSeconds(input.ttl.duration);
    }
    var pathMatched, best := ChooseRule(p, path, capabilities);
    if best == None {
      return Refused(if pathMatched then CapabilitiesExceed else NoMatchingRule);
    }
    var maxTTL := CapOf(p, p.rules[best.value]);
    if requested > maxTTL {
      return Refused(TtlExceeds(maxTTL));
    }
    var ttl := requested;
    if ttl == 0 {
      ttl := p.defaultTTL;
    }
    return Accepted(Resolved(path, capabilities, Min(ttl, maxTTL), p.rules[best.value].name, maxTTL));
  }

  // ---------------------------------------------------------------- properties

  /** cap is the largest cap of a rule covering the item. */
  ghost predicate LargestCap(p: Policy, path: string, capabilities: seq<string>, cap: int) {
    && (exists rule :: rule in p.rules && CoversItem(rule, path, capabilities) && CapOf(p, rule) == cap)
    && (forall rule :: rule in p.rules && CoversItem(rule, path, capabilities) ==> CapOf(p, rule) <= cap)
  }

  lemma {:induction false} BestRuleExact(p: Policy, path: string, capabilities: seq<string>, n: nat)
    requires n <= |p.rules|
    ensures IsBest(p, path, capabilities, n, BestRule(p, path, capabilities, n))
  {
    if n > 0 {
      BestRuleExact(p, path, capabilities, n - 1);
      NextBest(p, path, capabilities, n - 1, BestRule(p, path, capabilities, n - 1), BestRule(p, path, capabilities, n));
    }
  }

  /** best is a covering rule among the first n with the largest cap, if one covers. */
  predicate IsBest(p: Policy, path: string, capabilities: seq<string>, n: nat, best: Option<nat>)
    requires n <= |p.rules|
  {
    match best
    case None => forall i :: 0 <= i < n ==> !CoversItem(p.rules[i], path, capabilities)
    case Some(b) =>
      && b < n && CoversItem(p.rules[b], path, capabilities)
      && forall i :: 0 <= i < n && CoversItem(p.rules[i], path, capabilities) ==> CapOf(p, p.rules[i]) <= CapOf(p, p.rules[b])
  }

  lemma {:induction false} NextBest(p: Policy, path: string, capabilities: seq<string>, n: nat, best: Option<nat>, next: Option<nat>)
    requires n < |p.rules| && IsBest(p, path, capabilities, n, best)
    requires next == if CoversItem(p.rules[n], path, capabilities) && (best == None || CapOf(p, p.rules[n]) > CapOf(p, p.rules[best.value]))
                     then Some(n) else best
    ensures IsBest(p, path, capabilities, n + 1, next)
  {
  }

  /** The static checks a requested item must pass whatever the rules say. */
  predicate Admissible(p: Policy, input: ItemInput) {
    && ConcretePath(input.path, p.hidden) == None
    && Normalization(input.capabilities).Capabilities?
    && DeniedIn(input.path) == None
    && TtlAcceptable(input.ttl)
  }

  /**
    * Resolve accepts exactly the admissible inputs some rule covers with a cap of at
    * least the requested whole seconds, and answers with the largest such cap.
    */
  lemma {:induction false} ResolveExact(p: Policy, input: ItemInput)
    ensures Resolve(p, input).Accepted? <==>
            && Admissible(p, input)
            && exists rule :: rule in p.rules && CoversItem(rule, input.path, Normalization(input.capabilities).list)
                              && RequestedTTL(input.ttl) <= CapOf(p, rule)
    ensures Resolve(p, input).Accepted? ==>
            var r := Resolve(p, input).item;
            && r.path == input.path
            && Capabilities(r.capabilities) == Normalization(input.capabilities)
            && NormalCapabilities(r.capabilities)
            && LargestCap(p, r.path, r.capabilities, r.maxTTL)
            && r.ttl == Min(if input.ttl.Ttl? then WholeSeconds(input.ttl.duration) else p.defaultTTL, r.maxTTL)
  {
    if Admissible(p, input) {
      NormalizationExact(input.capabilities);
      var capabilities := Normalization(input.capabilities).list;
      BestRuleExact(p, input.path, capabilities, |p.rules|);
      var best := BestRule(p, input.path, capabilities, |p.rules|);
      if best.Some? {
        assert p.rules[best.value] in p.rules;
      }
      if input.ttl.Ttl? {
        WholeSecondsAtLeastOne(input.ttl.duration);
      }
    }
  }

  lemma {:induction false} WholeSecondsAtLeastOne(t: int)
    ensures t >= SECOND <==> WholeSeconds(t) >= SECOND
    ensures t >= SECOND ==> WholeSeconds(t) != 0
  {
  }

  lemma {:induction false} LargestCapUnique(p: Policy, q: Policy, path: string, capabilities: seq<string>, a: int, b: int)
    requires p.defaultTTL == q.defaultTTL
    requires forall rule :: rule in p.rules ==> rule in q.rules
    requires LargestCap(p, path, capabilities, a) && LargestCap(q, path, capabilities, b)
    ensures a <= b
  {
    var rule :| rule in p.rules && CoversItem(rule, path, capabilities) && CapOf(p, rule) == a;
    assert rule in q.rules && CapOf(q, rule) == a;
  }

  /** Adding rules never turns an acceptance into a refusal, nor shortens a lifetime or a cap. */
  lemma {:induction false} MoreRulesNeverHurt(p: Policy, q: Policy, input: ItemInput)
    requires p.defaultTTL == q.defaultTTL && p.hidden == q.hidden
    requires forall rule :: rule in p.rules ==> rule in q.rules
    requires Resolve(p, input).Accepted?
    ensures Resolve(q, input).Accepted?
    ensures Resolve(p, input).item.maxTTL <= Resolve(q, input).item.maxTTL
    ensures Resolve(p, input).item.ttl <= Resolve(q, input).item.ttl
  {
    ResolveExact(p, input);
    ResolveExact(q, input);
    var r := Resolve(p, input).item;
    var rule :| rule in p.rules && CoversItem(rule, r.path, r.capabilities) && RequestedTTL(input.ttl) <= CapOf(p, rule);
    assert rule in q.rules && CapOf(q, rule) == CapOf(p, rule);
    LargestCapUnique(p, q, r.path, r.capabilities, r.maxTTL, Resolve(q, input).item.maxTTL);
  }

  /** The outcome without the name of the rule that was picked among equals. */
  function Outcome(r: Resolution): Resolution {
    match r
    case Accepted(item) => Accepted(item.(rule := ""))
    case Refused(refusal) => Refused(refusal)
  }

  /** Refusal, lifetime and cap do not depend on the order or repetition of rules. */
  lemma {:induction false} OrderIndependent(p: Policy, q: Policy, input: ItemInput)
    requires p.defaultTTL == q.defaultTTL && p.hidden == q.hidden
    requires forall rule :: rule in p.rules <==> rule in q.rules
    ensures Outcome(Resolve(p, input)) == Outcome(Resolve(q, input))
  {
    if Resolve(p, input).Accepted? {
      MoreRulesNeverHurt(p, q, input);
      MoreRulesNeverHurt(q, p, input);
      ResolveExact(p, input);
      ResolveExact(q, input);
    } else if Resolve(q, input).Accepted? {
      MoreRulesNeverHurt(q, p, input);
    } else if Admissible(p, input) {
      RefusalOrderIndependent(p, q, input.path, Normalization(input.capabilities).list, RequestedTTL(input.ttl));
    }
  }

  lemma {:induction false} RefusalOrderIndependent(p: Policy, q: Policy, path: string, capabilities: seq<string>, requested: int)
    requires p.defaultTTL == q.defaultTTL
    requires forall rule :: rule in p.rules <==> rule in q.rules
    requires PickRule(p, path, capabilities, requested).Refused? && PickRule(q, path, capabilities, requested).Refused?
    ensures PickRule(p, path, capabilities, requested) == PickRule(q, path, capabilities, requested)
  {
    SameMatches(p, q, path);
    SameMatches(q, p, path);
    NoWorseRule(p, q, path, capabilities);
    NoWorseRule(q, p, path, capabilities);
  }

  lemma {:induction false} SameMatches(p: Policy, q: Policy, path: string)
    requires forall rule :: rule in p.rules ==> rule in q.rules
    ensures SomeRuleMatches(p, path, |p.rules|) ==> SomeRuleMatches(q, path, |q.rules|)
  {
    forall i | 0 <= i < |p.rules| ensures p.rules[i] in q.rules {
      assert p.rules[i] in p.rules;
    }
  }

  lemma {:induction false} NoWorseRule(p: Policy, q: Policy, path: string, capabilities: seq<string>)
    requires p.defaultTTL == q.defaultTTL
    requires forall rule :: rule in p.rules ==> rule in q.rules
    ensures var best, other := BestRule(p, path, capabilities, |p.rules|), BestRule(q, path, capabilities, |q.rules|);
            best.Some? ==> other.Some? && CapOf(p, p.rules[best.value]) <= CapOf(q, q.rules[other.value])
  {
    BestRuleExact(p, path, capabilities, |p.rules|);
    BestRuleExact(q, path, capabilities, |q.rules|);
    var best := BestRule(p, path, capabilities, |p.rules|);
    if best.Some? {
      assert p.rules[best.value] in p.rules;
      var i :| 0 <= i < |q.rules| && q.rules[i] == p.rules[best.value];
    }
  }

  /** Under a valid policy every accepted item lives at least a second and at most its cap. */
  lemma {:induction false} AcceptedLifetime(p: Policy, input: ItemInput)
    requires ValidPolicy(p) && Resolve(p, input).Accepted?
    ensures SECOND <= Resolve(p, input).item.ttl <= Resolve(p, input).item.maxTTL
  {
    ResolveExact(p, input);
    if input.ttl.Ttl? {
      WholeSecondsAtLeastOne(input.ttl.duration);
    }
  }
}
