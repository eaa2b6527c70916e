// The catalog of concrete paths a Grantable Rule offers: each listed key in place of the
// pattern's last segment, where the result is requestable.
module Discovery {
  import opened Options
  import opened Patterns
  import opened Refusals
  import opened Rules
  import opened Strings

  predicate IsFolder(key: string) {
    key != "" && key[|key| - 1] == '/'
  }

  /** The expansion of one key is offered: its last character is no slash, and the path could be requested. */
  predicate Offered(pattern: string, key: string, hidden: set<char>) {
    var path := SplitLastSegment(pattern).0 + key;
    (key != "" ==> key[|key| - 1] != '/') && Matches(pattern, path) && ConcretePath(path, hidden) == None && DeniedIn(path) == None
  }

  /** slices.Compact: drops immediate repetitions. */
  function Compact(s: seq<string>): seq<string> {
    if |s| < 2 then s
    else if s[0] == s[1] then Compact(s[1..])
    else [s[0]] + Compact(s[1..])
  }

  lemma {:induction false} CompactAscending(s: seq<string>)
    requires Ascending(s)
    ensures StrictlyAscending(Compact(s))
    ensures Elements(Compact(s)) == Elements(s)
    ensures s != [] ==> Compact(s) != [] && Compact(s)[0] == s[0]
  {
    if |s| >= 2 {
      var rest := s[1..];
      CompactAscending(rest);
      assert Elements(s) == {s[0]} + Elements(rest);
      if s[0] != s[1] {
        forall x | x in Compact(rest) ensures LexLe(s[0], x) && s[0] != x {
          assert x in Elements(rest);
          var k :| 0 <= k < |rest| && rest[k] == x;
          assert s[k + 1] == x;
          if s[0] == x {
            LexAntisymmetric(s[0], s[1]);
          }
        }
      }
    }
  }

  /** The path is the expansion of one of the first n keys that is offered. */
  predicate FoundAmong(pattern: string, keys: seq<string>, n: nat, hidden: set<char>, path: string)
    requires n <= |keys|
  {
    exists i :: 0 <= i < n && Offered(pattern, keys[i], hidden) && path == SplitLastSegment(pattern).0 + keys[i]
  }

  /** The catalog: exactly the offered expansions, each once, in ascending order. */
  method DiscoveredPaths(pattern: string, keys: seq<string>, hidden: set<char>) returns (paths: seq<string>)
    ensures StrictlyAscending(paths)
    ensures forall path :: path in paths <==> FoundAmong(pattern, keys, |keys|, hidden, path)
    ensures forall path :: path in paths && EndsInSlash(path) ==> "" in keys && path == SplitLastSegment(pattern).0
  {
    paths := CollectPaths(pattern, keys, hidden);
    SortedCompact(paths);
    paths := Compact(Sort(paths));
    forall path | path in paths && EndsInSlash(path) ensures "" in keys && path == SplitLastSegment(pattern).0 {
      OnlyDirectory(pattern, keys, hidden, path);
    }
  }

  predicate EndsInSlash(path: string) {
    path != "" && path[|path| - 1] == '/'
  }

  lemma {:induction false} LastOfSum(a: string, b: string)
    ensures b != "" ==> (a + b)[|a + b| - 1] == b[|b| - 1]
  {
  }

  // Of the offered paths only the directory itself, from an empty key, can end in a slash.
  lemma {:induction false} OnlyDirectory(pattern: string, keys: seq<string>, hidden: set<char>, path: string)
    requires FoundAmong(pattern, keys, |keys|, hidden, path) && EndsInSlash(path)
    ensures "" in keys && path == SplitLastSegment(pattern).0
  {
    var i :| 0 <= i < |keys| && Offered(pattern, keys[i], hidden) && path == SplitLastSegment(pattern).0 + keys[i];
    LastOfSum(SplitLastSegment(pattern).0, keys[i]);
  }

  /**
    * The catalog has a path ending in a slash exactly when an empty key is listed and the
    * directory itself could be requested; then it is that directory.
    */
  lemma {:induction false} FolderOfferedExact(pattern: string, keys: seq<string>, hidden: set<char>)
    ensures (exists path :: FoundAmong(pattern, keys, |keys|, hidden, path) && EndsInSlash(path)) <==>
            var directory := SplitLastSegment(pattern).0;
            "" in keys && Matches(pattern, directory) && ConcretePath(directory, hidden) == None && DeniedIn(directory) == None
  {
    var directory := SplitLastSegment(pattern).0;
    assert directory + "" == directory;
    if exists path :: FoundAmong(pattern, keys, |keys|, hidden, path) && EndsInSlash(path) {
      var path :| FoundAmong(pattern, keys, |keys|, hidden, path) && EndsInSlash(path);
      OnlyDirectory(pattern, keys, hidden, path);
    }
    if "" in keys && Matches(pattern, directory) && ConcretePath(directory, hidden) == None && DeniedIn(directory) == None {
      var i :| 0 <= i < |keys| && keys[i] == "";
      assert Offered(pattern, keys[i], hidden);
      assert FoundAmong(pattern, keys, |keys|, hidden, directory);
    }
  }

  /** For instance an empty key under `kv/+`. */
  lemma {:induction false} EmptyKeyOffersFolder()
    ensures FoundAmong("kv/+", [""], 1, {}, "kv/") && EndsInSlash("kv/")
  {
    assert SplitLastSegment("kv/+") == ("kv/", "+") by {
      assert "kv/+"[..3] == "kv/";
    }
    KvMatches();
    KvConcrete();
    KvUndenied();
    assert "kv/" + "" == "kv/" && [""][0] == "";
    assert Offered("kv/+", "", {});
  }

  lemma {:induction false} KvMatches()
    ensures Matches("kv/+", "kv/")
  {
    KvParts("");
    KvParts("+");
    assert "kv" + "/" + "" == "kv/" && "kv" + "/" + "+" == "kv/+";
  }

  lemma {:induction false} KvParts(last: string)
    requires '/' !in last
    ensures Split("kv" + "/" + last, '/') == ["kv", last]
  {
    SplitLast("kv", last);
    SplitPlain("kv", '/');
  }

  lemma {:induction false} KvUndenied()
    ensures DeniedIn("kv/") == None
  {
    KvParts("");
    assert "kv" + "/" + "" == "kv/";
    LowerStays("kv/");
    assert ["kv", ""][1..] == [""] && [""][1..] == [];
  }

  lemma {:induction false} KvConcrete()
    ensures ConcretePath("kv/", {}) == None
  {
    SplitPlain("kv", '/');
    assert TrimSlash("kv/") == "kv";
    KvBytes();
  }

  lemma {:induction false} KvBytes()
    ensures ByteLen("kv/") == 3
  {
    assert ByteLen("kv/") == 1 + ByteLen("v/");
    assert ByteLen("v/") == 1 + ByteLen("/");
    assert ByteLen("/") == 1 + ByteLen("");
  }

  method CollectPaths(pattern: string, keys: seq<string>, hidden: set<char>) returns (paths: seq<string>)
    ensures forall path :: path in paths <==> FoundAmong(pattern, keys, |keys|, hidden, path)
  {
    var (directory, _) := SplitLastSegment(pattern);
    paths := [];
    for index := 0 to |keys|
      invariant forall path :: path in paths <==> FoundAmong(pattern, keys, index, hidden, path)
    {
      var key := keys[index];
      var path := directory + key;
      var matched := MatchPattern(pattern, path);
      var objection := CheckConcretePath(path, hidden);
      var denied := FindDenied(path);
      OneMore(pattern, keys, index, hidden);
      if IsFolder(key) || !matched || objection != None || denied != None {
        continue;
      }
      paths := paths + [path];
    }
  }

  lemma {:induction false} OneMore(pattern: string, keys: seq<string>, n: nat, hidden: set<char>)
    requires n < |keys|
    ensures forall path :: FoundAmong(pattern, keys, n + 1, hidden, path) <==>
              FoundAmong(pattern, keys, n, hidden, path)
              || (Offered(pattern, keys[n], hidden) && path == SplitLastSegment(pattern).0 + keys[n])
  {
    var directory := SplitLastSegment(pattern).0;
    forall path
      ensures FoundAmong(pattern, keys, n + 1, hidden, path) <==>
              FoundAmong(pattern, keys, n, hidden, path) || (Offered(pattern, keys[n], hidden) && path == directory + keys[n])
    {
      if FoundAmong(pattern, keys, n + 1, hidden, path) {
        var i :| 0 <= i < n + 1 && Offered(pattern, keys[i], hidden) && path == SplitLastSegment(pattern).0 + keys[i];
        assert i < n ==> FoundAmong(pattern, keys, n, hidden, path);
      }
    }
  }

  lemma {:induction false} SortedCompact(paths: seq<string>)
    ensures StrictlyAscending(Compact(Sort(paths)))
    ensures forall path :: path in Compact(Sort(paths)) <==> path in paths
  {
    var sorted := Sort(paths);
    SameElements(sorted, paths);
    CompactAscending(sorted);
    forall path ensures path in Compact(sorted) <==> path in paths {
      assert path in Elements(Compact(sorted)) <==> path in Elements(sorted);
      assert path in Elements(sorted) <==> path in Elements(paths);
    }
  }

  /**
    * Every path of the catalog, requested with the rule's own capabilities and no lifetime,
    * is accepted under any valid policy that contains the rule.
    */
  lemma {:induction false} OfferedIsAccepted(p: Policy, rule: Rule, key: string)
    requires ValidPolicy(p) && rule in p.rules
    requires Offered(rule.path, key, p.hidden)
    ensures Resolve(p, ItemInput(SplitLastSegment(rule.path).0 + key, rule.capabilities, NoTtl)).Accepted?
  {
    var path := SplitLastSegment(rule.path).0 + key;
    var input := ItemInput(path, rule.capabilities, NoTtl);
    RuleNormalizes(rule, p.hidden);
    var list := Normalization(rule.capabilities).list;
    ResolveExact(p, input);
    assert CoversItem(rule, path, list);
    assert ValidRule(rule, p.hidden);
    assert RequestedTTL(NoTtl) <= CapOf(p, rule);
  }

  lemma {:induction false} RuleNormalizes(rule: Rule, hidden: set<char>)
    requires ValidRule(rule, hidden)
    ensures Normalization(rule.capabilities).Capabilities?
    ensures IsSubset(Normalization(rule.capabilities).list, rule.capabilities)
  {
    forall i | 0 <= i < |rule.capabilities| ensures NormalForm(rule.capabilities[i]) == rule.capabilities[i] && rule.capabilities[i] in GRANTABLE {
      assert rule.capabilities[i] in rule.capabilities;
      GrantableIsNormal(rule.capabilities[i]);
    }
    NormalizationExact(rule.capabilities);
  }

  /** A key that is no folder and is not offered could not be requested under the rule. */
  lemma {:induction false} UnofferedIsRefused(p: Policy, rule: Rule, key: string)
    requires p.rules == [rule] && !Offered(rule.path, key, p.hidden) && (key != "" ==> key[|key| - 1] != '/')
    ensures Resolve(p, ItemInput(SplitLastSegment(rule.path).0 + key, rule.capabilities, NoTtl)).Refused?
  {
    ResolveExact(p, ItemInput(SplitLastSegment(rule.path).0 + key, rule.capabilities, NoTtl));
  }
}
