// The local part of filing a Grant Request: resolving its items, and marking those the
// Requester's live grants already cover.
module Filing {
  import opened Options
  import opened OpenBao
  import opened Rules
  import opened Store
  import opened Strings
  import Decisions

  const MAX_ITEMS := 64

  function DropHidden(s: string, hidden: set<char>): string {
    if s == "" then "" else (if s[0] in hidden then "" else [s[0]]) + DropHidden(s[1..], hidden)
  }

  /** The longest prefix of at most `limit` bytes that does not split a character. */
  function Truncated(s: string, limit: int): string {
    if s == "" || Utf8Len(s[0]) > limit then "" else [s[0]] + Truncated(s[1..], limit - Utf8Len(s[0]))
  }

  function Sanitized(s: string, hidden: set<char>, limit: int): string {
    Truncated(DropHidden(s, hidden), limit)
  }

  /** The text under which two items of one request count as duplicates. */
  function Key(r: Resolved): string {
    r.path + "\0" + Join(r.capabilities, ",")
  }

  function RefusedEntry(p: Policy, input: ItemInput, id: Id, refusal: Rules.Refusal): Item {
    var capabilities := match Normalization(input.capabilities)
                        case Capabilities(list) => list
                        case BadCapability(_) => [];
    Item(id, Sanitized(input.path, p.hidden, MAX_PATH_BYTES), capabilities, 0, Store.Refused, Store.Refusal(refusal), 0, NOBODY, NO_ID, 0)
  }

  function PendingEntry(r: Resolved, id: Id): Item {
    Item(id, r.path, r.capabilities, r.ttl, Pending, NoReason, 0, NOBODY, NO_ID, 0)
  }

  function Resolutions(p: Policy, inputs: seq<ItemInput>): (rs: seq<Resolution>)
    ensures |rs| == |inputs|
  {
    seq(|inputs|, i requires 0 <= i < |inputs| => Resolve(p, inputs[i]))
  }

  /** The keys of the first n inputs that resolve. */
  function SeenKeys(rs: seq<Resolution>, n: nat): set<string>
    requires n <= |rs|
  {
    if n == 0 then {}
    else SeenKeys(rs, n - 1) + AcceptedKey(rs[n - 1])
  }

  function AcceptedKey(r: Resolution): set<string> {
    if r.Accepted? then {Key(r.item)} else {}
  }

  function FiledEntry(p: Policy, input: ItemInput, result: Resolution, seen: set<string>, id: Id): Item {
    match result
    case Refused(refusal) => RefusedEntry(p, input, id, refusal)
    case Accepted(r) => if Key(r) in seen then RefusedEntry(p, input, id, Duplicate) else PendingEntry(r, id)
  }

  function FiledItems(p: Policy, inputs: seq<ItemInput>, ids: seq<Id>): (items: seq<Item>)
    requires |inputs| == |ids|
    ensures |items| == |inputs|
  {
    var rs := Resolutions(p, inputs);
    seq(|inputs|, i requires 0 <= i < |inputs| => FiledEntry(p, inputs[i], rs[i], SeenKeys(rs, i), ids[i]))
  }

  predicate AsksFor(items: seq<Item>, path: string) {
    exists i :: 0 <= i < |items| && items[i].state == Pending && items[i].path == path
  }

  /** Item i of what is to be filed, and the resolution it follows from. */
  ghost predicate FiledAt(p: Policy, inputs: seq<ItemInput>, ids: seq<Id>, filed: seq<Item>, rs: seq<Resolution>, i: nat) {
    && i < |inputs| == |ids| == |filed| == |rs|
    && rs[i] == Resolve(p, inputs[i])
    && filed[i] == FiledEntry(p, inputs[i], rs[i], SeenKeys(rs, i), ids[i])
  }

  method FileItem(p: Policy, inputs: seq<ItemInput>, ids: seq<Id>, index: nat, seen: set<string>, ghost filed: seq<Item>, ghost rs: seq<Resolution>)
    returns (item: Item, seen': set<string>)
    requires FiledAt(p, inputs, ids, filed, rs, index)
    requires seen == SeenKeys(rs, index)
    ensures item == filed[index]
    ensures seen' == SeenKeys(rs, index + 1)
  {
    var result := ResolveItem(p, inputs[index]);
    item, seen' := Entry(p, inputs[index], result, seen, ids[index]);
  }

  method Entry(p: Policy, input: ItemInput, result: Resolution, seen: set<string>, id: Id) returns (item: Item, seen': set<string>)
    ensures item == FiledEntry(p, input, result, seen, id)
    ensures seen' == seen + AcceptedKey(result)
  {
    seen' := seen;
    var refusal := if result.Refused? then Some(result.refusal) else None;
    if result.Accepted? {
      var key := Key(result.item);
      if key in seen {
        refusal := Some(Duplicate);
      }
      seen' := seen + {key};
    }
    if refusal.Some? {
      item := RefusedEntry(p, input, id, refusal.value);
    } else {
      item := PendingEntry(result.item, id);
    }
  }

  /** The paths asked for so far, each once. */
  ghost predicate ChecksAll(checkPaths: seq<string>, items: seq<Item>) {
    forall path :: path in checkPaths <==> AsksFor(items, path)
  }

  method FileItems(p: Policy, inputs: seq<ItemInput>, ids: seq<Id>) returns (items: seq<Item>, checkPaths: seq<string>)
    requires |inputs| == |ids|
    ensures items == FiledItems(p, inputs, ids)
    ensures forall i :: 0 <= i < |inputs| ==> FiledFrom(p, inputs, i, ids[i], items[i])
    ensures ChecksAll(checkPaths, items)
  {
    items, checkPaths := FileEach(p, inputs, ids, FiledItems(p, inputs, ids), Resolutions(p, inputs));
    forall i | 0 <= i < |inputs| ensures FiledFrom(p, inputs, i, ids[i], items[i]) {
      FiledItemExact(p, inputs, ids, i);
    }
  }

  method FileEach(p: Policy, inputs: seq<ItemInput>, ids: seq<Id>, ghost filed: seq<Item>, ghost rs: seq<Resolution>)
    returns (items: seq<Item>, checkPaths: seq<string>)
    requires |inputs| == |ids| == |filed| == |rs|
    requires forall i {:trigger FiledAt(p, inputs, ids, filed, rs, i)} :: 0 <= i < |inputs| ==> FiledAt(p, inputs, ids, filed, rs, i)
    ensures items == filed
    ensures ChecksAll(checkPaths, items)
  {
    items, checkPaths := [], [];
    var seen: set<string> := {};
    for index := 0 to |inputs|
      invariant items == filed[..index]
      invariant seen == SeenKeys(rs, index)
      invariant ChecksAll(checkPaths, items)
    {
      var item;
      item, seen := FileItem(p, inputs, ids, index, seen, filed, rs);
      PrefixGrows(filed, index);
      items, checkPaths := AddItem(items, checkPaths, item);
    }
  }

  lemma {:induction false} PrefixGrows(items: seq<Item>, n: nat)
    requires n < |items|
    ensures items[..n + 1] == items[..n] + [items[n]]
  {
  }

  method AddItem(given: seq<Item>, asked: seq<string>, item: Item) returns (items: seq<Item>, checkPaths: seq<string>)
    requires ChecksAll(asked, given)
    ensures items == given + [item]
    ensures ChecksAll(checkPaths, items)
  {
    AsksForAppend(given, item);
    items, checkPaths := given + [item], asked;
    if item.state == Pending && item.path !in checkPaths {
      checkPaths := checkPaths + [item.path];
    }
  }

  lemma {:induction false} CheckedWhenPending(items: seq<Item>, checkPaths: seq<string>)
    requires ChecksAll(checkPaths, items)
    ensures checkPaths == [] <==> !HasPending(items)
  {
    assert checkPaths != [] ==> AsksFor(items, checkPaths[0]);
    if HasPending(items) {
      var i :| 0 <= i < |items| && items[i].state == Pending;
      assert AsksFor(items, items[i].path);
    }
  }

  lemma {:induction false} AsksForAppend(items: seq<Item>, item: Item)
    ensures forall path :: AsksFor(items + [item], path) <==> AsksFor(items, path) || (item.state == Pending && item.path == path)
  {
    var longer := items + [item];
    assert longer[|items|] == item;
    assert forall i :: 0 <= i < |items| ==> longer[i] == items[i];
  }

  /** Whether reported capabilities already include every requested one. */
  predicate Covers(granted: seq<string>, requested: seq<string>) {
    if "root" in granted then true else if "deny" in granted then false else IsSubset(requested, granted)
  }

  function Marked(bao: Bao, entity: string, now: int, item: Item): Item {
    if item.state == Pending && Covers(SelfCapabilities(bao, entity, item.path, now), item.capabilities)
    then item.(state := AlreadyGranted, reason := HasAlready) else item
  }

  function MarkedItems(bao: Bao, entity: string, now: int, items: seq<Item>): (r: seq<Item>)
    ensures |r| == |items|
  {
    seq(|items|, i requires 0 <= i < |items| => Marked(bao, entity, now, items[i]))
  }

  method MarkItems(given: seq<Item>, found: map<string, seq<string>>, ghost bao: Bao, ghost entity: string, ghost now: int)
    returns (items: seq<Item>)
    requires forall i :: 0 <= i < |given| && given[i].state == Pending ==>
               given[i].path in found && found[given[i].path] == SelfCapabilities(bao, entity, given[i].path, now)
    ensures items == MarkedItems(bao, entity, now, given)
  {
    items := given;
    for index := 0 to |items|
      invariant |items| == |given|
      invariant forall k :: 0 <= k < |given| ==> items[k] == if k < index then Marked(bao, entity, now, given[k]) else given[k]
    {
      if items[index].state == Pending && Covers(found[items[index].path], items[index].capabilities) {
        items := items[index := items[index].(state := AlreadyGranted, reason := HasAlready)];
      }
    }
  }

  // ---------------------------------------------------------------- properties

  lemma {:induction false} JoinInjective(a: seq<string>, b: seq<string>, sep: char)
    requires forall x :: x in a ==> x != "" && sep !in x
    requires forall x :: x in b ==> x != "" && sep !in x
    requires Join(a, [sep]) == Join(b, [sep])
    ensures a == b
  {
    if a == [] || b == [] {
      JoinEmpty(a, sep);
      JoinEmpty(b, sep);
    } else {
      JoinHead(a, sep);
      JoinHead(b, sep);
      CutUnique(a[0], if |a| == 1 then "" else [sep] + Join(a[1..], [sep]),
                b[0], if |b| == 1 then "" else [sep] + Join(b[1..], [sep]), sep);
      assert ([sep] + Join(a[1..], [sep]))[1..] == Join(a[1..], [sep]);
      assert ([sep] + Join(b[1..], [sep]))[1..] == Join(b[1..], [sep]);
      if |a| > 1 && |b| > 1 {
        assert forall x :: x in a[1..] ==> x in a;
        assert forall x :: x in b[1..] ==> x in b;
        JoinInjective(a[1..], b[1..], sep);
      }
      assert a == [a[0]] + a[1..] && b == [b[0]] + b[1..];
    }
  }

  lemma {:induction false} JoinEmpty(a: seq<string>, sep: char)
    requires forall x :: x in a ==> x != ""
    ensures Join(a, [sep]) == "" <==> a == []
  {
    assert a != [] ==> a[0] in a;
  }

  lemma {:induction false} JoinHead(a: seq<string>, sep: char)
    requires a != []
    ensures Join(a, [sep]) == a[0] + if |a| == 1 then "" else [sep] + Join(a[1..], [sep])
  {
  }

  // The text before the first separator is determined, and so is what follows.
  lemma {:induction false} CutUnique(a: string, restA: string, b: string, restB: string, sep: char)
    requires sep !in a && sep !in b
    requires restA == "" || restA[0] == sep
    requires restB == "" || restB[0] == sep
    requires a + restA == b + restB
    ensures a == b && restA == restB
  {
    assert forall i :: 0 <= i < |a| ==> (a + restA)[i] == a[i];
    assert forall i :: 0 <= i < |b| ==> (b + restB)[i] == b[i];
    assert restA != "" ==> (a + restA)[|a|] == sep;
    assert restB != "" ==> (b + restB)[|b|] == sep;
    assert |a| == |b|;
    assert a == (a + restA)[..|a|] && b == (b + restB)[..|b|];
    assert restA == (a + restA)[|a|..] && restB == (b + restB)[|b|..];
  }

  lemma {:induction false} GrantableHaveNoComma(c: string)
    requires c in GRANTABLE
    ensures c != "" && ',' !in c
  {
  }

  lemma {:induction false} ConcreteHasNoNul(path: string, hidden: set<char>)
    requires ConcretePath(path, hidden) == None
    ensures '\0' !in path
  {
    assert BadChar('\0', hidden);
  }

  ghost predicate Keyable(r: Resolved) {
    '\0' !in r.path && NormalCapabilities(r.capabilities)
  }

  /** Two resolved items share a key exactly when they ask for the same capabilities on the same path. */
  lemma {:induction false} KeyExact(r: Resolved, s: Resolved)
    requires Keyable(r) && Keyable(s)
    ensures Key(r) == Key(s) <==> r.path == s.path && r.capabilities == s.capabilities
  {
    if Key(r) == Key(s) {
      var capsR, capsS := Join(r.capabilities, ","), Join(s.capabilities, ",");
      assert Key(r) == r.path + ("\0" + capsR) && Key(s) == s.path + ("\0" + capsS);
      CutUnique(r.path, "\0" + capsR, s.path, "\0" + capsS, '\0');
      assert capsR == ("\0" + capsR)[1..] && capsS == ("\0" + capsS)[1..];
      forall c | c in r.capabilities || c in s.capabilities ensures c != "" && ',' !in c {
        GrantableHaveNoComma(c);
      }
      JoinInjective(r.capabilities, s.capabilities, ',');
    }
  }

  lemma {:induction false} AcceptedKeyable(p: Policy, input: ItemInput)
    requires Resolve(p, input).Accepted?
    ensures Keyable(Resolve(p, input).item)
  {
    ResolveExact(p, input);
    ConcreteHasNoNul(input.path, p.hidden);
  }

  /** Both resolve, to the same path and the same set of capabilities. */
  predicate SameRequest(a: Resolution, b: Resolution) {
    a.Accepted? && b.Accepted? && a.item.path == b.item.path && a.item.capabilities == b.item.capabilities
  }

  lemma {:induction false} SeenExact(rs: seq<Resolution>, n: nat, r: Resolution)
    requires n <= |rs| && r.Accepted? && Keyable(r.item)
    requires forall i :: 0 <= i < |rs| && rs[i].Accepted? ==> Keyable(rs[i].item)
    ensures Key(r.item) in SeenKeys(rs, n) <==> exists j :: 0 <= j < n && SameRequest(rs[j], r)
  {
    if n > 0 {
      SeenExact(rs, n - 1, r);
      if rs[n - 1].Accepted? {
        KeyExact(rs[n - 1].item, r.item);
      }
    }
  }

  // ------------------------------------------------------------ what is stored

  lemma {:induction false} DropAppend(a: string, b: string, hidden: set<char>)
    ensures DropHidden(a + b, hidden) == DropHidden(a, hidden) + DropHidden(b, hidden)
  {
    if a == "" {
      assert a + b == b;
    } else {
      assert (a + b)[1..] == a[1..] + b;
      DropAppend(a[1..], b, hidden);
    }
  }

  /** Dropping takes every hidden character out of a text, and each other one stays in its place. */
  lemma {:induction false} DropExact(s: string, hidden: set<char>)
    ensures forall c :: c in DropHidden(s, hidden) <==> c in s && c !in hidden
    ensures (forall c :: c in s ==> c !in hidden) ==> DropHidden(s, hidden) == s
  {
    if s != "" {
      DropExact(s[1..], hidden);
      assert forall c :: c in s <==> c == s[0] || c in s[1..];
      assert s == [s[0]] + s[1..];
    }
  }

  /** Truncating keeps the longest prefix of at most so many bytes. */
  lemma {:induction false} TruncateExact(s: string, limit: int)
    requires limit >= 0
    ensures Truncated(s, limit) <= s && ByteLen(Truncated(s, limit)) <= limit
    ensures forall n :: |Truncated(s, limit)| < n <= |s| ==> ByteLen(s[..n]) > limit
    ensures ByteLen(s) <= limit ==> Truncated(s, limit) == s
  {
    if s != "" {
      var size, rest := Utf8Len(s[0]), s[1..];
      if size <= limit {
        TruncateExact(rest, limit - size);
        assert s == [s[0]] + rest;
        forall n | |Truncated(s, limit)| < n <= |s| ensures ByteLen(s[..n]) > limit {
          assert s[..n][1..] == rest[..n - 1];
        }
      }
      if ByteLen(s) <= limit {
        assert s[..|s|] == s;
      }
    }
  }

  /** The path shown for a refused item: the one given, without hidden characters and cut to 512 bytes. */
  ghost predicate ShownPath(given: string, hidden: set<char>, shown: string) {
    && (forall c :: c in shown ==> c in given && c !in hidden)
    && ByteLen(shown) <= 512
    && ((forall c :: c in given ==> c !in hidden) ==>
          shown <= given && (shown != given ==> ByteLen(given[..|shown| + 1]) > 512))
  }

  lemma {:induction false} SanitizedExact(given: string, hidden: set<char>)
    ensures ShownPath(given, hidden, Sanitized(given, hidden, MAX_PATH_BYTES))
  {
    DropExact(given, hidden);
    TruncateExact(DropHidden(given, hidden), MAX_PATH_BYTES);
  }

  /** An item stored only for display: refused, with its path and capabilities in their stored form. */
  ghost predicate RefusedAs(p: Policy, input: ItemInput, item: Item, refusal: Rules.Refusal) {
    && item.state == Store.Refused && item.reason == Store.Refusal(refusal) && item.ttl == 0
    && ShownPath(input.path, p.hidden, item.path)
    && match Normalization(input.capabilities)
       case Capabilities(list) => item.capabilities == list
       case BadCapability(_) => item.capabilities == []
  }

  /**
    * What the static steps make of input i: refused as the rules have it, refused as a
    * duplicate of an earlier input that asks for the same, or pending as it resolves.
    */
  ghost predicate FiledFrom(p: Policy, inputs: seq<ItemInput>, i: nat, id: Id, item: Item)
    requires i < |inputs|
  {
    && item.id == id && item.decidedAt == 0 && item.decidedBy == NOBODY && item.grantId == "" && item.grantExpires == 0
    && match Resolve(p, inputs[i])
       case Refused(refusal) => RefusedAs(p, inputs[i], item, refusal)
       case Accepted(r) =>
         if exists j :: 0 <= j < i && SameRequest(Resolve(p, inputs[j]), Resolve(p, inputs[i]))
         then RefusedAs(p, inputs[i], item, Duplicate)
         else item.state == Pending && item.reason == NoReason && item.path == r.path && item.capabilities == r.capabilities && item.ttl == r.ttl
  }

  lemma {:induction false} RefusedEntryExact(p: Policy, input: ItemInput, id: Id, refusal: Rules.Refusal)
    ensures RefusedAs(p, input, RefusedEntry(p, input, id, refusal), refusal)
  {
    SanitizedExact(input.path, p.hidden);
  }

  lemma {:induction false} EntryExact(p: Policy, inputs: seq<ItemInput>, i: nat, result: Resolution, seen: set<string>, id: Id)
    requires i < |inputs| && result == Resolve(p, inputs[i])
    requires result.Accepted? ==>
               (Key(result.item) in seen <==> exists j :: 0 <= j < i && SameRequest(Resolve(p, inputs[j]), Resolve(p, inputs[i])))
    ensures FiledFrom(p, inputs, i, id, FiledEntry(p, inputs[i], result, seen, id))
  {
    if result.Refused? {
      RefusedEntryExact(p, inputs[i], id, result.refusal);
    } else {
      RefusedEntryExact(p, inputs[i], id, Duplicate);
    }
  }

  // The key of an input that resolves has been seen exactly when an earlier input asks for the same.
  lemma {:induction false} SeenBefore(p: Policy, inputs: seq<ItemInput>, i: nat)
    requires i < |inputs| && Resolve(p, inputs[i]).Accepted?
    ensures var rs := Resolutions(p, inputs);
            Key(rs[i].item) in SeenKeys(rs, i) <==> exists j :: 0 <= j < i && SameRequest(Resolve(p, inputs[j]), Resolve(p, inputs[i]))
  {
    var rs := Resolutions(p, inputs);
    forall k | 0 <= k < |rs| && rs[k].Accepted? ensures Keyable(rs[k].item) {
      AcceptedKeyable(p, inputs[k]);
    }
    SeenExact(rs, i, rs[i]);
    assert forall j :: 0 <= j < i ==> rs[j] == Resolve(p, inputs[j]);
  }

  /** Every item is filed as its own input and the earlier ones have it. */
  lemma {:induction false} FiledItemExact(p: Policy, inputs: seq<ItemInput>, ids: seq<Id>, i: nat)
    requires |inputs| == |ids| && i < |inputs|
    ensures FiledFrom(p, inputs, i, ids[i], FiledItems(p, inputs, ids)[i])
  {
    var rs := Resolutions(p, inputs);
    if rs[i].Accepted? {
      SeenBefore(p, inputs, i);
    }
    EntryExact(p, inputs, i, rs[i], SeenKeys(rs, i), ids[i]);
  }

  /**
    * Item i is left pending by the static steps exactly when it resolves and no earlier
    * item asks for the same; then it carries what resolution gave it.
    */
  lemma {:induction false} FiledExact(p: Policy, inputs: seq<ItemInput>, ids: seq<Id>, i: nat)
    requires |inputs| == |ids| && i < |inputs|
    ensures var item := FiledItems(p, inputs, ids)[i];
            && item.id == ids[i] && item.grantId == NO_ID
            && (item.state == Pending || item.state == Store.Refused)
            && (item.state == Pending <==>
                Resolve(p, inputs[i]).Accepted? && forall j :: 0 <= j < i ==> !SameRequest(Resolve(p, inputs[j]), Resolve(p, inputs[i])))
            && (item.state == Pending ==> Decisions.FiledUnder(p, inputs[i], item) && NormalCapabilities(item.capabilities))
  {
    var rs := Resolutions(p, inputs);
    if rs[i].Accepted? {
      forall k | 0 <= k < |rs| && rs[k].Accepted? ensures Keyable(rs[k].item) {
        AcceptedKeyable(p, inputs[k]);
      }
      SeenExact(rs, i, rs[i]);
    }
  }
}
