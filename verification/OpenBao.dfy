// The part of OpenBao the authorizer writes: ACL policies and the policy lists of
// entities, with the meaning OpenBao gives them.
module OpenBao {
  import opened Options
  import opened Strings

  const POLICY_PREFIX := "agent-grant-"

  function PolicyName(entity: string): string {
    POLICY_PREFIX + entity
  }

  lemma {:induction false} PolicyNameInjective(a: string, b: string)
    ensures PolicyName(a) == PolicyName(b) ==> a == b
  {
    assert PolicyName(a)[|POLICY_PREFIX|..] == a && PolicyName(b)[|POLICY_PREFIX|..] == b;
  }

  /** The expiration of a block: none, an instant, or a text that is no time. */
  datatype Expiration = Never | At(instant: int) | Malformed

  /** One path block of a policy document; it grants nothing from its expiration on. */
  datatype Block = Block(path: string, capabilities: seq<string>, expiration: Expiration)

  /** A stored policy; expiration 0 is the zero time and means none. */
  datatype AclPolicy = AclPolicy(blocks: seq<Block>, expiration: int)

  datatype Bao = Bao(policies: map<string, AclPolicy>, entities: map<string, seq<string>>)

  predicate PolicyLive(p: AclPolicy, now: int) {
    p.expiration == 0 || now < p.expiration
  }

  predicate Lapsed(e: Expiration, now: int) {
    match e
    case Never => false
    case At(instant) => now >= instant
    case Malformed => true
  }

  predicate BlockApplies(b: Block, path: string, now: int) {
    b.path == path && !Lapsed(b.expiration, now)
  }

  /** The access a policy gives on one path at one instant: the union of its live blocks. */
  predicate Gives(p: AclPolicy, now: int, path: string, capability: string) {
    PolicyLive(p, now) && exists b :: b in p.blocks && BlockApplies(b, path, now) && capability in b.capabilities
  }

  predicate Attached(bao: Bao, entity: string) {
    entity in bao.entities && PolicyName(entity) in bao.entities[entity]
  }

  /** The access the entity's own session policy gives it. */
  predicate Access(bao: Bao, entity: string, now: int, path: string, capability: string) {
    && Attached(bao, entity)
    && PolicyName(entity) in bao.policies
    && Gives(bao.policies[PolicyName(entity)], now, path, capability)
  }

  // -------------------------------------------------------------------- writes

  /** A write is refused for a foreign name or an expiration that has already passed. */
  predicate WriteAllowed(name: string, policy: AclPolicy, now: int) {
    POLICY_PREFIX <= name && (policy.expiration != 0 ==> now < policy.expiration)
  }

  function WithPolicy(bao: Bao, name: string, policy: AclPolicy): Bao {
    bao.(policies := bao.policies[name := policy])
  }

  function WithoutPolicy(bao: Bao, name: string): Bao {
    bao.(policies := bao.policies - {name})
  }

  function WithEntityPolicies(bao: Bao, entity: string, names: seq<string>): Bao {
    bao.(entities := bao.entities[entity := names])
  }

  // -------------------------------------------------------- capability lookups

  function Without(list: seq<string>, capability: string): seq<string> {
    if list == [] then []
    else (if list[0] == capability then [] else [list[0]]) + Without(list[1..], capability)
  }

  /** Appends the first n capabilities that are not there yet. */
  function Merged(list: seq<string>, capabilities: seq<string>, n: nat): seq<string>
    requires n <= |capabilities|
  {
    if n == 0 then list
    else
      var before := Merged(list, capabilities, n - 1);
      if capabilities[n - 1] in before then before else before + [capabilities[n - 1]]
  }

  function AfterBlock(list: seq<string>, b: Block, path: string, now: int): seq<string> {
    if BlockApplies(b, path, now) then Merged(Without(list, "deny"), b.capabilities, |b.capabilities|) else list
  }

  function AfterBlocks(list: seq<string>, blocks: seq<Block>, n: nat, path: string, now: int): seq<string>
    requires n <= |blocks|
  {
    if n == 0 then list else AfterBlock(AfterBlocks(list, blocks, n - 1, path, now), blocks[n - 1], path, now)
  }

  function AfterPolicies(bao: Bao, names: seq<string>, n: nat, path: string, now: int): seq<string>
    requires n <= |names|
  {
    if n == 0 then ["deny"]
    else
      var before := AfterPolicies(bao, names, n - 1, path, now);
      if names[n - 1] in bao.policies && PolicyLive(bao.policies[names[n - 1]], now)
      then AfterBlocks(before, bao.policies[names[n - 1]].blocks, |bao.policies[names[n - 1]].blocks|, path, now)
      else before
  }

  /** What capabilities-self reports for one path. */
  function SelfCapabilities(bao: Bao, entity: string, path: string, now: int): seq<string> {
    if entity !in bao.entities then ["deny"]
    else AfterPolicies(bao, bao.entities[entity], |bao.entities[entity]|, path, now)
  }

  // ------------------------------------------------------------- the live system

  class Server {
    var policies: map<string, AclPolicy>
    var entities: map<string, seq<string>>

    constructor (policies: map<string, AclPolicy>, entities: map<string, seq<string>>)
      ensures Contents() == Bao(policies, entities)
    {
      this.policies, this.entities := policies, entities;
    }

    function Contents(): Bao
      reads this
    {
      Bao(policies, entities)
    }

    // Every method takes whether the call fails; a failure has no effect.

    method ReadEntity(id: string, fault: bool) returns (names: Option<seq<string>>)
      ensures names == if fault || id !in entities then None else Some(entities[id])
    {
      return if fault || id !in entities then None else Some(entities[id]);
    }

    method SetEntityPolicies(id: string, names: seq<string>, fault: bool) returns (err: bool)
      modifies this
      ensures err <==> fault || id !in old(entities)
      ensures Contents() == if err then old(Contents()) else WithEntityPolicies(old(Contents()), id, names)
    {
      if fault || id !in entities {
        return true;
      }
      entities := entities[id := names];
      return false;
    }

    method WritePolicy(name: string, policy: AclPolicy, now: int, fault: bool) returns (err: bool)
      modifies this
      ensures err <==> fault || !WriteAllowed(name, policy, now)
      ensures err <==> fault || !("agent-grant-" <= name) || (policy.expiration != 0 && now >= policy.expiration)
      ensures Contents() == if err then old(Contents()) else WithPolicy(old(Contents()), name, policy)
    {
      if fault || !(POLICY_PREFIX <= name) {
        return true;
      }
      if policy.expiration != 0 && !(now < policy.expiration) {
        return true;
      }
      policies := policies[name := policy];
      return false;
    }

    method DeletePolicy(name: string, fault: bool) returns (err: bool)
      modifies this
      ensures err == fault
      ensures Contents() == if err then old(Contents()) else WithoutPolicy(old(Contents()), name)
    {
      if fault {
        return true;
      }
      policies := policies - {name};
      return false;
    }

    static method Merge(list: seq<string>, capabilities: seq<string>) returns (current: seq<string>)
      ensures current == Merged(list, capabilities, |capabilities|)
    {
      current := list;
      for k := 0 to |capabilities|
        invariant current == Merged(list, capabilities, k)
      {
        if capabilities[k] !in current {
          current := current + [capabilities[k]];
        }
      }
    }

    method CapabilitiesSelf(entity: string, paths: seq<string>, now: int, fault: bool) returns (result: Option<map<string, seq<string>>>)
      ensures result.None? <==> fault
      ensures result.Some? ==> result.value.Keys == Elements(paths)
      ensures result.Some? ==> forall path :: path in paths ==> result.value[path] == SelfCapabilities(Contents(), entity, path, now)
    {
      if fault {
        return None;
      }
      var found: map<string, seq<string>> := map path | path in paths :: ["deny"];
      if entity !in entities {
        return Some(found);
      }
      var names := entities[entity];
      for i := 0 to |names|
        invariant found.Keys == Elements(paths)
        invariant forall path :: path in paths ==> found[path] == AfterPolicies(Contents(), names, i, path, now)
      {
        if names[i] !in policies || !PolicyLive(policies[names[i]], now) {
          continue;
        }
        var blocks := policies[names[i]].blocks;
        ghost var before := found;
        for j := 0 to |blocks|
          invariant found.Keys == Elements(paths)
          invariant forall path :: path in paths ==> found[path] == AfterBlocks(before[path], blocks, j, path, now)
        {
          var b := blocks[j];
          if b.path !in found || Lapsed(b.expiration, now) {
            continue;
          }
          var current := Merge(Without(found[b.path], "deny"), b.capabilities);
          found := found[b.path := current];
        }
      }
      return Some(found);
    }
  }

  // ---------------------------------------------------------------- properties

  lemma {:induction false} WithoutExact(list: seq<string>, capability: string)
    ensures forall c :: c in Without(list, capability) <==> c in list && c != capability
  {
    if list != [] {
      WithoutExact(list[1..], capability);
      assert forall c :: c in list <==> c == list[0] || c in list[1..];
    }
  }

  lemma {:induction false} MergedExact(list: seq<string>, capabilities: seq<string>, n: nat)
    requires n <= |capabilities|
    ensures forall c :: c in Merged(list, capabilities, n) <==> c in list || c in capabilities[..n]
  {
    if n > 0 {
      MergedExact(list, capabilities, n - 1);
      assert capabilities[..n] == capabilities[..n - 1] + [capabilities[n - 1]];
    }
  }

  /** Some block among the first n gives the capability on the path now. */
  ghost predicate BlocksGive(blocks: seq<Block>, n: nat, path: string, now: int, capability: string)
    requires n <= |blocks|
  {
    exists i :: 0 <= i < n && BlockApplies(blocks[i], path, now) && capability in blocks[i].capabilities
  }

  ghost predicate BlocksApply(blocks: seq<Block>, n: nat, path: string, now: int)
    requires n <= |blocks|
  {
    exists i :: 0 <= i < n && BlockApplies(blocks[i], path, now)
  }

  /** The last block that applies lists deny. */
  ghost predicate DenyLast(blocks: seq<Block>, n: nat, path: string, now: int)
    requires n <= |blocks|
  {
    exists i :: 0 <= i < n && BlockApplies(blocks[i], path, now) && "deny" in blocks[i].capabilities
                && forall j :: i < j < n ==> !BlockApplies(blocks[j], path, now)
  }

  lemma {:induction false} AfterOneBlock(list: seq<string>, b: Block, path: string, now: int, c: string)
    ensures c in AfterBlock(list, b, path, now) <==>
            if BlockApplies(b, path, now) then (c in list && c != "deny") || c in b.capabilities else c in list
  {
    WithoutExact(list, "deny");
    MergedExact(Without(list, "deny"), b.capabilities, |b.capabilities|);
    assert b.capabilities[..|b.capabilities|] == b.capabilities;
  }

  /** Capabilities add up over the blocks that apply; deny stays only if none applies or the last one lists it. */
  lemma {:induction false} AfterBlocksExact(list: seq<string>, blocks: seq<Block>, n: nat, path: string, now: int, c: string)
    requires n <= |blocks|
    ensures c in AfterBlocks(list, blocks, n, path, now) <==>
            if c != "deny" then c in list || BlocksGive(blocks, n, path, now, c)
            else (c in list && !BlocksApply(blocks, n, path, now)) || DenyLast(blocks, n, path, now)
  {
    if n > 0 {
      var b := blocks[n - 1];
      AfterBlocksExact(list, blocks, n - 1, path, now, c);
      AfterOneBlock(AfterBlocks(list, blocks, n - 1, path, now), b, path, now, c);
      assert BlocksGive(blocks, n, path, now, c) <==>
             BlocksGive(blocks, n - 1, path, now, c) || (BlockApplies(b, path, now) && c in b.capabilities);
      assert BlocksApply(blocks, n, path, now) <==> BlocksApply(blocks, n - 1, path, now) || BlockApplies(b, path, now);
      NextDeny(blocks, n, path, now);
    }
  }

  lemma {:induction false} NextDeny(blocks: seq<Block>, n: nat, path: string, now: int)
    requires 0 < n <= |blocks|
    ensures DenyLast(blocks, n, path, now) <==>
            if BlockApplies(blocks[n - 1], path, now) then "deny" in blocks[n - 1].capabilities else DenyLast(blocks, n - 1, path, now)
  {
    if DenyLast(blocks, n - 1, path, now) {
      var i :| 0 <= i < n - 1 && BlockApplies(blocks[i], path, now) && "deny" in blocks[i].capabilities
               && forall j :: i < j < n - 1 ==> !BlockApplies(blocks[j], path, now);
      assert !BlockApplies(blocks[n - 1], path, now) ==> DenyLast(blocks, n, path, now);
    }
    if DenyLast(blocks, n, path, now) {
      var i :| 0 <= i < n && BlockApplies(blocks[i], path, now) && "deny" in blocks[i].capabilities
               && forall j :: i < j < n ==> !BlockApplies(blocks[j], path, now);
      assert i < n - 1 ==> !BlockApplies(blocks[n - 1], path, now);
    }
  }

  lemma {:induction false} GivesIsBlocksGive(p: AclPolicy, now: int, path: string, c: string)
    requires PolicyLive(p, now)
    ensures Gives(p, now, path, c) <==> BlocksGive(p.blocks, |p.blocks|, path, now, c)
  {
    if Gives(p, now, path, c) {
      var b :| b in p.blocks && BlockApplies(b, path, now) && c in b.capabilities;
      var i :| 0 <= i < |p.blocks| && p.blocks[i] == b;
    }
    forall i | 0 <= i < |p.blocks| ensures p.blocks[i] in p.blocks {
    }
  }

  /** A policy of the list is in force and has a block for the path. */
  ghost predicate Speaks(bao: Bao, name: string, path: string, now: int) {
    name in bao.policies && PolicyLive(bao.policies[name], now) && BlocksApply(bao.policies[name].blocks, |bao.policies[name].blocks|, path, now)
  }

  /** The last block of the policy for the path denies it. */
  ghost predicate Denies(bao: Bao, name: string, path: string, now: int) {
    name in bao.policies && PolicyLive(bao.policies[name], now) && DenyLast(bao.policies[name].blocks, |bao.policies[name].blocks|, path, now)
  }

  /** Among the first n policies none speaks of the path, or the last one that does denies it. */
  ghost predicate DeniedBy(bao: Bao, names: seq<string>, n: nat, path: string, now: int)
    requires n <= |names|
  {
    || (forall i :: 0 <= i < n ==> !Speaks(bao, names[i], path, now))
    || exists i :: 0 <= i < n && Denies(bao, names[i], path, now) && forall j :: i < j < n ==> !Speaks(bao, names[j], path, now)
  }

  lemma {:induction false} DeniesSpeaks(bao: Bao, name: string, path: string, now: int)
    requires Denies(bao, name, path, now)
    ensures Speaks(bao, name, path, now)
  {
  }

  lemma {:induction false} NextDenied(bao: Bao, names: seq<string>, n: nat, path: string, now: int)
    requires 0 < n <= |names|
    ensures DeniedBy(bao, names, n, path, now) <==>
            if Speaks(bao, names[n - 1], path, now) then Denies(bao, names[n - 1], path, now) else DeniedBy(bao, names, n - 1, path, now)
  {
    if exists i :: 0 <= i < n && Denies(bao, names[i], path, now) && forall j :: i < j < n ==> !Speaks(bao, names[j], path, now) {
      var i :| 0 <= i < n && Denies(bao, names[i], path, now) && forall j :: i < j < n ==> !Speaks(bao, names[j], path, now);
      DeniesSpeaks(bao, names[i], path, now);
      assert i == n - 1 || !Speaks(bao, names[n - 1], path, now);
    }
  }

  lemma {:induction false} AfterPolicyExact(before: seq<string>, p: AclPolicy, path: string, now: int, c: string)
    requires PolicyLive(p, now)
    ensures c in AfterBlocks(before, p.blocks, |p.blocks|, path, now) <==>
            if c != "deny" then c in before || Gives(p, now, path, c)
            else (c in before && !BlocksApply(p.blocks, |p.blocks|, path, now)) || DenyLast(p.blocks, |p.blocks|, path, now)
  {
    AfterBlocksExact(before, p.blocks, |p.blocks|, path, now, c);
    GivesIsBlocksGive(p, now, path, c);
  }

  lemma {:induction false} AfterPoliciesExact(bao: Bao, names: seq<string>, n: nat, path: string, now: int, c: string)
    requires n <= |names|
    ensures c in AfterPolicies(bao, names, n, path, now) <==>
            if c != "deny" then exists i :: 0 <= i < n && names[i] in bao.policies && Gives(bao.policies[names[i]], now, path, c)
            else DeniedBy(bao, names, n, path, now)
  {
    if n > 0 {
      var name := names[n - 1];
      AfterPoliciesExact(bao, names, n - 1, path, now, c);
      NextDenied(bao, names, n, path, now);
      if name in bao.policies && PolicyLive(bao.policies[name], now) {
        AfterPolicyExact(AfterPolicies(bao, names, n - 1, path, now), bao.policies[name], path, now, c);
      }
    }
  }

  /**
    * What a session is told it can do on a path: what some policy on its list gives now, and
    * deny when none of them speaks of the path or the last one that does denies it.
    */
  lemma {:induction false} SelfCapabilitiesExact(bao: Bao, entity: string, path: string, now: int, c: string)
    ensures entity !in bao.entities ==> SelfCapabilities(bao, entity, path, now) == ["deny"]
    ensures entity in bao.entities ==>
              var names := bao.entities[entity];
              c in SelfCapabilities(bao, entity, path, now) <==>
                if c != "deny" then exists i :: 0 <= i < |names| && names[i] in bao.policies && Gives(bao.policies[names[i]], now, path, c)
                else DeniedBy(bao, names, |names|, path, now)
  {
    if entity in bao.entities {
      AfterPoliciesExact(bao, bao.entities[entity], |bao.entities[entity]|, path, now, c);
    }
  }
}
