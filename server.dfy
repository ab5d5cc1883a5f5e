/** One tenant of the bot (a guild): its components, keyed by name, and the
    mapping from the names of the commands and message interactions it has
    registered with the platform to the remote ids the platform returned.

    Requests to the platform are recorded as effects: `upserts` lists the
    names of the upsert requests issued so far and `deletes` the remote ids of
    the delete requests issued so far, both in order. An upsert's asynchronous
    success callback is the separate step `ConfirmUpsert`. */
module Server {
  import opened Common

  /** A feature module of a tenant. Its name, always-enabled flag, command and
      interaction names and help text are fixed at construction; the enabled
      flag is toggled by the server. */
  class Component {
    const name: string
    const alwaysEnabled: bool
    const commands: seq<string>
    const interactions: seq<string>
    const help: string
    var enabled: bool

    /** An always-enabled component starts enabled; any other starts disabled
        until the server toggles it on. */
    constructor (name: string, alwaysEnabled: bool, commands: seq<string>,
                 interactions: seq<string>, help: string)
      ensures this.name == name && this.alwaysEnabled == alwaysEnabled
      ensures this.commands == commands && this.interactions == interactions
      ensures this.help == help
      ensures enabled == alwaysEnabled
    {
      this.name := name;
      this.alwaysEnabled := alwaysEnabled;
      this.commands := commands;
      this.interactions := interactions;
      this.help := help;
      enabled := alwaysEnabled;
    }

    method Enable()
      modifies this
      ensures enabled
    {
      enabled := true;
    }

    method Disable()
      modifies this
      ensures !enabled
    {
      enabled := false;
    }
  }

  /** Every name a component registers on the platform: its commands, then its
      message interactions. */
  function OwnedNames(c: Component): seq<string> {
    c.commands + c.interactions
  }

  /** The tenant's registry of direct-message listeners; only the set of keys
      it holds is modelled. */
  class MessageHandler {
    var keys: set<string>

    constructor ()
      ensures keys == {}
    {
      keys := {};
    }

    method AddListener(key: string)
      modifies this
      ensures keys == old(keys) + {key}
    {
      keys := keys + {key};
    }

    method RemoveListener(key: string)
      modifies this
      ensures keys == old(keys) - {key}
    {
      keys := keys - {key};
    }
  }

  /** The outcome of removing a list of names from the remote-id mapping: what
      is left of the mapping and the ids whose deletion was requested, in
      order. */
  datatype Removal = Removal(remaining: map<string, string>, deleted: seq<string>)

  /** Removing `names` one after the other from `ids`, requesting the deletion
      of the id of each name found. */
  function Unregister(ids: map<string, string>, names: seq<string>): (r: Removal)
    ensures r.remaining == ids - (set n | n in names)
    decreases |names|
  {
    if names == [] then Removal(ids, [])
    else
      var front := names[..|names| - 1];
      var n := names[|names| - 1];
      var prev := Unregister(ids, front);
      assert (set x | x in names) == (set x | x in front) + {n} by {
        assert names == front + [n];
      }
      if n in prev.remaining then Removal(prev.remaining - {n}, prev.deleted + [prev.remaining[n]])
      else prev
  }

  /** A deletion is requested for exactly the ids that were mapped from one of
      the removed names, and for nothing else. */
  lemma {:induction false} UnregisterDeletesExactly(ids: map<string, string>, names: seq<string>)
    ensures forall x :: x in Unregister(ids, names).deleted <==>
      exists n :: n in names && n in ids && ids[n] == x
    decreases |names|
  {
    if names != [] {
      var front := names[..|names| - 1];
      var n := names[|names| - 1];
      assert names == front + [n];
      UnregisterDeletesExactly(ids, front);
      var prev := Unregister(ids, front);
      forall x
        ensures x in Unregister(ids, names).deleted <==>
          exists m :: m in names && m in ids && ids[m] == x
      {
        if x in Unregister(ids, names).deleted {
          if x !in prev.deleted {
            assert n in ids && ids[n] == x;
          } else {
            var m :| m in front && m in ids && ids[m] == x;
            assert m in names;
          }
        } else {
          forall m | m in names && m in ids
            ensures ids[m] != x
          {
            if m in front {
              assert ids[m] != x;
            } else {
              assert m == n;
              if n !in front {
                assert n in prev.remaining;
              }
            }
          }
        }
      }
    }
  }

  /** One deletion is requested per distinct removed name that was mapped:
      a name listed twice is deleted once. */
  lemma {:induction false} UnregisterDeleteCount(ids: map<string, string>, names: seq<string>)
    ensures |Unregister(ids, names).deleted| == |set n | n in names && n in ids|
    decreases |names|
  {
    if names != [] {
      var front := names[..|names| - 1];
      var n := names[|names| - 1];
      assert names == front + [n];
      UnregisterDeleteCount(ids, front);
      var before := set m | m in front && m in ids;
      var after := set m | m in names && m in ids;
      if n in ids && n !in front {
        assert after == before + {n};
        assert n !in before;
      } else {
        assert after == before;
      }
    }
  }

  /** Removing `a` and then `b` is removing `a + b`. */
  lemma {:induction false} UnregisterConcat(ids: map<string, string>, a: seq<string>, b: seq<string>)
    ensures Unregister(ids, a + b) ==
      Removal(Unregister(Unregister(ids, a).remaining, b).remaining,
              Unregister(ids, a).deleted + Unregister(Unregister(ids, a).remaining, b).deleted)
    decreases |b|
  {
    if b == [] {
      assert a + b == a;
    } else {
      var front := b[..|b| - 1];
      assert (a + b)[..|a + b| - 1] == a + front;
      assert (a + b)[|a + b| - 1] == b[|b| - 1];
      UnregisterConcat(ids, a, front);
    }
  }

  /** Components ordered by name under the case-insensitive order. */
  ghost predicate SortedByName(s: seq<Component>) {
    forall i, j :: 0 <= i < j < |s| ==> CaseInsensitiveLeq(s[i].name, s[j].name)
  }

  ghost predicate Distinct(s: seq<Component>) {
    forall i, j :: 0 <= i < j < |s| ==> s[i] != s[j]
  }

  /** Insertion of one component into a list ordered by name. */
  function InsertByName(c: Component, s: seq<Component>): (r: seq<Component>)
    ensures multiset(r) == multiset(s) + multiset{c}
    ensures |r| == |s| + 1
  {
    if s == [] then [c]
    else if CaseInsensitiveLeq(c.name, s[0].name) then [c] + s
    else
      assert s == [s[0]] + s[1..];
      [s[0]] + InsertByName(c, s[1..])
  }

  lemma InsertByNameMember(c: Component, s: seq<Component>, x: Component)
    ensures x in InsertByName(c, s) <==> x == c || x in s
  {
    assert x in InsertByName(c, s) <==> x in multiset(InsertByName(c, s));
    assert x in s <==> x in multiset(s);
  }

  lemma {:induction false} InsertByNameSorted(c: Component, s: seq<Component>)
    requires SortedByName(s)
    ensures SortedByName(InsertByName(c, s))
  {
    if s == [] {
    } else if CaseInsensitiveLeq(c.name, s[0].name) {
      forall j | 1 <= j < |s|
        ensures CaseInsensitiveLeq(c.name, s[j].name)
      {
        CaseInsensitiveTransitive(c.name, s[0].name, s[j].name);
      }
    } else {
      CaseInsensitiveTotal(c.name, s[0].name);
      InsertByNameSorted(c, s[1..]);
      var rest := InsertByName(c, s[1..]);
      forall j | 0 <= j < |rest|
        ensures CaseInsensitiveLeq(s[0].name, rest[j].name)
      {
        assert rest[j] in multiset(rest);
        if rest[j] != c {
          assert rest[j] in multiset(s[1..]);
          var k :| 0 <= k < |s[1..]| && s[1..][k] == rest[j];
          assert s[k + 1] == rest[j];
        }
      }
    }
  }

  lemma {:induction false} InsertByNameDistinct(c: Component, s: seq<Component>)
    requires Distinct(s) && c !in s
    ensures Distinct(InsertByName(c, s))
  {
    if s != [] && !CaseInsensitiveLeq(c.name, s[0].name) {
      InsertByNameDistinct(c, s[1..]);
      var rest := InsertByName(c, s[1..]);
      forall j | 0 <= j < |rest|
        ensures rest[j] != s[0]
      {
        assert rest[j] in multiset(rest);
        if rest[j] != c {
          assert rest[j] in multiset(s[1..]);
          var k :| 0 <= k < |s[1..]| && s[1..][k] == rest[j];
          assert s[k + 1] == rest[j];
        }
      }
    }
  }

  /** The component map after putting each instance under its name, in order;
      a later instance with the same name replaces an earlier one. */
  function PutAll(m: map<string, Component>, cs: seq<Component>): (r: map<string, Component>)
    decreases |cs|
  {
    if cs == [] then m
    else PutAll(m, cs[..|cs| - 1])[cs[|cs| - 1].name := cs[|cs| - 1]]
  }

  /** After registration every instance can be found under its name, provided
      no two instances share a name. */
  lemma {:induction false} PutAllFinds(m: map<string, Component>, cs: seq<Component>)
    requires forall i, j :: 0 <= i < j < |cs| ==> cs[i].name != cs[j].name
    ensures forall i :: 0 <= i < |cs| ==> cs[i].name in PutAll(m, cs) && PutAll(m, cs)[cs[i].name] == cs[i]
    decreases |cs|
  {
    if cs != [] {
      var front := cs[..|cs| - 1];
      PutAllFinds(m, front);
      forall i | 0 <= i < |cs|
        ensures cs[i].name in PutAll(m, cs) && PutAll(m, cs)[cs[i].name] == cs[i]
      {
        if i < |front| {
          assert front[i] == cs[i];
        }
      }
    }
  }

  /** Registration leaves the entry of every other name as it was, and adds
      no names but those of the instances. */
  lemma {:induction false} PutAllKeepsOthers(m: map<string, Component>, cs: seq<Component>, k: string)
    requires forall i :: 0 <= i < |cs| ==> cs[i].name != k
    ensures k in PutAll(m, cs) <==> k in m
    ensures k in m ==> PutAll(m, cs)[k] == m[k]
    decreases |cs|
  {
    if cs != [] {
      PutAllKeepsOthers(m, cs[..|cs| - 1], k);
    }
  }

  /** Registration toggles on the components that are not always enabled and
      whose stored flag says enabled. */
  predicate TogglesOn(c: Component, enabledInStore: set<string>) {
    !c.alwaysEnabled && c.name in enabledInStore
  }

  /** The upsert requests that registering `cs` issues, in order. */
  function RegistrationUpserts(cs: seq<Component>, enabledInStore: set<string>): (r: seq<string>)
    decreases |cs|
  {
    if cs == [] then []
    else
      var last := cs[|cs| - 1];
      RegistrationUpserts(cs[..|cs| - 1], enabledInStore) +
        (if TogglesOn(last, enabledInStore) then OwnedNames(last) else [])
  }

  /** An always-enabled component, or one whose stored flag is not enabled,
      adds no upsert request to registration; each toggled one adds its
      names. */
  lemma {:induction false} RegistrationUpsertsOwned(cs: seq<Component>, enabledInStore: set<string>)
    ensures (forall i :: 0 <= i < |cs| ==> !TogglesOn(cs[i], enabledInStore)) ==>
      RegistrationUpserts(cs, enabledInStore) == []
    ensures forall i, n :: 0 <= i < |cs| && TogglesOn(cs[i], enabledInStore) && n in OwnedNames(cs[i]) ==>
      n in RegistrationUpserts(cs, enabledInStore)
    decreases |cs|
  {
    if cs != [] {
      var front := cs[..|cs| - 1];
      RegistrationUpsertsOwned(front, enabledInStore);
      forall i, n | 0 <= i < |cs| && TogglesOn(cs[i], enabledInStore) && n in OwnedNames(cs[i])
        ensures n in RegistrationUpserts(cs, enabledInStore)
      {
        if i < |front| {
          assert front[i] == cs[i];
        }
      }
    }
  }

  class Server {
    const id: string
    const directHandler: MessageHandler
    var commandIds: map<string, string>
    var components: map<string, Component>
    var upserts: seq<string>
    var deletes: seq<string>

    /** Each component is stored under its own name. */
    ghost predicate Valid()
      reads this
    {
      forall k :: k in components ==> components[k].name == k
    }

    constructor (id: string)
      ensures Valid()
      ensures this.id == id && fresh(directHandler) && directHandler.keys == {}
      ensures commandIds == map[] && components == map[] && upserts == [] && deletes == []
    {
      this.id := id;
      directHandler := new MessageHandler();
      commandIds := map[];
      components := map[];
      upserts := [];
      deletes := [];
    }

    /** The success callback of one upsert request: the platform's id for the
        command or interaction `name` is recorded. The callback does not look
        at whether the component is still enabled. */
    method ConfirmUpsert(name: string, remoteId: string)
      modifies this
      ensures commandIds == old(commandIds)[name := remoteId]
      ensures components == old(components) && upserts == old(upserts) && deletes == old(deletes)
    {
      commandIds := commandIds[name := remoteId];
    }

    /** Removes each name from the mapping in turn, requesting the deletion of
        the remote id of each name that was present. */
    method Forget(names: seq<string>)
      modifies this
      ensures commandIds == Unregister(old(commandIds), names).remaining
      ensures deletes == old(deletes) + Unregister(old(commandIds), names).deleted
      ensures components == old(components) && upserts == old(upserts)
    {
      var i := 0;
      while i < |names|
        invariant 0 <= i <= |names|
        invariant commandIds == Unregister(old(commandIds), names[..i]).remaining
        invariant deletes == old(deletes) + Unregister(old(commandIds), names[..i]).deleted
        invariant components == old(components) && upserts == old(upserts)
      {
        var n := names[i];
        assert names[..i + 1][..i] == names[..i];
        if n in commandIds {
          deletes := deletes + [commandIds[n]];
          commandIds := commandIds - {n};
        }
        i := i + 1;
      }
      assert names[..|names|] == names;
    }

    /** Enabling issues one upsert request per command and then per
        interaction and marks the component enabled; the mapping only changes
        when the confirmations arrive. Disabling marks the component disabled
        and removes each of its names from the mapping, requesting deletion
        of each id found. */
    method ToggleComponent(c: Component, enable: bool)
      modifies this, c
      ensures c.enabled == enable
      ensures components == old(components)
      ensures enable ==> (upserts == old(upserts) + OwnedNames(c) &&
                          commandIds == old(commandIds) && deletes == old(deletes))
      ensures !enable ==> (upserts == old(upserts) &&
                           commandIds == Unregister(old(commandIds), OwnedNames(c)).remaining &&
                           deletes == old(deletes) + Unregister(old(commandIds), OwnedNames(c)).deleted)
    {
      if enable {
        var i := 0;
        while i < |c.commands|
          invariant 0 <= i <= |c.commands|
          invariant upserts == old(upserts) + c.commands[..i]
          invariant components == old(components) && commandIds == old(commandIds) && deletes == old(deletes)
        {
          upserts := upserts + [c.commands[i]];
          assert c.commands[..i + 1] == c.commands[..i] + [c.commands[i]];
          i := i + 1;
        }
        assert c.commands[..|c.commands|] == c.commands;
        var j := 0;
        while j < |c.interactions|
          invariant 0 <= j <= |c.interactions|
          invariant upserts == old(upserts) + c.commands + c.interactions[..j]
          invariant components == old(components) && commandIds == old(commandIds) && deletes == old(deletes)
        {
          upserts := upserts + [c.interactions[j]];
          assert c.interactions[..j + 1] == c.interactions[..j] + [c.interactions[j]];
          j := j + 1;
        }
        assert c.interactions[..|c.interactions|] == c.interactions;
        c.Enable();
      } else {
        c.Disable();
        ghost var ids := commandIds;
        Forget(c.commands);
        Forget(c.interactions);
        UnregisterConcat(ids, c.commands, c.interactions);
      }
    }

    /** The component registered under the lower-cased name, if any. */
    function GetComponent(name: string): (r: Option<Component>)
      reads this
      ensures r.Some? <==> Lower(name) in components
      ensures r.Some? ==> r.value == components[Lower(name)]
    {
      var key := Lower(name);
      if key in components then Some(components[key]) else None
    }

    /** Every component, once each, ordered by case-insensitive name. */
    method GetComponents() returns (listing: seq<Component>)
      requires Valid()
      ensures SortedByName(listing) && Distinct(listing)
      ensures |listing| == |components|
      ensures forall i :: 0 <= i < |listing| ==> listing[i] in components.Values
      ensures forall k :: k in components ==> components[k] in listing
    {
      var left := components.Keys;
      ghost var done: set<string> := {};
      listing := [];
      while left != {}
        invariant left + done == components.Keys && left !! done
        invariant |listing| == |done|
        invariant forall x :: x in listing ==> x.name in done && components[x.name] == x
        invariant forall k :: k in done ==> components[k] in listing
        invariant Distinct(listing) && SortedByName(listing)
        decreases left
      {
        var k :| k in left;
        var c := components[k];
        assert c.name == k;
        assert c !in listing;
        InsertByNameSorted(c, listing);
        InsertByNameDistinct(c, listing);
        ghost var prev := listing;
        listing := InsertByName(c, listing);
        left := left - {k};
        done := done + {k};
        forall x | x in listing
          ensures x.name in done && components[x.name] == x
        {
          InsertByNameMember(c, prev, x);
        }
        forall k' | k' in done
          ensures components[k'] in listing
        {
          InsertByNameMember(c, prev, components[k']);
        }
      }
      assert done == components.Keys;
      forall i | 0 <= i < |listing|
        ensures listing[i] in components.Values
      {
        assert listing[i] in listing;
      }
    }

    /** Puts every instance into the component map under its name and toggles
        on each one that is not always enabled and whose stored flag says
        enabled. The instances are distinct objects, as each is constructed
        afresh. */
    method RegisterComponents(instances: seq<Component>, enabledInStore: set<string>)
      requires Valid()
      requires forall i, j :: 0 <= i < j < |instances| ==> instances[i] != instances[j]
      modifies this, set i | 0 <= i < |instances| :: instances[i]
      ensures Valid()
      ensures components == PutAll(old(components), instances)
      ensures upserts == old(upserts) + RegistrationUpserts(instances, enabledInStore)
      ensures commandIds == old(commandIds) && deletes == old(deletes)
      ensures forall i :: 0 <= i < |instances| ==>
        instances[i].enabled == (TogglesOn(instances[i], enabledInStore) || old(instances[i].enabled))
    {
      var i := 0;
      while i < |instances|
        invariant 0 <= i <= |instances|
        invariant Valid()
        invariant components == PutAll(old(components), instances[..i])
        invariant upserts == old(upserts) + RegistrationUpserts(instances[..i], enabledInStore)
        invariant commandIds == old(commandIds) && deletes == old(deletes)
        invariant forall j :: 0 <= j < i ==>
          instances[j].enabled == (TogglesOn(instances[j], enabledInStore) || old(instances[j].enabled))
        invariant forall j :: i <= j < |instances| ==> instances[j].enabled == old(instances[j].enabled)
      {
        var instance := instances[i];
        assert instances[..i + 1][..i] == instances[..i];
        components := components[instance.name := instance];
        if !instance.alwaysEnabled && instance.name in enabledInStore {
          ToggleComponent(instance, true);
        }
        i := i + 1;
      }
      assert instances[..|instances|] == instances;
    }
  }

  /** The lookup ignores letter case. */
  lemma GetComponentIgnoresCase(s: Server, name: string)
    ensures s.GetComponent(name) == s.GetComponent(Lower(name))
  {
    LowerIdempotent(name);
  }

  /** A component stored under a key that is not lower case is never the
      target of a lookup, whatever name is looked up. */
  lemma GetComponentMissesUpperCaseKeys(key: string, name: string)
    requires Lower(key) != key
    ensures Lower(name) != key
  {
    LowerIdempotent(name);
  }
}
