/**
 * The dependency container: a table of definitions, some of them factories (closures),
 * and a memo of the entries already resolved.
 */
module DependencyInjection {
  import opened Wrappers
  import opened PhpArrays
  import opened Values
  import opened HttpRequest

  function NotFoundMessage(id: string): string
  {
    "No entry or class found for '" + id + "'"
  }

  /** The outcome of one `get`: what it returns, the memo afterwards, and the ids whose factory it ran. */
  datatype Resolution = Resolution(result: Result<Value>, resolved: Entries, invoked: seq<string>)

  /**
   * Container::get on definitions `defs` and memo `resolved`. `produce(c)` is what closure
   * `c` returns when called with the container.
   */
  function GetStep(defs: Entries, produce: nat -> Value, resolved: Entries, id: string): (s: Resolution)
    ensures s.result.Err? <==> !(HasKey(defs, id) || HasKey(resolved, id))
    ensures s.result.Err? ==> s == Resolution(Err(NotFoundException(NotFoundMessage(id))), resolved, [])
    ensures s.result.Ok? ==> Get(s.resolved, id) == Some(s.result.value)
    ensures HasKey(resolved, id) ==> s == Resolution(Ok(Get(resolved, id).value), resolved, [])
    ensures forall k :: k != id ==> Get(s.resolved, k) == Get(resolved, k)
    ensures s.invoked != [] ==> s.invoked == [id] && !HasKey(resolved, id)
  {
    if !(HasKey(defs, id) || HasKey(resolved, id)) then
      Resolution(Err(NotFoundException(NotFoundMessage(id))), resolved, [])
    else
      match Get(resolved, id)
      case Some(v) => Resolution(Ok(v), resolved, [])
      case None =>
        var value := Get(defs, id).value;
        var result := if value.Closure? then produce(value.id) else value;
        var resolved' := Put(resolved, id, result);
        assert forall k :: Get(resolved', k) == if k == id then Some(result) else Get(resolved, k) by {
          forall k { PutGet(resolved, id, result, k); }
        }
        Resolution(Ok(result), resolved', if value.Closure? then [id] else [])
  }

  /** The definitions after construction: the container registers itself under its own class name. */
  function WithSelf(definitions: Entries): (r: Entries)
  {
    Merge(definitions, [(CONTAINER_CLASS, ContainerRef)])
  }

  class Container {
    const definitions: Entries
    var resolved: Entries
    /** What each closure returns when the container calls it. */
    const produce: nat -> Value
    /** The ids whose factory has run, in order. */
    ghost var invoked: seq<string>

    /** Every resolved id is defined, and the memo is a PHP array. */
    ghost predicate Valid()
      reads this
    {
      DistinctKeys(resolved) && forall i :: 0 <= i < |resolved| ==> HasKey(definitions, resolved[i].0)
    }

    constructor(definitions: Entries, produce: nat -> Value)
      ensures Valid()
      ensures this.definitions == WithSelf(definitions) && this.produce == produce
      ensures resolved == [] && invoked == []
    {
      this.definitions := WithSelf(definitions);
      this.produce := produce;
      resolved := [];
      invoked := [];
    }

    predicate Has(id: string)
      reads this
    {
      HasKey(definitions, id) || HasKey(resolved, id)
    }

    /** Only defined ids get resolved, so `has` amounts to "is defined". */
    lemma HasIsDefined(id: string)
      requires Valid()
      ensures Has(id) <==> HasKey(definitions, id)
    {
      if HasKey(resolved, id) {
        assert resolved[IndexOf(resolved, id).value].0 == id;
      }
    }

    /** Resolves `id`, running its factory on the first request only. */
    method Get(id: string) returns (r: Result<Value>)
      requires Valid()
      modifies this
      ensures Valid()
      ensures var s := GetStep(definitions, produce, old(resolved), id);
        r == s.result && resolved == s.resolved && invoked == old(invoked) + s.invoked
    {
      if !Has(id) {
        return Err(NotFoundException(NotFoundMessage(id)));
      }
      match PhpArrays.Get(resolved, id)
      case Some(v) =>
        return Ok(v);
      case None =>
        var value := PhpArrays.Get(definitions, id).value;
        if value.Closure? {
          invoked := invoked + [id];
          value := produce(value.id);
        }
        ResolvedStaysDefined(definitions, resolved, id, value);
        resolved := Put(resolved, id, value);
        return Ok(value);
    }
  }

  lemma ResolvedStaysDefined(defs: Entries, resolved: Entries, id: string, v: Value)
    requires DistinctKeys(resolved) && forall i :: 0 <= i < |resolved| ==> HasKey(defs, resolved[i].0)
    requires HasKey(defs, id)
    ensures var r := Put(resolved, id, v);
      DistinctKeys(r) && forall i :: 0 <= i < |r| ==> HasKey(defs, r[i].0)
  {
    PutKeys(resolved, id, v);
    var r := Put(resolved, id, v);
    forall i | 0 <= i < |r| ensures HasKey(defs, r[i].0) {
      assert r[i].0 == Keys(r)[i];
    }
  }

  // ---------------------------------------------------------------- lemmas

  /** The container's own id is always defined and maps to the container, overriding any user definition. */
  lemma SelfRegistration(definitions: Entries)
    ensures HasKey(WithSelf(definitions), CONTAINER_CLASS)
    ensures Get(WithSelf(definitions), CONTAINER_CLASS) == Some(ContainerRef)
    ensures forall id :: id != CONTAINER_CLASS ==> Get(WithSelf(definitions), id) == Get(definitions, id)
  {
    forall id {
      MergeGet(definitions, [(CONTAINER_CLASS, ContainerRef)], id);
    }
  }

  /** Asking twice gives the same answer, and the second time nothing is resolved or invoked. */
  lemma GetIsMemoised(defs: Entries, produce: nat -> Value, resolved: Entries, id: string)
    ensures var s1 := GetStep(defs, produce, resolved, id);
      var s2 := GetStep(defs, produce, s1.resolved, id);
      s2.result == s1.result && s2.resolved == s1.resolved && s2.invoked == []
  {
    var s1 := GetStep(defs, produce, resolved, id);
    if s1.result.Ok? {
      IndexOfKey(s1.resolved, id);
    }
  }

  lemma IndexOfKey(e: Entries, k: string)
    requires Get(e, k).Some?
    ensures HasKey(e, k)
  {
  }

  /** A factory-defined id that is not yet resolved: its first get runs the factory once. */
  lemma FirstGetRunsFactory(defs: Entries, produce: nat -> Value, resolved: Entries, id: string, c: nat)
    requires Get(defs, id) == Some(Closure(c)) && !HasKey(resolved, id)
    ensures GetStep(defs, produce, resolved, id) == Resolution(Ok(produce(c)), Put(resolved, id, produce(c)), [id])
  {
  }

  /** A defined value that is not a closure is returned as it is. */
  lemma PlainValueReturned(defs: Entries, produce: nat -> Value, resolved: Entries, id: string)
    requires Get(defs, id).Some? && !Get(defs, id).value.Closure? && !HasKey(resolved, id)
    ensures GetStep(defs, produce, resolved, id).result == Ok(Get(defs, id).value)
    ensures GetStep(defs, produce, resolved, id).invoked == []
  {
  }

  /** A run of gets, one after the other. */
  function GetAll(defs: Entries, produce: nat -> Value, resolved: Entries, ids: seq<string>): (s: Resolution)
    decreases |ids|
  {
    if ids == [] then Resolution(Ok(Null), resolved, [])
    else
      var first := GetStep(defs, produce, resolved, ids[0]);
      var rest := GetAll(defs, produce, first.resolved, ids[1..]);
      Resolution(rest.result, rest.resolved, first.invoked + rest.invoked)
  }

  /** An id still unresolved after a get was unresolved before it. */
  lemma StepKeepsResolved(defs: Entries, produce: nat -> Value, resolved: Entries, id: string, k: string)
    requires HasKey(resolved, k)
    ensures HasKey(GetStep(defs, produce, resolved, id).resolved, k)
  {
    var s := GetStep(defs, produce, resolved, id);
    if k == id {
      IndexOfKey(s.resolved, k);
    } else {
      assert Get(s.resolved, k) == Get(resolved, k);
    }
  }

  /** Only ids unresolved at the start of a run have their factory run during it. */
  lemma {:induction false} InvokedWereUnresolved(defs: Entries, produce: nat -> Value, resolved: Entries, ids: seq<string>)
    ensures forall k :: k in GetAll(defs, produce, resolved, ids).invoked ==> !HasKey(resolved, k)
    decreases |ids|
  {
    if ids != [] {
      var first := GetStep(defs, produce, resolved, ids[0]);
      InvokedWereUnresolved(defs, produce, first.resolved, ids[1..]);
      forall k | HasKey(resolved, k) ensures HasKey(first.resolved, k) {
        StepKeepsResolved(defs, produce, resolved, ids[0], k);
      }
    }
  }

  predicate NoDuplicates(s: seq<string>)
  {
    forall i, j :: 0 <= i < j < |s| ==> s[i] != s[j]
  }

  /** Every id whose factory ran during a run of gets is resolved at its end. */
  lemma {:induction false} InvokedAreResolved(defs: Entries, produce: nat -> Value, resolved: Entries, ids: seq<string>)
    ensures forall k :: k in GetAll(defs, produce, resolved, ids).invoked ==> HasKey(GetAll(defs, produce, resolved, ids).resolved, k)
    decreases |ids|
  {
    if ids != [] {
      var first := GetStep(defs, produce, resolved, ids[0]);
      var rest := GetAll(defs, produce, first.resolved, ids[1..]);
      InvokedAreResolved(defs, produce, first.resolved, ids[1..]);
      var s := GetAll(defs, produce, resolved, ids);
      assert s.invoked == first.invoked + rest.invoked && s.resolved == rest.resolved;
      forall k | k in s.invoked ensures HasKey(s.resolved, k) {
        if k !in rest.invoked {
          assert first.invoked == [ids[0]] && k == ids[0];
          IndexOfKey(first.resolved, ids[0]);
          GetAllKeepsResolved(defs, produce, first.resolved, ids[1..]);
        }
      }
    }
  }

  /** No id has its factory run twice during a run of gets. */
  lemma {:induction false} InvokedOnce(defs: Entries, produce: nat -> Value, resolved: Entries, ids: seq<string>)
    ensures NoDuplicates(GetAll(defs, produce, resolved, ids).invoked)
    decreases |ids|
  {
    if ids != [] {
      var first := GetStep(defs, produce, resolved, ids[0]);
      var rest := GetAll(defs, produce, first.resolved, ids[1..]);
      InvokedOnce(defs, produce, first.resolved, ids[1..]);
      if first.invoked != [] {
        IndexOfKey(first.resolved, ids[0]);
        InvokedWereUnresolved(defs, produce, first.resolved, ids[1..]);
        assert ids[0] !in rest.invoked;
        var all := [ids[0]] + rest.invoked;
        forall i, j | 0 <= i < j < |all| ensures all[i] != all[j] {
          assert all[j] == rest.invoked[j - 1];
          if i > 0 {
            assert all[i] == rest.invoked[i - 1];
          }
        }
      }
    }
  }

  /**
   * Over any run of gets, each factory runs at most once, only for an id not resolved
   * beforehand, and every id whose factory ran is resolved at the end.
   */
  lemma FactoryRunsAtMostOnce(defs: Entries, produce: nat -> Value, resolved: Entries, ids: seq<string>)
    ensures var s := GetAll(defs, produce, resolved, ids);
      && NoDuplicates(s.invoked)
      && (forall k :: k in s.invoked ==> !HasKey(resolved, k) && HasKey(s.resolved, k))
  {
    InvokedWereUnresolved(defs, produce, resolved, ids);
    InvokedAreResolved(defs, produce, resolved, ids);
    InvokedOnce(defs, produce, resolved, ids);
  }

  /** A resolved id stays resolved over any run of gets. */
  lemma {:induction false} GetAllKeepsResolved(defs: Entries, produce: nat -> Value, resolved: Entries, ids: seq<string>)
    ensures forall k :: HasKey(resolved, k) ==> HasKey(GetAll(defs, produce, resolved, ids).resolved, k)
    decreases |ids|
  {
    if ids != [] {
      var first := GetStep(defs, produce, resolved, ids[0]);
      GetAllKeepsResolved(defs, produce, first.resolved, ids[1..]);
      forall k | HasKey(resolved, k) ensures HasKey(first.resolved, k) {
        StepKeepsResolved(defs, produce, resolved, ids[0], k);
      }
    }
  }
}
