/**
 * The class-name to constructor table (ProcessRegistry). It is a static
 * dictionary in the source; here it is one object handed to whoever uses it.
 * Both kernels carry an identical copy of it, so one generic class serves
 * both, parameterised by how a constructor reports its `className`.
 */
module Registry {
  import opened Base

  /** Lookup in a registry dictionary; `undefined` for a missing name. */
  function Lookup<C>(m: map<string, C>, className: string): (r: Option<C>)
    ensures r.Some? <==> className in m
    ensures r.Some? ==> r.value == m[className]
  {
    if className in m then Some(m[className]) else None
  }

  /** Every entry of `m` is stored under its own constructor's name. */
  ghost predicate ConsistentMap<C>(m: map<string, C>, nameOf: C -> string) {
    forall name :: name in m ==> nameOf(m[name]) == name
  }

  class ProcessRegistry<C> {
    var registry: map<string, C>
    const nameOf: C -> string

    /** An empty registry whose constructors are named by `nameOf`. */
    constructor (nameOf: C -> string)
      ensures registry == map[] && this.nameOf == nameOf
    {
      registry := map[];
      this.nameOf := nameOf;
    }

    /** `registry[ctor.className] = ctor`: last writer wins. */
    method Register(ctor: C)
      modifies this
      ensures registry == old(registry)[nameOf(ctor) := ctor]
    {
      registry := registry[nameOf(ctor) := ctor];
    }

    /** `registry[className]`. */
    function Fetch(className: string): (r: Option<C>)
      reads this
      ensures r == Lookup(registry, className)
    {
      if className in registry then Some(registry[className]) else None
    }

    /** Every entry is stored under its own constructor's name. */
    ghost predicate Consistent()
      reads this
    {
      ConsistentMap(registry, nameOf)
    }
  }

  /** After registering `c`, fetching its name yields `c`. */
  lemma FetchAfterRegister<C>(m: map<string, C>, name: string, c: C)
    ensures Lookup(m[name := c], name) == Some(c)
  {
  }

  /** Registering a second constructor under a name replaces the first. */
  lemma LastWriterWins<C>(m: map<string, C>, name: string, c1: C, c2: C)
    ensures Lookup(m[name := c1][name := c2], name) == Some(c2)
  {
  }

  /** Registering under one name leaves every other name's entry alone. */
  lemma RegisterLeavesOthers<C>(m: map<string, C>, name: string, c: C, other: string)
    requires other != name
    ensures Lookup(m[name := c], other) == Lookup(m, other)
  {
  }

  /** A name that was never registered fetches `undefined`. */
  lemma FetchUnregistered<C>(m: map<string, C>, name: string)
    requires name !in m
    ensures Lookup(m, name) == None
  {
  }

  /** Registering keeps the registry consistent. */
  lemma RegisterKeepsConsistent<C>(m: map<string, C>, nameOf: C -> string, c: C)
    requires ConsistentMap(m, nameOf)
    ensures ConsistentMap(m[nameOf(c) := c], nameOf)
  {
  }
}
