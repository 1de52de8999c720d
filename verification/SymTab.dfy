/** The symbol table: scopes of hash buckets, linked to their parents, that represent a
    stack of finite maps. */
module SymTab {
  import opened Syntax
  import opened Seqs
  import T = Typing
  import opened CheckSpec

  const BUCKETS: nat := 64

  /** A linked list of symbols.  Links never change once they are made. */
  datatype Chain = Nil | Link(name: string, sym: T.Stored, next: Chain)

  function Names(c: Chain): seq<string> {
    if c.Nil? then [] else [c.name] + Names(c.next)
  }

  /** The first symbol called `name`. */
  function Find(c: Chain, name: string): Option<T.Stored> {
    if c.Nil? then None else if c.name == name then Some(c.sym) else Find(c.next, name)
  }

  /** What a scope that stands for `m` has stored under `name`. */
  function Get(m: T.Scope, name: string): Option<T.Stored> {
    if name in m then Some(T.Store(m[name])) else None
  }

  function StoredOf(sym: Option<T.Sym>): Option<T.Stored> {
    if sym.Some? then Some(T.Store(sym.value)) else None
  }

  lemma {:induction false} FindNamed(c: Chain, name: string)
    ensures Find(c, name).Some? <==> name in Names(c)
  {
    if c.Link? {
      FindNamed(c.next, name);
      assert Names(c)[0] == c.name && Names(c)[1..] == Names(c.next);
      assert name in Names(c) <==> name == c.name || name in Names(c.next);
    }
  }

  lemma LinkFirst(c: Chain, name: string, sym: T.Stored)
    requires NoDup(Names(c)) && name !in Names(c)
    ensures NoDup(Names(Link(name, sym, c)))
    ensures forall n :: n in Names(Link(name, sym, c)) <==> n == name || n in Names(c)
  {
    var ns := Names(Link(name, sym, c));
    assert ns == [name] + Names(c);
    assert forall i :: 0 < i < |ns| ==> ns[i] == Names(c)[i - 1];
  }

  class ScopeNode {
    const parent: ScopeNode?
    const buckets: array<Chain>
    var list: Chain
    /** The map this scope stands for, with whole symbols where the table has what it keeps of
        them. */
    ghost var syms: T.Scope

    constructor (parent: ScopeNode?, ghost hash: string -> nat)
      ensures this.parent == parent && fresh(buckets)
      ensures Represents(hash) && syms == map[]
    {
      this.parent := parent;
      var bs := new Chain[BUCKETS](_ => Nil);
      buckets := bs;
      list := Nil;
      syms := map[];
    }

    /** Every symbol is in the bucket of its hash and nowhere else, once, and once in the
        scope list; the buckets and the list both hold exactly the symbols of `syms`. */
    ghost predicate Represents(hash: string -> nat)
      reads this, buckets
    {
      && buckets.Length == BUCKETS
      && (forall h, n :: 0 <= h < BUCKETS && n in Names(buckets[h]) ==> hash(n) % BUCKETS == h)
      && (forall h :: 0 <= h < BUCKETS ==> NoDup(Names(buckets[h])))
      && (forall n :: Find(buckets[hash(n) % BUCKETS], n) == Get(syms, n))
      && NoDup(Names(list))
      && (forall n :: Find(list, n) == Get(syms, n))
    }

    /** Links a symbol whose name is new into its bucket and into the list. */
    method Add(hash: string -> nat, name: string, sym: T.Sym)
      requires Represents(hash) && name !in syms
      modifies this, buckets
      ensures Represents(hash)
      ensures syms == old(syms)[name := sym]
    {
      var h := hash(name) % BUCKETS;
      ghost var was := buckets[..];
      FindNamed(buckets[h], name);
      FindNamed(list, name);
      var stored := T.Store(sym);
      LinkFirst(buckets[h], name, stored);
      LinkFirst(list, name, stored);
      buckets[h] := Link(name, stored, buckets[h]);
      list := Link(name, stored, list);
      syms := syms[name := sym];
      assert forall k :: 0 <= k < BUCKETS && k != h ==> buckets[k] == was[k];
    }

    method BucketLookup(hash: string -> nat, name: string) returns (r: Option<T.Stored>)
      requires Represents(hash)
      ensures r == Get(syms, name)
    {
      var c := buckets[hash(name) % BUCKETS];
      while c.Link?
        invariant Find(c, name) == Get(syms, name)
        decreases c
      {
        if c.name == name { return Some(c.sym); }
        c := c.next;
      }
      r := None;
    }
  }

  // ------------------------------------------------------- lookup, in the abstract

  /** A definition changes the meaning of its own name only, and not even that if the
      current scope has one already. */
  lemma LookupDeclared(scopes: T.Scopes, name: string, sym: T.Sym, other: string)
    ensures T.Lookup(Declare(scopes, name, sym), other)
      == if other == name && !IsDeclared(scopes, name) then Some(sym) else T.Lookup(scopes, other)
  {
    var n := |scopes| - 1;
    assert Declare(scopes, name, sym)[..n] == scopes[..n];
  }

  function DeclareMany(scopes: T.Scopes, names: seq<string>, syms: seq<T.Sym>): (r: T.Scopes)
    requires |names| == |syms|
    ensures |r| == |scopes|
    decreases |names|
  {
    if names == [] then scopes else DeclareMany(Declare(scopes, names[0], syms[0]), names[1..], syms[1..])
  }

  /** Push, any definitions, pop: every name means again what it meant before. */
  lemma {:induction false} ScopeRestored(scopes: T.Scopes, names: seq<string>, syms: seq<T.Sym>)
    requires |names| == |syms|
    ensures DeclareMany(T.Push(scopes), names, syms)[..|scopes|] == scopes
  {
    OuterKept(T.Push(scopes), names, syms);
    assert T.Push(scopes)[..|scopes|] == scopes;
  }

  lemma {:induction false} OuterKept(scopes: T.Scopes, names: seq<string>, syms: seq<T.Sym>)
    requires |names| == |syms|
    ensures DeclareMany(scopes, names, syms)[..|scopes| - 1] == scopes[..|scopes| - 1]
    decreases |names|
  {
    if names != [] {
      OuterKept(Declare(scopes, names[0], syms[0]), names[1..], syms[1..]);
    }
  }

  class Table {
    const hash: string -> nat
    const global: ScopeNode
    var cur: ScopeNode
    /** The scopes from the global one to the current one. */
    ghost var chain: seq<ScopeNode>

    ghost predicate Valid()
      reads this, chain, set s | s in chain :: s.buckets
    {
      && chain != []
      && chain[0] == global && chain[|chain| - 1] == cur
      && chain[0].parent == null
      && (forall i :: 0 < i < |chain| ==> chain[i].parent == chain[i - 1])
      && (forall i, j :: 0 <= i < j < |chain| ==> chain[i] != chain[j] && chain[i].buckets != chain[j].buckets)
      && (forall i :: 0 <= i < |chain| ==> chain[i].Represents(hash))
    }

    /** The stack of maps the table represents. */
    ghost function Scopes(): (r: T.Scopes)
      requires Valid()
      reads this, chain, set s | s in chain :: s.buckets
      ensures |r| == |chain|
    {
      seq(|chain|, i requires 0 <= i < |chain| reads this, chain => chain[i].syms)
    }

    constructor (hash: string -> nat)
      ensures Valid() && fresh(chain) && fresh(set s | s in chain :: s.buckets)
      ensures Scopes() == [map[]]
    {
      var g := new ScopeNode(null, hash);
      this.hash := hash;
      global := g;
      cur := g;
      chain := [g];
    }

    method Push()
      requires Valid()
      modifies this
      ensures Valid() && chain == old(chain) + [cur] && fresh(cur) && fresh(cur.buckets)
      ensures Scopes() == T.Push(old(Scopes()))
    {
      hide ScopeNode.Represents;
      var s := new ScopeNode(cur, hash);
      cur := s;
      chain := chain + [s];
    }

    /** The global scope is never popped. */
    method Pop()
      requires Valid()
      modifies this
      ensures Valid()
      ensures chain == if |old(chain)| == 1 then old(chain) else old(chain)[..|old(chain)| - 1]
      ensures Scopes() == if |old(Scopes())| == 1 then old(Scopes()) else old(Scopes())[..|old(Scopes())| - 1]
    {
      if cur != global {
        assert cur.parent == chain[|chain| - 2];
        cur := cur.parent;
        chain := chain[..|chain| - 1];
      }
    }

    /** Binds `name` in the current scope unless it is bound there already, and returns its
        binding there. */
    method Define(name: string, sym: T.Sym) returns (r: T.Stored)
      requires Valid()
      modifies cur, cur.buckets
      ensures Valid() && chain == old(chain)
      ensures Scopes() == Declare(old(Scopes()), name, sym)
      ensures name in T.Innermost(Scopes()) && r == T.Store(T.Innermost(Scopes())[name])
    {
      hide ScopeNode.Represents;
      var existing := cur.BucketLookup(hash, name);
      if existing.Some? { return existing.value; }
      cur.Add(hash, name, sym);
      r := T.Store(sym);
    }

    method LookupLocal(name: string) returns (r: Option<T.Stored>)
      requires Valid()
      ensures r == Get(T.Innermost(Scopes()), name)
    {
      r := cur.BucketLookup(hash, name);
    }

    method LookupGlobal(name: string) returns (r: Option<T.Stored>)
      requires Valid()
      ensures r == StoredOf(T.LookupGlobal(Scopes(), name))
    {
      r := global.BucketLookup(hash, name);
    }

    /** Finds the innermost binding, whatever the hash function. */
    method Lookup(name: string) returns (r: Option<T.Stored>)
      requires Valid()
      ensures r == StoredOf(T.Lookup(Scopes(), name))
    {
      hide ScopeNode.Represents;
      ghost var scopes := Scopes();
      var sc: ScopeNode? := cur;
      ghost var n := |chain|;
      assert scopes[..n] == scopes;
      while sc != null
        invariant 0 <= n <= |chain|
        invariant sc == if n == 0 then null else chain[n - 1]
        invariant T.Lookup(scopes[..n], name) == T.Lookup(scopes, name)
        decreases n
      {
        r := sc.BucketLookup(hash, name);
        assert scopes[..n][..n - 1] == scopes[..n - 1];
        assert chain[n - 1].syms == scopes[..n][n - 1];
        if r.Some? { return; }
        sc := sc.parent;
        n := n - 1;
      }
      r := None;
    }
  }
}
