/** The macro table: a linked list in the source, newest first, that behaves as a map. */
module Macros {
  import opened Syntax
  import opened Seqs

  datatype Macro = Macro(isFunc: bool, params: seq<string>, body: string)
  datatype Entry = Entry(name: string, macro: Macro)

  type Table = seq<Entry>

  function Names(t: Table): (r: seq<string>)
    ensures |r| == |t|
  {
    seq(|t|, i requires 0 <= i < |t| => t[i].name)
  }

  function Find(t: Table, name: string): Option<Macro> {
    if t == [] then None else if t[0].name == name then Some(t[0].macro) else Find(t[1..], name)
  }

  /** A name that is there keeps its place and gets the new definition; a new one goes first. */
  function Add(t: Table, name: string, m: Macro): Table {
    if Find(t, name).Some? then Replace(t, name, m) else [Entry(name, m)] + t
  }

  function Replace(t: Table, name: string, m: Macro): Table {
    if t == [] then [] else if t[0].name == name then [Entry(name, m)] + t[1..] else [t[0]] + Replace(t[1..], name, m)
  }

  /** Unlinks the first entry of that name. */
  function Remove(t: Table, name: string): Table {
    if t == [] then [] else if t[0].name == name then t[1..] else [t[0]] + Remove(t[1..], name)
  }

  ghost predicate Distinct(t: Table) {
    t == [] || (Find(t[1..], t[0].name).None? && Distinct(t[1..]))
  }

  /** Defining a name changes that name only, and keeps the names distinct. */
  lemma {:induction false} AddIsUpdate(t: Table, name: string, m: Macro, other: string)
    requires Distinct(t)
    ensures Find(Add(t, name, m), other) == if other == name then Some(m) else Find(t, other)
    ensures Distinct(Add(t, name, m))
  {
    if Find(t, name).Some? {
      ReplaceIsUpdate(t, name, m, other);
    } else {
      assert Add(t, name, m)[1..] == t;
    }
  }

  lemma {:induction false} ReplaceIsUpdate(t: Table, name: string, m: Macro, other: string)
    requires Distinct(t) && Find(t, name).Some?
    ensures Find(Replace(t, name, m), other) == if other == name then Some(m) else Find(t, other)
    ensures Distinct(Replace(t, name, m))
  {
    var r := Replace(t, name, m);
    assert r[1..] == if t[0].name == name then t[1..] else Replace(t[1..], name, m);
    if t[0].name != name {
      ReplaceIsUpdate(t[1..], name, m, other);
      ReplaceIsUpdate(t[1..], name, m, t[0].name);
    }
  }

  /** Undefining a name removes that name only. */
  lemma {:induction false} RemoveIsErase(t: Table, name: string, other: string)
    requires Distinct(t)
    ensures Find(Remove(t, name), other) == if other == name then None else Find(t, other)
    ensures Distinct(Remove(t, name))
  {
    if t != [] {
      var r := Remove(t, name);
      if t[0].name != name {
        assert r[1..] == Remove(t[1..], name);
        RemoveIsErase(t[1..], name, other);
        RemoveIsErase(t[1..], name, t[0].name);
      }
    }
  }
}
