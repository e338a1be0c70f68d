/** Scoped symbol table: a stack of maps, searched from the innermost scope outwards. */
module Scopes {
  import opened Lang

  /** What a name stands for: a variable or a function. */
  datatype Entry = VarEntry(x: VarRef) | FunEntry(index: nat)

  type Names = map<string, Entry>

  /** The flat environment of a stack of scopes: inner declarations shadow outer ones. */
  function Visible(scopes: seq<Names>): Names {
    if scopes == [] then map[] else Visible(scopes[..|scopes|-1]) + scopes[|scopes|-1]
  }

  function Find(names: Names, name: string): Option<Entry> {
    if name in names then Some(names[name]) else None
  }

  class NamesStack {
    var scopes: seq<Names>

    constructor ()
      ensures scopes == []
    {
      scopes := [];
    }

    /** Open a scope, named by its position. */
    method AddNamesScope() returns (scope: nat)
      modifies this
      ensures scope == |old(scopes)| && scopes == old(scopes) + [map[]]
      ensures Visible(scopes) == Visible(old(scopes))
    {
      scope := |scopes|;
      scopes := scopes + [map[]];
      assert scopes[..|scopes|-1] == old(scopes);
    }

    /** Remove a scope; false stands for the exception on a scope that does not exist. */
    method RemoveNamesScope(scope: nat) returns (found: bool)
      modifies this
      ensures found == (scope < |old(scopes)|)
      ensures scopes == if found then old(scopes)[..scope] + old(scopes)[scope + 1..] else old(scopes)
    {
      found := scope < |scopes|;
      if found {
        scopes := scopes[..scope] + scopes[scope + 1..];
      }
    }

    /** Declare a name in a scope, unless that scope has it already. */
    method AddName(scope: nat, name: string, entry: Entry) returns (added: bool)
      requires scope < |scopes|
      modifies this
      ensures added == (name !in old(scopes)[scope])
      ensures scopes == if added then old(scopes)[scope := old(scopes)[scope][name := entry]] else old(scopes)
      ensures scope == |scopes| - 1 ==>
        Visible(scopes) == if added then Visible(old(scopes))[name := entry] else Visible(old(scopes))
    {
      added := name !in scopes[scope];
      if added {
        scopes := scopes[scope := scopes[scope][name := entry]];
        assert scope == |scopes| - 1 ==> scopes[..|scopes|-1] == old(scopes)[..|scopes|-1];
      }
    }

    /** The innermost declaration of a name. */
    method FindName(name: string) returns (r: Option<Entry>)
      ensures r == Find(Visible(scopes), name)
    {
      var i := |scopes|;
      assert scopes[..i] == scopes;
      while i > 0
        invariant 0 <= i <= |scopes|
        invariant Find(Visible(scopes), name) == Find(Visible(scopes[..i]), name)
      {
        assert scopes[..i][..i-1] == scopes[..i-1];
        if name in scopes[i-1] {
          return Some(scopes[i-1][name]);
        }
        i := i - 1;
      }
      return None;
    }
  }
}
