/** The declarations scope a transformation writes its temporaries into.
    The generator's own `declare_variable` is not part of this model; this
    module gives it the contract the transformation relies on: the returned
    name is new in the scope, is built from the requested base name, and
    exactly one declaration of the requested C type is added. */
module Declarations {
  import opened Words

  /** One C variable declaration emitted into the wrapper's declaration area. */
  datatype Declaration = Declaration(ctype: string, name: string)

  /** The declarations of one wrapper, in emission order. */
  datatype Scope = Scope(decls: seq<Declaration>)

  const EmptyScope := Scope([])

  /** Variable names already taken in `scope`. */
  function Names(scope: Scope): set<string> {
    set i | 0 <= i < |scope.decls| :: scope.decls[i].name
  }

  /** An upper bound on the length of every name declared in `decls`. */
  function LongestName(decls: seq<Declaration>): (n: nat)
    ensures forall i :: 0 <= i < |decls| ==> |decls[i].name| <= n
  {
    if |decls| == 0 then 0
    else
      var rest := LongestName(decls[1..]);
      if |decls[0].name| > rest then |decls[0].name| else rest
  }

  /** `n` copies of `c`. */
  function Repeat(c: char, n: nat): (r: string)
    ensures |r| == n
    ensures forall i :: 0 <= i < n ==> r[i] == c
  {
    if n == 0 then [] else [c] + Repeat(c, n - 1)
  }

  /** `declare_variable(ctype, base)`: declare a fresh variable of type
      `ctype` named after `base`, returning the name and the grown scope.
      The base itself is used while it is free; otherwise underscores are
      appended until the name is longer than every name already declared. */
  function DeclareVariable(scope: Scope, ctype: string, base: string): (r: (string, Scope))
    ensures r.0 !in Names(scope)
    ensures base <= r.0
    ensures IsIdent(base) ==> IsIdent(r.0)
    ensures r.1.decls == scope.decls + [Declaration(ctype, r.0)]
    ensures Names(r.1) == Names(scope) + {r.0}
  {
    var name :=
      if base !in Names(scope) then base
      else base + Repeat('_', LongestName(scope.decls) + 1);
    var scope' := Scope(scope.decls + [Declaration(ctype, name)]);
    assert scope'.decls[|scope.decls|].name == name;
    assert forall i :: 0 <= i < |scope.decls| ==> scope'.decls[i] == scope.decls[i];
    (name, scope')
  }
}
