/** The `PointerHolderTransformation` of the foo example module: a type
    transformation that lets wrapped functions take and return
    `PointerHolder<T>` values (a struct with one field, `thePointer`) by
    rewriting that type to the plain pointer type `T*` and emitting glue that
    unpacks parameters and packs return values. */
module PointerHolder {
  import opened Wrappers
  import opened Words
  import opened Declarations
  import Glue

  const TemplateOpen := "PointerHolder<"
  const GlobalScope := "::"

  /** Base name of the temporary `transform` declares. */
  const TemporaryBase := "tmp"

  // ---------------------------------------------------------------------
  // get_untransformed_name: re.match(r'(?:::)?PointerHolder<(\w+)>', name)
  // ---------------------------------------------------------------------

  /** The optional leading `(?:::)?` group. Taking the group when the name
      starts with `::` is the only way the pattern can match there: its other
      alternative needs `P` where the name has `:`. */
  function AfterOptionalScope(name: string): string {
    if GlobalScope <= name then name[|GlobalScope|..] else name
  }

  /** What `PointerHolder<(\w+)>` captures when matched at the start of `s`.
      The greedy `\w+` cannot give back characters usefully, since the
      character after a shorter run is a word character, never `>`. */
  function MatchTemplate(s: string): (r: Option<string>)
    ensures r.Some? ==> IsIdent(r.value) && TemplateOpen + r.value + ">" <= s
  {
    if TemplateOpen <= s then
      var rest := s[|TemplateOpen|..];
      var n := WordRunLength(rest);
      if 0 < n < |rest| && rest[n] == '>' then
        assert s == TemplateOpen + rest[..n] + ">" + rest[n + 1..];
        Some(rest[..n])
      else None
    else None
  }

  /** `get_untransformed_name`: the pointer type a `PointerHolder<T>` name
      stands for, `T*`, or `None` when the name does not start with the
      pattern. */
  function GetUntransformedName(name: string): (r: Option<string>)
    ensures r.Some? ==> |r.value| >= 2 && r.value[|r.value| - 1] == '*'
    ensures r.Some? ==> IsIdent(r.value[..|r.value| - 1])
    ensures r.Some? ==> forall i :: 0 <= i < |r.value| ==> r.value[i] !in "<>:"
  {
    match MatchTemplate(AfterOptionalScope(name))
    case None => None
    case Some(ident) =>
      var r := ident + "*";
      assert r[..|r| - 1] == ident;
      Some(r)
  }

  /** Reference reading of the pattern, independent of the matcher: `name`
      begins with `PointerHolder<ident>`, optionally preceded by one `::`. */
  ghost predicate MatchesPattern(name: string, ident: string) {
    && IsIdent(ident)
    && (TemplateOpen + ident + ">" <= name || GlobalScope + TemplateOpen + ident + ">" <= name)
  }

  /** The matcher finds an identifier whenever the template with it opens `s`. */
  lemma MatchTemplateComplete(s: string, ident: string)
    requires IsIdent(ident)
    requires TemplateOpen + ident + ">" <= s
    ensures MatchTemplate(s) == Some(ident)
  {
    var head := TemplateOpen + ident + ">";
    var after := s[|head|..];
    assert s == head + after;
    assert s[..|TemplateOpen|] == TemplateOpen;
    var rest := s[|TemplateOpen|..];
    assert rest == ident + ">" + after;
    WordRunOfWordThen(ident, ">" + after);
    assert TemplateOpen <= s;
    assert rest[|ident|] == '>';
    assert rest[..|ident|] == ident;
  }

  /** `get_untransformed_name` yields `ident*` exactly when the name starts
      with the pattern around `ident`. */
  lemma GetUntransformedNameMatches(name: string, ident: string)
    ensures GetUntransformedName(name) == Some(ident + "*") <==> MatchesPattern(name, ident)
  {
    var body := AfterOptionalScope(name);
    if GetUntransformedName(name) == Some(ident + "*") {
      var found := MatchTemplate(body).value;
      assert found == (found + "*")[..|found|];
      assert ident == (ident + "*")[..|ident|];
      if GlobalScope <= name {
        assert name == GlobalScope + body;
      }
    }
    if MatchesPattern(name, ident) {
      if TemplateOpen + ident + ">" <= name {
        assert name[0] == 'P';
      } else {
        assert name == GlobalScope + body;
      }
      MatchTemplateComplete(body, ident);
    }
  }

  /** `None` exactly when no identifier completes the pattern. */
  lemma GetUntransformedNameNone(name: string)
    ensures GetUntransformedName(name).None? <==> forall ident :: !MatchesPattern(name, ident)
  {
    match GetUntransformedName(name)
    case Some(r) =>
      var ident := r[..|r| - 1];
      assert r == ident + "*";
      GetUntransformedNameMatches(name, ident);
    case None =>
      forall ident ensures !MatchesPattern(name, ident) {
        GetUntransformedNameMatches(name, ident);
      }
  }

  /** `PointerHolder<X>` names the pointer type `X*`, whatever follows the
      closing `>`. */
  lemma IdentifierArgument(x: string, tail: string)
    requires IsIdent(x)
    ensures GetUntransformedName(TemplateOpen + x + ">" + tail) == Some(x + "*")
  {
    GetUntransformedNameMatches(TemplateOpen + x + ">" + tail, x);
  }

  /** One leading `::` is ignored. */
  lemma GlobalScopeIgnored(s: string)
    requires !(GlobalScope <= s)
    ensures GetUntransformedName(GlobalScope + s) == GetUntransformedName(s)
  {
    assert (GlobalScope + s)[|GlobalScope|..] == s;
  }

  /** ... but only one: `::::PointerHolder<X>` is not recognised. */
  lemma GlobalScopeAtMostOnce(s: string)
    ensures GetUntransformedName(GlobalScope + GlobalScope + s) == None
  {
    var name := GlobalScope + GlobalScope + s;
    assert AfterOptionalScope(name) == GlobalScope + s;
    assert (GlobalScope + s)[0] == ':';
  }

  /** A name that starts neither with `PointerHolder<` nor with
      `::PointerHolder<` (another template, a plain type, leading blanks) is
      not recognised. */
  lemma OtherNamesRejected(name: string)
    requires !(TemplateOpen <= name) && !(GlobalScope + TemplateOpen <= name)
    ensures GetUntransformedName(name) == None
  {
    GetUntransformedNameNone(name);
  }

  /** In particular leading whitespace defeats the anchored match. */
  lemma LeadingCharacterRejected(c: char, s: string)
    requires c != 'P' && c != ':'
    ensures GetUntransformedName([c] + s) == None
  {
    var name := [c] + s;
    assert name[0] == c;
    assert (GlobalScope + TemplateOpen)[0] == ':' && TemplateOpen[0] == 'P';
    OtherNamesRejected(name);
  }

  /** `PointerHolder<>`: `\w+` needs at least one character. */
  lemma EmptyArgumentRejected(tail: string)
    ensures GetUntransformedName(TemplateOpen + ">" + tail) == None
    ensures GetUntransformedName(GlobalScope + TemplateOpen + ">" + tail) == None
  {
    var name := TemplateOpen + ">" + tail;
    assert name[|TemplateOpen|..] == ">" + tail;
    assert name[0] == 'P';
    assert (GlobalScope + name)[|GlobalScope|..] == name;
  }

  /** `PointerHolder<a::...`: a qualified argument is not `\w+`, whatever
      follows the `::`. */
  lemma QualifiedArgumentRejected(a: string, tail: string)
    requires AllWordChars(a)
    ensures GetUntransformedName(TemplateOpen + a + GlobalScope + tail) == None
  {
    var name := TemplateOpen + a + GlobalScope + tail;
    var rest := a + (GlobalScope + tail);
    assert name[|TemplateOpen|..] == rest;
    assert name[0] == 'P';
    WordRunOfWordThen(a, GlobalScope + tail);
    assert rest[|a|] == ':';
  }

  /** `re.match` anchors only at the start: text after a recognised name
      changes nothing. */
  lemma TrailingTextIgnored(name: string, ident: string, tail: string)
    requires MatchesPattern(name, ident)
    ensures GetUntransformedName(name + tail) == GetUntransformedName(name) == Some(ident + "*")
  {
    GetUntransformedNameMatches(name, ident);
    GetUntransformedNameMatches(name + tail, ident);
  }

  // ---------------------------------------------------------------------
  // untransform and transform
  // ---------------------------------------------------------------------

  /** `untransform`: the parameter glue, `(expression).thePointer`. The
      handler, declarations and code block it is given are never read, so
      they are not parameters here. */
  function Untransform(expression: string): (r: string)
    ensures Glue.Parse(r) == Some(Glue.Unpack(expression))
  {
    Glue.ParseRender(Glue.Unpack(expression));
    Glue.Render(Glue.Unpack(expression))
  }

  /** Failures the source raises: `ctype[-1]` on an empty string is an
      IndexError; a failed `assert` is an AssertionError. */
  datatype Failure = IndexError | AssertionError

  /** `transform`: the return-value glue. Declares one temporary
      `PointerHolder<T> tmp` for the untransformed type `T*` and stores the
      returned pointer in it: `(tmp.thePointer = (expression), tmp)`. */
  function Transform(untransformedCtype: string, scope: Scope, expression: string)
    : (r: Result<(string, Scope), Failure>)
    ensures untransformedCtype == [] <==> r == Failure(IndexError)
    ensures (untransformedCtype != [] && untransformedCtype[|untransformedCtype| - 1] != '*')
            <==> r == Failure(AssertionError)
    ensures r.Success? ==>
              var (code, scope') := r.value;
              && |scope'.decls| == |scope.decls| + 1
              && scope'.decls[..|scope.decls|] == scope.decls
              && var temp := scope'.decls[|scope.decls|];
              && temp.ctype == TemplateOpen + untransformedCtype[..|untransformedCtype| - 1] + ">"
              && temp.name !in Names(scope)
              && TemporaryBase <= temp.name
              && Glue.Parse(code) == Some(Glue.Pack(temp.name, expression))
  {
    if untransformedCtype == [] then Failure(IndexError)
    else if untransformedCtype[|untransformedCtype| - 1] != '*' then Failure(AssertionError)
    else
      var pointee := untransformedCtype[..|untransformedCtype| - 1];
      var (v, scope') := DeclareVariable(scope, TemplateOpen + pointee + ">", TemporaryBase);
      Glue.ParseRender(Glue.Pack(v, expression));
      assert scope'.decls[..|scope.decls|] == scope.decls;
      Success((Glue.Render(Glue.Pack(v, expression)), scope'))
  }

  /** The type of the temporary `transform` declares is read back by
      `get_untransformed_name` as the original pointer type. */
  lemma TransformTypeRoundTrip(untransformedCtype: string, scope: Scope, expression: string)
    requires |untransformedCtype| >= 1 && untransformedCtype[|untransformedCtype| - 1] == '*'
    requires IsIdent(untransformedCtype[..|untransformedCtype| - 1])
    ensures Transform(untransformedCtype, scope, expression).Success?
    ensures var scope' := Transform(untransformedCtype, scope, expression).value.1;
            GetUntransformedName(scope'.decls[|scope.decls|].ctype) == Some(untransformedCtype)
  {
    var pointee := untransformedCtype[..|untransformedCtype| - 1];
    assert untransformedCtype == pointee + "*";
    IdentifierArgument(pointee, "");
    assert TemplateOpen + pointee + ">" + "" == TemplateOpen + pointee + ">";
  }

  /** Conversely, every name the transformation recognises can be packed,
      and the temporary's type is recognised as the same pointer type. */
  lemma RecognisedNamesTransform(name: string, scope: Scope, expression: string)
    requires GetUntransformedName(name).Some?
    ensures var ctype := GetUntransformedName(name).value;
            && Transform(ctype, scope, expression).Success?
            && var scope' := Transform(ctype, scope, expression).value.1;
            && GetUntransformedName(scope'.decls[|scope.decls|].ctype) == GetUntransformedName(name)
  {
    TransformTypeRoundTrip(GetUntransformedName(name).value, scope, expression);
  }

  /** Unpacking what `transform` packed: the text
      `((tmp.thePointer = (e), tmp)).thePointer` reads back, layer by layer,
      to the expression `e` that was stored. */
  lemma UnpackOfPackReadsBack(untransformedCtype: string, scope: Scope, expression: string)
    requires |untransformedCtype| >= 1 && untransformedCtype[|untransformedCtype| - 1] == '*'
    ensures Transform(untransformedCtype, scope, expression).Success?
    ensures var code := Transform(untransformedCtype, scope, expression).value.0;
            && Glue.Parse(Untransform(code)) == Some(Glue.Unpack(code))
            && Glue.Parse(code).Some? && Glue.Parse(code).value.Pack?
            && Glue.Parse(code).value.pointer == expression
  {
  }

  // ---------------------------------------------------------------------
  // create_type_handler: the ownership flag
  // ---------------------------------------------------------------------

  /** Which handler class `create_type_handler` is asked to build. */
  datatype HandlerKind = ParameterHandler | ReturnValueHandler | OtherHandler

  /** A keyword-argument value handed to a handler constructor. */
  datatype Argument = BoolArg(flag: bool) | TextArg(text: string) | IntArg(number: int)

  type Kwargs = map<string, Argument>

  const TransferOwnership := "transfer_ownership"
  const CallerOwnsReturn := "caller_owns_return"

  /** Ownership of a value crossing the boundary, as the handler flags
      select it. `Unstated` means the flag is absent or not a boolean. */
  datatype Ownership = CalleeRetains | CallerTransfersIn | CallerOwnsReturnedValue | Unstated

  /** What a parameter handler's `transfer_ownership` flag selects. */
  function ParameterOwnership(kwargs: Kwargs): Ownership {
    if TransferOwnership in kwargs && kwargs[TransferOwnership] == BoolArg(true) then CallerTransfersIn
    else if TransferOwnership in kwargs && kwargs[TransferOwnership] == BoolArg(false) then CalleeRetains
    else Unstated
  }

  /** What a return-value handler's `caller_owns_return` flag selects. */
  function ReturnOwnership(kwargs: Kwargs): Ownership {
    if CallerOwnsReturn in kwargs && kwargs[CallerOwnsReturn] == BoolArg(true) then CallerOwnsReturnedValue
    else if CallerOwnsReturn in kwargs && kwargs[CallerOwnsReturn] == BoolArg(false) then CalleeRetains
    else Unstated
  }

  /** The keyword argument `create_type_handler` sets for a handler kind. */
  function OwnershipFlag(kind: HandlerKind): string {
    if kind.ParameterHandler? then TransferOwnership else CallerOwnsReturn
  }

  /** The keyword arguments `create_type_handler` passes on: parameters never
      transfer ownership, returned pointers are owned by the caller, any other
      handler class is an AssertionError. */
  function OwnershipKwargs(kind: HandlerKind, kwargs: Kwargs): (r: Result<Kwargs, Failure>)
    ensures kind.OtherHandler? <==> r == Failure(AssertionError)
    ensures r.Success? ==>
              && (kind.ParameterHandler? ==> ParameterOwnership(r.value) == CalleeRetains)
              && (kind.ReturnValueHandler? ==> ReturnOwnership(r.value) == CallerOwnsReturnedValue)
    ensures r.Success? ==>
              && r.value.Keys == kwargs.Keys + {OwnershipFlag(kind)}
              && forall k :: k in kwargs && k != OwnershipFlag(kind) ==> r.value[k] == kwargs[k]
  {
    match kind
    case ParameterHandler => Success(kwargs[TransferOwnership := BoolArg(false)])
    case ReturnValueHandler => Success(kwargs[CallerOwnsReturn := BoolArg(true)])
    case OtherHandler => Failure(AssertionError)
  }

  /** Setting the flag again changes nothing. */
  lemma OwnershipKwargsIdempotent(kind: HandlerKind, kwargs: Kwargs)
    requires !kind.OtherHandler?
    ensures OwnershipKwargs(kind, OwnershipKwargs(kind, kwargs).value) == OwnershipKwargs(kind, kwargs)
  {
    var once := OwnershipKwargs(kind, kwargs).value;
    var twice := OwnershipKwargs(kind, once).value;
    assert twice.Keys == once.Keys;
    assert forall k :: k in once ==> twice[k] == once[k];
    assert twice == once;
  }

  /** What `create_type_handler` passes to the handler class and then to
      `set_tranformation`. The handler classes themselves belong to the
      generator, so a handler is represented by these arguments. `ctype` is
      the first positional argument. */
  datatype HandlerSetup = HandlerSetup(
    kind: HandlerKind,
    ctype: string,
    kwargs: Kwargs,
    untransformedCtype: Option<string>)

  /** `create_type_handler(type_handler, ctype, ..., **kwargs)`. */
  function CreateTypeHandler(kind: HandlerKind, ctype: string, kwargs: Kwargs)
    : (r: Result<HandlerSetup, Failure>)
    ensures kind.OtherHandler? <==> r == Failure(AssertionError)
    ensures r.Success? ==>
              && r.value.kind == kind && r.value.ctype == ctype
              && (kind.ParameterHandler? ==> ParameterOwnership(r.value.kwargs) == CalleeRetains)
              && (kind.ReturnValueHandler? ==> ReturnOwnership(r.value.kwargs) == CallerOwnsReturnedValue)
              && r.value.kwargs.Keys == kwargs.Keys + {OwnershipFlag(kind)}
              && (forall k :: k in kwargs && k != OwnershipFlag(kind) ==> r.value.kwargs[k] == kwargs[k])
              && r.value.untransformedCtype == GetUntransformedName(ctype)
  {
    match OwnershipKwargs(kind, kwargs)
    case Failure(e) => Failure(e)
    case Success(kwargs') => Success(HandlerSetup(kind, ctype, kwargs', GetUntransformedName(ctype)))
  }

  /** A return-value handler made for a recognised name can always be packed:
      the assertion in `transform` holds for it. */
  lemma CreatedHandlerTransforms(ctype: string, kwargs: Kwargs, scope: Scope, expression: string)
    requires GetUntransformedName(ctype).Some?
    ensures CreateTypeHandler(ReturnValueHandler, ctype, kwargs).Success?
    ensures var h := CreateTypeHandler(ReturnValueHandler, ctype, kwargs).value;
            && h.untransformedCtype.Some?
            && Transform(h.untransformedCtype.value, scope, expression).Success?
  {
    RecognisedNamesTransform(ctype, scope, expression);
  }

  /** The `PointerHolder<Zbr>` case of the foo module: parameters become
      non-owning `Zbr*`, return values become caller-owned `Zbr*`. */
  lemma PointerHolderZbr(kwargs: Kwargs)
    ensures var p := CreateTypeHandler(ParameterHandler, "PointerHolder<Zbr>", kwargs);
            && p.Success? && p.value.untransformedCtype == Some("Zbr*")
            && ParameterOwnership(p.value.kwargs) == CalleeRetains
    ensures var rv := CreateTypeHandler(ReturnValueHandler, "PointerHolder<Zbr>", kwargs);
            && rv.Success? && rv.value.untransformedCtype == Some("Zbr*")
            && ReturnOwnership(rv.value.kwargs) == CallerOwnsReturnedValue
  {
    assert IsIdent("Zbr");
    IdentifierArgument("Zbr", "");
    assert TemplateOpen + "Zbr" + ">" + "" == "PointerHolder<Zbr>";
    assert "Zbr" + "*" == "Zbr*";
  }
}
