/** The C expressions the PointerHolder transformation emits into wrapper
    code, as text, together with a reader that recovers their parts. The
    reader is the partner of the renderer: every piece of glue the
    transformation writes can be read back to the expression and temporary
    it was built from, so the emitted text is unambiguous. */
module Glue {
  import opened Wrappers
  import opened Words

  /** The two shapes of glue expression. */
  datatype Expr =
      /** `(holder).thePointer`: the pointer held by a PointerHolder value. */
    | Unpack(holder: string)
      /** `(temp.thePointer = (pointer), temp)`: store `pointer` in the
          PointerHolder temporary `temp` and yield the temporary. */
    | Pack(temp: string, pointer: string)

  const UnpackClose := ").thePointer"
  const PackAssign := ".thePointer = ("
  const PackSeparator := "), "

  /** A temporary is a C identifier made of word characters. */
  predicate WellFormed(g: Expr) {
    g.Pack? ==> IsIdent(g.temp)
  }

  /** The C text of a glue expression. */
  function Render(g: Expr): string {
    match g
    case Unpack(h) => "(" + h + UnpackClose
    case Pack(v, e) => "(" + v + PackAssign + e + PackSeparator + v + ")"
  }

  /** `s` ends with `suffix`. */
  predicate EndsWith(s: string, suffix: string) {
    |suffix| <= |s| && s[|s| - |suffix|..] == suffix
  }

  /** Read an `Unpack` back: `(`, the holder expression, `).thePointer`. */
  function ParseUnpack(s: string): (r: Option<string>)
    ensures r.Some? ==> Render(Unpack(r.value)) == s
  {
    if |s| >= 1 + |UnpackClose| && s[0] == '(' && EndsWith(s, UnpackClose) then
      var h := s[1..|s| - |UnpackClose|];
      assert s == "(" + h + UnpackClose;
      Some(h)
    else None
  }

  /** `s` is its head of length `a`, its middle, and its tail of length `b`. */
  lemma SplitThree(s: string, a: nat, b: nat)
    requires a + b <= |s|
    ensures s == s[..a] + s[a..|s| - b] + s[|s| - b..]
  {
  }

  /** Read a `Pack` back: the temporary is the run of word characters before
      the final `)`. */
  function ParsePack(s: string): (r: Option<(string, string)>)
    ensures r.Some? ==> IsIdent(r.value.0) && Render(Pack(r.value.0, r.value.1)) == s
  {
    if |s| >= 1 && s[|s| - 1] == ')' then
      var body := s[..|s| - 1];
      var n := TrailingWordRunLength(body);
      if 0 < n then ParsePackWith(s, body[|body| - n..]) else None
    else None
  }

  /** Read a `Pack` whose temporary is `v`: the text must open with
      `(v.thePointer = (` and close with `), v)`, and the stored pointer
      expression is what lies between. */
  function ParsePackWith(s: string, v: string): (r: Option<(string, string)>)
    ensures r.Some? ==> r.value.0 == v && Render(Pack(v, r.value.1)) == s
  {
    var open := "(" + v + PackAssign;
    var close := PackSeparator + v + ")";
    if |open| + |close| <= |s| && s[..|open|] == open && s[|s| - |close|..] == close then
      SplitThree(s, |open|, |close|);
      Some((v, s[|open|..|s| - |close|]))
    else None
  }

  /** Read a glue expression back from its text. */
  function Parse(s: string): (r: Option<Expr>)
    ensures r.Some? ==> WellFormed(r.value) && Render(r.value) == s
  {
    match ParseUnpack(s)
    case Some(h) => Some(Unpack(h))
    case None =>
      match ParsePack(s)
      case Some(p) => Some(Pack(p.0, p.1))
      case None => None
  }

  /** Every well-formed glue expression is read back from its own text. */
  lemma ParseRender(g: Expr)
    requires WellFormed(g)
    ensures Parse(Render(g)) == Some(g)
  {
    match g
    case Unpack(h) => ParseRenderUnpack(h);
    case Pack(v, e) => ParseRenderPack(v, e);
  }

  lemma ParseRenderUnpack(h: string)
    ensures ParseUnpack(Render(Unpack(h))) == Some(h)
  {
    var s := Render(Unpack(h));
    assert s[1..|s| - |UnpackClose|] == h;
    assert s[|s| - |UnpackClose|..] == UnpackClose;
  }

  lemma ParseRenderPack(v: string, e: string)
    requires IsIdent(v)
    ensures ParseUnpack(Render(Pack(v, e))) == None
    ensures ParsePack(Render(Pack(v, e))) == Some((v, e))
  {
    PackIsNotUnpack(v, e);
    ReadPack(Render(Pack(v, e)), v, e);
  }

  /** Pack text ends in `)`, never in `).thePointer`. */
  lemma PackIsNotUnpack(v: string, e: string)
    requires IsIdent(v)
    ensures ParseUnpack(Render(Pack(v, e))) == None
  {
    var s := Render(Pack(v, e));
    assert s[|s| - 1] == ')';
    assert !EndsWith(s, UnpackClose) by {
      if |UnpackClose| <= |s| {
        assert s[|s| - |UnpackClose|..][|UnpackClose| - 1] == s[|s| - 1];
      }
    }
  }

  /** The reader finds the temporary and the stored pointer of a `Pack`. */
  lemma ReadPack(s: string, v: string, e: string)
    requires IsIdent(v)
    requires s == Render(Pack(v, e))
    ensures ParsePack(s) == Some((v, e))
  {
    PackTemporaryIsTrailingRun(s, v, e);
    ReadPackWith(s, v, e);
  }

  /** In `Pack` text the temporary is the word run before the final `)`. */
  lemma PackTemporaryIsTrailingRun(s: string, v: string, e: string)
    requires IsIdent(v)
    requires s == Render(Pack(v, e))
    ensures |s| >= 1 && s[|s| - 1] == ')'
    ensures TrailingWordRunLength(s[..|s| - 1]) == |v|
    ensures s[..|s| - 1][|s| - 1 - |v|..] == v
  {
    var front := "(" + v + PackAssign + e + PackSeparator;
    assert s == front + v + ")";
    var body := s[..|s| - 1];
    assert body == front + v;
    assert front[|front| - 1] == ' ';
    TrailingWordRunOfThenWord(front, v);
  }

  /** Knowing the temporary, the reader recovers the stored pointer. */
  lemma ReadPackWith(s: string, v: string, e: string)
    requires s == Render(Pack(v, e))
    ensures ParsePackWith(s, v) == Some((v, e))
  {
    var open := "(" + v + PackAssign;
    var close := PackSeparator + v + ")";
    assert s == open + e + close;
    assert s[..|open|] == open;
    assert s[|s| - |close|..] == close;
    assert s[|open|..|s| - |close|] == e;
  }
}
