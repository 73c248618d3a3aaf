# PointerHolder transformation and error counter of the pybindgen foo example

pybindgen generates C glue that exposes C++ APIs to Python. Its example
module description `examples/foomodulegen.py` carries two pieces of logic
of its own, and this project models both and proves their properties in
Dafny:

* `PointerHolderTransformation`, a *type transformation*. Wrapped
  functions can take and return `PointerHolder<T>`, a struct whose one
  field is `thePointer`. The transformation:
  * recognises such type names (`get_untransformed_name`);
  * rewrites them to the pointer type `T*` the generator already handles;
  * emits the C glue that unpacks a parameter (`untransform`) and packs a
    return value into a declared temporary (`transform`);
  * fixes the ownership flag of each handler it creates
    (`create_type_handler`).
* `MyErrorHandler`, the error handler installed during generation. It
  counts the wrappers that failed and always answers "continue".

Files:

* `wrappers.dfy`: `Option` for Python's `None`-or-value, and `Result` for
  return-or-raise.
* `words.dfy`: the Python 2 byte-string `\w` class `[A-Za-z0-9_]` and
  greedy runs of word characters.
* `declarations.dfy`: the declarations scope that temporaries are
  declared in.
* `glue.dfy`: the two glue expression shapes, their C text, and a reader
  that recovers their parts from the text.
* `pointer_holder.dfy`: the transformation itself.
* `error_handler.dfy`: the error handler. The class `MyErrorHandler`
  mirrors the source's object: its constructor sets `num_errors` to 0, and
  each call updates the field through the functional `HandleError` step.

The regular expression `(?:::)?PointerHolder<(\w+)>` is applied with
`re.match`, which anchors at the start only. `MatchTemplate` and
`AfterOptionalScope` model it directly. It is checked against an
independent reading, `MatchesPattern`: the name begins with
`PointerHolder<ident>`, optionally preceded by one `::`, where `ident` is
a non-empty word. Text after the closing `>` is never examined. So
`PointerHolder<Zbr>*` and `PointerHolder<Zbr>&` are both read as `Zbr*`.
This follows from `TrailingTextIgnored`.

The pack/unpack round trip holds for the emitted text. Applying `untransform`
to the output of `transform` gives `((tmp.thePointer = (e), tmp)).thePointer`.
That is not `e` itself but a C expression whose value is `e`'s. The reader
`Glue.Parse` recovers `e` from it through both layers.

`declare_variable` belongs to the generator and is not part of this model.
`Declarations.DeclareVariable` stands in for it with the contract
`transform` relies on:

* the name it returns is new in the scope;
* the name starts with the requested base name;
* the name is a word when the base name is one, so the glue that uses it
  can be read back;
* exactly one declaration of the requested type is added.

These are the facts its contract states. The proofs are checked against the
stand-in itself, whose body Dafny can see.

Its concrete naming is a stand-in: it uses the base name if that is free,
and otherwise appends underscores.

## Model

| member | source | states |
|---|---|---|
| Words.WordRunLength | examples/foomodulegen.py:18 | the greedy `\w+` run: every character up to the returned length is a word character and the next one is not |
| PointerHolder.MatchTemplate | examples/foomodulegen.py:18-21 | a captured group is a non-empty word, and `PointerHolder<group>` is a prefix of the text |
| PointerHolder.GetUntransformedName | examples/foomodulegen.py:20-25 | a result ends in `*`, has a non-empty word before it, and contains no `<`, `>` or `:` |
| PointerHolder.MatchTemplateComplete | examples/foomodulegen.py:18-21 | whenever `PointerHolder<ident>` opens the text, the match captures exactly `ident`, with no shorter or longer capture |
| PointerHolder.GetUntransformedNameMatches | examples/foomodulegen.py:18-25 | the result is `ident*` if and only if the name starts with `PointerHolder<ident>`, optionally preceded by one `::` |
| PointerHolder.GetUntransformedNameNone | examples/foomodulegen.py:21-23 | the result is `None` if and only if no identifier completes the pattern at the start of the name |
| PointerHolder.IdentifierArgument | examples/foomodulegen.py:18-25 | `PointerHolder<X>` followed by anything yields `X*` for every word `X` |
| PointerHolder.GlobalScopeIgnored | examples/foomodulegen.py:18 | prefixing one `::` to a name that does not already start with `::` does not change the result |
| PointerHolder.GlobalScopeAtMostOnce | examples/foomodulegen.py:18 | a name starting with two `::` is never recognised |
| PointerHolder.OtherNamesRejected | examples/foomodulegen.py:21-23 | a name that starts neither with `PointerHolder<` nor with `::PointerHolder<` gives `None` |
| PointerHolder.LeadingCharacterRejected | examples/foomodulegen.py:21-23 | a leading character other than `P` or `:`, for example a blank, gives `None` |
| PointerHolder.EmptyArgumentRejected | examples/foomodulegen.py:18-23 | `PointerHolder<>` gives `None`, with or without a leading `::` |
| PointerHolder.QualifiedArgumentRejected | examples/foomodulegen.py:18-23 | `PointerHolder<a::` followed by anything gives `None`, for every run of word characters `a`, including an empty one |
| PointerHolder.TrailingTextIgnored | examples/foomodulegen.py:21 | when a name starts with the pattern around `ident`, it yields `ident*`, and appending any text leaves that result unchanged |
| PointerHolder.Untransform | examples/foomodulegen.py:38-39 | the parameter glue reads back as an unpack of exactly the given expression; nothing else goes into it |
| PointerHolder.Transform | examples/foomodulegen.py:41-45 | an empty type is an IndexError and a type not ending in `*` an AssertionError. Otherwise exactly one declaration is appended: a fresh temporary named from `tmp`, of type `PointerHolder<ctype without its *>`. The glue reads back as storing exactly the expression into that temporary |
| PointerHolder.TransformTypeRoundTrip | examples/foomodulegen.py:20-45 | when the pointee is a word, `get_untransformed_name` maps the temporary's declared type back to the original pointer type |
| PointerHolder.RecognisedNamesTransform | examples/foomodulegen.py:20-45 | every pointer type `get_untransformed_name` produces passes `transform`'s assertion, and the temporary's type maps back to the same pointer type |
| PointerHolder.UnpackOfPackReadsBack | examples/foomodulegen.py:38-45 | the unpack glue applied to the pack glue reads back, through both layers, to exactly the expression that was packed |
| PointerHolder.OwnershipKwargs | examples/foomodulegen.py:27-33 | parameter handlers get `transfer_ownership = False` (callee retains ownership); return handlers get `caller_owns_return = True` (caller owns the value). Any other handler class is an AssertionError. Every other keyword argument is passed on unchanged, and a caller-supplied value of the flag is overridden |
| PointerHolder.OwnershipKwargsIdempotent | examples/foomodulegen.py:27-33 | choosing the flag again on the chosen arguments changes nothing |
| PointerHolder.CreateTypeHandler | examples/foomodulegen.py:27-36 | the handler's ownership follows its kind as above. Exactly one key is set: `transfer_ownership` for a parameter, `caller_owns_return` for a return value. Every other keyword argument the caller passed, including the other flag, is kept unchanged, and nothing else is added. The untransformed type recorded for the handler is what `get_untransformed_name` gives for its type name |
| PointerHolder.CreatedHandlerTransforms | examples/foomodulegen.py:27-45 | a return-value handler created for a recognised name always passes the assertion in `transform` |
| PointerHolder.PointerHolderZbr | examples/foomodulegen.py:16-36 | `PointerHolder<Zbr>` becomes `Zbr*`. As a parameter the callee retains ownership; as a return value the caller owns it |
| Declarations.DeclareVariable | examples/foomodulegen.py:42-43 | the temporary's name is not already declared and starts with the base name. It is a word when the base is. Exactly one declaration of the given type is appended |
| Glue.Parse | examples/foomodulegen.py:38-45 | whatever the reader accepts is the C text of the glue it returns |
| Glue.ParseRender | examples/foomodulegen.py:38-45 | every unpack and every pack with a word temporary is read back from its own text, so the emitted glue is unambiguous |
| ErrorHandler.HandleError | examples/foomodulegen.py:420-423 | every call answers "continue" and raises `num_errors` by exactly one |
| ErrorHandler.HandleAllCounts | examples/foomodulegen.py:419-423 | over any sequence of reports every answer is "continue", and the count grows by the number of reports |
| ErrorHandler.CountFromFresh | examples/foomodulegen.py:416-423 | starting from the constructed handler (`num_errors = 0`), after n errors the count is n |
| ErrorHandler.MyErrorHandler.HandleErrorCall | examples/foomodulegen.py:420-423 | the handler object answers "continue", and its `num_errors` field is one more than before the call |
| ErrorHandler.HandleAllSplit | examples/foomodulegen.py:420-423 | reporting in two batches leaves the handler as reporting all at once |

## Left out

- The module description in `my_module_gen` (examples/foomodulegen.py:54-413 and 427-484) is left out. It consists of declarative calls into the generator library, whose engine is not part of this model.
- Registering the transformation with the parameter and return type matchers (examples/foomodulegen.py:47-50) is left out. That is process-wide state of the generator library.
- The handler constructor and `handler.set_tranformation` (examples/foomodulegen.py:34-35) are foreign calls. `CreateTypeHandler` records the arguments they receive and models nothing beyond that. It models the first positional argument as the type name; the other positional arguments are passed through untouched and are not modelled.
- `PointerHolder.Untransform` omits the handler, declarations and code-block arguments, because the source never reads them.
- `Declarations.DeclareVariable` uses a stand-in naming scheme. The generator's `declare_variable` is not part of this model, so its contract states only freshness, the base-name prefix, a word name for a word base, and the single added declaration.
- `PointerHolder.Transform` takes the untransformed type as a string. A handler whose `untransformed_ctype` is `None` would raise a TypeError in Python, and that case is not modelled. Python's `assert` is modelled as always enabled; running with `-O` would skip it.
- The custom wrapper bodies, `Foo_instance_creation_function` and `helper_class_hook` (examples/foomodulegen.py:64-69, 107-117, 428-481) are left out. They are opaque C text with no checkable logic.
- Output is left out: the message `handle_error` prints to standard error, `write_preamble`, `FileCodeSink` and the `print >> out_file` lines are I/O.
