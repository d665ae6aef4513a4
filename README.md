# pybind11 lambda generation in CLIF, modelled in Dafny

CLIF generates pybind11 bindings for C++ functions. Some functions cannot be
registered directly: they return values through pointer out-parameters,
return Python `bytes`, carry the `->self` postprocessor, or take a single
parameter that must be implicitly converted. For those,
`clif/pybind11/lambdas.py` synthesizes a C++ lambda around the call. It first
decides whether a lambda is needed (`needs_lambda`). It then renders the lambda
as lines of text: a header with the lambda's parameters, one `ret{i}{}`
declaration per return, the call of the wrapped function, a return statement
and a closing line.

This project models that file:

- `ast.dfy` (module `Ast`) holds the descriptor records. It keeps only the
  fields the generator reads: function, parameter, return and class
  descriptors.
- `strings.dfy` (module `Strings`) defines the Python string operations the
  generator uses, with lemmas about them: `' '.join`, `str.split(' ')`,
  `rstrip` and the decimal rendering of `{i}`.
  Splitting and joining undo each other, and decimal rendering is injective.
- `lambdas.dfy` (module `Lambdas`) holds the decision predicates and the
  renderer. The loops of the source are methods proved against
  specification functions: `_has_bytes_return`, `_generate_function_call_returns`
  and the generator `_generate_lambda_body`. The comprehension-and-join
  builders are functions.
- `lambda_properties.dfy` (module `LambdaProperties`) proves what the
  generator promises. It covers when a lambda is needed, how the returns
  split into the call's own value and out-parameters, what the return
  statement looks like in each case, and the shape of the emitted lines.

Collaborators whose code is not in this file enter as parameters.
`utils.is_usable_cpp_exact_type` is `isUsableExactType: string -> bool`, and
the indentation `utils.I` is `indent`. The texts that
`function_lib.generate_def` and `function_lib.generate_function_suffixes`
return for the function are `def` and `suffixes`.

Details of the code the model keeps:

- Bare types split on single spaces (`split(' ')`), so consecutive spaces
  give empty tokens, and those are kept.
- The code raises `IndexError` when it extracts the bare type of `"const"`.
  The model states this as a precondition (`BareTokens`,
  `BareTypesDefined`). It is required only where the code evaluates the
  extraction: not under `->self`, and only for a single parameter whose exact
  type is usable.
- The receiver parameter is rendered `C &self`.
- The postprocessor is kept as the string the code compares with `"->self"`.

## Model

| member | source | states |
|---|---|---|
| `Strings.Split` | clif/pybind11/lambdas.py:155 | `split(' ')` yields at least one token and no token contains a space |
| `Strings.JoinSplit` | clif/pybind11/lambdas.py:155-160 | joining the tokens of `split(' ')` with `' '` restores the text, so rejoining the kept tokens loses nothing else |
| `Strings.RStrip` | clif/pybind11/lambdas.py:31 | the Python name `native.rstrip('#')` is a prefix of the native name, does not end in `#`, and only `#` characters were removed |
| `Lambdas.BareTokens` | clif/pybind11/lambdas.py:152-160 | the kept tokens are a contiguous slice of the input's tokens: a leading `const` is dropped, and one final token is dropped exactly when it is `&` or `*`; `"const"` alone is excluded, as the source raises on it |
| `LambdaProperties.BareTypeOfPlain` | clif/pybind11/lambdas.py:152-160 | a type with no leading `const` and no final `&`/`*` token is its own bare type |
| `LambdaProperties.BareTypeStripsConst` | clif/pybind11/lambdas.py:156-157 | `const X` has bare type `X` for every plain `X` |
| `LambdaProperties.BareTypeStripsMarker` | clif/pybind11/lambdas.py:158-159 | `X &` and `X *` have bare type `X` for every plain `X` |
| `LambdaProperties.BareTypeStripsBoth` | clif/pybind11/lambdas.py:155-160 | `const X &` and `const X *` have bare type `X` for every plain `X` |
| `LambdaProperties.BareTypeExamples` | clif/pybind11/lambdas.py:152-160 | `"const Foo &"`, `"Foo *"` and `"Foo"` all have bare type `"Foo"` |
| `Lambdas.BareType` | clif/pybind11/lambdas.py:152-160 | splitting the bare type on spaces again gives back exactly the kept tokens; with no kept token it is the empty text |
| `Lambdas.NeedsImplicitConversion` | clif/pybind11/lambdas.py:134-149 | a conversion is reported only for a single parameter whose exact type is usable, whose bare exact type differs from its bare declared type (so the two spellings differ too), and which has both the pointer and the unique-pointer conversion |
| `Lambdas.HasPointerParams` | clif/pybind11/lambdas.py:122-124 | holds exactly when some return is left over for an out-parameter once `stard_idx` has skipped the call's own value |
| `Lambdas.NeedsLambda` | clif/pybind11/lambdas.py:96-100 | when no lambda is needed there is no `->self`, no pointer argument to pass and no `bytes` return |
| `Lambdas.CheckBytesReturn` | clif/pybind11/lambdas.py:127-131 | the early-exit scan answers true exactly when some return has `lang_type == 'bytes'` |
| `LambdaProperties.NeedsLambdaCases` | clif/pybind11/lambdas.py:96-100 | a lambda is needed iff `->self`, or the single-parameter conversion test fires, or there are 2+ returns or 1 return with a void call, or some return is `bytes` |
| `LambdaProperties.ConversionOnlyForOneParam` | clif/pybind11/lambdas.py:134-149 | with any parameter count other than one the conversion test never fires, and `needs_lambda` reduces to the other three conditions |
| `LambdaProperties.SingleParamConversion` | clif/pybind11/lambdas.py:134-149 | one usable parameter whose bare types differ and that has both conversions forces a lambda; the same parameter twice does not trigger the conversion test |
| `LambdaProperties.ConversionScenario` | clif/pybind11/lambdas.py:134-149 | a single parameter declared `Bar` with usable exact type `const Foo &` and both conversions makes a lambda necessary |
| `LambdaProperties.DirectBindingScenario` | clif/pybind11/lambdas.py:96-100 | one `int` parameter with matching types, one plain return and a non-void call need no lambda |
| `LambdaProperties.PointerParamsIffOutParameters` | clif/pybind11/lambdas.py:122-124 | `_func_has_pointer_params` holds exactly when the call passes at least one `&ret{i}` argument |
| `LambdaProperties.NoLambdaMeansDirectCall` | clif/pybind11/lambdas.py:96-100 | when no lambda is needed there is no `->self`, no out-parameter, at most one return, and every return expression is the plain `ret{i}` |
| `Lambdas.LambdaParamsWithTypes` | clif/pybind11/lambdas.py:103-110 | the lambda parameters are the `{type} {name}` list, preceded by `C &self` (and a separator only if there are parameters) exactly when a class is given and the function is not a classmethod |
| `Lambdas.FunctionCall` | clif/pybind11/lambdas.py:113-119 | the callee is `self.{cpp_name}` under exactly the receiver condition of the lambda parameters, otherwise the bare `cpp_name` |
| `Lambdas.FunctionCallParams` | clif/pybind11/lambdas.py:66-83 | without pointer arguments the list is the joined names; with an empty joined name list it is the joined pointer arguments; otherwise it is names then pointer arguments joined by `", "` as one list |
| `LambdaProperties.OutParametersCoverReturns` | clif/pybind11/lambdas.py:72-76 | return `i` is passed as `&ret{i}` iff it is not the call's own value (`i == 0` with a non-void call) |
| `LambdaProperties.OutParameterCount` | clif/pybind11/lambdas.py:72-76 | there are `len(returns) - k` pointer arguments, with `k = 1` iff the call is non-void and has returns |
| `LambdaProperties.CallParamsJoin` | clif/pybind11/lambdas.py:66-83 | with non-empty parameter names the argument list is the names followed by the pointer arguments, all joined by `", "` (the separator appears only between two non-empty halves) |
| `LambdaProperties.SingleVoidReturn` | clif/pybind11/lambdas.py:51-55 | one return and a void call: exactly one `&ret0` argument and no `ret0 = ` assignment |
| `Lambdas.CallStatement` | clif/pybind11/lambdas.py:51-55 | for a C++ name without spaces, the call line starts with `ret0 = ` iff the call is non-void and has returns |
| `Lambdas.GenerateFunctionCallReturns` | clif/pybind11/lambdas.py:86-93 | the loop builds exactly `ret{i}`, or `py::bytes(ret{i})` for `bytes` returns, for every return in order, joined by `", "` |
| `Lambdas.ReturnStatement` | clif/pybind11/lambdas.py:57-63 | unless the lambda returns `self`, every return value appears in the return statement, as `ret{i}` or `py::bytes(ret{i})` |
| `LambdaProperties.ReturnSelfOverrides` | clif/pybind11/lambdas.py:58-59 | under `->self` the return statement is `return self;` whatever the returns are |
| `LambdaProperties.ReturnStatementSingle` | clif/pybind11/lambdas.py:62-63 | without `->self` and with at most one return the statement is `return ;` or `return e0;` |
| `LambdaProperties.ReturnStatementTuple` | clif/pybind11/lambdas.py:60-61 | without `->self` and with n > 1 returns the statement starts with `return std::make_tuple(` and holds exactly n - 1 commas |
| `LambdaProperties.BytesReturnsWrapped` | clif/pybind11/lambdas.py:89-90 | every `bytes` return appears as `py::bytes(ret{i})` in the return statement, whether alone or in a tuple |
| `LambdaProperties.DeclaredVariablesDistinct` | clif/pybind11/lambdas.py:48-49 | the declared variables `ret{i}` are pairwise distinct |
| `Lambdas.GenerateLambdaBody` | clif/pybind11/lambdas.py:38-63 | the generator yields exactly the declarations, the call line and the return line of the body specification |
| `LambdaProperties.LambdaBodyShape` | clif/pybind11/lambdas.py:47-63 | the body has `len(returns) + 2` lines: the `{type} ret{i}{};` declarations in descriptor order, then one call line, then one return line |
| `LambdaProperties.TwoOutParamsScenario` | clif/pybind11/lambdas.py:38-63 | no parameters, two plain returns and a void call give two declarations, `f(&ret0, &ret1);` and `return std::make_tuple(ret0, ret1);` |
| `Lambdas.HeaderLine` | clif/pybind11/lambdas.py:30-33 | the header ends with `[](`, the whole lambda parameter list `_generate_lambda_params_with_types` gives, and `) {` opening the body; a method's lambda has `C &self` right after `[](` as its first parameter |
| `Lambdas.ClosingLine` | clif/pybind11/lambdas.py:35 | the closing line is `}, ` (closing the body the header opened) followed by the registration suffixes unchanged |
| `Lambdas.GenerateLambda` | clif/pybind11/lambdas.py:25-35 | the generator yields the header, the body and the closing line of the lambda specification |
| `LambdaProperties.LambdaShape` | clif/pybind11/lambdas.py:25-35 | the lambda has `len(returns) + 4` lines: the header first, the body, and `}, {suffixes}` last |

## Left out

- The protobuf `ast_pb2` descriptors are replaced by plain datatypes. They keep only the fields read, and the nested `name` and `type` messages are flattened.
- `utils.is_usable_cpp_exact_type`, `function_lib.generate_def`, `function_lib.generate_function_suffixes` and `utils.I` are not part of this model. They enter as a parameter function and parameter strings.
- The Python generators are lazy; the model produces the same lines as one finished sequence.
- The `IndexError` that `_extract_bare_type` raises on the type `"const"` is a precondition, not a modelled error path.
- The runtime tests under `clif/testing/python/` exercise compiled extension modules and are not part of this model.
- `Lambdas.CallStatement`: the `ret0 = ` prefix property is proved for C++ names without spaces. A name that itself began with `ret0 = ` would make the prefix test meaningless.
- `LambdaProperties.CallParamsJoin`: proved for non-empty parameter names. With an empty name the source's emptiness tests on the joined halves behave differently.
- `LambdaProperties.ReturnStatementTuple`: states the count of commas between the tuple elements, not a parse of the elements back out of the line. The elements themselves are given by `Lambdas.GenerateFunctionCallReturns`.
