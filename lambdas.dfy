/** The pybind11 lambda generator: decides whether a wrapped C++ function
    needs a synthesized C++ lambda, and renders that lambda line by line.

    Collaborators whose code is not part of this model enter as parameters:
    `isUsableExactType` stands for `utils.is_usable_cpp_exact_type`, `indent`
    for `utils.I`, and `def` and `suffixes` for the texts that
    `function_lib.generate_def` and `function_lib.generate_function_suffixes`
    return for the function. */
module Lambdas {
  import opened Strings
  import opened Ast

  // ----- deciding whether a lambda is needed -----

  /** The `->self` postprocessor: the lambda returns its receiver. */
  predicate ReturnsSelf(f: FuncDecl)
  {
    f.postproc == "->self"
  }

  /** The tokens `_extract_bare_type` keeps: the space-separated tokens of `s`
      without a leading `const` and without a final `&` or `*`. The one input
      on which the source indexes an empty token list is `"const"` itself. */
  function BareTokens(s: string): (t: seq<string>)
    requires s != "const"
    ensures var tokens := Split(s, ' ');
            var start := if tokens[0] == "const" then 1 else 0;
            && start + |t| <= |tokens| <= start + |t| + 1
            && t == tokens[start..start + |t|]
            && (start + |t| < |tokens| <==> tokens[|tokens| - 1] in {"&", "*"})
  {
    var tokens := Split(s, ' ');
    JoinSplit(s, ' ');
    assert tokens[0] == "const" ==> |tokens| > 1;
    var t := if tokens[0] == "const" then tokens[1..] else tokens;
    if t[|t| - 1] in {"&", "*"} then t[..|t| - 1] else t
  }

  /** `_extract_bare_type`: the bare tokens joined again with single spaces.
      Splitting the result once more gives back exactly the kept tokens. */
  function BareType(s: string): (r: string)
    requires s != "const"
    ensures BareTokens(s) != [] ==> Split(r, ' ') == BareTokens(s)
    ensures BareTokens(s) == [] ==> r == ""
  {
    var t := BareTokens(s);
    assert forall j :: 0 <= j < |t| ==> ' ' !in t[j] by {
      var tokens := Split(s, ' ');
      var start := if tokens[0] == "const" then 1 else 0;
      assert forall j :: 0 <= j < |t| ==> t[j] == tokens[start + j];
    }
    if t != [] then
      SplitJoin(t, ' ');
      Join(t, " ")
    else
      Join(t, " ")
  }

  /** What `_func_needs_implicit_conversion` needs in order not to raise:
      when it gets as far as extracting bare types, neither type is `"const"`. */
  predicate BareTypesDefined(f: FuncDecl, isUsableExactType: string -> bool)
  {
    |f.params| == 1 && isUsableExactType(f.params[0].cppExactType) ==>
      f.params[0].cppExactType != "const" && f.params[0].cppType != "const"
  }

  /** `_func_needs_implicit_conversion`: only a single parameter is examined,
      and it needs converting only when its exact type is usable, its bare
      exact type differs from its bare declared type and both conversions
      exist. */
  predicate NeedsImplicitConversion(f: FuncDecl, isUsableExactType: string -> bool)
    requires BareTypesDefined(f, isUsableExactType)
    ensures NeedsImplicitConversion(f, isUsableExactType) ==>
      && |f.params| == 1
      && isUsableExactType(f.params[0].cppExactType)
      && BareType(f.params[0].cppExactType) != BareType(f.params[0].cppType)
      && f.params[0].cppExactType != f.params[0].cppType
      && f.params[0].cppToPtrConversion && f.params[0].cppToUniqPtrConversion
  {
    if |f.params| == 1 then
      var p := f.params[0];
      if !isUsableExactType(p.cppExactType) then false
      else
        BareType(p.cppExactType) != BareType(p.cppType) &&
        p.cppToPtrConversion && p.cppToUniqPtrConversion
    else false
  }

  /** `_func_has_pointer_params`: some return is left over for an
      out-parameter once the call's own value has taken `ret0`. */
  predicate HasPointerParams(f: FuncDecl)
    ensures HasPointerParams(f) <==> |f.returnValues| > FirstPointerIndex(f)
  {
    var numReturns := |f.returnValues|;
    numReturns >= 2 || (numReturns == 1 && f.cppVoidReturn)
  }

  /** Some return is a Python `bytes` value. */
  predicate HasBytesReturn(f: FuncDecl)
  {
    exists i :: 0 <= i < |f.returnValues| && f.returnValues[i].langType == "bytes"
  }

  /** `_has_bytes_return`: scans the returns and stops at the first `bytes`. */
  method CheckBytesReturn(f: FuncDecl) returns (b: bool)
    ensures b == HasBytesReturn(f)
  {
    var i := 0;
    while i < |f.returnValues|
      invariant 0 <= i <= |f.returnValues|
      invariant forall j :: 0 <= j < i ==> f.returnValues[j].langType != "bytes"
    {
      if f.returnValues[i].langType == "bytes" {
        return true;
      }
      i := i + 1;
    }
    return false;
  }

  /** `needs_lambda`. The disjuncts are evaluated left to right, so the bare
      types are only extracted when there is no `->self` postprocessor. */
  predicate NeedsLambda(f: FuncDecl, isUsableExactType: string -> bool)
    requires ReturnsSelf(f) || BareTypesDefined(f, isUsableExactType)
    ensures !NeedsLambda(f, isUsableExactType) ==>
      && !ReturnsSelf(f)
      && PointerArgs(f) == []
      && forall i :: 0 <= i < |f.returnValues| ==> f.returnValues[i].langType != "bytes"
  {
    || ReturnsSelf(f)
    || NeedsImplicitConversion(f, isUsableExactType)
    || HasPointerParams(f)
    || HasBytesReturn(f)
  }

  // ----- pieces of the lambda -----

  /** The local variable that holds return value `i`: `ret{i}`. */
  function RetVar(i: nat): string
  {
    "ret" + NatToString(i)
  }

  /** The call stores the call's own result in `ret0` exactly when the call is
      non-void and there are returns; every other return is an out-parameter. */
  predicate AssignsFirstReturn(f: FuncDecl)
  {
    !f.cppVoidReturn && |f.returnValues| > 0
  }

  /** The index of the first return passed by pointer (`stard_idx`). */
  function FirstPointerIndex(f: FuncDecl): nat
  {
    if AssignsFirstReturn(f) then 1 else 0
  }

  /** The lambda gets a `C &self` receiver: there is a class and the function
      is not a classmethod. */
  predicate HasReceiver(f: FuncDecl, c: Option<ClassDecl>)
  {
    c.Some? && !f.classmethod
  }

  /** `{type} {name}` for each declared parameter, in order. */
  function TypedParams(f: FuncDecl): seq<string>
  {
    seq(|f.params|, i requires 0 <= i < |f.params| => f.params[i].cppType + " " + f.params[i].cppName)
  }

  /** `_generate_lambda_params_with_types`: the receiver, when there is one,
      comes first and the declared parameters follow it. */
  function LambdaParamsWithTypes(f: FuncDecl, c: Option<ClassDecl>): (r: string)
    ensures HasReceiver(f, c) ==>
      r == c.value.cppName + " &self" + (if |f.params| == 0 then "" else ", " + Join(TypedParams(f), ", "))
    ensures !HasReceiver(f, c) ==> r == Join(TypedParams(f), ", ")
  {
    var paramsList := TypedParams(f);
    var paramsList' := if c.Some? && !f.classmethod then [c.value.cppName + " &self"] + paramsList else paramsList;
    if c.Some? && !f.classmethod && |paramsList| > 0 then
      JoinAppend([c.value.cppName + " &self"], paramsList, ", ");
      Join(paramsList', ", ")
    else
      Join(paramsList', ", ")
  }

  /** `_generate_function_call`: the callee is a member of `self` exactly when
      the lambda has a receiver. */
  function FunctionCall(f: FuncDecl, c: Option<ClassDecl>): (r: string)
    ensures HasReceiver(f, c) ==> r == "self." + f.cppName
    ensures !HasReceiver(f, c) ==> r == f.cppName
  {
    if f.classmethod || c.None? then f.cppName else "self." + f.cppName
  }

  /** The C++ names of the parameters, in order. */
  function ParamNames(f: FuncDecl): seq<string>
  {
    seq(|f.params|, i requires 0 <= i < |f.params| => f.params[i].cppName)
  }

  /** `&ret{i}` for each `i` in `range(stard_idx, len(returns))`. */
  function PointerArgs(f: FuncDecl): seq<string>
  {
    var k := FirstPointerIndex(f);
    seq(|f.returnValues| - k, j requires 0 <= j < |f.returnValues| - k => "&" + RetVar(k + j))
  }

  /** `_generate_function_call_params`: parameter names, then pointer
      arguments, with a separator only when both halves are non-empty. */
  function FunctionCallParams(f: FuncDecl): (r: string)
    ensures PointerArgs(f) == [] ==> r == Join(ParamNames(f), ", ")
    ensures Join(ParamNames(f), ", ") == "" ==> r == Join(PointerArgs(f), ", ")
    ensures Join(ParamNames(f), ", ") != "" && PointerArgs(f) != [] ==>
      r == Join(ParamNames(f) + PointerArgs(f), ", ")
  {
    var params := Join(ParamNames(f), ", ");
    var pointerParams := Join(PointerArgs(f), ", ");
    assert forall j :: 0 <= j < |PointerArgs(f)| ==> PointerArgs(f)[j][0] == '&';
    JoinEmpty(PointerArgs(f), ", ");
    if params != "" && pointerParams != "" then
      JoinAppend(ParamNames(f), PointerArgs(f), ", ");
      params + ", " + pointerParams
    else if pointerParams != "" then pointerParams
    else params
  }

  /** How return `i` is handed back to Python: `bytes` values go through
      `py::bytes`. */
  function ReturnExpr(r: ReturnDecl, i: nat): string
  {
    if r.langType == "bytes" then "py::bytes(" + RetVar(i) + ")" else RetVar(i)
  }

  function ReturnExprs(rs: seq<ReturnDecl>): seq<string>
  {
    seq(|rs|, i requires 0 <= i < |rs| => ReturnExpr(rs[i], i))
  }

  /** `_generate_function_call_returns`: builds the list of return
      expressions one by one and joins it. */
  method GenerateFunctionCallReturns(f: FuncDecl) returns (s: string)
    ensures s == Join(ReturnExprs(f.returnValues), ", ")
  {
    var allReturnsList: seq<string> := [];
    for i := 0 to |f.returnValues|
      invariant |allReturnsList| == i
      invariant forall j :: 0 <= j < i ==> allReturnsList[j] == ReturnExpr(f.returnValues[j], j)
    {
      if f.returnValues[i].langType == "bytes" {
        allReturnsList := allReturnsList + ["py::bytes(" + RetVar(i) + ")"];
      } else {
        allReturnsList := allReturnsList + [RetVar(i)];
      }
    }
    assert allReturnsList == ReturnExprs(f.returnValues);
    s := Join(allReturnsList, ", ");
  }

  // ----- lines of the lambda -----

  /** The indented declaration `{type} ret{i}{};` of return `i`. */
  function DeclarationLine(indent: string, r: ReturnDecl, i: nat): string
  {
    indent + r.cppType + " " + RetVar(i) + "{};"
  }

  function Declarations(rs: seq<ReturnDecl>, indent: string): seq<string>
  {
    seq(|rs|, i requires 0 <= i < |rs| => DeclarationLine(indent, rs[i], i))
  }

  /** The call of the wrapped function, assigning its result to `ret0` when
      it has one. For a C++ name without spaces, the line starts with the
      assignment `ret0 = ` exactly when the call's own value is kept. */
  function CallStatement(f: FuncDecl, c: Option<ClassDecl>): (r: string)
    ensures ' ' !in f.cppName ==> ("ret0 = " <= r <==> AssignsFirstReturn(f))
  {
    if AssignsFirstReturn(f) then "ret0 = " + FunctionCall(f, c) + "(" + FunctionCallParams(f) + ");"
    else if ' ' !in f.cppName then
      CallIsNoAssignment(f, c, FunctionCallParams(f));
      FunctionCall(f, c) + "(" + FunctionCallParams(f) + ");"
    else FunctionCall(f, c) + "(" + FunctionCallParams(f) + ");"
  }

  /** A call line that begins with a callee free of spaces cannot begin with
      `ret0 = `: the two differ at the space, or at the `(` after a shorter
      callee. */
  lemma CallIsNoAssignment(f: FuncDecl, c: Option<ClassDecl>, params: string)
    requires ' ' !in f.cppName
    ensures !("ret0 = " <= FunctionCall(f, c) + "(" + params + ");")
  {
    var callee := FunctionCall(f, c);
    var line := callee + "(" + params + ");";
    assert ' ' !in callee by {
      if HasReceiver(f, c) {
        assert callee == "self." + f.cppName;
      }
    }
    assert line == callee + ("(" + params + ");");
    var k := if |callee| >= 5 then 4 else |callee|;
    assert k < |line| && k < 7;
    assert line[k] == (if |callee| >= 5 then callee[4] else '(');
    assert line[k] != "ret0 = "[k];
  }

  /** The return statement of the lambda. Unless it returns `self`, every
      return value appears in it, in the form `ReturnExpr` gives it. */
  function ReturnStatement(f: FuncDecl): (r: string)
    ensures !ReturnsSelf(f) ==>
      forall i :: 0 <= i < |f.returnValues| ==> Contains(r, ReturnExpr(f.returnValues[i], i))
  {
    var functionCallReturns := Join(ReturnExprs(f.returnValues), ", ");
    assert forall i :: 0 <= i < |f.returnValues| ==>
      ReturnExprs(f.returnValues)[i] == ReturnExpr(f.returnValues[i], i);
    if ReturnsSelf(f) then "return self;"
    else if |f.returnValues| > 1 then
      JoinContainsAll(ReturnExprs(f.returnValues), ", ", "return std::make_tuple(", ");");
      "return std::make_tuple(" + functionCallReturns + ");"
    else
      JoinContainsAll(ReturnExprs(f.returnValues), ", ", "return ", ";");
      "return " + functionCallReturns + ";"
  }

  /** What `_generate_lambda_body` yields: the declarations, the call and the
      return statement, each indented. */
  function LambdaBody(f: FuncDecl, c: Option<ClassDecl>, indent: string): seq<string>
  {
    Declarations(f.returnValues, indent) + [indent + CallStatement(f, c), indent + ReturnStatement(f)]
  }

  /** The first line: registration call, Python name and lambda header. It
      ends with the lambda's whole parameter list between `[](` and `) {`,
      which opens the body; a method's lambda takes the receiver `C &self`
      as its first parameter. */
  function HeaderLine(moduleName: string, f: FuncDecl, c: Option<ClassDecl>, def: string): (r: string)
    ensures var t := "[](" + LambdaParamsWithTypes(f, c) + ") {"; |t| <= |r| && r[|r| - |t|..] == t
    ensures |r| > 0 && r[|r| - 1] == '{'
    ensures HasReceiver(f, c) ==> Contains(r, "[](" + c.value.cppName + " &self")
  {
    var name := RStrip(f.nativeName, '#');
    var params := LambdaParamsWithTypes(f, c);
    if HasReceiver(f, c) then
      ReceiverInHeader(moduleName + "." + def + "(\"" + name + "\", ", params, c.value.cppName);
      moduleName + "." + def + "(\"" + name + "\", " + "[](" + params + ") {"
    else
      moduleName + "." + def + "(\"" + name + "\", " + "[](" + params + ") {"
  }

  lemma ReceiverInHeader(prefix: string, params: string, className: string)
    requires className + " &self" <= params
    ensures Contains(prefix + "[](" + params + ") {", "[](" + className + " &self")
  {
    var t := "[](" + className + " &self";
    var rest := params[|className + " &self"|..];
    assert params == className + " &self" + rest;
    assert prefix + "[](" + params + ") {" == prefix + (t + (rest + ") {"));
    assert t <= t;
    ContainsPrefix(t, rest + ") {", t);
    ContainsSuffix(prefix, t + (rest + ") {"), t);
  }

  /** The last line: closes the body the header opened, then the
      registration suffixes follow unchanged. */
  function ClosingLine(suffixes: string): (r: string)
    ensures |r| == |suffixes| + 3 && r[..3] == "}, " && r[3..] == suffixes
  {
    "}, " + suffixes
  }

  /** What `generate_lambda` yields. */
  function Lambda(moduleName: string, f: FuncDecl, c: Option<ClassDecl>, indent: string,
                  def: string, suffixes: string): seq<string>
  {
    [HeaderLine(moduleName, f, c, def)] + LambdaBody(f, c, indent) + [ClosingLine(suffixes)]
  }

  /** `_generate_lambda_body`: one declaration per return in a loop, then the
      call, then the return statement. */
  method GenerateLambdaBody(f: FuncDecl, c: Option<ClassDecl>, indent: string) returns (lines: seq<string>)
    ensures lines == LambdaBody(f, c, indent)
  {
    var functionCall := FunctionCall(f, c);
    var functionCallParams := FunctionCallParams(f);
    var functionCallReturns := GenerateFunctionCallReturns(f);

    lines := [];
    for i := 0 to |f.returnValues|
      invariant |lines| == i
      invariant forall j :: 0 <= j < i ==> lines[j] == DeclarationLine(indent, f.returnValues[j], j)
    {
      lines := lines + [DeclarationLine(indent, f.returnValues[i], i)];
    }
    ghost var declarations := lines;
    assert declarations == Declarations(f.returnValues, indent);

    var callLine: string;
    if !f.cppVoidReturn && |f.returnValues| > 0 {
      callLine := indent + ("ret0 = " + functionCall + "(" + functionCallParams + ");");
    } else {
      callLine := indent + (functionCall + "(" + functionCallParams + ");");
    }
    assert callLine == indent + CallStatement(f, c);
    lines := lines + [callLine];

    var returnLine: string;
    if f.postproc == "->self" {
      returnLine := indent + "return self;";
    } else if |f.returnValues| > 1 {
      returnLine := indent + ("return std::make_tuple(" + functionCallReturns + ");");
    } else {
      returnLine := indent + ("return " + functionCallReturns + ";");
    }
    assert returnLine == indent + ReturnStatement(f);
    lines := lines + [returnLine];
  }

  /** `generate_lambda`: header, body, closing line. */
  method GenerateLambda(moduleName: string, f: FuncDecl, c: Option<ClassDecl>, indent: string,
                        def: string, suffixes: string) returns (lines: seq<string>)
    ensures lines == Lambda(moduleName, f, c, indent, def, suffixes)
  {
    var paramsWithType := LambdaParamsWithTypes(f, c);
    var funcName := RStrip(f.nativeName, '#');
    lines := [moduleName + "." + def + "(\"" + funcName + "\", " + "[](" + paramsWithType + ") {"];
    var body := GenerateLambdaBody(f, c, indent);
    lines := lines + body;
    lines := lines + ["}, " + suffixes];
  }
}
