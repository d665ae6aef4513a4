/** Properties of the lambda generator: when a lambda is needed, how the
    returns are split between the call's own value and out-parameters, and
    the shape of every line it renders. */
module LambdaProperties {
  import opened Strings
  import opened Ast
  import opened Lambdas

  // ----- bare types -----

  /** A type spelling with no leading `const` token and no final `&` or `*` token. */
  predicate IsPlainType(x: string)
  {
    var t := Split(x, ' ');
    t[0] != "const" && t[|t| - 1] !in {"&", "*"}
  }

  /** A plain spelling is its own bare type. */
  lemma BareTypeOfPlain(x: string)
    requires IsPlainType(x)
    ensures x != "const" && BareType(x) == x
  {
    SplitNoSep("const", ' ');
    JoinSplit(x, ' ');
  }

  lemma SplitConstPrefix(y: string)
    ensures Split("const " + y, ' ') == ["const"] + Split(y, ' ')
  {
    SplitNoSep("const", ' ');
    assert "const " + y == "const" + [' '] + y;
    SplitAppend("const", y, ' ');
  }

  lemma SplitMarkerSuffix(x: string, marker: string)
    requires marker in {"&", "*"}
    ensures Split(x + " " + marker, ' ') == Split(x, ' ') + [marker]
  {
    SplitNoSep(marker, ' ');
    SplitAppend(x, marker, ' ');
  }

  /** The bare tokens of a spelling whose tokens are an optional `const`,
      a plain core and an optional final marker are the core. */
  lemma BareTokensOfSplit(s: string, lead: seq<string>, core: seq<string>, tail: seq<string>)
    requires s != "const"
    requires Split(s, ' ') == lead + core + tail
    requires lead == [] || lead == ["const"]
    requires tail == [] || (|tail| == 1 && tail[0] in {"&", "*"})
    requires |core| >= 1 && core[0] != "const" && core[|core| - 1] !in {"&", "*"}
    ensures BareTokens(s) == core
  {
    var tokens := Split(s, ' ');
    var t := BareTokens(s);
    assert tokens[0] == (if lead == [] then core[0] else "const");
    assert tokens[|tokens| - 1] == (if tail == [] then core[|core| - 1] else tail[0]);
    assert tokens[|lead|..|lead| + |core|] == core;
    assert |t| == |core|;
  }

  /** A leading `const` token is stripped. */
  lemma BareTypeStripsConst(x: string)
    requires IsPlainType(x)
    ensures BareType("const " + x) == x
  {
    assert ("const " + x)[5] == ' ';
    SplitConstPrefix(x);
    assert Split("const " + x, ' ') == ["const"] + Split(x, ' ') + [];
    BareTokensOfSplit("const " + x, ["const"], Split(x, ' '), []);
    JoinSplit(x, ' ');
  }

  /** A final `&` or `*` token is stripped. */
  lemma BareTypeStripsMarker(x: string, marker: string)
    requires IsPlainType(x)
    requires marker in {"&", "*"}
    ensures x + " " + marker != "const" && BareType(x + " " + marker) == x
  {
    assert (x + " " + marker)[|x|] == ' ';
    SplitMarkerSuffix(x, marker);
    assert Split(x + " " + marker, ' ') == [] + Split(x, ' ') + [marker];
    BareTokensOfSplit(x + " " + marker, [], Split(x, ' '), [marker]);
    JoinSplit(x, ' ');
  }

  /** A leading `const` and a final `&` or `*` are stripped together. */
  lemma BareTypeStripsBoth(x: string, marker: string)
    requires IsPlainType(x)
    requires marker in {"&", "*"}
    ensures BareType("const " + x + " " + marker) == x
  {
    var y := x + " " + marker;
    assert "const " + x + " " + marker == "const " + y;
    assert ("const " + y)[5] == ' ';
    SplitMarkerSuffix(x, marker);
    SplitConstPrefix(y);
    BareTokensOfSplit("const " + y, ["const"], Split(x, ' '), [marker]);
    JoinSplit(x, ' ');
  }

  lemma FooIsPlain()
    ensures IsPlainType("Foo")
  {
    SplitNoSep("Foo", ' ');
  }

  lemma ConstRefExample()
    ensures BareType("const Foo &") == "Foo"
  {
    FooIsPlain();
    BareTypeStripsBoth("Foo", "&");
    ConstFooRefSpelling();
  }

  lemma ConstFooRefSpelling()
    ensures "const " + "Foo" + " " + "&" == "const Foo &"
  {
  }

  lemma PointerExample()
    ensures BareType("Foo *") == "Foo"
  {
    FooIsPlain();
    BareTypeStripsMarker("Foo", "*");
    FooPointerSpelling();
  }

  lemma FooPointerSpelling()
    ensures "Foo" + " " + "*" == "Foo *"
  {
  }

  /** The documented examples of `_extract_bare_type`. */
  lemma BareTypeExamples()
    ensures BareType("const Foo &") == "Foo"
    ensures BareType("Foo *") == "Foo"
    ensures BareType("Foo") == "Foo"
  {
    FooIsPlain();
    BareTypeOfPlain("Foo");
    ConstRefExample();
    PointerExample();
  }

  // ----- needs_lambda -----

  /** `needs_lambda` in terms of the descriptor's fields alone. */
  lemma NeedsLambdaCases(f: FuncDecl, isUsableExactType: string -> bool)
    requires ReturnsSelf(f) || BareTypesDefined(f, isUsableExactType)
    ensures NeedsLambda(f, isUsableExactType) <==>
      || f.postproc == "->self"
      || (&& |f.params| == 1
          && isUsableExactType(f.params[0].cppExactType)
          && BareType(f.params[0].cppExactType) != BareType(f.params[0].cppType)
          && f.params[0].cppToPtrConversion
          && f.params[0].cppToUniqPtrConversion)
      || |f.returnValues| >= 2
      || (|f.returnValues| == 1 && f.cppVoidReturn)
      || (exists i :: 0 <= i < |f.returnValues| && f.returnValues[i].langType == "bytes")
  {
  }

  /** `_func_has_pointer_params` holds exactly when the call passes at least
      one `&ret{i}` out-parameter. */
  lemma PointerParamsIffOutParameters(f: FuncDecl)
    ensures HasPointerParams(f) <==> |PointerArgs(f)| > 0
  {
  }

  /** When no lambda is needed, a lambda would add nothing: no out-parameter,
      no `->self`, and every return handed back as it is. */
  lemma NoLambdaMeansDirectCall(f: FuncDecl, isUsableExactType: string -> bool)
    requires ReturnsSelf(f) || BareTypesDefined(f, isUsableExactType)
    requires !NeedsLambda(f, isUsableExactType)
    ensures !ReturnsSelf(f)
    ensures PointerArgs(f) == []
    ensures |f.returnValues| <= 1
    ensures forall i :: 0 <= i < |f.returnValues| ==> ReturnExprs(f.returnValues)[i] == RetVar(i)
  {
    PointerParamsIffOutParameters(f);
  }

  /** The conversion check looks at single-parameter functions only: with any
      other number of parameters it never fires, whatever their types. */
  lemma ConversionOnlyForOneParam(f: FuncDecl, isUsableExactType: string -> bool)
    requires |f.params| != 1
    ensures !NeedsImplicitConversion(f, isUsableExactType)
    ensures NeedsLambda(f, isUsableExactType) <==> ReturnsSelf(f) || HasPointerParams(f) || HasBytesReturn(f)
  {
  }

  /** A single parameter whose bare exact type differs from its bare declared
      type and that has both conversions needs a lambda on its own; the same
      parameter twice triggers no conversion. */
  lemma SingleParamConversion(f: FuncDecl, p: ParamDecl, isUsableExactType: string -> bool)
    requires isUsableExactType(p.cppExactType)
    requires p.cppExactType != "const" && p.cppType != "const"
    requires BareType(p.cppExactType) != BareType(p.cppType)
    requires p.cppToPtrConversion && p.cppToUniqPtrConversion
    ensures NeedsLambda(f.(params := [p]), isUsableExactType)
    ensures !NeedsImplicitConversion(f.(params := [p, p]), isUsableExactType)
  {
  }

  lemma BarIsPlain()
    ensures IsPlainType("Bar")
  {
    SplitNoSep("Bar", ' ');
  }

  /** A parameter declared `Bar` whose exact type is `const Foo &`, with both
      conversions, makes a lambda necessary. */
  lemma ConversionScenario(f: FuncDecl, isUsableExactType: string -> bool)
    requires isUsableExactType("const Foo &")
    ensures NeedsLambda(f.(params := [ParamDecl("x", "Bar", "const Foo &", true, true)]), isUsableExactType)
  {
    var p := ParamDecl("x", "Bar", "const Foo &", true, true);
    ConstRefExample();
    BarIsPlain();
    BareTypeOfPlain("Bar");
    assert "Foo" != "Bar";
    SingleParamConversion(f, p, isUsableExactType);
  }

  /** One `int` parameter with matching types, one plain return and a
      non-void call: registered directly, without a lambda. */
  lemma DirectBindingScenario(isUsableExactType: string -> bool)
    ensures var p := ParamDecl("x", "int", "int", false, false);
            !NeedsLambda(FuncDecl("f", "f", [p], [ReturnDecl("int", "int")], false, false, ""), isUsableExactType)
  {
    var f := FuncDecl("f", "f", [ParamDecl("x", "int", "int", false, false)], [ReturnDecl("int", "int")], false, false, "");
    assert !HasBytesReturn(f);
  }

  // ----- the call -----

  /** Every declared return is written exactly once by the call: `ret0` by
      assignment when the call returns a value, every other one through its
      `&ret{i}` out-parameter. */
  lemma {:induction false} OutParametersCoverReturns(f: FuncDecl, i: nat)
    requires i < |f.returnValues|
    ensures ("&" + RetVar(i) in PointerArgs(f)) <==> !(i == 0 && AssignsFirstReturn(f))
  {
    var k := FirstPointerIndex(f);
    var args := PointerArgs(f);
    if i == 0 && AssignsFirstReturn(f) {
      forall j | 0 <= j < |args|
        ensures args[j] != "&" + RetVar(0)
      {
        NatToStringInjective(1 + j, 0);
        assert args[j] == "&" + RetVar(1 + j);
        assert NatToString(1 + j) == args[j][4..];
        assert NatToString(0) == ("&" + RetVar(0))[4..];
      }
    } else {
      assert args[i - k] == "&" + RetVar(i);
    }
  }

  /** The pointer arguments number `len(returns) - k`, where `k` is 1 exactly
      when the call's own value lands in `ret0`. */
  lemma OutParameterCount(f: FuncDecl)
    ensures |PointerArgs(f)| == |f.returnValues| - (if AssignsFirstReturn(f) then 1 else 0)
  {
  }

  /** With non-empty parameter names, the argument list is the parameter names
      followed by the pointer arguments, all separated by `", "`. */
  lemma {:induction false} CallParamsJoin(f: FuncDecl)
    requires forall i :: 0 <= i < |f.params| ==> f.params[i].cppName != ""
    ensures FunctionCallParams(f) == Join(ParamNames(f) + PointerArgs(f), ", ")
  {
    var names, pointers := ParamNames(f), PointerArgs(f);
    JoinEmpty(names, ", ");
    JoinEmpty(pointers, ", ");
    if names != [] && pointers != [] {
      JoinAppend(names, pointers, ", ");
    } else if names == [] {
      assert names + pointers == pointers;
    } else {
      assert names + pointers == names;
    }
  }

  /** A single return from a void call: one `&ret0` argument and no assignment. */
  lemma SingleVoidReturn(f: FuncDecl, c: Option<ClassDecl>)
    requires |f.returnValues| == 1 && f.cppVoidReturn
    ensures PointerArgs(f) == ["&ret0"]
    ensures CallStatement(f, c) == FunctionCall(f, c) + "(" + FunctionCallParams(f) + ");"
  {
    assert RetVar(0) == "ret0";
    assert PointerArgs(f)[0] == "&ret0";
  }

  // ----- the return statement -----

  lemma {:induction false} ReturnExprsHaveNoComma(rs: seq<ReturnDecl>)
    ensures forall i :: 0 <= i < |rs| ==> ',' !in ReturnExprs(rs)[i]
  {
    forall i | 0 <= i < |rs|
      ensures ',' !in ReturnExprs(rs)[i]
    {
      var digits := NatToString(i);
      assert forall j :: 0 <= j < |digits| ==> digits[j] != ',';
      assert ',' !in "ret" + digits;
      assert ',' !in "py::bytes(" + ("ret" + digits) + ")";
    }
  }

  /** Under `->self` the return statement is `return self;`, whatever the returns. */
  lemma ReturnSelfOverrides(f: FuncDecl, rs: seq<ReturnDecl>)
    requires ReturnsSelf(f)
    ensures ReturnStatement(f.(returnValues := rs)) == "return self;"
  {
  }

  /** With at most one return the value itself is returned, or nothing. */
  lemma ReturnStatementSingle(f: FuncDecl)
    requires !ReturnsSelf(f) && |f.returnValues| <= 1
    ensures |f.returnValues| == 0 ==> ReturnStatement(f) == "return ;"
    ensures |f.returnValues| == 1 ==> ReturnStatement(f) == "return " + ReturnExpr(f.returnValues[0], 0) + ";"
  {
  }

  lemma TupleCommas(joined: string)
    ensures Occurrences("return std::make_tuple(" + joined + ");", ',') == Occurrences(joined, ',')
  {
    var open, close := "return std::make_tuple(", ");";
    assert ',' !in open && ',' !in close;
    OccurrencesAppend(open, joined, ',');
    OccurrencesAppend(open + joined, close, ',');
    OccurrencesAbsent(open, ',');
    OccurrencesAbsent(close, ',');
  }

  /** With several returns they are packed by `std::make_tuple`, one comma
      between each two of them. */
  lemma {:induction false} ReturnStatementTuple(f: FuncDecl)
    requires !ReturnsSelf(f) && |f.returnValues| > 1
    ensures "return std::make_tuple(" <= ReturnStatement(f)
    ensures Occurrences(ReturnStatement(f), ',') == |f.returnValues| - 1
  {
    var exprs := ReturnExprs(f.returnValues);
    var joined := Join(exprs, ", ");
    assert Occurrences(joined, ',') == |f.returnValues| - 1 by {
      ReturnExprsHaveNoComma(f.returnValues);
      JoinCommaCount(exprs);
    }
    assert ReturnStatement(f) == "return std::make_tuple(" + joined + ");";
    TupleCommas(joined);
  }

  /** A `bytes` return is wrapped in `py::bytes` in the return statement,
      whether it is the only return or one of several. */
  lemma {:induction false} BytesReturnsWrapped(f: FuncDecl, i: nat)
    requires !ReturnsSelf(f)
    requires i < |f.returnValues| && f.returnValues[i].langType == "bytes"
    ensures Contains(ReturnStatement(f), "py::bytes(" + RetVar(i) + ")")
  {
    var exprs := ReturnExprs(f.returnValues);
    var joined := Join(exprs, ", ");
    JoinContains(exprs, ", ", i);
    if |f.returnValues| > 1 {
      ContainsSuffix("return std::make_tuple(", joined, exprs[i]);
      ContainsPrefix("return std::make_tuple(" + joined, ");", exprs[i]);
    } else {
      ContainsSuffix("return ", joined, exprs[i]);
      ContainsPrefix("return " + joined, ";", exprs[i]);
    }
  }

  // ----- the lines -----

  /** The variables `ret0`, `ret1`, ... declared for the returns are distinct. */
  lemma DeclaredVariablesDistinct(i: nat, j: nat)
    requires i != j
    ensures RetVar(i) != RetVar(j)
  {
    assert NatToString(i) == RetVar(i)[3..];
    assert NatToString(j) == RetVar(j)[3..];
    NatToStringInjective(i, j);
  }

  /** The body: one declaration per return in order, then exactly one call
      line, then exactly one return line. */
  lemma LambdaBodyShape(f: FuncDecl, c: Option<ClassDecl>, indent: string)
    ensures |LambdaBody(f, c, indent)| == |f.returnValues| + 2
    ensures forall i :: 0 <= i < |f.returnValues| ==>
      LambdaBody(f, c, indent)[i] == indent + f.returnValues[i].cppType + " " + RetVar(i) + "{};"
    ensures LambdaBody(f, c, indent)[|f.returnValues|] == indent + CallStatement(f, c)
    ensures LambdaBody(f, c, indent)[|f.returnValues| + 1] == indent + ReturnStatement(f)
  {
  }

  /** The whole lambda: the header first, the body, the closing line last. */
  lemma LambdaShape(moduleName: string, f: FuncDecl, c: Option<ClassDecl>, indent: string,
                    def: string, suffixes: string)
    ensures var lines := Lambda(moduleName, f, c, indent, def, suffixes);
            && |lines| == |f.returnValues| + 4
            && lines[0] == HeaderLine(moduleName, f, c, def)
            && lines[1..|lines| - 1] == LambdaBody(f, c, indent)
            && lines[|lines| - 1] == "}, " + suffixes
  {
    LambdaBodyShape(f, c, indent);
  }

  /** No parameters, two plain `int` returns, a void call. */
  const TwoOutParams := FuncDecl("f", "f", [], [ReturnDecl("int", "int"), ReturnDecl("int", "int")], true, false, "")

  lemma TwoOutParamsPointerArgs()
    ensures PointerArgs(TwoOutParams) == ["&ret0", "&ret1"]
  {
    var f := TwoOutParams;
    assert RetVar(0) == "ret0" && RetVar(1) == "ret1";
    assert FirstPointerIndex(f) == 0;
    assert |PointerArgs(f)| == 2;
    assert PointerArgs(f)[0] == "&" + "ret0" == "&ret0";
    assert PointerArgs(f)[1] == "&" + "ret1" == "&ret1";
  }

  lemma TwoOutParamsCallParams()
    ensures FunctionCallParams(TwoOutParams) == "&ret0, &ret1"
  {
    var f := TwoOutParams;
    TwoOutParamsPointerArgs();
    assert ParamNames(f) == [];
    assert Join(ParamNames(f), ", ") == "";
    assert Join(["&ret0", "&ret1"], ", ") == "&ret0" + ", " + "&ret1" == "&ret0, &ret1";
  }

  lemma TwoOutParamsCall()
    ensures CallStatement(TwoOutParams, None) == "f(&ret0, &ret1);"
  {
    var f := TwoOutParams;
    TwoOutParamsCallParams();
    assert !AssignsFirstReturn(f) && FunctionCall(f, None) == "f";
    assert "f" + "(" + "&ret0, &ret1" + ");" == "f(&ret0, &ret1);";
  }

  lemma TwoOutParamsReturn()
    ensures ReturnStatement(TwoOutParams) == "return std::make_tuple(ret0, ret1);"
  {
    var f := TwoOutParams;
    assert RetVar(0) == "ret0" && RetVar(1) == "ret1";
    assert ReturnExprs(f.returnValues)[0] == "ret0";
    assert ReturnExprs(f.returnValues)[1] == "ret1";
    assert ReturnExprs(f.returnValues) == ["ret0", "ret1"];
    assert Join(["ret0", "ret1"], ", ") == "ret0" + ", " + "ret1" == "ret0, ret1";
  }

  lemma TwoOutParamsDeclarations(indent: string)
    ensures Declarations(TwoOutParams.returnValues, indent) == [indent + "int ret0{};", indent + "int ret1{};"]
  {
    var f := TwoOutParams;
    assert RetVar(0) == "ret0" && RetVar(1) == "ret1";
    assert "int" + " " + "ret0" + "{};" == "int ret0{};";
    assert "int" + " " + "ret1" + "{};" == "int ret1{};";
    assert DeclarationLine(indent, f.returnValues[0], 0) == indent + ("int" + " " + "ret0" + "{};");
    assert DeclarationLine(indent, f.returnValues[1], 1) == indent + ("int" + " " + "ret1" + "{};");
  }

  /** No parameters, two plain returns and a void call: two declarations, a
      call with two pointer arguments and a tuple of both returns. */
  lemma TwoOutParamsScenario(indent: string)
    ensures LambdaBody(TwoOutParams, None, indent) ==
              [ indent + "int ret0{};",
                indent + "int ret1{};",
                indent + "f(&ret0, &ret1);",
                indent + "return std::make_tuple(ret0, ret1);" ]
  {
    TwoOutParamsCall();
    TwoOutParamsReturn();
    TwoOutParamsDeclarations(indent);
  }
}
