/** The parts of the CLIF AST descriptors that the pybind11 lambda generator
    reads. Each record keeps only the fields the generator looks at; the
    nested `name` and `type` messages are flattened into their fields. */
module Ast {

  datatype Option<T> = None | Some(value: T)

  /** One parameter: `name.cpp_name`, `type.cpp_type`, `cpp_exact_type`,
      `type.cpp_toptr_conversion` and `type.cpp_touniqptr_conversion`. */
  datatype ParamDecl = ParamDecl(
    cppName: string,
    cppType: string,
    cppExactType: string,
    cppToPtrConversion: bool,
    cppToUniqPtrConversion: bool)

  /** One return value: `type.cpp_type` and `type.lang_type`. */
  datatype ReturnDecl = ReturnDecl(cppType: string, langType: string)

  /** A function: `name.native`, `name.cpp_name`, `params`, `returns` (as `returnValues`),
      `cpp_void_return`, `classmethod` and `postproc`. */
  datatype FuncDecl = FuncDecl(
    nativeName: string,
    cppName: string,
    params: seq<ParamDecl>,
    returnValues: seq<ReturnDecl>,
    cppVoidReturn: bool,
    classmethod: bool,
    postproc: string)

  /** The enclosing class: `name.cpp_name`. */
  datatype ClassDecl = ClassDecl(cppName: string)
}
