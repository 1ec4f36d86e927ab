/** The C++ types and function signatures that the type traits, the facade and the
    type printers work on. A signature is a record of its return type, parameter
    types, C-style ellipsis, const-, ref- and noexcept-specification and call
    convention; each qualifier is a field instead of one of the 24 spellings the
    C++ code specialises for. */
module Signatures {

  /** A function's ref-qualifier: none, `&` or `&&`. */
  datatype RefQualifier = NoRef | LValueRef | RValueRef

  /** The call convention a signature carries: the platform default or a convention
      registered under the given name (such as `__attribute__((ms_abi))`). */
  datatype CallConv = DefaultConvention | Convention(name: string)

  /** Character types of the standard string and string-view classes. */
  datatype CharKind = Char | Char8 | Char16 | Char32 | WideChar

  /** The types a printer can meet. `Named` stands for every type without a
      dedicated printer; its name is what the compiler's demangler gives. */
  datatype CppType =
    | Named(name: string)
    | CustomPrinted(name: string, printedAs: string)
    | StdString(kind: CharKind, isView: bool)
    | Vector(element: CppType, isPmr: bool)
    | StdArray(element: CppType, extent: nat)
    | Template(name: string, args: seq<CppType>)
    | Function(signature: Signature)
    | Cv(inner: CppType, isConst: bool, isVolatile: bool)
    | LValueReference(inner: CppType)
    | RValueReference(inner: CppType)
    | Pointer(inner: CppType)
    | UnboundedArray(inner: CppType)
    | BoundedArray(inner: CppType, extent: nat)

  /** A function type `ret conv(params..., ...) const & noexcept`. */
  datatype Signature = Signature(
    ret: CppType,
    params: seq<CppType>,
    ellipsis: bool,
    isConst: bool,
    ref: RefQualifier,
    isNoexcept: bool,
    callConv: CallConv)

  /** Const-qualification of a signature with its bit encoding from Fwd.hpp. */
  datatype Constness = NonConst | AsConst | AnyConstness
  {
    function Bits(): nat
    {
      match this
      case NonConst => 1
      case AsConst => 2
      case AnyConstness => 3
    }
  }

  /** Ref-qualification of a signature with its bit encoding from Fwd.hpp. */
  datatype ValueCategory = LValue | RValue | AnyCategory
  {
    function Bits(): nat
    {
      match this
      case LValue => 1
      case RValue => 2
      case AnyCategory => 3
    }
  }

  /** The return type, parameters and ellipsis of two signatures agree. */
  predicate SameShape(a: Signature, b: Signature)
  {
    a.ret == b.ret && a.params == b.params && a.ellipsis == b.ellipsis
  }

  /** Two signatures agree in everything except, possibly, the call convention. */
  predicate SameExceptConvention(a: Signature, b: Signature)
  {
    SameShape(a, b) && a.isConst == b.isConst && a.ref == b.ref && a.isNoexcept == b.isNoexcept
  }
}
