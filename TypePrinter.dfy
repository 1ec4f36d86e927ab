/** The type-name printer of printing/TypePrinter.hpp. `print_type_helper`
    writes cv-qualifiers, references and pointers after the name of the type
    they apply to; that name comes from the common printer (standard strings,
    `std::vector`, `std::array`), the signature printer (function types), the
    template printer (class templates over type parameters) or, failing all of
    them, the prettified demangled name, which is given here as a function. */
module TypePrinting {
  import opened Wrappers
  import opened Signatures
  import Text

  /** `prettify_type_name(type_name<T>())` for the types that reach it. */
  type Demangler = CppType -> string

  /** The demangled name of a type: a `Named` type carries its own, every other
      type's comes from the demangler. */
  function Fallback(t: CppType, d: Demangler): string
  {
    match t
    case Named(name) => name
    case CustomPrinted(name, _) => name
    case _ => d(t)
  }

  /** The text written for a cv-qualification; a qualification naming neither
      `const` nor `volatile` adds nothing. */
  function CvText(isConst: bool, isVolatile: bool): string
  {
    if isConst && isVolatile then " const volatile"
    else if isConst then " const"
    else if isVolatile then " volatile"
    else ""
  }

  /** The cv-qualification C++ sees on a type: an array counts as qualified as
      its elements are. */
  function ElementCv(t: CppType): (bool, bool)
  {
    match t
    case Cv(_, isConst, isVolatile) => (isConst, isVolatile)
    case UnboundedArray(inner) => ElementCv(inner)
    case BoundedArray(inner, _) => ElementCv(inner)
    case _ => (false, false)
  }

  /** An array type with the qualification of its elements removed. */
  function StripElementCv(t: CppType): CppType
  {
    match t
    case Cv(inner, _, _) => inner
    case UnboundedArray(inner) => UnboundedArray(StripElementCv(inner))
    case BoundedArray(inner, n) => BoundedArray(StripElementCv(inner), n)
    case _ => t
  }

  /** The fixed names the common printer gives the standard string and
      string-view classes. */
  function StringName(kind: CharKind, isView: bool): string
  {
    match (kind, isView)
    case (Char, false) => "std::string"
    case (Char8, false) => "std::u8string"
    case (Char16, false) => "std::u16string"
    case (Char32, false) => "std::u32string"
    case (WideChar, false) => "std::wstring"
    case (Char, true) => "std::string_view"
    case (Char8, true) => "std::u8string_view"
    case (Char16, true) => "std::u16string_view"
    case (Char32, true) => "std::u32string_view"
    case (WideChar, true) => "std::wstring_view"
  }

  /** The text after a signature's parameter list: ` const`, then ` &` or ` &&`,
      then ` noexcept`. */
  function QualifierText(isConst: bool, ref: RefQualifier, isNoexcept: bool): string
  {
    ConstRefText(isConst, ref) + (if isNoexcept then " noexcept" else "")
  }

  /** `fullName.erase(std::ranges::find(fullName, c), fullName.cend())`: the text
      before the first `c`, or all of it. */
  function BeforeFirst(s: string, c: char): (r: string)
    ensures r <= s && c !in r
    ensures |r| < |s| ==> s[|r|] == c
  {
    if s == [] || s[0] == c then ""
    else [s[0]] + BeforeFirst(s[1..], c)
  }

  /** The types listed inside a type: a template's arguments or a function's
      parameters. */
  function Items(t: CppType): seq<CppType>
  {
    match t
    case Template(_, args) => args
    case Function(sig) => sig.params
    case _ => []
  }

  /** Whether `print_type<T>()` is well-formed: every function type the printer
      reaches is non-variadic. The signature printer reads the parameters through
      `signature_param_list_t`, which is specialised only for `Return(Params...)`
      (TypeTraits.hpp:1132-1145), so a variadic signature has no printed name. An
      array is named by the demangler and imposes nothing on its elements. */
  predicate Printable(t: CppType)
  {
    match t
    case Vector(element, _) => Printable(element)
    case StdArray(element, _) => Printable(element)
    case Template(_, args) => forall k :: 0 <= k < |args| ==> Printable(args[k])
    case Function(sig) =>
      !sig.ellipsis && Printable(sig.ret) && forall k :: 0 <= k < |sig.params| ==> Printable(sig.params[k])
    case Cv(inner, _, _) => Printable(inner)
    case LValueReference(inner) => Printable(inner)
    case RValueReference(inner) => Printable(inner)
    case Pointer(inner) => Printable(inner)
    case _ => true
  }

  /** `print_type_helper<T>{}(out)`: writes the name of `t` after `out`. */
  function Write(t: CppType, d: Demangler, out: string): (r: string)
    requires Printable(t)
    ensures out <= r
    decreases t, 3
  {
    match t
    case Cv(inner, isConst, isVolatile) => Write(inner, d, out) + CvText(isConst, isVolatile)
    case LValueReference(inner) => Write(inner, d, out) + "&"
    case RValueReference(inner) => Write(inner, d, out) + "&&"
    case Pointer(inner) => Write(inner, d, out) + "*"
    case UnboundedArray(_) => out + ArrayName(t, d)
    case BoundedArray(_, _) => out + ArrayName(t, d)
    case _ => out + BaseName(t, d)
  }

  /** An array has no specialisation of its own. When its elements are
      cv-qualified, the `const T`/`volatile T` specialisations match with `T` the
      unqualified array, whose name comes from the demangler; otherwise the
      primary template names the array the same way. */
  function ArrayName(t: CppType, d: Demangler): string
    requires t.UnboundedArray? || t.BoundedArray?
  {
    var (isConst, isVolatile) := ElementCv(t);
    if isConst || isVolatile then Fallback(StripElementCv(t), d) + CvText(isConst, isVolatile)
    else Fallback(t, d)
  }

  /** `print_type<T>()`. */
  function Print(t: CppType, d: Demangler): string
    requires Printable(t)
    decreases t, 4
  {
    Write(t, d, "")
  }

  /** `print_type_to<T>(maxPrintTypePriority, out)` for a type without
      declarator operators: the first of the common, signature and template
      printers that exists for it, else the demangled name. */
  function BaseName(t: CppType, d: Demangler): string
    requires Printable(t)
    decreases t, 2
  {
    var common := CommonName(t, d);
    if common.Some? then common.value
    else
      var signature := SignatureName(t, d);
      if signature.Some? then signature.value
      else
        var template := TemplateName(t, d);
        if template.Some? then template.value
        else Fallback(t, d)
  }

  /** `CommonTypePrinter<T>::name()`: standard strings, vectors and arrays. */
  function CommonName(t: CppType, d: Demangler): Option<string>
    requires Printable(t)
    decreases t, 1
  {
    match t
    case StdString(kind, isView) => Some(StringName(kind, isView))
    case Vector(element, isPmr) =>
      Some((if isPmr then "std::pmr::vector<" else "std::vector<") + Print(element, d) + ">")
    case StdArray(element, n) => Some("std::array<" + Print(element, d) + ", " + Text.NatToString(n) + ">")
    case _ => None
  }

  /** `SignatureTypePrinter<T>::generate_name()` for a function type: the return
      type, the parameters in parentheses and the qualifiers. */
  function SignatureName(t: CppType, d: Demangler): Option<string>
    requires Printable(t)
    decreases t, 1
  {
    match t
    case Function(sig) =>
      Some(Print(sig.ret, d) + "(" + ParamsText(t, d) + ")" + QualifierText(sig.isConst, sig.ref, sig.isNoexcept))
    case _ => None
  }

  /** `TemplateTypePrinter<Template<First, Others...>>::generate_name()`: the
      demangled name cut at its first `<`, then the printed arguments in angle
      brackets. */
  function TemplateName(t: CppType, d: Demangler): Option<string>
    requires Printable(t)
    decreases t, 1
  {
    match t
    case Template(_, args) =>
      if |args| == 0 then None
      else Some(BeforeFirst(Fallback(t, d), '<') + "<" + Print(args[0], d) + RestText(t, d, 1) + ">")
    case _ => None
  }

  /** `((out << ", " << print_type<Others>()), ...)` over the items from `i` on. */
  function RestText(t: CppType, d: Demangler, i: nat): string
    requires Printable(t) && (t.Template? || t.Function?)
    requires i <= |Items(t)|
    decreases t, 0, |Items(t)| - i
  {
    if i == |Items(t)| then ""
    else ", " + Print(Items(t)[i], d) + RestText(t, d, i + 1)
  }

  /** The printed names of a list of types. */
  function PrintAll(ts: seq<CppType>, d: Demangler): (r: seq<string>)
    requires forall k :: 0 <= k < |ts| ==> Printable(ts[k])
    ensures |r| == |ts| && forall k :: 0 <= k < |ts| ==> r[k] == Print(ts[k], d)
  {
    seq(|ts|, k requires 0 <= k < |ts| => Print(ts[k], d))
  }

  /** Writing to an output iterator writes exactly the text `print_type<T>()`
      returns. */
  lemma {:induction false} WriteAppends(t: CppType, d: Demangler, out: string)
    requires Printable(t)
    ensures Write(t, d, out) == out + Print(t, d)
  {
    match t
    case Cv(inner, _, _) => WriteAppends(inner, d, out);
    case LValueReference(inner) => WriteAppends(inner, d, out);
    case RValueReference(inner) => WriteAppends(inner, d, out);
    case Pointer(inner) => WriteAppends(inner, d, out);
    case _ => WriteUndecorated(t, d, out);
  }

  lemma WriteUndecorated(t: CppType, d: Demangler, out: string)
    requires Printable(t)
    requires !t.Cv? && !t.LValueReference? && !t.RValueReference? && !t.Pointer?
    ensures Write(t, d, out) == out + Print(t, d)
  {
    if t.UnboundedArray? || t.BoundedArray? {
      assert Write(t, d, out) == out + ArrayName(t, d);
      assert Print(t, d) == "" + ArrayName(t, d) == ArrayName(t, d);
    } else {
      assert Write(t, d, out) == out + BaseName(t, d);
      assert Print(t, d) == "" + BaseName(t, d) == BaseName(t, d);
    }
  }

  /** The suffix rules on whole names: `const T` appends " const" (and likewise
      for volatile), `T&` one '&', `T&&` two, `T*` one '*'. */
  lemma PrintSuffixRules(t: CppType, d: Demangler)
    requires Printable(t)
    ensures t.Cv? ==> Print(t, d) == Print(t.inner, d) + CvText(t.isConst, t.isVolatile)
    ensures t.LValueReference? ==> Print(t, d) == Print(t.inner, d) + "&"
    ensures t.RValueReference? ==> Print(t, d) == Print(t.inner, d) + "&&"
    ensures t.Pointer? ==> Print(t, d) == Print(t.inner, d) + "*"
  {
    match t
    case Cv(inner, _, _) => WriteAppends(inner, d, "");
    case LValueReference(inner) => WriteAppends(inner, d, "");
    case RValueReference(inner) => WriteAppends(inner, d, "");
    case Pointer(inner) => WriteAppends(inner, d, "");
    case _ =>
  }

  /** An array of cv-qualified elements prints the qualifier after the whole
      array's name, `const int[3]` as the demangled `int[3]` followed by
      " const": the cv-specialisations here lack the `!is_array_v<T>` constraint. */
  lemma ArrayQualifierFollowsArray(element: CppType, n: nat, isConst: bool, isVolatile: bool, d: Demangler)
    requires isConst || isVolatile
    ensures Print(BoundedArray(Cv(element, isConst, isVolatile), n), d)
            == Fallback(BoundedArray(element, n), d) + CvText(isConst, isVolatile)
  {
    var t := BoundedArray(Cv(element, isConst, isVolatile), n);
    assert ElementCv(t) == (isConst, isVolatile);
    assert StripElementCv(t) == BoundedArray(element, n);
    assert Print(t, d) == "" + ArrayName(t, d);
  }

  /** `", " + parts[k]` for every `k` from `i` on. */
  function SeparatedFrom(parts: seq<string>, i: nat): string
    requires i <= |parts|
    decreases |parts| - i
  {
    if i == |parts| then "" else ", " + parts[i] + SeparatedFrom(parts, i + 1)
  }

  /** A `Text.Join` with ", " is the first part followed by every other part
      after ", ". */
  lemma {:induction false} JoinSplits(parts: seq<string>, i: nat)
    requires 0 < i <= |parts|
    ensures Text.Join(parts[i - 1..], ", ") == parts[i - 1] + SeparatedFrom(parts, i)
    decreases |parts| - i
  {
    if i < |parts| {
      JoinSplits(parts, i + 1);
      assert parts[i - 1..][1..] == parts[i..];
    } else {
      assert parts[i - 1..] == [parts[i - 1]];
    }
  }

  /** The printer's fold over the remaining items writes them after ", ". */
  lemma {:induction false} RestTextSeparated(t: CppType, d: Demangler, i: nat)
    requires Printable(t) && (t.Template? || t.Function?)
    requires i <= |Items(t)|
    ensures RestText(t, d, i) == SeparatedFrom(PrintAll(Items(t), d), i)
    decreases |Items(t)| - i
  {
    if i < |Items(t)| {
      RestTextSeparated(t, d, i + 1);
    }
  }

  /** The first item followed by the fold over the others is the printed items
      joined by ", ". */
  lemma ItemsJoin(t: CppType, d: Demangler)
    requires Printable(t) && (t.Template? || t.Function?)
    requires 0 < |Items(t)|
    ensures Text.Join(PrintAll(Items(t), d), ", ") == Print(Items(t)[0], d) + RestText(t, d, 1)
  {
    var all := PrintAll(Items(t), d);
    JoinSplits(all, 1);
    RestTextSeparated(t, d, 1);
    assert all[0..] == all;
  }

  /** A signature prints as `R(P1, P2, ...)`, the parameters joined by ", ",
      followed in order by " const", " &" or " &&", and " noexcept"; with no
      parameters it prints `R()`. Only printable signatures have a name, so a
      variadic one has none. */
  lemma SignatureShape(sig: Signature, d: Demangler)
    requires Printable(Function(sig))
    ensures Print(Function(sig), d)
            == Print(sig.ret, d) + "(" + Text.Join(PrintAll(sig.params, d), ", ") + ")"
               + QualifierText(sig.isConst, sig.ref, sig.isNoexcept)
    ensures sig.params == [] ==>
            Print(Function(sig), d) == Print(sig.ret, d) + "()" + QualifierText(sig.isConst, sig.ref, sig.isNoexcept)
  {
    var t := Function(sig);
    var params := ParamsText(t, d);
    var q := QualifierText(sig.isConst, sig.ref, sig.isNoexcept);
    var name := Print(sig.ret, d) + "(" + params + ")" + q;
    assert CommonName(t, d) == None;
    assert SignatureName(t, d) == Some(name);
    assert BaseName(t, d) == name;
    assert Write(t, d, "") == "" + name == name;
    ParamsJoin(t, d);
    if sig.params == [] {
      EmptyParens(Print(sig.ret, d), q);
    }
  }

  lemma EmptyParens(ret: string, q: string)
    ensures ret + "(" + "" + ")" + q == ret + "()" + q
  {
  }

  /** The parameter list between the parentheses. */
  function ParamsText(t: CppType, d: Demangler): string
    requires t.Function? && Printable(t)
    decreases t, 0, |Items(t)|
  {
    if |t.signature.params| == 0 then "" else Print(t.signature.params[0], d) + RestText(t, d, 1)
  }

  lemma ParamsJoin(t: CppType, d: Demangler)
    requires t.Function? && Printable(t)
    ensures ParamsText(t, d) == Text.Join(PrintAll(t.signature.params, d), ", ")
  {
    if t.signature.params != [] {
      ItemsJoin(t, d);
    }
  }

  /** Whether `s` ends with `suffix`. */
  predicate EndsWith(s: string, suffix: string)
  {
    |suffix| <= |s| && s[|s| - |suffix|..] == suffix
  }

  /** Reads the qualifiers back from the text after a parameter list. */
  function ParseQualifiers(s: string): (bool, RefQualifier, bool)
  {
    var isNoexcept := EndsWith(s, " noexcept");
    var s1 := if isNoexcept then s[..|s| - 9] else s;
    var ref := if EndsWith(s1, " &&") then RValueRef else if EndsWith(s1, " &") then LValueRef else NoRef;
    var s2 := match ref case RValueRef => s1[..|s1| - 3] case LValueRef => s1[..|s1| - 2] case NoRef => s1;
    (s2 == " const", ref, isNoexcept)
  }

  /** The text of the const- and ref-qualifiers. */
  function ConstRefText(isConst: bool, ref: RefQualifier): string
  {
    (if isConst then " const" else "")
    + (match ref case NoRef => "" case LValueRef => " &" case RValueRef => " &&")
  }

  lemma ConstRefParses(isConst: bool, ref: RefQualifier)
    ensures var s := ConstRefText(isConst, ref);
            (EndsWith(s, " &&") <==> ref == RValueRef)
            && (ref != RValueRef ==> (EndsWith(s, " &") <==> ref == LValueRef))
            && !EndsWith(s, " noexcept")
            && (match ref case RValueRef => s[..|s| - 3] case LValueRef => s[..|s| - 2] case NoRef => s)
               == (if isConst then " const" else "")
  {
    var c := if isConst then " const" else "";
    var s := ConstRefText(isConst, ref);
    match ref {
      case NoRef =>
        assert s == c;
        assert s != [] ==> s[|s| - 1] == 't';
      case LValueRef =>
        assert s == c + " &";
        assert s[|s| - 1] == '&' && s[|s| - 2] == ' ';
      case RValueRef =>
        assert s == c + " &&";
        assert s[|s| - 3..] == " &&";
        assert |s| >= 9 ==> s[|s| - 9..][1] == 'c';
    }
  }

  lemma NoexceptParses(s: string, isNoexcept: bool)
    requires !EndsWith(s, " noexcept")
    ensures var full := s + (if isNoexcept then " noexcept" else "");
            EndsWith(full, " noexcept") == isNoexcept
            && (if isNoexcept then full[..|full| - 9] else full) == s
  {
    if isNoexcept {
      var full := s + " noexcept";
      assert full[|full| - 9..] == " noexcept";
      assert full[..|full| - 9] == s;
    }
  }

  /** The qualifier text tells which qualifiers a signature has: reading it
      back gives them again. */
  lemma QualifiersRoundTrip(isConst: bool, ref: RefQualifier, isNoexcept: bool)
    ensures ParseQualifiers(QualifierText(isConst, ref, isNoexcept)) == (isConst, ref, isNoexcept)
  {
    var s1 := ConstRefText(isConst, ref);
    assert QualifierText(isConst, ref, isNoexcept) == s1 + (if isNoexcept then " noexcept" else "");
    ConstRefParses(isConst, ref);
    NoexceptParses(s1, isNoexcept);
  }

  /** The signature printer does not write the call convention: signatures
      differing only there print alike. */
  lemma SignatureOmitsConvention(sig: Signature, callConv: CallConv, d: Demangler)
    requires Printable(Function(sig))
    ensures Printable(Function(sig.(callConv := callConv)))
    ensures Print(Function(sig.(callConv := callConv)), d) == Print(Function(sig), d)
  {
    var other := sig.(callConv := callConv);
    SignatureShape(sig, d);
    SignatureShape(other, d);
    assert other.ret == sig.ret && other.params == sig.params;
    assert other.isConst == sig.isConst && other.ref == sig.ref && other.isNoexcept == sig.isNoexcept;
  }

  /** A class template over type parameters prints as its name, as the demangler
      spells it before the first `<`, followed by its printed arguments joined
      by ", " in angle brackets. */
  lemma TemplateShape(name: string, args: seq<CppType>, rest: string, d: Demangler)
    requires |args| > 0 && '<' !in name
    requires Printable(Template(name, args))
    requires d(Template(name, args)) == name + "<" + rest
    ensures Print(Template(name, args), d) == name + "<" + Text.Join(PrintAll(args, d), ", ") + ">"
  {
    var t := Template(name, args);
    BeforeFirstStops(name, "<" + rest, '<');
    assert name + "<" + rest == name + ("<" + rest);
    assert BeforeFirst(Fallback(t, d), '<') == name;
    ItemsJoin(t, d);
    assert Print(t, d) == BaseName(t, d);
    assert TemplateName(t, d) == Some(name + "<" + Print(args[0], d) + RestText(t, d, 1) + ">");
  }

  lemma {:induction false} BeforeFirstStops(a: string, b: string, c: char)
    requires c !in a && b != [] && b[0] == c
    ensures BeforeFirst(a + b, c) == a
  {
    if a != [] {
      assert (a + b)[1..] == a[1..] + b;
      BeforeFirstStops(a[1..], b, c);
    }
  }

  /** The common printer names vectors and arrays after their element types and
      wins over the template printer. */
  lemma ContainerNames(element: CppType, n: nat, d: Demangler)
    requires Printable(element)
    ensures Print(Vector(element, false), d) == "std::vector<" + Print(element, d) + ">"
    ensures Print(Vector(element, true), d) == "std::pmr::vector<" + Print(element, d) + ">"
    ensures Print(StdArray(element, n), d) == "std::array<" + Print(element, d) + ", " + Text.NatToString(n) + ">"
  {
    assert Print(Vector(element, false), d) == BaseName(Vector(element, false), d);
    assert CommonName(Vector(element, false), d) == Some("std::vector<" + Print(element, d) + ">");
    assert Print(Vector(element, true), d) == BaseName(Vector(element, true), d);
    assert Print(StdArray(element, n), d) == BaseName(StdArray(element, n), d);
  }

  /** Different standard string classes get different names. */
  lemma StringNamesDistinct(k1: CharKind, v1: bool, k2: CharKind, v2: bool)
    requires StringName(k1, v1) == StringName(k2, v2)
    ensures k1 == k2 && v1 == v2
  {
  }
}
