/** The type-name printer of printing/type/PrintType.hpp. `print_type_helper`
    peels the declarator operators off a type (cv-qualifiers, references,
    pointers, array bounds) and writes each one after the name of the type
    beneath it; that name comes from the first of five printers that exists for
    it. The printers themselves live in other files and are given here as a
    record of functions. */
module PrintTypes {
  import opened Wrappers
  import opened Signatures
  import Text

  /** What each printer of the `print_type_to` overload set yields for a type
      without declarator operators: `custom::TypePrinter<T>`, the common
      printer, the signature printer, the template printer (each `None` when
      there is none for the type) and, as the last resort, the prettified
      demangled name. */
  datatype BasePrinters = BasePrinters(
    custom: CppType -> Option<string>,
    common: CppType -> Option<string>,
    signature: CppType -> Option<string>,
    template: CppType -> Option<string>,
    demangled: CppType -> string)

  /** The printers' results in the order `maxPrintTypePriority` tries them. */
  function Candidates(p: BasePrinters, t: CppType): seq<Option<string>>
  {
    [p.custom(t), p.common(t), p.signature(t), p.template(t), Some(p.demangled(t))]
  }

  /** `print_type_to<T>(maxPrintTypePriority, out)`: overload resolution over the
      priority tags picks the highest-priority printer that exists. */
  function BaseName(p: BasePrinters, t: CppType): (r: string)
    ensures exists i :: 0 <= i < 5 && Candidates(p, t)[i] == Some(r)
                        && forall j :: 0 <= j < i ==> Candidates(p, t)[j].None?
  {
    var c := Candidates(p, t);
    if p.custom(t).Some? then
      assert c[0] == Some(p.custom(t).value);
      p.custom(t).value
    else if p.common(t).Some? then
      assert c[1] == Some(p.common(t).value);
      p.common(t).value
    else if p.signature(t).Some? then
      assert c[2] == Some(p.signature(t).value);
      p.signature(t).value
    else if p.template(t).Some? then
      assert c[3] == Some(p.template(t).value);
      p.template(t).value
    else
      assert c[4] == Some(p.demangled(t));
      p.demangled(t)
  }

  /** The text written for a cv-qualification; a qualification naming neither
      `const` nor `volatile` is the unqualified type and adds nothing. */
  function CvText(isConst: bool, isVolatile: bool): string
  {
    if isConst && isVolatile then " const volatile"
    else if isConst then " const"
    else if isVolatile then " volatile"
    else ""
  }

  /** The text written for a cv-qualification tells which one it was. */
  lemma CvTextInjective(c1: bool, v1: bool, c2: bool, v2: bool)
    requires CvText(c1, v1) == CvText(c2, v2)
    ensures c1 == c2 && v1 == v2
  {
  }

  /** The text written for an array bound: `[n]`. */
  function Extent(n: nat): string
  {
    "[" + Text.NatToString(n) + "]"
  }

  /** C++ moves a cv-qualification of an array onto its elements, so `const`
      never sits directly on an array; the cv-specialisations' `!is_array_v<T>`
      constraint relies on that. */
  predicate CvOnElements(t: CppType)
  {
    match t
    case Cv(inner, _, _) => !inner.UnboundedArray? && !inner.BoundedArray? && CvOnElements(inner)
    case LValueReference(inner) => CvOnElements(inner)
    case RValueReference(inner) => CvOnElements(inner)
    case Pointer(inner) => CvOnElements(inner)
    case UnboundedArray(inner) => CvOnElements(inner)
    case BoundedArray(inner, _) => CvOnElements(inner)
    case _ => true
  }

  /** The number of declarator operators around the innermost type. */
  function Depth(t: CppType): nat
  {
    match t
    case Cv(inner, _, _) => 1 + Depth(inner)
    case LValueReference(inner) => 1 + Depth(inner)
    case RValueReference(inner) => 1 + Depth(inner)
    case Pointer(inner) => 1 + Depth(inner)
    case UnboundedArray(inner) => 1 + Depth(inner)
    case BoundedArray(inner, _) => 1 + Depth(inner)
    case _ => 0
  }

  /** The type beneath all declarator operators: the one a printer names. */
  function Innermost(t: CppType): (r: CppType)
    ensures Depth(r) == 0
  {
    match t
    case Cv(inner, _, _) => Innermost(inner)
    case LValueReference(inner) => Innermost(inner)
    case RValueReference(inner) => Innermost(inner)
    case Pointer(inner) => Innermost(inner)
    case UnboundedArray(inner) => Innermost(inner)
    case BoundedArray(inner, _) => Innermost(inner)
    case _ => t
  }

  /** The partial specialisation of `print_type_helper` that matches `t`: the
      type it writes first and the text it appends after it; `None` for the
      primary template, which writes the base name. `T[n][m]` is matched as a
      whole and written as `T[n]` followed by `[m]`. */
  function Specialisation(t: CppType): (r: Option<(CppType, string)>)
    requires CvOnElements(t)
    ensures r.None? <==> Depth(t) == 0
    ensures r.Some? ==> Depth(r.value.0) < Depth(t) && CvOnElements(r.value.0)
                        && Innermost(r.value.0) == Innermost(t)
  {
    match t
    case Cv(inner, isConst, isVolatile) => Some((inner, CvText(isConst, isVolatile)))
    case LValueReference(inner) => Some((inner, "&"))
    case RValueReference(inner) => Some((inner, "&&"))
    case Pointer(inner) => Some((inner, "*"))
    case UnboundedArray(inner) => Some((inner, "[]"))
    case BoundedArray(inner, n) =>
      (match inner
       case BoundedArray(e, m) =>
         assert CvOnElements(inner);
         assert Depth(inner) == 1 + Depth(e) && CvOnElements(e);
         Some((BoundedArray(e, n), Extent(m)))
       case _ => Some((inner, Extent(n))))
    case _ => None
  }

  /** `print_type_helper<T>{}(out)`: writes the name of `t` after `out` and
      returns the extended output. */
  function Write(t: CppType, p: BasePrinters, out: string): (r: string)
    requires CvOnElements(t)
    ensures out <= r
    decreases Depth(t)
  {
    match Specialisation(t)
    case Some((inner, text)) => Write(inner, p, out) + text
    case None => out + BaseName(p, t)
  }

  /** `print_type<T>()`: the name written into an empty string stream. */
  function Print(t: CppType, p: BasePrinters): string
    requires CvOnElements(t)
  {
    Write(t, p, "")
  }

  /** Writing to an output iterator writes exactly the text `print_type<T>()`
      returns: the two overloads of `PrintTypeFn` agree. */
  lemma {:induction false} WriteAppends(t: CppType, p: BasePrinters, out: string)
    requires CvOnElements(t)
    ensures Write(t, p, out) == out + Print(t, p)
    decreases Depth(t)
  {
    match Specialisation(t)
    case Some((inner, text)) =>
      WriteAppends(inner, p, out);
      var name := Print(inner, p);
      assert Write(t, p, out) == (out + name) + text;
      assert Print(t, p) == name + text;
      Text.Assoc(out, name, text);
    case None =>
      assert Print(t, p) == "" + BaseName(p, t);
  }

  /** The suffix rules, stated on whole names: each declarator operator appends
      its spelling to the name of the type it applies to, and `T[n][m]` appends
      `[m]` to the name of `T[n]`. */
  lemma PrintSuffixRules(t: CppType, p: BasePrinters)
    requires CvOnElements(t)
    ensures t.Cv? ==> Print(t, p) == Print(t.inner, p) + CvText(t.isConst, t.isVolatile)
    ensures t.LValueReference? ==> Print(t, p) == Print(t.inner, p) + "&"
    ensures t.RValueReference? ==> Print(t, p) == Print(t.inner, p) + "&&"
    ensures t.Pointer? ==> Print(t, p) == Print(t.inner, p) + "*"
    ensures t.UnboundedArray? ==> Print(t, p) == Print(t.inner, p) + "[]"
    ensures t.BoundedArray? && !t.inner.BoundedArray? ==> Print(t, p) == Print(t.inner, p) + Extent(t.extent)
    ensures t.BoundedArray? && t.inner.BoundedArray? ==>
              CvOnElements(BoundedArray(t.inner.inner, t.extent))
              && Print(t, p) == Print(BoundedArray(t.inner.inner, t.extent), p) + Extent(t.inner.extent)
    ensures Depth(t) == 0 ==> Print(t, p) == BaseName(p, t)
  {
    if Depth(t) == 0 {
      assert Print(t, p) == "" + BaseName(p, t);
    }
  }

  /** A printed name starts with the name of the type beneath all declarator
      operators, as the printers give it. */
  lemma {:induction false} PrintStartsWithBase(t: CppType, p: BasePrinters)
    requires CvOnElements(t)
    ensures BaseName(p, Innermost(t)) <= Print(t, p)
    decreases Depth(t)
  {
    match Specialisation(t)
    case Some((inner, text)) =>
      PrintStartsWithBase(inner, p);
      assert Print(t, p) == Print(inner, p) + text;
    case None =>
      assert Innermost(t) == t;
      assert Print(t, p) == "" + BaseName(p, t);
  }

  /** The declarator text after the base name depends on the type's shape only,
      never on which printer named the base. */
  lemma {:induction false} DeclaratorsIgnorePrinters(t: CppType, p: BasePrinters, q: BasePrinters)
    requires CvOnElements(t)
    ensures BaseName(p, Innermost(t)) <= Print(t, p) && BaseName(q, Innermost(t)) <= Print(t, q)
    ensures Print(t, p)[|BaseName(p, Innermost(t))|..] == Print(t, q)[|BaseName(q, Innermost(t))|..]
    decreases Depth(t)
  {
    PrintStartsWithBase(t, p);
    PrintStartsWithBase(t, q);
    match Specialisation(t)
    case Some((inner, text)) =>
      DeclaratorsIgnorePrinters(inner, p, q);
      assert Print(t, p) == Print(inner, p) + text;
      assert Print(t, q) == Print(inner, q) + text;
      SuffixAfterPrefix(BaseName(p, Innermost(t)), Print(inner, p), text);
      SuffixAfterPrefix(BaseName(q, Innermost(t)), Print(inner, q), text);
    case None =>
      assert Innermost(t) == t;
      assert Print(t, p) == "" + BaseName(p, t);
      assert Print(t, q) == "" + BaseName(q, t);
  }

  /** Dropping a prefix of `s` and then appending `x` is appending first. */
  lemma SuffixAfterPrefix(b: string, s: string, x: string)
    requires b <= s
    ensures b <= s + x && (s + x)[|b|..] == s[|b|..] + x
  {
  }

  /** A two-dimensional array `E[n][m]` prints its bounds in the order they are
      written. */
  lemma TwoDimensionalKeepsOrder(e: CppType, n: nat, m: nat, p: BasePrinters)
    requires CvOnElements(e) && !e.BoundedArray?
    ensures Print(BoundedArray(BoundedArray(e, m), n), p) == Print(e, p) + Extent(n) + Extent(m)
  {
    assert Write(BoundedArray(e, n), p, "") == Print(e, p) + Extent(n);
  }

  /** The type a declaration spells `elem[d1][d2]...[dk]`: `None` is a bound left
      out (`[]`), which C++ permits only as the first one. */
  function ArrayOf(elem: CppType, dims: seq<Option<nat>>): (r: CppType)
    ensures Depth(r) == Depth(elem) + |dims|
  {
    if dims == [] then elem
    else
      var e := ArrayOf(elem, dims[1..]);
      match dims[0]
      case None => UnboundedArray(e)
      case Some(n) => BoundedArray(e, n)
  }

  /** The bounds as a declaration spells them. */
  function DimsText(dims: seq<Option<nat>>): string
  {
    if dims == [] then ""
    else
      match dims[0]
      case None => "[]" + DimsText(dims[1..])
      case Some(n) => Extent(n) + DimsText(dims[1..])
  }

  lemma ArrayOfKeepsCv(elem: CppType, dims: seq<Option<nat>>)
    requires CvOnElements(elem)
    ensures CvOnElements(ArrayOf(elem, dims))
  {
  }

  lemma SmallExtents()
    ensures Extent(1) == "[1]" && Extent(2) == "[2]" && Extent(3) == "[3]"
  {
    assert Text.NatToString(1) == [Text.Digit(1)] == "1";
    assert Text.NatToString(2) == [Text.Digit(2)] == "2";
    assert Text.NatToString(3) == [Text.Digit(3)] == "3";
  }

  lemma ThreeDimensionsSpelled()
    ensures ArrayOf(Named("int"), [Some(1), Some(2), Some(3)])
            == BoundedArray(BoundedArray(BoundedArray(Named("int"), 3), 2), 1)
    ensures DimsText([Some(1), Some(2), Some(3)]) == "[1][2][3]"
  {
    var dims: seq<Option<nat>> := [Some(1), Some(2), Some(3)];
    assert dims[1..] == [Some(2), Some(3)] && dims[1..][1..] == [Some(3)] && dims[1..][1..][1..] == [];
    SmallExtents();
  }

  /** As written, a three-dimensional array prints its last two bounds swapped:
      `int[1][2][3]` prints as `int[1][3][2]`. */
  lemma ThreeDimensionsSwapped(p: BasePrinters)
    ensures var dims := [Some(1), Some(2), Some(3)];
            var t := ArrayOf(Named("int"), dims);
            CvOnElements(t)
            && Print(t, p) == BaseName(p, Named("int")) + "[1][3][2]"
            && Print(t, p) != BaseName(p, Named("int")) + DimsText(dims)
  {
    ThreeDimensionsSpelled();
    SmallExtents();
    var intType := Named("int");
    var base := BaseName(p, intType);
    var t := BoundedArray(BoundedArray(BoundedArray(intType, 3), 2), 1);
    assert Write(BoundedArray(intType, 1), p, "") == base + "[1]";
    assert Write(BoundedArray(BoundedArray(intType, 3), 1), p, "") == base + "[1]" + "[3]";
    assert Print(t, p) == base + "[1]" + "[3]" + "[2]";
    assert (base + "[1][3][2]")[|base| + 4] == '3';
    assert (base + "[1][2][3]")[|base| + 4] == '2';
  }

  /** As written, an array of unknown bound of arrays prints its bounds in the
      wrong order: `int[][2]` prints as `int[2][]`. */
  lemma UnboundedOuterSwapped(p: BasePrinters)
    ensures var dims := [None, Some(2)];
            var t := ArrayOf(Named("int"), dims);
            CvOnElements(t)
            && Print(t, p) == BaseName(p, Named("int")) + "[2][]"
            && Print(t, p) != BaseName(p, Named("int")) + DimsText(dims)
  {
    var dims: seq<Option<nat>> := [None, Some(2)];
    assert dims[1..] == [Some(2)] && dims[1..][1..] == [];
    SmallExtents();
    var intType := Named("int");
    var t := UnboundedArray(BoundedArray(intType, 2));
    assert ArrayOf(intType, dims) == t;
    assert DimsText(dims) == "[][2]";
    var base := BaseName(p, intType);
    assert Print(t, p) == base + "[2]" + "[]";
    assert (base + "[2][]")[|base| + 1] == '2';
    assert (base + "[][2]")[|base| + 1] == ']';
  }

  /** The first type inside a run of array bounds. */
  function ArrayElement(t: CppType): (r: CppType)
    ensures !r.UnboundedArray? && !r.BoundedArray?
    ensures Depth(r) <= Depth(t)
    ensures (t.UnboundedArray? || t.BoundedArray?) ==> Depth(r) < Depth(t)
  {
    match t
    case UnboundedArray(inner) => ArrayElement(inner)
    case BoundedArray(inner, _) => ArrayElement(inner)
    case _ => t
  }

  /** The bounds of a run of arrays, outermost first, as a declaration spells them. */
  function ArrayExtents(t: CppType): string
  {
    match t
    case UnboundedArray(inner) => "[]" + ArrayExtents(inner)
    case BoundedArray(inner, n) => Extent(n) + ArrayExtents(inner)
    case _ => ""
  }

  lemma {:induction false} ArrayElementKeepsCv(t: CppType)
    requires CvOnElements(t)
    ensures CvOnElements(ArrayElement(t))
  {
    match t
    case UnboundedArray(inner) => ArrayElementKeepsCv(inner);
    case BoundedArray(inner, _) => ArrayElementKeepsCv(inner);
    case _ =>
  }

  /** The specialisation the corrected printer uses: an array run is written as
      its element type followed by all of its bounds; everything else is as in
      `Specialisation`. */
  function InOrderSpecialisation(t: CppType): (r: Option<(CppType, string)>)
    requires CvOnElements(t)
    ensures r.None? <==> Depth(t) == 0
    ensures r.Some? ==> Depth(r.value.0) < Depth(t) && CvOnElements(r.value.0)
  {
    if t.UnboundedArray? || t.BoundedArray? then
      ArrayElementKeepsCv(t);
      Some((ArrayElement(t), ArrayExtents(t)))
    else
      Specialisation(t)
  }

  /** `print_type_helper` with the array rule corrected: the element type's name
      followed by every bound of the run, outermost first. */
  function WriteInOrder(t: CppType, p: BasePrinters, out: string): (r: string)
    requires CvOnElements(t)
    ensures out <= r
    decreases Depth(t)
  {
    match InOrderSpecialisation(t)
    case Some((inner, text)) => WriteInOrder(inner, p, out) + text
    case None => out + BaseName(p, t)
  }

  function PrintInOrder(t: CppType, p: BasePrinters): string
    requires CvOnElements(t)
  {
    WriteInOrder(t, p, "")
  }

  lemma {:induction false} ArrayOfParts(elem: CppType, dims: seq<Option<nat>>)
    requires !elem.UnboundedArray? && !elem.BoundedArray?
    ensures ArrayElement(ArrayOf(elem, dims)) == elem
    ensures ArrayExtents(ArrayOf(elem, dims)) == DimsText(dims)
    decreases |dims|
  {
    if dims != [] {
      ArrayOfParts(elem, dims[1..]);
    }
  }

  /** With the corrected rule, an array prints its bounds in the order its
      declaration spells them, however many there are. */
  lemma InOrderKeepsDeclaredOrder(elem: CppType, dims: seq<Option<nat>>, p: BasePrinters)
    requires CvOnElements(elem) && !elem.UnboundedArray? && !elem.BoundedArray?
    ensures CvOnElements(ArrayOf(elem, dims))
    ensures PrintInOrder(ArrayOf(elem, dims), p) == PrintInOrder(elem, p) + DimsText(dims)
  {
    ArrayOfKeepsCv(elem, dims);
    ArrayOfParts(elem, dims);
  }

  /** Array runs of at most two bounds, the last of them known, everywhere in the
      declarator chain: the arrays the source's rules were written for. */
  predicate ShallowArrays(t: CppType)
  {
    match t
    case Cv(inner, _, _) => ShallowArrays(inner)
    case LValueReference(inner) => ShallowArrays(inner)
    case RValueReference(inner) => ShallowArrays(inner)
    case Pointer(inner) => ShallowArrays(inner)
    case UnboundedArray(inner) => !inner.UnboundedArray? && !inner.BoundedArray? && ShallowArrays(inner)
    case BoundedArray(inner, _) =>
      !inner.UnboundedArray?
      && (inner.BoundedArray? ==> !inner.inner.UnboundedArray? && !inner.inner.BoundedArray?)
      && ShallowArrays(inner)
    case _ => true
  }

  /** The correction changes nothing for the arrays the source already prints in
      order. */
  lemma {:induction false} InOrderAgreesOnShallowArrays(t: CppType, p: BasePrinters, out: string)
    requires CvOnElements(t) && ShallowArrays(t)
    ensures WriteInOrder(t, p, out) == Write(t, p, out)
    decreases Depth(t)
  {
    if Depth(t) > 0 {
      SpecialisationsOnShallowArrays(t);
      if t.BoundedArray? && t.inner.BoundedArray? {
        var e, n, m := t.inner.inner, t.extent, t.inner.extent;
        InOrderAgreesOnShallowArrays(e, p, out);
        var w := Write(e, p, out);
        assert WriteInOrder(t, p, out) == w + (Extent(n) + Extent(m));
        assert Write(BoundedArray(e, n), p, out) == w + Extent(n);
        assert Write(t, p, out) == (w + Extent(n)) + Extent(m);
        Text.Assoc(w, Extent(n), Extent(m));
      } else {
        InOrderAgreesOnShallowArrays(Specialisation(t).value.0, p, out);
      }
    }
  }

  /** How both printers split a type whose array runs are shallow. */
  lemma SpecialisationsOnShallowArrays(t: CppType)
    requires CvOnElements(t) && ShallowArrays(t) && Depth(t) > 0
    ensures !(t.BoundedArray? && t.inner.BoundedArray?) ==>
              InOrderSpecialisation(t) == Specialisation(t)
              && ShallowArrays(Specialisation(t).value.0)
    ensures t.BoundedArray? && t.inner.BoundedArray? ==>
              var e, n, m := t.inner.inner, t.extent, t.inner.extent;
              Depth(e) < Depth(t) && CvOnElements(e) && ShallowArrays(e)
              && CvOnElements(BoundedArray(e, n))
              && Specialisation(BoundedArray(e, n)) == Some((e, Extent(n)))
              && Specialisation(t) == Some((BoundedArray(e, n), Extent(m)))
              && InOrderSpecialisation(t) == Some((e, Extent(n) + Extent(m)))
  {
    if t.BoundedArray? && t.inner.BoundedArray? {
      var e := t.inner.inner;
      assert Depth(t.inner) == 1 + Depth(e);
      assert ArrayElement(t.inner) == ArrayElement(e) == e;
      assert ArrayExtents(e) == "";
      assert ArrayExtents(t.inner) == Extent(t.inner.extent) + "";
    } else if t.UnboundedArray? || t.BoundedArray? {
      assert ArrayElement(t) == t.inner && ArrayExtents(t.inner) == "";
      if t.UnboundedArray? {
        assert ArrayExtents(t) == "[]" + "" == "[]";
      } else {
        assert ArrayExtents(t) == Extent(t.extent) + "" == Extent(t.extent);
      }
    }
  }
}
