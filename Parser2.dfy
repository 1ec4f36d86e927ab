/** The second type-name parser (NamerParser2.hpp): a shift-reduce parser whose
    stack holds the tokens below, reduced by matching the kinds of the topmost
    tokens with `determine_longest_suffix`. The parse ends with a single `Type`
    token, which is then walked to produce the visitor's calls. */
module Parser2 {
  import opened Wrappers
  import Lexing
  import NameParsing

  // ---------------------------------------------------------------------------
  // Visitor calls
  // ---------------------------------------------------------------------------

  /** A call a `parser_visitor` receives. */
  datatype Call =
    | Begin | End
    | AddIdentifier(content: string)
    | AddScope | AddArgument
    | AddConst | AddVolatile | AddNoexcept | AddPtr | AddLValueRef | AddRValueRef
    | BeginName | EndName
    | BeginType | EndType
    | BeginTemplate | EndTemplate
    | OpenParenthesis | CloseParenthesis
    | BeginFunction | EndFunction
    | BeginFunctionPtr | EndFunctionPtr
    | BeginReturnType | EndReturnType
    | BeginArgs | EndArgs
    | BeginOperatorIdentifier | EndOperatorIdentifier

  // ---------------------------------------------------------------------------
  // Specs
  // ---------------------------------------------------------------------------

  /** `Specs::Layer`: the qualifications of one pointer level. */
  datatype Layer = Layer(isConst: bool, isVolatile: bool, isNoexcept: bool, isLValueRef: bool, isRValueRef: bool)

  const EmptyLayer := Layer(false, false, false, false, false)

  /** What `Layer::merge` asserts: no flag is set on both sides, and an lvalue
      reference never meets an rvalue reference. */
  predicate Mergeable(a: Layer, b: Layer)
  {
    !(a.isConst && b.isConst) && !(a.isVolatile && b.isVolatile) && !(a.isNoexcept && b.isNoexcept)
    && !(a.isLValueRef && b.isLValueRef) && !(a.isRValueRef && b.isRValueRef)
    && !(a.isLValueRef && b.isRValueRef) && !(a.isRValueRef && b.isLValueRef)
  }

  /** At most one kind of reference. */
  predicate OneRef(l: Layer)
  {
    !(l.isLValueRef && l.isRValueRef)
  }

  /** `Layer::merge`: a flag is set when it is set on either side. */
  function Merge(a: Layer, b: Layer): (r: Layer)
  {
    Layer(a.isConst || b.isConst, a.isVolatile || b.isVolatile, a.isNoexcept || b.isNoexcept,
          a.isLValueRef || b.isLValueRef, a.isRValueRef || b.isRValueRef)
  }

  /** The number of flags a layer has set. */
  function FlagCount(l: Layer): nat
  {
    (if l.isConst then 1 else 0) + (if l.isVolatile then 1 else 0) + (if l.isNoexcept then 1 else 0)
    + (if l.isLValueRef then 1 else 0) + (if l.isRValueRef then 1 else 0)
  }

  /** Merging layers that pass the assertions loses no flag and keeps a single
      kind of reference. */
  lemma MergeKeepsFlags(a: Layer, b: Layer)
    requires Mergeable(a, b) && OneRef(a) && OneRef(b)
    ensures FlagCount(Merge(a, b)) == FlagCount(a) + FlagCount(b)
    ensures OneRef(Merge(a, b))
  {
  }

  /** Merging is commutative, and the empty layer changes nothing. */
  lemma MergeLaws(a: Layer, b: Layer)
    ensures Merge(a, b) == Merge(b, a)
    ensures Merge(a, EmptyLayer) == a && Merge(EmptyLayer, a) == a
  {
  }

  /** A non-empty list of layers (`Specs::operator()` asserts that there is one). */
  type Layers = s: seq<Layer> | 0 < |s| witness [EmptyLayer]

  /** `Specs`: one layer per pointer level, the outermost last. */
  datatype Specs = Specs(layers: Layers)

  /** The default `Specs`: a single empty layer. */
  const DefaultSpecs := Specs([EmptyLayer])

  /** `Specs::has_ptr`. */
  predicate HasPtr(s: Specs)
  {
    1 < |s.layers|
  }

  // ---------------------------------------------------------------------------
  // Tokens
  // ---------------------------------------------------------------------------

  /** A scope of a name. The source stores a callback that reports the
      identifier; the model stores the identifier itself. */
  datatype Scope = Scope(content: string)

  datatype Name = Name(scopes: seq<Scope>)

  datatype ArgList = ArgList(types: seq<Type>)

  datatype Template = Template(argList: ArgList)

  datatype FunctionArgs = FunctionArgs(argList: ArgList)

  datatype FunctionPtr = FunctionPtr(scopes: seq<Scope>, specs: Specs)

  /** What a function type names: nothing, a name, or a function pointer. */
  datatype Description = NoDescription | NameDescription(name: Name) | PtrDescription(ptr: FunctionPtr)

  /** `Type`: a `RegularType` or a `Function`. */
  datatype Type =
    | RegularType(name: Name, templateInfo: Option<Template>, specs: Specs)
    | FunctionType(returnType: Option<Type>, description: Description, templateInfo: Option<Template>,
                   args: FunctionArgs, specs: Specs)

  /** A token of the parser's stack. */
  datatype Token =
    | ArgSeparator | ScopeResolution
    | OpenParens | CloseParens | OpenAngle | CloseAngle
    | OpenCurly | CloseCurly | OpenSquare | CloseSquare
    | NameToken(name: Name)
    | ArgListToken(argList: ArgList)
    | TemplateToken(templateInfo: Template)
    | FunctionArgsToken(args: FunctionArgs)
    | FunctionPtrToken(ptr: FunctionPtr)
    | SpecsToken(specs: Specs)
    | TypeToken(t: Type)

  /** The alternatives of the token variant, as named in `determine_longest_suffix`. */
  datatype Kind =
    | KArgSeparator | KScopeResolution
    | KOpenParens | KCloseParens | KOpenAngle | KCloseAngle
    | KOpenCurly | KCloseCurly | KOpenSquare | KCloseSquare
    | KName | KArgList | KTemplate | KFunctionArgs | KFunctionPtr | KSpecs | KType

  /** `std::holds_alternative`. */
  predicate Holds(t: Token, k: Kind)
  {
    match k
    case KArgSeparator => t.ArgSeparator?
    case KScopeResolution => t.ScopeResolution?
    case KOpenParens => t.OpenParens?
    case KCloseParens => t.CloseParens?
    case KOpenAngle => t.OpenAngle?
    case KCloseAngle => t.CloseAngle?
    case KOpenCurly => t.OpenCurly?
    case KCloseCurly => t.CloseCurly?
    case KOpenSquare => t.OpenSquare?
    case KCloseSquare => t.CloseSquare?
    case KName => t.NameToken?
    case KArgList => t.ArgListToken?
    case KTemplate => t.TemplateToken?
    case KFunctionArgs => t.FunctionArgsToken?
    case KFunctionPtr => t.FunctionPtrToken?
    case KSpecs => t.SpecsToken?
    case KType => t.TypeToken?
  }

  // ---------------------------------------------------------------------------
  // determine_longest_suffix
  // ---------------------------------------------------------------------------

  /** `determine_longest_suffix<kinds...>`: how many of the topmost tokens hold
      the last kinds, counted from the top until the first mismatch. */
  function LongestSuffix(kinds: seq<Kind>, s: seq<Token>): nat
    requires 0 < |kinds|
    decreases |kinds|
  {
    if |s| == 0 || !Holds(s[|s| - 1], kinds[|kinds| - 1]) then 0
    else 1 + if 1 < |kinds| then LongestSuffix(kinds[..|kinds| - 1], s[..|s| - 1]) else 0
  }

  /** The count is at most the number of kinds and the number of tokens. */
  lemma {:induction false} LongestSuffixBound(kinds: seq<Kind>, s: seq<Token>)
    requires 0 < |kinds|
    ensures LongestSuffix(kinds, s) <= |kinds| && LongestSuffix(kinds, s) <= |s|
    decreases |kinds|
  {
    if 0 < |s| && Holds(s[|s| - 1], kinds[|kinds| - 1]) && 1 < |kinds| {
      LongestSuffixBound(kinds[..|kinds| - 1], s[..|s| - 1]);
    }
  }

  /** Every counted token holds its kind: the `i`-th from the top holds the
      `i`-th kind from the end. */
  lemma {:induction false} LongestSuffixHolds(kinds: seq<Kind>, s: seq<Token>, i: nat)
    requires 0 < |kinds| && i < LongestSuffix(kinds, s)
    ensures i < |s| && i < |kinds| && Holds(s[|s| - 1 - i], kinds[|kinds| - 1 - i])
    decreases |kinds|
  {
    if 0 < i {
      LongestSuffixHolds(kinds[..|kinds| - 1], s[..|s| - 1], i - 1);
    }
  }

  /** The count stops at the first token that does not hold its kind. */
  lemma {:induction false} LongestSuffixStops(kinds: seq<Kind>, s: seq<Token>)
    requires 0 < |kinds|
    requires LongestSuffix(kinds, s) < |kinds| && LongestSuffix(kinds, s) < |s|
    ensures !Holds(s[|s| - 1 - LongestSuffix(kinds, s)], kinds[|kinds| - 1 - LongestSuffix(kinds, s)])
    decreases |kinds|
  {
    if Holds(s[|s| - 1], kinds[|kinds| - 1]) {
      LongestSuffixStops(kinds[..|kinds| - 1], s[..|s| - 1]);
    }
  }

  /** Tokens that hold the kinds, pushed on any stack, are counted in full. */
  lemma {:induction false} LongestSuffixOfTail(kinds: seq<Kind>, rest: seq<Token>, tail: seq<Token>)
    requires 0 < |kinds| == |tail|
    requires forall i | 0 <= i < |tail| :: Holds(tail[i], kinds[i])
    ensures LongestSuffix(kinds, rest + tail) == |kinds|
    decreases |kinds|
  {
    var s := rest + tail;
    assert s[|s| - 1] == tail[|tail| - 1];
    if 1 < |kinds| {
      assert s[..|s| - 1] == rest + tail[..|tail| - 1];
      LongestSuffixOfTail(kinds[..|kinds| - 1], rest, tail[..|tail| - 1]);
    }
  }

  /** The count reaches the number of kinds exactly when the topmost tokens hold
      all kinds, in order. */
  lemma LongestSuffixFull(kinds: seq<Kind>, s: seq<Token>)
    requires 0 < |kinds|
    ensures LongestSuffix(kinds, s) == |kinds| <==>
      |kinds| <= |s| && forall i | 0 <= i < |kinds| :: Holds(s[|s| - |kinds| + i], kinds[i])
  {
    if LongestSuffix(kinds, s) == |kinds| {
      LongestSuffixBound(kinds, s);
      forall i | 0 <= i < |kinds|
        ensures Holds(s[|s| - |kinds| + i], kinds[i])
      {
        LongestSuffixHolds(kinds, s, |kinds| - 1 - i);
      }
    }
    if |kinds| <= |s| && forall i | 0 <= i < |kinds| :: Holds(s[|s| - |kinds| + i], kinds[i]) {
      var n := |s| - |kinds|;
      assert s == s[..n] + s[n..];
      LongestSuffixOfTail(kinds, s[..n], s[n..]);
    }
  }

  /** `1u == determine_longest_suffix<T>`: the top holds `T`. */
  predicate Top(s: seq<Token>, k: Kind)
  {
    0 < |s| && Holds(s[|s| - 1], k)
  }

  lemma TopIsSuffix(s: seq<Token>, k: Kind)
    ensures Top(s, k) <==> LongestSuffix([k], s) == 1
  {
  }

  /** The stack without its top, when the top holds `k`. */
  function Below(s: seq<Token>, k: Kind): (r: seq<Token>)
    ensures r == s || (Top(s, k) && r == s[..|s| - 1])
    ensures |r| <= |s| && r == s[..|r|]
  {
    if Top(s, k) then s[..|s| - 1] else s
  }

  /** Every `ArgList` token holds at least one type: it is only ever made from a
      type, and `try_reduce_as_template` and `try_reduce_as_function_args` assert
      it. */
  predicate ArgListsFilled(s: seq<Token>)
  {
    forall i | 0 <= i < |s| :: s[i].ArgListToken? ==> 0 < |s[i].argList.types|
  }

  /** `r` is `s` with its topmost tokens (possibly none) replaced by one token. */
  predicate Rewrites(s: seq<Token>, r: seq<Token>)
  {
    0 < |r| <= |s| + 1 && r[..|r| - 1] == s[..|r| - 1]
  }

  /** A rewrite whose new top is no empty `ArgList` keeps every `ArgList` filled. */
  lemma RewritesFilled(s: seq<Token>, r: seq<Token>)
    requires ArgListsFilled(s) && Rewrites(s, r)
    requires r[|r| - 1].ArgListToken? ==> 0 < |r[|r| - 1].argList.types|
    ensures ArgListsFilled(r)
  {
    forall i | 0 <= i < |r| - 1
      ensures r[i] == s[i]
    {
      assert r[i] == r[..|r| - 1][i];
    }
  }

  // ---------------------------------------------------------------------------
  // Walking the tokens
  // ---------------------------------------------------------------------------

  /** The scopes of a `Name`, separated by `add_scope`. */
  function ScopesCalls(scopes: seq<Scope>): seq<Call>
  {
    if scopes == [] then []
    else [AddIdentifier(scopes[0].content)] + MoreScopesCalls(scopes[1..])
  }

  function MoreScopesCalls(scopes: seq<Scope>): seq<Call>
  {
    if scopes == [] then []
    else [AddScope, AddIdentifier(scopes[0].content)] + MoreScopesCalls(scopes[1..])
  }

  /** `Name::operator()`. */
  function NameCalls(n: Name): seq<Call>
  {
    [BeginName] + ScopesCalls(n.scopes) + [EndName]
  }

  /** One layer: its qualifiers, its reference, then `noexcept`. */
  function LayerCalls(l: Layer): seq<Call>
  {
    (if l.isConst then [AddConst] else [])
    + (if l.isVolatile then [AddVolatile] else [])
    + (if l.isLValueRef then [AddLValueRef] else if l.isRValueRef then [AddRValueRef] else [])
    + (if l.isNoexcept then [AddNoexcept] else [])
  }

  function MoreLayersCalls(layers: seq<Layer>): seq<Call>
  {
    if layers == [] then []
    else [AddPtr] + LayerCalls(layers[0]) + MoreLayersCalls(layers[1..])
  }

  /** `Specs::operator()`: the layers, separated by `add_ptr`. */
  function SpecsCalls(s: Specs): seq<Call>
  {
    LayerCalls(s.layers[0]) + MoreLayersCalls(s.layers[1..])
  }

  /** `ArgList::operator()`: nothing for an empty list, else the types separated
      by `add_argument` between `begin_args` and `end_args`. */
  function ArgListCalls(a: ArgList): seq<Call>
    decreases a, 2
  {
    if a.types == [] then [] else [BeginArgs] + TypesCalls(a, 0) + [EndArgs]
  }

  function TypesCalls(a: ArgList, i: nat): seq<Call>
    requires i < |a.types|
    decreases a, 1, |a.types| - i
  {
    TypeCalls(a.types[i]) + if i + 1 < |a.types| then [AddArgument] + TypesCalls(a, i + 1) else []
  }

  function OptionalTemplateCalls(t: Option<Template>, ghost whole: Type): seq<Call>
    requires t.Some? ==> t.value.argList < whole
    decreases whole, 0
  {
    match t
    case None => []
    case Some(tp) => [BeginTemplate] + ArgListCalls(tp.argList) + [EndTemplate]
  }

  /** `FunctionPtr::operator()`: each scope followed by `add_scope`, then the specs. */
  function PtrScopesCalls(scopes: seq<Scope>): seq<Call>
  {
    if scopes == [] then [] else [AddIdentifier(scopes[0].content), AddScope] + PtrScopesCalls(scopes[1..])
  }

  function DescriptionCalls(d: Description): seq<Call>
  {
    match d
    case NoDescription => []
    case NameDescription(n) => NameCalls(n)
    case PtrDescription(p) => [BeginFunctionPtr] + PtrScopesCalls(p.scopes) + SpecsCalls(p.specs) + [EndFunctionPtr]
  }

  /** `Type::operator()`. */
  function TypeCalls(t: Type): seq<Call>
    decreases t, 3
  {
    match t
    case RegularType(name, templateInfo, specs) =>
      [BeginType] + NameCalls(name) + OptionalTemplateCalls(templateInfo, t) + SpecsCalls(specs) + [EndType]
    case FunctionType(returnType, description, templateInfo, args, specs) =>
      [BeginFunction]
      + (if returnType.Some? then [BeginReturnType] + TypeCalls(returnType.value) + [EndReturnType] else [])
      + DescriptionCalls(description)
      + OptionalTemplateCalls(templateInfo, t)
      + [OpenParenthesis] + ArgListCalls(args.argList) + [CloseParenthesis]
      + SpecsCalls(specs)
      + [EndFunction]
  }

  /** How often `c` occurs in the calls. */
  function Count(s: seq<Call>, c: Call): nat
  {
    if s == [] then 0 else (if s[0] == c then 1 else 0) + Count(s[1..], c)
  }

  lemma {:induction false} CountAppend(a: seq<Call>, b: seq<Call>, c: Call)
    ensures Count(a + b, c) == Count(a, c) + Count(b, c)
    decreases |a|
  {
    if a == [] {
      assert a + b == b;
    } else {
      assert (a + b)[1..] == a[1..] + b;
      CountAppend(a[1..], b, c);
    }
  }

  /** A layer makes no `add_ptr` call. */
  lemma LayerMakesNoPtr(l: Layer)
    ensures Count(LayerCalls(l), AddPtr) == 0
  {
    var q := if l.isConst then [AddConst] else [];
    var v := if l.isVolatile then [AddVolatile] else [];
    var r := if l.isLValueRef then [AddLValueRef] else if l.isRValueRef then [AddRValueRef] else [];
    var n := if l.isNoexcept then [AddNoexcept] else [];
    CountAppend(q, v, AddPtr);
    CountAppend(q + v, r, AddPtr);
    CountAppend(q + v + r, n, AddPtr);
  }

  lemma {:induction false} MoreLayersPtrs(layers: seq<Layer>)
    ensures Count(MoreLayersCalls(layers), AddPtr) == |layers|
    decreases |layers|
  {
    if layers != [] {
      LayerMakesNoPtr(layers[0]);
      CountAppend([AddPtr], LayerCalls(layers[0]), AddPtr);
      CountAppend([AddPtr] + LayerCalls(layers[0]), MoreLayersCalls(layers[1..]), AddPtr);
      MoreLayersPtrs(layers[1..]);
    }
  }

  /** A `Specs` reports one pointer per layer after the first. */
  lemma SpecsPtrCount(s: Specs)
    ensures Count(SpecsCalls(s), AddPtr) == |s.layers| - 1
  {
    LayerMakesNoPtr(s.layers[0]);
    MoreLayersPtrs(s.layers[1..]);
    CountAppend(LayerCalls(s.layers[0]), MoreLayersCalls(s.layers[1..]), AddPtr);
  }

  lemma {:induction false} MoreScopesCount(scopes: seq<Scope>)
    ensures Count(MoreScopesCalls(scopes), AddScope) == |scopes|
    decreases |scopes|
  {
    if scopes != [] {
      CountAppend([AddScope, AddIdentifier(scopes[0].content)], MoreScopesCalls(scopes[1..]), AddScope);
      MoreScopesCount(scopes[1..]);
    }
  }

  /** A `Name` reports one `add_scope` between each two scopes. */
  lemma NameScopeCount(n: Name)
    requires 0 < |n.scopes|
    ensures Count(NameCalls(n), AddScope) == |n.scopes| - 1
  {
    var inner := [AddIdentifier(n.scopes[0].content)] + MoreScopesCalls(n.scopes[1..]);
    MoreScopesCount(n.scopes[1..]);
    CountAppend([AddIdentifier(n.scopes[0].content)], MoreScopesCalls(n.scopes[1..]), AddScope);
    CountAppend([BeginName], inner, AddScope);
    CountAppend([BeginName] + inner, [EndName], AddScope);
  }

  // ---------------------------------------------------------------------------
  // Reductions, as functions of the stack
  // ---------------------------------------------------------------------------

  const TypeArg := [KArgList, KArgSeparator, KType]
  const SeparatedArgList := [KArgList, KArgSeparator]
  const TemplateWithArgs := [KName, KOpenAngle, KArgList, KCloseAngle]
  const TemplateWithoutArgs := [KName, KOpenAngle, KCloseAngle]
  const ArgsWithTypes := [KOpenParens, KArgList, KCloseParens]
  const ArgsWithoutTypes := [KOpenParens, KCloseParens]
  const QualifiedName := [KName, KScopeResolution]
  const MemberPtr := [KOpenParens, KName, KScopeResolution, KSpecs, KCloseParens]
  const FreePtr := [KOpenParens, KSpecs, KCloseParens]

  /** `try_reduce_as_arg_list`. */
  function ArgListReduction(s: seq<Token>): (r: Option<seq<Token>>)
    ensures r.Some? <==> Top(s, KType)
    ensures r.Some? ==> Rewrites(s, r.value) && Top(r.value, KArgList)
    ensures r.Some? ==> var a := r.value[|r.value| - 1].argList;
                        0 < |a.types| && a.types[|a.types| - 1] == s[|s| - 1].t
  {
    if 0 < LongestSuffix(TypeArg, s) then
      var t := s[|s| - 1].t;
      var below := s[..|s| - 1];
      if LongestSuffix(SeparatedArgList, below) == 2 then
        LongestSuffixHolds(SeparatedArgList, below, 1);
        Some(below[..|below| - 2] + [ArgListToken(ArgList(below[|below| - 2].argList.types + [t]))])
      else
        Some(below + [ArgListToken(ArgList([t]))])
    else None
  }

  /** `try_reduce_as_template`: the `Name` stays, the brackets and the list become
      a `Template`. */
  function TemplateReduction(s: seq<Token>): (r: Option<seq<Token>>)
    ensures r.Some? ==> Top(s, KCloseAngle) && Rewrites(s, r.value) && Top(r.value, KTemplate)
    ensures r.Some? ==> Top(r.value[..|r.value| - 1], KName)
  {
    if 4 == LongestSuffix(TemplateWithArgs, s) then
      LongestSuffixHolds(TemplateWithArgs, s, 1);
      LongestSuffixHolds(TemplateWithArgs, s, 3);
      Some(s[..|s| - 3] + [TemplateToken(Template(s[|s| - 2].argList))])
    else if 3 == LongestSuffix(TemplateWithoutArgs, s) then
      LongestSuffixHolds(TemplateWithoutArgs, s, 2);
      Some(s[..|s| - 2] + [TemplateToken(Template(ArgList([])))])
    else None
  }

  /** `try_reduce_as_function_args`. */
  function FunctionArgsReduction(s: seq<Token>): (r: Option<seq<Token>>)
    ensures r.Some? ==> Top(s, KCloseParens) && Rewrites(s, r.value) && Top(r.value, KFunctionArgs)
  {
    if 3 == LongestSuffix(ArgsWithTypes, s) then
      LongestSuffixHolds(ArgsWithTypes, s, 1);
      LongestSuffixBound(ArgsWithTypes, s);
      Some(s[..|s| - 3] + [FunctionArgsToken(FunctionArgs(s[|s| - 2].argList))])
    else if 2 == LongestSuffix(ArgsWithoutTypes, s) then
      LongestSuffixBound(ArgsWithoutTypes, s);
      Some(s[..|s| - 2] + [FunctionArgsToken(FunctionArgs(ArgList([])))])
    else None
  }

  /** The `Specs` on top, or the default one. */
  function TopSpecs(s: seq<Token>): Specs
  {
    if Top(s, KSpecs) then s[|s| - 1].specs else DefaultSpecs
  }

  /** The `Template` on top, if there is one. */
  function TopTemplate(s: seq<Token>): Option<Template>
  {
    if Top(s, KTemplate) then Some(s[|s| - 1].templateInfo) else None
  }

  /** A `Name`, or else a `FunctionPtr`, on top describes a function. */
  function TopDescription(s: seq<Token>): Description
  {
    if Top(s, KName) then NameDescription(s[|s| - 1].name)
    else if Top(s, KFunctionPtr) then PtrDescription(s[|s| - 1].ptr)
    else NoDescription
  }

  /** The stack without the description on top. */
  function BelowDescription(s: seq<Token>): (r: seq<Token>)
    ensures |r| <= |s| && r == s[..|r|]
  {
    if Top(s, KName) then s[..|s| - 1] else Below(s, KFunctionPtr)
  }

  /** The `Type` on top, if there is one: a function's return type. */
  function TopType(s: seq<Token>): Option<Type>
  {
    if Top(s, KType) then Some(s[|s| - 1].t) else None
  }

  /** `try_reduce_as_function`: optional `Specs`, the required `FunctionArgs`,
      then optionally a `Template`, a `Name` or else a `FunctionPtr`, and a return
      `Type`, from the top down (`1u == determine_longest_suffix<T>` is `Top`, see
      `TopIsSuffix`); the stack is cut to what is left below them. */
  function FunctionReduction(s: seq<Token>): (r: Option<seq<Token>>)
    ensures r.Some? <==> Top(Below(s, KSpecs), KFunctionArgs)
    ensures r.Some? ==> Rewrites(s, r.value) && Top(r.value, KType) && r.value[|r.value| - 1].t.FunctionType?
  {
    var s1 := Below(s, KSpecs);
    if !Top(s1, KFunctionArgs) then None
    else
      var s2 := s1[..|s1| - 1];
      var s3 := Below(s2, KTemplate);
      var s4 := BelowDescription(s3);
      var f := FunctionType(TopType(s4), TopDescription(s3), TopTemplate(s2), s1[|s1| - 1].args, TopSpecs(s));
      Some(s[..|Below(s4, KType)|] + [TypeToken(f)])
  }

  /** The specs of a type with a prefix `Specs` merged into its first layer. */
  function PrefixMerged(specs: Specs, prefix: Specs): Specs
  {
    Specs([Merge(specs.layers[0], prefix.layers[0])] + specs.layers[1..])
  }

  /** `try_reduce_as_regular_type`: optional `Specs`, an optional `Template` and the
      required `Name`, from the top down; a `Specs` below the name (`const T`) is
      merged into the first layer of the type's specs. */
  function RegularTypeReduction(s: seq<Token>): (r: Option<seq<Token>>)
    ensures r.Some? <==> Top(Below(Below(s, KSpecs), KTemplate), KName)
    ensures r.Some? ==> Rewrites(s, r.value) && Top(r.value, KType) && r.value[|r.value| - 1].t.RegularType?
  {
    var s1 := Below(s, KSpecs);
    var s2 := Below(s1, KTemplate);
    if !Top(s2, KName) then None
    else
      var s3 := s2[..|s2| - 1];
      var specs := TopSpecs(s);
      var t := RegularType(
        s2[|s2| - 1].name,
        TopTemplate(s1),
        if Top(s3, KSpecs) then PrefixMerged(specs, s3[|s3| - 1].specs) else specs);
      Some(s[..|Below(s3, KSpecs)|] + [TypeToken(t)])
  }

  /** `try_reduce_as_type`. */
  function TypeReduction(s: seq<Token>): (r: Option<seq<Token>>)
    ensures r.Some? <==> FunctionReduction(s).Some? || RegularTypeReduction(s).Some?
    ensures r.Some? ==> Rewrites(s, r.value) && Top(r.value, KType)
  {
    match FunctionReduction(s)
    case Some(r) => Some(r)
    case None => RegularTypeReduction(s)
  }

  /** The stack after `try_reduce_as_type`, whose result is ignored. */
  function TypeOrSame(s: seq<Token>): (r: seq<Token>)
    ensures r == s || (Rewrites(s, r) && Top(r, KType))
  {
    match TypeReduction(s)
    case Some(r) => r
    case None => s
  }

  /** The stack after `try_reduce_as_type() && try_reduce_as_arg_list()`. */
  function ArgOrSame(s: seq<Token>): (r: seq<Token>)
    ensures r == s || (Rewrites(s, r) && Top(r, KArgList) && 0 < |r[|r| - 1].argList.types|)
  {
    match TypeReduction(s)
    case None => s
    case Some(s1) =>
      match ArgListReduction(s1)
      case Some(s2) => s2
      case None => s1
  }

  /** `reduce_as_name`: after reducing a type, a scope extends the `Name` below a
      `::`; a `::` with no `Name` below it is dropped; otherwise the scope starts a
      new `Name`. */
  function NameReduction(s: seq<Token>, scope: Scope): (r: seq<Token>)
    ensures Top(r, KName) && var scopes := r[|r| - 1].name.scopes; 0 < |scopes| && scopes[|scopes| - 1] == scope
  {
    var s1 := TypeOrSame(s);
    var n := LongestSuffix(QualifiedName, s1);
    if n == 2 then
      LongestSuffixHolds(QualifiedName, s1, 1);
      s1[..|s1| - 2] + [NameToken(Name(s1[|s1| - 2].name.scopes + [scope]))]
    else if n == 1 then s1[..|s1| - 1] + [NameToken(Name([scope]))]
    else s1 + [NameToken(Name([scope]))]
  }

  /** `reduce_as_specs`: the layer is merged into the last layer of the `Specs` on
      top, or becomes a new `Specs`. */
  function SpecsReduction(s: seq<Token>, layer: Layer): (r: seq<Token>)
    ensures Rewrites(s, r) && Top(r, KSpecs) && |r| == |s| + if Top(s, KSpecs) then 0 else 1
    ensures var layers := r[|r| - 1].specs.layers;
            if Top(s, KSpecs) then
              var before := s[|s| - 1].specs.layers;
              |layers| == |before| && layers[..|layers| - 1] == before[..|before| - 1] && layers[|layers| - 1] == Merge(before[|before| - 1], layer)
            else layers == [layer]
  {
    if Top(s, KSpecs) then
      var layers := s[|s| - 1].specs.layers;
      s[..|s| - 1] + [SpecsToken(Specs(layers[..|layers| - 1] + [Merge(layers[|layers| - 1], layer)]))]
    else s + [SpecsToken(Specs([layer]))]
  }

  /** `reduce_as_specs_layer` (a `*`): a new empty layer on the `Specs` on top, or a
      new `Specs` with two empty layers. */
  function SpecsLayerReduction(s: seq<Token>): (r: seq<Token>)
    ensures Rewrites(s, r) && Top(r, KSpecs) && |r| == |s| + if Top(s, KSpecs) then 0 else 1
    ensures var layers := r[|r| - 1].specs.layers;
            layers[|layers| - 1] == EmptyLayer
            && |layers| == if Top(s, KSpecs) then |s[|s| - 1].specs.layers| + 1 else 2
  {
    if Top(s, KSpecs) then s[..|s| - 1] + [SpecsToken(Specs(s[|s| - 1].specs.layers + [EmptyLayer]))]
    else s + [SpecsToken(Specs([EmptyLayer, EmptyLayer]))]
  }

  /** `try_reduce_as_member_function_ptr`: `( Name :: Specs )`. */
  function MemberFunctionPtrReduction(s: seq<Token>): (r: Option<seq<Token>>)
    ensures r.Some? ==> Top(s, KCloseParens) && Rewrites(s, r.value) && Top(r.value, KFunctionPtr)
  {
    if 5 == LongestSuffix(MemberPtr, s) then
      LongestSuffixHolds(MemberPtr, s, 1);
      LongestSuffixHolds(MemberPtr, s, 3);
      LongestSuffixHolds(MemberPtr, s, 4);
      Some(s[..|s| - 5] + [FunctionPtrToken(FunctionPtr(s[|s| - 4].name.scopes, s[|s| - 2].specs))])
    else None
  }

  /** `try_reduce_as_free_function_ptr`: `( Specs )`. */
  function FreeFunctionPtrReduction(s: seq<Token>): (r: Option<seq<Token>>)
    ensures r.Some? ==> Top(s, KCloseParens) && Rewrites(s, r.value) && Top(r.value, KFunctionPtr)
    ensures r.Some? ==> r.value[|r.value| - 1].ptr.scopes == []
  {
    if 3 == LongestSuffix(FreePtr, s) then
      LongestSuffixHolds(FreePtr, s, 1);
      LongestSuffixHolds(FreePtr, s, 2);
      Some(s[..|s| - 3] + [FunctionPtrToken(FunctionPtr([], s[|s| - 2].specs))])
    else None
  }

  /** `try_reduce_as_function_ptr`. */
  function FunctionPtrReduction(s: seq<Token>): (r: Option<seq<Token>>)
    ensures r.Some? ==> Rewrites(s, r.value) && Top(r.value, KFunctionPtr)
  {
    match FreeFunctionPtrReduction(s)
    case Some(r) => Some(r)
    case None => MemberFunctionPtrReduction(s)
  }

  // ---------------------------------------------------------------------------
  // Handling the lexer's tokens
  // ---------------------------------------------------------------------------

  const LValueRefLayer := Layer(false, false, false, true, false)
  const RValueRefLayer := Layer(false, false, false, false, true)
  const ConstLayer := Layer(true, false, false, false, false)
  const VolatileLayer := Layer(false, true, false, false, false)
  const NoexceptLayer := Layer(false, false, true, false, false)

  /** A space before `(` may end a return type (`ret ()`). */
  function SpaceStep(s: seq<Token>, peek: Lexing.Token): seq<Token>
  {
    if NameParsing.IsOp(peek, "(") then TypeOrSame(s) else s
  }

  /** A `)`: after it is pushed, a `(` coming next makes the parenthesis a function
      pointer when it can be one; otherwise the parentheses become function
      arguments, and the source tries that a second time. */
  function CloseParensStep(s: seq<Token>, peek: Lexing.Token): seq<Token>
  {
    var s1 := ArgOrSame(s) + [CloseParens];
    if NameParsing.IsOp(peek, "(") && FunctionPtrReduction(s1).Some? then FunctionPtrReduction(s1).value
    else
      match FunctionArgsReduction(s1)
      case None => s1
      case Some(s2) =>
        match FunctionArgsReduction(s2)
        case Some(s3) => s3
        case None => s2
  }

  /** `handle_lexer_token` for an operator or punctuator; the others are ignored. */
  function OperatorStep(s: seq<Token>, t: Lexing.Token, peek: Lexing.Token): seq<Token>
  {
    if NameParsing.IsOp(t, "::") then s + [ScopeResolution]
    else if NameParsing.IsOp(t, ",") then ArgOrSame(s) + [ArgSeparator]
    else if NameParsing.IsOp(t, "&") then SpecsReduction(s, LValueRefLayer)
    else if NameParsing.IsOp(t, "&&") then SpecsReduction(s, RValueRefLayer)
    else if NameParsing.IsOp(t, "*") then SpecsLayerReduction(s)
    else if NameParsing.IsOp(t, "(") then s + [OpenParens]
    else if NameParsing.IsOp(t, ")") then CloseParensStep(s, peek)
    else if NameParsing.IsOp(t, "<") then s + [OpenAngle]
    else if NameParsing.IsOp(t, ">") then
      var s1 := ArgOrSame(s) + [CloseAngle];
      match TemplateReduction(s1)
      case Some(s2) => s2
      case None => s1
    else if NameParsing.IsOp(t, "{") then s + [OpenCurly]
    else if NameParsing.IsOp(t, "}") then s + [CloseCurly]
    else if NameParsing.IsOp(t, "[") then s + [OpenSquare]
    else if NameParsing.IsOp(t, "]") then s + [CloseSquare]
    else s
  }

  /** `handle_lexer_token` for a keyword: `const`, `volatile` and `noexcept` are
      specs, the others are ignored. */
  function KeywordStep(s: seq<Token>, t: Lexing.Token): seq<Token>
  {
    if NameParsing.IsKeyword(t, "const") then SpecsReduction(s, ConstLayer)
    else if NameParsing.IsKeyword(t, "volatile") then SpecsReduction(s, VolatileLayer)
    else if NameParsing.IsKeyword(t, "noexcept") then SpecsReduction(s, NoexceptLayer)
    else s
  }

  /** Handling one token of the lexer, with the token `peek` shows next. */
  function Step(s: seq<Token>, t: Lexing.Token, peek: Lexing.Token): seq<Token>
  {
    match t.classification
    case End => s
    case Space => SpaceStep(s, peek)
    case Identifier(content) => NameReduction(s, Scope(content))
    case OperatorOrPunctuator(_) => OperatorStep(s, t, peek)
    case Keyword(_) => KeywordStep(s, t)
  }

  /** The end state: after reducing a type, a single `Type` must be left (both
      asserted by the source); None when it is not. */
  function Finish(s: seq<Token>): (r: Option<Type>)
  {
    var s1 := TypeOrSame(s);
    if |s1| == 1 && s1[0].TypeToken? then Some(s1[0].t) else None
  }

  /** The loop of `NameParser::operator()`: the stack once every token up to the
      end token is handled. */
  function Consume(s: seq<Token>, t: Lexing.Token, l: NameParsing.LexerState): seq<Token>
    requires NameParsing.Settled(l)
    decreases NameParsing.Remaining(l), if t.classification.End? then 0 else 1
  {
    if t.classification.End? then s
    else
      var next := NameParsing.Advance(l);
      Consume(Step(s, t, l.next), next.0, next.1)
  }

  /** The calls of `NameParser::operator()`: `begin`, the walk of the resulting
      type and `end`; None when the end state is not a single type. */
  function ParseInput(l: NameParsing.LexerState): Option<seq<Call>>
    requires NameParsing.Settled(l)
  {
    var first := NameParsing.Advance(l);
    match Finish(Consume([], first.0, first.1))
    case None => None
    case Some(t) => Some([Begin] + TypeCalls(t) + [End])
  }

  /** `NameParser::operator()` on a name. */
  function Parse(tables: Lexing.Tables, name: string): Option<seq<Call>>
    requires Lexing.ValidTables(tables)
  {
    ParseInput(NameParsing.Start(tables, name))
  }

  // ---------------------------------------------------------------------------
  // What the reductions do
  // ---------------------------------------------------------------------------

  /** `ArgList , Type` joins the type to the list. */
  lemma ArgListJoins(rest: seq<Token>, a: ArgList, t: Type)
    ensures ArgListReduction(rest + [ArgListToken(a), ArgSeparator, TypeToken(t)])
         == Some(rest + [ArgListToken(ArgList(a.types + [t]))])
  {
    var s := rest + [ArgListToken(a), ArgSeparator, TypeToken(t)];
    var below := s[..|s| - 1];
    assert below == rest + [ArgListToken(a), ArgSeparator];
    LongestSuffixOfTail(SeparatedArgList, rest, [ArgListToken(a), ArgSeparator]);
    assert below[..|below| - 2] == rest;
  }

  /** A type with no `ArgList ,` below it starts a list of its own. */
  lemma ArgListStarts(s: seq<Token>, t: Type)
    requires !(2 <= |s| && s[|s| - 2].ArgListToken? && s[|s| - 1].ArgSeparator?)
    ensures ArgListReduction(s + [TypeToken(t)]) == Some(s + [ArgListToken(ArgList([t]))])
  {
    var s' := s + [TypeToken(t)];
    assert s'[..|s'| - 1] == s;
    if LongestSuffix(SeparatedArgList, s) == 2 {
      LongestSuffixHolds(SeparatedArgList, s, 0);
      LongestSuffixHolds(SeparatedArgList, s, 1);
    }
  }

  /** `Name < ArgList >` becomes `Name Template(args)`. */
  lemma TemplateWithArgsForms(rest: seq<Token>, n: Name, a: ArgList)
    ensures TemplateReduction(rest + [NameToken(n), OpenAngle, ArgListToken(a), CloseAngle])
         == Some(rest + [NameToken(n), TemplateToken(Template(a))])
  {
    var s := rest + [NameToken(n), OpenAngle, ArgListToken(a), CloseAngle];
    LongestSuffixOfTail(TemplateWithArgs, rest, [NameToken(n), OpenAngle, ArgListToken(a), CloseAngle]);
    assert s[|s| - 2] == ArgListToken(a);
    assert s[..|s| - 3] == rest + [NameToken(n)];
    assert rest + [NameToken(n)] + [TemplateToken(Template(a))] == rest + [NameToken(n), TemplateToken(Template(a))];
  }

  /** `Name < >` becomes `Name Template()`. */
  lemma TemplateWithoutArgsForms(rest: seq<Token>, n: Name)
    ensures TemplateReduction(rest + [NameToken(n), OpenAngle, CloseAngle])
         == Some(rest + [NameToken(n), TemplateToken(Template(ArgList([])))])
  {
    var s := rest + [NameToken(n), OpenAngle, CloseAngle];
    LongestSuffixOfTail(TemplateWithoutArgs, rest, [NameToken(n), OpenAngle, CloseAngle]);
    assert s[..|s| - 2] == rest + [NameToken(n)];
    assert rest + [NameToken(n)] + [TemplateToken(Template(ArgList([])))]
        == rest + [NameToken(n), TemplateToken(Template(ArgList([])))];
  }

  /** `( ArgList )` becomes `FunctionArgs(args)`. */
  lemma FunctionArgsWithTypesForms(rest: seq<Token>, a: ArgList)
    ensures FunctionArgsReduction(rest + [OpenParens, ArgListToken(a), CloseParens])
         == Some(rest + [FunctionArgsToken(FunctionArgs(a))])
  {
    var s := rest + [OpenParens, ArgListToken(a), CloseParens];
    LongestSuffixOfTail(ArgsWithTypes, rest, [OpenParens, ArgListToken(a), CloseParens]);
    assert s[..|s| - 3] == rest;
  }

  /** `( )` becomes an empty `FunctionArgs`. */
  lemma FunctionArgsWithoutTypesForms(rest: seq<Token>)
    ensures FunctionArgsReduction(rest + [OpenParens, CloseParens])
         == Some(rest + [FunctionArgsToken(FunctionArgs(ArgList([])))])
  {
    var s := rest + [OpenParens, CloseParens];
    LongestSuffixOfTail(ArgsWithoutTypes, rest, [OpenParens, CloseParens]);
    if 3 == LongestSuffix(ArgsWithTypes, s) {
      LongestSuffixHolds(ArgsWithTypes, s, 1);
    }
    assert s[..|s| - 2] == rest;
  }

  /** No type is reduced while a `::` is on top. */
  lemma NoTypeAtScopeResolution(s: seq<Token>)
    requires Top(s, KScopeResolution)
    ensures TypeOrSame(s) == s
  {
    assert Below(s, KSpecs) == s && Below(s, KTemplate) == s;
    assert FunctionReduction(s) == None;
    assert RegularTypeReduction(s) == None;
  }

  /** `Name :: x` appends the scope `x` to the name. */
  lemma NameExtends(rest: seq<Token>, n: Name, scope: Scope)
    ensures NameReduction(rest + [NameToken(n), ScopeResolution], scope)
         == rest + [NameToken(Name(n.scopes + [scope]))]
  {
    var s := rest + [NameToken(n), ScopeResolution];
    NoTypeAtScopeResolution(s);
    LongestSuffixOfTail(QualifiedName, rest, [NameToken(n), ScopeResolution]);
    assert s[..|s| - 2] == rest;
  }

  /** A leading `::` with no `Name` below it is dropped. */
  lemma NameDropsLeadingScope(rest: seq<Token>, scope: Scope)
    requires !Top(rest, KName)
    ensures NameReduction(rest + [ScopeResolution], scope) == rest + [NameToken(Name([scope]))]
  {
    var s := rest + [ScopeResolution];
    NoTypeAtScopeResolution(s);
    assert s[..|s| - 1] == rest;
  }

  /** A prefix `Specs` (`const T`) is merged into the first layer of the type. */
  lemma PrefixSpecsMerge(rest: seq<Token>, prefix: Specs, n: Name)
    requires !Top(rest, KSpecs)
    ensures RegularTypeReduction(rest + [SpecsToken(prefix), NameToken(n)])
         == Some(rest + [TypeToken(RegularType(n, None, Specs([prefix.layers[0]])))])
  {
    var s := rest + [SpecsToken(prefix), NameToken(n)];
    var s3 := rest + [SpecsToken(prefix)];
    assert Below(s, KSpecs) == s && Below(s, KTemplate) == s;
    assert s[..|s| - 1] == s3;
    assert Below(s3, KSpecs) == rest;
    assert s[..|rest|] == rest;
    assert PrefixMerged(DefaultSpecs, prefix) == Specs([prefix.layers[0]]) by {
      MergeLaws(prefix.layers[0], EmptyLayer);
      assert DefaultSpecs.layers[1..] == [];
      assert [prefix.layers[0]] + [] == [prefix.layers[0]];
    }
  }

  /** `ret name(args)` becomes a function type with that return type. */
  lemma FunctionForms(rest: seq<Token>, ret: Type, n: Name, args: FunctionArgs)
    requires !Top(rest, KType)
    ensures FunctionReduction(rest + [TypeToken(ret), NameToken(n), FunctionArgsToken(args)])
         == Some(rest + [TypeToken(FunctionType(Some(ret), NameDescription(n), None, args, DefaultSpecs))])
  {
    var s := rest + [TypeToken(ret), NameToken(n), FunctionArgsToken(args)];
    var s2 := rest + [TypeToken(ret), NameToken(n)];
    var s4 := rest + [TypeToken(ret)];
    FunctionFormsSlices(rest, ret, n, args);
    assert Below(s, KSpecs) == s && TopSpecs(s) == DefaultSpecs;
    assert Below(s2, KTemplate) == s2 && TopTemplate(s2) == None;
    assert BelowDescription(s2) == s4 && TopDescription(s2) == NameDescription(n);
    assert Below(s4, KType) == rest && TopType(s4) == Some(ret);
  }

  lemma FunctionFormsSlices(rest: seq<Token>, ret: Type, n: Name, args: FunctionArgs)
    ensures var s := rest + [TypeToken(ret), NameToken(n), FunctionArgsToken(args)];
            s[..|s| - 1] == rest + [TypeToken(ret), NameToken(n)] && s[..|rest|] == rest
    ensures (rest + [TypeToken(ret), NameToken(n)])[..|rest| + 1] == rest + [TypeToken(ret)]
    ensures (rest + [TypeToken(ret)])[..|rest|] == rest
  {
    var s := rest + [TypeToken(ret), NameToken(n), FunctionArgsToken(args)];
    assert s[..|s| - 1] == rest + [TypeToken(ret), NameToken(n)];
    assert s[..|rest|] == rest;
    assert (rest + [TypeToken(ret), NameToken(n)])[..|rest| + 1] == rest + [TypeToken(ret)];
  }

  /** A single name is a regular type without specs at the end. */
  lemma FinishName(n: Name)
    ensures Finish([NameToken(n)]) == Some(RegularType(n, None, DefaultSpecs))
  {
    assert [NameToken(n)][..0] == [];
  }

  // ---------------------------------------------------------------------------
  // Every ArgList token holds a type
  // ---------------------------------------------------------------------------

  lemma TypeKeepsFilled(s: seq<Token>)
    requires ArgListsFilled(s)
    ensures ArgListsFilled(TypeOrSame(s))
  {
    if TypeOrSame(s) != s {
      RewritesFilled(s, TypeOrSame(s));
    }
  }

  lemma ArgKeepsFilled(s: seq<Token>)
    requires ArgListsFilled(s)
    ensures ArgListsFilled(ArgOrSame(s))
  {
    if ArgOrSame(s) != s {
      RewritesFilled(s, ArgOrSame(s));
    }
  }

  lemma PushKeepsFilled(s: seq<Token>, t: Token)
    requires ArgListsFilled(s) && !t.ArgListToken?
    ensures ArgListsFilled(s + [t])
  {
    RewritesFilled(s, s + [t]);
  }

  lemma OptionKeepsFilled(s: seq<Token>, r: Option<seq<Token>>)
    requires ArgListsFilled(s)
    requires r.Some? ==> Rewrites(s, r.value) && !r.value[|r.value| - 1].ArgListToken?
    ensures ArgListsFilled(match r case Some(r') => r' case None => s)
  {
    if r.Some? {
      RewritesFilled(s, r.value);
    }
  }

  lemma NameKeepsFilled(s: seq<Token>, scope: Scope)
    requires ArgListsFilled(s)
    ensures ArgListsFilled(NameReduction(s, scope))
  {
    TypeKeepsFilled(s);
    var s1 := TypeOrSame(s);
    var r := NameReduction(s, scope);
    if LongestSuffix(QualifiedName, s1) == 2 {
      LongestSuffixBound(QualifiedName, s1);
      assert r[..|r| - 1] == s1[..|r| - 1];
    } else if LongestSuffix(QualifiedName, s1) == 1 {
      assert r[..|r| - 1] == s1[..|r| - 1];
    } else {
      assert r[..|r| - 1] == s1;
    }
    RewritesFilled(s1, r);
  }

  lemma FunctionPtrKeepsFilled(s: seq<Token>)
    requires ArgListsFilled(s) && FunctionPtrReduction(s).Some?
    ensures ArgListsFilled(FunctionPtrReduction(s).value)
  {
    RewritesFilled(s, FunctionPtrReduction(s).value);
  }

  lemma FunctionArgsKeepsFilled(s: seq<Token>)
    requires ArgListsFilled(s) && FunctionArgsReduction(s).Some?
    ensures ArgListsFilled(FunctionArgsReduction(s).value)
  {
    RewritesFilled(s, FunctionArgsReduction(s).value);
  }

  lemma TemplateKeepsFilled(s: seq<Token>)
    requires ArgListsFilled(s) && TemplateReduction(s).Some?
    ensures ArgListsFilled(TemplateReduction(s).value)
  {
    RewritesFilled(s, TemplateReduction(s).value);
  }

  lemma CloseParensKeepsFilled(s: seq<Token>, peek: Lexing.Token)
    requires ArgListsFilled(s)
    ensures ArgListsFilled(CloseParensStep(s, peek))
  {
    ArgKeepsFilled(s);
    var s1 := ArgOrSame(s) + [CloseParens];
    PushKeepsFilled(ArgOrSame(s), CloseParens);
    if NameParsing.IsOp(peek, "(") && FunctionPtrReduction(s1).Some? {
      FunctionPtrKeepsFilled(s1);
    } else if FunctionArgsReduction(s1).Some? {
      var s2 := FunctionArgsReduction(s1).value;
      FunctionArgsKeepsFilled(s1);
      if FunctionArgsReduction(s2).Some? {
        FunctionArgsKeepsFilled(s2);
      }
    }
  }

  lemma CloseAngleKeepsFilled(s: seq<Token>)
    requires ArgListsFilled(s)
    ensures ArgListsFilled(match TemplateReduction(ArgOrSame(s) + [CloseAngle])
                           case Some(s2) => s2
                           case None => ArgOrSame(s) + [CloseAngle])
  {
    ArgKeepsFilled(s);
    PushKeepsFilled(ArgOrSame(s), CloseAngle);
    if TemplateReduction(ArgOrSame(s) + [CloseAngle]).Some? {
      TemplateKeepsFilled(ArgOrSame(s) + [CloseAngle]);
    }
  }

  lemma OperatorKeepsFilled(s: seq<Token>, t: Lexing.Token, peek: Lexing.Token)
    requires ArgListsFilled(s)
    ensures ArgListsFilled(OperatorStep(s, t, peek))
  {
    if NameParsing.IsOp(t, "::") {
      PushKeepsFilled(s, ScopeResolution);
    } else if NameParsing.IsOp(t, ",") {
      ArgKeepsFilled(s);
      PushKeepsFilled(ArgOrSame(s), ArgSeparator);
    } else if NameParsing.IsOp(t, "&") {
      RewritesFilled(s, SpecsReduction(s, LValueRefLayer));
    } else if NameParsing.IsOp(t, "&&") {
      RewritesFilled(s, SpecsReduction(s, RValueRefLayer));
    } else if NameParsing.IsOp(t, "*") {
      RewritesFilled(s, SpecsLayerReduction(s));
    } else if NameParsing.IsOp(t, "(") {
      PushKeepsFilled(s, OpenParens);
    } else if NameParsing.IsOp(t, ")") {
      CloseParensKeepsFilled(s, peek);
    } else if NameParsing.IsOp(t, "<") {
      PushKeepsFilled(s, OpenAngle);
    } else if NameParsing.IsOp(t, ">") {
      CloseAngleKeepsFilled(s);
    } else if NameParsing.IsOp(t, "{") {
      PushKeepsFilled(s, OpenCurly);
    } else if NameParsing.IsOp(t, "}") {
      PushKeepsFilled(s, CloseCurly);
    } else if NameParsing.IsOp(t, "[") {
      PushKeepsFilled(s, OpenSquare);
    } else if NameParsing.IsOp(t, "]") {
      PushKeepsFilled(s, CloseSquare);
    }
  }

  /** Handling a token keeps every `ArgList` filled, so the assertions of
      `try_reduce_as_template` and `try_reduce_as_function_args` hold. */
  lemma StepKeepsFilled(s: seq<Token>, t: Lexing.Token, peek: Lexing.Token)
    requires ArgListsFilled(s)
    ensures ArgListsFilled(Step(s, t, peek))
  {
    match t.classification
    case End =>
    case Space => TypeKeepsFilled(s);
    case Identifier(content) => NameKeepsFilled(s, Scope(content));
    case OperatorOrPunctuator(_) => OperatorKeepsFilled(s, t, peek);
    case Keyword(_) =>
      if KeywordStep(s, t) != s {
        RewritesFilled(s, KeywordStep(s, t));
      }
  }

  lemma {:induction false} ConsumeKeepsFilled(s: seq<Token>, t: Lexing.Token, l: NameParsing.LexerState)
    requires NameParsing.Settled(l) && ArgListsFilled(s)
    ensures ArgListsFilled(Consume(s, t, l))
    decreases NameParsing.Remaining(l), if t.classification.End? then 0 else 1
  {
    if !t.classification.End? {
      var next := NameParsing.Advance(l);
      StepKeepsFilled(s, t, l.next);
      ConsumeKeepsFilled(Step(s, t, l.next), next.0, next.1);
    }
  }

  // ---------------------------------------------------------------------------
  // The parser
  // ---------------------------------------------------------------------------

  /** `NameParser`: the lexer it reads from and its token stack. The visitor's
      calls are returned by `Run` instead of being made on a visitor. */
  class NameParser {
    const lexer: Lexing.NameLexer
    var stack: seq<Token>

    /** The lexer, as a value. */
    function LexerView(): NameParsing.LexerState
      reads this, lexer
    {
      NameParsing.LexerState(lexer.tables, lexer.next, lexer.text)
    }

    constructor(name: string)
      ensures stack == [] && Lexing.ValidTables(lexer.tables)
      ensures LexerView() == NameParsing.Start(lexer.tables, name)
    {
      lexer := new Lexing.NameLexer(name);
      stack := [];
    }

    method TryReduceAsArgList() returns (ok: bool)
      modifies this
      ensures ok == ArgListReduction(old(stack)).Some?
      ensures stack == if ok then ArgListReduction(old(stack)).value else old(stack)
    {
      if 0 < LongestSuffix(TypeArg, stack) {
        var t := stack[|stack| - 1].t;
        stack := stack[..|stack| - 1];
        if 2 == LongestSuffix(SeparatedArgList, stack) {
          LongestSuffixHolds(SeparatedArgList, stack, 1);
          var a := stack[|stack| - 2].argList;
          stack := stack[..|stack| - 2] + [ArgListToken(ArgList(a.types + [t]))];
        } else {
          stack := stack + [ArgListToken(ArgList([t]))];
        }
        return true;
      }
      return false;
    }

    method TryReduceAsTemplate() returns (ok: bool)
      requires ArgListsFilled(stack)
      modifies this
      ensures ok == TemplateReduction(old(stack)).Some?
      ensures stack == if ok then TemplateReduction(old(stack)).value else old(stack)
    {
      if 4 == LongestSuffix(TemplateWithArgs, stack) {
        LongestSuffixHolds(TemplateWithArgs, stack, 1);
        var args := stack[|stack| - 2].argList;
        assert 0 < |args.types|;
        stack := stack[..|stack| - 3] + [TemplateToken(Template(args))];
        return true;
      }
      if 3 == LongestSuffix(TemplateWithoutArgs, stack) {
        LongestSuffixHolds(TemplateWithoutArgs, stack, 2);
        stack := stack[..|stack| - 2] + [TemplateToken(Template(ArgList([])))];
        return true;
      }
      return false;
    }

    method TryReduceAsFunctionArgs() returns (ok: bool)
      requires ArgListsFilled(stack)
      modifies this
      ensures ok == FunctionArgsReduction(old(stack)).Some?
      ensures stack == if ok then FunctionArgsReduction(old(stack)).value else old(stack)
    {
      if 3 == LongestSuffix(ArgsWithTypes, stack) {
        LongestSuffixHolds(ArgsWithTypes, stack, 1);
        LongestSuffixBound(ArgsWithTypes, stack);
        var args := stack[|stack| - 2].argList;
        assert 0 < |args.types|;
        stack := stack[..|stack| - 3] + [FunctionArgsToken(FunctionArgs(args))];
        return true;
      }
      if 2 == LongestSuffix(ArgsWithoutTypes, stack) {
        LongestSuffixBound(ArgsWithoutTypes, stack);
        stack := stack[..|stack| - 2] + [FunctionArgsToken(FunctionArgs(ArgList([])))];
        return true;
      }
      return false;
    }

    /** The parts are taken off a pending prefix of the stack, whose length
        `pending` is; the stack is cut to it at the end. */
    method TryReduceAsFunction() returns (ok: bool)
      modifies this
      ensures ok == FunctionReduction(old(stack)).Some?
      ensures stack == if ok then FunctionReduction(old(stack)).value else old(stack)
    {
      ghost var whole := stack;
      var pendingStack := stack;
      var specs := DefaultSpecs;
      if Top(pendingStack, KSpecs) {
        specs := pendingStack[|pendingStack| - 1].specs;
        pendingStack := pendingStack[..|pendingStack| - 1];
      }
      if !Top(pendingStack, KFunctionArgs) {
        return false;
      }
      ghost var s1 := pendingStack;
      assert s1 == Below(whole, KSpecs) && specs == TopSpecs(whole);
      var args := pendingStack[|pendingStack| - 1].args;
      pendingStack := pendingStack[..|pendingStack| - 1];
      ghost var s2 := pendingStack;
      var templateInfo := None;
      if Top(pendingStack, KTemplate) {
        templateInfo := Some(pendingStack[|pendingStack| - 1].templateInfo);
        pendingStack := pendingStack[..|pendingStack| - 1];
      }
      ghost var s3 := pendingStack;
      assert s3 == Below(s2, KTemplate) && templateInfo == TopTemplate(s2);
      var description := NoDescription;
      if Top(pendingStack, KName) {
        description := NameDescription(pendingStack[|pendingStack| - 1].name);
        pendingStack := pendingStack[..|pendingStack| - 1];
      } else if Top(pendingStack, KFunctionPtr) {
        description := PtrDescription(pendingStack[|pendingStack| - 1].ptr);
        pendingStack := pendingStack[..|pendingStack| - 1];
      }
      ghost var s4 := pendingStack;
      assert s4 == BelowDescription(s3) && description == TopDescription(s3);
      var returnType := None;
      if Top(pendingStack, KType) {
        returnType := Some(pendingStack[|pendingStack| - 1].t);
        pendingStack := pendingStack[..|pendingStack| - 1];
      }
      assert pendingStack == Below(s4, KType) && returnType == TopType(s4);
      var f := FunctionType(returnType, description, templateInfo, args, specs);
      assert FunctionReduction(whole) == Some(whole[..|pendingStack|] + [TypeToken(f)]);
      stack := stack[..|pendingStack|] + [TypeToken(f)];
      return true;
    }

    method TryReduceAsRegularType() returns (ok: bool)
      modifies this
      ensures ok == RegularTypeReduction(old(stack)).Some?
      ensures stack == if ok then RegularTypeReduction(old(stack)).value else old(stack)
    {
      ghost var whole := stack;
      var pendingStack := stack;
      var specs := DefaultSpecs;
      if Top(pendingStack, KSpecs) {
        specs := pendingStack[|pendingStack| - 1].specs;
        pendingStack := pendingStack[..|pendingStack| - 1];
      }
      ghost var s1 := pendingStack;
      assert s1 == Below(whole, KSpecs) && specs == TopSpecs(whole);
      var templateInfo := None;
      if Top(pendingStack, KTemplate) {
        templateInfo := Some(pendingStack[|pendingStack| - 1].templateInfo);
        pendingStack := pendingStack[..|pendingStack| - 1];
      }
      ghost var s2 := pendingStack;
      assert s2 == Below(s1, KTemplate) && templateInfo == TopTemplate(s1);
      if !Top(pendingStack, KName) {
        return false;
      }
      var name := pendingStack[|pendingStack| - 1].name;
      pendingStack := pendingStack[..|pendingStack| - 1];
      ghost var s3 := pendingStack;
      if Top(pendingStack, KSpecs) {
        var prefix := pendingStack[|pendingStack| - 1].specs;
        specs := PrefixMerged(specs, prefix);
        pendingStack := pendingStack[..|pendingStack| - 1];
      }
      assert pendingStack == Below(s3, KSpecs);
      var t := RegularType(name, templateInfo, specs);
      assert RegularTypeReduction(whole) == Some(whole[..|pendingStack|] + [TypeToken(t)]);
      stack := stack[..|pendingStack|] + [TypeToken(t)];
      return true;
    }

    method TryReduceAsType() returns (ok: bool)
      modifies this
      ensures ok == TypeReduction(old(stack)).Some?
      ensures stack == TypeOrSame(old(stack))
    {
      ok := TryReduceAsFunction();
      if !ok {
        ok := TryReduceAsRegularType();
      }
    }

    /** The expression `try_reduce_as_type() && try_reduce_as_arg_list()`. */
    method TryReduceAsTypeAndArgList() returns (ok: bool)
      modifies this
      ensures stack == ArgOrSame(old(stack))
    {
      ok := TryReduceAsType();
      if ok {
        ok := TryReduceAsArgList();
      }
    }

    method ReduceAsName(scope: Scope)
      modifies this
      ensures stack == NameReduction(old(stack), scope)
    {
      var _ := TryReduceAsType();
      var n := LongestSuffix(QualifiedName, stack);
      if n == 2 {
        LongestSuffixHolds(QualifiedName, stack, 1);
        var name := stack[|stack| - 2].name;
        stack := stack[..|stack| - 2] + [NameToken(Name(name.scopes + [scope]))];
      } else if n == 1 {
        stack := stack[..|stack| - 1] + [NameToken(Name([scope]))];
      } else {
        stack := stack + [NameToken(Name([scope]))];
      }
    }

    method HandleSpace()
      modifies this
      ensures stack == SpaceStep(old(stack), lexer.next)
    {
      if NameParsing.IsOp(lexer.next, "(") {
        var _ := TryReduceAsType();
      }
    }

    method ReduceAsSpecs(layer: Layer)
      modifies this
      ensures stack == SpecsReduction(old(stack), layer)
    {
      if Top(stack, KSpecs) {
        var layers := stack[|stack| - 1].specs.layers;
        stack := stack[..|stack| - 1] + [SpecsToken(Specs(layers[..|layers| - 1] + [Merge(layers[|layers| - 1], layer)]))];
      } else {
        stack := stack + [SpecsToken(Specs([layer]))];
      }
    }

    method ReduceAsSpecsLayer()
      modifies this
      ensures stack == SpecsLayerReduction(old(stack))
    {
      if Top(stack, KSpecs) {
        stack := stack[..|stack| - 1] + [SpecsToken(Specs(stack[|stack| - 1].specs.layers + [EmptyLayer]))];
      } else {
        stack := stack + [SpecsToken(Specs([EmptyLayer, EmptyLayer]))];
      }
    }

    method TryReduceAsMemberFunctionPtr() returns (ok: bool)
      modifies this
      ensures ok == MemberFunctionPtrReduction(old(stack)).Some?
      ensures stack == if ok then MemberFunctionPtrReduction(old(stack)).value else old(stack)
    {
      if 5 == LongestSuffix(MemberPtr, stack) {
        LongestSuffixHolds(MemberPtr, stack, 1);
        LongestSuffixHolds(MemberPtr, stack, 3);
        LongestSuffixHolds(MemberPtr, stack, 4);
        var specs := stack[|stack| - 2].specs;
        var name := stack[|stack| - 4].name;
        stack := stack[..|stack| - 5] + [FunctionPtrToken(FunctionPtr(name.scopes, specs))];
        return true;
      }
      return false;
    }

    method TryReduceAsFreeFunctionPtr() returns (ok: bool)
      modifies this
      ensures ok == FreeFunctionPtrReduction(old(stack)).Some?
      ensures stack == if ok then FreeFunctionPtrReduction(old(stack)).value else old(stack)
    {
      if 3 == LongestSuffix(FreePtr, stack) {
        LongestSuffixHolds(FreePtr, stack, 1);
        LongestSuffixHolds(FreePtr, stack, 2);
        var specs := stack[|stack| - 2].specs;
        stack := stack[..|stack| - 3] + [FunctionPtrToken(FunctionPtr([], specs))];
        return true;
      }
      return false;
    }

    method TryReduceAsFunctionPtr() returns (ok: bool)
      modifies this
      ensures ok == FunctionPtrReduction(old(stack)).Some?
      ensures stack == if ok then FunctionPtrReduction(old(stack)).value else old(stack)
    {
      ok := TryReduceAsFreeFunctionPtr();
      if !ok {
        ok := TryReduceAsMemberFunctionPtr();
      }
    }

    method HandleCloseParens()
      requires ArgListsFilled(stack)
      modifies this
      ensures stack == CloseParensStep(old(stack), lexer.next)
    {
      ArgKeepsFilled(stack);
      var _ := TryReduceAsTypeAndArgList();
      PushKeepsFilled(stack, CloseParens);
      stack := stack + [CloseParens];
      var reduced := false;
      if NameParsing.IsOp(lexer.next, "(") {
        reduced := TryReduceAsFunctionPtr();
      }
      if !reduced {
        if FunctionArgsReduction(stack).Some? {
          FunctionArgsKeepsFilled(stack);
        }
        var ok := TryReduceAsFunctionArgs();
        if ok {
          ok := TryReduceAsFunctionArgs();
        }
      }
    }

    method HandleCloseAngle()
      requires ArgListsFilled(stack)
      modifies this
      ensures stack == match TemplateReduction(ArgOrSame(old(stack)) + [CloseAngle])
                       case Some(s2) => s2
                       case None => ArgOrSame(old(stack)) + [CloseAngle]
    {
      ArgKeepsFilled(stack);
      var _ := TryReduceAsTypeAndArgList();
      PushKeepsFilled(stack, CloseAngle);
      stack := stack + [CloseAngle];
      var _ := TryReduceAsTemplate();
    }

    method HandleOperator(t: Lexing.Token)
      requires ArgListsFilled(stack)
      modifies this
      ensures stack == OperatorStep(old(stack), t, lexer.next)
    {
      if NameParsing.IsOp(t, "::") {
        stack := stack + [ScopeResolution];
      } else if NameParsing.IsOp(t, ",") {
        var _ := TryReduceAsTypeAndArgList();
        stack := stack + [ArgSeparator];
      } else if NameParsing.IsOp(t, "&") {
        ReduceAsSpecs(LValueRefLayer);
      } else if NameParsing.IsOp(t, "&&") {
        ReduceAsSpecs(RValueRefLayer);
      } else if NameParsing.IsOp(t, "*") {
        ReduceAsSpecsLayer();
      } else if NameParsing.IsOp(t, "(") {
        stack := stack + [OpenParens];
      } else if NameParsing.IsOp(t, ")") {
        HandleCloseParens();
      } else if NameParsing.IsOp(t, "<") {
        stack := stack + [OpenAngle];
      } else if NameParsing.IsOp(t, ">") {
        HandleCloseAngle();
      } else if NameParsing.IsOp(t, "{") {
        stack := stack + [OpenCurly];
      } else if NameParsing.IsOp(t, "}") {
        stack := stack + [CloseCurly];
      } else if NameParsing.IsOp(t, "[") {
        stack := stack + [OpenSquare];
      } else if NameParsing.IsOp(t, "]") {
        stack := stack + [CloseSquare];
      }
    }

    method HandleKeyword(t: Lexing.Token)
      modifies this
      ensures stack == KeywordStep(old(stack), t)
    {
      if NameParsing.IsKeyword(t, "const") {
        ReduceAsSpecs(ConstLayer);
      } else if NameParsing.IsKeyword(t, "volatile") {
        ReduceAsSpecs(VolatileLayer);
      } else if NameParsing.IsKeyword(t, "noexcept") {
        ReduceAsSpecs(NoexceptLayer);
      }
    }

    /** `NameParser::operator()`: handles every token up to the end token, reduces
        a last type and walks it; None when the end state is not a single `Type`. */
    method Run() returns (calls: Option<seq<Call>>)
      requires stack == [] && NameParsing.Settled(LexerView())
      modifies this, lexer
      ensures calls == ParseInput(old(LexerView()))
    {
      ghost var first := NameParsing.Advance(LexerView());
      var next := lexer.Next();
      assert (next, LexerView()) == first;
      while !next.classification.End?
        invariant NameParsing.Settled(LexerView())
        invariant Consume(stack, next, LexerView()) == Consume([], first.0, first.1)
        invariant ArgListsFilled(stack)
        decreases NameParsing.Remaining(LexerView()), if next.classification.End? then 0 else 1
      {
        ghost var l := LexerView();
        ghost var before := stack;
        StepKeepsFilled(stack, next, lexer.next);
        match next.classification {
          case Space => HandleSpace();
          case Identifier(content) => ReduceAsName(Scope(content));
          case OperatorOrPunctuator(_) => HandleOperator(next);
          case Keyword(_) => HandleKeyword(next);
        }
        assert stack == Step(before, next, l.next);
        next := lexer.Next();
        assert (next, LexerView()) == NameParsing.Advance(l);
      }
      var _ := TryReduceAsType();
      if |stack| == 1 && stack[0].TypeToken? {
        calls := Some([Begin] + TypeCalls(stack[0].t) + [End]);
      } else {
        calls := None;
      }
    }
  }
}
