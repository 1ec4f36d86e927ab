/** The tokens of the reducing type-name parser (NameParserTokens.hpp) and the calls
    each of them makes on a parser visitor when it is walked. The walks are pure
    functions returning the list of calls. The source's assertions that identifiers,
    operator symbols and layer lists are non-empty are the subset types `Text` and
    `Layers`, and a scope sequence is a first scope and more. */
module ParserTokens {
  import opened Wrappers

  // ---------------------------------------------------------------------------
  // Visitor calls
  // ---------------------------------------------------------------------------

  /** A call the visitor of `parser_visitor` receives. */
  datatype Call =
    | Unrecognized(content: string)
    | Begin | End
    | BeginType | EndType
    | BeginScope | EndScope
    | AddIdentifier(content: string) | AddArg
    | BeginTemplateArgs | EndTemplateArgs
    | AddConst | AddVolatile | AddNoexcept | AddPtr | AddLValueRef | AddRValueRef
    | BeginFunction | EndFunction
    | BeginReturnType | EndReturnType
    | BeginFunctionArgs | EndFunctionArgs
    | BeginFunctionPtr | EndFunctionPtr
    | BeginOperatorIdentifier | EndOperatorIdentifier

  /** +1 for a call that opens a bracket pair, -1 for one that closes it. */
  function Delta(c: Call): int
  {
    match c
    case Begin => 1
    case BeginType => 1
    case BeginScope => 1
    case BeginTemplateArgs => 1
    case BeginFunction => 1
    case BeginReturnType => 1
    case BeginFunctionArgs => 1
    case BeginFunctionPtr => 1
    case BeginOperatorIdentifier => 1
    case End => -1
    case EndType => -1
    case EndScope => -1
    case EndTemplateArgs => -1
    case EndFunction => -1
    case EndReturnType => -1
    case EndFunctionArgs => -1
    case EndFunctionPtr => -1
    case EndOperatorIdentifier => -1
    case _ => 0
  }

  // ---------------------------------------------------------------------------
  // Specs
  // ---------------------------------------------------------------------------

  /** `Specs::Layer`: the cv-qualification of one pointer level. */
  datatype Layer = Layer(isConst: bool, isVolatile: bool)

  const PlainLayer := Layer(false, false)

  type Layers = s: seq<Layer> | |s| > 0 witness [PlainLayer]

  datatype Refness = NoRef | LValue | RValue

  /** `Specs`: one layer per pointer level (the first is the pointee's), the
      reference and noexcept. */
  datatype Specs = Specs(layers: Layers, refness: Refness, isNoexcept: bool)

  const NoSpecs := Specs([PlainLayer], NoRef, false)

  /** `Layer::merge` asserts that no flag is set on both sides. */
  predicate Mergeable(a: Layer, b: Layer)
  {
    !(a.isConst && b.isConst) && !(a.isVolatile && b.isVolatile)
  }

  /** `Layer::merge`: the flags of both layers. No reduction of this parser calls
      it, so its assertion is kept as the precondition; `Parser2.Merge`, whose
      parser does call it on the flags a name spells, instead models the release
      build, where the assertion is not checked. */
  function Merge(a: Layer, b: Layer): (r: Layer)
    requires Mergeable(a, b)
    ensures r.isConst <==> a.isConst || b.isConst
    ensures r.isVolatile <==> a.isVolatile || b.isVolatile
  {
    Layer(a.isConst || b.isConst, a.isVolatile || b.isVolatile)
  }

  /** `Specs::has_ptr`. */
  predicate HasPtr(s: Specs)
  {
    1 < |s.layers|
  }

  /** `Layer::operator()`. */
  function LayerCalls(l: Layer): seq<Call>
  {
    (if l.isConst then [AddConst] else []) + (if l.isVolatile then [AddVolatile] else [])
  }

  /** The first layer, then `add_ptr` and the layer for each further one. */
  function LayersCalls(layers: Layers): seq<Call>
  {
    if |layers| == 1 then LayerCalls(layers[0])
    else LayersCalls(layers[..|layers| - 1]) + [AddPtr] + LayerCalls(layers[|layers| - 1])
  }

  function RefCalls(r: Refness): seq<Call>
  {
    match r
    case NoRef => []
    case LValue => [AddLValueRef]
    case RValue => [AddRValueRef]
  }

  /** `Specs::operator()`. */
  function SpecsCalls(s: Specs): seq<Call>
  {
    LayersCalls(s.layers) + RefCalls(s.refness) + (if s.isNoexcept then [AddNoexcept] else [])
  }

  // ---------------------------------------------------------------------------
  // Names and types
  // ---------------------------------------------------------------------------

  type Text = s: string | |s| > 0 witness "_"

  /** `Identifier::Content`: a plain name or an operator. */
  datatype IdContent = Name(text: Text) | OperatorName(symbol: OperatorSymbol)

  /** `Identifier::OperatorInfo::Symbol`: an operator's symbol, or the target type of
      a conversion operator. */
  datatype OperatorSymbol = SymbolText(text: Text) | SymbolType(target: Type)

  /** `Identifier`. */
  datatype Identifier = Identifier(content: IdContent, templateArgs: Option<ArgSequence>)

  /** `ArgSequence`. */
  datatype ArgSequence = ArgSequence(types: seq<Type>)

  /** `FunctionArgs`. */
  datatype FunctionArgs = FunctionArgs(args: ArgSequence)

  /** `FunctionContext`. */
  datatype FunctionContext = FunctionContext(args: FunctionArgs, specs: Specs)

  /** `FunctionIdentifier`. */
  datatype FunctionIdentifier = FunctionIdentifier(identifier: Identifier, context: FunctionContext)

  /** `ScopeSequence::Scope`. */
  datatype Scope = IdentifierScope(identifier: Identifier) | FunctionScope(functionIdentifier: FunctionIdentifier)

  /** `ScopeSequence`: its scopes are `[first] + more`, never empty. */
  datatype ScopeSequence = ScopeSequence(first: Scope, more: seq<Scope>)
  {
    function Scopes(): (s: seq<Scope>)
      ensures |s| > 0 && s[0] == first
    {
      [first] + more
    }
  }

  /** `Type`: a regular type, a function type or a function-pointer type. A return
      type is a value here, so the assertion that it is present holds by
      construction. */
  datatype Type =
    | RegularType(scopes: Option<ScopeSequence>, identifier: Identifier, specs: Specs)
    | FunctionType(returnType: Type, context: FunctionContext)
    | FunctionPtrType(returnType: Type, ptrScopes: Option<ScopeSequence>, ptrSpecs: Specs, ptrContext: FunctionContext)

  /** `FunctionPtr`: the `(scopes* specs)` part of a function pointer, and what
      was nested inside it when the pointer is the return type of a function
      (pointer) around it. */
  datatype FunctionPtr = FunctionPtr(scopes: Option<ScopeSequence>, specs: Specs, nested: Option<NestedInfo>)

  /** `FunctionPtr::NestedInfo`. */
  datatype NestedInfo = NestedInfo(ptr: Option<FunctionPtr>, ctx: FunctionContext)

  /** `Function`. */
  datatype Function = Function(returnType: Option<Type>, scopes: Option<ScopeSequence>, identifier: FunctionIdentifier)

  /** `End`: the whole name. */
  datatype Whole = WholeType(t: Type) | WholeFunction(f: Function)

  /** `Identifier::is_template`. */
  predicate IsTemplate(id: Identifier)
  {
    id.templateArgs.Some?
  }

  /** `Identifier::is_void`. */
  predicate IdentifierIsVoid(id: Identifier)
  {
    id.content == Name("void")
  }

  /** `Type::is_void`: only a regular type can be void. */
  predicate IsVoid(t: Type)
  {
    t.RegularType? && IdentifierIsVoid(t.identifier)
  }

  // ---------------------------------------------------------------------------
  // Walking the tokens
  // ---------------------------------------------------------------------------

  /** `Identifier::operator()`: the content, then the template arguments if any. */
  function IdentifierCalls(id: Identifier): seq<Call>
    decreases id, 2
  {
    ContentCalls(id.content)
    + match id.templateArgs
      case None => []
      case Some(args) => TemplateArgsCalls(args)
  }

  function ContentCalls(c: IdContent): seq<Call>
    decreases c, 1
  {
    match c
    case Name(text) => [AddIdentifier(text)]
    case OperatorName(SymbolText(text)) => [BeginOperatorIdentifier, AddIdentifier(text), EndOperatorIdentifier]
    case OperatorName(SymbolType(target)) => [BeginOperatorIdentifier] + TypeCalls(target) + [EndOperatorIdentifier]
  }

  /** `ArgSequence::handle_as_template_args`. */
  function TemplateArgsCalls(args: ArgSequence): seq<Call>
    decreases args, 1
  {
    [BeginTemplateArgs] + ArgCalls(args) + [EndTemplateArgs]
  }

  /** `ArgSequence::operator()`: `add_arg` between consecutive types. */
  function ArgCalls(args: ArgSequence): seq<Call>
    decreases args, 0
  {
    TypeListCalls(args.types)
  }

  function TypeListCalls(types: seq<Type>): seq<Call>
    decreases types
  {
    if |types| == 0 then []
    else if |types| == 1 then TypeCalls(types[0])
    else TypeListCalls(types[..|types| - 1]) + [AddArg] + TypeCalls(types[|types| - 1])
  }

  /** `FunctionArgs::operator()`. */
  function FunctionArgsCalls(a: FunctionArgs): seq<Call>
    decreases a, 1
  {
    [BeginFunctionArgs] + ArgCalls(a.args) + [EndFunctionArgs]
  }

  /** `FunctionContext::operator()`. */
  function ContextCalls(ctx: FunctionContext): seq<Call>
    decreases ctx, 2
  {
    FunctionArgsCalls(ctx.args) + SpecsCalls(ctx.specs)
  }

  /** `FunctionIdentifier::operator()`. */
  function FunctionIdentifierCalls(f: FunctionIdentifier): seq<Call>
    decreases f, 3
  {
    IdentifierCalls(f.identifier) + ContextCalls(f.context)
  }

  /** One scope of `ScopeSequence::operator()`. */
  function ScopeCalls(s: Scope): seq<Call>
    decreases s, 4
  {
    [BeginScope]
    + (match s
       case IdentifierScope(id) => IdentifierCalls(id)
       case FunctionScope(f) => [BeginFunction] + FunctionIdentifierCalls(f) + [EndFunction])
    + [EndScope]
  }

  /** `ScopeSequence::operator()`. */
  function ScopeSequenceCalls(ss: ScopeSequence): seq<Call>
    decreases ss, 1
  {
    ScopeCalls(ss.first) + ScopeListCalls(ss.more)
  }

  function ScopeListCalls(scopes: seq<Scope>): seq<Call>
    decreases scopes
  {
    if |scopes| == 0 then [] else ScopeListCalls(scopes[..|scopes| - 1]) + ScopeCalls(scopes[|scopes| - 1])
  }

  function OptionalScopesCalls(scopes: Option<ScopeSequence>): seq<Call>
    decreases scopes
  {
    match scopes
    case None => []
    case Some(ss) => ScopeSequenceCalls(ss)
  }

  /** The return type, wrapped. */
  function ReturnTypeCalls(t: Type): seq<Call>
    decreases t, 1
  {
    [BeginReturnType] + TypeCalls(t) + [EndReturnType]
  }

  /** `Type::operator()` and those of `RegularType`, `FunctionType` and
      `FunctionPtrType`. */
  function TypeCalls(t: Type): seq<Call>
    decreases t, 0
  {
    match t
    case RegularType(scopes, id, specs) =>
      [BeginType] + OptionalScopesCalls(scopes) + IdentifierCalls(id) + SpecsCalls(specs) + [EndType]
    case FunctionType(ret, ctx) =>
      [BeginFunction] + ReturnTypeCalls(ret) + ContextCalls(ctx) + [EndFunction]
    case FunctionPtrType(ret, scopes, specs, ctx) =>
      [BeginType] + ReturnTypeCalls(ret)
      + [BeginFunctionPtr] + OptionalScopesCalls(scopes) + SpecsCalls(specs) + [EndFunctionPtr]
      + ContextCalls(ctx) + [EndType]
  }

  /** `Function::operator()`. */
  function FunctionCalls(f: Function): seq<Call>
  {
    [BeginFunction]
    + (match f.returnType
       case None => []
       case Some(t) => ReturnTypeCalls(t))
    + OptionalScopesCalls(f.scopes) + FunctionIdentifierCalls(f.identifier) + [EndFunction]
  }

  /** `End::operator()`. */
  function WholeCalls(w: Whole): seq<Call>
  {
    [Begin]
    + (match w
       case WholeType(t) => TypeCalls(t)
       case WholeFunction(f) => FunctionCalls(f))
    + [End]
  }

  // ---------------------------------------------------------------------------
  // Bracket depth of a run of calls
  // ---------------------------------------------------------------------------

  /** The number of bracket pairs open after the calls. */
  function Depth(s: seq<Call>): int
  {
    if s == [] then 0 else Depth(s[..|s| - 1]) + Delta(s[|s| - 1])
  }

  /** Every pair the calls open, they close, and none is closed before it opens. */
  predicate Balanced(s: seq<Call>)
  {
    Depth(s) == 0 && forall k :: 0 <= k <= |s| ==> Depth(s[..k]) >= 0
  }

  /** The calls are one bracket pair around balanced calls: the first call opens
      a pair that only the last one closes. */
  predicate Enclosed(s: seq<Call>)
  {
    |s| >= 2 && Depth(s) == 0 && forall k :: 1 <= k < |s| ==> Depth(s[..k]) >= 1
  }

  /** How often `c` is made outside every bracket pair. */
  function TopLevel(s: seq<Call>, c: Call): nat
  {
    if s == [] then 0
    else TopLevel(s[..|s| - 1], c) + if s[|s| - 1] == c && Depth(s[..|s| - 1]) == 0 then 1 else 0
  }

  lemma {:induction false} DepthAppend(a: seq<Call>, b: seq<Call>)
    ensures Depth(a + b) == Depth(a) + Depth(b)
    decreases |b|
  {
    if b == [] {
      assert a + b == a;
    } else {
      var ab := a + b;
      assert ab[..|ab| - 1] == a + b[..|b| - 1];
      assert ab[|ab| - 1] == b[|b| - 1];
      DepthAppend(a, b[..|b| - 1]);
    }
  }

  lemma {:induction false} TopLevelAppend(a: seq<Call>, b: seq<Call>, c: Call)
    requires Depth(a) == 0
    ensures TopLevel(a + b, c) == TopLevel(a, c) + TopLevel(b, c)
    decreases |b|
  {
    if b == [] {
      assert a + b == a;
    } else {
      var ab := a + b;
      var b' := b[..|b| - 1];
      assert ab[..|ab| - 1] == a + b';
      assert ab[|ab| - 1] == b[|b| - 1];
      DepthAppend(a, b');
      TopLevelAppend(a, b', c);
    }
  }

  lemma BalancedAppend(a: seq<Call>, b: seq<Call>)
    requires Balanced(a) && Balanced(b)
    ensures Balanced(a + b)
  {
    DepthAppend(a, b);
    forall k | 0 <= k <= |a + b|
      ensures Depth((a + b)[..k]) >= 0
    {
      if k <= |a| {
        assert (a + b)[..k] == a[..k];
      } else {
        assert (a + b)[..k] == a + b[..k - |a|];
        DepthAppend(a, b[..k - |a|]);
      }
    }
  }

  lemma Wrapped(open: Call, s: seq<Call>, close: Call)
    requires Delta(open) == 1 && Delta(close) == -1 && Balanced(s)
    ensures Enclosed([open] + s + [close])
  {
    var w := [open] + s + [close];
    assert w[..|w| - 1] == [open] + s;
    DepthAppend([open], s);
    assert Depth([open]) == 1 by {
      assert [open][..0] == [];
    }
    forall k | 1 <= k < |w|
      ensures Depth(w[..k]) >= 1
    {
      assert w[..k] == [open] + s[..k - 1];
      DepthAppend([open], s[..k - 1]);
    }
  }

  lemma EnclosedBalanced(s: seq<Call>)
    requires Enclosed(s)
    ensures Balanced(s)
  {
    assert s[..0] == [];
    assert s[..|s|] == s;
  }

  /** Calls that neither open nor close a pair are balanced. */
  lemma {:induction false} FlatBalanced(s: seq<Call>)
    requires forall i :: 0 <= i < |s| ==> Delta(s[i]) == 0
    ensures Balanced(s)
    ensures forall k :: 0 <= k <= |s| ==> Depth(s[..k]) == 0
    decreases |s|
  {
    if s != [] {
      var s' := s[..|s| - 1];
      FlatBalanced(s');
      forall k | 0 <= k <= |s|
        ensures Depth(s[..k]) == 0
      {
        if k < |s| {
          assert s[..k] == s'[..k];
        } else {
          assert s[..k] == s;
          assert s[..k][..k - 1] == s';
        }
      }
    }
  }

  /** Inside a bracket pair nothing is at the top level: only the opening call
      can count. */
  lemma {:induction false} EnclosedTopLevel(s: seq<Call>, c: Call, k: nat)
    requires Enclosed(s) && 1 <= k <= |s|
    ensures TopLevel(s[..k], c) == if s[0] == c then 1 else 0
    decreases k
  {
    var p := s[..k];
    assert p[..k - 1] == s[..k - 1];
    if k == 1 {
      assert p[..0] == [];
    } else {
      EnclosedTopLevel(s, c, k - 1);
    }
  }

  lemma EnclosedCounts(s: seq<Call>, c: Call)
    requires Enclosed(s)
    ensures TopLevel(s, c) == if s[0] == c then 1 else 0
  {
    EnclosedTopLevel(s, c, |s|);
    assert s[..|s|] == s;
  }

  // ---------------------------------------------------------------------------
  // Every walk nests its begin/end calls
  // ---------------------------------------------------------------------------

  /** A call the layers of `Specs::operator()` can make. */
  predicate IsLayerCall(c: Call)
  {
    c.AddConst? || c.AddVolatile? || c.AddPtr?
  }

  /** A call `Specs::operator()` can make. */
  predicate IsSpecCall(c: Call)
  {
    IsLayerCall(c) || c.AddLValueRef? || c.AddRValueRef? || c.AddNoexcept?
  }

  lemma {:induction false} LayersFlat(layers: Layers)
    ensures forall i :: 0 <= i < |LayersCalls(layers)| ==> IsLayerCall(LayersCalls(layers)[i])
    decreases |layers|
  {
    if |layers| > 1 {
      LayersFlat(layers[..|layers| - 1]);
    }
  }

  lemma LayersLast(layers: Layers)
    ensures LayersCalls(layers) == [] || IsLayerCall(LayersCalls(layers)[|LayersCalls(layers)| - 1])
  {
    LayersFlat(layers);
  }

  /** Specs make only spec calls, so they nest trivially. */
  lemma SpecsFlat(s: Specs)
    ensures forall i :: 0 <= i < |SpecsCalls(s)| ==> IsSpecCall(SpecsCalls(s)[i])
    ensures Balanced(SpecsCalls(s))
  {
    LayersFlat(s.layers);
    FlatBalanced(SpecsCalls(s));
  }

  lemma Wrapped2(open: Call, a: seq<Call>, b: seq<Call>, close: Call)
    requires Delta(open) == 1 && Delta(close) == -1 && Balanced(a) && Balanced(b)
    ensures Enclosed([open] + a + b + [close])
  {
    BalancedAppend(a, b);
    Wrapped(open, a + b, close);
    assert [open] + a + b + [close] == [open] + (a + b) + [close];
  }

  lemma Wrapped3(open: Call, a: seq<Call>, b: seq<Call>, c: seq<Call>, close: Call)
    requires Delta(open) == 1 && Delta(close) == -1 && Balanced(a) && Balanced(b) && Balanced(c)
    ensures Enclosed([open] + a + b + c + [close])
  {
    BalancedAppend(a, b);
    BalancedAppend(a + b, c);
    Wrapped(open, a + b + c, close);
    assert [open] + a + b + c + [close] == [open] + (a + b + c) + [close];
  }

  /** The shape of a function-pointer type's calls. */
  lemma PtrWrapped(r: seq<Call>, o: seq<Call>, sp: seq<Call>, c: seq<Call>)
    requires Balanced(r) && Balanced(o) && Balanced(sp) && Balanced(c)
    ensures Enclosed([BeginType] + r + [BeginFunctionPtr] + o + sp + [EndFunctionPtr] + c + [EndType])
  {
    Wrapped2(BeginFunctionPtr, o, sp, EndFunctionPtr);
    var ptr := [BeginFunctionPtr] + o + sp + [EndFunctionPtr];
    EnclosedBalanced(ptr);
    Wrapped3(BeginType, r, ptr, c, EndType);
    assert [BeginType] + r + [BeginFunctionPtr] + o + sp + [EndFunctionPtr] + c + [EndType]
      == [BeginType] + r + ptr + c + [EndType];
  }

  lemma {:induction false} TypeEnclosed(t: Type)
    ensures Enclosed(TypeCalls(t))
    ensures TypeCalls(t)[0] == BeginType || TypeCalls(t)[0] == BeginFunction
    decreases t, 1
  {
    match t
    case RegularType(_, _, _) => RegularTypeEnclosed(t);
    case FunctionType(_, _) => FunctionTypeEnclosed(t);
    case FunctionPtrType(_, _, _, _) => FunctionPtrTypeEnclosed(t);
  }

  lemma {:induction false} RegularTypeEnclosed(t: Type)
    requires t.RegularType?
    ensures Enclosed(TypeCalls(t)) && TypeCalls(t)[0] == BeginType
    decreases t, 0
  {
    OptionalScopesBalanced(t.scopes);
    IdentifierBalanced(t.identifier);
    SpecsFlat(t.specs);
    Wrapped3(BeginType, OptionalScopesCalls(t.scopes), IdentifierCalls(t.identifier), SpecsCalls(t.specs), EndType);
  }

  lemma {:induction false} FunctionTypeEnclosed(t: Type)
    requires t.FunctionType?
    ensures Enclosed(TypeCalls(t)) && TypeCalls(t)[0] == BeginFunction
    decreases t, 0
  {
    ReturnTypeEnclosed(t.returnType);
    EnclosedBalanced(ReturnTypeCalls(t.returnType));
    ContextBalanced(t.context);
    Wrapped2(BeginFunction, ReturnTypeCalls(t.returnType), ContextCalls(t.context), EndFunction);
  }

  lemma {:induction false} FunctionPtrTypeEnclosed(t: Type)
    requires t.FunctionPtrType?
    ensures Enclosed(TypeCalls(t)) && TypeCalls(t)[0] == BeginType
    decreases t, 0
  {
    ReturnTypeEnclosed(t.returnType);
    EnclosedBalanced(ReturnTypeCalls(t.returnType));
    OptionalScopesBalanced(t.ptrScopes);
    SpecsFlat(t.ptrSpecs);
    ContextBalanced(t.ptrContext);
    PtrWrapped(ReturnTypeCalls(t.returnType), OptionalScopesCalls(t.ptrScopes), SpecsCalls(t.ptrSpecs), ContextCalls(t.ptrContext));
  }

  lemma {:induction false} ReturnTypeEnclosed(t: Type)
    ensures Enclosed(ReturnTypeCalls(t))
    decreases t, 2
  {
    TypeEnclosed(t);
    EnclosedBalanced(TypeCalls(t));
    Wrapped(BeginReturnType, TypeCalls(t), EndReturnType);
  }

  lemma {:induction false} IdentifierBalanced(id: Identifier)
    ensures Balanced(IdentifierCalls(id))
    decreases id, 2
  {
    ContentBalanced(id.content);
    match id.templateArgs
    case None =>
      assert IdentifierCalls(id) == ContentCalls(id.content) + [];
      assert ContentCalls(id.content) + [] == ContentCalls(id.content);
    case Some(args) =>
      ArgsBalanced(args);
      Wrapped(BeginTemplateArgs, ArgCalls(args), EndTemplateArgs);
      EnclosedBalanced(TemplateArgsCalls(args));
      BalancedAppend(ContentCalls(id.content), TemplateArgsCalls(args));
  }

  lemma {:induction false} ContentBalanced(c: IdContent)
    ensures Balanced(ContentCalls(c))
    decreases c, 1
  {
    match c
    case Name(text) =>
      FlatBalanced([AddIdentifier(text)]);
    case OperatorName(SymbolText(text)) =>
      FlatBalanced([AddIdentifier(text)]);
      Wrapped(BeginOperatorIdentifier, [AddIdentifier(text)], EndOperatorIdentifier);
      assert ContentCalls(c) == [BeginOperatorIdentifier] + [AddIdentifier(text)] + [EndOperatorIdentifier];
      EnclosedBalanced(ContentCalls(c));
    case OperatorName(SymbolType(target)) =>
      TypeEnclosed(target);
      EnclosedBalanced(TypeCalls(target));
      Wrapped(BeginOperatorIdentifier, TypeCalls(target), EndOperatorIdentifier);
      EnclosedBalanced(ContentCalls(c));
  }

  /** `ArgSequence::operator()` nests, and between its types it makes one
      `add_arg` fewer than there are types, outside every nested pair. */
  lemma {:induction false} ArgsBalanced(args: ArgSequence)
    ensures Balanced(ArgCalls(args))
    ensures TopLevel(ArgCalls(args), AddArg) == if |args.types| == 0 then 0 else |args.types| - 1
    decreases args, 0
  {
    TypeListBalanced(args.types);
  }

  lemma {:induction false} TypeListBalanced(types: seq<Type>)
    ensures Balanced(TypeListCalls(types))
    ensures TopLevel(TypeListCalls(types), AddArg) == if |types| == 0 then 0 else |types| - 1
    decreases types
  {
    if |types| == 0 {
      FlatBalanced([]);
    } else if |types| == 1 {
      TypeEnclosed(types[0]);
      EnclosedBalanced(TypeCalls(types[0]));
      EnclosedCounts(TypeCalls(types[0]), AddArg);
    } else {
      TypeListBalanced(types[..|types| - 1]);
      TypeEnclosed(types[|types| - 1]);
      ArgAppended(TypeListCalls(types[..|types| - 1]), TypeCalls(types[|types| - 1]));
    }
  }

  /** Appending `add_arg` and an enclosed run adds one top-level `add_arg`. */
  lemma ArgAppended(l: seq<Call>, t: seq<Call>)
    requires Balanced(l) && Enclosed(t) && t[0] != AddArg
    ensures Balanced(l + [AddArg] + t)
    ensures TopLevel(l + [AddArg] + t, AddArg) == TopLevel(l, AddArg) + 1
  {
    EnclosedBalanced(t);
    EnclosedCounts(t, AddArg);
    FlatBalanced([AddArg]);
    assert TopLevel([AddArg], AddArg) == 1 by {
      assert [AddArg][..0] == [];
    }
    TopLevelAppend(l, [AddArg], AddArg);
    DepthAppend(l, [AddArg]);
    TopLevelAppend(l + [AddArg], t, AddArg);
    BalancedAppend(l, [AddArg]);
    BalancedAppend(l + [AddArg], t);
  }

  lemma {:induction false} ContextBalanced(ctx: FunctionContext)
    ensures Balanced(ContextCalls(ctx))
    decreases ctx, 2
  {
    ArgsBalanced(ctx.args.args);
    Wrapped(BeginFunctionArgs, ArgCalls(ctx.args.args), EndFunctionArgs);
    EnclosedBalanced(FunctionArgsCalls(ctx.args));
    SpecsFlat(ctx.specs);
    BalancedAppend(FunctionArgsCalls(ctx.args), SpecsCalls(ctx.specs));
  }

  lemma {:induction false} FunctionIdentifierBalanced(f: FunctionIdentifier)
    ensures Balanced(FunctionIdentifierCalls(f))
    decreases f, 3
  {
    IdentifierBalanced(f.identifier);
    ContextBalanced(f.context);
    BalancedAppend(IdentifierCalls(f.identifier), ContextCalls(f.context));
  }

  lemma {:induction false} ScopeEnclosed(s: Scope)
    ensures Enclosed(ScopeCalls(s)) && ScopeCalls(s)[0] == BeginScope
    decreases s, 4
  {
    match s
    case IdentifierScope(id) =>
      IdentifierBalanced(id);
      Wrapped(BeginScope, IdentifierCalls(id), EndScope);
    case FunctionScope(f) =>
      FunctionIdentifierBalanced(f);
      Wrapped(BeginFunction, FunctionIdentifierCalls(f), EndFunction);
      var inner := [BeginFunction] + FunctionIdentifierCalls(f) + [EndFunction];
      EnclosedBalanced(inner);
      Wrapped(BeginScope, inner, EndScope);
  }

  /** `ScopeSequence::operator()` nests, and makes one `begin_scope` per scope at
      its own level. */
  lemma {:induction false} ScopeSequenceBalanced(ss: ScopeSequence)
    ensures Balanced(ScopeSequenceCalls(ss))
    ensures TopLevel(ScopeSequenceCalls(ss), BeginScope) == |ss.Scopes()|
    ensures ScopeSequenceCalls(ss)[0] == BeginScope
    decreases ss, 1
  {
    var f, m := ScopeCalls(ss.first), ScopeListCalls(ss.more);
    ScopeEnclosed(ss.first);
    EnclosedBalanced(f);
    EnclosedCounts(f, BeginScope);
    ScopeListBalanced(ss.more);
    TopLevelAppend(f, m, BeginScope);
    BalancedAppend(f, m);
  }

  lemma {:induction false} ScopeListBalanced(scopes: seq<Scope>)
    ensures Balanced(ScopeListCalls(scopes))
    ensures TopLevel(ScopeListCalls(scopes), BeginScope) == |scopes|
    decreases scopes
  {
    if |scopes| == 0 {
      FlatBalanced([]);
    } else {
      var l, s := ScopeListCalls(scopes[..|scopes| - 1]), ScopeCalls(scopes[|scopes| - 1]);
      ScopeListBalanced(scopes[..|scopes| - 1]);
      ScopeEnclosed(scopes[|scopes| - 1]);
      EnclosedBalanced(s);
      EnclosedCounts(s, BeginScope);
      TopLevelAppend(l, s, BeginScope);
      BalancedAppend(l, s);
    }
  }

  lemma {:induction false} OptionalScopesBalanced(scopes: Option<ScopeSequence>)
    ensures Balanced(OptionalScopesCalls(scopes))
    decreases scopes
  {
    match scopes
    case None => FlatBalanced([]);
    case Some(ss) => ScopeSequenceBalanced(ss);
  }

  lemma FunctionEnclosed(f: Function)
    ensures Enclosed(FunctionCalls(f))
  {
    var r := match f.returnType
      case None => []
      case Some(t) => ReturnTypeCalls(t);
    match f.returnType {
      case None => FlatBalanced([]);
      case Some(t) =>
        ReturnTypeEnclosed(t);
        EnclosedBalanced(r);
    }
    OptionalScopesBalanced(f.scopes);
    FunctionIdentifierBalanced(f.identifier);
    Wrapped3(BeginFunction, r, OptionalScopesCalls(f.scopes), FunctionIdentifierCalls(f.identifier), EndFunction);
  }

  /** Walking the whole name makes `begin` first and `end` last, and every pair
      opened in between is closed in between, innermost first. */
  lemma WholeEnclosed(w: Whole)
    ensures Enclosed(WholeCalls(w))
    ensures WholeCalls(w)[0] == Begin && WholeCalls(w)[|WholeCalls(w)| - 1] == End
  {
    match w
    case WholeType(t) =>
      TypeEnclosed(t);
      EnclosedBalanced(TypeCalls(t));
      Wrapped(Begin, TypeCalls(t), End);
    case WholeFunction(f) =>
      FunctionEnclosed(f);
      EnclosedBalanced(FunctionCalls(f));
      Wrapped(Begin, FunctionCalls(f), End);
  }

  // ---------------------------------------------------------------------------
  // What the calls say about the tokens
  // ---------------------------------------------------------------------------

  /** `is_template` holds exactly when the identifier's walk ends with
      `end_template_args`. */
  lemma IsTemplateCalls(id: Identifier)
    ensures |IdentifierCalls(id)| > 0
    ensures IsTemplate(id) <==> IdentifierCalls(id)[|IdentifierCalls(id)| - 1] == EndTemplateArgs
  {
    var c := ContentCalls(id.content);
    assert c[|c| - 1] != EndTemplateArgs by {
      match id.content
      case Name(_) =>
      case OperatorName(SymbolText(_)) =>
      case OperatorName(SymbolType(target)) =>
    }
    if id.templateArgs.None? {
      assert IdentifierCalls(id) == c + [];
    }
  }

  /** `Identifier::is_void` holds exactly when the identifier's walk starts by
      adding the name "void". */
  lemma IsVoidCalls(id: Identifier)
    ensures |IdentifierCalls(id)| > 0
    ensures IdentifierIsVoid(id) <==> IdentifierCalls(id)[0] == AddIdentifier("void")
  {
    var c := ContentCalls(id.content);
    assert IdentifierCalls(id)[0] == c[0];
  }

  /** Each layer after the first is announced by one `add_ptr`. */
  lemma {:induction false} PtrCount(layers: Layers)
    ensures multiset(LayersCalls(layers))[AddPtr] == |layers| - 1
    decreases |layers|
  {
    if |layers| > 1 {
      PtrCount(layers[..|layers| - 1]);
      assert LayerCalls(layers[|layers| - 1]) == [] || LayerCalls(layers[|layers| - 1])[0] != AddPtr;
    }
  }

  /** `has_ptr` holds exactly when the specs' walk adds a pointer. */
  lemma HasPtrCalls(s: Specs)
    ensures HasPtr(s) <==> AddPtr in SpecsCalls(s)
  {
    PtrCount(s.layers);
    var l, r, n := LayersCalls(s.layers), RefCalls(s.refness), if s.isNoexcept then [AddNoexcept] else [];
    assert AddPtr !in r by {
      match s.refness
      case NoRef =>
      case LValue =>
      case RValue =>
    }
    assert AddPtr !in n;
    assert AddPtr in l <==> multiset(l)[AddPtr] > 0;
  }

  /** A merged layer makes exactly the calls of both layers. */
  lemma MergeCalls(a: Layer, b: Layer)
    requires Mergeable(a, b)
    ensures multiset(LayerCalls(Merge(a, b))) == multiset(LayerCalls(a)) + multiset(LayerCalls(b))
  {
  }

  // Reading specs back from their calls

  /** The layer whose calls end `cs`, and how many calls it took. */
  function TrailingLayer(cs: seq<Call>): (r: (Layer, nat))
    ensures r.1 <= |cs|
  {
    var n := |cs|;
    if 2 <= n && cs[n - 2] == AddConst && cs[n - 1] == AddVolatile then (Layer(true, true), 2)
    else if 1 <= n && cs[n - 1] == AddConst then (Layer(true, false), 1)
    else if 1 <= n && cs[n - 1] == AddVolatile then (Layer(false, true), 1)
    else (PlainLayer, 0)
  }

  /** The layers whose calls are `cs`, read from the back. */
  function DecodeLayers(cs: seq<Call>): Option<Layers>
    decreases |cs|
  {
    var last := TrailingLayer(cs);
    var rest := cs[..|cs| - last.1];
    if rest == [] then
      var one: Layers := [last.0];
      Some(one)
    else if rest[|rest| - 1] != AddPtr then None
    else
      match DecodeLayers(rest[..|rest| - 1])
      case None => None
      case Some(layers) =>
        var more: Layers := layers + [last.0];
        Some(more)
  }

  /** Whether `cs` ends with `add_noexcept`, and the calls before it. */
  function TrailingNoexcept(cs: seq<Call>): (r: (bool, seq<Call>))
  {
    if 0 < |cs| && cs[|cs| - 1] == AddNoexcept then (true, cs[..|cs| - 1]) else (false, cs)
  }

  /** The reference `cs` ends with, and the calls before it. */
  function TrailingRef(cs: seq<Call>): (r: (Refness, seq<Call>))
  {
    if 0 < |cs| && cs[|cs| - 1] == AddLValueRef then (LValue, cs[..|cs| - 1])
    else if 0 < |cs| && cs[|cs| - 1] == AddRValueRef then (RValue, cs[..|cs| - 1])
    else (NoRef, cs)
  }

  /** The specs whose calls are `cs`. */
  function DecodeSpecs(cs: seq<Call>): Option<Specs>
  {
    var noexcept := TrailingNoexcept(cs);
    var refness := TrailingRef(noexcept.1);
    match DecodeLayers(refness.1)
    case None => None
    case Some(layers) => Some(Specs(layers, refness.0, noexcept.0))
  }

  lemma TrailingLayerOf(prefix: seq<Call>, l: Layer)
    requires prefix == [] || prefix[|prefix| - 1] == AddPtr
    ensures TrailingLayer(prefix + LayerCalls(l)) == (l, |LayerCalls(l)|)
  {
  }

  lemma DecodeOneLayer(l: Layer)
    ensures DecodeLayers(LayerCalls(l)).Some? && DecodeLayers(LayerCalls(l)).value == [l]
  {
    TrailingLayerOf([], l);
    assert [] + LayerCalls(l) == LayerCalls(l);
  }

  lemma DecodeAfterPtr(cs: seq<Call>, init: Layers, l: Layer)
    requires DecodeLayers(cs) == Some(init)
    ensures DecodeLayers(cs + [AddPtr] + LayerCalls(l)).Some?
    ensures DecodeLayers(cs + [AddPtr] + LayerCalls(l)).value == init + [l]
  {
    var prefix := cs + [AddPtr];
    TrailingLayerOf(prefix, l);
    var all := prefix + LayerCalls(l);
    assert all[..|all| - |LayerCalls(l)|] == prefix;
    assert prefix[..|prefix| - 1] == cs;
  }

  lemma {:induction false} LayersRoundTrip(layers: Layers)
    ensures DecodeLayers(LayersCalls(layers)).Some?
    ensures DecodeLayers(LayersCalls(layers)).value == layers
    decreases |layers|
  {
    var l := layers[|layers| - 1];
    if |layers| == 1 {
      DecodeOneLayer(l);
      assert [l] == layers;
    } else {
      var init := layers[..|layers| - 1];
      var cs := LayersCalls(init);
      LayersRoundTrip(init);
      DecodeAfterPtr(cs, init, l);
      assert LayersCalls(layers) == cs + [AddPtr] + LayerCalls(l);
      DropLastAppend(layers);
    }
  }

  lemma DropLastAppend<T>(s: seq<T>)
    requires 0 < |s|
    ensures s[..|s| - 1] + [s[|s| - 1]] == s
  {
  }

  lemma TrailingNoexceptOf(cs: seq<Call>, noexcept: bool)
    requires cs == [] || cs[|cs| - 1] != AddNoexcept
    ensures TrailingNoexcept(cs + if noexcept then [AddNoexcept] else []) == (noexcept, cs)
  {
    if noexcept {
      assert (cs + [AddNoexcept])[..|cs|] == cs;
    } else {
      assert cs + [] == cs;
    }
  }

  lemma TrailingRefOf(cs: seq<Call>, r: Refness)
    requires cs == [] || (cs[|cs| - 1] != AddLValueRef && cs[|cs| - 1] != AddRValueRef)
    ensures TrailingRef(cs + RefCalls(r)) == (r, cs)
  {
    match r
    case NoRef =>
      assert cs + [] == cs;
    case LValue =>
      var all := cs + [AddLValueRef];
      assert all[|all| - 1] == AddLValueRef;
      assert all[..|all| - 1] == cs;
    case RValue =>
      var all := cs + [AddRValueRef];
      assert all[|all| - 1] == AddRValueRef;
      assert all[..|all| - 1] == cs;
  }

  /** Reading the reference and noexcept back off the end of the calls leaves
      the layers' calls. */
  lemma TrailingSpecsOf(cs: seq<Call>, r: Refness, noexcept: bool)
    requires cs == [] || IsLayerCall(cs[|cs| - 1])
    ensures TrailingNoexcept(cs + RefCalls(r) + if noexcept then [AddNoexcept] else []) == (noexcept, cs + RefCalls(r))
    ensures TrailingRef(cs + RefCalls(r)) == (r, cs)
  {
    TrailingRefOf(cs, r);
    var cs1 := cs + RefCalls(r);
    assert cs1 == [] || cs1[|cs1| - 1] != AddNoexcept by {
      if r == NoRef {
        assert cs1 == cs;
      }
    }
    TrailingNoexceptOf(cs1, noexcept);
  }

  /** The walk of specs determines them: `DecodeSpecs` undoes `SpecsCalls`. */
  lemma SpecsRoundTrip(s: Specs)
    ensures DecodeSpecs(SpecsCalls(s)) == Some(s)
  {
    LayersRoundTrip(s.layers);
    LayersLast(s.layers);
    TrailingSpecsOf(LayersCalls(s.layers), s.refness, s.isNoexcept);
  }

  // ---------------------------------------------------------------------------
  // Growing a token and its walk
  // ---------------------------------------------------------------------------

  /** `scopes.emplace_back(scope)`. */
  function Extend(ss: ScopeSequence, scope: Scope): (r: ScopeSequence)
    ensures r.Scopes() == ss.Scopes() + [scope]
  {
    ScopeSequence(ss.first, ss.more + [scope])
  }

  /** A scope added to a sequence is walked after the ones before it. */
  lemma ExtendCalls(ss: ScopeSequence, scope: Scope)
    ensures ScopeSequenceCalls(Extend(ss, scope)) == ScopeSequenceCalls(ss) + ScopeCalls(scope)
  {
    var more := ss.more + [scope];
    assert more[..|more| - 1] == ss.more;
  }

  /** A type added to a non-empty argument sequence is walked after an `add_arg`. */
  lemma AppendArgCalls(args: ArgSequence, t: Type)
    requires |args.types| > 0
    ensures ArgCalls(ArgSequence(args.types + [t])) == ArgCalls(args) + [AddArg] + TypeCalls(t)
  {
    var types := args.types + [t];
    assert types[..|types| - 1] == args.types;
  }

  /** Giving an identifier template arguments appends their wrapped walk. */
  lemma TemplateCalls(id: Identifier, args: ArgSequence)
    requires !IsTemplate(id)
    ensures IdentifierCalls(id.(templateArgs := Some(args))) == IdentifierCalls(id) + TemplateArgsCalls(args)
  {
    assert IdentifierCalls(id) == ContentCalls(id.content) + [];
  }
}
