/** The reductions of the type-name parser's token stack (NameParserReductions.hpp).
    Each `try_reduce_*` looks at the top of the stack, and either rewrites a
    suffix of it into one bigger token and answers true, or leaves it alone and
    answers false. The rewrites are pure functions from the old stack to the new
    one (`None`: the reduction does not apply); `TokenStack` performs them in
    place, step by step, and is proved to agree with them. */
module ParserReductions {
  import opened Wrappers
  import opened ParserTokens

  // ---------------------------------------------------------------------------
  // Tokens
  // ---------------------------------------------------------------------------

  /** `Token`: the alternatives of the token variant. Punctuation tokens carry a
      slice of the input in the source; only the placeholder reduction reads it,
      and there it is a parameter. */
  datatype Token =
    | Space | OperatorKeyword | ScopeResolution | ArgSeparator
    | OpeningAngle | ClosingAngle | OpeningParens | ClosingParens
    | OpeningCurly | ClosingCurly | OpeningBacktick | ClosingSingleQuote | TypeContext
    | IdentifierToken(identifier: Identifier)
    | FunctionIdentifierToken(functionIdentifier: FunctionIdentifier)
    | ScopeSequenceToken(scopeSequence: ScopeSequence)
    | ArgSequenceToken(args: ArgSequence)
    | FunctionArgsToken(functionArgs: FunctionArgs)
    | FunctionContextToken(context: FunctionContext)
    | FunctionPtrToken(ptr: FunctionPtr)
    | SpecsToken(specs: Specs)
    | TypeToken(t: Type)
    | EndToken(whole: Whole)

  /** Which alternative a token holds: the type arguments of `is_suffix_of`. */
  datatype Kind =
    | KSpace | KOperatorKeyword | KScopeResolution | KArgSeparator
    | KOpeningAngle | KClosingAngle | KOpeningParens | KClosingParens
    | KOpeningCurly | KClosingCurly | KOpeningBacktick | KClosingSingleQuote | KTypeContext
    | KIdentifier | KFunctionIdentifier | KScopeSequence | KArgSequence | KFunctionArgs
    | KFunctionContext | KFunctionPtr | KSpecs | KType | KEnd

  /** `std::holds_alternative`: token `t` holds alternative `k`. */
  predicate Holds(t: Token, k: Kind)
  {
    match k
    case KSpace => t.Space?
    case KOperatorKeyword => t.OperatorKeyword?
    case KScopeResolution => t.ScopeResolution?
    case KArgSeparator => t.ArgSeparator?
    case KOpeningAngle => t.OpeningAngle?
    case KClosingAngle => t.ClosingAngle?
    case KOpeningParens => t.OpeningParens?
    case KClosingParens => t.ClosingParens?
    case KOpeningCurly => t.OpeningCurly?
    case KClosingCurly => t.ClosingCurly?
    case KOpeningBacktick => t.OpeningBacktick?
    case KClosingSingleQuote => t.ClosingSingleQuote?
    case KTypeContext => t.TypeContext?
    case KIdentifier => t.IdentifierToken?
    case KFunctionIdentifier => t.FunctionIdentifierToken?
    case KScopeSequence => t.ScopeSequenceToken?
    case KArgSequence => t.ArgSequenceToken?
    case KFunctionArgs => t.FunctionArgsToken?
    case KFunctionContext => t.FunctionContextToken?
    case KFunctionPtr => t.FunctionPtrToken?
    case KSpecs => t.SpecsToken?
    case KType => t.TypeToken?
    case KEnd => t.EndToken?
  }

  /** `Identifier::is_reserved`, which NameParserTokens.hpp does not define: a
      plain name starting with "__", such as `__cdecl` or `__ptr64`. */
  predicate IsReserved(id: Identifier)
  {
    id.content.Name? && 2 <= |id.content.text| && id.content.text[..2] == "__"
  }

  /** `Type::specs()`, which NameParserTokens.hpp does not define: the specs a
      regular type carries, those of a function type's context, and the pointer
      specs of a function-pointer type. */
  function TypeSpecs(t: Type): Specs
  {
    match t
    case RegularType(_, _, specs) => specs
    case FunctionType(_, ctx) => ctx.specs
    case FunctionPtrType(_, _, specs, _) => specs
  }

  // ---------------------------------------------------------------------------
  // Looking at the top of the stack
  // ---------------------------------------------------------------------------

  /** `detail::is_suffix_of`: compares the last kind with the top token, then the
      kinds before it with the tokens below. */
  predicate SuffixFrom(kinds: seq<Kind>, s: seq<Token>)
    requires |kinds| > 0
    decreases |kinds|
  {
    |s| > 0 && Holds(s[|s| - 1], kinds[|kinds| - 1])
    && (|kinds| == 1 || SuffixFrom(kinds[..|kinds| - 1], s[..|s| - 1]))
  }

  /** `is_suffix_of<T1, ..., Tk>`. */
  predicate IsSuffixOf(kinds: seq<Kind>, s: seq<Token>)
    requires |kinds| > 0
  {
    |kinds| <= |s| && SuffixFrom(kinds, s)
  }

  /** The stack holds at least k tokens and the top k hold the kinds, from the
      bottom one to the top one. */
  lemma {:induction false} IsSuffixOfMeans(kinds: seq<Kind>, s: seq<Token>)
    requires |kinds| > 0
    ensures IsSuffixOf(kinds, s) <==>
      |kinds| <= |s| && forall i :: 0 <= i < |kinds| ==> Holds(s[|s| - |kinds| + i], kinds[i])
    decreases |kinds|
  {
    if |kinds| > 1 && |s| > 0 {
      var ks, s' := kinds[..|kinds| - 1], s[..|s| - 1];
      IsSuffixOfMeans(ks, s');
      if |kinds| <= |s| && forall i :: 0 <= i < |kinds| ==> Holds(s[|s| - |kinds| + i], kinds[i]) {
        forall i | 0 <= i < |ks|
          ensures Holds(s'[|s'| - |ks| + i], ks[i])
        {
          assert s'[|s'| - |ks| + i] == s[|s| - |kinds| + i];
        }
      }
      if IsSuffixOf(kinds, s) {
        SuffixLength(ks, s');
        forall i | 0 <= i < |kinds|
          ensures Holds(s[|s| - |kinds| + i], kinds[i])
        {
          if i < |ks| {
            assert s[|s| - |kinds| + i] == s'[|s'| - |ks| + i];
          }
        }
      }
    }
  }

  /** The length check of `is_suffix_of` is implied by the comparisons. */
  lemma {:induction false} SuffixLength(kinds: seq<Kind>, s: seq<Token>)
    requires |kinds| > 0 && SuffixFrom(kinds, s)
    ensures |kinds| <= |s|
    decreases |kinds|
  {
    if |kinds| > 1 {
      SuffixLength(kinds[..|kinds| - 1], s[..|s| - 1]);
    }
  }

  /** `is_suffix_of<T>`: the top token holds `k`. */
  predicate Top(k: Kind, s: seq<Token>)
  {
    0 < |s| && Holds(s[|s| - 1], k)
  }

  /** `Top` is the one-kind case of `IsSuffixOf`. */
  lemma TopIsSuffix(k: Kind, s: seq<Token>)
    ensures Top(k, s) <==> IsSuffixOf([k], s)
  {
    IsSuffixOfMeans([k], s);
  }

  /** Tokens of the given kinds pushed on any stack are its matching suffix. */
  lemma MatchTail(kinds: seq<Kind>, rest: seq<Token>, tail: seq<Token>)
    requires 0 < |kinds| == |tail| && forall i :: 0 <= i < |tail| ==> Holds(tail[i], kinds[i])
    ensures MatchSuffix(kinds, rest + tail) == Some(tail)
    ensures RemoveSuffix(rest + tail, |kinds|) == rest
  {
    var s := rest + tail;
    IsSuffixOfMeans(kinds, s);
    forall i | 0 <= i < |kinds|
      ensures Holds(s[|s| - |kinds| + i], kinds[i])
    {
      assert s[|s| - |kinds| + i] == tail[i];
    }
    assert s[|s| - |kinds|..] == tail;
    assert s[..|s| - |kinds|] == rest;
  }

  /** The top token. */
  function Last(s: seq<Token>): Token
    requires |s| > 0
  {
    s[|s| - 1]
  }

  /** `match_suffix<T1, ..., Tk>`: the top k tokens when they hold the kinds. */
  function MatchSuffix(kinds: seq<Kind>, s: seq<Token>): (r: Option<seq<Token>>)
    requires |kinds| > 0
    ensures r.Some? <==> IsSuffixOf(kinds, s)
    ensures r.Some? ==> |r.value| == |kinds| && s == s[..|s| - |kinds|] + r.value
    ensures r.Some? ==> forall i :: 0 <= i < |kinds| ==> Holds(r.value[i], kinds[i])
  {
    IsSuffixOfMeans(kinds, s);
    if IsSuffixOf(kinds, s) then Some(s[|s| - |kinds|..]) else None
  }

  /** `remove_suffix`: the view loses its top `count` tokens. */
  function RemoveSuffix(s: seq<Token>, count: nat): (r: seq<Token>)
    requires count <= |s|
    ensures |r| == |s| - count && r == s[..|r|]
  {
    s[..|s| - count]
  }

  /** `ignore_space`. */
  function IgnoreSpace(s: seq<Token>): (r: seq<Token>)
    ensures r == s || (Top(KSpace, s) && r == s[..|s| - 1])
    ensures |r| <= |s| && r == s[..|r|]
  {
    if Top(KSpace, s) then RemoveSuffix(s, 1) else s
  }

  /** `ignore_reserved_identifier`. */
  function IgnoreReservedIdentifier(s: seq<Token>): (r: seq<Token>)
    ensures r == s || (Top(KIdentifier, s) && IsReserved(Last(s).identifier) && r == s[..|s| - 1])
    ensures |r| <= |s| && r == s[..|r|]
  {
    if Top(KIdentifier, s) && IsReserved(Last(s).identifier) then RemoveSuffix(s, 1) else s
  }

  // ---------------------------------------------------------------------------
  // The reductions, as functions of the stack
  // ---------------------------------------------------------------------------

  lemma PrefixChain(a: seq<Token>, b: seq<Token>, c: seq<Token>)
    requires |a| <= |b| <= |c| && a == b[..|a|] && b == c[..|b|]
    ensures a == c[..|a|]
  {
  }

  /** One token put on `rest`, a stack cut below the top of `p`, which is itself
      the bottom of `s`: a rewrite of `s` that shrinks it. */
  lemma ReplacesSuffix(rest: seq<Token>, p: seq<Token>, s: seq<Token>, r: seq<Token>)
    requires |rest| + 1 < |p| <= |s| && rest == p[..|rest|] && p == s[..|p|]
    requires |r| == |rest| + 1 && r[..|rest|] == rest
    ensures Rewrites(s, r) && |r| < |s|
  {
    PrefixChain(rest, p, s);
  }

  /** `r` is `s` with a suffix replaced by one token: what lies below the
      reduced tokens is left as it was. */
  predicate Rewrites(s: seq<Token>, r: seq<Token>)
  {
    0 < |r| <= |s| && r[..|r| - 1] == s[..|r| - 1]
  }

  /** The stack with its top token put on a scope sequence: the one directly
      below is extended, or a new one is pushed. */
  function PushScope(s: seq<Token>, scope: Scope): (r: seq<Token>)
  {
    if Top(KScopeSequence, s) then RemoveSuffix(s, 1) + [ScopeSequenceToken(Extend(Last(s).scopeSequence, scope))]
    else s + [ScopeSequenceToken(ScopeSequence(scope, []))]
  }

  /** `try_reduce_as_scope_sequence`: `Identifier ::` or `FunctionIdentifier ::`
      becomes a scope. */
  function ScopeSequenceReduction(s: seq<Token>): (r: Option<seq<Token>>)
    ensures r.Some? ==> Rewrites(s, r.value)
  {
    if !Top(KScopeResolution, s) then None
    else
      var pending := RemoveSuffix(s, 1);
      if Top(KIdentifier, pending) then Some(PushScope(RemoveSuffix(pending, 1), IdentifierScope(Last(pending).identifier)))
      else if Top(KFunctionIdentifier, pending) then Some(PushScope(RemoveSuffix(pending, 1), FunctionScope(Last(pending).functionIdentifier)))
      else None
  }

  /** `try_reduce_as_arg_sequence`: `ArgSequence , Type` takes the type in, and a
      lone `Type` starts an argument sequence. */
  function ArgSequenceReduction(s: seq<Token>): (r: Option<seq<Token>>)
    ensures r.Some? ==> Rewrites(s, r.value)
  {
    var suffix := MatchSuffix([KArgSequence, KArgSeparator, KType], s);
    if suffix.Some? then
      Some(RemoveSuffix(s, 3) + [ArgSequenceToken(ArgSequence(suffix.value[0].args.types + [suffix.value[2].t]))])
    else if Top(KType, s) then
      Some(RemoveSuffix(s, 1) + [ArgSequenceToken(ArgSequence([Last(s).t]))])
    else None
  }

  /** `try_reduce_as_template_identifier`: `Identifier < ArgSequence? >` on an
      identifier without template arguments gives it the (possibly empty)
      arguments. */
  function TemplateIdentifierReduction(s: seq<Token>): (r: Option<seq<Token>>)
    ensures r.Some? ==> Rewrites(s, r.value)
  {
    if !Top(KClosingAngle, s) then None
    else
      var p1 := RemoveSuffix(s, 1);
      var args := if Top(KArgSequence, p1) then Last(p1).args else ArgSequence([]);
      var p2 := if Top(KArgSequence, p1) then RemoveSuffix(p1, 1) else p1;
      if !Top(KOpeningAngle, p2) then None
      else
        var p3 := RemoveSuffix(p2, 1);
        if !Top(KIdentifier, p3) || IsTemplate(Last(p3).identifier) then None
        else Some(RemoveSuffix(p3, 1) + [IdentifierToken(Last(p3).identifier.(templateArgs := Some(args)))])
  }

  /** The arguments a function context keeps: a sole `void` stands for none. */
  function ContextArgs(args: ArgSequence): (r: ArgSequence)
    ensures r == args || r == ArgSequence([])
    ensures !(|r.types| == 1 && IsVoid(r.types[0]))
    ensures r == ArgSequence([]) <==> |args.types| == 0 || (|args.types| == 1 && IsVoid(args.types[0]))
  {
    if |args.types| != 1 || !IsVoid(args.types[0]) then args else ArgSequence([])
  }

  /** `try_reduce_as_function_context`: `( ArgSequence? )`, unless it follows a
      `::` or a scope sequence. */
  function FunctionContextReduction(s: seq<Token>): (r: Option<seq<Token>>)
    ensures r.Some? ==> Rewrites(s, r.value)
  {
    if !Top(KClosingParens, s) then None
    else
      var p1 := RemoveSuffix(s, 1);
      var args := if Top(KArgSequence, p1) then Last(p1).args else ArgSequence([]);
      var p2 := if Top(KArgSequence, p1) then RemoveSuffix(p1, 1) else p1;
      if !Top(KOpeningParens, p2) then None
      else
        var p3 := RemoveSuffix(p2, 1);
        if Top(KScopeResolution, p3) || Top(KScopeSequence, p3) then None
        else Some(p3 + [FunctionContextToken(FunctionContext(FunctionArgs(ContextArgs(args)), NoSpecs))])
  }

  /** `try_reduce_as_function_identifier`: `Identifier FunctionContext`, above
      which a space and a reserved identifier are dropped. */
  function FunctionIdentifierReduction(s: seq<Token>): (r: Option<seq<Token>>)
    ensures r.Some? ==> Rewrites(s, r.value)
  {
    var p := IgnoreReservedIdentifier(IgnoreSpace(s));
    var kinds := [KIdentifier, KFunctionContext];
    var suffix := MatchSuffix(kinds, p);
    if suffix.Some? then
      var m := suffix.value;
      FunctionIdentifierSuffix(kinds, m);
      var r := RemoveSuffix(p, 2) + [FunctionIdentifierToken(FunctionIdentifier(m[0].identifier, m[1].context))];
      ReplacesSuffix(RemoveSuffix(p, 2), p, s, r);
      Some(r)
    else None
  }

  lemma FunctionIdentifierSuffix(kinds: seq<Kind>, m: seq<Token>)
    requires kinds == [KIdentifier, KFunctionContext]
    requires |m| == |kinds| && forall i :: 0 <= i < |kinds| ==> Holds(m[i], kinds[i])
    ensures m[0].IdentifierToken? && m[1].FunctionContextToken?
  {
    assert Holds(m[0], kinds[0]) && Holds(m[1], kinds[1]);
  }

  /** `is_identifier_prefix`: what may lie directly below an identifier. */
  predicate IsIdentifierPrefix(s: seq<Token>)
  {
    s == [] || Top(KSpace, s) || Top(KScopeSequence, s) || Top(KSpecs, s) || Top(KType, s)
    || Top(KTypeContext, s) || Top(KOpeningAngle, s) || Top(KOpeningParens, s) || Top(KOpeningBacktick, s)
  }

  /** The position of the last token holding `k`, if any. */
  function LastOf(s: seq<Token>, k: Kind): (r: Option<nat>)
    ensures r.Some? ==> r.value < |s|
  {
    if s == [] then None
    else if Holds(Last(s), k) then Some(|s| - 1)
    else LastOf(s[..|s| - 1], k)
  }

  /** `LastOf` finds a token holding `k`, and none holds it above that one. */
  lemma {:induction false} LastOfIsLast(s: seq<Token>, k: Kind)
    ensures var r := LastOf(s, k);
      (r.Some? ==> Holds(s[r.value], k))
      && forall i :: (if r.Some? then r.value + 1 else 0) <= i < |s| ==> !Holds(s[i], k)
    decreases |s|
  {
    if s != [] && !Holds(Last(s), k) {
      var s' := s[..|s| - 1];
      LastOfIsLast(s', k);
      assert forall i :: 0 <= i < |s'| ==> s'[i] == s[i];
    }
  }

  /** `try_reduce_as_placeholder_identifier_wrapped`: everything from the nearest
      opening token up to the closing one on top becomes one identifier. Its text
      is the input between the two, which the tokens do not carry: `content`. */
  function PlaceholderReduction(s: seq<Token>, opening: Kind, closing: Kind, content: Text): (r: Option<seq<Token>>)
    requires Top(closing, s)
    ensures r.Some? ==> Rewrites(s, r.value) && Last(r.value) == IdentifierToken(Identifier(Name(content), None))
  {
    var pending := RemoveSuffix(s, 1);
    match LastOf(pending, opening)
    case None => None
    case Some(i) =>
      if !IsIdentifierPrefix(pending[..i]) then None
      else Some(IgnoreSpace(pending[..i]) + [IdentifierToken(Identifier(Name(content), None))])
  }

  /** `try_reduce_as_function_type`: `Type Space FunctionContext`, where the
      space may also be a reserved identifier and a reserved identifier (the
      calling convention) may follow the return type. */
  function FunctionTypeReduction(s: seq<Token>): (r: Option<seq<Token>>)
    ensures r.Some? ==> Rewrites(s, r.value)
  {
    if !Top(KFunctionContext, s) then None
    else
      var p1 := RemoveSuffix(s, 1);
      if !Top(KSpace, p1) && !(Top(KIdentifier, p1) && IsReserved(Last(p1).identifier)) then None
      else
        var p2 := IgnoreReservedIdentifier(RemoveSuffix(p1, 1));
        if !Top(KType, p2) then None
        else Some(RemoveSuffix(p2, 1) + [TypeToken(FunctionType(Last(p2).t, Last(s).context))])
  }

  /** What lies inside the pointer parentheses below the closing one: an optional
      nested function context, with an optional nested pointer below it. */
  function NestedPart(p: seq<Token>): (r: (Option<NestedInfo>, seq<Token>))
    ensures |r.1| <= |p| && r.1 == p[..|r.1|]
  {
    if !Top(KFunctionContext, p) then (None, p)
    else
      var p1 := RemoveSuffix(p, 1);
      if Top(KFunctionPtr, p1) then (Some(NestedInfo(Some(Last(p1).ptr), Last(p).context)), RemoveSuffix(p1, 1))
      else (Some(NestedInfo(None, Last(p).context)), p1)
  }

  /** The pointer's specs and scopes, and what lies below them. */
  datatype PtrParts = PtrParts(specs: Specs, scopes: Option<ScopeSequence>, rest: seq<Token>)

  /** A reserved-identifier regular type, as msvc's `__cdecl` once reduced. */
  predicate IsReservedType(t: Token)
  {
    t.TypeToken? && t.t.RegularType? && IsReserved(t.t.identifier)
  }

  /** Pointer specs with optional scopes below them (and a reserved-identifier type
      below those, which is dropped), or else a reserved-identifier regular type
      whose own specs hold the pointer. */
  function PtrPart(p: seq<Token>): (r: Option<PtrParts>)
    ensures r.Some? ==> HasPtr(r.value.specs) && |r.value.rest| < |p| && r.value.rest == p[..|r.value.rest|]
  {
    if Top(KSpecs, p) && HasPtr(Last(p).specs) then
      var p1 := RemoveSuffix(p, 1);
      var scopes := if Top(KScopeSequence, p1) then Some(Last(p1).scopeSequence) else None;
      var p2 := if Top(KScopeSequence, p1) then RemoveSuffix(p1, 1) else p1;
      var p3 := if |p2| > 0 && IsReservedType(Last(p2)) then RemoveSuffix(p2, 1) else p2;
      Some(PtrParts(Last(p).specs, scopes, p3))
    else if |p| > 0 && IsReservedType(Last(p)) && HasPtr(Last(p).t.specs) then
      Some(PtrParts(Last(p).t.specs, None, RemoveSuffix(p, 1)))
    else None
  }

  /** `try_reduce_as_function_ptr`: `( scopes? specs )` or, with a nested
      function, `( scopes? specs FunctionPtr? FunctionContext )`. */
  function FunctionPtrReduction(s: seq<Token>): (r: Option<seq<Token>>)
    ensures r.Some? ==> Rewrites(s, r.value)
    ensures r.Some? ==> |r.value| > 0 && Last(r.value).FunctionPtrToken? && HasPtr(Last(r.value).ptr.specs)
    ensures r.Some? ==> |r.value| < |s|
  {
    if !Top(KClosingParens, s) then None
    else
      var p0 := RemoveSuffix(s, 1);
      var nested := NestedPart(p0);
      var p1 := IgnoreSpace(nested.1);
      var p := IgnoreReservedIdentifier(p1);
      match PtrPart(p)
      case None => None
      case Some(part) =>
        if !Top(KOpeningParens, part.rest) then None
        else
          var rest := RemoveSuffix(part.rest, 1);
          PrefixChain(rest, part.rest, p);
          PrefixChain(rest, p, p1);
          PrefixChain(rest, p1, nested.1);
          PrefixChain(rest, nested.1, p0);
          PrefixChain(rest, p0, s);
          Some(rest + [FunctionPtrToken(FunctionPtr(part.scopes, part.specs, nested.0))])
  }

  /** The function-pointer type of return type `ret`, pointer `ptr` and context
      `ctx`, pushed on `rest`; when `ptr` carries a nested function it is that
      function's return type, so the nested part is reduced around it in turn
      (`handled_nested_function_ptr`). */
  function ApplyFunctionPtrType(rest: seq<Token>, ret: Type, ptr: FunctionPtr, ctx: FunctionContext): (r: seq<Token>)
    ensures |r| == |rest| + 1 && r[..|rest|] == rest && Last(r).TypeToken?
    decreases ptr
  {
    var t := FunctionPtrType(ret, ptr.scopes, ptr.specs, ctx);
    match ptr.nested
    case None => rest + [TypeToken(t)]
    case Some(NestedInfo(None, inner)) => rest + [TypeToken(FunctionType(t, inner))]
    case Some(NestedInfo(Some(innerPtr), inner)) => ApplyFunctionPtrType(rest, t, innerPtr, inner)
  }

  lemma FunctionPtrTypeSuffix(kinds: seq<Kind>, m: seq<Token>)
    requires kinds == [KType, KSpace, KFunctionPtr, KFunctionContext]
    requires |m| == |kinds| && forall i :: 0 <= i < |kinds| ==> Holds(m[i], kinds[i])
    ensures m[0].TypeToken? && m[2].FunctionPtrToken? && m[3].FunctionContextToken?
  {
    assert Holds(m[0], kinds[0]) && Holds(m[2], kinds[2]) && Holds(m[3], kinds[3]);
  }

  /** `try_reduce_as_function_ptr_type`: `Type Space FunctionPtr FunctionContext`,
      below a reserved identifier which is dropped. */
  function FunctionPtrTypeReduction(s: seq<Token>): (r: Option<seq<Token>>)
    ensures r.Some? ==> Rewrites(s, r.value)
    ensures r.Some? ==> |r.value| > 0 && Last(r.value).TypeToken? && |r.value| < |s|
  {
    var p := IgnoreReservedIdentifier(s);
    var kinds := [KType, KSpace, KFunctionPtr, KFunctionContext];
    var suffix := MatchSuffix(kinds, p);
    if suffix.None? then None
    else
      var m := suffix.value;
      FunctionPtrTypeSuffix(kinds, m);
      var rest := RemoveSuffix(p, 4);
      var r := ApplyFunctionPtrType(rest, m[0].t, m[2].ptr, m[3].context);
      ReplacesSuffix(rest, p, s, r);
      Some(r)
  }

  /** Prefix specs may only be a single layer of cv-qualifiers. */
  predicate IsPrefixSpecs(specs: Specs)
  {
    specs.refness == NoRef && !specs.isNoexcept && |specs.layers| == 1
  }

  /** `try_reduce_as_regular_type`: `TypeContext? Specs? ScopeSequence? Identifier`
      not directly after a `Type` or `FunctionContext`; a reserved identifier
      directly after a `Type` is dropped instead. */
  function RegularTypeReduction(s: seq<Token>): (r: Option<seq<Token>>)
    ensures r.Some? ==> Rewrites(s, r.value)
    ensures r.Some? ==> |r.value| > 0 && Last(r.value).TypeToken? && |r.value| <= |s|
  {
    if !Top(KIdentifier, s) then None
    else
      var id := Last(s).identifier;
      var p1 := RemoveSuffix(s, 1);
      if IsReserved(id) && Top(KType, p1) then Some(p1)
      else
        var scopes := if Top(KScopeSequence, p1) then Some(Last(p1).scopeSequence) else None;
        var p2 := if scopes.Some? then RemoveSuffix(p1, 1) else p1;
        var prefix := if Top(KSpecs, p2) then Some(Last(p2).specs) else None;
        if prefix.Some? && !IsPrefixSpecs(prefix.value) then None
        else
          var p3 := if prefix.Some? then RemoveSuffix(p2, 1) else p2;
          if Top(KType, p3) || Top(KFunctionContext, p3) then None
          else
            var p4 := if Top(KTypeContext, p3) then RemoveSuffix(p3, 1) else p3;
            Some(p4 + [TypeToken(RegularType(scopes, id, if prefix.Some? then prefix.value else NoSpecs))])
  }

  /** `try_reduce_as_type`: a function-pointer type, else a function type, else a
      regular type. */
  function TypeReduction(s: seq<Token>): (r: Option<seq<Token>>)
    ensures r.Some? ==> Rewrites(s, r.value)
    ensures r.Some? ==> |r.value| > 0 && Last(r.value).TypeToken? && |r.value| <= |s|
  {
    var ptrType := FunctionPtrTypeReduction(s);
    if ptrType.Some? then ptrType
    else
      var funType := FunctionTypeReduction(s);
      if funType.Some? then funType
      else RegularTypeReduction(s)
  }

  /** `try_reduce_as_function`: `Type? reserved-identifier? ScopeSequence?
      FunctionIdentifier` becomes the whole function. The source pushes the
      `Function`, which the token variant holds as an `End`. */
  function FunctionReduction(s: seq<Token>): (r: Option<seq<Token>>)
    ensures r.Some? ==> Rewrites(s, r.value)
    ensures r.Some? ==> |r.value| > 0 && Last(r.value).EndToken? && |r.value| <= |s|
  {
    if !Top(KFunctionIdentifier, s) then None
    else
      var p1 := RemoveSuffix(s, 1);
      var scopes := if Top(KScopeSequence, p1) then Some(Last(p1).scopeSequence) else None;
      var p2 := IgnoreReservedIdentifier(if scopes.Some? then RemoveSuffix(p1, 1) else p1);
      var ret := if Top(KType, p2) then Some(Last(p2).t) else None;
      var p3 := if ret.Some? then RemoveSuffix(p2, 1) else p2;
      Some(p3 + [EndToken(WholeFunction(Function(ret, scopes, Last(s).functionIdentifier)))])
  }

  /** `reduce_as_conversion_operator_function_identifier`: `operator Type
      FunctionContext?` becomes an operator identifier naming the type, with the
      context reduced onto it. `None`: one of its assertions fails. */
  function ConversionOperatorReduction(s: seq<Token>): (r: Option<seq<Token>>)
    ensures r.Some? ==> 0 < |r.value|
    ensures r.Some? && 0 < |s| && Last(s).FunctionContextToken? ==>
      var top := Last(r.value);
      top.FunctionIdentifierToken? && top.functionIdentifier.context == Last(s).context
      && top.functionIdentifier.identifier.content.OperatorName?
      && top.functionIdentifier.identifier.content.symbol.SymbolType?
    ensures r.Some? && !(0 < |s| && Last(s).FunctionContextToken?) ==>
      var top := Last(r.value);
      top.IdentifierToken? && top.identifier.content.OperatorName? && top.identifier.content.symbol.SymbolType?
  {
    var ctx := if 0 < |s| && Last(s).FunctionContextToken? then Some(Last(s).context) else None;
    var s2 := ReduceTypeIfAny(if ctx.Some? then RemoveSuffix(s, 1) else s);
    var r := NameConversion(s2, ctx);
    if !IsConversion(s2) then r
    else NameConversionNamesType(s2, ctx); r
  }

  /** The stack after a type reduction, or as it was when none applies. */
  function ReduceTypeIfAny(s: seq<Token>): (r: seq<Token>)
    ensures r == s || TypeReduction(s) == Some(r)
  {
    var reduced := TypeReduction(s);
    if reduced.Some? then reduced.value else s
  }

  /** `operator Type` on the reduced stack becomes the operator identifier, with
      the context `ctx`, when there is one, reduced onto it. */
  function NameConversion(s2: seq<Token>, ctx: Option<FunctionContext>): (r: Option<seq<Token>>)
  {
    if !IsConversion(s2) then None
    else
      match ctx
      case None => Some(NamedOperator(s2))
      case Some(c) => Some(AttachContext(NamedOperator(s2), c))
  }

  /** `operator Type` on top. */
  predicate IsConversion(s: seq<Token>)
  {
    Top(KType, s) && Top(KOperatorKeyword, s[..|s| - 1])
  }

  /** The keyword and the type replaced by the operator identifier naming it. */
  function NamedOperator(s: seq<Token>): (r: seq<Token>)
    requires IsConversion(s)
  {
    RemoveSuffix(s, 2) + [IdentifierToken(Identifier(OperatorName(SymbolType(Last(s).t)), None))]
  }

  /** The stack with the context pushed back and a function identifier reduction
      tried on it. */
  function AttachContext(s: seq<Token>, ctx: FunctionContext): (r: seq<Token>)
    ensures 0 < |r|
  {
    var s1 := s + [FunctionContextToken(ctx)];
    var reduced := FunctionIdentifierReduction(s1);
    if reduced.Some? then reduced.value else s1
  }

  /** A token that carries specs. */
  predicate HoldsSpecs(t: Token)
  {
    t.TypeToken? || t.FunctionContextToken? || t.SpecsToken?
  }

  /** The specs a token carries. */
  function SpecsOf(t: Token): Specs
    requires HoldsSpecs(t)
  {
    match t
    case TypeToken(ty) => TypeSpecs(ty)
    case FunctionContextToken(ctx) => ctx.specs
    case SpecsToken(specs) => specs
  }

  /** `get_or_emplace_specs`: the stack after making its top token one that
      carries the specs the caller goes on to change (`SpecsOf` its top). An
      identifier on top is reduced to a type, or dropped when reserved; a fresh
      `Specs` is pushed when nothing else carries them. `None`: an identifier on
      top that is neither, which the source asserts never happens. */
  function SpecsReduction(s: seq<Token>): (r: Option<seq<Token>>)
    ensures r.Some? ==> |r.value| > 0 && HoldsSpecs(Last(r.value))
    ensures |s| > 0 && HoldsSpecs(Last(s)) ==> r == Some(s)
    ensures (|s| == 0 || (!HoldsSpecs(Last(s)) && !Last(s).IdentifierToken?)) ==> r == Some(s + [SpecsToken(NoSpecs)])
  {
    match SettleIdentifier(s)
    case None => None
    case Some(t) => Some(EmplaceSpecs(t))
  }

  /** An identifier on top reduced to a type, or dropped when reserved; `None`
      when it is neither. */
  function SettleIdentifier(s: seq<Token>): (r: Option<seq<Token>>)
    ensures !Top(KIdentifier, s) ==> r == Some(s)
  {
    if !Top(KIdentifier, s) then Some(s)
    else
      var reduced := TypeReduction(s);
      if reduced.Some? then reduced
      else if IsReserved(Last(s).identifier) then Some(RemoveSuffix(s, 1))
      else None
  }

  /** The stack as it is when its top carries specs, else with fresh ones pushed. */
  function EmplaceSpecs(s: seq<Token>): (r: seq<Token>)
    ensures 0 < |r| && HoldsSpecs(Last(r))
    ensures r == s || r == s + [SpecsToken(NoSpecs)]
  {
    if Top(KType, s) || Top(KFunctionContext, s) || Top(KSpecs, s) then s
    else s + [SpecsToken(NoSpecs)]
  }

  // ---------------------------------------------------------------------------
  // What the reductions do
  // ---------------------------------------------------------------------------

  /** Exactly `Identifier ::` and `FunctionIdentifier ::` reduce to a scope. */
  lemma ScopeSequenceApplies(s: seq<Token>)
    ensures ScopeSequenceReduction(s).Some? <==>
      2 <= |s| && Last(s) == ScopeResolution && (s[|s| - 2].IdentifierToken? || s[|s| - 2].FunctionIdentifierToken?)
  {
    if 2 <= |s| {
      var p := RemoveSuffix(s, 1);
      assert p[|p| - 1] == s[|s| - 2];
    }
  }

  /** The scope an identifier or function-identifier token names. */
  function ScopeOf(t: Token): Scope
    requires t.IdentifierToken? || t.FunctionIdentifierToken?
  {
    if t.IdentifierToken? then IdentifierScope(t.identifier) else FunctionScope(t.functionIdentifier)
  }

  /** The new scope goes at the end of a scope sequence directly below, whose walk
      then goes on with the scope's; without one, a sequence of that scope alone
      takes the place of the two tokens. */
  lemma ScopeSequenceExtends(s: seq<Token>)
    requires ScopeSequenceReduction(s).Some?
    ensures 2 <= |s| && (s[|s| - 2].IdentifierToken? || s[|s| - 2].FunctionIdentifierToken?)
    ensures var r, scope := ScopeSequenceReduction(s).value, ScopeOf(s[|s| - 2]);
      Last(r).ScopeSequenceToken? &&
      if 3 <= |s| && s[|s| - 3].ScopeSequenceToken? then
        var below := s[|s| - 3].scopeSequence;
        |r| == |s| - 2 && Last(r).scopeSequence.Scopes() == below.Scopes() + [scope]
        && ScopeSequenceCalls(Last(r).scopeSequence) == ScopeSequenceCalls(below) + ScopeCalls(scope)
      else
        |r| == |s| - 1 && Last(r).scopeSequence == ScopeSequence(scope, [])
  {
    ScopeSequenceApplies(s);
    var p := RemoveSuffix(s, 1);
    assert p[|p| - 1] == s[|s| - 2];
    var below := RemoveSuffix(p, 1);
    var scope := ScopeOf(s[|s| - 2]);
    assert ScopeSequenceReduction(s).value == PushScope(below, scope);
    if 3 <= |s| {
      assert below[|below| - 1] == s[|s| - 3];
      if s[|s| - 3].ScopeSequenceToken? {
        ExtendCalls(s[|s| - 3].scopeSequence, scope);
      }
    }
  }

  /** A type on top is exactly what an argument sequence takes in. */
  lemma ArgSequenceApplies(s: seq<Token>)
    ensures ArgSequenceReduction(s).Some? <==> 0 < |s| && Last(s).TypeToken?
  {
    var kinds := [KArgSequence, KArgSeparator, KType];
    if MatchSuffix(kinds, s).Some? {
      IsSuffixOfMeans(kinds, s);
      assert Holds(s[|s| - 3 + 2], KType);
    }
  }

  /** After `ArgSequence ,` the type joins the sequence, walked after one more
      `add_arg`. */
  lemma ArgSequenceJoins(s: seq<Token>)
    requires 3 <= |s| && s[|s| - 3].ArgSequenceToken? && s[|s| - 2] == ArgSeparator && Last(s).TypeToken?
    ensures var below, t := s[|s| - 3].args, Last(s).t;
      var joined := ArgSequence(below.types + [t]);
      ArgSequenceReduction(s) == Some(s[..|s| - 3] + [ArgSequenceToken(joined)])
      && (0 < |below.types| ==> ArgCalls(joined) == ArgCalls(below) + [AddArg] + TypeCalls(t))
  {
    var below, t := s[|s| - 3].args, Last(s).t;
    var tail := s[|s| - 3..];
    assert s == s[..|s| - 3] + tail;
    MatchTail([KArgSequence, KArgSeparator, KType], s[..|s| - 3], tail);
    if 0 < |below.types| {
      AppendArgCalls(below, t);
    }
  }

  /** A type anywhere else starts an argument sequence of its own. */
  lemma ArgSequenceStarts(s: seq<Token>)
    requires 0 < |s| && Last(s).TypeToken?
    requires !(3 <= |s| && s[|s| - 3].ArgSequenceToken? && s[|s| - 2] == ArgSeparator)
    ensures var t := Last(s).t;
      ArgSequenceReduction(s) == Some(s[..|s| - 1] + [ArgSequenceToken(ArgSequence([t]))])
      && ArgCalls(ArgSequence([t])) == TypeCalls(t)
  {
    var kinds := [KArgSequence, KArgSeparator, KType];
    IsSuffixOfMeans(kinds, s);
  }

  /** `Identifier < ArgSequence? >` on an identifier without template arguments is
      exactly what reduces to a template identifier. */
  lemma TemplateIdentifierApplies(s: seq<Token>)
    ensures TemplateIdentifierReduction(s).Some? <==>
      3 <= |s| && Last(s) == ClosingAngle &&
      ((s[|s| - 2] == OpeningAngle && s[|s| - 3].IdentifierToken? && !IsTemplate(s[|s| - 3].identifier))
       || (4 <= |s| && s[|s| - 2].ArgSequenceToken? && s[|s| - 3] == OpeningAngle
           && s[|s| - 4].IdentifierToken? && !IsTemplate(s[|s| - 4].identifier)))
  {
    if 2 <= |s| {
      var p1 := RemoveSuffix(s, 1);
      assert p1[|p1| - 1] == s[|s| - 2];
      var p2 := if Top(KArgSequence, p1) then RemoveSuffix(p1, 1) else p1;
      if 1 <= |p2| {
        assert p2[|p2| - 1] == s[|p2| - 1];
        var p3 := RemoveSuffix(p2, 1);
        if 1 <= |p3| {
          assert p3[|p3| - 1] == s[|p3| - 1];
        }
      }
    }
  }

  /** The identifier takes the arguments between the angles (none when there are
      none), and its walk goes on with them wrapped in template-argument calls. */
  lemma TemplateIdentifierGivesArgs(s: seq<Token>)
    requires TemplateIdentifierReduction(s).Some?
    ensures 3 <= |s|
    ensures var r := TemplateIdentifierReduction(s).value;
      var hasArgs := s[|s| - 2].ArgSequenceToken?;
      var args := if hasArgs then s[|s| - 2].args else ArgSequence([]);
      var at := if hasArgs then |s| - 4 else |s| - 3;
      0 <= at && s[at].IdentifierToken? && !IsTemplate(s[at].identifier)
      && |r| == at + 1 && Last(r).IdentifierToken? && IsTemplate(Last(r).identifier)
      && IdentifierCalls(Last(r).identifier) == IdentifierCalls(s[at].identifier) + TemplateArgsCalls(args)
  {
    TemplateIdentifierApplies(s);
    var hasArgs := s[|s| - 2].ArgSequenceToken?;
    var args := if hasArgs then s[|s| - 2].args else ArgSequence([]);
    var at := if hasArgs then |s| - 4 else |s| - 3;
    var p1 := RemoveSuffix(s, 1);
    assert p1[|p1| - 1] == s[|s| - 2];
    var p2 := if Top(KArgSequence, p1) then RemoveSuffix(p1, 1) else p1;
    var p3 := RemoveSuffix(p2, 1);
    assert |p3| == at + 1 && p3[at] == s[at];
    assert TemplateIdentifierReduction(s).value == RemoveSuffix(p3, 1) + [IdentifierToken(s[at].identifier.(templateArgs := Some(args)))];
    TemplateCalls(s[at].identifier, args);
  }

  /** `( ArgSequence? )` reduces to a function context exactly when it does not
      follow a `::` or a scope sequence. */
  lemma FunctionContextApplies(s: seq<Token>)
    ensures FunctionContextReduction(s).Some? <==>
      2 <= |s| && Last(s) == ClosingParens &&
      var open := if s[|s| - 2].ArgSequenceToken? then |s| - 3 else |s| - 2;
      0 <= open && s[open] == OpeningParens
      && (open == 0 || (s[open - 1] != ScopeResolution && !s[open - 1].ScopeSequenceToken?))
  {
    if 2 <= |s| {
      var p1 := RemoveSuffix(s, 1);
      assert p1[|p1| - 1] == s[|s| - 2];
      var p2 := if Top(KArgSequence, p1) then RemoveSuffix(p1, 1) else p1;
      if 1 <= |p2| {
        assert p2[|p2| - 1] == s[|p2| - 1];
        var p3 := RemoveSuffix(p2, 1);
        if 1 <= |p3| {
          assert p3[|p3| - 1] == s[|p3| - 1];
        }
      }
    }
  }

  /** `Identifier FunctionContext` is exactly what reduces to a function
      identifier, once a space and then a reserved identifier on top are set
      aside. */
  lemma FunctionIdentifierApplies(s: seq<Token>)
    ensures var p := IgnoreReservedIdentifier(IgnoreSpace(s));
      FunctionIdentifierReduction(s).Some? <==>
        2 <= |p| && p[|p| - 2].IdentifierToken? && Last(p).FunctionContextToken?
  {
    var p := IgnoreReservedIdentifier(IgnoreSpace(s));
    PairSuffix(KIdentifier, KFunctionContext, p);
  }

  /** The two-kind case of `IsSuffixOf`. */
  lemma PairSuffix(k0: Kind, k1: Kind, s: seq<Token>)
    ensures IsSuffixOf([k0, k1], s) <==> 2 <= |s| && Holds(s[|s| - 2], k0) && Holds(s[|s| - 1], k1)
  {
    var kinds := [k0, k1];
    assert kinds[..1] == [k0];
    if 2 <= |s| {
      var s' := s[..|s| - 1];
      assert s'[|s'| - 1] == s[|s| - 2];
      assert SuffixFrom([k0], s') == Holds(s[|s| - 2], k0);
      assert SuffixFrom(kinds, s) == (Holds(s[|s| - 1], k1) && SuffixFrom([k0], s'));
    }
  }

  /** Pushing a nested function pointer and its context back on the stack, as the
      source does, and reducing again gives what `ApplyFunctionPtrType` gives. */
  lemma NestedPtrTypeAgrees(rest: seq<Token>, t: Type, ptr: FunctionPtr, ctx: FunctionContext)
    ensures FunctionPtrTypeReduction(rest + [TypeToken(t), Space, FunctionPtrToken(ptr), FunctionContextToken(ctx)])
      == Some(ApplyFunctionPtrType(rest, t, ptr, ctx))
  {
    var tail := [TypeToken(t), Space, FunctionPtrToken(ptr), FunctionContextToken(ctx)];
    var s := rest + tail;
    assert Last(s) == FunctionContextToken(ctx);
    assert IgnoreReservedIdentifier(s) == s;
    MatchTail([KType, KSpace, KFunctionPtr, KFunctionContext], rest, tail);
  }

  /** Pushing a nested function's context back on the stack, as the source does,
      and reducing again makes the function type `ApplyFunctionPtrType` makes. */
  lemma NestedFunctionTypeAgrees(rest: seq<Token>, t: Type, ctx: FunctionContext)
    ensures FunctionTypeReduction(rest + [TypeToken(t), Space, FunctionContextToken(ctx)])
      == Some(rest + [TypeToken(FunctionType(t, ctx))])
  {
    var s := rest + [TypeToken(t), Space, FunctionContextToken(ctx)];
    var p1 := RemoveSuffix(s, 1);
    assert p1 == rest + [TypeToken(t), Space];
    var p2 := RemoveSuffix(p1, 1);
    assert p2 == rest + [TypeToken(t)];
    assert RemoveSuffix(p2, 1) == rest;
  }

  /** A regular type forms around the identifier on top, with prefix specs of one
      cv-layer at most; unless the identifier is reserved and follows a type,
      which it is then dropped behind. */
  lemma RegularTypeForms(s: seq<Token>)
    requires RegularTypeReduction(s).Some?
    ensures 0 < |s| && Last(s).IdentifierToken?
    ensures var r, id := RegularTypeReduction(s).value, Last(s).identifier;
      if IsReserved(id) && 2 <= |s| && s[|s| - 2].TypeToken? then r == s[..|s| - 1]
      else Last(r).t == RegularType(Last(r).t.scopes, id, Last(r).t.specs) && IsPrefixSpecs(Last(r).t.specs)
  {
    var p1 := RemoveSuffix(s, 1);
    if 2 <= |s| {
      assert p1[|p1| - 1] == s[|s| - 2];
    }
    assert IsPrefixSpecs(NoSpecs);
  }

  /** A regular type never forms directly after a type or a function context:
      there a non-reserved identifier does not reduce. */
  lemma RegularTypeNotAdjacent(s: seq<Token>)
    requires 2 <= |s| && Last(s).IdentifierToken? && !IsReserved(Last(s).identifier)
    requires s[|s| - 2].TypeToken? || s[|s| - 2].FunctionContextToken?
    ensures RegularTypeReduction(s) == None
  {
    var p1 := RemoveSuffix(s, 1);
    assert p1[|p1| - 1] == s[|s| - 2];
    assert !Top(KScopeSequence, p1) && !Top(KSpecs, p1);
    assert Top(KType, p1) || Top(KFunctionContext, p1);
  }

  /** The operator identifier `NameConversion` pushes names the target type, and
      with a context the two become a function identifier. */
  lemma NameConversionNamesType(s2: seq<Token>, ctx: Option<FunctionContext>)
    requires IsConversion(s2)
    ensures var named := Identifier(OperatorName(SymbolType(Last(s2).t)), None);
      NameConversion(s2, ctx) == Some(match ctx
        case None => s2[..|s2| - 2] + [IdentifierToken(named)]
        case Some(c) => s2[..|s2| - 2] + [FunctionIdentifierToken(FunctionIdentifier(named, c))])
  {
    if ctx.Some? {
      ConversionContext(RemoveSuffix(s2, 2), Identifier(OperatorName(SymbolType(Last(s2).t)), None), ctx.value);
    }
  }

  /** An operator identifier with a context pushed on it reduces to a function
      identifier of the two. */
  lemma ConversionContext(rest: seq<Token>, id: Identifier, ctx: FunctionContext)
    requires id.content.OperatorName?
    ensures AttachContext(rest + [IdentifierToken(id)], ctx) == rest + [FunctionIdentifierToken(FunctionIdentifier(id, ctx))]
  {
    var tail := [IdentifierToken(id), FunctionContextToken(ctx)];
    var s := rest + tail;
    assert rest + [IdentifierToken(id)] + [FunctionContextToken(ctx)] == s;
    assert IgnoreReservedIdentifier(IgnoreSpace(s)) == s;
    MatchTail([KIdentifier, KFunctionContext], rest, tail);
  }

  // ---------------------------------------------------------------------------
  // The token stack, reduced in place
  // ---------------------------------------------------------------------------

  /** How deep function pointers nest inside `ptr`. */
  function PtrRank(ptr: FunctionPtr): nat
  {
    match ptr.nested
    case None => 0
    case Some(NestedInfo(None, _)) => 1
    case Some(NestedInfo(Some(inner), _)) => PtrRank(inner) + 1
  }

  /** The nesting depth of the function pointer a function-pointer-type reduction
      of `s` would take apart; 0 when it would not apply. */
  function PendingPtrRank(s: seq<Token>): nat
  {
    var p := IgnoreReservedIdentifier(s);
    var suffix := MatchSuffix([KType, KSpace, KFunctionPtr, KFunctionContext], p);
    if suffix.Some? then PtrRank(suffix.value[2].ptr) else 0
  }

  /** The parser's `TokenStack`: each `try_reduce_*` narrows a pending view of the
      tokens, then truncates, pushes onto or overwrites the top of the stack when
      it applies, and leaves the stack as it was when it does not. */
  class TokenStack {
    var tokens: seq<Token>

    constructor (initial: seq<Token>)
      ensures tokens == initial
    {
      tokens := initial;
    }

    /** `try_reduce_as_scope_sequence`. */
    method ReduceAsScopeSequence() returns (ok: bool)
      modifies this
      ensures ok == ScopeSequenceReduction(old(tokens)).Some?
      ensures tokens == if ok then ScopeSequenceReduction(old(tokens)).value else old(tokens)
    {
      var pending := tokens;
      if !Top(KScopeResolution, pending) {
        return false;
      }
      pending := RemoveSuffix(pending, 1);
      var scope: Scope;
      if Top(KIdentifier, pending) {
        scope := IdentifierScope(Last(pending).identifier);
      } else if Top(KFunctionIdentifier, pending) {
        scope := FunctionScope(Last(pending).functionIdentifier);
      } else {
        return false;
      }
      pending := RemoveSuffix(pending, 1);
      tokens := tokens[..|pending|];
      if Top(KScopeSequence, tokens) {
        tokens := tokens[..|tokens| - 1] + [ScopeSequenceToken(Extend(Last(tokens).scopeSequence, scope))];
      } else {
        tokens := tokens + [ScopeSequenceToken(ScopeSequence(scope, []))];
      }
      ok := true;
    }

    /** `try_reduce_as_arg_sequence`. */
    method ReduceAsArgSequence() returns (ok: bool)
      modifies this
      ensures ok == ArgSequenceReduction(old(tokens)).Some?
      ensures tokens == if ok then ArgSequenceReduction(old(tokens)).value else old(tokens)
    {
      var pending := tokens;
      var suffix := MatchSuffix([KArgSequence, KArgSeparator, KType], pending);
      if suffix.Some? {
        pending := RemoveSuffix(pending, 2);
        var joined := ArgSequence(suffix.value[0].args.types + [suffix.value[2].t]);
        tokens := tokens[..|pending|];
        tokens := tokens[..|tokens| - 1] + [ArgSequenceToken(joined)];
        return true;
      }
      if Top(KType, pending) {
        var t := Last(pending).t;
        pending := RemoveSuffix(pending, 1);
        tokens := tokens[..|pending|] + [ArgSequenceToken(ArgSequence([t]))];
        return true;
      }
      ok := false;
    }

    /** `try_reduce_as_template_identifier`. */
    method ReduceAsTemplateIdentifier() returns (ok: bool)
      modifies this
      ensures ok == TemplateIdentifierReduction(old(tokens)).Some?
      ensures tokens == if ok then TemplateIdentifierReduction(old(tokens)).value else old(tokens)
    {
      var pending := tokens;
      if !Top(KClosingAngle, pending) {
        return false;
      }
      pending := RemoveSuffix(pending, 1);
      var args: Option<ArgSequence> := None;
      if Top(KArgSequence, pending) {
        args := Some(Last(pending).args);
        pending := RemoveSuffix(pending, 1);
      }
      if !Top(KOpeningAngle, pending) {
        return false;
      }
      pending := RemoveSuffix(pending, 1);
      if !Top(KIdentifier, pending) || IsTemplate(Last(pending).identifier) {
        return false;
      }
      var id := Last(pending).identifier;
      id := id.(templateArgs := Some(if args.Some? then args.value else ArgSequence([])));
      tokens := tokens[..|pending| - 1] + [IdentifierToken(id)];
      ok := true;
    }

    /** `try_reduce_as_function_context`. */
    method ReduceAsFunctionContext() returns (ok: bool)
      modifies this
      ensures ok == FunctionContextReduction(old(tokens)).Some?
      ensures tokens == if ok then FunctionContextReduction(old(tokens)).value else old(tokens)
    {
      var pending := tokens;
      if !Top(KClosingParens, pending) {
        return false;
      }
      pending := RemoveSuffix(pending, 1);
      var args: Option<ArgSequence> := None;
      if Top(KArgSequence, pending) {
        args := Some(Last(pending).args);
        pending := RemoveSuffix(pending, 1);
      }
      if !Top(KOpeningParens, pending) {
        return false;
      }
      pending := RemoveSuffix(pending, 1);
      if Top(KScopeResolution, pending) || Top(KScopeSequence, pending) {
        return false;
      }
      var kept := ArgSequence([]);
      if args.Some? && (|args.value.types| != 1 || !IsVoid(args.value.types[0])) {
        kept := args.value;
      }
      tokens := tokens[..|pending|] + [FunctionContextToken(FunctionContext(FunctionArgs(kept), NoSpecs))];
      ok := true;
    }

    /** `try_reduce_as_function_identifier`. */
    method ReduceAsFunctionIdentifier() returns (ok: bool)
      modifies this
      ensures ok == FunctionIdentifierReduction(old(tokens)).Some?
      ensures tokens == if ok then FunctionIdentifierReduction(old(tokens)).value else old(tokens)
    {
      var pending := IgnoreReservedIdentifier(IgnoreSpace(tokens));
      var suffix := MatchSuffix([KIdentifier, KFunctionContext], pending);
      if suffix.None? {
        return false;
      }
      assert Holds(suffix.value[0], KIdentifier) && Holds(suffix.value[1], KFunctionContext);
      pending := RemoveSuffix(pending, 2);
      var fi := FunctionIdentifier(suffix.value[0].identifier, suffix.value[1].context);
      tokens := tokens[..|pending|] + [FunctionIdentifierToken(fi)];
      ok := true;
    }

    /** `try_reduce_as_placeholder_identifier_wrapped`: searches down from the
        closing token on top for the nearest opening one. */
    method ReduceAsPlaceholderIdentifierWrapped(opening: Kind, closing: Kind, content: Text) returns (ok: bool)
      requires Top(closing, tokens)
      modifies this
      ensures ok == PlaceholderReduction(old(tokens), opening, closing, content).Some?
      ensures tokens == if ok then PlaceholderReduction(old(tokens), opening, closing, content).value else old(tokens)
    {
      var pending := RemoveSuffix(tokens, 1);
      var found := FindLast(pending, opening);
      if found.None? {
        return false;
      }
      var below := pending[..found.value];
      if !IsIdentifierPrefix(below) {
        return false;
      }
      below := IgnoreSpace(below);
      tokens := tokens[..|below|] + [IdentifierToken(Identifier(Name(content), None))];
      ok := true;
    }

    /** `try_reduce_as_function_type`. */
    method ReduceAsFunctionType() returns (ok: bool)
      modifies this
      ensures ok == FunctionTypeReduction(old(tokens)).Some?
      ensures tokens == if ok then FunctionTypeReduction(old(tokens)).value else old(tokens)
    {
      var pending := tokens;
      if !Top(KFunctionContext, pending) {
        return false;
      }
      var ctx := Last(pending).context;
      pending := RemoveSuffix(pending, 1);
      if !Top(KSpace, pending) && !(Top(KIdentifier, pending) && IsReserved(Last(pending).identifier)) {
        return false;
      }
      pending := IgnoreReservedIdentifier(RemoveSuffix(pending, 1));
      if !Top(KType, pending) {
        return false;
      }
      var ret := Last(pending).t;
      pending := RemoveSuffix(pending, 1);
      tokens := tokens[..|pending|] + [TypeToken(FunctionType(ret, ctx))];
      ok := true;
    }

    /** `try_reduce_as_function_ptr`. */
    method ReduceAsFunctionPtr() returns (ok: bool)
      modifies this
      ensures ok == FunctionPtrReduction(old(tokens)).Some?
      ensures tokens == if ok then FunctionPtrReduction(old(tokens)).value else old(tokens)
    {
      var pending := tokens;
      if !Top(KClosingParens, pending) {
        return false;
      }
      var nested := NestedPart(RemoveSuffix(pending, 1));
      pending := IgnoreReservedIdentifier(IgnoreSpace(nested.1));
      var part := PtrPart(pending);
      if part.None? || !Top(KOpeningParens, part.value.rest) {
        return false;
      }
      pending := RemoveSuffix(part.value.rest, 1);
      tokens := tokens[..|pending|] + [FunctionPtrToken(FunctionPtr(part.value.scopes, part.value.specs, nested.0))];
      ok := true;
    }

    /** `try_reduce_as_function_ptr_type`: a nested function pointer is reduced in
        turn by `HandleNestedFunctionPtr`. */
    method ReduceAsFunctionPtrType() returns (ok: bool)
      modifies this
      ensures ok == FunctionPtrTypeReduction(old(tokens)).Some?
      ensures tokens == if ok then FunctionPtrTypeReduction(old(tokens)).value else old(tokens)
      decreases 2 * PendingPtrRank(tokens) + 1
    {
      var pending := IgnoreReservedIdentifier(tokens);
      var suffix := MatchSuffix([KType, KSpace, KFunctionPtr, KFunctionContext], pending);
      if suffix.None? {
        return false;
      }
      pending := RemoveSuffix(pending, 4);
      var ret, ptr, ctx := suffix.value[0].t, suffix.value[2].ptr, suffix.value[3].context;
      tokens := tokens[..|pending|] + [TypeToken(FunctionPtrType(ret, ptr.scopes, ptr.specs, ctx))];
      if ptr.nested.Some? {
        HandleNestedFunctionPtr(ptr.nested.value);
      }
      ok := true;
    }

    /** `handled_nested_function_ptr`: the type on top is the return type of the
        nested function (pointer), which is pushed back with its context and
        reduced around it. */
    method HandleNestedFunctionPtr(info: NestedInfo)
      requires 0 < |tokens| && Last(tokens).TypeToken?
      modifies this
      ensures tokens == match info.ptr
        case Some(p) => ApplyFunctionPtrType(old(tokens)[..|old(tokens)| - 1], Last(old(tokens)).t, p, info.ctx)
        case None => old(tokens)[..|old(tokens)| - 1] + [TypeToken(FunctionType(Last(old(tokens)).t, info.ctx))]
      decreases if info.ptr.Some? then 2 * PtrRank(info.ptr.value) + 2 else 0
    {
      ghost var rest, t := tokens[..|tokens| - 1], Last(tokens).t;
      assert tokens == rest + [TypeToken(t)];
      tokens := tokens + [Space];
      if info.ptr.Some? {
        tokens := tokens + [FunctionPtrToken(info.ptr.value)];
      }
      tokens := tokens + [FunctionContextToken(info.ctx)];
      match info.ptr {
        case Some(p) =>
          assert tokens == rest + [TypeToken(t), Space, FunctionPtrToken(p), FunctionContextToken(info.ctx)];
          NestedPtrTypeAgrees(rest, t, p, info.ctx);
          NestedPtrRank(rest, t, p, info.ctx);
          var _ := ReduceAsFunctionPtrType();
        case None =>
          assert tokens == rest + [TypeToken(t), Space, FunctionContextToken(info.ctx)];
          NestedFunctionTypeAgrees(rest, t, info.ctx);
          var _ := ReduceAsFunctionType();
      }
    }

    /** `try_reduce_as_regular_type`. */
    method ReduceAsRegularType() returns (ok: bool)
      modifies this
      ensures ok == RegularTypeReduction(old(tokens)).Some?
      ensures tokens == if ok then RegularTypeReduction(old(tokens)).value else old(tokens)
    {
      var pending := tokens;
      if !Top(KIdentifier, pending) {
        return false;
      }
      var id := Last(pending).identifier;
      pending := RemoveSuffix(pending, 1);
      if IsReserved(id) && Top(KType, pending) {
        tokens := tokens[..|tokens| - 1];
        return true;
      }
      var scopes: Option<ScopeSequence> := None;
      if Top(KScopeSequence, pending) {
        scopes := Some(Last(pending).scopeSequence);
        pending := RemoveSuffix(pending, 1);
      }
      var prefix: Option<Specs> := None;
      if Top(KSpecs, pending) {
        prefix := Some(Last(pending).specs);
        if !IsPrefixSpecs(prefix.value) {
          return false;
        }
        pending := RemoveSuffix(pending, 1);
      }
      if Top(KType, pending) || Top(KFunctionContext, pending) {
        return false;
      }
      var t := RegularType(scopes, id, if prefix.Some? then prefix.value else NoSpecs);
      if Top(KTypeContext, pending) {
        pending := RemoveSuffix(pending, 1);
      }
      tokens := tokens[..|pending|] + [TypeToken(t)];
      ok := true;
    }

    /** `try_reduce_as_type`. */
    method ReduceAsType() returns (ok: bool)
      modifies this
      ensures ok == TypeReduction(old(tokens)).Some?
      ensures tokens == if ok then TypeReduction(old(tokens)).value else old(tokens)
    {
      ok := ReduceAsFunctionPtrType();
      if !ok {
        ok := ReduceAsFunctionType();
      }
      if !ok {
        ok := ReduceAsRegularType();
      }
    }

    /** `try_reduce_as_function`. */
    method ReduceAsFunction() returns (ok: bool)
      modifies this
      ensures ok == FunctionReduction(old(tokens)).Some?
      ensures tokens == if ok then FunctionReduction(old(tokens)).value else old(tokens)
    {
      var pending := tokens;
      if !Top(KFunctionIdentifier, pending) {
        return false;
      }
      var fi := Last(pending).functionIdentifier;
      pending := RemoveSuffix(pending, 1);
      var scopes: Option<ScopeSequence> := None;
      if Top(KScopeSequence, pending) {
        scopes := Some(Last(pending).scopeSequence);
        pending := RemoveSuffix(pending, 1);
      }
      pending := IgnoreReservedIdentifier(pending);
      var ret: Option<Type> := None;
      if Top(KType, pending) {
        ret := Some(Last(pending).t);
        pending := RemoveSuffix(pending, 1);
      }
      tokens := tokens[..|pending|] + [EndToken(WholeFunction(Function(ret, scopes, fi)))];
      ok := true;
    }

    /** `reduce_as_conversion_operator_function_identifier`; its assertions are
        its precondition. */
    method ReduceAsConversionOperatorFunctionIdentifier()
      requires ConversionOperatorReduction(tokens).Some?
      modifies this
      ensures tokens == ConversionOperatorReduction(old(tokens)).value
    {
      var ctx: Option<FunctionContext> := None;
      if 0 < |tokens| && Last(tokens).FunctionContextToken? {
        ctx := Some(Last(tokens).context);
        tokens := tokens[..|tokens| - 1];
      }
      ghost var s1 := tokens;
      var _ := ReduceAsType();
      assert tokens == ReduceTypeIfAny(s1);
      NameConversionInPlace(ctx);
    }

    /** The rest of `reduce_as_conversion_operator_function_identifier`, once the
        target type is reduced. */
    method NameConversionInPlace(ctx: Option<FunctionContext>)
      requires IsConversion(tokens)
      modifies this
      ensures tokens == match ctx
        case None => NamedOperator(old(tokens))
        case Some(c) => AttachContext(NamedOperator(old(tokens)), c)
    {
      var target := Last(tokens).t;
      var below := tokens[..|tokens| - 2];
      tokens := below + [IdentifierToken(Identifier(OperatorName(SymbolType(target)), None))];
      if ctx.Some? {
        AttachContextInPlace(ctx.value);
      }
    }

    /** Pushes the context back and tries a function identifier reduction. */
    method AttachContextInPlace(ctx: FunctionContext)
      modifies this
      ensures tokens == AttachContext(old(tokens), ctx)
    {
      tokens := tokens + [FunctionContextToken(ctx)];
      var _ := ReduceAsFunctionIdentifier();
    }

    /** `get_or_emplace_specs`: the specs now on top, which the caller goes on to
        change; the source asserts an identifier on top reduces or is reserved. */
    method GetOrEmplaceSpecs() returns (specs: Specs)
      requires SpecsReduction(tokens).Some?
      modifies this
      ensures tokens == SpecsReduction(old(tokens)).value
      ensures specs == SpecsOf(Last(tokens))
    {
      if Top(KIdentifier, tokens) {
        var reduced := ReduceAsType();
        if !reduced {
          tokens := tokens[..|tokens| - 1];
        }
      }
      assert SpecsReduction(old(tokens)) == Some(EmplaceSpecs(tokens));
      if Top(KType, tokens) || Top(KFunctionContext, tokens) || Top(KSpecs, tokens) {
        return SpecsOf(Last(tokens));
      }
      tokens := tokens + [SpecsToken(NoSpecs)];
      specs := NoSpecs;
    }
  }

  /** One token lower, when the token at `i - 1` does not hold `k`. */
  lemma LastOfStep(s: seq<Token>, k: Kind, i: nat)
    requires 0 < i <= |s| && !Holds(s[i - 1], k)
    ensures LastOf(s[..i], k) == LastOf(s[..i - 1], k)
  {
    assert s[..i][..i - 1] == s[..i - 1];
  }

  /** The position of the last token holding `k`, searched for from the top down. */
  method FindLast(s: seq<Token>, k: Kind) returns (r: Option<nat>)
    ensures r == LastOf(s, k)
  {
    var i := |s|;
    assert s[..i] == s;
    while 0 < i && !Holds(s[i - 1], k)
      invariant 0 <= i <= |s|
      invariant LastOf(s, k) == LastOf(s[..i], k)
      decreases i
    {
      LastOfStep(s, k, i);
      i := i - 1;
    }
    if i == 0 {
      return None;
    }
    return Some(i - 1);
  }

  /** The nested pointer pushed back has a smaller nesting depth than the one it
      came out of. */
  lemma NestedPtrRank(rest: seq<Token>, t: Type, ptr: FunctionPtr, ctx: FunctionContext)
    ensures PendingPtrRank(rest + [TypeToken(t), Space, FunctionPtrToken(ptr), FunctionContextToken(ctx)]) == PtrRank(ptr)
  {
    var tail := [TypeToken(t), Space, FunctionPtrToken(ptr), FunctionContextToken(ctx)];
    var s := rest + tail;
    assert Last(s) == FunctionContextToken(ctx);
    MatchTail([KType, KSpace, KFunctionPtr, KFunctionContext], rest, tail);
  }
}
