/** The signature traits of TypeTraits.hpp: adding and removing `noexcept`, the
    const-qualifier and the ref-qualifier, decaying a signature, reading off its
    return and parameter types and qualifications, and deciding whether signatures
    may overload each other. Every qualifier trait removes the call convention,
    applies the plain transformation and adds the convention back; `native` names
    the registered call convention that is the platform default, if any. */
module TypeTraits {
  import opened Wrappers
  import opened Signatures
  import opened CallConvention

  /** The plain transformations of the `detail` namespace, each with its value. */
  datatype QualifierTrait = RemoveNoexcept | AddNoexcept | RemoveRef | RemoveConst | AddConst

  /** A plain transformation on a signature without call convention: the new
      signature, and whether the qualifier was present (for the removals) or was
      added (for the additions). An addition leaves a signature that already has
      the qualifier unchanged with value false. */
  function Transform(t: QualifierTrait, s: Signature): (Signature, bool)
  {
    match t
    case RemoveNoexcept => (s.(isNoexcept := false), s.isNoexcept)
    case AddNoexcept => if s.isNoexcept then (s, false) else (s.(isNoexcept := true), true)
    case RemoveRef => (s.(ref := NoRef), s.ref != NoRef)
    case RemoveConst => (s.(isConst := false), s.isConst)
    case AddConst => if s.isConst then (s, false) else (s.(isConst := true), true)
  }

  /** `signature_apply_trait`: select the convention's traits, remove the
      convention, transform and re-add the convention. */
  function ApplyTrait(native: Option<string>, t: QualifierTrait, s: Signature): Option<(Signature, bool)>
  {
    match SignatureCallConvention(native, s)
    case None => None
    case Some(tag) =>
      match TraitsRemove(tag, s)
      case None => None
      case Some(plain) =>
        var applied := Transform(t, plain);
        match TraitsAdd(tag, applied.0)
        case None => None
        case Some(sig) => Some((sig, applied.1))
  }

  /** The sandwich is defined exactly on the supported signatures and amounts to
      transforming the signature in place with its convention untouched. */
  lemma ApplyTraitInPlace(native: Option<string>, t: QualifierTrait, s: Signature)
    ensures ApplyTrait(native, t, s).Some? <==> Supported(native, s)
    ensures Supported(native, s) ==> ApplyTrait(native, t, s).value == Transform(t, s)
  {
    var c := if s.callConv.Convention? then s.callConv.name else "";
    SignatureCallConventionExact(native, c, s);
    if Supported(native, s) && SignatureCallConvention(native, s).value.RegisteredTag? {
      var reg := SignatureCallConvention(native, s).value.reg;
      var plain := RemoveCallConvention(reg, s).value;
      HasCallConventionExact(reg, Transform(t, plain).0);
      assert Transform(t, plain).0.(callConv := Spelling(reg)) == Transform(t, s).0;
    }
  }

  /** `signature_remove_noexcept`: drops `noexcept`, keeps everything else and tells
      whether it was present. */
  function SignatureRemoveNoexcept(native: Option<string>, s: Signature): (r: (Signature, bool))
    requires Supported(native, s)
    ensures !r.0.isNoexcept && r.1 == s.isNoexcept
    ensures SameShape(r.0, s) && r.0.isConst == s.isConst && r.0.ref == s.ref && r.0.callConv == s.callConv
  {
    ApplyTraitInPlace(native, RemoveNoexcept, s);
    ApplyTrait(native, RemoveNoexcept, s).value
  }

  /** `signature_add_noexcept`: adds `noexcept` (value true) or, when already
      present, is the identity with value false. */
  function SignatureAddNoexcept(native: Option<string>, s: Signature): (r: (Signature, bool))
    requires Supported(native, s)
    ensures r.0.isNoexcept && r.1 == !s.isNoexcept
    ensures SameShape(r.0, s) && r.0.isConst == s.isConst && r.0.ref == s.ref && r.0.callConv == s.callConv
  {
    ApplyTraitInPlace(native, AddNoexcept, s);
    ApplyTrait(native, AddNoexcept, s).value
  }

  /** `signature_is_noexcept`: the value of the removal. */
  function SignatureIsNoexcept(native: Option<string>, s: Signature): (r: bool)
    requires Supported(native, s)
    ensures r <==> s.isNoexcept
  {
    SignatureRemoveNoexcept(native, s).1
  }

  /** Adding and removing `noexcept` undo each other, and both are idempotent. */
  lemma NoexceptRoundTrip(native: Option<string>, s: Signature)
    requires Supported(native, s)
    ensures !s.isNoexcept ==> SignatureRemoveNoexcept(native, SignatureAddNoexcept(native, s).0).0 == s
    ensures s.isNoexcept ==> SignatureAddNoexcept(native, SignatureRemoveNoexcept(native, s).0).0 == s
    ensures SignatureAddNoexcept(native, SignatureAddNoexcept(native, s).0) == (SignatureAddNoexcept(native, s).0, false)
    ensures SignatureRemoveNoexcept(native, SignatureRemoveNoexcept(native, s).0) == (SignatureRemoveNoexcept(native, s).0, false)
  {
  }

  /** `signature_remove_ref_qualifier`: drops `&`/`&&`, keeps const and `noexcept`
      and tells whether a ref-qualifier was present. */
  function SignatureRemoveRefQualifier(native: Option<string>, s: Signature): (r: (Signature, bool))
    requires Supported(native, s)
    ensures r.0.ref == NoRef && r.1 == (s.ref != NoRef)
    ensures SameShape(r.0, s) && r.0.isConst == s.isConst && r.0.isNoexcept == s.isNoexcept && r.0.callConv == s.callConv
  {
    ApplyTraitInPlace(native, RemoveRef, s);
    ApplyTrait(native, RemoveRef, s).value
  }

  /** `signature_remove_const_qualifier`: drops const, keeps the ref-qualifier and
      `noexcept` and tells whether const was present. */
  function SignatureRemoveConstQualifier(native: Option<string>, s: Signature): (r: (Signature, bool))
    requires Supported(native, s)
    ensures !r.0.isConst && r.1 == s.isConst
    ensures SameShape(r.0, s) && r.0.ref == s.ref && r.0.isNoexcept == s.isNoexcept && r.0.callConv == s.callConv
  {
    ApplyTraitInPlace(native, RemoveConst, s);
    ApplyTrait(native, RemoveConst, s).value
  }

  /** `signature_add_const_qualifier`: adds const (value true) keeping the
      ref-qualifier and `noexcept`, or is the identity with value false. */
  function SignatureAddConstQualifier(native: Option<string>, s: Signature): (r: (Signature, bool))
    requires Supported(native, s)
    ensures r.0.isConst && r.1 == !s.isConst
    ensures SameShape(r.0, s) && r.0.ref == s.ref && r.0.isNoexcept == s.isNoexcept && r.0.callConv == s.callConv
  {
    ApplyTraitInPlace(native, AddConst, s);
    ApplyTrait(native, AddConst, s).value
  }

  /** Adding and removing const undo each other. */
  lemma ConstRoundTrip(native: Option<string>, s: Signature)
    requires Supported(native, s)
    ensures !s.isConst ==> SignatureRemoveConstQualifier(native, SignatureAddConstQualifier(native, s).0).0 == s
    ensures s.isConst ==> SignatureAddConstQualifier(native, SignatureRemoveConstQualifier(native, s).0).0 == s
    ensures SignatureAddConstQualifier(native, s).1 ==> SignatureRemoveConstQualifier(native, SignatureAddConstQualifier(native, s).0).1
  {
  }

  /** A signature with no specification at all: no convention, const,
      ref-qualifier or `noexcept`. */
  predicate Decayed(s: Signature)
  {
    s.callConv == DefaultConvention && !s.isConst && s.ref == NoRef && !s.isNoexcept
  }

  /** `signature_decay`: removes the call convention, then `noexcept`, const and the
      ref-qualifier. */
  function SignatureDecay(native: Option<string>, s: Signature): (r: Signature)
    requires Supported(native, s)
    ensures Decayed(r) && SameShape(r, s)
  {
    var plain := SignatureRemoveCallConvention(native, s).value;
    var noNoexcept := Transform(RemoveNoexcept, plain).0;
    var noConst := Transform(RemoveConst, noNoexcept).0;
    Transform(RemoveRef, noConst).0
  }

  /** Decaying forgets exactly the specification: two signatures decay alike iff
      they agree in return type, parameters and ellipsis. */
  lemma DecayExact(native: Option<string>, a: Signature, b: Signature)
    requires Supported(native, a) && Supported(native, b)
    ensures SignatureDecay(native, a) == SignatureDecay(native, b) <==> SameShape(a, b)
    ensures SignatureDecay(native, SignatureDecay(native, a)) == SignatureDecay(native, a)
  {
  }

  /** Every qualifier trait leaves the decayed signature as it was. */
  lemma DecayIgnoresTraits(native: Option<string>, t: QualifierTrait, s: Signature)
    requires Supported(native, s)
    ensures Supported(native, Transform(t, s).0)
    ensures SignatureDecay(native, Transform(t, s).0) == SignatureDecay(native, s)
  {
    DecayExact(native, Transform(t, s).0, s);
  }

  /** `signature_return_type`: read off the decayed signature. */
  function SignatureReturnType(native: Option<string>, s: Signature): (r: CppType)
    requires Supported(native, s)
    ensures r == s.ret
  {
    SignatureDecay(native, s).ret
  }

  /** `signature_param_list`: only defined for non-variadic signatures. */
  function SignatureParamList(native: Option<string>, s: Signature): (r: seq<CppType>)
    requires !s.ellipsis
    ensures r == s.params
  {
    SignatureDecay(native, s).params
  }

  /** `signature_param_type<i>`: the `i`-th entry of the decayed parameter list. */
  function SignatureParamType(native: Option<string>, i: nat, s: Signature): (r: CppType)
    requires !s.ellipsis && i < |s.params|
    ensures r == s.params[i]
  {
    var decayed := SignatureDecay(native, s);
    decayed.params[i]
  }

  /** `signature_const_qualification`: `as_const` iff const was removed. */
  function SignatureConstQualification(native: Option<string>, s: Signature): (r: Constness)
    requires Supported(native, s)
    ensures r == AsConst <==> s.isConst
    ensures r != AnyConstness
  {
    if SignatureRemoveConstQualifier(native, s).1 then AsConst else NonConst
  }

  /** `signature_ref_qualification`: read off after removing the convention, const
      and `noexcept`; `any` for an unqualified signature. */
  function SignatureRefQualification(native: Option<string>, s: Signature): (r: ValueCategory)
    requires Supported(native, s)
    ensures r == AnyCategory <==> s.ref == NoRef
    ensures r == LValue <==> s.ref == LValueRef
    ensures r == RValue <==> s.ref == RValueRef
  {
    var plain := SignatureRemoveCallConvention(native, s).value;
    var stripped := SignatureRemoveNoexcept(native, SignatureRemoveConstQualifier(native, plain).0).0;
    match stripped.ref
    case NoRef => AnyCategory
    case LValueRef => LValue
    case RValueRef => RValue
  }

  /** `normalize_overload_t`: removes the call convention and `noexcept`. */
  function NormalizeOverload(native: Option<string>, s: Signature): (r: Signature)
    requires !s.ellipsis
    ensures r.callConv == DefaultConvention && !r.isNoexcept && !r.ellipsis
  {
    SignatureRemoveNoexcept(native, SignatureRemoveCallConvention(native, s).value).0
  }

  /** One of the seven partial specialisations of `detail::is_overloadable_with`
      that hold for equal parameter lists, in this argument order: unqualified
      with const, and `&` with `const&`, `&&`, `const&&`, `const&` with `&&`,
      `const&&`, and `&&` with `const&&`. */
  predicate OverloadPair(f: Signature, s: Signature)
  {
    f.params == s.params &&
    match (f.isConst, f.ref, s.isConst, s.ref)
    case (false, NoRef, true, NoRef) => true
    case (false, LValueRef, true, LValueRef) => true
    case (false, LValueRef, false, RValueRef) => true
    case (false, LValueRef, true, RValueRef) => true
    case (true, LValueRef, false, RValueRef) => true
    case (true, LValueRef, true, RValueRef) => true
    case (false, RValueRef, true, RValueRef) => true
    case _ => false
  }

  /** `detail::is_overloadable_with<First, Second, reversed>`: true when the decayed
      parameter lists differ (only unreversed), or when a specialisation matches;
      otherwise the unreversed form retries with the arguments swapped. */
  function DetailOverloadable(native: Option<string>, f: Signature, s: Signature, reversed: bool): bool
    requires !f.ellipsis && !s.ellipsis
    decreases if reversed then 0 else 1
  {
    if !reversed && SignatureParamList(native, SignatureDecay(native, f)) != SignatureParamList(native, SignatureDecay(native, s)) then true
    else if OverloadPair(f, s) then true
    else if reversed then false
    else DetailOverloadable(native, s, f, true)
  }

  /** `is_overloadable_with`: decided on the normalised signatures. */
  function IsOverloadableWith(native: Option<string>, a: Signature, b: Signature): bool
    requires !a.ellipsis && !b.ellipsis
  {
    DetailOverloadable(native, NormalizeOverload(native, a), NormalizeOverload(native, b), false)
  }

  /** Reference definition: C++ lets two member functions overload each other when
      their parameter lists differ or, for equal lists, when their qualifiers
      differ and either both or neither carry a ref-qualifier. */
  predicate Overloadable(a: Signature, b: Signature)
  {
    a.params != b.params || ((a.isConst, a.ref) != (b.isConst, b.ref) && (a.ref == NoRef <==> b.ref == NoRef))
  }

  /** The trait agrees with the reference definition; hence it is symmetric, and no
      signature overloads itself. */
  lemma OverloadableExact(native: Option<string>, a: Signature, b: Signature)
    requires !a.ellipsis && !b.ellipsis
    ensures IsOverloadableWith(native, a, b) <==> Overloadable(a, b)
    ensures IsOverloadableWith(native, a, b) == IsOverloadableWith(native, b, a)
    ensures !IsOverloadableWith(native, a, a)
  {
    DetailExact(native, NormalizeOverload(native, a), NormalizeOverload(native, b));
    DetailExact(native, NormalizeOverload(native, b), NormalizeOverload(native, a));
    DetailExact(native, NormalizeOverload(native, a), NormalizeOverload(native, a));
  }

  lemma DetailExact(native: Option<string>, f: Signature, s: Signature)
    requires !f.ellipsis && !s.ellipsis
    ensures DetailOverloadable(native, f, s, false) <==> Overloadable(f, s)
  {
    if f.params == s.params {
      assert DetailOverloadable(native, f, s, false) == (OverloadPair(f, s) || OverloadPair(s, f));
    }
  }

  /** All signatures of the sequence are non-variadic. */
  predicate NonVariadic(sigs: seq<Signature>)
  {
    forall k :: 0 <= k < |sigs| ==> !sigs[k].ellipsis
  }

  /** The conjunction `is_overloadable_with<First, Others>...`. */
  function OverloadableWithAll(native: Option<string>, first: Signature, others: seq<Signature>): bool
    requires !first.ellipsis && NonVariadic(others)
  {
    if others == [] then true
    else IsOverloadableWith(native, first, others[0]) && OverloadableWithAll(native, first, others[1..])
  }

  /** `is_overload_set<First, Others...>`: the first signature overloads every other
      one and the others form a set; a single signature is a set. */
  function IsOverloadSet(native: Option<string>, sigs: seq<Signature>): bool
    requires |sigs| > 0 && NonVariadic(sigs)
  {
    if |sigs| == 1 then true
    else OverloadableWithAll(native, sigs[0], sigs[1..]) && IsOverloadSet(native, sigs[1..])
  }

  /** The conjunction holds iff the first signature overloads every other one. */
  lemma {:induction false} OverloadableWithAllExact(native: Option<string>, first: Signature, others: seq<Signature>)
    requires !first.ellipsis && NonVariadic(others)
    ensures OverloadableWithAll(native, first, others) <==> forall k :: 0 <= k < |others| ==> Overloadable(first, others[k])
    decreases |others|
  {
    if others != [] {
      OverloadableWithAllExact(native, first, others[1..]);
      OverloadableExact(native, first, others[0]);
      if forall k :: 0 <= k < |others| ==> Overloadable(first, others[k]) {
        forall k | 0 <= k < |others| - 1
          ensures Overloadable(first, others[1..][k])
        {
          assert others[1..][k] == others[k + 1];
        }
      }
      if OverloadableWithAll(native, first, others) {
        forall k | 1 <= k < |others|
          ensures Overloadable(first, others[k])
        {
          assert others[k] == others[1..][k - 1];
        }
      }
    }
  }

  /** Any two signatures of the list overload each other. */
  predicate PairwiseOverloadable(sigs: seq<Signature>)
  {
    forall i, j :: 0 <= i < j < |sigs| ==> Overloadable(sigs[i], sigs[j])
  }

  lemma PairwiseCons(sigs: seq<Signature>)
    requires |sigs| > 0
    ensures PairwiseOverloadable(sigs) <==>
              (forall k :: 0 <= k < |sigs| - 1 ==> Overloadable(sigs[0], sigs[1..][k])) && PairwiseOverloadable(sigs[1..])
  {
    var rest := sigs[1..];
    if PairwiseOverloadable(sigs) {
      forall i, j | 0 <= i < j < |rest|
        ensures Overloadable(rest[i], rest[j])
      {
        assert rest[i] == sigs[i + 1] && rest[j] == sigs[j + 1];
      }
      forall k | 0 <= k < |rest|
        ensures Overloadable(sigs[0], rest[k])
      {
        assert rest[k] == sigs[k + 1];
      }
    }
    if (forall k :: 0 <= k < |rest| ==> Overloadable(sigs[0], rest[k])) && PairwiseOverloadable(rest) {
      forall i, j | 0 <= i < j < |sigs|
        ensures Overloadable(sigs[i], sigs[j])
      {
        assert sigs[j] == rest[j - 1];
        if i > 0 {
          assert sigs[i] == rest[i - 1];
        }
      }
    }
  }

  /** A list is an overload set iff its signatures overload each other pairwise. */
  lemma {:induction false} OverloadSetPairwise(native: Option<string>, sigs: seq<Signature>)
    requires |sigs| > 0 && NonVariadic(sigs)
    ensures IsOverloadSet(native, sigs) <==> PairwiseOverloadable(sigs)
    decreases |sigs|
  {
    PairwiseCons(sigs);
    if |sigs| > 1 {
      OverloadSetPairwise(native, sigs[1..]);
      OverloadableWithAllExact(native, sigs[0], sigs[1..]);
    }
  }

  /** The order-free form: no signature occurs twice and any two different ones
      overload each other. */
  ghost predicate OverloadableBag(m: multiset<Signature>)
  {
    (forall x :: m[x] <= 1) &&
    (forall x, y :: x in m && y in m && x != y ==> Overloadable(x, y))
  }

  lemma OverloadableBagAdd(a: Signature, m: multiset<Signature>)
    ensures OverloadableBag(m + multiset{a}) <==>
              OverloadableBag(m) && a !in m && forall y :: y in m ==> Overloadable(a, y)
  {
    var m' := m + multiset{a};
    if OverloadableBag(m') {
      assert m'[a] == m[a] + 1;
      forall x
        ensures m[x] <= 1
      {
        assert m[x] <= m'[x];
      }
      forall y | y in m
        ensures Overloadable(a, y)
      {
        assert y in m' && a in m';
      }
    }
    if OverloadableBag(m) && a !in m && forall y :: y in m ==> Overloadable(a, y) {
      forall x
        ensures m'[x] <= 1
      {
        if x == a {
          assert m'[x] == 1;
        } else {
          assert m'[x] == m[x];
        }
      }
      forall x, y | x in m' && y in m' && x != y
        ensures Overloadable(x, y)
      {
        if x == a {
        } else if y == a {
          assert Overloadable(a, x);
        }
      }
    }
  }

  /** The first signature overloads all later ones iff it does not occur again and
      overloads every different signature of the rest. */
  lemma FirstAgainstBag(a: Signature, rest: seq<Signature>)
    ensures (forall k :: 0 <= k < |rest| ==> Overloadable(a, rest[k])) <==>
              a !in multiset(rest) && forall y :: y in multiset(rest) ==> Overloadable(a, y)
  {
    assert !Overloadable(a, a);
    if forall k :: 0 <= k < |rest| ==> Overloadable(a, rest[k]) {
      forall y | y in multiset(rest)
        ensures Overloadable(a, y)
      {
        var k :| 0 <= k < |rest| && rest[k] == y;
      }
    }
    if a !in multiset(rest) && forall y :: y in multiset(rest) ==> Overloadable(a, y) {
      forall k | 0 <= k < |rest|
        ensures Overloadable(a, rest[k])
      {
        assert rest[k] in multiset(rest);
      }
    }
  }

  lemma {:induction false} PairwiseBag(sigs: seq<Signature>)
    ensures PairwiseOverloadable(sigs) <==> OverloadableBag(multiset(sigs))
    decreases |sigs|
  {
    if sigs == [] {
      assert multiset(sigs) == multiset{};
    } else {
      var a, rest := sigs[0], sigs[1..];
      assert sigs == [a] + rest;
      assert multiset(sigs) == multiset(rest) + multiset{a};
      PairwiseBag(rest);
      PairwiseCons(sigs);
      FirstAgainstBag(a, rest);
      OverloadableBagAdd(a, multiset(rest));
    }
  }

  /** Whether a list is an overload set depends only on which signatures it holds,
      not on their order. */
  lemma OverloadSetPermutation(native: Option<string>, xs: seq<Signature>, ys: seq<Signature>)
    requires |xs| > 0 && NonVariadic(xs) && NonVariadic(ys)
    requires multiset(xs) == multiset(ys)
    ensures |ys| > 0 && IsOverloadSet(native, xs) == IsOverloadSet(native, ys)
  {
    assert |multiset(ys)| == |ys|;
    OverloadSetPairwise(native, xs);
    OverloadSetPairwise(native, ys);
    PairwiseBag(xs);
    PairwiseBag(ys);
  }
}
