/** The call-convention traits that the registration macro of CallConvention.hpp
    generates for a convention `c`, and the tag selection that routes every
    signature trait through the traits of the convention the signature carries.
    A registered convention may coincide with the platform default (as `__cdecl`
    does on the usual targets): C++ then makes `void __cdecl()` and `void()` one
    type, so signatures carrying it have the default convention here. A trait the
    C++ code leaves undefined for a signature (a compile error there) is `None`
    here. */
module CallConvention {
  import opened Wrappers
  import opened Signatures

  /** A registered convention: its name and `is_default_call_convention`. */
  datatype Registration = Registration(name: string, isDefault: bool)

  /** The convention written on a signature that carries the registration. */
  function Spelling(reg: Registration): CallConv
  {
    if reg.isDefault then DefaultConvention else Convention(reg.name)
  }

  /** The signature carries the registered convention. */
  predicate Carries(reg: Registration, s: Signature)
  {
    s.callConv == Spelling(reg)
  }

  /** `remove_call_convention`: specialised for the twelve const/ref/noexcept
      combinations of a non-variadic signature carrying the convention, which it
      keeps. */
  function RemoveCallConvention(reg: Registration, s: Signature): (r: Option<Signature>)
    ensures r.Some? <==> Carries(reg, s) && !s.ellipsis
    ensures r.Some? ==> r.value.callConv == DefaultConvention && SameExceptConvention(r.value, s)
  {
    if Carries(reg, s) && !s.ellipsis then Some(s.(callConv := DefaultConvention)) else None
  }

  /** `has_call_convention`: removing the convention is defined and changes the
      signature. */
  predicate HasCallConvention(reg: Registration, s: Signature)
  {
    RemoveCallConvention(reg, s).Some? && RemoveCallConvention(reg, s).value != s
  }

  /** The concept holds exactly for the non-variadic signatures carrying the
      convention, and never for a convention that is the platform default. */
  lemma HasCallConventionExact(reg: Registration, s: Signature)
    ensures HasCallConvention(reg, s) <==> Carries(reg, s) && !s.ellipsis && !reg.isDefault
  {
    if Carries(reg, s) && !s.ellipsis && !reg.isDefault {
      assert RemoveCallConvention(reg, s).value.callConv != s.callConv;
    }
  }

  /** `add_call_convention`: the identity on signatures that have the convention,
      otherwise specialised for the twelve combinations of a non-variadic signature
      with the default convention. */
  function AddCallConvention(reg: Registration, s: Signature): (r: Option<Signature>)
    ensures r.Some? <==> !s.ellipsis && (s.callConv == DefaultConvention || Carries(reg, s))
    ensures r.Some? ==> Carries(reg, r.value) && SameExceptConvention(r.value, s)
  {
    HasCallConventionExact(reg, s);
    if HasCallConvention(reg, s) then Some(s)
    else if s.callConv == DefaultConvention && !s.ellipsis then Some(s.(callConv := Spelling(reg)))
    else None
  }

  /** Adding is idempotent, adding after removing restores the signature, and
      removing after adding restores a default one. */
  lemma AddCallConventionRoundTrip(reg: Registration, s: Signature)
    ensures AddCallConvention(reg, s).Some? ==> AddCallConvention(reg, AddCallConvention(reg, s).value) == AddCallConvention(reg, s)
    ensures RemoveCallConvention(reg, s).Some? ==> AddCallConvention(reg, RemoveCallConvention(reg, s).value) == Some(s)
    ensures s.callConv == DefaultConvention && !s.ellipsis ==> RemoveCallConvention(reg, AddCallConvention(reg, s).value) == Some(s)
  {
    HasCallConventionExact(reg, s);
    if AddCallConvention(reg, s).Some? {
      HasCallConventionExact(reg, AddCallConvention(reg, s).value);
    }
    if RemoveCallConvention(reg, s).Some? {
      HasCallConventionExact(reg, RemoveCallConvention(reg, s).value);
    }
  }

  /** The tag `signature_call_convention` selects. */
  datatype ConventionTag = DefaultTag | RegisteredTag(reg: Registration)

  /** The tag selection when `native` names the registered convention that is the
      platform default, if there is one. A signature with the default convention
      (variadic or not) selects that convention's tag, or the default tag when no
      registered convention is the default; a signature having another registered
      convention selects that convention's tag; anything else selects nothing. */
  function SignatureCallConvention(native: Option<string>, s: Signature): (r: Option<ConventionTag>)
  {
    match s.callConv
    case DefaultConvention =>
      if native.Some? then Some(RegisteredTag(Registration(native.value, true))) else Some(DefaultTag)
    case Convention(c) =>
      if HasCallConvention(Registration(c, false), s) then Some(RegisteredTag(Registration(c, false))) else None
  }

  /** The signatures the traits are defined for: every non-variadic one, and the
      variadic ones with the default convention unless a registered convention is
      the default, whose traits are only specialised for non-variadic signatures. */
  predicate Supported(native: Option<string>, s: Signature)
  {
    !s.ellipsis || (native.None? && s.callConv == DefaultConvention)
  }

  /** A tag is selected exactly for the signatures with the default convention and
      the non-variadic ones; the tag of a convention that is not the default
      exactly for the signatures having it; and every signature with the default
      convention selects the default tag, or the tag of the registered convention
      that is the default. */
  lemma SignatureCallConventionExact(native: Option<string>, c: string, s: Signature)
    ensures SignatureCallConvention(native, s).Some? <==> s.callConv == DefaultConvention || !s.ellipsis
    ensures var own := Registration(c, false);
            SignatureCallConvention(native, s) == Some(RegisteredTag(own)) <==> HasCallConvention(own, s)
    ensures s.callConv == DefaultConvention && native.None? ==> SignatureCallConvention(native, s) == Some(DefaultTag)
    ensures s.callConv == DefaultConvention && native.Some? ==>
              SignatureCallConvention(native, s) == Some(RegisteredTag(Registration(native.value, true)))
  {
    HasCallConventionExact(Registration(c, false), s);
    if s.callConv.Convention? {
      HasCallConventionExact(Registration(s.callConv.name, false), s);
    }
  }

  /** `call_convention_traits<tag>::remove_call_convention_t`: the identity for the
      default tag. */
  function TraitsRemove(tag: ConventionTag, s: Signature): Option<Signature>
  {
    match tag
    case DefaultTag => Some(s)
    case RegisteredTag(reg) => RemoveCallConvention(reg, s)
  }

  /** `call_convention_traits<tag>::add_call_convention_t`: the identity for the
      default tag. */
  function TraitsAdd(tag: ConventionTag, s: Signature): Option<Signature>
  {
    match tag
    case DefaultTag => Some(s)
    case RegisteredTag(reg) => AddCallConvention(reg, s)
  }

  /** `signature_remove_call_convention`: the traits of the selected tag remove the
      convention, whichever the signature carries, and keep everything else. */
  function SignatureRemoveCallConvention(native: Option<string>, s: Signature): (r: Option<Signature>)
    ensures r.Some? <==> Supported(native, s)
    ensures r.Some? ==> r.value.callConv == DefaultConvention && SameExceptConvention(r.value, s)
  {
    SignatureCallConventionExact(native, if s.callConv.Convention? then s.callConv.name else "", s);
    match SignatureCallConvention(native, s)
    case None => None
    case Some(tag) => TraitsRemove(tag, s)
  }

  /** The traits of the selected tag add back exactly the convention they removed. */
  lemma TraitsRoundTrip(native: Option<string>, s: Signature)
    requires Supported(native, s)
    ensures SignatureCallConvention(native, s).Some?
    ensures TraitsAdd(SignatureCallConvention(native, s).value, SignatureRemoveCallConvention(native, s).value) == Some(s)
  {
    if s.callConv.Convention? {
      SignatureCallConventionExact(native, s.callConv.name, s);
      AddCallConventionRoundTrip(Registration(s.callConv.name, false), s);
    } else if native.Some? {
      AddCallConventionRoundTrip(Registration(native.value, true), s);
    }
  }
}
