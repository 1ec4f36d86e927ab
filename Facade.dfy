/** The spec-string evaluation of Facade.hpp: a text such as "const& noexcept
    override" is scanned token by token into a record of the const-, ref- and
    noexcept-specification, which is then applied to a raw signature. The C++ code
    runs at compile time, where both a thrown "Invalid spec" and a failed
    assertion stop compilation; both are error values here. */
module Facade {
  import opened Wrappers
  import opened Signatures
  import opened CallConvention
  import opened TypeTraits

  /** `spec_info`: what the text asks for. */
  datatype SpecInfo = SpecInfo(hasConst: bool, refQualifier: ValueCategory, hasNoexcept: bool)

  const NoSpecs := SpecInfo(false, AnyCategory, false)

  /** Why a text is rejected: a word that is not a specifier (the throw), or a
      qualifier given twice (the assertions). */
  datatype SpecError = InvalidSpec(token: string) | RefAlreadySet | ConstAlreadySet | NoexceptAlreadySet

  predicate IsSpace(c: char)
  {
    c == ' ' || c == '\t'
  }

  predicate IsWordContinue(c: char)
  {
    ('a' <= c <= 'z') || ('A' <= c <= 'Z')
  }

  /** The text without its leading spaces and tabs. */
  function TrimSpaces(s: string): (r: string)
    ensures |r| <= |s|
    ensures r == [] || !IsSpace(r[0])
  {
    if s != [] && IsSpace(s[0]) then TrimSpaces(s[1..]) else s
  }

  /** Trimming keeps a suffix of the text and drops only spaces and tabs. */
  lemma TrimSpacesSuffix(s: string)
    ensures TrimSpaces(s) == s[|s| - |TrimSpaces(s)|..]
    ensures forall k :: 0 <= k < |s| - |TrimSpaces(s)| ==> IsSpace(s[k])
  {
    if s != [] && IsSpace(s[0]) {
      TrimSpacesSuffix(s[1..]);
    }
  }

  /** The number of leading ASCII letters. */
  function LetterRun(s: string): (n: nat)
    ensures n <= |s|
    ensures n == |s| || !IsWordContinue(s[n])
  {
    if s != [] && IsWordContinue(s[0]) then 1 + LetterRun(s[1..]) else 0
  }

  /** The token at the front of a text that starts with neither a space nor a tab:
      `&&` or `&`, else the first character followed by its run of letters. */
  function TokenLength(s: string): (n: nat)
    requires s != []
    ensures 0 < n <= |s|
  {
    if s[0] == '&' then (if |s| > 1 && s[1] == '&' then 2 else 1)
    else 1 + LetterRun(s[1..])
  }

  /** What a keyword token means. */
  datatype Keyword = ConstKeyword | NoexceptKeyword | IgnoredKeyword | NoKeyword

  function Classify(token: string): Keyword
  {
    if token == "const" then ConstKeyword
    else if token == "noexcept" then NoexceptKeyword
    else if token == "override" || token == "final" then IgnoredKeyword
    else NoKeyword
  }

  /** One step of the loop: `parse_ref_specifier` or `parse_keyword_specifier` on
      the token at the front; the rest of the text and the updated record. */
  function Step(s: string, info: SpecInfo): (r: Result<(string, SpecInfo), SpecError>)
    requires s != []
    ensures r.Success? ==> r.value.0 == s[TokenLength(s)..]
  {
    var n := TokenLength(s);
    if s[0] == '&' then
      if info.refQualifier != AnyCategory then Failure(RefAlreadySet)
      else Success((s[n..], info.(refQualifier := if n == 2 then RValue else LValue)))
    else
      match Classify(s[..n])
      case ConstKeyword =>
        if info.hasConst then Failure(ConstAlreadySet) else Success((s[n..], info.(hasConst := true)))
      case NoexceptKeyword =>
        if info.hasNoexcept then Failure(NoexceptAlreadySet) else Success((s[n..], info.(hasNoexcept := true)))
      case IgnoredKeyword => Success((s[n..], info))
      case NoKeyword => Failure(InvalidSpec(s[..n]))
  }

  /** The record the remaining text turns `info` into. */
  function SpecsOf(s: string, info: SpecInfo): Result<SpecInfo, SpecError>
    decreases |s|
  {
    var t := TrimSpaces(s);
    if t == [] then Success(info)
    else
      match Step(t, info)
      case Failure(e) => Failure(e)
      case Success(next) => SpecsOf(next.0, next.1)
  }

  /** `find_token_begin`: the first position from `from` on that is no space. */
  method FindTokenBegin(spec: string, from: nat) returns (i: nat)
    requires from <= |spec|
    ensures from <= i <= |spec|
    ensures spec[i..] == TrimSpaces(spec[from..])
  {
    i := from;
    while i < |spec| && IsSpace(spec[i])
      invariant from <= i <= |spec|
      invariant TrimSpaces(spec[from..]) == TrimSpaces(spec[i..])
      decreases |spec| - i
    {
      assert spec[i..][1..] == spec[i + 1..];
      i := i + 1;
    }
  }

  /** `parse_ref_specifier`: `&&` sets rvalue, a lone `&` lvalue. */
  method ParseRefSpecifier(spec: string, first: nat, info: SpecInfo) returns (r: Result<(nat, SpecInfo), SpecError>)
    requires first < |spec| && spec[first] == '&'
    ensures r.Success? ==> first < r.value.0 <= |spec|
    ensures r.Failure? <==> Step(spec[first..], info).Failure?
    ensures r.Failure? ==> r.error == Step(spec[first..], info).error
    ensures r.Success? ==> Step(spec[first..], info).value == (spec[r.value.0..], r.value.1)
  {
    if info.refQualifier != AnyCategory {
      return Failure(RefAlreadySet);
    }
    var next := first + 1;
    var out := info;
    if next != |spec| && spec[next] == '&' {
      next := next + 1;
      out := out.(refQualifier := RValue);
    } else {
      out := out.(refQualifier := LValue);
    }
    assert spec[first..][TokenLength(spec[first..])..] == spec[next..];
    r := Success((next, out));
  }

  /** `parse_keyword_specifier`: the token runs from `first` over the letters that
      follow it. */
  method ParseKeywordSpecifier(spec: string, first: nat, info: SpecInfo) returns (r: Result<(nat, SpecInfo), SpecError>)
    requires first < |spec| && spec[first] != '&'
    ensures r.Success? ==> first < r.value.0 <= |spec|
    ensures r.Failure? <==> Step(spec[first..], info).Failure?
    ensures r.Failure? ==> r.error == Step(spec[first..], info).error
    ensures r.Success? ==> Step(spec[first..], info).value == (spec[r.value.0..], r.value.1)
  {
    var tokenEnd := first + 1;
    while tokenEnd < |spec| && IsWordContinue(spec[tokenEnd])
      invariant first < tokenEnd <= |spec|
      invariant LetterRun(spec[first + 1..]) == (tokenEnd - first - 1) + LetterRun(spec[tokenEnd..])
      decreases |spec| - tokenEnd
    {
      assert spec[tokenEnd..][1..] == spec[tokenEnd + 1..];
      tokenEnd := tokenEnd + 1;
    }
    assert TokenLength(spec[first..]) == tokenEnd - first by {
      assert spec[first..][1..] == spec[first + 1..];
    }
    var token := spec[first..tokenEnd];
    assert token == spec[first..][..tokenEnd - first];
    assert spec[first..][tokenEnd - first..] == spec[tokenEnd..];
    var keyword := Classify(token);
    if keyword == ConstKeyword {
      if info.hasConst {
        return Failure(ConstAlreadySet);
      }
      r := Success((tokenEnd, info.(hasConst := true)));
    } else if keyword == NoexceptKeyword {
      if info.hasNoexcept {
        return Failure(NoexceptAlreadySet);
      }
      r := Success((tokenEnd, info.(hasNoexcept := true)));
    } else if keyword == NoKeyword {
      return Failure(InvalidSpec(token));
    } else {
      r := Success((tokenEnd, info));
    }
  }

  /** `evaluate_specs`: alternately skip spaces and parse one specifier until the
      text is used up. */
  method EvaluateSpecs(spec: string) returns (r: Result<SpecInfo, SpecError>)
    ensures r == SpecsOf(spec, NoSpecs)
  {
    var info := NoSpecs;
    var tokenBegin := FindTokenBegin(spec, 0);
    assert spec[0..] == spec;
    while tokenBegin != |spec|
      invariant tokenBegin <= |spec|
      invariant SpecsOf(spec, NoSpecs) == SpecsOf(spec[tokenBegin..], info)
      invariant spec[tokenBegin..] == TrimSpaces(spec[tokenBegin..])
      decreases |spec| - tokenBegin
    {
      var step;
      if spec[tokenBegin] == '&' {
        step := ParseRefSpecifier(spec, tokenBegin, info);
      } else {
        step := ParseKeywordSpecifier(spec, tokenBegin, info);
      }
      SpecsOfFront(spec[tokenBegin..], info);
      if step.Failure? {
        return Failure(step.error);
      }
      info := step.value.1;
      tokenBegin := FindTokenBegin(spec, step.value.0);
      SpecsOfTrim(spec[step.value.0..], info);
    }
    r := Success(info);
  }

  /** Leading spaces do not matter. */
  lemma SpecsOfTrim(s: string, info: SpecInfo)
    ensures SpecsOf(TrimSpaces(s), info) == SpecsOf(s, info)
  {
    var t := TrimSpaces(s);
    assert TrimSpaces(t) == t;
  }

  /** A text that starts with a token evaluates as its first step and the rest. */
  lemma SpecsOfFront(t: string, info: SpecInfo)
    requires t != [] && !IsSpace(t[0])
    ensures SpecsOf(t, info) == match Step(t, info)
                                case Failure(e) => Failure(e)
                                case Success(next) => SpecsOf(next.0, next.1)
  {
    assert TrimSpaces(t) == t;
  }

  /** A text of spaces and tabs only, the empty text included, changes nothing. */
  lemma BlankSpecs(s: string, info: SpecInfo)
    requires forall k :: 0 <= k < |s| ==> IsSpace(s[k])
    ensures SpecsOf(s, info) == Success(info)
  {
    TrimSpacesSuffix(s);
  }

  /** Two texts meet at a token boundary: the second is empty, or starts with a
      space, or starts with `&` while the first does not end in one. */
  predicate Separated(s: string, t: string)
  {
    t == [] || IsSpace(t[0]) || (t[0] == '&' && (s == [] || s[|s| - 1] != '&'))
  }

  lemma LetterRunAppend(s: string, t: string)
    requires t == [] || !IsWordContinue(t[0])
    ensures LetterRun(s + t) == LetterRun(s)
  {
    if s != [] {
      assert (s + t)[1..] == s[1..] + t;
      LetterRunAppend(s[1..], t);
    }
  }

  lemma StepAppend(s: string, t: string, info: SpecInfo)
    requires s != [] && !IsSpace(s[0]) && Separated(s, t)
    ensures TokenLength(s + t) == TokenLength(s)
    ensures Step(s + t, info).Failure? <==> Step(s, info).Failure?
    ensures Step(s, info).Failure? ==> Step(s + t, info).error == Step(s, info).error
    ensures Step(s, info).Success? ==>
              Step(s + t, info).value == (Step(s, info).value.0 + t, Step(s, info).value.1)
  {
    TokenLengthAppend(s, t);
    var n := TokenLength(s);
    assert (s + t)[..n] == s[..n];
    assert (s + t)[n..] == s[n..] + t;
  }

  lemma TokenLengthAppend(s: string, t: string)
    requires s != [] && !IsSpace(s[0]) && Separated(s, t)
    ensures TokenLength(s + t) == TokenLength(s)
  {
    if s[0] != '&' {
      assert (s + t)[1..] == s[1..] + t;
      LetterRunAppend(s[1..], t);
    }
  }

  lemma TrimSpacesAppend(s: string, t: string)
    ensures TrimSpaces(s) != [] ==> TrimSpaces(s + t) == TrimSpaces(s) + t
    ensures TrimSpaces(s) == [] ==> TrimSpaces(s + t) == TrimSpaces(t)
  {
    if s != [] {
      assert (s + t)[1..] == s[1..] + t;
      if IsSpace(s[0]) {
        TrimSpacesAppend(s[1..], t);
      }
    } else {
      assert s + t == t;
    }
  }

  /** Evaluating two texts that meet at a token boundary is evaluating the first
      and then the second: the scan never lets a token run across the seam. */
  lemma {:induction false} SpecsOfAppend(s: string, t: string, info: SpecInfo)
    requires Separated(s, t)
    ensures SpecsOf(s + t, info) ==
              match SpecsOf(s, info)
              case Failure(e) => Failure(e)
              case Success(after) => SpecsOf(t, after)
    decreases |s|
  {
    var trimmed := TrimSpaces(s);
    TrimSpacesAppend(s, t);
    TrimSpacesSuffix(s);
    if trimmed != [] {
      assert Separated(trimmed, t);
      StepAppend(trimmed, t, info);
      if Step(trimmed, info).Success? {
        var rest := Step(trimmed, info).value.0;
        assert rest == trimmed[TokenLength(trimmed)..];
        assert Separated(rest, t) by {
          if rest != [] {
            assert rest[|rest| - 1] == s[|s| - 1];
          }
        }
        SpecsOfAppend(rest, t, Step(trimmed, info).value.1);
      }
    }
  }

  /** A lone word after blanks evaluates as its one step. */
  lemma WordSpecs(blank: string, w: string, info: SpecInfo)
    requires forall k :: 0 <= k < |blank| ==> IsSpace(blank[k])
    requires 0 < |w| && forall k :: 0 <= k < |w| ==> IsWordContinue(w[k])
    ensures SpecsOf(blank + w, info) == match Step(w, info)
                                        case Failure(e) => Failure(e)
                                        case Success(next) => Success(next.1)
  {
    TrimSpacesSuffix(blank);
    TrimSpacesAppend(blank, w);
    assert TrimSpaces(w) == w;
    SpecsOfFront(w, info);
    LetterRunAll(w[1..]);
    assert w[|w|..] == [];
    BlankSpecs([], info);
  }

  lemma LetterRunAll(w: string)
    requires forall k :: 0 <= k < |w| ==> IsWordContinue(w[k])
    ensures LetterRun(w) == |w|
  {
    if w != [] {
      LetterRunAll(w[1..]);
    }
  }

  /** Appending " override" or " final" (after a space or a tab) never changes the
      outcome. */
  lemma IgnoredSpecifiers(s: string, sep: char, info: SpecInfo)
    requires IsSpace(sep)
    ensures SpecsOf(s + [sep] + "override", info) == SpecsOf(s, info)
    ensures SpecsOf(s + [sep] + "final", info) == SpecsOf(s, info)
  {
    forall w | w == "override" || w == "final"
      ensures SpecsOf(s + [sep] + w, info) == SpecsOf(s, info)
    {
      assert s + [sep] + w == s + ([sep] + w);
      SpecsOfAppend(s, [sep] + w, info);
      forall after: SpecInfo
        ensures SpecsOf([sep] + w, after) == Success(after)
      {
        IgnoredWord([sep], w, after);
      }
    }
  }

  lemma IgnoredWord(blank: string, w: string, info: SpecInfo)
    requires forall k :: 0 <= k < |blank| ==> IsSpace(blank[k])
    requires w == "override" || w == "final"
    ensures SpecsOf(blank + w, info) == Success(info)
  {
    WordSpecs(blank, w, info);
    assert w[..|w|] == w;
  }

  /** Appending a specifier that is already set, or a word that is no specifier,
      makes an accepted text fail with the matching error. */
  lemma RejectedAppendix(s: string, sep: char, w: string, info: SpecInfo)
    requires IsSpace(sep) && 0 < |w|
    requires forall k :: 0 <= k < |w| ==> IsWordContinue(w[k])
    requires SpecsOf(s, info).Success?
    ensures w == "const" && SpecsOf(s, info).value.hasConst ==>
              SpecsOf(s + [sep] + w, info) == Failure(ConstAlreadySet)
    ensures w == "noexcept" && SpecsOf(s, info).value.hasNoexcept ==>
              SpecsOf(s + [sep] + w, info) == Failure(NoexceptAlreadySet)
    ensures w !in {"const", "noexcept", "override", "final"} ==>
              SpecsOf(s + [sep] + w, info) == Failure(InvalidSpec(w))
  {
    AppendedWord(s, sep, w, info);
    assert w[..|w|] == w;
  }

  /** A word appended after an accepted text is evaluated as one more step. */
  lemma AppendedWord(s: string, sep: char, w: string, info: SpecInfo)
    requires IsSpace(sep) && 0 < |w|
    requires forall k :: 0 <= k < |w| ==> IsWordContinue(w[k])
    requires SpecsOf(s, info).Success?
    ensures SpecsOf(s + [sep] + w, info) == match Step(w, SpecsOf(s, info).value)
                                             case Failure(e) => Failure(e)
                                             case Success(next) => Success(next.1)
  {
    assert s + [sep] + w == s + ([sep] + w);
    SpecsOfAppend(s, [sep] + w, info);
    WordSpecs([sep], w, SpecsOf(s, info).value);
  }

  /** A second ref-qualifier makes an accepted text fail. */
  lemma RejectedSecondRef(s: string, sep: char, info: SpecInfo)
    requires IsSpace(sep)
    requires SpecsOf(s, info).Success? && SpecsOf(s, info).value.refQualifier != AnyCategory
    ensures SpecsOf(s + [sep] + "&", info) == Failure(RefAlreadySet)
  {
    assert s + [sep] + "&" == s + ([sep] + "&");
    SpecsOfAppend(s, [sep] + "&", info);
    assert TrimSpaces([sep] + "&") == "&" by {
      assert ([sep] + "&")[1..] == "&";
    }
  }

  /** The canonical spelling of a record, e.g. "const&& noexcept". */
  function Spelling(info: SpecInfo): string
  {
    ConstSpelling(info.hasConst) + RefSpelling(info.refQualifier) + NoexceptSpelling(info.hasNoexcept)
  }

  function ConstSpelling(hasConst: bool): string
  {
    if hasConst then "const" else ""
  }

  function RefSpelling(ref: ValueCategory): string
  {
    match ref
    case LValue => "&"
    case RValue => "&&"
    case AnyCategory => ""
  }

  function NoexceptSpelling(hasNoexcept: bool): string
  {
    if hasNoexcept then " noexcept" else ""
  }

  lemma ConstPiece(hasConst: bool)
    ensures SpecsOf(ConstSpelling(hasConst), NoSpecs) == Success(NoSpecs.(hasConst := hasConst))
  {
    if hasConst {
      WordSpecs([], "const", NoSpecs);
      assert [] + "const" == "const";
      assert "const"[..5] == "const";
    } else {
      BlankSpecs([], NoSpecs);
    }
  }

  lemma RefPiece(ref: ValueCategory, info: SpecInfo)
    requires info.refQualifier == AnyCategory
    ensures SpecsOf(RefSpelling(ref), info) == Success(info.(refQualifier := ref))
  {
    var rf := RefSpelling(ref);
    if rf != [] {
      SpecsOfFront(rf, info);
      assert rf[TokenLength(rf)..] == [];
    }
    BlankSpecs([], info.(refQualifier := ref));
  }

  lemma NoexceptPiece(hasNoexcept: bool, info: SpecInfo)
    requires !info.hasNoexcept
    ensures SpecsOf(NoexceptSpelling(hasNoexcept), info) == Success(info.(hasNoexcept := hasNoexcept))
  {
    if hasNoexcept {
      WordSpecs(" ", "noexcept", info);
      assert " " + "noexcept" == " noexcept";
      assert "noexcept"[..8] == "noexcept";
    } else {
      BlankSpecs([], info);
    }
  }

  /** Every record is read back from its spelling, for each of the twelve
      combinations. */
  lemma SpellingRoundTrip(info: SpecInfo)
    ensures SpecsOf(Spelling(info), NoSpecs) == Success(info)
  {
    var c, rf, n := ConstSpelling(info.hasConst), RefSpelling(info.refQualifier), NoexceptSpelling(info.hasNoexcept);
    var afterConst := NoSpecs.(hasConst := info.hasConst);
    ConstPiece(info.hasConst);
    RefPiece(info.refQualifier, afterConst);
    NoexceptPiece(info.hasNoexcept, afterConst.(refQualifier := info.refQualifier));
    SpecsOfAppend(c, rf, NoSpecs);
    assert Separated(c + rf, n);
    SpecsOfAppend(c + rf, n, NoSpecs);
  }

  /** `evaluate`: add the ref-qualifier, then const, then `noexcept` to the raw
      signature. The ref-adding traits are not part of this model's source; here
      they set the qualifier of the raw, unqualified signature. `native` is the
      registered convention that is the platform default, as in the signature
      traits. */
  function Evaluate(native: Option<string>, info: SpecInfo, raw: Signature): (r: Signature)
    requires Supported(native, raw) && raw.ref == NoRef
    ensures SameShape(r, raw) && r.callConv == raw.callConv
    ensures r.isConst == (raw.isConst || info.hasConst)
    ensures r.isNoexcept == (raw.isNoexcept || info.hasNoexcept)
    ensures r.ref == match info.refQualifier case LValue => LValueRef case RValue => RValueRef case AnyCategory => NoRef
  {
    var withRef := match info.refQualifier
      case LValue => raw.(ref := LValueRef)
      case RValue => raw.(ref := RValueRef)
      case AnyCategory => raw;
    var withConst := if info.hasConst then SignatureAddConstQualifier(native, withRef).0 else withRef;
    if info.hasNoexcept then SignatureAddNoexcept(native, withConst).0 else withConst
  }

  /** `apply_normalized_specs_t<RawSignature, specText>`. */
  function ApplyNormalizedSpecs(native: Option<string>, raw: Signature, spec: string): Result<Signature, SpecError>
    requires Supported(native, raw) && raw.ref == NoRef
  {
    match SpecsOf(spec, NoSpecs)
    case Failure(e) => Failure(e)
    case Success(info) => Success(Evaluate(native, info, raw))
  }

  /** An empty text leaves the raw signature as it is, and the canonical spelling
      of a record gives the signature with exactly those specifications. */
  lemma ApplyNormalizedSpecsExact(native: Option<string>, raw: Signature, info: SpecInfo)
    requires Supported(native, raw) && raw.ref == NoRef && !raw.isConst && !raw.isNoexcept
    ensures ApplyNormalizedSpecs(native, raw, "") == Success(raw)
    ensures ApplyNormalizedSpecs(native, raw, Spelling(info)).Success?
    ensures var r := ApplyNormalizedSpecs(native, raw, Spelling(info)).value;
              SameShape(r, raw) && r.callConv == raw.callConv && r.isConst == info.hasConst &&
              r.isNoexcept == info.hasNoexcept && SignatureRefQualification(native, r) == info.refQualifier
  {
    BlankSpecs("", NoSpecs);
    SpellingRoundTrip(info);
  }
}
