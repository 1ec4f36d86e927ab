/** The generic predicate matcher of GeneralMatchers.hpp, its inversion, the wildcard
    and the comparison matchers. A matcher stores a predicate, a format string for
    its description, the format string of its inversion and a list of stored
    arguments; the predicate (`test`) receives the target together with the stored values. */
module GeneralMatchers {
  import opened Wrappers
  import opened Text

  /** A stored argument: the value the predicate receives, and the text `describe`
      renders for it (`None` where rendering throws). */
  datatype Arg<V> = Arg(value: V, shown: Option<string>)

  /** `PredicateMatcher`. */
  datatype Matcher<!T, !V> = PredicateMatcher(test: (T, seq<V>) -> bool,
                                            fmt: string,
                                            invertedFmt: string,
                                            args: seq<Arg<V>>)

  /** The values of the stored arguments, in order. */
  function Values<V>(args: seq<Arg<V>>): (r: seq<V>)
    ensures |r| == |args| && forall k :: 0 <= k < |args| ==> r[k] == args[k].value
  {
    if args == [] then [] else [args[0].value] + Values(args[1..])
  }

  /** The rendered stored arguments, in order, or `None` when one of them cannot be
      rendered. */
  function Texts<V>(args: seq<Arg<V>>): (r: Option<seq<string>>)
    ensures r.Some? <==> forall k :: 0 <= k < |args| ==> args[k].shown.Some?
    ensures r.Some? ==> |r.value| == |args| && forall k :: 0 <= k < |args| ==> r.value[k] == args[k].shown.value
  {
    if args == [] then Some([])
    else if args[0].shown.None? then None
    else
      match Texts(args[1..])
      case Some(rest) => Some([args[0].shown.value] + rest)
      case None =>
        assert exists k :: 1 <= k < |args| && args[k].shown.None? by {
          var j :| 0 <= j < |args[1..]| && args[1..][j].shown.None?;
          assert args[j + 1].shown.None?;
        }
        None
  }

  /** A character that opens or closes a replacement field. */
  predicate IsBrace(c: char)
  {
    c == '{' || c == '}'
  }

  /** Literal text: no braces at all. */
  predicate Plain(s: string)
  {
    '{' !in s && '}' !in s
  }

  lemma PlainConcat(a: string, b: string)
    requires Plain(a) && Plain(b)
    ensures Plain(a + b)
  {
  }

  function Prepend(s: string, r: Option<string>): Option<string>
  {
    match r
    case None => None
    case Some(rest) => Some(s + rest)
  }

  /** `format::vformat` restricted to automatically numbered fields without a format
      spec, the form every built-in matcher uses: each `{}` is replaced by the next
      argument, `{{` and `}}` stand for single braces, and unused arguments are ignored.
      The result is `None` for more `{}` fields than arguments and for an unpaired
      brace, where `vformat` throws `format_error`. It is also `None` for indexed
      fields (`{0}`) and fields with a format spec (`{:x}`, `{0:>4}`), which `vformat`
      accepts; those are not part of this model. */
  function Format(fmt: string, args: seq<string>): Option<string>
    decreases |fmt|
  {
    if fmt == [] then Some([])
    else if |fmt| >= 2 && fmt[0] == '{' && fmt[1] == '}' then
      if args == [] then None else Prepend(args[0], Format(fmt[2..], args[1..]))
    else if |fmt| >= 2 && IsBrace(fmt[0]) && fmt[1] == fmt[0] then Prepend([fmt[0]], Format(fmt[2..], args))
    else if IsBrace(fmt[0]) then None
    else Prepend([fmt[0]], Format(fmt[1..], args))
  }

  /** The number of `{}` fields of a format string, or `None` when it contains a
      brace outside `{}`, `{{` and `}}`. */
  function Fields(fmt: string): Option<nat>
    decreases |fmt|
  {
    if fmt == [] then Some(0)
    else if |fmt| >= 2 && fmt[0] == '{' && fmt[1] == '}' then
      match Fields(fmt[2..])
      case None => None
      case Some(n) => Some(n + 1)
    else if |fmt| >= 2 && IsBrace(fmt[0]) && fmt[1] == fmt[0] then Fields(fmt[2..])
    else if IsBrace(fmt[0]) then None
    else Fields(fmt[1..])
  }

  /** Formatting succeeds exactly for a well-formed format string with no more fields
      than arguments, and then arguments beyond those fields make no difference. */
  lemma {:induction false} FormatDefined(fmt: string, args: seq<string>, more: seq<string>)
    ensures Format(fmt, args).Some? <==> Fields(fmt).Some? && Fields(fmt).value <= |args|
    ensures Format(fmt, args).Some? ==> Format(fmt, args + more) == Format(fmt, args)
    decreases |fmt|
  {
    if fmt == [] {
    } else if |fmt| >= 2 && fmt[0] == '{' && fmt[1] == '}' {
      if args != [] {
        FormatDefined(fmt[2..], args[1..], more);
        assert (args + more)[1..] == args[1..] + more;
      }
    } else if |fmt| >= 2 && IsBrace(fmt[0]) && fmt[1] == fmt[0] {
      FormatDefined(fmt[2..], args, more);
    } else if !IsBrace(fmt[0]) {
      FormatDefined(fmt[1..], args, more);
    }
  }

  /** A character other than a brace is copied. */
  lemma FormatLiteral(c: char, rest: string, args: seq<string>)
    requires !IsBrace(c)
    ensures Format([c] + rest, args) == Prepend([c], Format(rest, args))
  {
    assert ([c] + rest)[1..] == rest;
  }

  /** A leading `{}` takes the first argument. */
  lemma FormatLeadingField(rest: string, args: seq<string>)
    requires args != []
    ensures Format("{}" + rest, args) == Prepend(args[0], Format(rest, args[1..]))
  {
    var f := "{}" + rest;
    assert f[0] == '{' && f[1] == '}' && f[2..] == rest;
  }

  /** Literal text formats to itself, whatever the arguments. */
  lemma {:induction false} FormatPlain(s: string, args: seq<string>)
    requires Plain(s)
    ensures Format(s, args) == Some(s)
    decreases |s|
  {
    if s != [] {
      FormatPlain(s[1..], args);
      FormatLiteral(s[0], s[1..], args);
      assert [s[0]] + s[1..] == s;
    }
  }

  lemma ConsConcat(p: string, a: string, q: string)
    requires p != []
    ensures [p[0]] + (p[1..] + a + q) == p + a + q
  {
  }

  /** Literal text, one field, literal text: the field takes the first argument. */
  lemma {:induction false} FormatField(p: string, q: string, args: seq<string>)
    requires Plain(p) && Plain(q) && args != []
    ensures Format(p + "{}" + q, args) == Some(p + args[0] + q)
    decreases |p|
  {
    if p == [] {
      FormatFieldFirst(q, args);
    } else {
      assert Plain(p[1..]) && !IsBrace(p[0]) by {
        assert p[0] in p;
        forall c | c in p[1..] ensures c in p {
        }
      }
      FormatField(p[1..], q, args);
      FormatLiteral(p[0], p[1..] + "{}" + q, args);
      ConsConcat(p, "{}", q);
      ConsConcat(p, args[0], q);
    }
  }

  lemma FormatFieldFirst(q: string, args: seq<string>)
    requires Plain(q) && args != []
    ensures Format([] + "{}" + q, args) == Some([] + args[0] + q)
  {
    assert [] + "{}" + q == "{}" + q;
    FormatLeadingField(q, args);
    FormatPlain(q, args[1..]);
    assert [] + args[0] + q == args[0] + q;
  }

  /** `matches`: the predicate applied to the target and the stored values. */
  function Matches<T, V>(m: Matcher<T, V>, target: T): bool
  {
    m.test(target, Values(m.args))
  }

  /** `describe`: the format string with the rendered stored arguments. */
  function Describe<T, V>(m: Matcher<T, V>): Option<string>
  {
    match Texts(m.args)
    case None => None
    case Some(texts) => Format(m.fmt, texts)
  }

  /** A matcher whose format is literal text describes itself by that text. */
  lemma DescribePlain<T, V>(m: Matcher<T, V>)
    requires m.args == [] && Plain(m.fmt)
    ensures Describe(m) == Some(m.fmt)
  {
    FormatPlain(m.fmt, []);
  }

  /** A format string of literal text followed by one field. */
  function WithField(lead: string): string
  {
    lead + "{}"
  }

  /** A matcher with one stored argument whose format is literal text followed by
      one field describes itself as that text followed by the rendered argument. */
  lemma DescribeField<T, V>(m: Matcher<T, V>, lead: string, shown: string)
    requires |m.args| == 1 && m.args[0].shown == Some(shown)
    requires m.fmt == WithField(lead) && Plain(lead)
    ensures Describe(m) == Some(lead + shown)
  {
    TextsSingle(m.args[0].value, shown);
    assert m.args == [Arg(m.args[0].value, Some(shown))];
    FormatField(lead, "", [shown]);
    assert lead + "{}" + "" == lead + "{}";
    assert lead + [shown][0] + "" == lead + shown;
  }

  /** `operator!`: the negated predicate with the two format strings swapped. */
  function Not<T, V>(m: Matcher<T, V>): Matcher<T, V>
  {
    var p := m.test;
    PredicateMatcher((t: T, a: seq<V>) => !p(t, a), m.invertedFmt, m.fmt, m.args)
  }

  /** The inversion matches exactly where the matcher does not, describes itself
      with the inverted format, and inverting twice restores both `matches` and
      `describe`. */
  lemma NotSpec<T, V>(m: Matcher<T, V>, target: T)
    ensures Matches(Not(m), target) == !Matches(m, target)
    ensures Describe(Not(m)) == Describe(m.(fmt := m.invertedFmt))
    ensures Matches(Not(Not(m)), target) == Matches(m, target)
    ensures Describe(Not(Not(m))) == Describe(m)
  {
  }

  /** The six comparison matchers `eq`, `ne`, `lt`, `le`, `gt` and `ge`. */
  datatype Comparison = EqualTo | NotEqualTo | Less | LessEqual | Greater | GreaterEqual

  /** The comparison a target and the expected value are put through. */
  predicate Holds(op: Comparison, target: int, expected: int)
  {
    match op
    case EqualTo => target == expected
    case NotEqualTo => target != expected
    case Less => target < expected
    case LessEqual => target <= expected
    case Greater => target > expected
    case GreaterEqual => target >= expected
  }

  /** The comparison's operator symbol, as its description shows it. */
  function Symbol(op: Comparison): string
  {
    match op
    case EqualTo => "=="
    case NotEqualTo => "!="
    case Less => "<"
    case LessEqual => "<="
    case Greater => ">"
    case GreaterEqual => ">="
  }

  /** The comparison that holds exactly where `op` fails. */
  function Complement(op: Comparison): Comparison
  {
    match op
    case EqualTo => NotEqualTo
    case NotEqualTo => EqualTo
    case Less => GreaterEqual
    case LessEqual => Greater
    case Greater => LessEqual
    case GreaterEqual => Less
  }

  /** `eq(v)` … `ge(v)`: the standard comparison functor with `"<op> {}"` as the
      format and the complement's format as the inverted one. */
  function Compare(op: Comparison, expected: int): Matcher<int, int>
  {
    PredicateMatcher((t: int, a: seq<int>) => |a| == 1 && Holds(op, t, a[0]),
                     Symbol(op) + " {}", Symbol(Complement(op)) + " {}",
                     [Arg(expected, Some(IntToString(expected)))])
  }

  /** A comparison matcher matches by its operator, and its inversion matches
      exactly as the complementary comparison does. */
  lemma CompareMatches(op: Comparison, expected: int, target: int)
    ensures Matches(Compare(op, expected), target) <==> Holds(op, target, expected)
    ensures Matches(Not(Compare(op, expected)), target) == Matches(Compare(Complement(op), expected), target)
    ensures Complement(Complement(op)) == op
  {
  }

  /** A comparison matcher describes itself as its operator followed by the
      expected value, and its inversion exactly as the complementary comparison
      describes itself (`!eq(42)` is "!= 42"). */
  lemma CompareDescribe(op: Comparison, expected: int)
    ensures Describe(Compare(op, expected)) == Some(Symbol(op) + " " + IntToString(expected))
    ensures Describe(Not(Compare(op, expected))) == Describe(Compare(Complement(op), expected))
  {
    var shown := [IntToString(expected)];
    TextsSingle(expected, IntToString(expected));
    SymbolFormat(op, shown);
    SymbolFormat(Complement(op), shown);
  }

  lemma TextsSingle<V>(v: V, shown: string)
    ensures Texts([Arg(v, Some(shown))]) == Some([shown])
  {
    var args := [Arg(v, Some(shown))];
    assert args[1..] == [];
    assert Texts(args[1..]) == Some([]);
    assert [shown] + [] == [shown];
  }

  lemma SymbolFormat(op: Comparison, args: seq<string>)
    requires args != []
    ensures Format(Symbol(op) + " {}", args) == Some(Symbol(op) + " " + args[0])
  {
    assert Symbol(op) + " {}" == Symbol(op) + " " + "{}" + "";
    assert Plain(Symbol(op) + " ");
    FormatField(Symbol(op) + " ", "", args);
    assert Symbol(op) + " " + args[0] + "" == Symbol(op) + " " + args[0];
  }

  /** `predicate(p, description, invertedDescription)`: a matcher without stored
      arguments. */
  function Predicate<T, V>(p: T -> bool, description: string, invertedDescription: string): Matcher<T, V>
  {
    PredicateMatcher((t: T, a: seq<V>) => p(t), description, invertedDescription, [])
  }

  /** `predicate(p)` with the default descriptions. */
  function DefaultPredicate<T, V>(p: T -> bool): Matcher<T, V>
  {
    Predicate(p, "passes predicate", "fails predicate")
  }

  /** The predicate matcher matches by the predicate, and by default describes
      itself as "passes predicate" and its inversion as "fails predicate". */
  lemma PredicateSpec<T, V>(p: T -> bool, target: T)
    ensures Matches(DefaultPredicate<T, V>(p), target) == p(target)
    ensures Describe(DefaultPredicate<T, V>(p)) == Some("passes predicate")
    ensures Describe(Not(DefaultPredicate<T, V>(p))) == Some("fails predicate")
  {
    PredicateTextsPlain();
    FormatPlain("passes predicate", []);
    FormatPlain("fails predicate", []);
  }

  lemma PredicateTextsPlain()
    ensures Plain("passes predicate") && Plain("fails predicate")
  {
  }

  /** `WildcardMatcher` (`matches::_`), as a matcher without stored arguments.
      The C++ class has no `operator!`, so the wildcard has no inversion; its
      inverted format is only a placeholder the representation needs, and `Not`
      of it stands for nothing in the source. */
  function Wildcard<T, V>(): Matcher<T, V>
  {
    PredicateMatcher((t: T, a: seq<V>) => true, "has no constraints", "has no constraints", [])
  }

  /** The wildcard matches every target and describes itself as "has no
      constraints". */
  lemma WildcardSpec<T, V>(target: T)
    ensures Matches(Wildcard<T, V>(), target)
    ensures Describe(Wildcard<T, V>()) == Some("has no constraints")
  {
    WildcardTextPlain();
    FormatPlain("has no constraints", []);
  }

  lemma WildcardTextPlain()
    ensures Plain("has no constraints")
  {
  }
}
