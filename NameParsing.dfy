/** The first-generation parser for demangled type names of NameParser.hpp: it reads
    the tokens of `Lexing.NameLexer` and reports what it recognises to a visitor, with
    a `SpecNormalizerVisitor` in between that collects the qualifiers of each type and
    passes them on when the type is complete. The visitor is modelled by the list of
    calls it receives. */
module NameParsing {
  import opened Wrappers
  import Lexing
  import Text

  // ---------------------------------------------------------------------------
  // Visitor calls and qualifier frames
  // ---------------------------------------------------------------------------

  /** A call the wrapped visitor receives. */
  datatype Event =
    | Begin | End
    | AddIdentifier(content: string) | AddScope | AddArgument
    | AddConst | AddVolatile | AddNoexcept | AddPtr | AddLValueRef | AddRValueRef
    | BeginTemplate | EndTemplate
    | EndReturnType | OpenParenthesis | EndFunction | EndFunctionPtr
    | BeginOperatorIdentifier | EndOperatorIdentifier

  /** `SpecNormalizerVisitor::specs`: the qualifiers collected for one type. */
  datatype Frame = Frame(isConst: bool, isVolatile: bool, isNoexcept: bool, isLValueRef: bool, isRValueRef: bool)

  const NoSpecs := Frame(false, false, false, false, false)

  /** The qualifiers `add_const` and its siblings record. */
  datatype Qualifier = Const | Volatile | Noexcept | LValueRef | RValueRef

  /** Records a qualifier in a frame. */
  function WithQualifier(f: Frame, q: Qualifier): Frame
  {
    match q
    case Const => f.(isConst := true)
    case Volatile => f.(isVolatile := true)
    case Noexcept => f.(isNoexcept := true)
    case LValueRef => f.(isLValueRef := true)
    case RValueRef => f.(isRValueRef := true)
  }

  /** A frame the source's assertion accepts when it is flushed: not both kinds of
      reference. */
  predicate OneRef(f: Frame)
  {
    !(f.isLValueRef && f.isRValueRef)
  }

  /** The calls `finalized_current_specs` makes for a frame. */
  function FrameEvents(f: Frame): seq<Event>
  {
    (if f.isConst then [AddConst] else [])
    + (if f.isVolatile then [AddVolatile] else [])
    + (if f.isLValueRef then [AddLValueRef] else if f.isRValueRef then [AddRValueRef] else [])
    + (if f.isNoexcept then [AddNoexcept] else [])
  }

  /** The position of a qualifier call in the fixed order of a flush; other calls
      come last. */
  function FlushRank(e: Event): nat
  {
    match e
    case AddConst => 0
    case AddVolatile => 1
    case AddLValueRef => 2
    case AddRValueRef => 3
    case AddNoexcept => 4
    case _ => 5
  }

  /** The frame a run of qualifier calls describes. */
  function ReadFrame(events: seq<Event>): Frame
  {
    Frame(AddConst in events, AddVolatile in events, AddNoexcept in events,
          AddLValueRef in events, AddRValueRef in events)
  }

  /** The calls come in strictly increasing rank, and all are qualifier calls. */
  predicate QualifierRun(s: seq<Event>)
  {
    (forall i, j :: 0 <= i < j < |s| ==> FlushRank(s[i]) < FlushRank(s[j]))
    && forall i :: 0 <= i < |s| ==> FlushRank(s[i]) < 5
  }

  /** A flush emits only qualifier calls, each at most once, in the order const,
      volatile, the reference, noexcept. */
  lemma FlushOrder(f: Frame)
    ensures QualifierRun(FrameEvents(f))
  {
    var c: seq<Event> := if f.isConst then [AddConst] else [];
    var v: seq<Event> := if f.isVolatile then [AddVolatile] else [];
    var r: seq<Event> := if f.isLValueRef then [AddLValueRef] else if f.isRValueRef then [AddRValueRef] else [];
    var n: seq<Event> := if f.isNoexcept then [AddNoexcept] else [];
    assert FrameEvents(f) == c + v + r + n;
    RankedPieces(c, v, r, n);
  }

  /** The frame can be read back from the calls a flush makes for it. */
  lemma FlushReadBack(f: Frame)
    requires OneRef(f)
    ensures ReadFrame(FrameEvents(f)) == f
  {
    var c: seq<Event> := if f.isConst then [AddConst] else [];
    var v: seq<Event> := if f.isVolatile then [AddVolatile] else [];
    var r: seq<Event> := if f.isLValueRef then [AddLValueRef] else if f.isRValueRef then [AddRValueRef] else [];
    var n: seq<Event> := if f.isNoexcept then [AddNoexcept] else [];
    assert FrameEvents(f) == c + v + r + n;
  }

  /** Four pieces of at most one call each, with increasing ranks, concatenate to a
      run of qualifier calls. */
  lemma RankedPieces(c: seq<Event>, v: seq<Event>, r: seq<Event>, n: seq<Event>)
    requires |c| <= 1 && |v| <= 1 && |r| <= 1 && |n| <= 1
    requires forall k :: 0 <= k < |c| ==> FlushRank(c[k]) == 0
    requires forall k :: 0 <= k < |v| ==> FlushRank(v[k]) == 1
    requires forall k :: 0 <= k < |r| ==> 2 <= FlushRank(r[k]) <= 3
    requires forall k :: 0 <= k < |n| ==> FlushRank(n[k]) == 4
    ensures QualifierRun(c + v + r + n)
  {
    var s := c + v + r + n;
    assert forall k :: 0 <= k < |s| ==>
      FlushRank(s[k]) == if k < |c| then 0 else if k < |c| + |v| then 1 else if k < |c| + |v| + |r| then FlushRank(r[k - |c| - |v|]) else 4;
  }

  // ---------------------------------------------------------------------------
  // The normalising visitor, as a value
  // ---------------------------------------------------------------------------

  /** The state of a `SpecNormalizerVisitor`: its stack of frames and the calls it
      has passed on. */
  datatype Normalized = Normalized(frames: seq<Frame>, events: seq<Event>)

  function Top(n: Normalized): Frame
    requires |n.frames| >= 1
  {
    n.frames[|n.frames| - 1]
  }

  /** The top frame may be flushed: it exists and holds at most one reference. */
  predicate Flushable(n: Normalized)
  {
    |n.frames| >= 1 && OneRef(Top(n))
  }

  /** Passing a call on unchanged (`add_identifier`, `add_scope`, the operator
      identifier brackets). */
  function Forward(n: Normalized, e: Event): (r: Normalized)
    ensures r.frames == n.frames && r.events == n.events + [e]
  {
    Normalized(n.frames, n.events + [e])
  }

  /** Opening a new frame, then passing the call on (`begin`, `begin_template`,
      `open_parenthesis`). */
  function Push(n: Normalized, e: Event): (r: Normalized)
    ensures |r.frames| == |n.frames| + 1 && Top(r) == NoSpecs && r.frames[..|n.frames|] == n.frames
    ensures r.events == n.events + [e]
  {
    Normalized(n.frames + [NoSpecs], n.events + [e])
  }

  /** Recording a qualifier in the top frame; nothing is passed on. */
  function Mark(n: Normalized, q: Qualifier): (r: Normalized)
    requires |n.frames| >= 1
    ensures r.events == n.events && |r.frames| == |n.frames|
    ensures r.frames[..|n.frames| - 1] == n.frames[..|n.frames| - 1] && Top(r) == WithQualifier(Top(n), q)
  {
    Normalized(n.frames[..|n.frames| - 1] + [WithQualifier(Top(n), q)], n.events)
  }

  /** `finalized_current_specs`: pops the top frame and passes its qualifiers on. */
  function Flush(n: Normalized): (r: Normalized)
    requires Flushable(n)
    ensures r.frames == n.frames[..|n.frames| - 1] && r.events == n.events + FrameEvents(Top(n))
  {
    Normalized(n.frames[..|n.frames| - 1], n.events + FrameEvents(Top(n)))
  }

  /** Flushing, then passing the call on (`end`, `end_template`, `end_function`,
      `end_function_ptr`). */
  function Close(n: Normalized, e: Event): (r: Normalized)
    requires Flushable(n)
    ensures r.frames == n.frames[..|n.frames| - 1] && r.events == n.events + FrameEvents(Top(n)) + [e]
  {
    Forward(Flush(n), e)
  }

  /** Flushing, opening a fresh frame, then passing the call on (`add_ptr`,
      `add_argument`, `end_return_type`). */
  function Renew(n: Normalized, e: Event): (r: Normalized)
    requires Flushable(n)
    ensures r.frames == n.frames[..|n.frames| - 1] + [NoSpecs]
    ensures r.events == n.events + FrameEvents(Top(n)) + [e]
  {
    Push(Flush(n), e)
  }

  /** `SpecNormalizerVisitor`. */
  class SpecNormalizer {
    var frames: seq<Frame>
    var events: seq<Event>

    function State(): (n: Normalized)
      reads this
      ensures n.frames == frames && n.events == events
    {
      Normalized(frames, events)
    }

    constructor()
      ensures frames == [] && events == []
    {
      frames := [];
      events := [];
    }

    /** `begin`. */
    method Begin()
      modifies this
      ensures State() == Push(old(State()), Event.Begin)
    {
      frames := frames + [NoSpecs];
      events := events + [Event.Begin];
    }

    /** `end`: asserts that exactly one frame is left. */
    method End()
      requires |frames| == 1 && OneRef(frames[0])
      modifies this
      ensures State() == Close(old(State()), Event.End)
    {
      FinalizeCurrentSpecs();
      events := events + [Event.End];
    }

    /** `add_identifier`, `add_scope`, `begin_operator_identifier` and
        `end_operator_identifier`: passed on as they are. */
    method Pass(e: Event)
      modifies this
      ensures State() == Forward(old(State()), e)
    {
      events := events + [e];
    }

    /** `add_const`, `add_volatile`, `add_noexcept`, `add_lvalue_ref` and
        `add_rvalue_ref`: only set a flag of the top frame. */
    method AddQualifier(q: Qualifier)
      requires |frames| >= 1
      modifies this
      ensures State() == Mark(old(State()), q)
    {
      var top := frames[|frames| - 1];
      frames := frames[..|frames| - 1] + [WithQualifier(top, q)];
    }

    /** `add_ptr`, `add_argument` and `end_return_type`: flush the top frame and
        start a fresh one. */
    method Restart(e: Event)
      requires Flushable(State())
      modifies this
      ensures State() == Renew(old(State()), e)
    {
      FinalizeCurrentSpecs();
      frames := frames + [NoSpecs];
      events := events + [e];
    }

    /** `begin_template` and `open_parenthesis`: start a frame. */
    method OpenFrame(e: Event)
      modifies this
      ensures State() == Push(old(State()), e)
    {
      frames := frames + [NoSpecs];
      events := events + [e];
    }

    /** `end_template`, `end_function` and `end_function_ptr`: flush the top frame. */
    method Finish(e: Event)
      requires Flushable(State())
      modifies this
      ensures State() == Close(old(State()), e)
    {
      FinalizeCurrentSpecs();
      events := events + [e];
    }

    /** `finalized_current_specs`. */
    method FinalizeCurrentSpecs()
      requires Flushable(State())
      modifies this
      ensures State() == Flush(old(State()))
    {
      var specs := frames[|frames| - 1];
      frames := frames[..|frames| - 1];
      ghost var before := events;
      ghost var c: seq<Event> := if specs.isConst then [AddConst] else [];
      ghost var v: seq<Event> := if specs.isVolatile then [AddVolatile] else [];
      ghost var r: seq<Event> := if specs.isLValueRef then [AddLValueRef] else if specs.isRValueRef then [AddRValueRef] else [];
      ghost var n: seq<Event> := if specs.isNoexcept then [AddNoexcept] else [];
      EmitIf(specs.isConst, AddConst);
      EmitIf(specs.isVolatile, AddVolatile);
      Text.Assoc(before, c, v);
      EmitIf(specs.isLValueRef, AddLValueRef);
      EmitIf(!specs.isLValueRef && specs.isRValueRef, AddRValueRef);
      assert r == (if specs.isLValueRef then [AddLValueRef] else []) + (if !specs.isLValueRef && specs.isRValueRef then [AddRValueRef] else []);
      Text.Assoc(before + (c + v), if specs.isLValueRef then [AddLValueRef] else [], if !specs.isLValueRef && specs.isRValueRef then [AddRValueRef] else []);
      Text.Assoc(before, c + v, r);
      EmitIf(specs.isNoexcept, AddNoexcept);
      Text.Assoc(before, c + v + r, n);
      assert FrameEvents(specs) == c + v + r + n;
    }

    /** Passes `e` on when `condition` holds. */
    method EmitIf(condition: bool, e: Event)
      modifies this
      ensures frames == old(frames) && events == old(events) + if condition then [e] else []
    {
      if condition {
        events := events + [e];
      }
    }
  }

  // ---------------------------------------------------------------------------
  // The parser's token stack
  // ---------------------------------------------------------------------------

  /** `token`: what the parser remembers of the text read so far. */
  datatype ParserToken = Scope | ScopeResolution | Arg | Open

  function CountOpen(s: seq<ParserToken>): nat
  {
    if s == [] then 0 else CountOpen(s[..|s| - 1]) + (if s[|s| - 1] == Open then 1 else 0)
  }

  /** The position of the topmost open token. */
  function LastOpen(s: seq<ParserToken>): (k: nat)
    requires Open in s
    ensures k < |s| && s[k] == Open && Open !in s[k + 1..]
  {
    if s[|s| - 1] == Open then |s| - 1
    else
      assert Open in s[..|s| - 1] by {
        var j :| 0 <= j < |s| && s[j] == Open;
        assert s[..|s| - 1][j] == Open;
      }
      LastOpen(s[..|s| - 1])
  }

  lemma {:induction false} CountOpenAppend(a: seq<ParserToken>, b: seq<ParserToken>)
    ensures CountOpen(a + b) == CountOpen(a) + CountOpen(b)
    decreases |b|
  {
    if b == [] {
      assert a + b == a;
    } else {
      var ab := a + b;
      assert ab[..|ab| - 1] == a + b[..|b| - 1];
      assert ab[|ab| - 1] == b[|b| - 1];
      CountOpenAppend(a, b[..|b| - 1]);
    }
  }

  lemma {:induction false} CountOpenNone(s: seq<ParserToken>)
    requires Open !in s
    ensures CountOpen(s) == 0
    decreases |s|
  {
    if s != [] {
      CountOpenNone(s[..|s| - 1]);
    }
  }

  /** `pop_until_open_token` removes the topmost open token and everything above it,
      which is exactly one open token. */
  lemma PopUntilOpenCount(s: seq<ParserToken>)
    requires Open in s
    ensures CountOpen(s[..LastOpen(s)]) + 1 == CountOpen(s)
  {
    var k := LastOpen(s);
    assert s == s[..k] + [Open] + s[k + 1..];
    CountOpenAppend(s[..k] + [Open], s[k + 1..]);
    CountOpenAppend(s[..k], [Open]);
    CountOpenNone(s[k + 1..]);
  }

  // ---------------------------------------------------------------------------
  // Parsing, as a function of the state
  // ---------------------------------------------------------------------------

  /** The parser's state: its token stack and its visitor. */
  datatype Parsing = Parsing(stack: seq<ParserToken>, visitor: Normalized)

  /** What keeps the visitor's assertions from firing: one frame for the whole name
      and one for every open bracket. */
  predicate InSync(p: Parsing)
  {
    |p.visitor.frames| == 1 + CountOpen(p.stack)
  }

  /** What a lexer still has to hand out: the token `peek` shows and the text behind
      it. */
  datatype LexerState = LexerState(tables: Lexing.Tables, next: Lexing.Token, text: string)

  predicate Settled(l: LexerState)
  {
    Lexing.ValidTables(l.tables) && (l.next.classification.End? ==> l.text == [])
  }

  /** How much a lexer still has to hand out. */
  function Remaining(l: LexerState): nat
  {
    |l.text| + if l.next.classification.End? then 0 else 1
  }

  /** `NameLexer::next`: the token handed out and the lexer after it. */
  function Advance(l: LexerState): (r: (Lexing.Token, LexerState))
    requires Settled(l)
    ensures r.0 == l.next && Settled(r.1) && r.1.tables == l.tables
    ensures Remaining(r.1) <= Remaining(l)
    ensures !l.next.classification.End? ==> Remaining(r.1) < Remaining(l)
  {
    var scanned := Lexing.Scan(l.tables, l.text);
    Lexing.ScanSlices(l.tables, l.text);
    (l.next, LexerState(l.tables, scanned.0, scanned.1))
  }

  /** The lexer starting on a name. */
  function Start(tables: Lexing.Tables, name: string): (l: LexerState)
    requires Lexing.ValidTables(tables)
    ensures Settled(l) && l.tables == tables
  {
    var scanned := Lexing.Scan(tables, name);
    Lexing.ScanSlices(tables, name);
    LexerState(tables, scanned.0, scanned.1)
  }

  /** The token is the operator or punctuator `text`. */
  predicate IsOp(t: Lexing.Token, text: string)
  {
    t.classification.OperatorOrPunctuator? && t.content == text
  }

  /** The token is the keyword `text`. */
  predicate IsKeyword(t: Lexing.Token, text: string)
  {
    t.classification.Keyword? && t.content == text
  }

  function TopToken(s: seq<ParserToken>): Option<ParserToken>
  {
    if s == [] then None else Some(s[|s| - 1])
  }

  function Pop(s: seq<ParserToken>): seq<ParserToken>
    requires s != []
  {
    s[..|s| - 1]
  }

  /** `reduce_as_scope`: a pending `::` is consumed together with the scope before it;
      a scope directly before another one was a return type. None when the flush
      this needs would fail the visitor's assertion. */
  function ScopeReduction(p: Parsing): Option<Parsing>
  {
    if TopToken(p.stack) == Some(ScopeResolution) then
      var rest := Pop(p.stack);
      var below := if TopToken(rest) == Some(Scope) then Pop(rest) else rest;
      Some(Parsing(below + [Scope], p.visitor))
    else if TopToken(p.stack) == Some(Scope) then
      if Flushable(p.visitor) then Some(Parsing(Pop(p.stack) + [Scope], Renew(p.visitor, EndReturnType))) else None
    else Some(Parsing(p.stack + [Scope], p.visitor))
  }

  /** `handle_lexer_token(space)`: a space between a scope and `(` ends a return type. */
  function SpaceStep(p: Parsing, peek: Lexing.Token): Option<Parsing>
  {
    if TopToken(p.stack) == Some(Scope) && IsOp(peek, "(") then
      if Flushable(p.visitor) then Some(Parsing(Pop(p.stack), Renew(p.visitor, EndReturnType))) else None
    else Some(p)
  }

  /** `handle_lexer_token(identifier)`. */
  function IdentifierStep(p: Parsing, content: string): Option<Parsing>
  {
    match ScopeReduction(p)
    case None => None
    case Some(q) => Some(Parsing(q.stack, Forward(q.visitor, AddIdentifier(content))))
  }

  /** `pop_until_open_token`; None when no open token is left, where the source's
      assertion fails. */
  function PoppedToOpen(s: seq<ParserToken>): Option<seq<ParserToken>>
  {
    if Open in s then Some(s[..LastOpen(s)]) else None
  }

  /** `reduce_as_arg`: the scope on top becomes an argument. */
  function ArgReduction(s: seq<ParserToken>): Option<seq<ParserToken>>
  {
    if TopToken(s) == Some(Scope) then Some(Pop(s) + [Arg]) else None
  }

  /** Closing a bracket: pop to the open token, maybe push a scope, flush the frame
      and pass `e` on. */
  function ClosedBracket(p: Parsing, e: Event, pushScope: bool): Option<Parsing>
  {
    match PoppedToOpen(p.stack)
    case None => None
    case Some(s) =>
      if Flushable(p.visitor) then Some(Parsing(s + (if pushScope then [Scope] else []), Close(p.visitor, e)))
      else None
  }

  /** `handle_lexer_token(operator_or_punctuator)`; `peek` is the token after it. */
  function OperatorStep(p: Parsing, op: Lexing.Token, peek: Lexing.Token): Option<Parsing>
  {
    if op.content == "::" then Some(Parsing(p.stack + [ScopeResolution], Forward(p.visitor, AddScope)))
    else if op.content == "<" then Some(Parsing(p.stack + [Open], Push(p.visitor, BeginTemplate)))
    else if op.content == ">" then ClosedBracket(p, EndTemplate, false)
    else if op.content == "(" then Some(Parsing(p.stack + [Open], Push(p.visitor, OpenParenthesis)))
    else if op.content == ")" then
      if IsOp(peek, "(") then ClosedBracket(p, EndFunctionPtr, true) else ClosedBracket(p, EndFunction, false)
    else if op.content == "," then
      match ArgReduction(p.stack)
      case None => None
      case Some(s) => if Flushable(p.visitor) then Some(Parsing(s, Renew(p.visitor, AddArgument))) else None
    else if op.content == "*" then
      if Flushable(p.visitor) then Some(Parsing(p.stack, Renew(p.visitor, AddPtr))) else None
    else if op.content == "&" then
      if |p.visitor.frames| >= 1 then Some(Parsing(p.stack, Mark(p.visitor, LValueRef))) else None
    else if op.content == "&&" then
      if |p.visitor.frames| >= 1 then Some(Parsing(p.stack, Mark(p.visitor, RValueRef))) else None
    else Some(p)
  }

  /** The operator symbol `handle_operator_token` reads after `operator` and an
      optional space: `()` and `[]` are read as one symbol, and None is the failed
      assertion on a missing closing bracket. */
  function OperatorSymbol(next: Lexing.Token, l: LexerState): Option<(string, LexerState)>
    requires Settled(l)
  {
    var closing := if next.content == "(" then Some(")") else if next.content == "[" then Some("]") else None;
    match closing
    case None => Some((next.content, l))
    case Some(c) =>
      var closed := Advance(l).0;
      if IsOp(closed, c) then Some((next.content + closed.content, Advance(l).1)) else None
  }

  /** The token `handle_operator_token` reads after `operator`, skipping one space,
      and the lexer behind it. */
  function OperatorLead(l: LexerState): (r: (Lexing.Token, LexerState))
    requires Settled(l)
    ensures Settled(r.1) && r.1.tables == l.tables && Remaining(r.1) <= Remaining(l)
  {
    var l1 := if l.next.classification.Space? then Advance(l).1 else l;
    Advance(l1)
  }

  /** The calls an operator identifier is passed on with. */
  function NamedOperator(n: Normalized, text: string): (r: Normalized)
    ensures r.frames == n.frames
    ensures r.events == n.events + [BeginOperatorIdentifier, AddIdentifier(text), EndOperatorIdentifier]
  {
    Forward(Forward(Forward(n, BeginOperatorIdentifier), AddIdentifier(text)), EndOperatorIdentifier)
  }

  /** `handle_operator_token`, after `operator`: the symbol that follows becomes an
      operator identifier. Anything but an operator or punctuator after it is
      dropped. */
  function OperatorNameStep(p: Parsing, l: LexerState): Option<(Parsing, LexerState)>
    requires Settled(l)
  {
    var next := OperatorLead(l).0;
    if !next.classification.OperatorOrPunctuator? then
      Some((Parsing(p.stack, Forward(p.visitor, BeginOperatorIdentifier)), OperatorLead(l).1))
    else
      match OperatorSymbol(next, OperatorLead(l).1)
      case None => None
      case Some((text, l3)) =>
        match ScopeReduction(Parsing(p.stack, NamedOperator(p.visitor, text)))
        case None => None
        case Some(q) => Some((q, l3))
  }

  /** The qualifier a keyword sets, if any. */
  function KeywordQualifier(keyword: Lexing.Token): Option<Qualifier>
  {
    if keyword.content == "const" then Some(Const)
    else if keyword.content == "volatile" then Some(Volatile)
    else if keyword.content == "noexcept" then Some(Noexcept)
    else None
  }

  /** `handle_lexer_token(keyword)`. */
  function KeywordStep(p: Parsing, keyword: Lexing.Token, l: LexerState): Option<(Parsing, LexerState)>
    requires Settled(l)
  {
    if keyword.content == "operator" then OperatorNameStep(p, l)
    else
      match KeywordQualifier(keyword)
      case None => Some((p, l))
      case Some(q) => if |p.visitor.frames| >= 1 then Some((Parsing(p.stack, Mark(p.visitor, q)), l)) else None
  }

  function WithLexer(r: Option<Parsing>, l: LexerState): Option<(Parsing, LexerState)>
  {
    match r
    case None => None
    case Some(q) => Some((q, l))
  }

  /** Handling one token that is not the end token. */
  function Step(p: Parsing, t: Lexing.Token, l: LexerState): (r: Option<(Parsing, LexerState)>)
    requires Settled(l)
    ensures r.Some? ==> Settled(r.value.1) && r.value.1.tables == l.tables && Remaining(r.value.1) <= Remaining(l)
  {
    match t.classification
    case End => Some((p, l))
    case Space => WithLexer(SpaceStep(p, l.next), l)
    case Identifier(_) => WithLexer(IdentifierStep(p, t.content), l)
    case OperatorOrPunctuator(_) => WithLexer(OperatorStep(p, t, l.next), l)
    case Keyword(_) => KeywordStep(p, t, l)
  }

  /** `end`, which asserts that exactly one frame is left. */
  function Finished(p: Parsing): Option<seq<Event>>
  {
    if |p.visitor.frames| == 1 && Flushable(p.visitor) then Some(Close(p.visitor, End).events) else None
  }

  /** The parser's loop: handle tokens until the end token, then `end`. The calls
      the visitor receives, or None when an assertion of the source fails. */
  function ParseFrom(p: Parsing, t: Lexing.Token, l: LexerState): Option<seq<Event>>
    requires Settled(l)
    decreases Remaining(l), if t.classification.End? then 0 else 1
  {
    if t.classification.End? then Finished(p)
    else
      match Step(p, t, l)
      case None => None
      case Some((q, l1)) => ParseFrom(q, Advance(l1).0, Advance(l1).1)
  }

  /** The parser's state after `begin`. */
  const Begun := Parsing([], Push(Normalized([], []), Begin))

  /** `NameParser::operator()` on what a lexer still has to hand out. */
  function ParseInput(l: LexerState): Option<seq<Event>>
    requires Settled(l)
  {
    ParseFrom(Begun, Advance(l).0, Advance(l).1)
  }

  /** `NameParser::operator()` on a name. */
  function Parse(tables: Lexing.Tables, name: string): Option<seq<Event>>
    requires Lexing.ValidTables(tables)
  {
    ParseInput(Start(tables, name))
  }

  // ---------------------------------------------------------------------------
  // Properties of parsing
  // ---------------------------------------------------------------------------

  lemma CountOpenPush(s: seq<ParserToken>, x: ParserToken)
    ensures CountOpen(s + [x]) == CountOpen(s) + if x == Open then 1 else 0
  {
    assert (s + [x])[..|s|] == s;
  }

  /** `reduce_as_scope` never opens or closes a bracket. */
  lemma ScopeReductionKeepsSync(p: Parsing)
    requires InSync(p) && ScopeReduction(p).Some?
    ensures InSync(ScopeReduction(p).value)
  {
    var s := p.stack;
    if TopToken(s) == Some(ScopeResolution) {
      var rest := Pop(s);
      assert s == rest + [ScopeResolution];
      CountOpenPush(rest, ScopeResolution);
      if TopToken(rest) == Some(Scope) {
        assert rest == Pop(rest) + [Scope];
        CountOpenPush(Pop(rest), Scope);
        CountOpenPush(Pop(rest), Scope);
      } else {
        CountOpenPush(rest, Scope);
      }
    } else if TopToken(s) == Some(Scope) {
      assert s == Pop(s) + [Scope];
      CountOpenPush(Pop(s), Scope);
    } else {
      CountOpenPush(s, Scope);
    }
  }

  /** Closing a bracket drops one open token and one frame. */
  lemma ClosedBracketKeepsSync(p: Parsing, e: Event, pushScope: bool)
    requires InSync(p) && ClosedBracket(p, e, pushScope).Some?
    ensures InSync(ClosedBracket(p, e, pushScope).value)
  {
    PopUntilOpenCount(p.stack);
    var s := p.stack[..LastOpen(p.stack)];
    if pushScope {
      CountOpenPush(s, Scope);
    } else {
      assert s + [] == s;
    }
  }

  /** An operator or punctuator keeps one frame per open bracket. */
  lemma OperatorStepKeepsSync(p: Parsing, t: Lexing.Token, peek: Lexing.Token)
    requires InSync(p) && OperatorStep(p, t, peek).Some?
    ensures InSync(OperatorStep(p, t, peek).value)
  {
    if t.content == "::" {
      CountOpenPush(p.stack, ScopeResolution);
    } else if t.content == "<" || t.content == "(" {
      CountOpenPush(p.stack, Open);
    } else if t.content == ">" {
      ClosedBracketKeepsSync(p, EndTemplate, false);
    } else if t.content == ")" {
      ClosedBracketKeepsSync(p, if IsOp(peek, "(") then EndFunctionPtr else EndFunction, IsOp(peek, "("));
    } else if t.content == "," {
      assert p.stack == Pop(p.stack) + [Scope];
      CountOpenPush(Pop(p.stack), Scope);
      CountOpenPush(Pop(p.stack), Arg);
    }
  }

  /** The operator identifier after `operator` is pushed like any other name. */
  lemma OperatorNameKeepsSync(p: Parsing, l: LexerState)
    requires Settled(l) && InSync(p) && OperatorNameStep(p, l).Some?
    ensures InSync(OperatorNameStep(p, l).value.0)
  {
    var next := OperatorLead(l).0;
    if next.classification.OperatorOrPunctuator? {
      var text := OperatorSymbol(next, OperatorLead(l).1).value.0;
      ScopeReductionKeepsSync(Parsing(p.stack, NamedOperator(p.visitor, text)));
    }
  }

  /** Every step keeps one frame per open bracket, plus the outermost one. */
  lemma StepKeepsSync(p: Parsing, t: Lexing.Token, l: LexerState)
    requires Settled(l) && InSync(p) && Step(p, t, l).Some?
    ensures InSync(Step(p, t, l).value.0)
  {
    match t.classification
    case End =>
    case Space =>
      if TopToken(p.stack) == Some(Scope) && IsOp(l.next, "(") {
        assert p.stack == Pop(p.stack) + [Scope];
        CountOpenPush(Pop(p.stack), Scope);
      }
    case Identifier(_) =>
      ScopeReductionKeepsSync(p);
    case OperatorOrPunctuator(_) =>
      OperatorStepKeepsSync(p, t, l.next);
    case Keyword(_) =>
      if t.content == "operator" {
        OperatorNameKeepsSync(p, l);
      }
  }

  /** The qualifier tokens: `&`, `&&` and the keywords `const`, `volatile` and
      `noexcept`. */
  predicate QualifierToken(t: Lexing.Token, q: Qualifier)
  {
    match q
    case LValueRef => IsOp(t, "&")
    case RValueRef => IsOp(t, "&&")
    case Const => IsKeyword(t, "const")
    case Volatile => IsKeyword(t, "volatile")
    case Noexcept => IsKeyword(t, "noexcept")
  }

  /** The step a qualifier token takes is `Mark` on the visitor. */
  lemma QualifierMarks(p: Parsing, t: Lexing.Token, l: LexerState, q: Qualifier)
    requires Settled(l) && |p.visitor.frames| >= 1 && QualifierToken(t, q)
    ensures Step(p, t, l) == Some((Parsing(p.stack, Mark(p.visitor, q)), l))
  {
    var m := Parsing(p.stack, Mark(p.visitor, q));
    if q.LValueRef? || q.RValueRef? {
      assert OperatorStep(p, t, l.next) == Some(m);
    } else {
      assert KeywordQualifier(t) == Some(q);
    }
  }

  /** A qualifier token only sets its flag on the top frame: it passes nothing on
      and, while the parser is in sync, never fails. */
  lemma QualifierStep(p: Parsing, t: Lexing.Token, l: LexerState, q: Qualifier)
    requires Settled(l) && InSync(p) && QualifierToken(t, q)
    ensures Step(p, t, l).Some?
    ensures var r := Step(p, t, l).value;
            r.1 == l && r.0.stack == p.stack && r.0.visitor.events == p.visitor.events
            && r.0.visitor.frames[..|p.visitor.frames| - 1] == p.visitor.frames[..|p.visitor.frames| - 1]
            && Top(r.0.visitor) == WithQualifier(Top(p.visitor), q)
  {
    QualifierMarks(p, t, l, q);
  }

  /** `end` succeeds exactly when every bracket was closed and the last frame does
      not hold both references; it then flushes that frame and passes `end` on. */
  lemma FinishedOutcome(p: Parsing)
    requires InSync(p)
    ensures Finished(p).Some? <==> CountOpen(p.stack) == 0 && OneRef(Top(p.visitor))
    ensures Finished(p).Some? ==> Finished(p).value == p.visitor.events + FrameEvents(Top(p.visitor)) + [End]
  {
  }

  /** The state `q` holds every call `p` holds, and maybe more behind them. */
  predicate Extends(p: Parsing, q: Parsing)
  {
    p.visitor.events <= q.visitor.events
  }

  lemma OperatorStepExtends(p: Parsing, t: Lexing.Token, peek: Lexing.Token)
    requires OperatorStep(p, t, peek).Some?
    ensures Extends(p, OperatorStep(p, t, peek).value)
  {
  }

  lemma ScopeReductionExtends(p: Parsing)
    requires ScopeReduction(p).Some?
    ensures Extends(p, ScopeReduction(p).value)
  {
  }

  lemma OperatorNameExtends(p: Parsing, l: LexerState)
    requires Settled(l) && OperatorNameStep(p, l).Some?
    ensures Extends(p, OperatorNameStep(p, l).value.0)
  {
    var next := OperatorLead(l).0;
    if next.classification.OperatorOrPunctuator? {
      var text := OperatorSymbol(next, OperatorLead(l).1).value.0;
      ScopeReductionExtends(Parsing(p.stack, NamedOperator(p.visitor, text)));
    }
  }

  /** A step only ever adds calls behind those the visitor has received. */
  lemma StepExtends(p: Parsing, t: Lexing.Token, l: LexerState)
    requires Settled(l) && Step(p, t, l).Some?
    ensures Extends(p, Step(p, t, l).value.0)
  {
    match t.classification
    case End =>
    case Space =>
    case Identifier(_) =>
    case OperatorOrPunctuator(_) =>
      OperatorStepExtends(p, t, l.next);
    case Keyword(_) =>
      if t.content == "operator" {
        OperatorNameExtends(p, l);
      }
  }

  /** Parsing passes on the calls made so far, more calls, and `end` last. */
  lemma {:induction false} ParseFromExtends(p: Parsing, t: Lexing.Token, l: LexerState)
    requires Settled(l) && ParseFrom(p, t, l).Some?
    ensures p.visitor.events <= ParseFrom(p, t, l).value
    ensures var evs := ParseFrom(p, t, l).value; evs != [] && evs[|evs| - 1] == End
    decreases Remaining(l), if t.classification.End? then 0 else 1
  {
    if !t.classification.End? {
      var r := Step(p, t, l).value;
      StepExtends(p, t, l);
      ParseFromExtends(r.0, Advance(r.1).0, Advance(r.1).1);
    }
  }

  /** A parsed name is bracketed by `begin` and `end`. */
  lemma ParseBracketed(l: LexerState)
    requires Settled(l) && ParseInput(l).Some?
    ensures var evs := ParseInput(l).value; |evs| >= 2 && evs[0] == Begin && evs[|evs| - 1] == End
  {
    ParseFromExtends(Begun, Advance(l).0, Advance(l).1);
  }

  /** `)` closes the innermost open bracket; followed by `(` it ends a function
      pointer and leaves a scope token, otherwise it ends a function. */
  lemma CloseParenthesis(p: Parsing, op: Lexing.Token, peek: Lexing.Token)
    requires InSync(p) && IsOp(op, ")")
    ensures OperatorStep(p, op, peek).Some? <==> Open in p.stack && OneRef(Top(p.visitor))
    ensures OperatorStep(p, op, peek).Some? ==>
              var r := OperatorStep(p, op, peek).value;
              CountOpen(r.stack) + 1 == CountOpen(p.stack) && InSync(r)
              && r.visitor.events[..|p.visitor.events|] == p.visitor.events
              && (IsOp(peek, "(") ==> TopToken(r.stack) == Some(Scope) && r.visitor.events[|r.visitor.events| - 1] == EndFunctionPtr)
              && (!IsOp(peek, "(") ==> r.stack == p.stack[..LastOpen(p.stack)] && r.visitor.events[|r.visitor.events| - 1] == EndFunction)
  {
    if Open in p.stack && OneRef(Top(p.visitor)) {
      PopUntilOpenCount(p.stack);
      var e := if IsOp(peek, "(") then EndFunctionPtr else EndFunction;
      ClosedBracketKeepsSync(p, e, IsOp(peek, "("));
      if IsOp(peek, "(") {
        CountOpenPush(p.stack[..LastOpen(p.stack)], Scope);
      } else {
        assert p.stack[..LastOpen(p.stack)] + [] == p.stack[..LastOpen(p.stack)];
      }
    }
  }

  /** After `operator`, `(` must be followed by `)` and `[` by `]`, and the pair
      is one symbol; any other operator is a symbol on its own. */
  lemma OperatorSymbolSpec(next: Lexing.Token, l: LexerState)
    requires Settled(l)
    ensures next.content == "(" ==>
              (OperatorSymbol(next, l).Some? <==> IsOp(l.next, ")"))
              && (OperatorSymbol(next, l).Some? ==> OperatorSymbol(next, l).value == ("()", Advance(l).1))
    ensures next.content == "[" ==>
              (OperatorSymbol(next, l).Some? <==> IsOp(l.next, "]"))
              && (OperatorSymbol(next, l).Some? ==> OperatorSymbol(next, l).value == ("[]", Advance(l).1))
    ensures next.content != "(" && next.content != "[" ==> OperatorSymbol(next, l) == Some((next.content, l))
  {
    if next.content == "(" && IsOp(l.next, ")") {
      assert next.content + l.next.content == "()";
    } else if next.content == "[" && IsOp(l.next, "]") {
      assert next.content + l.next.content == "[]";
    }
  }

  /** `handle_operator_token` passes on `begin_operator_identifier`, then the
      symbol as an identifier and `end_operator_identifier`; when no operator
      follows, only the first call is made and the token is dropped. */
  lemma OperatorNameEvents(p: Parsing, l: LexerState)
    requires Settled(l) && OperatorNameStep(p, l).Some?
    ensures var n := |p.visitor.events|;
            var evs := OperatorNameStep(p, l).value.0.visitor.events;
            var next := OperatorLead(l).0;
            |evs| > n && evs[..n + 1] == p.visitor.events + [BeginOperatorIdentifier]
            && (!next.classification.OperatorOrPunctuator? ==> evs == p.visitor.events + [BeginOperatorIdentifier])
            && (next.classification.OperatorOrPunctuator? ==>
                  |evs| > n + 2 && evs[n + 1] == AddIdentifier(OperatorSymbol(next, OperatorLead(l).1).value.0)
                  && evs[n + 2] == EndOperatorIdentifier)
  {
    var next := OperatorLead(l).0;
    if next.classification.OperatorOrPunctuator? {
      var text := OperatorSymbol(next, OperatorLead(l).1).value.0;
      var named := Parsing(p.stack, NamedOperator(p.visitor, text));
      ScopeReductionExtends(named);
      var evs := OperatorNameStep(p, l).value.0.visitor.events;
      assert evs[..|named.visitor.events|] == named.visitor.events;
    }
  }

  // ---------------------------------------------------------------------------
  // The parser
  // ---------------------------------------------------------------------------

  /** `NameParser`: a lexer, a token stack and the normalising visitor it reports
      to. A method returning false stands for a failed assertion of the source,
      after which nothing is promised about the state. */
  class NameParser {
    const visitor: SpecNormalizer
    const lexer: Lexing.NameLexer
    var stack: seq<ParserToken>

    function Current(): (p: Parsing)
      reads this, visitor
      ensures p.stack == stack && p.visitor == visitor.State()
    {
      Parsing(stack, visitor.State())
    }

    function Input(): (l: LexerState)
      reads lexer
      ensures l.tables == lexer.tables && l.next == lexer.next && l.text == lexer.text
    {
      LexerState(lexer.tables, lexer.next, lexer.text)
    }

    constructor(name: string)
      ensures fresh(visitor) && fresh(lexer)
      ensures Current() == Parsing([], Normalized([], []))
      ensures lexer.tables == Lexing.Lexicon && Lexing.ValidTables(lexer.tables)
      ensures Input() == Start(lexer.tables, name)
    {
      visitor := new SpecNormalizer();
      lexer := new Lexing.NameLexer(name);
      stack := [];
    }

    /** `operator()`: `begin`, every token up to the end token, then `end`. */
    method Run() returns (ok: bool)
      requires Current() == Parsing([], Normalized([], [])) && Settled(Input())
      modifies this, visitor, lexer
      ensures ok == ParseInput(old(Input())).Some?
      ensures ok ==> visitor.events == ParseInput(old(Input())).value
    {
      visitor.Begin();
      var t := lexer.Next();
      while !t.classification.End?
        invariant Settled(Input()) && Input().tables == old(Input()).tables
        invariant ParseFrom(Current(), t, Input()) == ParseInput(old(Input()))
        decreases Remaining(Input()), if t.classification.End? then 0 else 1
      {
        ok := HandleToken(t);
        if !ok {
          return;
        }
        t := lexer.Next();
      }
      if |visitor.frames| != 1 || !Flushable(visitor.State()) {
        return false;
      }
      visitor.End();
      ok := true;
    }

    /** `handle_lexer_token`, for every token but the end token. */
    method HandleToken(t: Lexing.Token) returns (ok: bool)
      requires Settled(Input()) && !t.classification.End?
      modifies this, visitor, lexer
      ensures var r := Step(old(Current()), t, old(Input()));
              ok == r.Some? && (ok ==> Current() == r.value.0 && Input() == r.value.1)
    {
      match t.classification {
        case Space =>
          ok := HandleSpace();
        case Identifier(_) =>
          ok := HandleIdentifier(t.content);
        case OperatorOrPunctuator(_) =>
          ok := HandleOperatorOrPunctuator(t);
        case Keyword(_) =>
          ok := HandleKeyword(t);
      }
    }

    /** `handle_lexer_token(space)`. */
    method HandleSpace() returns (ok: bool)
      modifies this, visitor
      ensures var r := SpaceStep(old(Current()), lexer.Peek());
              ok == r.Some? && (ok ==> Current() == r.value)
    {
      if stack != [] && stack[|stack| - 1] == Scope && IsOp(lexer.Peek(), "(") {
        if !Flushable(visitor.State()) {
          return false;
        }
        stack := stack[..|stack| - 1];
        visitor.Restart(EndReturnType);
      }
      ok := true;
    }

    /** `reduce_as_scope`. */
    method ReduceAsScope() returns (ok: bool)
      modifies this, visitor
      ensures var r := ScopeReduction(old(Current()));
              ok == r.Some? && (ok ==> Current() == r.value)
    {
      if stack != [] {
        if stack[|stack| - 1] == ScopeResolution {
          stack := stack[..|stack| - 1];
          if stack != [] && stack[|stack| - 1] == Scope {
            stack := stack[..|stack| - 1];
          }
        } else if stack[|stack| - 1] == Scope {
          if !Flushable(visitor.State()) {
            return false;
          }
          stack := stack[..|stack| - 1];
          visitor.Restart(EndReturnType);
        }
      }
      stack := stack + [Scope];
      ok := true;
    }

    /** `handle_lexer_token(identifier)`. */
    method HandleIdentifier(content: string) returns (ok: bool)
      modifies this, visitor
      ensures var r := IdentifierStep(old(Current()), content);
              ok == r.Some? && (ok ==> Current() == r.value)
    {
      ok := ReduceAsScope();
      if ok {
        visitor.Pass(AddIdentifier(content));
      }
    }

    /** `pop_until_open_token`: pops up to and including the topmost open token. */
    method PopUntilOpenToken() returns (ok: bool)
      modifies this
      ensures var r := PoppedToOpen(old(stack));
              ok == r.Some? && (ok ==> stack == r.value)
    {
      var finished := false;
      while !finished
        invariant stack == old(stack)[..|stack|]
        invariant !finished ==> Open !in old(stack)[|stack|..]
        invariant finished ==> Open in old(stack) && stack == old(stack)[..LastOpen(old(stack))]
        decreases |stack|
      {
        if stack == [] {
          assert old(stack)[|stack|..] == old(stack);
          return false;
        }
        finished := stack[|stack| - 1] == Open;
        if finished {
          LastOpenAt(old(stack), |stack| - 1);
        }
        stack := stack[..|stack| - 1];
      }
      ok := true;
    }

    /** `reduce_as_arg`: asserts a scope on top and turns it into an argument. */
    method ReduceAsArg() returns (ok: bool)
      modifies this
      ensures var r := ArgReduction(old(stack));
              ok == r.Some? && (ok ==> stack == r.value)
    {
      if stack == [] || stack[|stack| - 1] != Scope {
        return false;
      }
      stack := stack[..|stack| - 1] + [Arg];
      ok := true;
    }

    /** Pops to the open token, maybe pushes a scope, then flushes with `e`. */
    method CloseBracket(e: Event, pushScope: bool) returns (ok: bool)
      modifies this, visitor
      ensures var r := ClosedBracket(old(Current()), e, pushScope);
              ok == r.Some? && (ok ==> Current() == r.value)
    {
      ok := PopUntilOpenToken();
      if !ok {
        return;
      }
      if pushScope {
        stack := stack + [Scope];
      }
      if !Flushable(visitor.State()) {
        return false;
      }
      visitor.Finish(e);
    }

    /** `handle_lexer_token(operator_or_punctuator)`. */
    method HandleOperatorOrPunctuator(t: Lexing.Token) returns (ok: bool)
      modifies this, visitor
      ensures var r := OperatorStep(old(Current()), t, lexer.Peek());
              ok == r.Some? && (ok ==> Current() == r.value)
    {
      ok := true;
      if t.content == "::" {
        visitor.Pass(AddScope);
        stack := stack + [ScopeResolution];
      } else if t.content == "<" {
        stack := stack + [Open];
        visitor.OpenFrame(BeginTemplate);
      } else if t.content == ">" {
        ok := CloseBracket(EndTemplate, false);
      } else if t.content == "(" {
        stack := stack + [Open];
        visitor.OpenFrame(OpenParenthesis);
      } else if t.content == ")" {
        if IsOp(lexer.Peek(), "(") {
          ok := CloseBracket(EndFunctionPtr, true);
        } else {
          ok := CloseBracket(EndFunction, false);
        }
      } else if t.content == "," {
        ok := ReduceAsArg();
        if ok {
          if !Flushable(visitor.State()) {
            return false;
          }
          visitor.Restart(AddArgument);
        }
      } else if t.content == "*" {
        if !Flushable(visitor.State()) {
          return false;
        }
        visitor.Restart(AddPtr);
      } else if t.content == "&" || t.content == "&&" {
        if visitor.frames == [] {
          return false;
        }
        visitor.AddQualifier(if t.content == "&" then LValueRef else RValueRef);
      }
    }

    /** `handle_lexer_token(keyword)`. */
    method HandleKeyword(t: Lexing.Token) returns (ok: bool)
      requires Settled(Input())
      modifies this, visitor, lexer
      ensures var r := KeywordStep(old(Current()), t, old(Input()));
              ok == r.Some? && (ok ==> Current() == r.value.0 && Input() == r.value.1)
    {
      if t.content == "operator" {
        ok := HandleOperatorToken();
        return;
      }
      var q := KeywordQualifier(t);
      if q.Some? {
        if visitor.frames == [] {
          return false;
        }
        visitor.AddQualifier(q.value);
      }
      ok := true;
    }

    /** `handle_operator_token`. */
    method HandleOperatorToken() returns (ok: bool)
      requires Settled(Input())
      modifies this, visitor, lexer
      ensures var r := OperatorNameStep(old(Current()), old(Input()));
              ok == r.Some? && (ok ==> Current() == r.value.0 && Input() == r.value.1)
    {
      ghost var l0 := Input();
      ghost var p0 := Current();
      visitor.Pass(BeginOperatorIdentifier);
      SkipSpace();
      ghost var l1 := Input();
      var next := lexer.Next();
      assert next == Advance(l1).0 && Input() == Advance(l1).1;
      assert (next, Input()) == OperatorLead(l0);
      if !next.classification.OperatorOrPunctuator? {
        return true;
      }
      var content;
      ok, content := ReadOperatorSymbol(next);
      if !ok {
        return;
      }
      visitor.Pass(AddIdentifier(content));
      visitor.Pass(EndOperatorIdentifier);
      assert Current() == Parsing(p0.stack, NamedOperator(p0.visitor, content));
      ok := ReduceAsScope();
    }

    /** Skips one space token, if `peek` shows one. */
    method SkipSpace()
      requires Settled(Input())
      modifies lexer
      ensures Input() == if old(Input()).next.classification.Space? then Advance(old(Input())).1 else old(Input())
    {
      if lexer.Peek().classification.Space? {
        var _ := lexer.Next();
      }
    }

    /** The rest of an operator symbol that begins with `next`: `)` after `(` and
        `]` after `[`. */
    method ReadOperatorSymbol(next: Lexing.Token) returns (ok: bool, content: string)
      requires Settled(Input())
      modifies lexer
      ensures var r := OperatorSymbol(next, old(Input()));
              ok == r.Some? && (ok ==> content == r.value.0 && Input() == r.value.1)
    {
      content := next.content;
      if next.content == "(" || next.content == "[" {
        var closing := lexer.Next();
        if !IsOp(closing, if next.content == "(" then ")" else "]") {
          return false, content;
        }
        content := next.content + closing.content;
      }
      ok := true;
    }
  }

  /** An open token with none above it is the topmost one. */
  lemma LastOpenAt(s: seq<ParserToken>, k: nat)
    requires k < |s| && s[k] == Open && Open !in s[k + 1..]
    ensures Open in s && LastOpen(s) == k
  {
    var j := LastOpen(s);
    OpenBehind(s, j, k);
    OpenBehind(s, k, j);
  }

  lemma OpenBehind(s: seq<ParserToken>, j: nat, k: nat)
    requires j < |s| && k < |s| && s[k] == Open
    ensures j < k ==> Open in s[j + 1..]
  {
    if j < k {
      assert s[j + 1..][k - j - 1] == Open;
    }
  }
}
