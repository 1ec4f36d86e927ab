/** The tokeniser for demangled type names of NameLexer.hpp: it splits a name into
    single spaces, keywords, operators or punctuators (longest match against the
    table of section 5.12 of the C++ working draft) and identifiers (everything
    else), and ends with an end token that repeats once the text is used up. */
module Lexing {
  import opened Wrappers
  import opened Text
  import Algorithm

  /** `is_space`: `std::isspace` in the "C" locale (space, tab, line feed, vertical
      tab, form feed, carriage return). */
  predicate IsSpace(c: char)
  {
    c == ' ' || '\t' <= c <= '\r'
  }

  /** `keywordCollection`: the noteworthy keywords and the alternative operator
      spellings, in sorted order. */
  const Keywords: seq<string> :=
    ["and", "and_eq", "bitand", "bitor", "class"]
    + ["co_await", "compl", "const", "constexpr", "delete"]
    + ["enum", "new", "noexcept", "not", "not_eq"]
    + ["operator", "or", "or_eq", "private", "protected"]
    + ["public", "struct", "volatile", "xor", "xor_eq"]

  /** `operatorOrPunctuatorCollection`: the operators and punctuators, in sorted
      order. */
  const Operators: seq<string> :=
    ["!", "!=", "%", "%=", "%>", "&", "&&", "&="]
    + ["'", "(", ")", "*", "*=", "+", "++", "+="]
    + [",", "-", "--", "-=", "->", "->*", ".", ".*"]
    + ["...", "/", "/=", ":", "::", ":>", ";", "<"]
    + ["<%", "<:", "<<", "<<=", "<=", "<=>", "=", "=="]
    + [">", ">=", ">>", ">>=", "?", "[", "]", "^"]
    + ["^=", "`", "{", "|", "|=", "||", "}", "~"]


  // ---------------------------------------------------------------------------
  // The tables are sorted and free of duplicates
  // ---------------------------------------------------------------------------

  /** Strictly before, in the ordering of `std::string_view`. */
  predicate StrLt(a: string, b: string)
  {
    StrLe(a, b) && a != b
  }

  /** Two strings that agree on their first `k` characters and then differ (or the
      first one ends) are strictly ordered. */
  lemma {:induction false} StrLtAt(a: string, b: string, k: nat)
    requires k <= |a| && k < |b| && a[..k] == b[..k] && (k == |a| || a[k] < b[k])
    ensures StrLt(a, b)
  {
    if k > 0 {
      assert a[0] == a[..k][0] == b[0];
      assert a[1..][..k - 1] == a[..k][1..];
      assert b[1..][..k - 1] == b[..k][1..];
      StrLtAt(a[1..], b[1..], k - 1);
    }
  }

  /** Each entry strictly after the one before it. */
  predicate StrictlySorted(t: seq<string>)
  {
    forall i :: 0 < i < |t| ==> StrLt(t[i - 1], t[i])
  }

  predicate Distinct(t: seq<string>)
  {
    forall i, j :: 0 <= i < j < |t| ==> t[i] != t[j]
  }

  lemma {:induction false} StrictlyOrderedPair(t: seq<string>, i: nat, j: nat)
    requires StrictlySorted(t) && i < j < |t|
    ensures StrLt(t[i], t[j])
    decreases j - i
  {
    if i + 1 < j {
      StrictlyOrderedPair(t, i, j - 1);
      StrLeTransitive(t[i], t[j - 1], t[j]);
      if t[i] == t[j] {
        StrLeAntisymmetric(t[j - 1], t[j]);
      }
    }
  }

  /** A strictly sorted table is sorted (what `prefix_range` and `binary_find`
      rely on) and holds every text once (what the `unique` assertion checks). */
  lemma StrictlySortedSpec(t: seq<string>)
    requires StrictlySorted(t)
    ensures Algorithm.SortedStrings(t) && Distinct(t)
  {
    forall i, j | 0 <= i < j < |t|
      ensures StrLt(t[i], t[j])
    {
      StrictlyOrderedPair(t, i, j);
    }
  }

  lemma KeywordsAdjacent1()
    ensures forall i :: 1 <= i < 6 ==> StrLt(Keywords[i - 1], Keywords[i])
  {
    forall i | 1 <= i < 6
      ensures StrLt(Keywords[i - 1], Keywords[i])
    {
      if i == 1 { StrLtAt(Keywords[0], Keywords[1], 3); }
      else if i == 2 { StrLtAt(Keywords[1], Keywords[2], 0); }
      else if i == 3 { StrLtAt(Keywords[2], Keywords[3], 3); }
      else if i == 4 { StrLtAt(Keywords[3], Keywords[4], 0); }
      else if i == 5 { StrLtAt(Keywords[4], Keywords[5], 1); }
    }
  }

  lemma KeywordsAdjacent2()
    ensures forall i :: 6 <= i < 11 ==> StrLt(Keywords[i - 1], Keywords[i])
  {
    forall i | 6 <= i < 11
      ensures StrLt(Keywords[i - 1], Keywords[i])
    {
      if i == 6 { StrLtAt(Keywords[5], Keywords[6], 2); }
      else if i == 7 { StrLtAt(Keywords[6], Keywords[7], 2); }
      else if i == 8 { StrLtAt(Keywords[7], Keywords[8], 5); }
      else if i == 9 { StrLtAt(Keywords[8], Keywords[9], 0); }
      else if i == 10 { StrLtAt(Keywords[9], Keywords[10], 0); }
    }
  }

  lemma KeywordsAdjacent3()
    ensures forall i :: 11 <= i < 16 ==> StrLt(Keywords[i - 1], Keywords[i])
  {
    forall i | 11 <= i < 16
      ensures StrLt(Keywords[i - 1], Keywords[i])
    {
      if i == 11 { StrLtAt(Keywords[10], Keywords[11], 0); }
      else if i == 12 { StrLtAt(Keywords[11], Keywords[12], 1); }
      else if i == 13 { StrLtAt(Keywords[12], Keywords[13], 2); }
      else if i == 14 { StrLtAt(Keywords[13], Keywords[14], 3); }
      else if i == 15 { StrLtAt(Keywords[14], Keywords[15], 0); }
    }
  }

  lemma KeywordsAdjacent4()
    ensures forall i :: 16 <= i < 21 ==> StrLt(Keywords[i - 1], Keywords[i])
  {
    forall i | 16 <= i < 21
      ensures StrLt(Keywords[i - 1], Keywords[i])
    {
      if i == 16 { StrLtAt(Keywords[15], Keywords[16], 1); }
      else if i == 17 { StrLtAt(Keywords[16], Keywords[17], 2); }
      else if i == 18 { StrLtAt(Keywords[17], Keywords[18], 0); }
      else if i == 19 { StrLtAt(Keywords[18], Keywords[19], 2); }
      else if i == 20 { StrLtAt(Keywords[19], Keywords[20], 1); }
    }
  }

  lemma KeywordsAdjacent5()
    ensures forall i :: 21 <= i < 25 ==> StrLt(Keywords[i - 1], Keywords[i])
  {
    forall i | 21 <= i < 25
      ensures StrLt(Keywords[i - 1], Keywords[i])
    {
      if i == 21 { StrLtAt(Keywords[20], Keywords[21], 0); }
      else if i == 22 { StrLtAt(Keywords[21], Keywords[22], 0); }
      else if i == 23 { StrLtAt(Keywords[22], Keywords[23], 0); }
      else if i == 24 { StrLtAt(Keywords[23], Keywords[24], 3); }
    }
  }

  lemma OperatorsAdjacent1()
    ensures forall i :: 1 <= i < 8 ==> StrLt(Operators[i - 1], Operators[i])
  {
    forall i | 1 <= i < 8
      ensures StrLt(Operators[i - 1], Operators[i])
    {
      if i == 1 { StrLtAt(Operators[0], Operators[1], 1); }
      else if i == 2 { StrLtAt(Operators[1], Operators[2], 0); }
      else if i == 3 { StrLtAt(Operators[2], Operators[3], 1); }
      else if i == 4 { StrLtAt(Operators[3], Operators[4], 1); }
      else if i == 5 { StrLtAt(Operators[4], Operators[5], 0); }
      else if i == 6 { StrLtAt(Operators[5], Operators[6], 1); }
      else if i == 7 { StrLtAt(Operators[6], Operators[7], 1); }
    }
  }

  lemma OperatorsAdjacent2()
    ensures forall i :: 8 <= i < 15 ==> StrLt(Operators[i - 1], Operators[i])
  {
    forall i | 8 <= i < 15
      ensures StrLt(Operators[i - 1], Operators[i])
    {
      if i == 8 { StrLtAt(Operators[7], Operators[8], 0); }
      else if i == 9 { StrLtAt(Operators[8], Operators[9], 0); }
      else if i == 10 { StrLtAt(Operators[9], Operators[10], 0); }
      else if i == 11 { StrLtAt(Operators[10], Operators[11], 0); }
      else if i == 12 { StrLtAt(Operators[11], Operators[12], 1); }
      else if i == 13 { StrLtAt(Operators[12], Operators[13], 0); }
      else if i == 14 { StrLtAt(Operators[13], Operators[14], 1); }
    }
  }

  lemma OperatorsAdjacent3()
    ensures forall i :: 15 <= i < 22 ==> StrLt(Operators[i - 1], Operators[i])
  {
    forall i | 15 <= i < 22
      ensures StrLt(Operators[i - 1], Operators[i])
    {
      if i == 15 { StrLtAt(Operators[14], Operators[15], 1); }
      else if i == 16 { StrLtAt(Operators[15], Operators[16], 0); }
      else if i == 17 { StrLtAt(Operators[16], Operators[17], 0); }
      else if i == 18 { StrLtAt(Operators[17], Operators[18], 1); }
      else if i == 19 { StrLtAt(Operators[18], Operators[19], 1); }
      else if i == 20 { StrLtAt(Operators[19], Operators[20], 1); }
      else if i == 21 { StrLtAt(Operators[20], Operators[21], 2); }
    }
  }

  lemma OperatorsAdjacent4()
    ensures forall i :: 22 <= i < 29 ==> StrLt(Operators[i - 1], Operators[i])
  {
    forall i | 22 <= i < 29
      ensures StrLt(Operators[i - 1], Operators[i])
    {
      if i == 22 { StrLtAt(Operators[21], Operators[22], 0); }
      else if i == 23 { StrLtAt(Operators[22], Operators[23], 1); }
      else if i == 24 { StrLtAt(Operators[23], Operators[24], 1); }
      else if i == 25 { StrLtAt(Operators[24], Operators[25], 0); }
      else if i == 26 { StrLtAt(Operators[25], Operators[26], 1); }
      else if i == 27 { StrLtAt(Operators[26], Operators[27], 0); }
      else if i == 28 { StrLtAt(Operators[27], Operators[28], 1); }
    }
  }

  lemma OperatorsAdjacent5()
    ensures forall i :: 29 <= i < 36 ==> StrLt(Operators[i - 1], Operators[i])
  {
    forall i | 29 <= i < 36
      ensures StrLt(Operators[i - 1], Operators[i])
    {
      if i == 29 { StrLtAt(Operators[28], Operators[29], 1); }
      else if i == 30 { StrLtAt(Operators[29], Operators[30], 0); }
      else if i == 31 { StrLtAt(Operators[30], Operators[31], 0); }
      else if i == 32 { StrLtAt(Operators[31], Operators[32], 1); }
      else if i == 33 { StrLtAt(Operators[32], Operators[33], 1); }
      else if i == 34 { StrLtAt(Operators[33], Operators[34], 1); }
      else if i == 35 { StrLtAt(Operators[34], Operators[35], 2); }
    }
  }

  lemma OperatorsAdjacent6()
    ensures forall i :: 36 <= i < 43 ==> StrLt(Operators[i - 1], Operators[i])
  {
    forall i | 36 <= i < 43
      ensures StrLt(Operators[i - 1], Operators[i])
    {
      if i == 36 { StrLtAt(Operators[35], Operators[36], 1); }
      else if i == 37 { StrLtAt(Operators[36], Operators[37], 2); }
      else if i == 38 { StrLtAt(Operators[37], Operators[38], 0); }
      else if i == 39 { StrLtAt(Operators[38], Operators[39], 1); }
      else if i == 40 { StrLtAt(Operators[39], Operators[40], 0); }
      else if i == 41 { StrLtAt(Operators[40], Operators[41], 1); }
      else if i == 42 { StrLtAt(Operators[41], Operators[42], 1); }
    }
  }

  lemma OperatorsAdjacent7()
    ensures forall i :: 43 <= i < 50 ==> StrLt(Operators[i - 1], Operators[i])
  {
    forall i | 43 <= i < 50
      ensures StrLt(Operators[i - 1], Operators[i])
    {
      if i == 43 { StrLtAt(Operators[42], Operators[43], 2); }
      else if i == 44 { StrLtAt(Operators[43], Operators[44], 0); }
      else if i == 45 { StrLtAt(Operators[44], Operators[45], 0); }
      else if i == 46 { StrLtAt(Operators[45], Operators[46], 0); }
      else if i == 47 { StrLtAt(Operators[46], Operators[47], 0); }
      else if i == 48 { StrLtAt(Operators[47], Operators[48], 1); }
      else if i == 49 { StrLtAt(Operators[48], Operators[49], 0); }
    }
  }

  lemma OperatorsAdjacent8()
    ensures forall i :: 50 <= i < 56 ==> StrLt(Operators[i - 1], Operators[i])
  {
    forall i | 50 <= i < 56
      ensures StrLt(Operators[i - 1], Operators[i])
    {
      if i == 50 { StrLtAt(Operators[49], Operators[50], 0); }
      else if i == 51 { StrLtAt(Operators[50], Operators[51], 0); }
      else if i == 52 { StrLtAt(Operators[51], Operators[52], 1); }
      else if i == 53 { StrLtAt(Operators[52], Operators[53], 1); }
      else if i == 54 { StrLtAt(Operators[53], Operators[54], 0); }
      else if i == 55 { StrLtAt(Operators[54], Operators[55], 0); }
    }
  }


  /** `keywordCollection` and `operatorOrPunctuatorCollection` are sorted and hold
      no text twice. */
  lemma TablesSorted()
    ensures Algorithm.SortedStrings(Keywords) && Distinct(Keywords)
    ensures Algorithm.SortedStrings(Operators) && Distinct(Operators)
  {
    KeywordsAdjacent1(); KeywordsAdjacent2(); KeywordsAdjacent3(); KeywordsAdjacent4(); KeywordsAdjacent5();
    StrictlySortedSpec(Keywords);
    OperatorsAdjacent1(); OperatorsAdjacent2(); OperatorsAdjacent3(); OperatorsAdjacent4(); OperatorsAdjacent5(); OperatorsAdjacent6(); OperatorsAdjacent7(); OperatorsAdjacent8();
    StrictlySortedSpec(Operators);
  }

  lemma OperatorsLeadsClosed1()
    ensures forall i :: 0 <= i < 8 ==> |Operators[i]| >= 1 && [Operators[i][0]] in Operators
  {
    forall i | 0 <= i < 8
      ensures |Operators[i]| >= 1 && [Operators[i][0]] in Operators
    {
      if i == 0 { assert [Operators[0][0]] == Operators[0]; }
      else if i == 1 { assert [Operators[1][0]] == Operators[0]; }
      else if i == 2 { assert [Operators[2][0]] == Operators[2]; }
      else if i == 3 { assert [Operators[3][0]] == Operators[2]; }
      else if i == 4 { assert [Operators[4][0]] == Operators[2]; }
      else if i == 5 { assert [Operators[5][0]] == Operators[5]; }
      else if i == 6 { assert [Operators[6][0]] == Operators[5]; }
      else if i == 7 { assert [Operators[7][0]] == Operators[5]; }
    }
  }

  lemma OperatorsLeadsClosed2()
    ensures forall i :: 8 <= i < 16 ==> |Operators[i]| >= 1 && [Operators[i][0]] in Operators
  {
    forall i | 8 <= i < 16
      ensures |Operators[i]| >= 1 && [Operators[i][0]] in Operators
    {
      if i == 8 { assert [Operators[8][0]] == Operators[8]; }
      else if i == 9 { assert [Operators[9][0]] == Operators[9]; }
      else if i == 10 { assert [Operators[10][0]] == Operators[10]; }
      else if i == 11 { assert [Operators[11][0]] == Operators[11]; }
      else if i == 12 { assert [Operators[12][0]] == Operators[11]; }
      else if i == 13 { assert [Operators[13][0]] == Operators[13]; }
      else if i == 14 { assert [Operators[14][0]] == Operators[13]; }
      else if i == 15 { assert [Operators[15][0]] == Operators[13]; }
    }
  }

  lemma OperatorsLeadsClosed3()
    ensures forall i :: 16 <= i < 24 ==> |Operators[i]| >= 1 && [Operators[i][0]] in Operators
  {
    forall i | 16 <= i < 24
      ensures |Operators[i]| >= 1 && [Operators[i][0]] in Operators
    {
      if i == 16 { assert [Operators[16][0]] == Operators[16]; }
      else if i == 17 { assert [Operators[17][0]] == Operators[17]; }
      else if i == 18 { assert [Operators[18][0]] == Operators[17]; }
      else if i == 19 { assert [Operators[19][0]] == Operators[17]; }
      else if i == 20 { assert [Operators[20][0]] == Operators[17]; }
      else if i == 21 { assert [Operators[21][0]] == Operators[17]; }
      else if i == 22 { assert [Operators[22][0]] == Operators[22]; }
      else if i == 23 { assert [Operators[23][0]] == Operators[22]; }
    }
  }

  lemma OperatorsLeadsClosed4()
    ensures forall i :: 24 <= i < 32 ==> |Operators[i]| >= 1 && [Operators[i][0]] in Operators
  {
    forall i | 24 <= i < 32
      ensures |Operators[i]| >= 1 && [Operators[i][0]] in Operators
    {
      if i == 24 { assert [Operators[24][0]] == Operators[22]; }
      else if i == 25 { assert [Operators[25][0]] == Operators[25]; }
      else if i == 26 { assert [Operators[26][0]] == Operators[25]; }
      else if i == 27 { assert [Operators[27][0]] == Operators[27]; }
      else if i == 28 { assert [Operators[28][0]] == Operators[27]; }
      else if i == 29 { assert [Operators[29][0]] == Operators[27]; }
      else if i == 30 { assert [Operators[30][0]] == Operators[30]; }
      else if i == 31 { assert [Operators[31][0]] == Operators[31]; }
    }
  }

  lemma OperatorsLeadsClosed5()
    ensures forall i :: 32 <= i < 40 ==> |Operators[i]| >= 1 && [Operators[i][0]] in Operators
  {
    forall i | 32 <= i < 40
      ensures |Operators[i]| >= 1 && [Operators[i][0]] in Operators
    {
      if i == 32 { assert [Operators[32][0]] == Operators[31]; }
      else if i == 33 { assert [Operators[33][0]] == Operators[31]; }
      else if i == 34 { assert [Operators[34][0]] == Operators[31]; }
      else if i == 35 { assert [Operators[35][0]] == Operators[31]; }
      else if i == 36 { assert [Operators[36][0]] == Operators[31]; }
      else if i == 37 { assert [Operators[37][0]] == Operators[31]; }
      else if i == 38 { assert [Operators[38][0]] == Operators[38]; }
      else if i == 39 { assert [Operators[39][0]] == Operators[38]; }
    }
  }

  lemma OperatorsLeadsClosed6()
    ensures forall i :: 40 <= i < 48 ==> |Operators[i]| >= 1 && [Operators[i][0]] in Operators
  {
    forall i | 40 <= i < 48
      ensures |Operators[i]| >= 1 && [Operators[i][0]] in Operators
    {
      if i == 40 { assert [Operators[40][0]] == Operators[40]; }
      else if i == 41 { assert [Operators[41][0]] == Operators[40]; }
      else if i == 42 { assert [Operators[42][0]] == Operators[40]; }
      else if i == 43 { assert [Operators[43][0]] == Operators[40]; }
      else if i == 44 { assert [Operators[44][0]] == Operators[44]; }
      else if i == 45 { assert [Operators[45][0]] == Operators[45]; }
      else if i == 46 { assert [Operators[46][0]] == Operators[46]; }
      else if i == 47 { assert [Operators[47][0]] == Operators[47]; }
    }
  }

  lemma OperatorsLeadsClosed7()
    ensures forall i :: 48 <= i < 56 ==> |Operators[i]| >= 1 && [Operators[i][0]] in Operators
  {
    forall i | 48 <= i < 56
      ensures |Operators[i]| >= 1 && [Operators[i][0]] in Operators
    {
      if i == 48 { assert [Operators[48][0]] == Operators[47]; }
      else if i == 49 { assert [Operators[49][0]] == Operators[49]; }
      else if i == 50 { assert [Operators[50][0]] == Operators[50]; }
      else if i == 51 { assert [Operators[51][0]] == Operators[51]; }
      else if i == 52 { assert [Operators[52][0]] == Operators[51]; }
      else if i == 53 { assert [Operators[53][0]] == Operators[51]; }
      else if i == 54 { assert [Operators[54][0]] == Operators[54]; }
      else if i == 55 { assert [Operators[55][0]] == Operators[55]; }
    }
  }


  /** Every operator or punctuator starts with one that is a single character. */
  lemma OperatorLeadsClosed()
    ensures forall i :: 0 <= i < |Operators| ==> |Operators[i]| >= 1 && [Operators[i][0]] in Operators
  {
    OperatorsLeadsClosed1(); OperatorsLeadsClosed2(); OperatorsLeadsClosed3(); OperatorsLeadsClosed4(); OperatorsLeadsClosed5(); OperatorsLeadsClosed6(); OperatorsLeadsClosed7();
  }
  // ---------------------------------------------------------------------------
  // Tokens
  // ---------------------------------------------------------------------------

  /** `token_class`: keywords and operators are identified by their position in
      their table. */
  datatype TokenClass = End | Space | Keyword(keywordIndex: nat) | OperatorOrPunctuator(textIndex: nat)
                      | Identifier(content: string)

  /** `token`: the text it was read from and its class. */
  datatype Token = Token(content: string, classification: TokenClass)

  /** The two tables the lexer looks texts up in. */
  datatype Tables = Tables(keywords: seq<string>, operators: seq<string>)

  /** Every entry starts with an entry that is a single character. */
  predicate LeadsClosed(t: seq<string>)
  {
    forall i :: 0 <= i < |t| ==> |t[i]| >= 1 && [t[i][0]] in t
  }

  /** What the lexer relies on: both tables sorted without duplicates, and every
      operator starting with a one-character operator. */
  predicate ValidTables(tb: Tables)
  {
    Algorithm.SortedStrings(tb.keywords) && Distinct(tb.keywords)
    && Algorithm.SortedStrings(tb.operators) && Distinct(tb.operators) && LeadsClosed(tb.operators)
  }

  /** The tables of NameLexer.hpp. */
  const Lexicon: Tables := Tables(Keywords, Operators)

  lemma LexiconValid()
    ensures ValidTables(Lexicon)
  {
    TablesSorted();
    OperatorLeadsClosed();
  }

  /** The position where the run of characters satisfying `p` that starts at
      `from` ends (`std::ranges::find_if_not`). */
  function RunEnd(text: string, p: char -> bool, from: nat): (n: nat)
    requires from <= |text|
    ensures from <= n <= |text|
    ensures forall j :: from <= j < n ==> p(text[j])
    ensures n < |text| ==> !p(text[n])
    decreases |text| - from
  {
    if from == |text| || !p(text[from]) then from else RunEnd(text, p, from + 1)
  }

  /** A character that continues an identifier: neither whitespace nor an operator
      or punctuator of its own. */
  predicate IdentifierChar(t: seq<string>, c: char)
  {
    !IsSpace(c) && !Algorithm.Contains(t, [c])
  }

  function IdentifierCharOf(t: seq<string>): char -> bool
  {
    c => IdentifierChar(t, c)
  }

  /** The table entries that start with the text's first character. */
  function LeadOptions(t: seq<string>, text: string): (r: (nat, nat))
    requires text != []
    ensures r.0 <= r.1 <= |t|
  {
    Algorithm.PrefixRange(t, text[..1])
  }

  /** Among the entries from `k` on, the longest one that the text starts with. */
  function BestOp(t: seq<string>, text: string, k: nat): (r: Option<nat>)
    requires k <= |t|
    ensures r.Some? ==> k <= r.value < |t| && Algorithm.IsPrefix(t[r.value], text)
    ensures r.Some? ==> forall j :: k <= j < |t| && Algorithm.IsPrefix(t[j], text) ==> |t[j]| <= |t[r.value]|
    ensures r.None? ==> forall j :: k <= j < |t| ==> !Algorithm.IsPrefix(t[j], text)
    decreases |t| - k
  {
    if k == |t| then None
    else
      var rest := BestOp(t, text, k + 1);
      if Algorithm.IsPrefix(t[k], text) && (rest.None? || |t[rest.value]| < |t[k]|) then Some(k) else rest
  }

  /** In a sorted table, when the entries `lo` to `hi` are exactly those starting
      with `p` and `p` itself is one of them, it is the first. */
  lemma FrontIsExact(t: seq<string>, p: string, lo: nat, hi: nat, k: nat)
    requires Algorithm.SortedStrings(t) && lo <= k < hi <= |t| && t[k] == p
    requires forall j :: 0 <= j < |t| ==> (lo <= j < hi <==> Algorithm.IsPrefix(p, t[j]))
    ensures t[lo] == p
  {
    Algorithm.PrefixOrdered(p, t[lo]);
    if lo < k {
      StrLeAntisymmetric(t[lo], p);
    }
  }

  /** With some entry starting with the text's first character, the first of the
      options is that single character, and the text starts with an entry. */
  lemma LeadOption(t: seq<string>, text: string)
    requires Algorithm.SortedStrings(t) && LeadsClosed(t)
    requires text != [] && LeadOptions(t, text).0 < LeadOptions(t, text).1
    ensures t[LeadOptions(t, text).0] == text[..1]
    ensures BestOp(t, text, 0).Some?
  {
    var lo, hi := LeadOptions(t, text).0, LeadOptions(t, text).1;
    Algorithm.PrefixRangeExact(t, text[..1]);
    assert Algorithm.IsPrefix(text[..1], t[lo]);
    assert [t[lo][0]] == text[..1];
    var k :| 0 <= k < |t| && t[k] == text[..1];
    FrontIsExact(t, text[..1], lo, hi, k);
    assert Algorithm.IsPrefix(t[k], text);
  }

  /** `find_next` as a function of the remaining text: the next token and the text
      after it. Whitespace runs other than a single space are dropped. */
  function Scan(tb: Tables, text: string): (Token, string)
    requires ValidTables(tb)
    decreases |text|
  {
    if text == [] then (Token([], End), [])
    else if IsSpace(text[0]) then
      var n := RunEnd(text, IsSpace, 1);
      if text[..n] == " " then (Token(" ", Space), text[n..]) else Scan(tb, text[n..])
    else if LeadOptions(tb.operators, text).0 < LeadOptions(tb.operators, text).1 then
      LeadOption(tb.operators, text);
      var m := BestOp(tb.operators, text, 0).value;
      var n := |tb.operators[m]|;
      (Token(text[..n], OperatorOrPunctuator(m)), text[n..])
    else
      var n := RunEnd(text, IdentifierCharOf(tb.operators), 1);
      var k := Algorithm.BinaryFind(tb.keywords, text[..n]);
      if k < |tb.keywords| then (Token(text[..n], Keyword(k)), text[n..])
      else (Token(text[..n], Identifier(text[..n])), text[n..])
  }

  // ---------------------------------------------------------------------------
  // Properties of the scanner
  // ---------------------------------------------------------------------------

  /** Once the text is used up, every further token is the end token with empty
      content. */
  lemma EndRepeats(tb: Tables)
    requires ValidTables(tb)
    ensures Scan(tb, []) == (Token([], End), [])
  {
  }

  /** Only whitespace. */
  predicate AllSpace(s: string)
  {
    forall j :: 0 <= j < |s| ==> IsSpace(s[j])
  }

  /** `text` is some whitespace, then `content`, then `rest`. */
  predicate SlicesOf(text: string, content: string, rest: string)
  {
    var skipped := |text| - |content| - |rest|;
    0 <= skipped && text[skipped..] == content + rest && AllSpace(text[..skipped])
  }

  /** A token read off the front leaves the text in slices. */
  lemma SlicesFront(text: string, n: nat)
    requires n <= |text|
    ensures SlicesOf(text, text[..n], text[n..])
  {
    assert text[0..] == text[..n] + text[n..];
  }

  /** Whitespace dropped in front of slices keeps them slices. */
  lemma SlicesBehindSpace(text: string, n: nat, content: string, rest: string)
    requires n <= |text| && AllSpace(text[..n]) && SlicesOf(text[n..], content, rest)
    ensures SlicesOf(text, content, rest)
  {
    var skipped := |text| - |content| - |rest|;
    assert skipped == n + (|text[n..]| - |content| - |rest|);
    assert text[skipped..] == text[n..][skipped - n..];
    forall j | 0 <= j < skipped
      ensures IsSpace(text[..skipped][j])
    {
      if j >= n {
        assert text[j] == text[n..][..skipped - n][j - n];
      } else {
        assert text[j] == text[..n][j];
      }
    }
  }

  /** Whitespace followed by only whitespace is only whitespace, and back. */
  lemma AllSpaceSplit(text: string, n: nat)
    requires n <= |text| && AllSpace(text[..n])
    ensures AllSpace(text) <==> AllSpace(text[n..])
  {
    if AllSpace(text[n..]) {
      forall j | 0 <= j < |text|
        ensures IsSpace(text[j])
      {
        if j < n {
          assert text[j] == text[..n][j];
        } else {
          assert text[j] == text[n..][j - n];
        }
      }
    }
  }

  /** The scanner only drops whitespace: the text is the dropped whitespace, the
      token's content and the rest, in that order; every token but the end token
      has content; the end token comes only when nothing but whitespace is left,
      and such text yields the end token or a single-space token. */
  lemma {:induction false} ScanSlices(tb: Tables, text: string)
    requires ValidTables(tb)
    ensures SlicesOf(text, Scan(tb, text).0.content, Scan(tb, text).1)
    ensures Scan(tb, text).0.classification.End? ==> AllSpace(text)
    ensures AllSpace(text) ==> Scan(tb, text).0.classification.End? || Scan(tb, text).0.classification.Space?
    ensures Scan(tb, text).0.classification.End? ==> Scan(tb, text).0.content == [] && Scan(tb, text).1 == []
    ensures !Scan(tb, text).0.classification.End? ==> Scan(tb, text).0.content != []
    decreases |text|
  {
    if text == [] {
      SlicesFront(text, 0);
    } else if IsSpace(text[0]) {
      var n := RunEnd(text, IsSpace, 1);
      assert AllSpace(text[..n]);
      if text[..n] == " " {
        SlicesFront(text, n);
      } else {
        ScanSlices(tb, text[n..]);
        SlicesBehindSpace(text, n, Scan(tb, text).0.content, Scan(tb, text).1);
        AllSpaceSplit(text, n);
      }
    } else {
      ScanFront(tb, text);
      SlicesFront(text, |Scan(tb, text).0.content|);
    }
  }

  /** A text starting with something other than whitespace yields a token with
      content read off its front. */
  lemma ScanFront(tb: Tables, text: string)
    requires ValidTables(tb) && text != [] && !IsSpace(text[0])
    ensures var r := Scan(tb, text);
            1 <= |r.0.content| <= |text| && !r.0.classification.End?
            && r.0.content == text[..|r.0.content|] && r.1 == text[|r.0.content|..]
  {
    if LeadOptions(tb.operators, text).0 < LeadOptions(tb.operators, text).1 {
      LeadOption(tb.operators, text);
    }
  }

  /** Each token but the end token consumes text, so lexing a name ends. */
  lemma ScanProgress(tb: Tables, text: string)
    requires ValidTables(tb)
    ensures |Scan(tb, text).1| <= |text|
    ensures !Scan(tb, text).0.classification.End? ==> |Scan(tb, text).1| < |text|
  {
    ScanSlices(tb, text);
  }

  /** A whitespace run reads as a space token exactly when it is a single space;
      any other run is dropped. */
  lemma SpaceSpec(tb: Tables, text: string)
    requires ValidTables(tb) && text != [] && IsSpace(text[0])
    ensures var n := RunEnd(text, IsSpace, 1);
            if text[..n] == " " then Scan(tb, text) == (Token(" ", Space), text[n..])
            else Scan(tb, text) == Scan(tb, text[n..])
  {
  }

  /** A text that starts with an entry has options for its first character. */
  lemma OperatorHasOptions(t: seq<string>, text: string, k: nat)
    requires Algorithm.SortedStrings(t) && LeadsClosed(t)
    requires text != [] && k < |t| && Algorithm.IsPrefix(t[k], text)
    ensures LeadOptions(t, text).0 < LeadOptions(t, text).1
  {
    var lead := [t[k][0]];
    assert text[..1] == lead;
    var j :| 0 <= j < |t| && t[j] == lead;
    Algorithm.PrefixRangeExact(t, text[..1]);
    assert Algorithm.IsPrefix(text[..1], t[j]);
  }

  /** A text starting with an operator or punctuator yields the longest table entry
      it starts with. */
  lemma OperatorSpec(tb: Tables, text: string, k: nat)
    requires ValidTables(tb) && text != [] && !IsSpace(text[0])
    requires k < |tb.operators| && Algorithm.IsPrefix(tb.operators[k], text)
    ensures Scan(tb, text).0.classification.OperatorOrPunctuator?
    ensures var m := Scan(tb, text).0.classification.textIndex;
            m < |tb.operators| && Scan(tb, text).0.content == tb.operators[m]
            && text == Scan(tb, text).0.content + Scan(tb, text).1
            && forall j :: 0 <= j < |tb.operators| && Algorithm.IsPrefix(tb.operators[j], text) ==>
                 |tb.operators[j]| <= |tb.operators[m]|
  {
    var t := tb.operators;
    OperatorHasOptions(t, text, k);
    LeadOption(t, text);
    var m := BestOp(t, text, 0).value;
    assert text == t[m] + text[|t[m]|..];
  }

  /** A text starting with neither whitespace nor an operator yields the longest
      run of identifier characters, classified as a keyword exactly when it is one. */
  lemma IdentifierSpec(tb: Tables, text: string)
    requires ValidTables(tb) && text != [] && !IsSpace(text[0])
    requires forall k :: 0 <= k < |tb.operators| ==> !Algorithm.IsPrefix(tb.operators[k], text)
    ensures var n := RunEnd(text, IdentifierCharOf(tb.operators), 1);
            var tok := Scan(tb, text).0;
            tok.content == text[..n] && Scan(tb, text).1 == text[n..]
            && (tok.classification.Keyword? <==> text[..n] in tb.keywords)
            && (tok.classification.Keyword? ==> tb.keywords[tok.classification.keywordIndex] == text[..n])
            && (!tok.classification.Keyword? ==> tok.classification == Identifier(text[..n]))
  {
    if LeadOptions(tb.operators, text).0 < LeadOptions(tb.operators, text).1 {
      LeadOption(tb.operators, text);
      assert false;
    }
    var n := RunEnd(text, IdentifierCharOf(tb.operators), 1);
    Algorithm.BinaryFindExact(tb.keywords, text[..n]);
  }

  /** `next_as_identifier` stops at exactly the characters that are whitespace or
      a one-character operator or punctuator. */
  lemma IdentifierCharSpec(tb: Tables, c: char)
    requires ValidTables(tb)
    ensures IdentifierChar(tb.operators, c) <==> !IsSpace(c) && [c] !in tb.operators
  {
    Algorithm.ContainsExact(tb.operators, [c]);
  }

  // ---------------------------------------------------------------------------
  // The lexer
  // ---------------------------------------------------------------------------

  /** `try_advance` in `next_as_op_or_punctuator`: the options (entries `lo` to `hi`)
      that start with the first `n` characters, or none when the text is shorter. */
  function TryAdvance(t: seq<string>, text: string, lo: nat, hi: nat, n: nat): (r: (nat, nat))
    requires lo <= hi <= |t|
    ensures lo <= r.0 <= r.1 <= hi
  {
    if n <= |text| then
      var p := Algorithm.PrefixRange(t[lo..hi], text[..n]);
      (lo + p.0, lo + p.1)
    else (hi, hi)
  }

  /** Narrowing the options by one more character keeps exactly the entries that
      start with the longer prefix. */
  lemma NarrowOptions(t: seq<string>, text: string, lo: nat, hi: nat, n: nat)
    requires Algorithm.SortedStrings(t)
    requires 1 <= n <= |text| && lo <= hi <= |t|
    requires forall j :: 0 <= j < |t| ==> (lo <= j < hi <==> Algorithm.IsPrefix(text[..n], t[j]))
    ensures var r := TryAdvance(t, text, lo, hi, n + 1);
            forall j :: 0 <= j < |t| ==> (r.0 <= j < r.1 <==> n + 1 <= |text| && Algorithm.IsPrefix(text[..n + 1], t[j]))
  {
    if n + 1 <= |text| {
      var options := t[lo..hi];
      assert Algorithm.SortedStrings(options);
      Algorithm.PrefixRangeExact(options, text[..n + 1]);
      forall j | 0 <= j < |t|
        ensures Algorithm.IsPrefix(text[..n + 1], t[j]) ==> lo <= j < hi
      {
        if Algorithm.IsPrefix(text[..n + 1], t[j]) {
          assert t[j][..n] == text[..n];
        }
      }
      forall j | lo <= j < hi
        ensures t[j] == options[j - lo]
      {
      }
    }
  }

  /** When the options for a prefix do not start with an entry equal to it, no
      entry of that length is a prefix of the text. */
  lemma NoEntryOfLength(t: seq<string>, text: string, l: nat, h: nat, length: nat)
    requires Algorithm.SortedStrings(t) && 1 <= length <= |text| && l < h <= |t|
    requires forall j :: 0 <= j < |t| ==> (l <= j < h <==> Algorithm.IsPrefix(text[..length], t[j]))
    requires length != |t[l]|
    ensures forall j :: 0 <= j < |t| && Algorithm.IsPrefix(t[j], text) ==> |t[j]| != length
  {
    forall j | 0 <= j < |t| && Algorithm.IsPrefix(t[j], text)
      ensures |t[j]| != length
    {
      if |t[j]| == length {
        assert t[j] == text[..length];
        FrontIsExact(t, text[..length], l, h, j);
      }
    }
  }

  /** An entry the text starts with starts with every shorter prefix of the text. */
  lemma PrefixOfPrefix(x: string, text: string, n: nat)
    requires Algorithm.IsPrefix(x, text) && n <= |text|
    ensures n <= |x| ==> Algorithm.IsPrefix(text[..n], x)
  {
    if n <= |x| {
      assert x[..n] == text[..n];
    }
  }

  /** When no entry starts with the next longer prefix, no entry the text starts
      with is longer than the current one. */
  lemma EndOfOptions(t: seq<string>, text: string, length: nat)
    requires length <= |text|
    requires forall j :: 0 <= j < |t| ==> !(length + 1 <= |text| && Algorithm.IsPrefix(text[..length + 1], t[j]))
    ensures forall j :: 0 <= j < |t| && Algorithm.IsPrefix(t[j], text) ==> |t[j]| <= length
  {
    forall j | 0 <= j < |t| && Algorithm.IsPrefix(t[j], text)
      ensures |t[j]| <= length
    {
      if length + 1 <= |text| {
        PrefixOfPrefix(t[j], text, length + 1);
      }
    }
  }

  /** In a table without duplicates, a longest entry the text starts with is the
      one `BestOp` picks. */
  lemma LongestIsBest(t: seq<string>, text: string, m: nat)
    requires Distinct(t) && m < |t| && Algorithm.IsPrefix(t[m], text)
    requires forall j :: 0 <= j < |t| && Algorithm.IsPrefix(t[j], text) ==> |t[j]| <= |t[m]|
    ensures BestOp(t, text, 0) == Some(m)
  {
    var best := BestOp(t, text, 0).value;
    assert t[best] == text[..|t[best]|] == t[m];
  }

  /** What `next_as_op_or_punctuator`'s loop keeps: the options `l` to `h` are the
      entries starting with the first `length` characters, and `m` is a longest
      entry of at most that length that the text starts with. */
  predicate Widening(t: seq<string>, text: string, length: nat, l: nat, h: nat, m: nat)
  {
    1 <= length <= |text| && l < h <= |t|
    && (forall j :: 0 <= j < |t| ==> (l <= j < h <==> Algorithm.IsPrefix(text[..length], t[j])))
    && m < |t| && Algorithm.IsPrefix(t[m], text) && |t[m]| <= length
    && forall j :: 0 <= j < |t| && Algorithm.IsPrefix(t[j], text) && |t[j]| <= length ==> |t[j]| <= |t[m]|
  }

  /** The loop starts from the options for the first character, the first of which
      is that character. */
  lemma WideningStart(t: seq<string>, text: string, lo: nat, hi: nat)
    requires Algorithm.SortedStrings(t)
    requires text != [] && (lo, hi) == LeadOptions(t, text) && lo < hi
    requires t[lo] == text[..1]
    ensures Widening(t, text, 1, lo, hi, lo)
  {
    Algorithm.PrefixRangeExact(t, text[..1]);
    forall j | 0 <= j < |t| && Algorithm.IsPrefix(t[j], text) && |t[j]| <= 1
      ensures |t[j]| <= |t[lo]|
    {
    }
  }

  /** Widening by one character while options remain keeps the loop's invariant. */
  lemma WideningStep(t: seq<string>, text: string, length: nat, l: nat, h: nat, m: nat)
    requires Algorithm.SortedStrings(t) && Widening(t, text, length, l, h, m)
    requires TryAdvance(t, text, l, h, length + 1).0 < TryAdvance(t, text, l, h, length + 1).1
    ensures var r := TryAdvance(t, text, l, h, length + 1);
            r.0 < |t| && (length + 1 == |t[r.0]| ==> Widening(t, text, length + 1, r.0, r.1, r.0))
            && (length + 1 != |t[r.0]| ==> Widening(t, text, length + 1, r.0, r.1, m))
  {
    NarrowOptions(t, text, l, h, length);
    var r := TryAdvance(t, text, l, h, length + 1);
    assert length + 1 <= |text| && Algorithm.IsPrefix(text[..length + 1], t[r.0]);
    if length + 1 != |t[r.0]| {
      NoEntryOfLength(t, text, r.0, r.1, length + 1);
    }
  }

  /** When no option is left, the remembered entry is the one `BestOp` picks. */
  lemma WideningDone(t: seq<string>, text: string, length: nat, l: nat, h: nat, m: nat)
    requires Algorithm.SortedStrings(t) && Distinct(t) && Widening(t, text, length, l, h, m)
    requires TryAdvance(t, text, l, h, length + 1).0 == TryAdvance(t, text, l, h, length + 1).1
    ensures BestOp(t, text, 0) == Some(m)
  {
    NarrowOptions(t, text, l, h, length);
    EndOfOptions(t, text, length);
    LongestIsBest(t, text, m);
  }

  /** `next_as_op_or_punctuator`'s loop: widen the prefix one character at a time
      while some option still starts with it, remembering the last option that
      equals the prefix. It finds the longest entry the text starts with. */
  method LongestMatch(t: seq<string>, text: string, lo: nat, hi: nat) returns (lastMatch: nat)
    requires Algorithm.SortedStrings(t) && Distinct(t)
    requires text != [] && (lo, hi) == LeadOptions(t, text) && lo < hi
    requires t[lo] == text[..1]
    ensures lastMatch < |t| && Algorithm.IsPrefix(t[lastMatch], text)
    ensures Some(lastMatch) == BestOp(t, text, 0)
  {
    WideningStart(t, text, lo, hi);
    var length: nat := 1;
    lastMatch := lo;
    var l, h := lo, hi;
    var next := TryAdvance(t, text, l, h, length + 1);
    while next.0 < next.1
      invariant Widening(t, text, length, l, h, lastMatch)
      invariant next == TryAdvance(t, text, l, h, length + 1)
      decreases |text| - length
    {
      WideningStep(t, text, length, l, h, lastMatch);
      length, l, h := length + 1, next.0, next.1;
      if length == |t[l]| {
        lastMatch := l;
      }
      next := TryAdvance(t, text, l, h, length + 1);
    }
    WideningDone(t, text, length, l, h, lastMatch);
  }

  /** `NameLexer`: the text not yet read and the token `peek` shows. */
  class NameLexer {
    const tables: Tables
    var text: string
    var next: Token

    /** Reads the first token. */
    constructor(name: string)
      ensures tables == Lexicon && ValidTables(tables)
      ensures (next, text) == Scan(tables, name)
    {
      tables := Lexicon;
      text := name;
      new;
      LexiconValid();
      next := FindNext();
    }

    /** `peek`: the upcoming token, without reading on. */
    function Peek(): (t: Token)
      reads this
      ensures t == next
    {
      next
    }

    /** `next`: hands out the upcoming token and reads the one after it. */
    method Next() returns (t: Token)
      requires ValidTables(tables)
      modifies this
      ensures t == old(next)
      ensures (next, text) == Scan(tables, old(text))
    {
      t := next;
      next := FindNext();
    }

    /** `find_next`: reads one token off the front of the text. */
    method FindNext() returns (t: Token)
      requires ValidTables(tables)
      modifies this
      ensures (t, text) == Scan(tables, old(text))
      decreases |text|
    {
      if text == [] {
        return Token([], End);
      }
      if IsSpace(text[0]) {
        var content := NextAsSpace();
        if content == " " {
          return Token(content, Space);
        }
        t := FindNext();
        return;
      }
      var options := Algorithm.PrefixRange(tables.operators, text[..1]);
      if options.0 < options.1 {
        LeadOption(tables.operators, text);
        t := NextAsOpOrPunctuator(options.0, options.1);
        return;
      }
      var content := NextAsIdentifier();
      var iter := Algorithm.BinaryFind(tables.keywords, content);
      if iter != |tables.keywords| {
        return Token(content, Keyword(iter));
      }
      return Token(content, Identifier(content));
    }

    /** `next_as_space`: reads the whitespace run at the front. */
    method NextAsSpace() returns (content: string)
      requires text != [] && IsSpace(text[0])
      modifies this
      ensures var n := RunEnd(old(text), IsSpace, 1);
              content == old(text)[..n] && text == old(text)[n..]
    {
      var n := 1;
      while n < |text| && IsSpace(text[n])
        invariant 1 <= n <= |text|
        invariant RunEnd(text, IsSpace, n) == RunEnd(text, IsSpace, 1)
      {
        n := n + 1;
      }
      content := text[..n];
      text := text[n..];
    }

    /** `next_as_op_or_punctuator`: reads the longest operator or punctuator at the
        front. */
    method NextAsOpOrPunctuator(lo: nat, hi: nat) returns (t: Token)
      requires ValidTables(tables)
      requires text != [] && (lo, hi) == LeadOptions(tables.operators, text) && lo < hi
      requires tables.operators[lo] == text[..1]
      modifies this
      ensures BestOp(tables.operators, old(text), 0).Some?
      ensures var m := BestOp(tables.operators, old(text), 0).value;
              t == Token(old(text)[..|tables.operators[m]|], OperatorOrPunctuator(m))
              && text == old(text)[|tables.operators[m]|..]
    {
      var lastMatch := LongestMatch(tables.operators, text, lo, hi);
      var n := |tables.operators[lastMatch]|;
      t := Token(text[..n], OperatorOrPunctuator(lastMatch));
      text := text[n..];
    }

    /** `next_as_identifier`: reads the run of identifier characters at the front. */
    method NextAsIdentifier() returns (content: string)
      requires text != []
      modifies this
      ensures var n := RunEnd(old(text), IdentifierCharOf(tables.operators), 1);
              content == old(text)[..n] && text == old(text)[n..]
    {
      var n := 1;
      while n < |text| && !IsSpace(text[n]) && !Algorithm.Contains(tables.operators, [text[n]])
        invariant 1 <= n <= |text|
        invariant RunEnd(text, IdentifierCharOf(tables.operators), n) == RunEnd(text, IdentifierCharOf(tables.operators), 1)
      {
        n := n + 1;
      }
      content := text[..n];
      text := text[n..];
    }
  }
}
