/** Token kinds, the keyword and operator tables, and the classification of
    an identifier run or an operator run into a token kind. */
module TokenTables {
  import opened RuneClasses

  /** The token kinds, in the order the program enumerates them. */
  datatype Token =
    | In | Format | Status | Created
    | Illegal | Eof | Ws
    | Ident
    | Equal | Less | EqLess | LessEq | More | EqMore | MoreEq | Colon

  /** Field keywords and their upper-case spelling. */
  const TOKEN_KEYWORD: map<Token, string> :=
    map[In := "IN", Format := "FORMAT", Status := "STATUS", Created := "CREATED"]

  /** Operator tokens and their spelling. */
  const TOKEN_OPERATION: map<Token, string> :=
    map[Equal := "=", Less := "<", EqLess := "=<", LessEq := "<=",
        More := ">", EqMore := "=>", MoreEq := ">=", Colon := ":"]

  /** A structured filter `field operator value`; declared by the program,
      but nothing in it builds one. */
  datatype Expression = Expression(keyword: string, operation: string, value: string)

  /** Free-text keywords plus structured filters; declared, never built. */
  datatype SearchString = SearchString(searchKeyword: seq<string>, params: seq<Expression>)

  /** Indexing a table the way the program does: a missing key reads as the
      empty string, the zero value of a string. */
  function Lookup(table: map<Token, string>, t: Token): string {
    if t in table then table[t] else ""
  }

  /** Upper-casing of one rune; only `a`-`z` change. */
  function UpperRune(c: char): char {
    if 'a' <= c <= 'z' then (c as int - 32) as char else c
  }

  /** Two runes that are the same letter, or the same rune, possibly in
      different cases. */
  predicate SameUpToCase(a: char, b: char) {
    a == b || (IsLetter(a) && IsLetter(b) && (a as int - b as int == 32 || b as int - a as int == 32))
  }

  /** Upper-casing as `strings.ToUpper` does it on ASCII text: rune by rune,
      each rune kept up to case, and no lower-case letter left. */
  function Upper(s: string): (u: string)
    ensures |u| == |s|
    ensures forall i :: 0 <= i < |s| ==> SameUpToCase(s[i], u[i]) && !('a' <= u[i] <= 'z')
  {
    seq(|s|, i requires 0 <= i < |s| => UpperRune(s[i]))
  }

  /** The contract of `Upper` fixes its result: any text of the same length
      that agrees with `s` up to case and has no lower-case letter is it. */
  lemma {:induction false} UpperUnique(s: string, v: string)
    requires |v| == |s|
    requires forall i :: 0 <= i < |s| ==> SameUpToCase(s[i], v[i]) && !('a' <= v[i] <= 'z')
    ensures v == Upper(s)
  {
    forall i | 0 <= i < |s|
      ensures v[i] == Upper(s)[i]
    {
      SameUpperIffSameUpToCase(s[i], v[i]);
      SameUpperIffSameUpToCase(s[i], Upper(s)[i]);
    }
  }

  /** Two runes upper-case to the same rune exactly when they agree up to
      case. */
  lemma SameUpperIffSameUpToCase(a: char, b: char)
    ensures UpperRune(a) == UpperRune(b) <==> SameUpToCase(a, b)
  {
  }

  /** Identifier classification: a run whose upper-cased text is one of the
      four field names is that field keyword, any other run is `Ident`. */
  function IdentKind(lit: string): (t: Token)
    ensures t in {In, Format, Status, Created, Ident}
    ensures t != Ident <==> Upper(lit) in TOKEN_KEYWORD.Values
    ensures t != Ident ==> t in TOKEN_KEYWORD && TOKEN_KEYWORD[t] == Upper(lit)
  {
    var u := Upper(lit);
    if u == Lookup(TOKEN_KEYWORD, In) then In
    else if u == Lookup(TOKEN_KEYWORD, Format) then Format
    else if u == Lookup(TOKEN_KEYWORD, Status) then Status
    else if u == Lookup(TOKEN_KEYWORD, Created) then Created
    else Ident
  }

  /** Keyword recognition ignores case: lexemes that agree rune by rune up
      to case get the same kind. */
  lemma KeywordIgnoresCase(a: string, b: string)
    requires |a| == |b|
    requires forall i :: 0 <= i < |a| ==> SameUpToCase(a[i], b[i])
    ensures IdentKind(a) == IdentKind(b)
  {
    forall i | 0 <= i < |a|
      ensures Upper(a)[i] == Upper(b)[i]
    {
      SameUpperIffSameUpToCase(a[i], b[i]);
    }
    assert Upper(a) == Upper(b);
  }

  /** Conversely, case is the only freedom: two lexemes recognised as the
      same field keyword agree rune by rune up to case. */
  lemma KeywordOnlyUpToCase(a: string, b: string)
    requires IdentKind(a) == IdentKind(b) != Ident
    ensures |a| == |b|
    ensures forall i :: 0 <= i < |a| ==> SameUpToCase(a[i], b[i])
  {
    assert Upper(a) == Upper(b);
    forall i | 0 <= i < |a|
      ensures SameUpToCase(a[i], b[i])
    {
      assert Upper(a)[i] == Upper(b)[i];
      SameUpperIffSameUpToCase(a[i], b[i]);
    }
  }

  /** The field name `status` is recognised in any mix of cases; a longer
      word that merely starts with it is a plain identifier. */
  lemma MixedCaseStatus()
    ensures IdentKind("status") == Status && IdentKind("StAtUs") == Status
    ensures IdentKind("statuses") == Ident
  {
    assert Upper("status") == "STATUS";
    assert Upper("StAtUs") == "STATUS";
    assert |Upper("statuses")| == 8;
  }

  /** Operator classification as the program writes it: every case label
      indexes TOKEN_KEYWORD, which holds no operator, so every label is the
      empty string. A non-empty run therefore always comes out as `Ident`. */
  function OperationKind(lit: string): (t: Token)
    ensures lit != "" ==> t == Ident
    ensures lit == "" ==> t == Equal
  {
    var u := Upper(lit);
    if u == Lookup(TOKEN_KEYWORD, Equal) then Equal
    else if u == Lookup(TOKEN_KEYWORD, More) then More
    else if u == Lookup(TOKEN_KEYWORD, Less) then Less
    else if u == Lookup(TOKEN_KEYWORD, EqLess) then EqLess
    else if u == Lookup(TOKEN_KEYWORD, LessEq) then EqLess
    else if u == Lookup(TOKEN_KEYWORD, EqMore) then EqMore
    else if u == Lookup(TOKEN_KEYWORD, MoreEq) then EqMore
    else Ident
  }

  /** The same switch with its labels read from TOKEN_OPERATION, as the
      program evidently intends. */
  function IntendedOperation(lit: string): (t: Token)
    ensures t in {Equal, More, Less, EqLess, EqMore, Ident}
    ensures t != Ident ==> Upper(lit) in TOKEN_OPERATION.Values && Upper(lit) != ":"
  {
    var u := Upper(lit);
    if u == Lookup(TOKEN_OPERATION, Equal) then Equal
    else if u == Lookup(TOKEN_OPERATION, More) then More
    else if u == Lookup(TOKEN_OPERATION, Less) then Less
    else if u == Lookup(TOKEN_OPERATION, EqLess) then EqLess
    else if u == Lookup(TOKEN_OPERATION, LessEq) then EqLess
    else if u == Lookup(TOKEN_OPERATION, EqMore) then EqMore
    else if u == Lookup(TOKEN_OPERATION, MoreEq) then EqMore
    else Ident
  }

  /** The kind the intended switch gives each operator spelling: `<=` joins
      `=<` and `>=` joins `=>`; `:` has no case of its own. */
  function MergedOperation(t: Token): Token {
    match t
    case LessEq => EqLess
    case MoreEq => EqMore
    case Colon => Ident
    case _ => t
  }

  /** Every spelling in TOKEN_OPERATION is resolved by the intended switch to
      its own token, with the two merges and the missing colon case. */
  lemma IntendedOperationTable(t: Token)
    requires t in TOKEN_OPERATION
    ensures IntendedOperation(TOKEN_OPERATION[t]) == MergedOperation(t)
  {
    UpperKeepsSymbols(TOKEN_OPERATION[t]);
    if t in {Equal, Less, EqLess, LessEq} {
      LessSpellings(t);
    } else {
      MoreSpellings(t);
    }
  }

  /** The spellings `=`, `<`, `=<` and `<=`. */
  lemma LessSpellings(t: Token)
    requires t in {Equal, Less, EqLess, LessEq}
    requires Upper(TOKEN_OPERATION[t]) == TOKEN_OPERATION[t]
    ensures IntendedOperation(TOKEN_OPERATION[t]) == MergedOperation(t)
  {
    match t
    case Equal => assert TOKEN_OPERATION[t] == "=";
    case Less => assert TOKEN_OPERATION[t] == "<";
    case EqLess => assert TOKEN_OPERATION[t] == "=<";
    case LessEq => assert TOKEN_OPERATION[t] == "<=";
  }

  /** The spellings `>`, `=>`, `>=` and `:`. */
  lemma MoreSpellings(t: Token)
    requires t in {More, EqMore, MoreEq, Colon}
    requires Upper(TOKEN_OPERATION[t]) == TOKEN_OPERATION[t]
    ensures IntendedOperation(TOKEN_OPERATION[t]) == MergedOperation(t)
  {
    match t
    case More => assert TOKEN_OPERATION[t] == ">";
    case EqMore => assert TOKEN_OPERATION[t] == "=>";
    case MoreEq => assert TOKEN_OPERATION[t] == ">=";
    case Colon => assert TOKEN_OPERATION[t] == ":";
  }

  /** Upper-casing leaves text without lower-case letters unchanged. */
  lemma UpperKeepsSymbols(s: string)
    requires forall i :: 0 <= i < |s| ==> !('a' <= s[i] <= 'z')
    ensures Upper(s) == s
  {
  }
}
