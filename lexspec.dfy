/** The lexer as functions of the input and a position: what one call of
    `Scan` returns and where it leaves the reader, and the whole token
    stream that successive calls produce. The `Scanner` class is proved
    against these functions. */
module LexSpec {
  import opened RuneClasses
  import opened TokenTables

  /** The class a run continues with after its first rune. */
  datatype RunClass = Blank | Operator | IdentTail

  predicate InRun(k: RunClass, c: char) {
    match k
    case Blank => IsWhitespace(c)
    case Operator => IsOperation(c)
    case IdentTail => IsLetter(c) || IsDigit(c) || c == '_'
  }

  /** Position `j` ends a run of class `k`: the input is exhausted there, or
      the rune there cannot continue the run. */
  predicate RunStopsAt(s: seq<char>, j: nat, k: RunClass)
    requires j <= |s|
  {
    j == |s| || !InRun(k, s[j])
  }

  /** The end of the longest run of class `k` starting at `i`. */
  function RunEnd(s: seq<char>, i: nat, k: RunClass): (j: nat)
    requires i <= |s|
    ensures i <= j <= |s|
    ensures forall m :: i <= m < j ==> InRun(k, s[m])
    ensures RunStopsAt(s, j, k)
    decreases |s| - i
  {
    if i < |s| && InRun(k, s[i]) then RunEnd(s, i + 1, k) else i
  }

  /** A run is determined by where it stops: any `j` that bounds a run of
      class `k` from `i` and stops it is the longest run's end. */
  lemma {:induction false} RunEndUnique(s: seq<char>, i: nat, j: nat, k: RunClass)
    requires i <= j <= |s|
    requires forall m :: i <= m < j ==> InRun(k, s[m])
    requires RunStopsAt(s, j, k)
    ensures RunEnd(s, i, k) == j
    decreases j - i
  {
    if i < j {
      RunEndUnique(s, i + 1, j, k);
    }
  }

  /** What one call of `Scan` yields: the token, its lexeme and the position
      the reader is left at. */
  datatype Lexed = Lexed(tok: Token, lit: string, next: nat)

  /** The lexeme and resume position of a run scan started at `p`: the first
      rune is taken unconditionally (the sentinel if the input is exhausted),
      then runes of class `k` for as long as they last. The rune that stops
      the run is left unread, except a rune 0, which is consumed and dropped. */
  function Munch(s: seq<char>, p: nat, k: RunClass): (r: (string, nat))
    requires p <= |s|
    ensures 1 <= |r.0|
    ensures forall m :: 1 <= m < |r.0| ==> InRun(k, r.0[m])
    ensures p == |s| ==> r == ([EOF_RUNE], p)
    ensures p < |s| ==> p + |r.0| <= |s| && r.0 == s[p .. p + |r.0|]
    ensures p < |s| ==> RunStopsAt(s, p + |r.0|, k)
    ensures p < |s| ==>
      r.1 == if p + |r.0| < |s| && s[p + |r.0|] == EOF_RUNE then p + |r.0| + 1 else p + |r.0|
  {
    if p == |s| then ([EOF_RUNE], p)
    else
      var j := RunEnd(s, p + 1, k);
      (s[p..j], if j < |s| && s[j] == EOF_RUNE then j + 1 else j)
  }

  /** Munch from a position inside the input is fixed by where its run stops. */
  lemma MunchStopsAt(s: seq<char>, p: nat, j: nat, k: RunClass)
    requires p < j <= |s|
    requires forall m :: p < m < j ==> InRun(k, s[m])
    requires RunStopsAt(s, j, k)
    ensures Munch(s, p, k) == (s[p..j], if j < |s| && s[j] == EOF_RUNE then j + 1 else j)
  {
    RunEndUnique(s, p + 1, j, k);
  }

  function LexWhitespace(s: seq<char>, p: nat): Lexed
    requires p <= |s|
  {
    var r := Munch(s, p, Blank);
    Lexed(Ws, r.0, r.1)
  }

  function LexOperation(s: seq<char>, p: nat): Lexed
    requires p <= |s|
  {
    var r := Munch(s, p, Operator);
    Lexed(OperationKind(r.0), r.0, r.1)
  }

  function LexIdent(s: seq<char>, p: nat): Lexed
    requires p <= |s|
  {
    var r := Munch(s, p, IdentTail);
    Lexed(IdentKind(r.0), r.0, r.1)
  }

  /** One call of `Scan` with the reader at `p`: `Eof` exactly at the end of
      the input or at a rune 0, and every other token consumes input. */
  function Next(s: seq<char>, p: nat): (r: Lexed)
    requires p <= |s|
    ensures p <= r.next <= |s|
    ensures r.tok == Eof <==> p == |s| || s[p] == EOF_RUNE
    ensures r.tok != Eof ==> p < r.next
  {
    if p == |s| then Lexed(Eof, "", p)
    else
      var c := s[p];
      if IsWhitespace(c) then LexWhitespace(s, p)
      else if IsOperation(c) then LexOperation(s, p)
      else if IsLetter(c) then LexIdent(s, p)
      else if c == EOF_RUNE then Lexed(Eof, "", p + 1)
      else Lexed(Illegal, [c], p + 1)
  }

  /** Lexeme fidelity: `Eof` carries no text and moves past a rune 0 only;
      any other token's lexeme is exactly the input it covers, and the reader
      stops right after it, or one further when a rune 0 ended the run. */
  lemma NextLexeme(s: seq<char>, p: nat)
    requires p <= |s|
    ensures var r := Next(s, p);
      r.tok == Eof ==> r.lit == "" && r.next == (if p == |s| then p else p + 1)
    ensures var r := Next(s, p);
      r.tok != Eof ==>
        && 1 <= |r.lit| && p + |r.lit| <= |s|
        && r.lit == s[p .. p + |r.lit|]
        && (r.next == p + |r.lit| || (r.next == p + |r.lit| + 1 && s[p + |r.lit|] == EOF_RUNE))
  {
    if p < |s| {
      var c := s[p];
      var k := if IsWhitespace(c) then Blank else if IsOperation(c) then Operator else IdentTail;
      if IsWhitespace(c) || IsOperation(c) || IsLetter(c) {
        var m := Munch(s, p, k);
        assert Next(s, p).lit == m.0 && Next(s, p).next == m.1;
        assert m.1 == p + |m.0| || (m.1 == p + |m.0| + 1 && s[p + |m.0|] == EOF_RUNE);
      } else if c != EOF_RUNE {
        assert Next(s, p) == Lexed(Illegal, [c], p + 1);
        assert s[p .. p + 1] == [c];
      }
    }
  }

  /** The `Eof` token carries no lexeme. */
  lemma EofIsEmpty(s: seq<char>, p: nat)
    requires p <= |s|
    ensures Next(s, p).tok == Eof ==> Next(s, p).lit == ""
  {
  }

  /** A whitespace rune starts a `Ws` token holding the longest run of
      whitespace from there. */
  lemma WhitespaceToken(s: seq<char>, p: nat)
    requires p < |s| && IsWhitespace(s[p])
    ensures var r := Next(s, p);
      && 1 <= |r.lit| && p + |r.lit| <= |s| && r.lit == s[p .. p + |r.lit|]
      && r.tok == Ws
      && (forall m :: 0 <= m < |r.lit| ==> IsWhitespace(r.lit[m]))
      && RunStopsAt(s, p + |r.lit|, Blank)
  {
  }

  /** An operator rune starts the longest run of operator runes, and as the
      program is written that run is always reported as `Ident`. */
  lemma OperationToken(s: seq<char>, p: nat)
    requires p < |s| && IsOperation(s[p])
    ensures var r := Next(s, p);
      && 1 <= |r.lit| && p + |r.lit| <= |s| && r.lit == s[p .. p + |r.lit|]
      && r.tok == Ident
      && (forall m :: 0 <= m < |r.lit| ==> IsOperation(r.lit[m]))
      && RunStopsAt(s, p + |r.lit|, Operator)
  {
  }

  /** A letter starts the longest run of letters, digits and `_`; the run is
      a field keyword exactly when its upper-cased text is one, and the
      lexeme keeps the case it was written in. */
  lemma IdentToken(s: seq<char>, p: nat)
    requires p < |s| && IsLetter(s[p])
    ensures var r := Next(s, p);
      && 1 <= |r.lit| && p + |r.lit| <= |s| && r.lit == s[p .. p + |r.lit|]
      && IsLetter(r.lit[0])
      && (forall m :: 1 <= m < |r.lit| ==> InRun(IdentTail, r.lit[m]))
      && RunStopsAt(s, p + |r.lit|, IdentTail)
      && (r.tok != Ident <==> Upper(r.lit) in TOKEN_KEYWORD.Values)
      && (r.tok != Ident ==> r.tok in TOKEN_KEYWORD && TOKEN_KEYWORD[r.tok] == Upper(r.lit))
  {
  }

  /** A rune in no class (a digit, `_`, `#`, `-`, any non-ASCII rune, ...) is
      reported on its own as `Illegal`, and exactly that rune is consumed. */
  lemma IllegalToken(s: seq<char>, p: nat)
    requires p < |s|
    ensures Next(s, p).tok == Illegal <==>
      !IsWhitespace(s[p]) && !IsOperation(s[p]) && !IsLetter(s[p]) && s[p] != EOF_RUNE
    ensures Next(s, p).tok == Illegal ==> Next(s, p) == Lexed(Illegal, [s[p]], p + 1)
  {
  }

  /** As written, `<=` is reported as an identifier, not as `EqLess`. */
  lemma LessEqLexesAsIdent()
    ensures Next("<=", 0) == Lexed(Ident, "<=", 2)
  {
    assert RunEnd("<=", 2, Operator) == 2;
    assert RunEnd("<=", 1, Operator) == 2;
  }

  /** The tokens successive `Scan` calls return from `p` on, up to and
      including the first `Eof`. */
  function Tokens(s: seq<char>, p: nat): (ts: seq<Lexed>)
    requires p <= |s|
    ensures 1 <= |ts| <= |s| - p + 1
    ensures ts[|ts| - 1].tok == Eof
    ensures forall i :: 0 <= i < |ts| - 1 ==> ts[i].tok != Eof
    decreases |s| - p
  {
    var r := Next(s, p);
    if r.tok == Eof then [r] else [r] + Tokens(s, r.next)
  }

  /** `ts` is what successive `Scan` calls from `p0` have returned so far,
      the last of them of kind `tok`, leaving the reader at `p`: until `Eof`
      the rest of the stream is the stream from `p`; at `Eof` it is all of it. */
  ghost predicate ScannedPrefix(s: seq<char>, p0: nat, ts: seq<Lexed>, tok: Token, p: nat) {
    && p0 <= |s| && p <= |s|
    && (tok != Eof ==> Tokens(s, p0) == ts + Tokens(s, p))
    && (tok == Eof ==> 0 < |ts| && p == ts[|ts| - 1].next && ts == Tokens(s, p0))
  }

  /** One more `Scan` extends the prefix by one token. */
  lemma ScanExtends(s: seq<char>, p0: nat, ts: seq<Lexed>, tok: Token, p: nat)
    requires ScannedPrefix(s, p0, ts, tok, p) && tok != Eof
    ensures var r := Next(s, p); ScannedPrefix(s, p0, ts + [r], r.tok, r.next)
  {
    var r := Next(s, p);
    if r.tok == Eof {
      StreamEnds(s, p0, ts, p);
    } else {
      StreamGoesOn(s, p0, ts, p);
    }
  }

  /** The `Eof` token closes the stream. */
  lemma StreamEnds(s: seq<char>, p0: nat, ts: seq<Lexed>, p: nat)
    requires p0 <= |s| && p <= |s| && Tokens(s, p0) == ts + Tokens(s, p)
    requires Next(s, p).tok == Eof
    ensures Tokens(s, p0) == ts + [Next(s, p)]
  {
  }

  /** Any other token is followed by the stream from where it left the reader. */
  lemma StreamGoesOn(s: seq<char>, p0: nat, ts: seq<Lexed>, p: nat)
    requires p0 <= |s| && p <= |s| && Tokens(s, p0) == ts + Tokens(s, p)
    requires Next(s, p).tok != Eof
    ensures Tokens(s, p0) == (ts + [Next(s, p)]) + Tokens(s, Next(s, p).next)
  {
    var r := Next(s, p);
    assert ts + ([r] + Tokens(s, r.next)) == (ts + [r]) + Tokens(s, r.next);
  }

  /** The lexemes of a token sequence, concatenated. */
  function Lexemes(ts: seq<Lexed>): string {
    if ts == [] then "" else ts[0].lit + Lexemes(ts[1..])
  }

  /** Round trip: on input free of rune 0, the lexemes before `Eof` put back
      together give back the input exactly. */
  lemma {:induction false} RoundTrip(s: seq<char>, p: nat)
    requires p <= |s|
    requires forall i :: p <= i < |s| ==> s[i] != EOF_RUNE
    ensures Lexemes(Tokens(s, p)) == s[p..]
    decreases |s| - p
  {
    var r := Next(s, p);
    NextLexeme(s, p);
    if r.tok == Eof {
      assert p == |s|;
      assert Tokens(s, p) == [r];
      assert Lexemes([r]) == r.lit + Lexemes([]);
    } else {
      assert r.next == p + |r.lit|;
      var rest := Tokens(s, r.next);
      RoundTrip(s, r.next);  // Lexemes(rest) == s[r.next..]
      var ts := [r] + rest;
      assert Tokens(s, p) == ts;
      assert Lexemes(ts) == r.lit + Lexemes(rest) by {
        assert ts[0] == r && ts[1..] == rest;
      }
      assert r.lit == s[p..r.next];
      calc {
        Lexemes(Tokens(s, p));
        Lexemes(ts);
        r.lit + Lexemes(rest);
        s[p..r.next] + s[r.next..];
        { SliceSplit(s, p, r.next); }
        s[p..];
      }
    }
  }

  /** Splitting a suffix of the input at a later position. */
  lemma SliceSplit(s: seq<char>, a: nat, b: nat)
    requires a <= b <= |s|
    ensures s[a..] == s[a..b] + s[b..]
  {
  }

}
