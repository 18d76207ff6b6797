/** The scanner object: a reader over the query text with a one-rune
    pushback, and the scanning methods that consume it rune by rune. */
module Search {
  import opened RuneClasses
  import opened TokenTables
  import opened LexSpec

  class Scanner {
    /** The text behind the buffered reader. */
    const input: seq<char>
    /** How many runes the reader has handed out (net of pushbacks). */
    var pos: nat
    /** Whether the last reader operation was a read that returned a rune,
        the one situation in which the reader accepts a pushback. */
    var canUnread: bool

    ghost predicate Valid()
      reads this
    {
      pos <= |input| && (canUnread ==> 0 < pos)
    }

    constructor (text: seq<char>)
      ensures Valid()
      ensures input == text && pos == 0 && !canUnread
    {
      input := text;
      pos := 0;
      canUnread := false;
    }

    /** Next rune, or the sentinel without moving once the input is used up. */
    method Read() returns (ch: char)
      requires Valid()
      modifies this
      ensures Valid()
      ensures old(pos) < |input| ==> ch == input[old(pos)] && pos == old(pos) + 1 && canUnread
      ensures old(pos) == |input| ==> ch == EOF_RUNE && pos == old(pos) && !canUnread
    {
      if pos == |input| {
        ch := EOF_RUNE;
        canUnread := false;
      } else {
        ch := input[pos];
        pos := pos + 1;
        canUnread := true;
      }
    }

    /** Push back the rune just read; refused (no effect) unless the last
        operation was a read that returned a rune. */
    method Unread()
      requires Valid()
      modifies this
      ensures Valid() && !canUnread
      ensures pos == if old(canUnread) then old(pos) - 1 else old(pos)
    {
      if canUnread {
        pos := pos - 1;
        canUnread := false;
      }
    }

    /** The loop the three run scanners share: take one rune whatever it is,
        then keep taking runes of class `k`; a rune 0 ends the run and is
        dropped, any other rune outside the class is pushed back. */
    method ScanRun(k: RunClass) returns (buf: string)
      requires Valid()
      modifies this
      ensures Valid()
      ensures (buf, pos) == Munch(input, old(pos), k)
      ensures canUnread == (pos - old(pos) > |buf|)
    {
      ghost var p0 := pos;
      var first := Read();
      buf := [first];
      ghost var p1 := pos;
      while true
        invariant Valid()
        invariant p1 == (if p0 < |input| then p0 + 1 else p0)
        invariant first == (if p0 < |input| then input[p0] else EOF_RUNE)
        invariant p1 <= pos <= |input|
        invariant buf == [first] + input[p1..pos]
        invariant forall m :: p1 <= m < pos ==> InRun(k, input[m])
        invariant p0 < |input| || !canUnread
        decreases |input| - pos
      {
        ghost var before := pos;
        var ch := Read();
        if ch == EOF_RUNE {
          if p0 < |input| {
            MunchStopsAt(input, p0, before, k);
            assert buf == input[p0..before];
          }
          break;
        } else if !InRun(k, ch) {
          Unread();
          MunchStopsAt(input, p0, before, k);
          assert buf == input[p0..before];
          break;
        } else {
          buf := buf + [ch];
        }
      }
    }

    method ScanWhitespace() returns (tok: Token, lit: string)
      requires Valid()
      modifies this
      ensures Valid()
      ensures Lexed(tok, lit, pos) == LexWhitespace(input, old(pos))
      ensures canUnread == (pos - old(pos) > |lit|)
    {
      lit := ScanRun(Blank);
      tok := Ws;
    }

    method ScanOperation() returns (tok: Token, lit: string)
      requires Valid()
      modifies this
      ensures Valid()
      ensures Lexed(tok, lit, pos) == LexOperation(input, old(pos))
      ensures canUnread == (pos - old(pos) > |lit|)
    {
      lit := ScanRun(Operator);
      tok := OperationKind(lit);
    }

    method ScanIdent() returns (tok: Token, lit: string)
      requires Valid()
      modifies this
      ensures Valid()
      ensures Lexed(tok, lit, pos) == LexIdent(input, old(pos))
      ensures canUnread == (pos - old(pos) > |lit|)
    {
      lit := ScanRun(IdentTail);
      tok := IdentKind(lit);
    }

    /** One token: dispatch on the class of the next rune, pushing it back
        before a run scan. Afterwards a pushback is possible exactly when the
        last rune consumed was not returned as part of a run: an illegal
        rune or a dropped rune 0. */
    method Scan() returns (tok: Token, lit: string)
      requires Valid()
      modifies this
      ensures Valid()
      ensures Lexed(tok, lit, pos) == Next(input, old(pos))
      ensures canUnread == (tok == Illegal || pos - old(pos) > |lit|)
    {
      ghost var p := pos;
      var ch := Read();
      if IsWhitespace(ch) {
        assert Next(input, p) == LexWhitespace(input, p);
        Unread();
        tok, lit := ScanWhitespace();
      } else if IsOperation(ch) {
        assert Next(input, p) == LexOperation(input, p);
        Unread();
        tok, lit := ScanOperation();
      } else if IsLetter(ch) {
        assert Next(input, p) == LexIdent(input, p);
        Unread();
        tok, lit := ScanIdent();
      } else if ch == EOF_RUNE {
        tok, lit := Eof, "";
      } else {
        tok, lit := Illegal, [ch];
      }
    }
  }

  /** The driver loop without its output: call `Scan` until it reports `Eof`.
      The token kind starts at its zero value, `In`, so the loop runs at
      least once. The reader is left where the `Eof` token left it, and it
      accepts a pushback exactly when that last `Scan` consumed a rune 0. */
  method ScanAll(sc: Scanner) returns (ts: seq<Lexed>)
    requires sc.Valid()
    modifies sc
    ensures sc.Valid()
    ensures 0 < |ts| && sc.pos == ts[|ts| - 1].next
    ensures ts == Tokens(sc.input, old(sc.pos))
    ensures sc.canUnread == (sc.pos > LastStart(ts, old(sc.pos)))
  {
    ghost var s, p0 := sc.input, sc.pos;
    ts := [];
    var tok: Token := In;
    assert Tokens(s, p0) == ts + Tokens(s, p0);
    while tok != Eof
      invariant sc.Valid() && sc.input == s
      invariant ScannedPrefix(s, p0, ts, tok, sc.pos)
      invariant sc.pos == LastEnd(ts, p0)
      invariant tok == Eof ==> sc.canUnread == (sc.pos > LastStart(ts, p0))
      decreases if tok == Eof then 0 else |s| - sc.pos + 1
    {
      var lit;
      ScanExtends(s, p0, ts, tok, sc.pos);
      EofIsEmpty(s, sc.pos);
      tok, lit := sc.Scan();
      AppendOne(ts, p0, Lexed(tok, lit, sc.pos));
      ts := ts + [Lexed(tok, lit, sc.pos)];
    }
  }

  /** Where the reader stands after the tokens `ts` scanned from `p0`. */
  function LastEnd(ts: seq<Lexed>, p0: nat): nat {
    if |ts| == 0 then p0 else ts[|ts| - 1].next
  }

  /** Where the last `Scan` of `ts` started: the end of the token before
      it, or `p0` for the first one. */
  function LastStart(ts: seq<Lexed>, p0: nat): nat {
    if |ts| <= 1 then p0 else ts[|ts| - 2].next
  }

  /** The next token starts where the tokens so far end. */
  lemma AppendOne(ts: seq<Lexed>, p0: nat, x: Lexed)
    ensures LastStart(ts + [x], p0) == LastEnd(ts, p0)
    ensures LastEnd(ts + [x], p0) == x.next
  {
  }
}
