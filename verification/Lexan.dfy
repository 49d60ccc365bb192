/**
 `lexan` itself: one pass over the line that fills the token buffer and the two token arrays.
 */
module Lexan {
  import opened Wrappers
  import opened Lexer

  const SYSERR := -1

  /** The contents of the token buffer: every text followed by a null character. */
  function Flat(ts: seq<Token>): string {
    if ts == [] then [] else Flat(ts[..|ts| - 1]) + ts[|ts| - 1].text + [NUL]
  }

  /** The first `|ts|` tokens are stored: texts, where each starts, and its type. */
  ghost predicate Stored(tokbuf: string, tok: seq<int>, toktyp: seq<int>, tb: nat, ts: seq<Token>) {
    && tb == |Flat(ts)| && tb <= |tokbuf| && tokbuf[..tb] == Flat(ts)
    && |ts| <= |tok| && |ts| <= |toktyp|
    && forall i :: 0 <= i < |ts| ==> tok[i] == |Flat(ts[..i])| && toktyp[i] == ts[i].kind
  }

  lemma FlatPush(ts: seq<Token>, t: Token)
    ensures Flat(ts + [t]) == Flat(ts) + t.text + [NUL]
  {
    assert (ts + [t])[..|ts|] == ts;
  }

  lemma StoredPush(was: string, tok: seq<int>, toktyp: seq<int>, tb: nat, ts: seq<Token>,
                   tokbuf: string, tok': seq<int>, toktyp': seq<int>, tb': nat, t: Token)
    requires Stored(was, tok, toktyp, tb, ts) && |ts| < |tok| && |ts| < |toktyp|
    requires tok' == tok[|ts| := tb] && toktyp' == toktyp[|ts| := t.kind]
    requires tb' <= |tokbuf| && tokbuf[..tb'] == was[..tb] + t.text + [NUL]
    ensures Stored(tokbuf, tok', toktyp', tb', ts + [t])
  {
    FlatPush(ts, t);
    var us := ts + [t];
    forall i | 0 <= i < |us|
      ensures tok'[i] == |Flat(us[..i])| && toktyp'[i] == us[i].kind
    {
      assert us[..i] == ts[..i];
      if i == |ts| { assert ts[..i] == ts; }
    }
  }

  /** Nothing was written at or beyond `bound`. */
  twostate predicate Untouched(a: array<char>, bound: int)
    reads a
  {
    forall i :: 0 <= i < a.Length && bound <= i ==> a[i] == old(a[i])
  }

  /** Copy the characters of a string up to its end; `p` comes back behind that character. */
  method CopyString(line: array<char>, start: nat, quote: char, tokbuf: array<char>, tb0: nat)
    returns (p: nat, tb: nat, ch: char)
    requires Line(line[..]) && start < line.Length && tb0 + (line.Length - start) <= tokbuf.Length && line != tokbuf
    modifies tokbuf
    ensures var e := StringEnd(line[..], start, quote);
            && p == e + 1 && ch == line[e] && tb == tb0 + (e - start)
            && tokbuf[..tb] == old(tokbuf[..tb0]) + line[start..e]
    ensures Untouched(tokbuf, tb)
  {
    ghost var e := StringEnd(line[..], start, quote);
    p, tb := start, tb0;
    ch := line[p];
    p := p + 1;
    while ch != quote && ch != '\n' && ch != NUL
      invariant start < p <= e + 1 && ch == line[p - 1] && tb == tb0 + (p - 1 - start)
      invariant tokbuf[..tb] == old(tokbuf[..tb0]) + line[start..p - 1]
      invariant Untouched(tokbuf, tb)
      decreases e + 1 - p
    {
      assert !EndsString(line[..][p - 1], quote);
      tokbuf[tb] := ch;
      assert line[start..p] == line[start..p - 1] + [ch];
      tb := tb + 1;
      ch := line[p];
      p := p + 1;
    }
  }

  /** Copy the rest of a plain word. */
  method CopyWord(line: array<char>, start: nat, tokbuf: array<char>, tb0: nat) returns (p: nat, tb: nat, ch: char)
    requires Line(line[..]) && start < line.Length && tb0 + (line.Length - start) <= tokbuf.Length && line != tokbuf
    modifies tokbuf
    ensures p == WordEnd(line[..], start) && ch == line[p] && tb == tb0 + (p - start)
    ensures tokbuf[..tb] == old(tokbuf[..tb0]) + line[start..p]
    ensures Untouched(tokbuf, tb)
  {
    ghost var e := WordEnd(line[..], start);
    p, tb := start, tb0;
    ch := line[p];
    while ch != '\n' && ch != NUL && ch != '<' && ch != '>'
       && ch != ' ' && ch != '\t' && ch != '&' && ch != '\'' && ch != '"'
      invariant start <= p <= e && ch == line[p] && tb == tb0 + (p - start)
      invariant tokbuf[..tb] == old(tokbuf[..tb0]) + line[start..p]
      invariant Untouched(tokbuf, tb)
      decreases e - p
    {
      assert !Special(line[..][p]);
      tokbuf[tb] := ch;
      assert line[start..p + 1] == line[start..p] + [ch];
      tb := tb + 1;
      p := p + 1;
      ch := line[p];
    }
  }

  /** The text of a token is in the buffer, closed by a null character. */
  predicate Closed(buf: string, was: string, text: string) { buf == was + text + [NUL] }

  /** A token between quotes. */
  method ReadString(line: array<char>, start: nat, tokbuf: array<char>, tb0: nat) returns (ok: bool, p: nat, tb: nat)
    requires Line(line[..]) && start < line.Length && Quote(line[start])
    requires tb0 + (line.Length - start) <= tokbuf.Length && line != tokbuf
    modifies tokbuf
    ensures var r := NextToken(line[..], start);
            && ok == r.Some? && (!ok ==> p == RefusedAt(line[..], start))
            && (ok ==> p == r.value.1 && OTHER == r.value.0.kind && tb <= tokbuf.Length
                       && Closed(tokbuf[..tb], old(tokbuf[..tb0]), r.value.0.text))
    ensures start < p <= line.Length && tb0 <= tb <= tb0 + (p - start) && Untouched(tokbuf, tb)
  {
    var quote, ch := line[start], NUL;
    assert line[..][start] == quote;
    LineSize(line[..]);
    p, tb, ch := CopyString(line, start + 1, quote, tokbuf, tb0);
    hide StringEnd;
    if ch != quote { return false, p, tb; }
    ghost var text := tokbuf[..tb];
    tokbuf[tb] := NUL;
    tb := tb + 1;
    assert tokbuf[..tb] == text + [NUL];
    ok := true;
  }

  /** A plain word. */
  method ReadWord(line: array<char>, start: nat, tokbuf: array<char>, tb0: nat) returns (ok: bool, p: nat, tb: nat)
    requires Line(line[..]) && start < line.Length && !Special(line[start])
    requires tb0 + (line.Length - start) <= tokbuf.Length && line != tokbuf
    modifies tokbuf
    ensures var r := NextToken(line[..], start);
            && ok == r.Some? && (!ok ==> p == RefusedAt(line[..], start))
            && (ok ==> p == r.value.1 && OTHER == r.value.0.kind && tb <= tokbuf.Length
                       && Closed(tokbuf[..tb], old(tokbuf[..tb0]), r.value.0.text))
    ensures start < p < line.Length && tb0 <= tb <= tb0 + (p - start) + (if ok then 1 else 0) && Untouched(tokbuf, tb)
  {
    var ch := line[start];
    assert line[..][start] == ch;
    LineSize(line[..]);
    ghost var was := tokbuf[..tb0];
    tokbuf[tb0] := ch;
    assert tokbuf[..tb0 + 1] == was + [ch];
    p, tb, ch := CopyWord(line, start + 1, tokbuf, tb0 + 1);
    hide WordEnd;
    assert line[start..p] == [line[start]] + line[start + 1..p];
    ghost var text := tokbuf[..tb];
    assert text == was + line[start..p];
    if ch == '\'' || ch == '"' || ch == '<' || ch == '>' { return false, p, tb; }
    tokbuf[tb] := NUL;
    tb := tb + 1;
    assert tokbuf[..tb] == text + [NUL];
    ok := true;
  }

  /** A symbol. */
  method ReadSymbol(line: array<char>, start: nat, tokbuf: array<char>, tb0: nat) returns (kind: int)
    requires Line(line[..]) && start < line.Length && Symbol(line[start])
    requires tb0 + (line.Length - start) <= tokbuf.Length && line != tokbuf
    modifies tokbuf
    ensures NextToken(line[..], start) == Some((Token(kind, [line[start]]), start + 1)) && tb0 + 2 <= tokbuf.Length
    ensures Closed(tokbuf[..tb0 + 2], old(tokbuf[..tb0]), [line[start]]) && Untouched(tokbuf, tb0 + 2)
  {
    var ch := line[start];
    assert line[..][start] == ch;
    LineSize(line[..]);
    kind := if ch == '&' then AMPER else if ch == '<' then LESS else GREATER;
    tokbuf[tb0] := ch;
    tokbuf[tb0 + 1] := NUL;
  }

  /** Store the text of one token and its closing null character. */
  method ReadToken(line: array<char>, start: nat, tokbuf: array<char>, tb0: nat)
    returns (ok: bool, p: nat, tb: nat, kind: int)
    requires Line(line[..]) && start < line.Length && !Stop(line[start]) && !Blank(line[start])
    requires tb0 + (line.Length - start) <= tokbuf.Length && line != tokbuf
    modifies tokbuf
    ensures var r := NextToken(line[..], start);
            && ok == r.Some? && (!ok ==> p == RefusedAt(line[..], start))
            && (ok ==> p == r.value.1 && kind == r.value.0.kind && tb <= tokbuf.Length
                       && Closed(tokbuf[..tb], old(tokbuf[..tb0]), r.value.0.text))
    ensures start < p <= line.Length && tb0 <= tb <= tb0 + (p - start) + (if ok then 1 else 0) && Untouched(tokbuf, tb)
  {
    hide NextToken, Closed, Line, RefusedAt;
    var ch := line[start];
    if ch == '&' || ch == '<' || ch == '>' {
      kind := ReadSymbol(line, start, tokbuf, tb0);
      ok, p, tb := true, start + 1, tb0 + 2;
    } else if ch == '\'' || ch == '"' {
      kind := OTHER;
      ok, p, tb := ReadString(line, start, tokbuf, tb0);
    } else {
      kind := OTHER;
      ok, p, tb := ReadWord(line, start, tokbuf, tb0);
    }
  }

  /** Store token number `n = |ts|` with its start and type. */
  method StoreToken(line: array<char>, start: nat, tokbuf: array<char>, tb0: nat, tok: array<int>, toktyp: array<int>,
                    n: nat, ghost ts: seq<Token>) returns (ok: bool, p: nat, tb: nat)
    requires Line(line[..]) && start < line.Length && !Stop(line[start]) && !Blank(line[start])
    requires tb0 + (line.Length - start) <= tokbuf.Length && line != tokbuf && tok != toktyp
    requires n == |ts| < tok.Length && n < toktyp.Length && Stored(tokbuf[..], tok[..], toktyp[..], tb0, ts)
    modifies tokbuf, tok, toktyp
    ensures var r := NextToken(line[..], start);
            && ok == r.Some? && (!ok ==> p == RefusedAt(line[..], start))
            && (ok ==> p == r.value.1 && Stored(tokbuf[..], tok[..], toktyp[..], tb, ts + [r.value.0]))
    ensures start < p <= line.Length && tb0 <= tb <= tb0 + (p - start) + (if ok then 1 else 0) && Untouched(tokbuf, tb)
  {
    hide NextToken, Line, Stored, RefusedAt;
    ghost var was, tok0, typ0 := tokbuf[..], tok[..], toktyp[..];
    StoredSize(was, tok0, typ0, tb0, ts);
    tok[n] := tb0;
    var kind;
    ok, p, tb, kind := ReadToken(line, start, tokbuf, tb0);
    toktyp[n] := kind;
    if ok {
      assert old(tokbuf[..tb0]) == was[..tb0] && tokbuf[..][..tb] == tokbuf[..tb];
      assert tok[..] == tok0[n := tb0] && toktyp[..] == typ0[n := kind];
      StoredPush(was, tok0, typ0, tb0, ts, tokbuf[..], tok[..], toktyp[..], tb, NextToken(line[..], start).value.0);
    }
  }

  lemma StoredSize(tokbuf: string, tok: seq<int>, toktyp: seq<int>, tb: nat, ts: seq<Token>)
    requires Stored(tokbuf, tok, toktyp, tb, ts)
    ensures tb <= |tokbuf|
  {
  }

  lemma LexEnd(line: string, p: nat, n: nat)
    requires Line(line) && p < |line|
    ensures Stop(line[p]) ==> Lex(line, p, n) == Some([])
    ensures !Stop(line[p]) && n >= SHELL_MAXTOK ==> Lex(line, p, n) == None
    ensures !Stop(line[p]) && n < SHELL_MAXTOK && Stop(line[SkipBlanks(line, p)]) ==> Lex(line, p, n) == Some([])
    ensures !Stop(line[p]) && n < SHELL_MAXTOK && !Stop(line[SkipBlanks(line, p)]) ==>
              var r := NextToken(line, SkipBlanks(line, p));
              Lex(line, p, n) == if r.None? then None else Cons(r.value.0, Lex(line, r.value.1, n + 1))
  {
    hide SkipBlanks, NextToken;
  }

  lemma ExtentEnd(line: string, p: nat, n: nat)
    requires Line(line) && p < |line|
    ensures Stop(line[p]) || n >= SHELL_MAXTOK ==> Extent(line, p, n) == (p, n)
    ensures !Stop(line[p]) && n < SHELL_MAXTOK ==>
              var q := SkipBlanks(line, p);
              Extent(line, p, n) ==
                if Stop(line[q]) then (q, n)
                else if NextToken(line, q).None? then (RefusedAt(line, q), n)
                else Extent(line, NextToken(line, q).value.1, n + 1)
  {
    hide SkipBlanks, NextToken, RefusedAt;
  }

  /** The result is `r`'s tokens after those in `ts`. */
  function After(ts: seq<Token>, r: Option<seq<Token>>): Option<seq<Token>> {
    if r.None? then None else Some(ts + r.value)
  }

  lemma AfterCons(ts: seq<Token>, t: Token, r: Option<seq<Token>>)
    ensures After(ts, Cons(t, r)) == After(ts + [t], r) && After([], r) == r
  {
    if r.Some? { assert ts + ([t] + r.value) == (ts + [t]) + r.value && [] + r.value == r.value; }
  }

  lemma AfterNothing(ts: seq<Token>)
    ensures After(ts, Some([])) == Some(ts) && After(ts, None) == None
  {
    assert ts + [] == ts;
  }

  method Skip(line: array<char>, start: nat) returns (p: nat)
    requires Line(line[..]) && start < line.Length
    ensures p == SkipBlanks(line[..], start)
  {
    p := start;
    ghost var text := line[..];
    ghost var e := SkipBlanks(text, start);
    assert !Blank(text[e]) && forall i :: start <= i < e ==> Blank(text[i]);
    hide SkipBlanks;
    while line[p] == ' ' || line[p] == '\t'
      invariant start <= p <= e
      invariant if p < e then Blank(text[p]) else !Blank(text[p])
      decreases e - p
    {
      p := p + 1;
    }
  }

  /** The arguments are the shell's: a buffer with room for the line and a null character for
      every token.  `consumed` and `found` are the characters read and the tokens stored, also
      when the line is refused. */
  method Lexan(line: array<char>, tokbuf: array<char>, tok: array<int>, toktyp: array<int>)
    returns (ntok: int, tlen: nat, ghost consumed: nat, ghost found: nat)
    requires Line(line[..]) && tokbuf != line && tok != toktyp
    requires tokbuf.Length >= line.Length - 1 + SHELL_MAXTOK && tok.Length >= SHELL_MAXTOK
    requires toktyp.Length >= SHELL_MAXTOK
    modifies tokbuf, tok, toktyp
    ensures (consumed, found) == Extent(old(line[..]), 0, 0)
    ensures consumed <= line.Length && found <= SHELL_MAXTOK && NoStop(old(line[..]), 0, consumed - 1)
    ensures Untouched(tokbuf, consumed + found)
    ensures match Lex(old(line[..]), 0, 0)
            case None => ntok == SYSERR
            case Some(ts) =>
              && consumed < line.Length && Stop(old(line[..])[consumed]) && NoStop(old(line[..]), 0, consumed)
              && ntok == |ts| == found && Stored(tokbuf[..], tok[..], toktyp[..], tlen, ts)
              && tlen <= consumed + found && Untouched(tokbuf, tlen)
  {
    hide Lex, NextToken, SkipBlanks, Stored, Line, Extent, NoStop;
    ghost var text := line[..];
    LineSize(text);
    ExtentMeaning(text, 0, 0);
    ntok, tlen, consumed, found := LexLine(line, tokbuf, tok, toktyp);
  }

  method LexLine(line: array<char>, tokbuf: array<char>, tok: array<int>, toktyp: array<int>)
    returns (ntok: int, tlen: nat, ghost consumed: nat, ghost found: nat)
    requires Line(line[..]) && line.Length > 0 && tokbuf != line && tok != toktyp
    requires tokbuf.Length >= line.Length - 1 + SHELL_MAXTOK && tok.Length >= SHELL_MAXTOK
    requires toktyp.Length >= SHELL_MAXTOK
    modifies tokbuf, tok, toktyp
    ensures (consumed, found) == Extent(old(line[..]), 0, 0) && Untouched(tokbuf, consumed + found)
    ensures match Lex(old(line[..]), 0, 0)
            case None => ntok == SYSERR
            case Some(ts) =>
              && ntok == |ts| && Stored(tokbuf[..], tok[..], toktyp[..], tlen, ts)
              && tlen <= consumed + found && Untouched(tokbuf, tlen)
  {
    hide Lex, NextToken, SkipBlanks, Stored, Line, After, Cons, Extent, RefusedAt;
    ghost var text := line[..];
    ghost var ts: seq<Token> := [];
    var n, p, tb := 0, 0, 0;
    StoredNone(tokbuf[..], tok[..], toktyp[..]);
    AfterCons([], Token(0, ""), Lex(text, 0, 0));
    while line[p] != NUL && line[p] != '\n'
      invariant line[..] == text && 0 <= p < line.Length && n == |ts| <= SHELL_MAXTOK && 0 <= tb <= p + n
      invariant Lex(text, 0, 0) == After(ts, Lex(text, p, n)) && Extent(text, 0, 0) == Extent(text, p, n)
      invariant Stored(tokbuf[..], tok[..], toktyp[..], tb, ts)
      invariant Untouched(tokbuf, tb)
      decreases line.Length - p
    {
      LexEnd(text, p, n);
      ExtentEnd(text, p, n);
      AfterNothing(ts);
      if n >= SHELL_MAXTOK { return SYSERR, 0, p, n; }
      var q := Skip(line, p);
      var ch := line[q];
      if ch == '\n' || ch == NUL { return n, tb, q, n; }
      var ok, q', tb' := StoreToken(line, q, tokbuf, tb, tok, toktyp, n, ts);
      if !ok { return SYSERR, 0, q', n; }
      ghost var t := NextToken(text, q).value.0;
      AfterCons(ts, t, Lex(text, q', n + 1));
      ts := ts + [t];
      n, p, tb := n + 1, q', tb';
    }
    LexEnd(text, p, n);
    ExtentEnd(text, p, n);
    AfterNothing(ts);
    return n, tb, p, n;
  }

  lemma StoredNone(tokbuf: string, tok: seq<int>, toktyp: seq<int>)
    ensures Stored(tokbuf, tok, toktyp, 0, [])
  {
  }

  lemma LineSize(line: string)
    requires Line(line)
    ensures |line| > 0
  {
  }
}
