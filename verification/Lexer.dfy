/**
 The shell's lexical analyser: tokens of a command line as a function of the line, printing
 of tokens, and the exact conditions under which lexing undoes printing.
 */
module Lexer {
  import opened Wrappers

  const SHELL_MAXTOK := 32

  const AMPER := 0
  const LESS := 1
  const GREATER := 2
  const OTHER := 3

  const NUL := '\0'

  datatype Token = Token(kind: int, text: string)

  predicate Stop(c: char) { c == '\n' || c == NUL }
  predicate Blank(c: char) { c == ' ' || c == '\t' }
  predicate Quote(c: char) { c == '\'' || c == '"' }
  predicate Symbol(c: char) { c == '&' || c == '<' || c == '>' }

  /** The characters that end a plain word. */
  predicate Special(c: char) { Stop(c) || Blank(c) || Quote(c) || Symbol(c) }

  function Kind(c: char): int { if c == '&' then AMPER else if c == '<' then LESS else GREATER }

  /** A line up to and including a terminator. */
  predicate Line(line: string) { line != [] && Stop(line[|line| - 1]) }

  // ---- searches --------------------------------------------------------------------

  function SkipBlanks(line: string, p: nat): (q: nat)
    requires Line(line) && p < |line|
    ensures p <= q < |line| && !Blank(line[q]) && forall i :: p <= i < q ==> Blank(line[i])
    decreases |line| - p
  {
    if Blank(line[p]) then SkipBlanks(line, p + 1) else p
  }

  function WordEnd(line: string, p: nat): (q: nat)
    requires Line(line) && p < |line|
    ensures p <= q < |line| && Special(line[q]) && forall i :: p <= i < q ==> !Special(line[i])
    decreases |line| - p
  {
    if Special(line[p]) then p else WordEnd(line, p + 1)
  }

  predicate EndsString(c: char, quote: char) { c == quote || Stop(c) }

  function StringEnd(line: string, p: nat, quote: char): (q: nat)
    requires Line(line) && p < |line|
    ensures p <= q < |line| && EndsString(line[q], quote) && forall i :: p <= i < q ==> !EndsString(line[i], quote)
    decreases |line| - p
  {
    if EndsString(line[p], quote) then p else StringEnd(line, p + 1, quote)
  }

  // ---- lexing ----------------------------------------------------------------------

  /** The token that starts at `p` and the position behind it. */
  function NextToken(line: string, p: nat): (r: Option<(Token, nat)>)
    requires Line(line) && p < |line| && !Stop(line[p])
    ensures r.Some? ==> p < r.value.1 < |line|
  {
    var c := line[p];
    if Symbol(c) then Some((Token(Kind(c), [c]), p + 1))
    else if Quote(c) then
      var e := StringEnd(line, p + 1, c);
      if line[e] == c then Some((Token(OTHER, line[p + 1..e]), e + 1)) else None
    else
      var e := WordEnd(line, p + 1);
      if Quote(line[e]) || line[e] == '<' || line[e] == '>' then None else Some((Token(OTHER, line[p..e]), e))
  }

  function Cons(t: Token, r: Option<seq<Token>>): Option<seq<Token>> { if r.None? then None else Some([t] + r.value) }

  /** The tokens from `p` on, when `n` have been found before; the count is checked before the
      blanks are skipped. */
  function Lex(line: string, p: nat, n: nat): Option<seq<Token>>
    requires Line(line) && p < |line|
    decreases |line| - p
  {
    if Stop(line[p]) then Some([])
    else if n >= SHELL_MAXTOK then None
    else
      var q := SkipBlanks(line, p);
      if Stop(line[q]) then Some([])
      else
        var r := NextToken(line, q);
        if r.None? then None else Cons(r.value.0, Lex(line, r.value.1, n + 1))
  }

  // ---- how far lexing gets ---------------------------------------------------------

  /** Where the reading of a token that is refused ends: behind the terminator that cuts a string
      short, or at the character that may not follow a word. */
  function RefusedAt(line: string, p: nat): (e: nat)
    requires Line(line) && p < |line| && !Stop(line[p])
    ensures p < e <= |line|
  {
    if Quote(line[p]) then StringEnd(line, p + 1, line[p]) + 1 else WordEnd(line, p + 1)
  }

  /** The characters read and the tokens stored when lexing ends, with or without success. */
  function Extent(line: string, p: nat, n: nat): (nat, nat)
    requires Line(line) && p < |line|
    decreases |line| - p
  {
    if Stop(line[p]) || n >= SHELL_MAXTOK then (p, n)
    else
      var q := SkipBlanks(line, p);
      if Stop(line[q]) then (q, n)
      else
        var r := NextToken(line, q);
        if r.None? then (RefusedAt(line, q), n) else Extent(line, r.value.1, n + 1)
  }

  predicate NoStop(line: string, a: nat, b: int) { forall i :: a <= i < b && i < |line| ==> !Stop(line[i]) }

  lemma TokenNoStop(line: string, p: nat)
    requires Line(line) && p < |line| && !Stop(line[p])
    ensures var r := NextToken(line, p);
            if r.Some? then NoStop(line, p, r.value.1) else NoStop(line, p, RefusedAt(line, p) - 1)
  {
    hide SkipBlanks;
    var c := line[p];
    if Quote(c) {
      var e := StringEnd(line, p + 1, c);
      assert forall i :: p + 1 <= i < e ==> !EndsString(line[i], c);
    } else if !Symbol(c) {
      var e := WordEnd(line, p + 1);
      assert forall i :: p + 1 <= i < e ==> !Special(line[i]);
    }
  }

  /** Lexing reads no character behind the end of the line.  On success it has read exactly the
      line and stored every token; a refusal is at the latest behind the terminator. */
  lemma {:induction false} ExtentMeaning(line: string, p: nat, n: nat)
    requires Line(line) && p < |line| && n <= SHELL_MAXTOK
    ensures var (e, k) := Extent(line, p, n);
            && p <= e <= |line| && n <= k <= SHELL_MAXTOK && NoStop(line, p, e - 1)
            && match Lex(line, p, n)
               case None => true
               case Some(ts) => e < |line| && Stop(line[e]) && NoStop(line, p, e) && k == n + |ts|
    decreases |line| - p
  {
    hide NextToken, RefusedAt, SkipBlanks;
    if !Stop(line[p]) && n < SHELL_MAXTOK {
      var q := SkipBlanks(line, p);
      assert forall i :: p <= i < q ==> Blank(line[i]);
      if !Stop(line[q]) {
        TokenNoStop(line, q);
        var r := NextToken(line, q);
        if r.Some? { ExtentMeaning(line, r.value.1, n + 1); }
      }
    }
  }

  // ---- printing --------------------------------------------------------------------

  datatype Item = Plain(text: string) | Quoted(quote: char, text: string) | Operator(c: char)

  /** Which items can be printed, and where blanks and ends are, is said in characters, not by the
      tests of the lexer. */
  predicate Printable(i: Item) {
    match i
    case Plain(text) => text != [] && forall k :: 0 <= k < |text| ==> text[k] !in "\n\0 \t'\"&<>"
    case Quoted(q, text) => (q == '\'' || q == '"') && forall k :: 0 <= k < |text| ==> text[k] !in [q, '\n', '\0']
    case Operator(c) => c == '&' || c == '<' || c == '>'
  }

  function Print(i: Item): string {
    match i
    case Plain(text) => text
    case Quoted(q, text) => [q] + text + [q]
    case Operator(c) => [c]
  }

  function TokenOf(i: Item): Token {
    match i
    case Plain(text) => Token(OTHER, text)
    case Quoted(_, text) => Token(OTHER, text)
    case Operator(c) => Token(if c == '&' then AMPER else if c == '<' then LESS else GREATER, [c])
  }

  function TokensOf(items: seq<Item>): seq<Token> { seq(|items|, i requires 0 <= i < |items| => TokenOf(items[i])) }

  predicate AllBlank(s: string) { forall k :: 0 <= k < |s| ==> s[k] == ' ' || s[k] == '\t' }

  /** Items, each with the blanks in front of it. */
  function Join(seps: seq<string>, items: seq<Item>): string
    requires |seps| == |items|
  {
    if items == [] then [] else seps[0] + Print(items[0]) + Join(seps[1..], items[1..])
  }

  /** A plain word stands directly in front of item `i`. */
  predicate Abuts(seps: seq<string>, items: seq<Item>, i: nat)
    requires |seps| == |items| && i < |items|
  {
    i > 0 && seps[i] == [] && items[i - 1].Plain?
  }

  /** Separators are blanks, and no two plain words run together into one. */
  ghost predicate GoodSeps(seps: seq<string>, items: seq<Item>)
    requires |seps| == |items|
  {
    forall i :: 0 <= i < |items| ==> AllBlank(seps[i]) && (Abuts(seps, items, i) ==> !items[i].Plain?)
  }

  /** The only thing the lexer lets stand directly behind a plain word is an ampersand. */
  ghost predicate Spaced(seps: seq<string>, items: seq<Item>)
    requires |seps| == |items|
  {
    forall i :: 0 <= i < |items| && Abuts(seps, items, i) ==> items[i] == Operator('&')
  }

  // ---- lexing undoes printing ------------------------------------------------------

  lemma SkipIs(line: string, p: nat, q: nat)
    requires Line(line) && p <= q < |line| && !Blank(line[q]) && forall i :: p <= i < q ==> Blank(line[i])
    ensures SkipBlanks(line, p) == q
  {
  }

  lemma WordIs(line: string, p: nat, q: nat)
    requires Line(line) && p <= q < |line| && Special(line[q]) && forall i :: p <= i < q ==> !Special(line[i])
    ensures WordEnd(line, p) == q
  {
  }

  lemma StringIs(line: string, p: nat, quote: char, q: nat)
    requires Line(line) && p <= q < |line| && EndsString(line[q], quote)
    requires forall i :: p <= i < q ==> !EndsString(line[i], quote)
    ensures StringEnd(line, p, quote) == q
  {
  }

  /** `s` stands in the line at `p`. */
  predicate At(line: string, p: nat, s: string) { p + |s| <= |line| && line[p..p + |s|] == s }

  lemma AtElem(line: string, p: nat, s: string, k: nat)
    requires At(line, p, s) && k < |s|
    ensures p + k < |line| && line[p + k] == s[k]
  {
    assert line[p..p + |s|][k] == s[k];
  }

  lemma AtSplit(line: string, p: nat, a: string, b: string)
    requires At(line, p, a + b)
    ensures At(line, p, a) && At(line, p + |a|, b)
  {
    assert line[p..p + |a|] == (a + b)[..|a|];
    assert line[p + |a|..p + |a| + |b|] == (a + b)[|a|..];
  }

  predicate Refused(c: char) { Quote(c) || c == '<' || c == '>' }

  lemma Assoc(a: string, b: string, c: string)
    ensures a + b + c == a + (b + c)
  {
  }

  lemma AtOne(line: string, p: nat, c: char)
    requires At(line, p, [c])
    ensures p < |line| && line[p] == c
  {
    AtElem(line, p, [c], 0);
    hide At;
  }

  lemma QuotedAt(line: string, p: nat, q: char, text: string)
    requires At(line, p, [q] + text + [q])
    ensures p < |line| && line[p] == q && At(line, p + 1, text)
    ensures p + 1 + |text| < |line| && line[p + 1 + |text|] == q
  {
    hide At;
    Assoc([q], text, [q]);
    AtSplit(line, p, [q], text + [q]);
    AtSplit(line, p + 1, text, [q]);
    AtOne(line, p, q);
    AtOne(line, p + 1 + |text|, q);
  }

  /** A string with its closing quote at `e`. */
  lemma ReadClosed(line: string, p: nat, e: nat)
    requires Line(line) && p < e < |line| && Quote(line[p]) && line[e] == line[p]
    requires forall j :: p + 1 <= j < e ==> !EndsString(line[j], line[p])
    ensures NextToken(line, p) == Some((Token(OTHER, line[p + 1..e]), e + 1))
  {
    hide StringEnd, WordEnd;
    StringIs(line, p + 1, line[p], e);
  }

  lemma AtText(line: string, p: nat, s: string)
    requires At(line, p, s)
    ensures p + |s| <= |line| && line[p..p + |s|] == s
  {
  }

  lemma NoEnd(line: string, p: nat, q: char, text: string)
    requires Printable(Quoted(q, text)) && At(line, p, text)
    ensures p + |text| <= |line| && forall j :: p <= j < p + |text| ==> !EndsString(line[j], q)
  {
    AtText(line, p, text);
    forall j | p <= j < p + |text|
      ensures !EndsString(line[j], q)
    {
      AtElem(line, p, text, j - p);
    }
    hide At;
  }

  lemma ReadQuoted(line: string, p: nat, q: char, text: string)
    requires Line(line) && Printable(Quoted(q, text)) && At(line, p, [q] + text + [q])
    requires p + |text| + 2 < |line|
    ensures line[p] == q && Quote(q) && NextToken(line, p) == Some((Token(OTHER, text), p + |text| + 2))
  {
    assert Quote(q);
    hide At, Printable, NextToken, Line, EndsString, Quote;
    QuotedAt(line, p, q, text);
    NoEnd(line, p + 1, q, text);
    AtText(line, p + 1, text);
    ReadClosed(line, p, p + 1 + |text|);
  }

  lemma NoSpecial(line: string, p: nat, text: string)
    requires Printable(Plain(text)) && At(line, p, text)
    ensures p + |text| <= |line| && text != [] && forall j :: p <= j < p + |text| ==> !Special(line[j])
  {
    AtText(line, p, text);
    forall j | p <= j < p + |text|
      ensures !Special(line[j])
    {
      AtElem(line, p, text, j - p);
    }
    hide At;
  }

  /** A word that ends at `e`. */
  lemma ReadBare(line: string, p: nat, e: nat)
    requires Line(line) && p < e < |line| && Special(line[e])
    requires forall j :: p <= j < e ==> !Special(line[j])
    ensures !Special(line[p])
    ensures NextToken(line, p) == if Refused(line[e]) then None else Some((Token(OTHER, line[p..e]), e))
  {
    hide WordEnd, StringEnd;
    WordIs(line, p + 1, e);
  }

  lemma ReadPlain(line: string, p: nat, text: string)
    requires Line(line) && Printable(Plain(text)) && At(line, p, text)
    requires p + |text| < |line| && Special(line[p + |text|])
    ensures !Special(line[p])
    ensures NextToken(line, p) ==
              if Refused(line[p + |text|]) then None else Some((Token(OTHER, text), p + |text|))
  {
    hide At, Printable, NextToken, Line, Special, Refused;
    NoSpecial(line, p, text);
    AtText(line, p, text);
    ReadBare(line, p, p + |text|);
  }

  lemma ReadOperator(line: string, p: nat, c: char)
    requires Line(line) && Printable(Operator(c)) && At(line, p, [c]) && p + 1 < |line|
    ensures line[p] == c && Symbol(c) && NextToken(line, p) == Some((TokenOf(Operator(c)), p + 1))
  {
    AtOne(line, p, c);
    hide At, WordEnd, StringEnd;
  }

  /** A printed item is read back whatever follows it, except that a plain word is refused when a
      quote, `<` or `>` follows. */
  lemma ReadItem(line: string, p: nat, i: Item)
    requires Line(line) && Printable(i) && At(line, p, Print(i))
    requires p + |Print(i)| < |line| && (i.Plain? ==> Special(line[p + |Print(i)|]))
    ensures p < |line| && !Stop(line[p]) && !Blank(line[p])
    ensures NextToken(line, p) ==
              if i.Plain? && Refused(line[p + |Print(i)|]) then None else Some((TokenOf(i), p + |Print(i)|))
  {
    hide At, Printable, NextToken, Line, Special, Refused;
    match i
    case Plain(text) =>
      ReadPlain(line, p, text);
      PlainChar(line[p]);
    case Quoted(q, text) =>
      ReadQuoted(line, p, q, text);
    case Operator(c) =>
      ReadOperator(line, p, c);
  }

  lemma PlainChar(c: char)
    ensures !Special(c) ==> !Stop(c) && !Blank(c)
  {
  }

  /** Room for `k` more tokens after `n`: blanks behind the last allowed one count as another. */
  predicate Fits(n: nat, k: nat, trail: string) { n + k < SHELL_MAXTOK || (n + k == SHELL_MAXTOK && trail == []) }

  function Rest(seps: seq<string>, items: seq<Item>, trail: string, stop: char): string
    requires |seps| == |items|
  {
    Join(seps, items) + trail + [stop]
  }

  ghost predicate GoodText(seps: seq<string>, items: seq<Item>, trail: string, stop: char) {
    && |seps| == |items| && GoodSeps(seps, items) && AllBlank(trail) && (stop == '\n' || stop == '\0')
    && forall i :: 0 <= i < |items| ==> Printable(items[i])
  }

  /** The first character of what follows an item. */
  lemma RestHead(seps: seq<string>, items: seq<Item>, trail: string, stop: char)
    requires GoodText(seps, items, trail, stop)
    ensures var r := Rest(seps, items, trail, stop);
            && r != []
            && if items != [] && seps[0] == [] then Print(items[0]) != [] && r[0] == Print(items[0])[0]
               else Blank(r[0]) || Stop(r[0])
  {
    var r := Rest(seps, items, trail, stop);
    if items != [] {
      PrintNonEmpty(items[0]);
      assert r[0] == if seps[0] == [] then Print(items[0])[0] else seps[0][0];
    } else if trail != [] {
      assert r[0] == trail[0];
    }
  }

  lemma PrintNonEmpty(i: Item)
    requires Printable(i)
    ensures Print(i) != []
  {
  }

  /** Whether the first item is a plain word with the wrong thing directly behind it. */
  predicate Broken(seps: seq<string>, items: seq<Item>)
    requires |seps| == |items| && items != []
  {
    |items| > 1 && Abuts(seps, items, 1) && items[1] != Operator('&')
  }

  /** What follows the first item refuses it exactly if the item is broken. */
  lemma BrokenHead(seps: seq<string>, items: seq<Item>, trail: string, stop: char)
    requires GoodText(seps, items, trail, stop) && items != [] && items[0].Plain?
    ensures var r := Rest(seps[1..], items[1..], trail, stop);
            r != [] && Special(r[0]) && (Refused(r[0]) <==> Broken(seps, items))
  {
    GoodTail(seps, items, trail, stop);
    RestHead(seps[1..], items[1..], trail, stop);
    if |items| > 1 && seps[1] == [] { assert Abuts(seps, items, 1) && Printable(items[1]); }
    hide Rest;
  }

  lemma Regroup(a: string, b: string, c: string, d: string, e: string)
    ensures a + b + c + d + e == a + (b + (c + d + e))
  {
  }

  lemma RestUnfold(seps: seq<string>, items: seq<Item>, trail: string, stop: char)
    requires |seps| == |items| && items != []
    ensures Rest(seps, items, trail, stop) == seps[0] + (Print(items[0]) + Rest(seps[1..], items[1..], trail, stop))
  {
    hide Print;
    Regroup(seps[0], Print(items[0]), Join(seps[1..], items[1..]), trail, [stop]);
  }

  lemma LexTrail(line: string, p: nat, trail: string, stop: char, n: nat)
    requires Line(line) && AllBlank(trail) && Stop(stop) && At(line, p, trail + [stop]) && n <= SHELL_MAXTOK
    ensures p < |line| && Lex(line, p, n) == if Fits(n, 0, trail) then Some([]) else None
  {
    var s := trail + [stop];
    forall k: nat | k < |s|
      ensures line[p + k] == s[k]
    {
      AtElem(line, p, s, k);
    }
    assert line[p + |trail|] == stop && line[p] == s[0];
    if trail != [] && n < SHELL_MAXTOK { SkipIs(line, p, p + |trail|); }
  }

  lemma BlanksAt(line: string, p: nat, sep: string)
    requires At(line, p, sep) && AllBlank(sep)
    ensures forall i :: p <= i < p + |sep| ==> Blank(line[i])
  {
    forall i | p <= i < p + |sep|
      ensures Blank(line[i])
    {
      AtElem(line, p, sep, i - p);
    }
  }

  lemma LexStep(line: string, p: nat, q: nat, n: nat)
    requires Line(line) && p <= q < |line| && !Stop(line[p]) && !Stop(line[q]) && SkipBlanks(line, p) == q
    ensures var r := NextToken(line, q);
            Lex(line, p, n) ==
              if n >= SHELL_MAXTOK || r.None? then None else Cons(r.value.0, Lex(line, r.value.1, n + 1))
  {
    hide SkipBlanks, NextToken, Cons;
  }

  /** One step of lexing over blanks and a printed item. */
  lemma LexItem(line: string, p: nat, sep: string, i: Item, n: nat)
    requires Line(line) && AllBlank(sep) && Printable(i) && At(line, p, sep) && At(line, p + |sep|, Print(i))
    requires var e := p + |sep| + |Print(i)|; e < |line| && (i.Plain? ==> Special(line[e]))
    ensures p < |line|
    ensures Lex(line, p, n) ==
              if n >= SHELL_MAXTOK || (i.Plain? && Refused(line[p + |sep| + |Print(i)|])) then None
              else Cons(TokenOf(i), Lex(line, p + |sep| + |Print(i)|, n + 1))
  {
    hide Lex, NextToken, Print, At, Line, SkipBlanks, Cons, TokenOf, Printable, Refused;
    var q := p + |sep|;
    PrintNonEmpty(i);
    ReadItem(line, q, i);
    BlanksAt(line, p, sep);
    SkipIs(line, p, q);
    assert !Stop(line[p]);
    hide Blank, Stop, AllBlank;
    LexStep(line, p, q, n);
  }

  lemma TokensUnfold(items: seq<Item>)
    requires items != []
    ensures TokensOf(items) == [TokenOf(items[0])] + TokensOf(items[1..])
  {
  }

  lemma GoodTail(seps: seq<string>, items: seq<Item>, trail: string, stop: char)
    requires GoodText(seps, items, trail, stop) && items != []
    ensures GoodText(seps[1..], items[1..], trail, stop)
    ensures |seps| == |items| && AllBlank(seps[0]) && Printable(items[0])
  {
    forall i | 0 <= i < |items| - 1
      ensures Abuts(seps[1..], items[1..], i) ==> !items[1..][i].Plain?
    {
      if Abuts(seps[1..], items[1..], i) { assert Abuts(seps, items, i + 1); }
    }
  }

  /** Lexing over the first of the printed items. */
  lemma LexFirst(line: string, p: nat, seps: seq<string>, items: seq<Item>, trail: string, stop: char, n: nat)
    requires Line(line) && GoodText(seps, items, trail, stop) && items != []
    requires At(line, p, Rest(seps, items, trail, stop))
    ensures var e := p + |seps[0]| + |Print(items[0])|;
            && p < |line| && e < |line| && |seps[1..]| == |items[1..]|
            && At(line, e, Rest(seps[1..], items[1..], trail, stop))
            && Lex(line, p, n) ==
                 if n >= SHELL_MAXTOK || Broken(seps, items) then None
                 else Cons(TokenOf(items[0]), Lex(line, e, n + 1))
  {
    hide Rest, GoodText, Lex, TokensOf, At, Line, Print, Printable, AllBlank, TokenOf, Special, Refused;
    GoodTail(seps, items, trail, stop);
    RestUnfold(seps, items, trail, stop);
    RestHead(seps[1..], items[1..], trail, stop);
    if items[0].Plain? { BrokenHead(seps, items, trail, stop); }
    var rest := Rest(seps[1..], items[1..], trail, stop);
    var i := items[0];
    AtSplit(line, p, seps[0], Print(i) + rest);
    AtSplit(line, p + |seps[0]|, Print(i), rest);
    AtElem(line, p + |seps[0]| + |Print(i)|, rest, 0);
    LexItem(line, p, seps[0], i, n);
  }

  lemma RestNone(trail: string, stop: char)
    ensures Rest([], [], trail, stop) == trail + [stop]
  {
    assert Join([], []) + trail == trail;
  }

  lemma FitsNext(n: nat, k: nat, trail: string)
    ensures Fits(n, k + 1, trail) == Fits(n + 1, k, trail) && (n >= SHELL_MAXTOK ==> !Fits(n, k + 1, trail))
  {
  }

  /** What lexing has to give where printed items stand. */
  ghost function Expected(seps: seq<string>, items: seq<Item>, trail: string, n: nat): Option<seq<Token>>
    requires |seps| == |items|
  {
    if Fits(n, |items|, trail) && Spaced(seps, items) then Some(TokensOf(items)) else None
  }

  lemma ExpectedNone(trail: string, n: nat)
    ensures Expected([], [], trail, n) == if Fits(n, 0, trail) then Some([]) else None
  {
    assert TokensOf([]) == [];
  }

  lemma SpacedFirst(seps: seq<string>, items: seq<Item>)
    requires |seps| == |items| && items != []
    ensures Spaced(seps, items) <==> !Broken(seps, items) && Spaced(seps[1..], items[1..])
  {
    if !Broken(seps, items) && Spaced(seps[1..], items[1..]) {
      forall i | 0 <= i < |items| && Abuts(seps, items, i)
        ensures items[i] == Operator('&')
      {
        if i > 1 { assert Abuts(seps[1..], items[1..], i - 1); }
      }
    }
    if Spaced(seps, items) {
      forall i | 0 <= i < |items| - 1 && Abuts(seps[1..], items[1..], i)
        ensures items[1..][i] == Operator('&')
      {
        assert Abuts(seps, items, i + 1);
      }
    }
  }

  lemma ExpectedFirst(seps: seq<string>, items: seq<Item>, trail: string, n: nat)
    requires |seps| == |items| && items != []
    ensures Expected(seps, items, trail, n) ==
              if n >= SHELL_MAXTOK || Broken(seps, items) then None
              else Cons(TokenOf(items[0]), Expected(seps[1..], items[1..], trail, n + 1))
  {
    TokensUnfold(items);
    FitsNext(n, |items| - 1, trail);
    SpacedFirst(seps, items);
    hide TokensOf, Fits, TokenOf, Spaced, Broken;
  }

  /** Lexing from a position where printed items stand. */
  lemma {:induction false} LexJoin(line: string, p: nat, seps: seq<string>, items: seq<Item>, trail: string,
                                   stop: char, n: nat)
    requires Line(line) && GoodText(seps, items, trail, stop) && At(line, p, Rest(seps, items, trail, stop))
    requires n <= SHELL_MAXTOK
    ensures p < |line| && Lex(line, p, n) == Expected(seps, items, trail, n)
    decreases |items|
  {
    hide Lex, Rest, Line, Print, At, TokenOf, Printable, AllBlank, Expected, Fits, Cons, Broken;
    if items == [] {
      assert seps == [];
      RestNone(trail, stop);
      ExpectedNone(trail, n);
      LexTrail(line, p, trail, stop, n);
    } else {
      hide GoodText;
      GoodTail(seps, items, trail, stop);
      LexFirst(line, p, seps, items, trail, stop, n);
      ExpectedFirst(seps, items, trail, n);
      if n < SHELL_MAXTOK {
        LexJoin(line, p + |seps[0]| + |Print(items[0])|, seps[1..], items[1..], trail, stop, n + 1);
      }
    }
  }

  /** Printed items, with blanks between them or without, are lexed back exactly when there are at
      most 32, no blanks behind the 32nd, and nothing but an ampersand directly behind a plain
      word; in every other case the line is refused. */
  lemma LexPrinted(line: string, seps: seq<string>, items: seq<Item>, trail: string, stop: char)
    requires GoodText(seps, items, trail, stop) && line == Rest(seps, items, trail, stop)
    ensures Line(line)
    ensures Lex(line, 0, 0) ==
              if Fits(0, |items|, trail) && Spaced(seps, items) then Some(TokensOf(items)) else None
  {
    assert At(line, 0, line);
    LexJoin(line, 0, seps, items, trail, stop, 0);
  }

  // ---- only printed items are accepted ---------------------------------------------

  /** The item that reads as the token from `p` to `e`. */
  function ItemAt(line: string, p: nat, e: nat): Item
    requires p < e <= |line| && (Quote(line[p]) ==> p + 1 < e)
  {
    var c := line[p];
    if Symbol(c) then Operator(c)
    else if Quote(c) then Quoted(c, line[p + 1..e - 1])
    else Plain(line[p..e])
  }

  lemma QuotedItem(line: string, p: nat, e: nat)
    requires p + 1 < e <= |line| && Quote(line[p]) && line[e - 1] == line[p]
    requires forall i :: p + 1 <= i < e - 1 ==> !EndsString(line[i], line[p])
    ensures var i := Quoted(line[p], line[p + 1..e - 1]); Printable(i) && At(line, p, Print(i))
  {
    var q, text := line[p], line[p + 1..e - 1];
    assert forall k :: 0 <= k < |text| ==> text[k] == line[p + 1 + k];
    assert [q] + text + [q] == line[p..e];
  }

  lemma PlainItem(line: string, p: nat, e: nat)
    requires p < e <= |line| && forall i :: p <= i < e ==> !Special(line[i])
    ensures Printable(Plain(line[p..e])) && At(line, p, line[p..e])
  {
    var text := line[p..e];
    assert forall k :: 0 <= k < |text| ==> text[k] == line[p + k];
  }

  lemma TokenItem(line: string, p: nat)
    requires Line(line) && p < |line| && !Stop(line[p]) && !Blank(line[p]) && NextToken(line, p).Some?
    ensures var (t, e) := NextToken(line, p).value;
            && (Quote(line[p]) ==> p + 1 < e)
            && Printable(ItemAt(line, p, e)) && TokenOf(ItemAt(line, p, e)) == t
            && At(line, p, Print(ItemAt(line, p, e)))
            && (ItemAt(line, p, e).Plain? ==> Special(line[e]) && !Refused(line[e]))
  {
    var c, e := line[p], NextToken(line, p).value.1;
    if Quote(c) {
      QuotedItem(line, p, e);
      hide At, Printable;
    } else if !Symbol(c) {
      PlainItem(line, p, e);
      hide At, Printable;
    }
  }

  lemma AtJoin(line: string, p: nat, a: string, b: string)
    requires At(line, p, a) && At(line, p + |a|, b)
    ensures At(line, p, a + b)
  {
    assert line[p..p + |a + b|] == line[p..p + |a|] + line[p + |a|..p + |a| + |b|];
  }

  /** The line from `p` on, up to a terminator, is printed items that the lexer accepts. */
  ghost predicate Reads(line: string, p: nat, seps: seq<string>, items: seq<Item>, trail: string, stop: char, n: nat) {
    && GoodText(seps, items, trail, stop) && At(line, p, Rest(seps, items, trail, stop))
    && Fits(n, |items|, trail) && Spaced(seps, items)
  }

  /** What stands behind an item that was read, if it is a plain word: nothing but an ampersand. */
  lemma NextItem(line: string, e: nat, i: Item, seps: seq<string>, items: seq<Item>, trail: string, stop: char)
    requires GoodText(seps, items, trail, stop) && At(line, e, Rest(seps, items, trail, stop))
    requires e < |line| && (i.Plain? ==> Special(line[e]) && !Refused(line[e]))
    ensures i.Plain? && items != [] && seps[0] == [] ==> items[0] == Operator('&')
  {
    var rest := Rest(seps, items, trail, stop);
    RestHead(seps, items, trail, stop);
    AtElem(line, e, rest, 0);
    assert items != [] ==> Printable(items[0]);
    hide Rest, Print, At, Printable, GoodText, Special, Refused;
    if i.Plain? && items != [] && seps[0] == [] { BehindWord(items[0], line[e]); }
  }

  /** The text with the item in front of it stands in the line. */
  lemma AtCons(line: string, p: nat, sep: string, i: Item, seps: seq<string>, items: seq<Item>, trail: string,
               stop: char)
    requires |seps| == |items| && At(line, p, sep) && At(line, p + |sep|, Print(i))
    requires At(line, p + |sep| + |Print(i)|, Rest(seps, items, trail, stop))
    ensures At(line, p, Rest([sep] + seps, [i] + items, trail, stop))
  {
    hide Rest, Print, At;
    var ss, all := [sep] + seps, [i] + items;
    assert ss[1..] == seps && all[1..] == items;
    RestUnfold(ss, all, trail, stop);
    AtJoin(line, p + |sep|, Print(i), Rest(seps, items, trail, stop));
    AtJoin(line, p, sep, Print(i) + Rest(seps, items, trail, stop));
  }

  lemma SpacedCons(sep: string, i: Item, seps: seq<string>, items: seq<Item>)
    requires |seps| == |items| && Spaced(seps, items)
    requires i.Plain? && items != [] && seps[0] == [] ==> items[0] == Operator('&')
    ensures Spaced([sep] + seps, [i] + items)
  {
    var ss, all := [sep] + seps, [i] + items;
    assert ss[1..] == seps && all[1..] == items;
    SpacedFirst(ss, all);
    hide Spaced;
  }

  /** Putting an item in front. */
  lemma ReadsCons(line: string, p: nat, sep: string, i: Item, seps: seq<string>, items: seq<Item>, trail: string,
                  stop: char, n: nat)
    requires AllBlank(sep) && Printable(i) && At(line, p, sep) && At(line, p + |sep|, Print(i))
    requires var e := p + |sep| + |Print(i)|;
             && e < |line| && (i.Plain? ==> Special(line[e]) && !Refused(line[e]))
             && Reads(line, e, seps, items, trail, stop, n + 1)
    ensures Reads(line, p, [sep] + seps, [i] + items, trail, stop, n)
  {
    hide Rest, Print, At, Printable, AllBlank, GoodText, Spaced, Special, Refused, Fits, Reads;
    ReadsParts(line, p + |sep| + |Print(i)|, seps, items, trail, stop, n + 1);
    NextItem(line, p + |sep| + |Print(i)|, i, seps, items, trail, stop);
    AtCons(line, p, sep, i, seps, items, trail, stop);
    GoodCons(sep, i, seps, items, trail, stop);
    SpacedCons(sep, i, seps, items);
    FitsNext(n, |items|, trail);
    ReadsWhole(line, p, [sep] + seps, [i] + items, trail, stop, n);
  }

  lemma ReadsParts(line: string, p: nat, seps: seq<string>, items: seq<Item>, trail: string, stop: char, n: nat)
    requires Reads(line, p, seps, items, trail, stop, n)
    ensures GoodText(seps, items, trail, stop) && |seps| == |items| && At(line, p, Rest(seps, items, trail, stop))
    ensures Fits(n, |items|, trail) && Spaced(seps, items)
  {
    hide At, Rest, Fits, Spaced;
  }

  lemma ReadsWhole(line: string, p: nat, seps: seq<string>, items: seq<Item>, trail: string, stop: char, n: nat)
    requires GoodText(seps, items, trail, stop) && |seps| == |items| && At(line, p, Rest(seps, items, trail, stop))
    requires Fits(n, |items|, trail) && Spaced(seps, items)
    ensures Reads(line, p, seps, items, trail, stop, n)
  {
    hide GoodText, At, Rest, Fits, Spaced;
  }

  lemma BehindWord(i: Item, c: char)
    requires Printable(i) && Print(i) != [] && Print(i)[0] == c && Special(c) && !Refused(c)
    ensures i == Operator('&')
  {
  }

  lemma GoodCons(sep: string, i: Item, seps: seq<string>, items: seq<Item>, trail: string, stop: char)
    requires GoodText(seps, items, trail, stop) && AllBlank(sep) && Printable(i)
    requires i.Plain? && items != [] && seps[0] == [] ==> !items[0].Plain?
    ensures GoodText([sep] + seps, [i] + items, trail, stop)
  {
    var ss, all := [sep] + seps, [i] + items;
    forall j | 0 <= j < |all|
      ensures AllBlank(ss[j]) && Printable(all[j]) && (Abuts(ss, all, j) ==> !all[j].Plain?)
    {
      if j > 0 {
        assert ss[j] == seps[j - 1] && all[j] == items[j - 1];
        if j > 1 { assert Abuts(ss, all, j) == Abuts(seps, items, j - 1); }
      }
    }
  }

  lemma ReadsEnd(line: string, p: nat, q: nat, n: nat)
    requires Line(line) && p <= q < |line| && Stop(line[q]) && AllBlank(line[p..q])
    requires n < SHELL_MAXTOK || (n == SHELL_MAXTOK && p == q)
    ensures Reads(line, p, [], [], line[p..q], line[q], n)
  {
    RestNone(line[p..q], line[q]);
    assert line[p..q] + [line[q]] == line[p..q + 1];
  }

  lemma {:induction false} Accepted(line: string, p: nat, n: nat)
    returns (seps: seq<string>, items: seq<Item>, trail: string, stop: char)
    requires Line(line) && p < |line| && n <= SHELL_MAXTOK && Lex(line, p, n).Some?
    ensures Reads(line, p, seps, items, trail, stop, n)
    decreases |line| - p
  {
    hide NextToken, SkipBlanks, Reads, Printable, Print, TokenOf, At;
    if Stop(line[p]) {
      seps, items, trail, stop := [], [], line[p..p], line[p];
      ReadsEnd(line, p, p, n);
    } else {
      var q := SkipBlanks(line, p);
      assert AllBlank(line[p..q]);
      if Stop(line[q]) {
        seps, items, trail, stop := [], [], line[p..q], line[q];
        ReadsEnd(line, p, q, n);
      } else {
        TokenItem(line, q);
        var e := NextToken(line, q).value.1;
        var i := ItemAt(line, q, e);
        seps, items, trail, stop := Accepted(line, e, n + 1);
        AtSlice(line, p, q);
        ItemSize(line, q);
        ReadsCons(line, p, line[p..q], i, seps, items, trail, stop, n);
        seps, items := [line[p..q]] + seps, [i] + items;
      }
    }
  }

  lemma AtSlice(line: string, p: nat, q: nat)
    requires p <= q <= |line|
    ensures At(line, p, line[p..q]) && p + |line[p..q]| == q
  {
  }

  lemma ItemSize(line: string, p: nat)
    requires Line(line) && p < |line| && !Stop(line[p]) && !Blank(line[p]) && NextToken(line, p).Some?
    ensures var e := NextToken(line, p).value.1; (Quote(line[p]) ==> p + 1 < e) && |Print(ItemAt(line, p, e))| == e - p
  {
  }

  /** The lexer in full: the tokens of a line are `ts` if and only if the line, up to a terminator,
      is the print of items with these tokens, at most 32 of them, without blanks behind the 32nd
      and with nothing but an ampersand directly behind a plain word.  Every other line is refused. */
  lemma LexExactly(line: string, ts: seq<Token>)
    requires Line(line)
    ensures Lex(line, 0, 0) == Some(ts) <==>
              exists seps, items, trail, stop :: Reads(line, 0, seps, items, trail, stop, 0) && TokensOf(items) == ts
  {
    if Lex(line, 0, 0).Some? {
      var seps, items, trail, stop := Accepted(line, 0, 0);
      LexJoin(line, 0, seps, items, trail, stop, 0);
    }
    forall seps, items, trail, stop | Reads(line, 0, seps, items, trail, stop, 0)
      ensures Lex(line, 0, 0) == Some(TokensOf(items))
    {
      LexJoin(line, 0, seps, items, trail, stop, 0);
    }
    hide Lex, GoodText, Rest, Spaced, Fits;
  }

  // ---- every result can be printed -------------------------------------------------

  /** A token the lexer may return. */
  predicate Lexical(t: Token) {
    if t.kind == OTHER then exists q :: Printable(Quoted(q, t.text))
    else t.kind in {AMPER, LESS, GREATER} && t.text == [SymbolOf(t.kind)]
  }

  function SymbolOf(kind: int): char { if kind == AMPER then '&' else if kind == LESS then '<' else '>' }

  function Requote(t: Token): Item {
    if t.kind != OTHER then Operator(SymbolOf(t.kind))
    else if '\'' in t.text then Quoted('"', t.text) else Quoted('\'', t.text)
  }

  lemma RequoteIs(t: Token)
    requires Lexical(t)
    ensures Printable(Requote(t)) && TokenOf(Requote(t)) == t
  {
    if t.kind == OTHER {
      var q :| Printable(Quoted(q, t.text));
      assert q == '\'' || q == '"';
      assert forall k :: 0 <= k < |t.text| ==> !EndsString(t.text[k], q);
    }
  }

  lemma TokenLexical(line: string, p: nat)
    requires Line(line) && p < |line| && !Stop(line[p]) && !Blank(line[p]) && NextToken(line, p).Some?
    ensures Lexical(NextToken(line, p).value.0)
  {
    var c, t := line[p], NextToken(line, p).value.0;
    if Quote(c) {
      assert Printable(Quoted(c, t.text));
    } else if !Symbol(c) {
      assert Printable(Quoted('\'', t.text));
    }
  }

  lemma {:induction false} LexLexical(line: string, p: nat, n: nat)
    requires Line(line) && p < |line| && n <= SHELL_MAXTOK && Lex(line, p, n).Some?
    ensures var ts := Lex(line, p, n).value;
            n + |ts| <= SHELL_MAXTOK && forall i :: 0 <= i < |ts| ==> Lexical(ts[i])
    decreases |line| - p
  {
    hide NextToken, SkipBlanks, Lexical;
    if !Stop(line[p]) {
      var q := SkipBlanks(line, p);
      if !Stop(line[q]) {
        TokenLexical(line, q);
        LexLexical(line, NextToken(line, q).value.1, n + 1);
      }
    }
  }

  function Requoted(ts: seq<Token>): seq<Item> { seq(|ts|, i requires 0 <= i < |ts| => Requote(ts[i])) }

  /** Every token list the lexer returns is the reading of a line: its own tokens, requoted,
      behind single blanks. */
  lemma Relex(line: string)
    requires Line(line) && Lex(line, 0, 0).Some?
    ensures var ts := Lex(line, 0, 0).value;
            var again := Rest(seq(|ts|, _ => " "), Requoted(ts), "", '\n');
            Line(again) && Lex(again, 0, 0) == Some(ts)
  {
    LexLexical(line, 0, 0);
    var ts := Lex(line, 0, 0).value;
    hide Lex;
    var items := Requoted(ts);
    forall i | 0 <= i < |ts|
      ensures Printable(items[i]) && TokenOf(items[i]) == ts[i]
    {
      RequoteIs(ts[i]);
    }
    hide Printable, Requote, TokenOf, Rest;
    LexPrinted(Rest(seq(|ts|, _ => " "), items, "", '\n'), seq(|ts|, _ => " "), items, "", '\n');
    assert TokensOf(items) == ts;
  }
}
