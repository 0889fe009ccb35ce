/** The statement lexer of the blast-radius analysis (tokenizeSQL in internal/ledger/impact.go): words,
    quoted identifiers and punctuation of the first statement, without comments. */
module Lexer {
  import opened Text

  /** The Unicode tables the lexer consults. `lower` is unicode.ToLower; two runes are equal under
      strings.EqualFold when `fold` maps them to the same rune. */
  datatype Classes = Classes(space: char -> bool, letter: char -> bool, digit: char -> bool,
                             lower: char -> char, fold: char -> char)

  predicate Word(cls: Classes, c: char) { cls.letter(c) || c == '_' || cls.digit(c) || c == '$' }

  predicate Punctuation(cls: Classes, c: char) { !cls.space(c) && !Word(cls, c) }

  /** What the lexer relies on: a space is white space and no part of a word, and the characters it treats
      specially are neither. */
  predicate Sound(cls: Classes) {
    cls.space(' ') && !Word(cls, ' ') &&
    Punctuation(cls, '"') && Punctuation(cls, ';') && Punctuation(cls, '-') && Punctuation(cls, '/') &&
    Punctuation(cls, '*') && Punctuation(cls, '.') && (forall c :: Word(cls, c) ==> !cls.space(c))
  }

  /** raw is the token as written, val its value as an identifier: unquoted and folded to lower case. */
  datatype Token = Token(raw: string, val: string, quoted: bool, punct: bool)

  /** strings.ToLower. */
  function Lowered(cls: Classes, s: string): (r: string)
    ensures |r| == |s|
  {
    seq(|s|, i requires 0 <= i < |s| => cls.lower(s[i]))
  }

  // ---------------------------------------------------------------- one step

  /** How many characters there are before the end of the line. */
  function LineLen(s: string): (n: nat)
    ensures n <= |s| && (n < |s| ==> s[n] == '\n')
  {
    if s == "" || s[0] == '\n' then 0 else 1 + LineLen(s[1..])
  }

  /** How many characters there are up to and with the end of a block comment; all of them if it never ends. */
  function BlockLen(s: string): (n: nat)
    ensures n <= |s|
  {
    if |s| < 2 then |s| else if s[0] == '*' && s[1] == '/' then 2 else 1 + BlockLen(s[1..])
  }

  /** How many characters there are before the closing quote; all of them if there is none. */
  function QuotedLen(s: string): (n: nat)
    ensures n <= |s| && (n < |s| ==> s[n] == '"')
  {
    if s == "" then 0
    else if s[0] != '"' then 1 + QuotedLen(s[1..])
    else if |s| > 1 && s[1] == '"' then 2 + QuotedLen(s[2..])
    else 0
  }

  /** What those characters say: a doubled quote stands for one. */
  function QuotedVal(s: string): string {
    if s == "" then ""
    else if s[0] != '"' then [s[0]] + QuotedVal(s[1..])
    else if |s| > 1 && s[1] == '"' then ['"'] + QuotedVal(s[2..])
    else ""
  }

  function WordLen(cls: Classes, s: string): (n: nat)
    ensures n <= |s| && (n < |s| ==> !Word(cls, s[n]))
    ensures forall i :: 0 <= i < n ==> Word(cls, s[i])
    ensures s != "" && Word(cls, s[0]) ==> n > 0
  {
    if s == "" || !Word(cls, s[0]) then 0 else 1 + WordLen(cls, s[1..])
  }

  datatype Scan = Skip(n: nat) | Stop | Take(token: Token, n: nat)

  predicate Starts(s: string, a: char, b: char) { |s| > 1 && s[0] == a && s[1] == b }

  /** What the lexer finds at the start of a non-empty text. */
  function First(cls: Classes, s: string): (r: Scan)
    requires s != ""
    ensures !r.Stop? ==> 0 < r.n <= |s|
    ensures r.Take? ==> r.token.raw == s[..r.n]
  {
    if cls.space(s[0]) then Skip(1)
    else if Starts(s, '-', '-') then Skip(2 + LineLen(s[2..]))
    else if Starts(s, '/', '*') then Skip(2 + BlockLen(s[2..]))
    else if s[0] == ';' then Stop
    else if s[0] == '"' then
      var k := QuotedLen(s[1..]);
      var n := if k + 1 < |s| then k + 2 else |s|;
      Take(Token(s[..n], QuotedVal(s[1..]), true, false), n)
    else if Word(cls, s[0]) then
      var n := WordLen(cls, s);
      Take(Token(s[..n], Lowered(cls, s[..n]), false, false), n)
    else Take(Token(s[..1], s[..1], false, true), 1)
  }

  /** The first `max` tokens of the first statement of `s`. */
  function Lex(cls: Classes, s: string, max: nat): (toks: seq<Token>)
    ensures |toks| <= max
    decreases |s|
  {
    if s == "" || max == 0 then []
    else
      match First(cls, s)
      case Stop => []
      case Skip(n) => Lex(cls, s[n..], max)
      case Take(t, n) => [t] + Lex(cls, s[n..], max - 1)
  }

  // ---------------------------------------------------------------- the loops

  lemma QuotedOn(s: string)
    ensures s != "" && s[0] != '"' ==> QuotedLen(s) == 1 + QuotedLen(s[1..]) && QuotedVal(s) == [s[0]] + QuotedVal(s[1..])
    ensures Starts(s, '"', '"') ==> QuotedLen(s) == 2 + QuotedLen(s[2..]) && QuotedVal(s) == ['"'] + QuotedVal(s[2..])
    ensures s == "" || (s[0] == '"' && !Starts(s, '"', '"')) ==> QuotedLen(s) == 0 && QuotedVal(s) == ""
  {
  }

  lemma QuotedAt(rs: string, j: nat)
    requires j <= |rs|
    ensures j == |rs| ==> QuotedLen(rs[j..]) == 0 && QuotedVal(rs[j..]) == ""
    ensures j < |rs| && rs[j] != '"' ==>
              QuotedLen(rs[j..]) == 1 + QuotedLen(rs[j + 1..]) && QuotedVal(rs[j..]) == [rs[j]] + QuotedVal(rs[j + 1..])
    ensures j + 1 < |rs| && rs[j] == '"' && rs[j + 1] == '"' ==>
              QuotedLen(rs[j..]) == 2 + QuotedLen(rs[j + 2..]) && QuotedVal(rs[j..]) == ['"'] + QuotedVal(rs[j + 2..])
    ensures j < |rs| && rs[j] == '"' && !(j + 1 < |rs| && rs[j + 1] == '"') ==>
              QuotedLen(rs[j..]) == 0 && QuotedVal(rs[j..]) == ""
  {
    hide QuotedLen; hide QuotedVal;
    QuotedOn(rs[j..]);
    if j < |rs| {
      assert rs[j..][1..] == rs[j + 1..];
    }
    if j + 1 < |rs| {
      assert rs[j..][2..] == rs[j + 2..];
    }
  }

  /** Advances past a quoted identifier: the position of its closing quote, or the end, and its value. */
  method ScanQuoted(rs: string, i: nat) returns (j: nat, val: string)
    requires i < |rs|
    ensures j == i + 1 + QuotedLen(rs[i + 1..]) && val == QuotedVal(rs[i + 1..])
  {
    hide QuotedLen; hide QuotedVal;
    j, val := i + 1, "";
    while j < |rs|
      invariant i + 1 <= j <= |rs|
      invariant j + QuotedLen(rs[j..]) == i + 1 + QuotedLen(rs[i + 1..])
      invariant val + QuotedVal(rs[j..]) == QuotedVal(rs[i + 1..])
    {
      QuotedAt(rs, j);
      if rs[j] == '"' {
        if j + 1 < |rs| && rs[j + 1] == '"' {
          assert val + (['"'] + QuotedVal(rs[j + 2..])) == val + ['"'] + QuotedVal(rs[j + 2..]);
          val := val + ['"'];
          j := j + 2;
          continue;
        }
        break;
      }
      assert val + ([rs[j]] + QuotedVal(rs[j + 1..])) == val + [rs[j]] + QuotedVal(rs[j + 1..]);
      val := val + [rs[j]];
      j := j + 1;
    }
    QuotedAt(rs, j);
    assert val + "" == val;
  }

  method SkipLine(rs: string, start: nat) returns (i: nat)
    requires start <= |rs|
    ensures i == start + LineLen(rs[start..])
  {
    i := start;
    while i < |rs| && rs[i] != '\n'
      invariant start <= i <= |rs|
      invariant i + LineLen(rs[i..]) == start + LineLen(rs[start..])
    {
      assert rs[i..][1..] == rs[i + 1..];
      i := i + 1;
    }
  }

  method SkipBlock(rs: string, start: nat) returns (i: nat)
    requires start + 2 <= |rs|
    ensures start + 2 <= i
    ensures if i < |rs| then i == start + 2 + BlockLen(rs[start + 2..]) else |rs| == start + 2 + BlockLen(rs[start + 2..])
  {
    i := start + 2;
    while i + 1 < |rs| && !(rs[i] == '*' && rs[i + 1] == '/')
      invariant start + 2 <= i <= |rs|
      invariant i + BlockLen(rs[i..]) == start + 2 + BlockLen(rs[start + 2..])
    {
      assert rs[i..][1..] == rs[i + 1..];
      i := i + 1;
    }
    i := i + 2;
  }

  method ScanWord(cls: Classes, rs: string, i: nat) returns (j: nat)
    requires i <= |rs|
    ensures j == i + WordLen(cls, rs[i..])
  {
    j := i;
    while j < |rs| && (cls.letter(rs[j]) || cls.digit(rs[j]) || rs[j] == '_' || rs[j] == '$')
      invariant i <= j <= |rs|
      invariant j + WordLen(cls, rs[j..]) == i + WordLen(cls, rs[i..])
    {
      assert rs[j..][1..] == rs[j + 1..];
      j := j + 1;
    }
  }

  /** What starts at position `i`. */
  method ScanAt(cls: Classes, rs: string, i: nat) returns (r: Scan)
    requires Sound(cls) && i < |rs|
    ensures r == First(cls, rs[i..])
  {
    hide QuotedLen; hide QuotedVal; hide LineLen; hide BlockLen; hide WordLen; hide Lowered;
    var c := rs[i];
    ghost var rest := rs[i..];
    assert rest[1..] == rs[i + 1..];
    if cls.space(c) {
      r := Skip(1);
    } else if c == '-' && i + 1 < |rs| && rs[i + 1] == '-' {
      assert rest[2..] == rs[i + 2..];
      TwoMore(rest);
      var end := SkipLine(rs, i);
      r := Skip(end - i);
    } else if c == '/' && i + 1 < |rs| && rs[i + 1] == '*' {
      assert rest[2..] == rs[i + 2..];
      var end := SkipBlock(rs, i);
      r := Skip(if end < |rs| then end - i else |rs| - i);
    } else if c == ';' {
      r := Stop;
    } else if c == '"' {
      var j, val := ScanQuoted(rs, i);
      var end := j + 1;
      if end > |rs| {
        end := |rs|;
      }
      assert rs[i..end] == rest[..end - i];
      r := Take(Token(rs[i..end], val, true, false), end - i);
    } else if cls.letter(c) || c == '_' || cls.digit(c) || c == '$' {
      var j := ScanWord(cls, rs, i);
      assert rs[i..j] == rest[..j - i];
      r := Take(Token(rs[i..j], Lowered(cls, rs[i..j]), false, false), j - i);
    } else {
      assert [c] == rest[..1];
      r := Take(Token([c], [c], false, true), 1);
    }
  }

  /** tokenizeSQL. */
  method Tokenize(cls: Classes, rs: string, max: nat) returns (toks: seq<Token>)
    requires Sound(cls)
    ensures toks == Lex(cls, rs, max)
  {
    hide First; hide Sound;
    toks := [];
    var i := 0;
    assert rs[0..] == rs;
    while i < |rs| && |toks| < max
      invariant i <= |rs| && |toks| <= max
      invariant toks + Lex(cls, rs[i..], max - |toks|) == Lex(cls, rs, max)
      decreases |rs| - i
    {
      var r := ScanAt(cls, rs, i);
      assert !r.Stop? ==> rs[i..][r.n..] == rs[i + r.n..];
      if r.Skip? {
        i := i + r.n;
      } else if r.Stop? {
        break;
      } else {
        Snoc(toks, r.token, Lex(cls, rs[i + r.n..], max - |toks| - 1));
        toks := toks + [r.token];
        i := i + r.n;
      }
    }
    assert toks + [] == toks;
  }

  lemma Snoc(a: seq<Token>, t: Token, b: seq<Token>)
    ensures a + ([t] + b) == (a + [t]) + b
  {
  }

  lemma TwoMore(s: string)
    requires Starts(s, '-', '-')
    ensures LineLen(s) == 2 + LineLen(s[2..])
  {
    assert s[1..][1..] == s[2..];
  }

  // ---------------------------------------------------------------- reading a token again

  function Raws(toks: seq<Token>): (raws: seq<string>)
    ensures |raws| == |toks|
  {
    seq(|toks|, i requires 0 <= i < |toks| => toks[i].raw)
  }

  /** The tokens as written, with one space between them. */
  function Spaced(toks: seq<Token>): string { Join(Raws(toks), ' ') }

  /** A quoted token has its closing quote. */
  predicate Closed(t: Token) { t.quoted ==> |t.raw| > 0 && 1 + QuotedLen(t.raw[1..]) < |t.raw| }

  /** `rest` does not run into the token before it. */
  predicate Apart(cls: Classes, t: Token, rest: string) {
    rest == "" ||
    (Closed(t) &&
     if t.quoted then rest[0] != '"'
     else if t.punct then !Starts(t.raw + rest, '-', '-') && !Starts(t.raw + rest, '/', '*')
     else !Word(cls, rest[0]))
  }

  lemma DropOfPrefix(s: string, k: nat, d: nat, rest: string)
    requires d <= k <= |s|
    ensures (s[..k] + rest)[d..] == s[d..][..k - d] + rest
  {
  }

  /** Up to its closing quote, a quoted text reads the same whatever follows. */
  lemma {:induction false} QuotedAgain(s: string, rest: string)
    requires QuotedLen(s) < |s| && (rest == "" || rest[0] != '"')
    ensures var k := QuotedLen(s);
            QuotedLen(s[..k + 1] + rest) == k && QuotedVal(s[..k + 1] + rest) == QuotedVal(s)
  {
    hide QuotedLen; hide QuotedVal;
    var k := QuotedLen(s);
    var t := s[..k + 1] + rest;
    QuotedOn(s);
    QuotedOn(t);
    if s[0] != '"' {
      QuotedAgain(s[1..], rest);
      DropOfPrefix(s, k + 1, 1, rest);
    } else if |s| > 1 && s[1] == '"' {
      QuotedAgain(s[2..], rest);
      DropOfPrefix(s, k + 1, 2, rest);
    }
  }

  /** So does a word up to its end. */
  lemma {:induction false} WordAgain(cls: Classes, s: string, rest: string)
    requires rest == "" || !Word(cls, rest[0])
    ensures WordLen(cls, s[..WordLen(cls, s)] + rest) == WordLen(cls, s)
  {
    var n := WordLen(cls, s);
    if n > 0 {
      WordAgain(cls, s[1..], rest);
      DropOfPrefix(s, n, 1, rest);
    }
  }

  lemma TakenIsClosed(cls: Classes, s: string)
    requires s != "" && First(cls, s).Take? && First(cls, s).n < |s|
    ensures Closed(First(cls, s).token)
  {
    if s[0] == '"' && First(cls, s).token.quoted {
      var k := QuotedLen(s[1..]);
      var raw := First(cls, s).token.raw;
      QuotedAgain(s[1..], "");
      assert raw + "" == raw;
      DropOfPrefix(s, k + 2, 1, "");
    }
  }

  /** A token is found again at the start of any text it is kept apart from. */
  lemma FirstAgain(cls: Classes, s: string, rest: string)
    requires Sound(cls) && s != "" && First(cls, s).Take? && Apart(cls, First(cls, s).token, rest)
    ensures First(cls, First(cls, s).token.raw + rest) == First(cls, s)
  {
    var n := First(cls, s).n;
    var t := s[..n] + rest;
    assert t[0] == s[0] && t[..n] == s[..n];
    if s[0] == '"' {
      QuotedFirstAgain(cls, s, rest);
    } else if Word(cls, s[0]) {
      WordAgain(cls, s, rest);
    } else if rest == "" {
      assert |t| == 1;
    }
  }

  lemma QuotedFirstAgain(cls: Classes, s: string, rest: string)
    requires Sound(cls) && s != "" && s[0] == '"' && Apart(cls, First(cls, s).token, rest)
    ensures First(cls, First(cls, s).token.raw + rest) == First(cls, s)
  {
    hide WordLen; hide LineLen; hide BlockLen; hide Lowered; hide QuotedLen; hide QuotedVal;
    var k := QuotedLen(s[1..]);
    var n := First(cls, s).n;
    var t := s[..n] + rest;
    if k + 1 < |s| {
      QuotedAgain(s[1..], rest);
      DropOfPrefix(s, n, 1, rest);
      assert t[..n] == s[..n];
    } else {
      assert rest == "" by {
        assert s[..n][1..] == s[1..];
      }
      assert t == s;
    }
  }

  lemma SpacedCons(t: Token, tail: seq<Token>)
    ensures Spaced([t]) == t.raw
    ensures tail != [] ==> Spaced([t] + tail) == t.raw + (" " + Spaced(tail))
  {
    assert Raws([t]) == [t.raw];
    if tail != [] {
      var all := Raws([t] + tail);
      assert all[1..] == Raws(tail);
      assert t.raw + [' '] + Spaced(tail) == t.raw + (" " + Spaced(tail));
    }
  }

  lemma LexSpace(cls: Classes, s: string, max: nat)
    requires Sound(cls)
    ensures Lex(cls, " " + s, max) == Lex(cls, s, max)
  {
    assert (" " + s)[1..] == s;
  }

  /** The token `t` at the start of a text, then the rest. */
  lemma LexCons(cls: Classes, t: Token, rest: string, max: nat)
    requires max > 0 && t.raw != "" && First(cls, t.raw + rest) == Take(t, |t.raw|)
    ensures Lex(cls, t.raw + rest, max) == [t] + Lex(cls, rest, max - 1)
  {
    assert (t.raw + rest)[|t.raw|..] == rest;
  }

  /** Normal form: lexing the tokens of a statement, written with single spaces between them, gives the
      same tokens. */
  lemma {:induction false} LexNormalForm(cls: Classes, s: string, max: nat)
    requires Sound(cls)
    ensures Lex(cls, Spaced(Lex(cls, s, max)), max) == Lex(cls, s, max)
    decreases |s|
  {
    hide First; hide Apart; hide Spaced;
    if s == "" || max == 0 || First(cls, s).Stop? {
      NoTokens(cls, max);
    } else if First(cls, s).Skip? {
      LexNormalForm(cls, s[First(cls, s).n..], max);
    } else {
      var t, rest := First(cls, s).token, s[First(cls, s).n..];
      var tail := Lex(cls, rest, max - 1);
      LexNormalForm(cls, rest, max - 1);
      SpacedCons(t, tail);
      if tail == [] {
        assert [t] + tail == [t];
        ApartFromNothing(cls, t);
        FirstAgain(cls, s, "");
        LexCons(cls, t, "", max);
        assert t.raw + "" == t.raw;
      } else {
        var after := " " + Spaced(tail);
        TakenIsClosed(cls, s);
        ApartFromSpace(cls, s, Spaced(tail));
        FirstAgain(cls, s, after);
        LexCons(cls, t, after, max);
        LexSpace(cls, Spaced(tail), max - 1);
      }
    }
  }

  lemma NoTokens(cls: Classes, max: nat)
    ensures Spaced([]) == "" && Lex(cls, "", max) == []
  {
  }

  lemma ApartFromNothing(cls: Classes, t: Token)
    ensures Apart(cls, t, "")
  {
  }

  lemma ApartFromSpace(cls: Classes, s: string, rest: string)
    requires Sound(cls) && s != "" && First(cls, s).Take? && Closed(First(cls, s).token)
    ensures Apart(cls, First(cls, s).token, " " + rest)
  {
    hide QuotedLen;
    assert (" " + rest)[0] == ' ';
  }

  // ---------------------------------------------------------------- what is left out

  predicate LineComment(p: string) { Starts(p, '-', '-') && '\n' !in p }

  predicate EndsAt(s: string, k: nat) { k + 1 < |s| && s[k] == '*' && s[k + 1] == '/' }

  /** A block comment up to its first end. */
  predicate BlockComment(p: string) {
    |p| >= 4 && Starts(p, '/', '*') && EndsAt(p, |p| - 2) && forall k :: 2 <= k < |p| - 2 ==> !EndsAt(p, k)
  }

  predicate OpenComment(p: string) { Starts(p, '/', '*') && forall k :: 2 <= k < |p| ==> !EndsAt(p, k) }

  predicate BlankPiece(cls: Classes, p: string) {
    (|p| == 1 && cls.space(p[0])) || LineComment(p) || BlockComment(p)
  }

  /** White space and whole comments only. */
  ghost predicate Blank(cls: Classes, g: string)
    decreases |g|
  {
    g == "" || exists n :: 0 < n <= |g| && BlankPiece(cls, g[..n]) && Blank(cls, g[n..])
  }

  lemma BlankMore(cls: Classes, p: string, g: string)
    requires p != "" && BlankPiece(cls, p) && Blank(cls, g)
    ensures Blank(cls, p + g)
  {
    assert (p + g)[..|p|] == p && (p + g)[|p|..] == g;
  }

  /** White space and comments up to a semicolon or the end; a last comment may be unfinished. */
  ghost predicate BlankTail(cls: Classes, s: string) {
    exists n :: 0 <= n <= |s| && Blank(cls, s[..n]) && (n == |s| || s[n] == ';' || OpenComment(s[n..]))
  }

  lemma BlankTailMore(cls: Classes, p: string, s: string)
    requires p != "" && BlankPiece(cls, p) && BlankTail(cls, s)
    ensures BlankTail(cls, p + s)
  {
    var n :| 0 <= n <= |s| && Blank(cls, s[..n]) && (n == |s| || s[n] == ';' || OpenComment(s[n..]));
    BlankMore(cls, p, s[..n]);
    var t := p + s;
    assert t[..|p| + n] == p + s[..n] && t[|p| + n..] == s[n..];
  }

  lemma {:induction false} BlockLenIsFirstEnd(s: string)
    ensures var n := BlockLen(s);
            (n < |s| || (n >= 2 && EndsAt(s, n - 2)) ==> n >= 2 && EndsAt(s, n - 2)) &&
            forall k :: 0 <= k < |s| && k + 2 < n ==> !EndsAt(s, k)
    ensures forall k :: 0 <= k < |s| && EndsAt(s, k) ==> BlockLen(s) >= 2 && EndsAt(s, BlockLen(s) - 2)
  {
    if |s| >= 2 && !EndsAt(s, 0) {
      var t := s[1..];
      BlockLenIsFirstEnd(t);
      assert forall k :: 0 <= k < |t| ==> EndsAt(t, k) == EndsAt(s, k + 1);
      forall k | 0 <= k < |s| && EndsAt(s, k)
        ensures BlockLen(s) >= 2 && EndsAt(s, BlockLen(s) - 2)
      {
        assert EndsAt(t, k - 1);
      }
      forall k | 0 <= k < |s| && k + 2 < BlockLen(s)
        ensures !EndsAt(s, k)
      {
        assert k > 0 ==> EndsAt(t, k - 1) == EndsAt(s, k);
      }
    }
  }

  /** What the lexer skips is blank, except for a comment that never ends. */
  lemma SkippedIsBlank(cls: Classes, s: string)
    requires Sound(cls) && s != "" && First(cls, s).Skip?
    ensures var n := First(cls, s).n;
            BlankPiece(cls, s[..n]) || (n == |s| && OpenComment(s))
  {
    var n := First(cls, s).n;
    var p := s[..n];
    if Starts(s, '-', '-') {
      NoNewline(s[2..]);
      assert p == s[..2] + s[2..][..n - 2];
    } else if Starts(s, '/', '*') {
      var b := s[2..];
      BlockLenIsFirstEnd(b);
      assert forall k :: 0 <= k < |b| ==> EndsAt(b, k) == EndsAt(s, k + 2);
      assert forall k :: 0 <= k < n ==> EndsAt(p, k) == (k + 1 < n && EndsAt(s, k));
      if n >= 4 && EndsAt(s, n - 2) {
        forall k | 2 <= k < n - 2
          ensures !EndsAt(p, k)
        {
          assert EndsAt(b, k - 2) == EndsAt(s, k);
        }
        assert BlockComment(p);
      } else {
        assert n == |s|;
        forall k | 2 <= k < |s|
          ensures !EndsAt(s, k)
        {
          assert EndsAt(b, k - 2) == EndsAt(s, k);
        }
      }
    }
  }

  lemma {:induction false} NoNewline(s: string)
    ensures '\n' !in s[..LineLen(s)]
  {
    if s != "" && s[0] != '\n' {
      NoNewline(s[1..]);
      assert s[..LineLen(s)] == [s[0]] + s[1..][..LineLen(s[1..])];
    }
  }

  /** gaps[0] raws[0] gaps[1] raws[1] ... */
  function Weave(gaps: seq<string>, raws: seq<string>): string
    requires |gaps| == |raws|
  {
    if gaps == [] then "" else gaps[0] + raws[0] + Weave(gaps[1..], raws[1..])
  }

  ghost predicate Covers(cls: Classes, s: string, toks: seq<Token>, gaps: seq<string>, rest: string) {
    |gaps| == |toks| && s == Weave(gaps, Raws(toks)) + rest && forall g :: g in gaps ==> Blank(cls, g)
  }

  lemma CoversNothing(cls: Classes, s: string)
    ensures Covers(cls, s, [], [], s)
  {
  }

  lemma CoversToken(cls: Classes, t: Token, s: string, toks: seq<Token>, gaps: seq<string>, rest: string)
    requires Covers(cls, s, toks, gaps, rest)
    ensures Covers(cls, t.raw + s, [t] + toks, [""] + gaps, rest)
  {
    var g, r := [""] + gaps, Raws([t] + toks);
    assert g[1..] == gaps && r[1..] == Raws(toks) && r[0] == t.raw && g[0] == "";
    assert Weave(g, r) == "" + t.raw + Weave(gaps, Raws(toks));
    assert "" + t.raw == t.raw;
  }

  lemma CoversSkip(cls: Classes, p: string, s: string, toks: seq<Token>, gaps: seq<string>, rest: string)
    requires Covers(cls, s, toks, gaps, rest) && toks != [] && p != "" && BlankPiece(cls, p)
    ensures Covers(cls, p + s, toks, [p + gaps[0]] + gaps[1..], rest)
  {
    hide BlankPiece;
    BlankMore(cls, p, gaps[0]);
    hide Blank;
    var g, r := [p + gaps[0]] + gaps[1..], Raws(toks);
    assert g[1..] == gaps[1..] && g[0] == p + gaps[0];
    assert Weave(g, r) == p + gaps[0] + r[0] + Weave(gaps[1..], r[1..]);
    assert Weave(g, r) == p + (gaps[0] + r[0] + Weave(gaps[1..], r[1..]));
    assert p + Weave(gaps, r) + rest == p + (Weave(gaps, r) + rest);
  }

  /** The raw tokens are consecutive, disjoint pieces of the statement, in order, with nothing but white
      space and comments before each of them; and unless the cap was reached, nothing else follows them
      before the semicolon or the end. */
  lemma {:induction false} LexCoversStatement(cls: Classes, s: string, max: nat) returns (gaps: seq<string>, rest: string)
    requires Sound(cls)
    ensures Covers(cls, s, Lex(cls, s, max), gaps, rest)
    ensures |Lex(cls, s, max)| < max ==> BlankTail(cls, rest)
    decreases |s|
  {
    hide Covers; hide Blank; hide BlankPiece; hide First; hide OpenComment; hide Sound;
    gaps, rest := [], s;
    if s == "" || max == 0 {
      CoversNothing(cls, s);
      if max > 0 {
        NothingLeft(cls, s);
      }
    } else if First(cls, s).Stop? {
      CoversNothing(cls, s);
      SemicolonLeft(cls, s);
    } else {
      var n := First(cls, s).n;
      assert s == s[..n] + s[n..];
      if First(cls, s).Take? {
        gaps, rest := LexCoversStatement(cls, s[n..], max - 1);
        CoversToken(cls, First(cls, s).token, s[n..], Lex(cls, s[n..], max - 1), gaps, rest);
        gaps := [""] + gaps;
      } else {
        SkippedIsBlank(cls, s);
        if BlankPiece(cls, s[..n]) {
          gaps, rest := LexCoversStatement(cls, s[n..], max);
          if Lex(cls, s[n..], max) == [] {
            CoversNothing(cls, s);
            OnlyRest(cls, s[n..], gaps, rest);
            BlankTailMore(cls, s[..n], rest);
            gaps, rest := [], s;
          } else {
            GapsPerToken(cls, s[n..], Lex(cls, s[n..], max), gaps, rest);
            CoversSkip(cls, s[..n], s[n..], Lex(cls, s[n..], max), gaps, rest);
            gaps := [s[..n] + gaps[0]] + gaps[1..];
          }
        } else {
          CoversNothing(cls, s);
          OpenCommentLeft(cls, s);
        }
      }
    }
  }

  lemma GapsPerToken(cls: Classes, s: string, toks: seq<Token>, gaps: seq<string>, rest: string)
    requires Covers(cls, s, toks, gaps, rest)
    ensures |gaps| == |toks|
  {
  }

  lemma OnlyRest(cls: Classes, s: string, gaps: seq<string>, rest: string)
    requires Covers(cls, s, [], gaps, rest)
    ensures s == rest
  {
  }

  lemma NothingLeft(cls: Classes, s: string)
    requires s == ""
    ensures BlankTail(cls, s)
  {
    assert s[..0] == "";
  }

  lemma SemicolonLeft(cls: Classes, s: string)
    requires s != "" && First(cls, s).Stop?
    ensures BlankTail(cls, s)
  {
    assert s[..0] == "" && s[0] == ';';
  }

  lemma OpenCommentLeft(cls: Classes, s: string)
    requires s != "" && OpenComment(s)
    ensures BlankTail(cls, s)
  {
    assert s[..0] == "" && s[0..] == s;
  }

  // ---------------------------------------------------------------- quoted identifiers

  /** strings.ReplaceAll(s, `"`, `""`). */
  function Doubled(s: string): string {
    if s == "" then "" else (if s[0] == '"' then "\"\"" else [s[0]]) + Doubled(s[1..])
  }

  /** pgIdent (internal/branch/import.go). */
  function PgIdent(s: string): string { "\"" + Doubled(s) + "\"" }

  /** The token a printed identifier is. */
  function IdentToken(name: string): Token { Token(PgIdent(name), name, true, false) }

  lemma {:induction false} DoubledReadsBack(s: string, rest: string)
    requires rest == "" || rest[0] != '"'
    ensures var t := Doubled(s) + ("\"" + rest);
            QuotedLen(t) == |Doubled(s)| && QuotedVal(t) == s
  {
    hide QuotedLen; hide QuotedVal;
    var t := Doubled(s) + ("\"" + rest);
    QuotedOn(t);
    if s == "" {
      assert t == "\"" + rest;
    } else {
      DoubledReadsBack(s[1..], rest);
      var u := Doubled(s[1..]) + ("\"" + rest);
      if s[0] == '"' {
        assert t == "\"\"" + u && t[2..] == u;
      } else {
        assert t == [s[0]] + u && t[1..] == u;
      }
      assert s == [s[0]] + s[1..];
    }
  }

  /** A printed identifier is read back whole, whatever it contains. */
  lemma FirstOfPgIdent(cls: Classes, name: string, rest: string)
    requires Sound(cls) && (rest == "" || rest[0] != '"')
    ensures First(cls, PgIdent(name) + rest) == Take(IdentToken(name), |PgIdent(name)|)
  {
    DoubledReadsBack(name, rest);
    var t := PgIdent(name) + rest;
    assert t[1..] == Doubled(name) + ("\"" + rest);
    assert t[..|PgIdent(name)|] == PgIdent(name);
  }

  /** Quoting round trip: the lexer reads a printed identifier as one quoted token whose value is the name. */
  lemma PgIdentRoundTrip(cls: Classes, name: string, max: nat)
    requires Sound(cls) && max > 0
    ensures Lex(cls, PgIdent(name), max) == [IdentToken(name)]
  {
    FirstOfPgIdent(cls, name, "");
    LexCons(cls, IdentToken(name), "", max);
    assert PgIdent(name) + "" == PgIdent(name);
  }
}
