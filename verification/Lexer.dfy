/**
 * The small SQL lexer, as a function of the text that is left: what it consumes next never depends
 * on the text before, except that a quote right after the word E takes backslash escapes.
 *
 * Positions count characters.  Every character the lexer compares is ASCII, so no multi-byte
 * character is ever split.
 */
module Lexer {
  import opened Names

  datatype Token = Token(start: nat, value: string, quoted: bool, end: nat)

  /** All tokens, or what is wrong and the tokens before it. */
  datatype Lexed = Ok(tokens: seq<Token>) | Err(message: string, preceding: seq<Token>)

  predicate Is(t: Token, word: string) {
    !t.quoted && Same(t.value, word)
  }

  predicate IsSpace(c: char) {
    c == ' ' || c == '\t' || c == '\n' || c == '\r' || c == '\U{0C}'
  }

  predicate IsMark(c: char) {
    c == '(' || c == ')' || c == ';' || c == ',' || c == '.'
  }

  predicate IsTagChar(c: char) {
    'a' <= c <= 'z' || 'A' <= c <= 'Z' || '0' <= c <= '9' || c == '_'
  }

  predicate Begins(r: string, p: string) {
    |p| <= |r| && r[..|p|] == p
  }

  predicate Begins2(r: string, a: char, b: char) {
    |r| >= 2 && r[0] == a && r[1] == b
  }

  // ---------------------------------------------------------------- lengths

  /** A line comment runs up to, not over, the newline. */
  function LineLength(r: string): (n: nat)
    ensures n <= |r|
  {
    if r == "" || r[0] == '\n' then 0 else 1 + LineLength(r[1..])
  }

  /** The rest of a block comment; comments nest. */
  function CommentLength(r: string, depth: nat): (n: Option<nat>)
    requires depth > 0
    ensures n.Some? ==> 0 < n.value <= |r|
    decreases |r|
  {
    if r == "" then None
    else if Begins2(r, '/', '*') then More(2, CommentLength(r[2..], depth + 1))
    else if Begins2(r, '*', '/') then (if depth == 1 then Some(2) else More(2, CommentLength(r[2..], depth - 1)))
    else More(1, CommentLength(r[1..], depth))
  }

  function More(n: nat, rest: Option<nat>): (r: Option<nat>)
    ensures r.Some? ==> rest.Some? && r.value == n + rest.value
  {
    if rest.Some? then Some(n + rest.value) else None
  }

  /** The rest of a quoted token, closing delimiter included; a doubled delimiter stands for itself. */
  function QuoteLength(r: string, delimiter: char, escaped: bool): (n: Option<nat>)
    ensures n.Some? ==> 0 < n.value <= |r|
    decreases |r|
  {
    if r == "" then None
    else if escaped && r[0] == '\\' then (if |r| < 2 then None else More(2, QuoteLength(r[2..], delimiter, escaped)))
    else if r[0] == delimiter then
      if |r| >= 2 && r[1] == delimiter then More(2, QuoteLength(r[2..], delimiter, escaped)) else Some(1)
    else More(1, QuoteLength(r[1..], delimiter, escaped))
  }

  /** Length of `$tag$` at the start of the text: the next dollar sign closes the tag. */
  function TagLength(r: string): (n: Option<nat>)
    requires r != "" && r[0] == '$'
    ensures n.Some? ==> 2 <= n.value <= |r|
  {
    match TagBody(r[1..])
    case Some(k) => Some(k + 2)
    case None => None
  }

  function TagBody(r: string): (n: Option<nat>)
    ensures n.Some? ==> n.value < |r|
  {
    if r == "" then None
    else if r[0] == '$' then Some(0)
    else if IsTagChar(r[0]) then More(1, TagBody(r[1..]))
    else None
  }

  function FindText(r: string, p: string): (n: Option<nat>)
    ensures n.Some? ==> n.value + |p| <= |r|
  {
    if Begins(r, p) then Some(0)
    else if r == "" then None
    else More(1, FindText(r[1..], p))
  }

  predicate EndsWord(r: string)
    requires r != ""
  {
    IsSpace(r[0]) || IsMark(r[0]) || r[0] == '\'' || r[0] == '"' || Begins2(r, '-', '-') || Begins2(r, '/', '*')
  }

  function WordLength(r: string): (n: nat)
    ensures n <= |r|
  {
    if r == "" || EndsWord(r) then 0 else 1 + WordLength(r[1..])
  }

  /** Left to right, each doubled delimiter becomes one. */
  function Undouble(s: string, d: char): string {
    if |s| < 2 then s
    else if s[0] == d && s[1] == d then [d] + Undouble(s[2..], d)
    else [s[0]] + Undouble(s[1..], d)
  }

  // ---------------------------------------------------------------- one lexeme

  datatype Lexeme = Gap(length: nat) | Piece(length: nat, value: string, quoted: bool) | Broken(message: string)

  /** What starts the text: white space, a comment, or a token.  `e` says that the word E ends right here. */
  function Next(r: string, e: bool): (x: Lexeme)
    requires r != ""
    ensures !x.Broken? ==> 0 < x.length <= |r|
  {
    if IsSpace(r[0]) then Gap(1)
    else if Begins2(r, '-', '-') then Gap(2 + LineLength(r[2..]))
    else if Begins2(r, '/', '*') then
      match CommentLength(r[2..], 1)
      case Some(n) => Gap(2 + n)
      case None => Broken("Unclosed SQL comment")
    else if r[0] == '\'' || r[0] == '"' then
      match QuoteLength(r[1..], r[0], e && r[0] == '\'')
      case Some(n) => Piece(1 + n, Undouble(r[1..n], r[0]), true)
      case None => Broken("Unclosed SQL quote")
    else if r[0] == '$' && TagLength(r).Some? then
      var tag := TagLength(r).value;
      match FindText(r[tag..], r[..tag])
      case Some(n) => Piece(tag + n + tag, r[..tag + n + tag], true)
      case None => Broken("Unclosed dollar quote")
    else if IsMark(r[0]) then Piece(1, r[..1], false)
    else
      var n := 1 + WordLength(r[1..]);
      Piece(n, r[..n], false)
  }

  /** The tokens of the text that is left, which starts at position `at`. */
  function Lex(r: string, at: nat, e: bool): (x: Lexed)
    decreases |r|
  {
    if r == "" then Ok([])
    else match Next(r, e)
      case Gap(n) => Lex(r[n..], at + n, false)
      case Piece(n, value, quoted) =>
        var t := Token(at, value, quoted, at + n);
        Then(t, Lex(r[n..], at + n, Is(t, "E")))
      case Broken(message) => Err(message, [])
  }

  function Then(t: Token, rest: Lexed): Lexed {
    if rest.Ok? then Ok([t] + rest.tokens) else Err(rest.message, [t] + rest.preceding)
  }

  function Tokens(sql: string): Lexed {
    Lex(sql, 0, false)
  }

  // ---------------------------------------------------------------- locality

  /** `t` is `u` moved by `d`. */
  predicate MovedBy(t: Token, u: Token, d: int) {
    t.value == u.value && t.quoted == u.quoted && t.start == u.start + d && t.end == u.end + d
  }

  predicate AllMovedBy(ts: seq<Token>, us: seq<Token>, d: int) {
    |ts| == |us| && forall i | 0 <= i < |ts| :: MovedBy(ts[i], us[i], d)
  }

  /** Tokens are in order, inside the text and not empty. */
  lemma {:induction false} LexOrdered(r: string, at: nat, e: bool)
    requires Lex(r, at, e).Ok?
    ensures var ts := Lex(r, at, e).tokens;
            && (forall t | t in ts :: at <= t.start < t.end <= at + |r|)
            && (forall i, j | 0 <= i < j < |ts| :: ts[i].end <= ts[j].start)
    decreases |r|
  {
    hide Next;
    if r != "" {
      match Next(r, e)
      case Gap(n) => LexOrdered(r[n..], at + n, false);
      case Piece(n, value, quoted) =>
        var t := Token(at, value, quoted, at + n);
        LexOrdered(r[n..], at + n, Is(t, "E"));
    }
  }

  // A cut of the text at a semicolon, or at its end, changes nothing that lies before the cut.

  predicate Cut(r: string, m: nat) {
    0 < m <= |r| && (m == |r| || r[m - 1] == ';')
  }

  lemma {:induction false} LineCut(r: string, m: nat)
    requires LineLength(r) <= m <= |r|
    ensures LineLength(r[..m]) == LineLength(r)
  {
    if r != "" && r[0] != '\n' {
      assert r[..m][1..] == r[1..][..m - 1];
      LineCut(r[1..], m - 1);
    }
  }

  lemma {:induction false} CommentCut(r: string, depth: nat, m: nat)
    requires depth > 0 && CommentLength(r, depth).Some? && CommentLength(r, depth).value <= m <= |r|
    ensures CommentLength(r[..m], depth) == CommentLength(r, depth)
    decreases |r|
  {
    if Begins2(r, '/', '*') {
      assert r[..m][2..] == r[2..][..m - 2];
      CommentCut(r[2..], depth + 1, m - 2);
    } else if Begins2(r, '*', '/') {
      if depth > 1 {
        assert r[..m][2..] == r[2..][..m - 2];
        CommentCut(r[2..], depth - 1, m - 2);
      }
    } else {
      assert r[..m][1..] == r[1..][..m - 1];
      CommentCut(r[1..], depth, m - 1);
    }
  }

  lemma {:induction false} QuoteCut(r: string, d: char, escaped: bool, m: nat)
    requires QuoteLength(r, d, escaped).Some? && QuoteLength(r, d, escaped).value <= m <= |r|
    ensures QuoteLength(r[..m], d, escaped) == QuoteLength(r, d, escaped)
    decreases |r|
  {
    if escaped && r[0] == '\\' {
      assert r[..m][2..] == r[2..][..m - 2];
      QuoteCut(r[2..], d, escaped, m - 2);
    } else if r[0] == d {
      if |r| >= 2 && r[1] == d {
        assert r[..m][2..] == r[2..][..m - 2];
        QuoteCut(r[2..], d, escaped, m - 2);
      }
    } else {
      assert r[..m][1..] == r[1..][..m - 1];
      QuoteCut(r[1..], d, escaped, m - 1);
    }
  }

  lemma {:induction false} TagBodyCut(r: string, m: nat)
    requires m <= |r|
    ensures TagBody(r[..m]) == if TagBody(r).Some? && TagBody(r).value < m then TagBody(r) else None
  {
    if r != "" && m > 0 {
      assert r[..m][1..] == r[1..][..m - 1];
      TagBodyCut(r[1..], m - 1);
    }
  }

  lemma {:induction false} FindCut(r: string, p: string, m: nat)
    requires FindText(r, p).Some? && FindText(r, p).value + |p| <= m <= |r|
    ensures FindText(r[..m], p) == FindText(r, p)
  {
    if Begins(r, p) {
      assert r[..m][..|p|] == r[..|p|];
    } else {
      assert r[..m][1..] == r[1..][..m - 1];
      assert !Begins(r[..m], p) by { if |p| <= m { assert r[..m][..|p|] == r[..|p|]; } }
      FindCut(r[1..], p, m - 1);
    }
  }

  lemma {:induction false} WordCut(r: string, m: nat)
    requires WordLength(r) <= m <= |r| && (m == |r| || m == 0 || r[m - 1] == ';')
    ensures WordLength(r[..m]) == WordLength(r)
  {
    if r != "" && m > 0 {
      assert EndsWord(r[..m]) == EndsWord(r);
      if !EndsWord(r) {
        assert r[..m][1..] == r[1..][..m - 1];
        WordCut(r[1..], m - 1);
      }
    }
  }

  lemma TagCut(r: string, m: nat)
    requires r != "" && r[0] == '$' && 0 < m <= |r|
    ensures r[..m] != "" && r[..m][0] == '$'
    ensures TagLength(r[..m]) == if TagLength(r).Some? && TagLength(r).value <= m then TagLength(r) else None
  {
    assert r[..m][1..] == r[1..][..m - 1];
    TagBodyCut(r[1..], m - 1);
  }

  /** A lexeme that ends by the cut is the same lexeme in the cut text. */
  lemma NextCut(r: string, e: bool, m: nat)
    requires Cut(r, m) && !Next(r, e).Broken? && Next(r, e).length <= m
    ensures Next(r[..m], e) == Next(r, e)
  {
    hide LineLength, CommentLength, QuoteLength, TagBody, TagLength, FindText, WordLength, Undouble;
    var c := r[..m];
    assert c[0] == r[0] && (m >= 2 ==> c[1] == r[1]);
    if IsSpace(r[0]) {
    } else if Begins2(r, '-', '-') {
      assert c[2..] == r[2..][..m - 2];
      LineCut(r[2..], m - 2);
    } else if Begins2(r, '/', '*') {
      assert c[2..] == r[2..][..m - 2];
      CommentCut(r[2..], 1, m - 2);
    } else if r[0] == '\'' || r[0] == '"' {
      assert c[1..] == r[1..][..m - 1];
      QuoteCut(r[1..], r[0], e && r[0] == '\'', m - 1);
      var n := QuoteLength(r[1..], r[0], e && r[0] == '\'').value;
      assert c[1..n] == r[1..n];
    } else {
      if r[0] == '$' { TagCut(r, m); }
      if r[0] == '$' && TagLength(r).Some? {
        DollarCut(r, e, m);
      } else if IsMark(r[0]) {
        assert c[..1] == r[..1];
      } else {
        var n := 1 + WordLength(r[1..]);
        assert c[1..] == r[1..][..m - 1];
        WordCut(r[1..], m - 1);
        assert c[..n] == r[..n];
      }
    }
  }

  lemma DollarCut(r: string, e: bool, m: nat)
    requires Cut(r, m) && r[0] == '$' && TagLength(r).Some? && Next(r, e).Piece? && Next(r, e).length <= m
    ensures Next(r[..m], e) == Next(r, e)
  {
    hide LineLength, CommentLength, QuoteLength, TagBody, TagLength, FindText, WordLength, Undouble;
    var c, tag := r[..m], TagLength(r).value;
    TagCut(r, m);
    assert c[tag..] == r[tag..][..m - tag] && c[..tag] == r[..tag];
    FindCut(r[tag..], r[..tag], m - tag);
    var n := FindText(r[tag..], r[..tag]).value;
    assert c[..tag + n + tag] == r[..tag + n + tag];
  }

  lemma LexEnds(r: string, at: nat, e: bool, k: nat)
    requires Lex(r, at, e).Ok? && k < |Lex(r, at, e).tokens|
    ensures at < Lex(r, at, e).tokens[k].end <= at + |r|
  {
    hide Next;
    LexOrdered(r, at, e);
    assert Lex(r, at, e).tokens[k] in Lex(r, at, e).tokens;
  }

  lemma NotE(t: Token)
    requires Is(t, ";")
    ensures !Is(t, "E")
  {
    assert Lower(";")[0] == ';' && Lower("E")[0] == 'e';
  }

  lemma GapStep(r: string, at: nat, e: bool, n: nat)
    requires r != "" && Next(r, e) == Gap(n)
    ensures Lex(r, at, e) == Lex(r[n..], at + n, false)
  {
    hide Next;
  }

  /** The token that a piece at `at` makes. */
  function Made(x: Lexeme, at: nat): Token
    requires x.Piece?
  {
    Token(at, x.value, x.quoted, at + x.length)
  }

  lemma PieceStep(r: string, at: nat, e: bool, t: Token, n: nat)
    requires r != "" && Next(r, e).Piece? && Next(r, e).length == n && t == Made(Next(r, e), at)
    ensures Lex(r, at, e) == Then(t, Lex(r[n..], at + n, Is(t, "E")))
  {
    hide Next;
  }

  /** The same text at another position has the same tokens, moved. */
  lemma {:induction false} LexMoves(r: string, at: nat, from: nat, e: bool)
    ensures Lex(r, at, e).Ok? == Lex(r, from, e).Ok?
    ensures Lex(r, at, e).Ok? ==> AllMovedBy(Lex(r, at, e).tokens, Lex(r, from, e).tokens, at - from)
    decreases |r|
  {
    hide Next, Is, Lex;
    if r == "" {
      LexNothing(at, e);
      LexNothing(from, e);
    } else {
      match Next(r, e)
      case Gap(n) =>
        GapStep(r, at, e, n);
        GapStep(r, from, e, n);
        LexMoves(r[n..], at + n, from + n, false);
      case Piece(n, _, _) =>
        var t, u := Made(Next(r, e), at), Made(Next(r, e), from);
        PieceStep(r, at, e, t, n);
        PieceStep(r, from, e, u, n);
        assert Is(t, "E") == Is(u, "E") by { SameWord(t, u, "E"); }
        LexMoves(r[n..], at + n, from + n, Is(t, "E"));
      case Broken(_) =>
        LexBroken(r, at, e);
        LexBroken(r, from, e);
    }
  }

  lemma SameWord(t: Token, u: Token, word: string)
    requires t.value == u.value && t.quoted == u.quoted
    ensures Is(t, word) == Is(u, word)
  {
  }

  lemma LexNothing(at: nat, e: bool)
    ensures Lex("", at, e) == Ok([])
  {
  }

  lemma LexBroken(r: string, at: nat, e: bool)
    requires r != "" && Next(r, e).Broken?
    ensures Lex(r, at, e).Err?
  {
  }

  /** The text up to the end of its `k`-th token, a semicolon, has exactly the tokens up to that one. */
  lemma {:induction false} LexCut(r: string, at: nat, e: bool, k: nat)
    requires Lex(r, at, e).Ok? && k < |Lex(r, at, e).tokens| && Is(Lex(r, at, e).tokens[k], ";")
    ensures var m := Lex(r, at, e).tokens[k].end - at;
            && m >= 0 && Cut(r, m)
            && Lex(r[..m], at, e) == Ok(Lex(r, at, e).tokens[..k + 1])
    decreases |r|
  {
    hide Next, Is;
    if r != "" {
      match Next(r, e)
      case Gap(n) => CutAfterGap(r, at, e, k, n);
      case Piece(n, value, quoted) =>
        var t := Made(Next(r, e), at);
        if k == 0 { OneCut(r, at, e, t); } else { CutAfterPiece(r, at, e, k, t); }
    }
  }

  lemma {:induction false} CutAfterGap(r: string, at: nat, e: bool, k: nat, n: nat)
    requires r != "" && Next(r, e) == Gap(n)
    requires Lex(r, at, e).Ok? && k < |Lex(r, at, e).tokens| && Is(Lex(r, at, e).tokens[k], ";")
    ensures var m := Lex(r, at, e).tokens[k].end - at;
            && m >= 0 && Cut(r, m)
            && Lex(r[..m], at, e) == Ok(Lex(r, at, e).tokens[..k + 1])
    decreases |r|, 0
  {
    hide Next, Is, Lex;
    GapStep(r, at, e, n);
    LexEnds(r[n..], at + n, false, k);
    var m := Lex(r, at, e).tokens[k].end - at;
    LexCut(r[n..], at + n, false, k);
    CutTail(r, n, m);
    NextCut(r, e, m);
    GapStep(r[..m], at, e, n);
  }

  lemma {:induction false} CutAfterPiece(r: string, at: nat, e: bool, k: nat, t: Token)
    requires r != "" && Next(r, e).Piece? && t == Made(Next(r, e), at)
    requires Lex(r, at, e).Ok? && 0 < k < |Lex(r, at, e).tokens| && Is(Lex(r, at, e).tokens[k], ";")
    ensures var m := Lex(r, at, e).tokens[k].end - at;
            && m >= 0 && Cut(r, m)
            && Lex(r[..m], at, e) == Ok(Lex(r, at, e).tokens[..k + 1])
    decreases |r|, 0
  {
    hide Next, Is, Lex;
    var n := Next(r, e).length;
    PieceStep(r, at, e, t, n);
    var rest := Lex(r[n..], at + n, Is(t, "E")).tokens;
    LexEnds(r[n..], at + n, Is(t, "E"), k - 1);
    var m := Lex(r, at, e).tokens[k].end - at;
    LexCut(r[n..], at + n, Is(t, "E"), k - 1);
    CutTail(r, n, m);
    NextCut(r, e, m);
    PieceStep(r[..m], at, e, t, n);
    assert ([t] + rest)[..k + 1] == [t] + rest[..k];
  }

  lemma OneCut(r: string, at: nat, e: bool, t: Token)
    requires r != "" && Next(r, e).Piece? && Lex(r, at, e).Ok?
    requires t == Made(Next(r, e), at) && Is(t, ";")
    ensures Cut(r, Next(r, e).length) && Lex(r[..Next(r, e).length], at, e) == Ok([t])
              && Lex(r, at, e).tokens[..1] == [t]
  {
    hide Next;
    Semicolon(r, e);
    var n := Next(r, e).length;
    NextCut(r, e, n);
    assert r[..n][n..] == "";
  }

  lemma CutTail(r: string, n: nat, m: nat)
    requires n <= |r| && n < m && Cut(r[n..], m - n)
    ensures Cut(r, m) && r[..m][n..] == r[n..][..m - n]
  {
    if m < |r| { assert r[m - 1] == r[n..][m - n - 1]; }
  }

  /** Only a semicolon is the token `;`. */
  lemma Semicolon(r: string, e: bool)
    requires r != "" && Next(r, e).Piece? && !Next(r, e).quoted && Same(Next(r, e).value, ";")
    ensures Next(r, e).length == 1 && r[0] == ';' && Cut(r, 1)
  {
    var v := Next(r, e).value;
    assert |Lower(v)| == |v| && |Lower(";")| == 1;
    assert Lower(v)[0] == LowerChar(v[0]) && Lower(";")[0] == ';';
    assert v == r[..Next(r, e).length];
  }

  /** After a semicolon the lexer starts afresh. */
  lemma {:induction false} LexResumes(r: string, at: nat, e: bool, k: nat)
    requires Lex(r, at, e).Ok? && k < |Lex(r, at, e).tokens| && Is(Lex(r, at, e).tokens[k], ";")
    ensures var p := Lex(r, at, e).tokens[k].end;
            && at <= p <= at + |r|
            && Lex(r[p - at..], p, false) == Ok(Lex(r, at, e).tokens[k + 1..])
    decreases |r|
  {
    hide Next, Is, Lex;
    LexEnds(r, at, e, k);
    var p := Lex(r, at, e).tokens[k].end;
    match Next(r, e)
    case Gap(n) =>
      GapStep(r, at, e, n);
      LexEnds(r[n..], at + n, false, k);
      LexResumes(r[n..], at + n, false, k);
      assert r[n..][p - at - n..] == r[p - at..];
    case Piece(n, value, quoted) =>
      var t := Made(Next(r, e), at);
      PieceStep(r, at, e, t, n);
      if k == 0 {
        NotE(t);
        assert Lex(r, at, e).tokens[1..] == Lex(r[n..], at + n, Is(t, "E")).tokens;
      } else {
        ResumesLater(r, at, e, k, t);
      }
    case Broken(_) => LexBroken(r, at, e);
  }

  lemma {:induction false} ResumesLater(r: string, at: nat, e: bool, k: nat, t: Token)
    requires r != "" && Next(r, e).Piece? && t == Made(Next(r, e), at)
    requires Lex(r, at, e).Ok? && 0 < k < |Lex(r, at, e).tokens| && Is(Lex(r, at, e).tokens[k], ";")
    ensures var p := Lex(r, at, e).tokens[k].end;
            && at <= p <= at + |r|
            && Lex(r[p - at..], p, false) == Ok(Lex(r, at, e).tokens[k + 1..])
    decreases |r|, 0
  {
    hide Next, Is, Lex;
    var n := Next(r, e).length;
    PieceStep(r, at, e, t, n);
    var p := Lex(r, at, e).tokens[k].end;
    var rest := Lex(r[n..], at + n, Is(t, "E")).tokens;
    LexEnds(r[n..], at + n, Is(t, "E"), k - 1);
    LexResumes(r[n..], at + n, Is(t, "E"), k - 1);
    assert r[n..][p - at - n..] == r[p - at..];
    assert ([t] + rest)[k + 1..] == rest[k..];
  }
}
