/** The lexer's and the splitter's loops, each proved to compute what the functions above them say. */
module Scanner {
  import opened Names
  import opened Lexer
  import opened Script

  method SkipLine(sql: string, start: nat) returns (i: nat)
    requires start <= |sql|
    ensures i == start + LineLength(sql[start..])
  {
    i := start;
    while i < |sql| && sql[i] != '\n'
      invariant start <= i <= |sql|
      invariant LineLength(sql[start..]) == i - start + LineLength(sql[i..])
    {
      assert sql[i..][1..] == sql[i + 1..];
      i := i + 1;
    }
  }

  /** One step of a comment at a position: what the rest of it adds to. */
  lemma CommentStep(sql: string, i: nat, depth: nat)
    requires i < |sql| && depth > 0
    ensures var r, n := sql[i..], CommentLength(sql[i..], depth);
            if Begins2(r, '/', '*') then i + 2 <= |sql| && n == More(2, CommentLength(sql[i + 2..], depth + 1))
            else if Begins2(r, '*', '/') then
              i + 2 <= |sql| && n == if depth == 1 then Some(2) else More(2, CommentLength(sql[i + 2..], depth - 1))
            else n == More(1, CommentLength(sql[i + 1..], depth))
  {
    assert sql[i..][1..] == sql[i + 1..];
    if i + 2 <= |sql| { assert sql[i..][2..] == sql[i + 2..]; }
  }

  lemma CommentEnd(sql: string, depth: nat)
    requires depth > 0
    ensures CommentLength(sql[|sql|..], depth).None?
  {
  }

  method SkipComment(sql: string, start: nat) returns (i: nat, closed: bool)
    requires start <= |sql|
    ensures closed == CommentLength(sql[start..], 1).Some?
    ensures closed ==> i == start + CommentLength(sql[start..], 1).value
  {
    hide CommentLength;
    i := start;
    var depth := 1;
    while i < |sql| && depth > 0
      invariant start <= i <= |sql| && depth >= 0
      invariant depth > 0 ==> CommentLength(sql[start..], 1) == More(i - start, CommentLength(sql[i..], depth))
      invariant depth == 0 ==> CommentLength(sql[start..], 1) == Some(i - start)
      decreases |sql| - i
    {
      CommentStep(sql, i, depth);
      if Begins2(sql[i..], '/', '*') {
        depth := depth + 1;
        i := i + 2;
      } else if Begins2(sql[i..], '*', '/') {
        depth := depth - 1;
        i := i + 2;
      } else {
        i := i + 1;
      }
    }
    if depth > 0 { CommentEnd(sql, depth); }
    closed := depth == 0;
  }

  /** One step of quoted text at a position. */
  lemma QuoteStep(sql: string, i: nat, d: char, escaped: bool)
    requires i < |sql|
    ensures var n := QuoteLength(sql[i..], d, escaped);
            if escaped && sql[i] == '\\' then
              n == if i + 2 > |sql| then None else More(2, QuoteLength(sql[i + 2..], d, escaped))
            else if sql[i] == d then
              n == if i + 1 < |sql| && sql[i + 1] == d then More(2, QuoteLength(sql[i + 2..], d, escaped)) else Some(1)
            else n == More(1, QuoteLength(sql[i + 1..], d, escaped))
  {
    assert sql[i..][1..] == sql[i + 1..];
    if i + 2 <= |sql| { assert sql[i..][2..] == sql[i + 2..] && sql[i..][1] == sql[i + 1]; }
  }

  lemma QuoteEnd(sql: string, d: char, escaped: bool)
    ensures QuoteLength(sql[|sql|..], d, escaped).None?
  {
  }

  method SkipQuote(sql: string, start: nat, delimiter: char, escaped: bool) returns (i: nat, closed: bool)
    requires start <= |sql|
    ensures closed == QuoteLength(sql[start..], delimiter, escaped).Some?
    ensures closed ==> i == start + QuoteLength(sql[start..], delimiter, escaped).value
  {
    hide QuoteLength;
    i := start;
    closed := false;
    while i < |sql|
      invariant start <= i <= |sql| && !closed
      invariant QuoteLength(sql[start..], delimiter, escaped) ==
                  More(i - start, QuoteLength(sql[i..], delimiter, escaped))
      decreases |sql| - i
    {
      QuoteStep(sql, i, delimiter, escaped);
      if escaped && sql[i] == '\\' {
        if i + 2 > |sql| { return; }
        i := i + 2;
      } else if sql[i] == delimiter {
        if i + 1 < |sql| && sql[i + 1] == delimiter {
          i := i + 2;
        } else {
          i := i + 1;
          closed := true;
          return;
        }
      } else {
        i := i + 1;
      }
    }
    QuoteEnd(sql, delimiter, escaped);
  }

  method SkipWord(sql: string, start: nat) returns (i: nat)
    requires start <= |sql|
    ensures i == start + WordLength(sql[start..])
  {
    i := start;
    while i < |sql| && !EndsWord(sql[i..])
      invariant start <= i <= |sql|
      invariant WordLength(sql[start..]) == i - start + WordLength(sql[i..])
    {
      assert sql[i..][1..] == sql[i + 1..];
      i := i + 1;
    }
  }

  /** The tag as the text up to the second dollar sign, if nothing but tag characters lies between. */
  function DollarTag(r: string): Option<string>
    requires r != ""
  {
    match FindText(r[1..], "$")
    case Some(k) => if forall c | c in r[1..k + 1] :: IsTagChar(c) then Some(r[..k + 2]) else None
    case None => None
  }

  lemma {:induction false} TagBodyIsFind(r: string)
    ensures TagBody(r) == match FindText(r, "$")
                          case Some(k) => (if forall c | c in r[..k] :: IsTagChar(c) then Some(k) else None)
                          case None => None
  {
    if r != "" {
      assert Begins(r, "$") == (r[0] == '$') by { assert r[..1] == [r[0]]; }
      TagBodyIsFind(r[1..]);
      if r[0] != '$' && FindText(r, "$").Some? {
        var k := FindText(r, "$").value;
        assert r[..k] == [r[0]] + r[1..][..k - 1];
      }
    }
  }

  lemma TagLengthIsDollarTag(r: string)
    requires r != "" && r[0] == '$'
    ensures DollarTag(r) == match TagLength(r) case Some(n) => Some(r[..n]) case None => None
  {
    TagBodyIsFind(r[1..]);
    match FindText(r[1..], "$")
    case Some(k) => assert r[1..][..k] == r[1..k + 1];
    case None =>
  }

  // ---------------------------------------------------------------- tokens

  function Join(out: seq<Token>, x: Lexed): Lexed {
    if x.Ok? then Ok(out + x.tokens) else Err(x.message, out + x.preceding)
  }

  /** The word E ends right here. */
  predicate AfterE(out: seq<Token>, i: nat) {
    out != [] && Is(out[|out| - 1], "E") && out[|out| - 1].end == i
  }

  method NextLexeme(sql: string, i: nat, escaped: bool) returns (x: Lexeme)
    requires i < |sql|
    ensures x == Next(sql[i..], escaped)
  {
    hide LineLength, CommentLength, QuoteLength, WordLength, FindText, Undouble, TagBody;
    var r := sql[i..];
    if IsSpace(sql[i]) { return Gap(1); }
    if Begins2(r, '-', '-') {
      assert r[2..] == sql[i + 2..];
      var j := SkipLine(sql, i + 2);
      return Gap(j - i);
    }
    if Begins2(r, '/', '*') {
      assert r[2..] == sql[i + 2..];
      var j, closed := SkipComment(sql, i + 2);
      if !closed { return Broken("Unclosed SQL comment"); }
      return Gap(j - i);
    }
    if sql[i] == '\'' || sql[i] == '"' {
      assert r[1..] == sql[i + 1..];
      var j, closed := SkipQuote(sql, i + 1, sql[i], escaped && sql[i] == '\'');
      if !closed { return Broken("Unclosed SQL quote"); }
      assert sql[i + 1..j - 1] == r[1..j - 1 - i];
      return Piece(j - i, Undouble(sql[i + 1..j - 1], sql[i]), true);
    }
    if sql[i] == '$' {
      TagLengthIsDollarTag(r);
      var tag := DollarTag(r);
      if tag.Some? {
        var n := |tag.value|;
        var found := FindText(r[n..], tag.value);
        if found.None? { return Broken("Unclosed dollar quote"); }
        return Piece(n + found.value + n, r[..n + found.value + n], true);
      }
    }
    if IsMark(sql[i]) { return Piece(1, r[..1], false); }
    assert r[1..] == sql[i + 1..];
    var j := SkipWord(sql, i + 1);
    return Piece(j - i, r[..j - i], false);
  }

  lemma GapJoin(sql: string, i: nat, e: bool, n: nat)
    requires i < |sql| && Next(sql[i..], e) == Gap(n)
    ensures Lex(sql[i..], i, e) == Lex(sql[i + n..], i + n, false)
  {
    hide Next, Lex;
    GapStep(sql[i..], i, e, n);
    assert sql[i..][n..] == sql[i + n..];
  }

  lemma PieceJoin(sql: string, i: nat, e: bool, t: Token, n: nat, out: seq<Token>)
    requires i < |sql| && Next(sql[i..], e).Piece? && Next(sql[i..], e).length == n && t == Made(Next(sql[i..], e), i)
    ensures Join(out, Lex(sql[i..], i, e)) == Join(out + [t], Lex(sql[i + n..], i + n, Is(t, "E")))
  {
    hide Next, Lex, Is;
    PieceStep(sql[i..], i, e, t, n);
    assert sql[i..][n..] == sql[i + n..];
    var x := Lex(sql[i + n..], i + n, Is(t, "E"));
    if x.Ok? { assert out + [t] + x.tokens == out + ([t] + x.tokens); }
    else { assert out + [t] + x.preceding == out + ([t] + x.preceding); }
  }

  method Tokenize(sql: string) returns (x: Lexed)
    ensures x == Tokens(sql)
  {
    hide Next, Is, Lex;
    var i: nat := 0;
    var out: seq<Token> := [];
    assert sql[0..] == sql;
    while i < |sql|
      invariant i <= |sql| && (out != [] ==> out[|out| - 1].end <= i)
      invariant Tokens(sql) == Join(out, Lex(sql[i..], i, AfterE(out, i)))
    {
      var e := AfterE(out, i);
      var next := NextLexeme(sql, i, e);
      match next
      case Gap(n) =>
        GapJoin(sql, i, e, n);
        i := i + n;
      case Piece(n, value, quoted) =>
        var t := Token(i, value, quoted, i + n);
        PieceJoin(sql, i, e, t, n, out);
        out := out + [t];
        i := i + n;
      case Broken(message) =>
        BrokenMessage(sql[i..], i, e);
        assert out + [] == out;
        return Err(message, out);
    }
    LexNothing(i, AfterE(out, i));
    assert sql[i..] == "" && out + [] == out;
    return Ok(out);
  }

  lemma BrokenMessage(r: string, at: nat, e: bool)
    requires r != "" && Next(r, e).Broken?
    ensures Lex(r, at, e) == Err(Next(r, e).message, [])
  {
  }

  // ---------------------------------------------------------------- statements

  ghost predicate Bounded(sql: string, segments: seq<Segment>) {
    forall s | s in segments :: s.start <= s.end <= |sql|
  }

  method SplitStatements(sql: string) returns (r: Split)
    ensures r == SplitScript(sql)
  {
    hide Lex, Is, Sound, Kept, Segments;
    var lexed := Tokenize(sql);
    if lexed.Err? { return Unlexable(lexed.message, Ended(lexed.preceding, false)); }
    var ts := lexed.tokens;
    var statements: seq<string> := [];
    var start: nat, has, k: nat := 0, false, 0;
    ghost var held: seq<Token> := [];
    ScriptSegments(sql);
    forall s | s in AllSegments(sql) ensures s.start <= s.end <= |sql| { SoundBounds(sql, s); }
    assert ts[0..] == ts;
    while k < |ts|
      invariant k <= |ts| && has == HasStatement(held)
      invariant Bounded(sql, Segments(ts[k..], start, |sql|, held))
      invariant Kept(sql, AllSegments(sql)) == statements + Kept(sql, Segments(ts[k..], start, |sql|, held))
    {
      var t := ts[k];
      if Is(t, ";") {
        AtSemicolon(sql, ts, k, start, held);
        if has { statements := statements + [sql[start..t.end]]; }
        start := t.end;
        has := false;
        held := [];
      } else {
        AtOther(sql, ts, k, start, held);
        has := true;
        held := held + [t];
      }
      k := k + 1;
    }
    AtEnd(sql, ts, start, held);
    if has { statements := statements + [sql[start..]]; }
    return Statements(statements);
  }

  lemma AtSemicolon(sql: string, ts: seq<Token>, k: nat, start: nat, held: seq<Token>)
    requires k < |ts| && Is(ts[k], ";") && Bounded(sql, Segments(ts[k..], start, |sql|, held))
    ensures start <= ts[k].end <= |sql| && Bounded(sql, Segments(ts[k + 1..], ts[k].end, |sql|, []))
    ensures Kept(sql, Segments(ts[k..], start, |sql|, held)) ==
            (if HasStatement(held) then [sql[start..ts[k].end]]
              else []) + Kept(sql, Segments(ts[k + 1..], ts[k].end, |sql|, []))
  {
    hide Is;
    assert ts[k..][0] == ts[k] && ts[k..][1..] == ts[k + 1..];
    var todo := Segments(ts[k..], start, |sql|, held);
    var rest := Segments(ts[k + 1..], ts[k].end, |sql|, []);
    assert todo == [Segment(start, ts[k].end, held + [ts[k]])] + rest;
    assert todo[0] in todo && todo[1..] == rest;
    HeldStatement(held, ts[k]);
  }

  lemma AtOther(sql: string, ts: seq<Token>, k: nat, start: nat, held: seq<Token>)
    requires k < |ts| && !Is(ts[k], ";")
    ensures Segments(ts[k..], start, |sql|, held) == Segments(ts[k + 1..], start, |sql|, held + [ts[k]])
    ensures HasStatement(held + [ts[k]])
  {
    assert ts[k..][0] == ts[k] && ts[k..][1..] == ts[k + 1..];
    assert ts[k] in held + [ts[k]];
  }

  lemma AtEnd(sql: string, ts: seq<Token>, start: nat, held: seq<Token>)
    requires Bounded(sql, Segments(ts[|ts|..], start, |sql|, held))
    ensures start <= |sql|
    ensures Kept(sql, Segments(ts[|ts|..], start, |sql|, held)) == if HasStatement(held) then [sql[start..]] else []
  {
    var last := Segment(start, |sql|, held);
    var todo := Segments(ts[|ts|..], start, |sql|, held);
    assert todo == [last] && last in todo && todo[1..] == [];
    assert sql[start..|sql|] == sql[start..];
  }

  lemma SoundBounds(sql: string, s: Segment)
    requires Sound(sql, s)
    ensures s.start <= s.end <= |sql|
  {
  }

  lemma HeldStatement(held: seq<Token>, t: Token)
    requires Is(t, ";")
    ensures HasStatement(held + [t]) == HasStatement(held)
  {
    if HasStatement(held) {
      var x :| x in held && !Is(x, ";");
      assert x in held + [t];
    }
  }
}
