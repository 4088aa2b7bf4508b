/** Quoted names and stored view definitions: printing and lexing undo each other. */
module Ddl {
  import opened Names
  import opened Lexer
  import Scanner

  function Double(s: string, d: char): string {
    if s == "" then "" else (if s[0] == d then [d, d] else [s[0]]) + Double(s[1..], d)
  }

  function Quote(name: string): string {
    ['"'] + Double(name, '"') + ['"']
  }

  function RelationSql(r: Relation): string {
    Quote(r.schema) + "." + Quote(r.name)
  }

  // ---------------------------------------------------------------- quoting

  /** A text that does not go on with the quote that was just closed. */
  predicate Closes(tail: string, d: char) {
    tail == "" || tail[0] != d
  }

  lemma QuoteUnfold(r: string, d: char, n: nat)
    requires n in {1, 2} && n <= |r| && (if n == 1 then r[0] != d else r[0] == d == r[1])
    ensures QuoteLength(r, d, false) == More(n, QuoteLength(r[n..], d, false))
  {
  }

  lemma DoubledStep(s: string, d: char, tail: string)
    requires s != ""
    ensures var r, n := Double(s, d) + [d] + tail, if s[0] == d then 2 else 1;
            && n <= |r| && (if n == 1 then r[0] != d else r[0] == d == r[1])
            && r[n..] == Double(s[1..], d) + [d] + tail && |Double(s, d)| == n + |Double(s[1..], d)|
  {
    var head := if s[0] == d then [d, d] else [s[0]];
    assert Double(s, d) == head + Double(s[1..], d);
    Regroup(head, Double(s[1..], d), [d], tail);
  }

  lemma Regroup(a: string, b: string, c: string, tail: string)
    ensures a + b + c + tail == a + (b + c + tail) && (a + b + c + tail)[|a|..] == b + c + tail
  {
  }

  lemma {:induction false} DoubledLength(s: string, d: char, tail: string)
    requires Closes(tail, d)
    ensures QuoteLength(Double(s, d) + [d] + tail, d, false) == Some(|Double(s, d)| + 1)
  {
    var r := Double(s, d) + [d] + tail;
    if s == "" {
      assert r == [d] + tail;
      assert |r| >= 2 ==> r[1] == tail[0];
    } else {
      hide Double, QuoteLength;
      DoubledStep(s, d, tail);
      DoubledLength(s[1..], d, tail);
      QuoteUnfold(r, d, if s[0] == d then 2 else 1);
    }
  }

  lemma {:induction false} UndoubleDoubled(s: string, d: char)
    ensures Undouble(Double(s, d), d) == s
  {
    if s != "" {
      var r := Double(s, d);
      UndoubleDoubled(s[1..], d);
      if s[0] == d {
        assert r[2..] == Double(s[1..], d);
      } else {
        assert r[1..] == Double(s[1..], d);
        if |r| < 2 { assert s[1..] == ""; }
      }
    }
  }

  /** A quoted name lexes to one quoted token with that name, whatever characters it holds. */
  lemma QuotedNext(name: string, tail: string, e: bool)
    requires Closes(tail, '"')
    ensures Next(Quote(name) + tail, e) == Piece(|Quote(name)|, name, true)
  {
    var r := Quote(name) + tail;
    var inner := Double(name, '"');
    assert r[1..] == inner + ['"'] + tail;
    DoubledLength(name, '"', tail);
    UndoubleDoubled(name, '"');
    assert r[1..|inner| + 1] == inner;
  }

  lemma QuotedLex(name: string, tail: string, at: nat, e: bool)
    requires Closes(tail, '"')
    ensures Lex(Quote(name) + tail, at, e) ==
            Then(Token(at, name, true, at + |Quote(name)|), Lex(tail, at + |Quote(name)|, false))
  {
    hide Next;
    var r := Quote(name) + tail;
    QuotedNext(name, tail, e);
    var t := Token(at, name, true, at + |Quote(name)|);
    PieceStep(r, at, e, t, |Quote(name)|);
    assert r[|Quote(name)|..] == tail;
  }

  lemma MarkLex(c: char, tail: string, at: nat, e: bool)
    requires IsMark(c)
    ensures Lex([c] + tail, at, e) == Then(Token(at, [c], false, at + 1), Lex(tail, at + 1, false))
  {
    hide TagBody, CommentLength, QuoteLength, WordLength, FindText, LineLength, TagLength, Undouble;
    var r := [c] + tail;
    assert r[..1] == [c] && r[1..] == tail;
    assert Lower([c])[0] == c && Lower("E")[0] == 'e';
  }

  function NameTokens(r: Relation, at: nat): seq<Token> {
    var a := at + |Quote(r.schema)|;
    [Token(at, r.schema, true, a), Token(a, ".", false, a + 1), Token(a + 1, r.name, true, a + 1 + |Quote(r.name)|)]
  }

  lemma RelationLexes(r: Relation, tail: string, at: nat, e: bool)
    requires Closes(tail, '"')
    ensures Lex(RelationSql(r) + tail, at, e) ==
              Scanner.Join(NameTokens(r, at), Lex(tail, at + |RelationSql(r)|, false))
  {
    hide Lex, Next, Quote;
    var last := Quote(r.name) + tail;
    assert RelationSql(r) + tail == Quote(r.schema) + ("." + last);
    QuotedLex(r.schema, "." + last, at, e);
    var a := at + |Quote(r.schema)|;
    MarkLex('.', last, a, false);
    QuotedLex(r.name, tail, a + 1, false);
    var rest := Lex(tail, at + |RelationSql(r)|, false);
    if rest.Ok? {
      assert [NameTokens(r, at)[0]] + ([NameTokens(r, at)[1]] + ([NameTokens(r, at)[2]] + rest.tokens)) ==
        NameTokens(r, at) + rest.tokens;
    }
  }

  /** Lexing a printed relation gives back its schema and name. */
  lemma RelationRoundTrip(r: Relation)
    ensures Tokens(RelationSql(r)) == Ok(NameTokens(r, 0))
    ensures NameTokens(r, 0)[0].value == r.schema && NameTokens(r, 0)[2].value == r.name
  {
    hide Lex;
    RelationLexes(r, "", 0, false);
    assert RelationSql(r) + "" == RelationSql(r);
    LexNothing(|RelationSql(r)|, false);
    assert NameTokens(r, 0) + [] == NameTokens(r, 0);
  }

  // ---------------------------------------------------------------- words

  predicate Letters(w: string) {
    w != "" && forall i | 0 <= i < |w| :: 'A' <= w[i] <= 'Z'
  }

  lemma {:induction false} LettersLength(w: string, tail: string)
    requires (forall i | 0 <= i < |w| :: 'A' <= w[i] <= 'Z') && tail != "" && tail[0] == ' '
    ensures WordLength(w + tail) == |w|
  {
    var r := w + tail;
    if w == "" {
      assert r == tail;
    } else {
      assert r[1..] == w[1..] + tail;
      LettersLength(w[1..], tail);
    }
  }

  lemma WordNext(w: string, tail: string, e: bool)
    requires Letters(w)
    ensures Next(w + " " + tail, e) == Piece(|w|, w, false)
  {
    hide LineLength, CommentLength, QuoteLength, TagBody, FindText, WordLength, Undouble;
    var r := w + " " + tail;
    assert r[0] == w[0];
    assert r[1..] == w[1..] + (" " + tail);
    LettersLength(w[1..], " " + tail);
    assert r[..|w|] == w;
  }

  /** A keyword and the space after it. */
  lemma WordLex(w: string, tail: string, at: nat, e: bool)
    requires Letters(w)
    ensures Lex(w + " " + tail, at, e) == Then(Token(at, w, false, at + |w|), Lex(tail, at + |w| + 1, false))
  {
    hide Next, Is;
    var r := w + " " + tail;
    var t := Token(at, w, false, at + |w|);
    WordNext(w, tail, e);
    PieceStep(r, at, e, t, |w|);
    assert r[|w|..] == " " + tail;
    SpaceLex(tail, at + |w|, Is(t, "E"));
  }

  lemma SpaceLex(tail: string, at: nat, e: bool)
    ensures Lex(" " + tail, at, e) == Lex(tail, at + 1, false)
  {
    var r := " " + tail;
    assert Next(r, e) == Gap(1) && r[1..] == tail;
    GapStep(r, at, e, 1);
  }

  // ---------------------------------------------------------------- stored definitions

  /** A text without the semicolons at its end. */
  function TrimSemicolons(s: string): string {
    if s != "" && s[|s| - 1] == ';' then TrimSemicolons(s[..|s| - 1]) else s
  }

  function TrimBody(s: string): string {
    TrimSemicolons(TrimEnd(TrimStart(s)))
  }

  predicate AllSemicolons(s: string) {
    forall c | c in s :: c == ';'
  }

  lemma {:induction false} SemicolonsCut(s: string)
    ensures var b := TrimSemicolons(s);
            |b| <= |s| && s[..|b|] == b && AllSemicolons(s[|b|..]) && (b == "" || b[|b| - 1] != ';')
  {
    if s != "" && s[|s| - 1] == ';' {
      SemicolonsCut(s[..|s| - 1]);
      var n := |TrimSemicolons(s)|;
      assert s[n..] == s[..|s| - 1][n..] + [s[|s| - 1]] && s[..n] == s[..|s| - 1][..n];
    } else {
      assert s[..|s|] == s && s[|s|..] == "";
    }
  }

  lemma {:induction false} SemicolonsGone(b: string, m: string)
    requires AllSemicolons(m) && (b == "" || b[|b| - 1] != ';')
    ensures TrimSemicolons(b + m) == b
  {
    if m == "" {
      assert b + m == b;
    } else {
      var rest, last := m[..|m| - 1], m[|m| - 1];
      assert (b + m)[..|b + m| - 1] == b + rest && last in m;
      forall c | c in rest ensures c in m { assert m == rest + [last]; }
      SemicolonsGone(b, rest);
    }
  }

  /**
   * From a body the white space around it is cut off, and then the semicolons at its end: all of both, and
   * nothing else.
   */
  lemma TrimBodyExactly(s: string, b: string)
    ensures TrimBody(s) == b <==>
            && (b == "" || b[|b| - 1] != ';')
            && exists l, m, r :: IsBlank(l) && AllSemicolons(m) && IsBlank(r) && Bare(b + m) && s == l + (b + m) + r
  {
    hide Trim, TrimStart, TrimEnd, TrimSemicolons, IsBlank, Bare;
    var t := Trim(s);
    assert TrimBody(s) == TrimSemicolons(t) by { TrimsBody(s); }
    TrimExactly(s, t);
    SemicolonsCut(t);
    var l, r :| IsBlank(l) && IsBlank(r) && s == l + t + r;
    if TrimBody(s) == b {
      assert b + t[|b|..] == t;
      assert IsBlank(l) && AllSemicolons(t[|b|..]) && IsBlank(r) && Bare(b + t[|b|..])
             && s == l + (b + t[|b|..]) + r;
    }
    if b == "" || b[|b| - 1] != ';' {
      if l, m, r :| IsBlank(l) && AllSemicolons(m) && IsBlank(r) && Bare(b + m) && s == l + (b + m) + r {
        TrimExactly(s, b + m);
        SemicolonsGone(b, m);
      }
    }
  }

  lemma TrimsBody(s: string)
    ensures TrimBody(s) == TrimSemicolons(Trim(s))
  {
  }

  /** So a body that neither starts nor ends with white space, nor ends with a semicolon, comes back whole. */
  lemma TrimBodyWhole(b: string)
    requires Bare(b) && (b == "" || b[|b| - 1] != ';')
    ensures TrimBody(b) == b
  {
    hide TrimBody;
    assert b + "" == b && "" + (b + "") + "" == b;
    assert IsBlank("") && AllSemicolons("");
    TrimBodyExactly(b, b);
  }

  function Commas(names: seq<string>): string {
    if names == [] then "" else if |names| == 1 then names[0] else names[0] + ", " + Commas(names[1..])
  }

  datatype Definition = Select(sql: string) | Unrecognized(message: string)

  /** Reads a CREATE VIEW header from token `k` on; aliases are the names of a column list. */
  function Header(ddl: string, ts: seq<Token>, depth: int, aliases: seq<string>): Definition
    decreases ts
  {
    if ts == [] then Unrecognized("Unrecognized DuckDB CREATE VIEW header")
    else
      var t := ts[0];
      if Is(t, "(") then Header(ddl, ts[1..], depth + 1, aliases)
      else if Is(t, ")") then Header(ddl, ts[1..], depth - 1, aliases)
      else if Is(t, "AS") && depth == 0 then
        var body := TrimBody(if t.end <= |ddl| then ddl[t.end..] else "");
        Select(if aliases == [] then body else "SELECT * FROM (" + body + ") AS definition (" + Commas(aliases) + ")")
      else if depth > 0 && !Is(t, ",") then Header(ddl, ts[1..], depth, aliases + [Quote(t.value)])
      else Header(ddl, ts[1..], depth, aliases)
  }

  function SelectBody(ddl: string): Definition {
    match Tokens(ddl)
    case Ok(ts) => Header(ddl, ts, 0, [])
    case Err(message, _) => Unrecognized(message)
  }

  /** How many parentheses are open before a token. */
  function Opened(ts: seq<Token>, k: nat): int
    requires k <= |ts|
  {
    if k == 0 then 0
    else Opened(ts, k - 1) + if Is(ts[k - 1], "(") then 1 else if Is(ts[k - 1], ")") then -1 else 0
  }

  /** The tokens before this one that stand in parentheses, but parentheses and commas, each quoted. */
  function Listed(ts: seq<Token>, k: nat): seq<string>
    requires k <= |ts|
  {
    if k == 0 then []
    else
      var t := ts[k - 1];
      Listed(ts, k - 1)
      + if Opened(ts, k - 1) > 0 && !Is(t, "(") && !Is(t, ")") && !Is(t, ",") then [Quote(t.value)] else []
  }

  /** The header ends with this token: an AS outside of parentheses. */
  predicate EndsHeader(ts: seq<Token>, k: int) {
    0 <= k < |ts| && Is(ts[k], "AS") && Opened(ts, k) == 0
  }

  lemma {:induction false} HeaderFrom(ddl: string, ts: seq<Token>, k: nat, n: nat)
    requires n <= k <= |ts| && (forall j | 0 <= j < k :: !EndsHeader(ts, j)) && (k < |ts| ==> EndsHeader(ts, k))
    ensures Header(ddl, ts[n..], Opened(ts, n), Listed(ts, n)) == Header(ddl, ts[k..], Opened(ts, k), Listed(ts, k))
    decreases k - n
  {
    hide Is, Quote, TrimBody, Commas;
    if n < k {
      assert ts[n..][0] == ts[n] && ts[n..][1..] == ts[n + 1..] && !EndsHeader(ts, n);
      OneWord(ts[n]);
      assert Listed(ts, n) + [] == Listed(ts, n);
      HeaderStep(ddl, ts[n..], Opened(ts, n), Listed(ts, n));
      HeaderFrom(ddl, ts, k, n + 1);
    }
  }

  lemma HeaderStep(ddl: string, ts: seq<Token>, depth: int, aliases: seq<string>)
    requires ts != [] && !(Is(ts[0], "AS") && depth == 0)
    ensures var t := ts[0];
            Header(ddl, ts, depth, aliases) ==
            Header(ddl, ts[1..], if Is(t, "(") then depth + 1 else if Is(t, ")") then depth - 1 else depth,
                   if depth > 0 && !Is(t, "(") && !Is(t, ")") && !Is(t, ",") then aliases + [Quote(t.value)]
                   else aliases)
  {
    hide Is, Quote, TrimBody, Commas;
  }

  lemma OneWord(t: Token)
    ensures !(Is(t, "(") && Is(t, ")")) && !(Is(t, "AS") && (Is(t, "(") || Is(t, ")")))
  {
    assert Lower("(")[0] == '(' && Lower(")")[0] == ')';
    assert |Lower("AS")| == 2 && |Lower("(")| == 1 && |Lower(")")| == 1;
  }

  /**
   * A definition is what follows its first AS outside of parentheses, trimmed; if names are listed in
   * parentheses before it, it is selected under those names.  Without such an AS there is none.
   */
  lemma SelectBodyExactly(ddl: string, ts: seq<Token>)
    requires Tokens(ddl) == Ok(ts)
    ensures (forall k :: !EndsHeader(ts, k)) ==> SelectBody(ddl).Unrecognized?
    ensures forall k | EndsHeader(ts, k) && forall j | 0 <= j < k :: !EndsHeader(ts, j) ::
              && 0 <= ts[k].end <= |ddl|
              && var body := TrimBody(ddl[ts[k].end..]);
              SelectBody(ddl) == Select(if Listed(ts, k) == [] then body
                else "SELECT * FROM (" + body + ") AS definition (" + Commas(Listed(ts, k)) + ")")
  {
    hide Is, Quote, TrimBody, Commas, Opened, Listed, Lex;
    NoneBefore(ts);
    assert ts[0..] == ts && ts[|ts|..] == [];
    if forall k :: !EndsHeader(ts, k) { HeaderFrom(ddl, ts, |ts|, 0); }
    forall k | EndsHeader(ts, k) && forall j | 0 <= j < k :: !EndsHeader(ts, j)
      ensures 0 <= ts[k].end <= |ddl|
      ensures Header(ddl, ts, 0, []) == Header(ddl, ts[k..], 0, Listed(ts, k)) && ts[k..][0] == ts[k]
      ensures !Is(ts[k], "(") && !Is(ts[k], ")")
    {
      LexEnds(ddl, 0, false, k);
      HeaderFrom(ddl, ts, k, 0);
      OneWord(ts[k]);
    }
  }

  lemma NoneBefore(ts: seq<Token>)
    ensures Opened(ts, 0) == 0 && Listed(ts, 0) == []
  {
  }

  method ReadBody(ddl: string) returns (d: Definition)
    ensures d == SelectBody(ddl)
  {
    hide Lex, Is, TrimBody, Commas, Quote;
    var lexed := Scanner.Tokenize(ddl);
    if lexed.Err? { return Unrecognized(lexed.message); }
    var ts := lexed.tokens;
    var depth, k := 0, 0;
    var aliases: seq<string> := [];
    assert ts[0..] == ts;
    while k < |ts|
      invariant k <= |ts|
      invariant SelectBody(ddl) == Header(ddl, ts[k..], depth, aliases)
    {
      var t := ts[k];
      LexEnds(ddl, 0, false, k);
      assert ts[k..][0] == t && ts[k..][1..] == ts[k + 1..];
      if Is(t, "(") {
        depth := depth + 1;
      } else if Is(t, ")") {
        depth := depth - 1;
      } else if Is(t, "AS") && depth == 0 {
        var body := TrimBody(ddl[t.end..]);
        return Select(if aliases == [] then body
          else "SELECT * FROM (" + body + ") AS definition (" + Commas(aliases) + ")");
      } else if depth > 0 && !Is(t, ",") {
        aliases := aliases + [Quote(t.value)];
      }
      k := k + 1;
    }
    return Unrecognized("Unrecognized DuckDB CREATE VIEW header");
  }

  function CreateView(r: Relation, sql: string): string {
    "CREATE" + " " + ("OR" + " " + ("REPLACE" + " " + ("VIEW" + " " + (RelationSql(r) + (" " + ("AS" + " " + sql))))))
  }

  function Words(at: nat): seq<Token> {
    [Token(at, "CREATE", false, at + 6), Token(at + 7, "OR", false, at + 9),
     Token(at + 10, "REPLACE", false, at + 17), Token(at + 18, "VIEW", false, at + 22)]
  }

  /** The tokens of a header: four keywords, the relation, and those of what follows. */
  lemma HeaderLexes(r: Relation, tail: string)
    ensures Tokens("CREATE" + " " + ("OR" + " " + ("REPLACE" + " " + ("VIEW" + " " + (RelationSql(r) + (" " + tail))))))
            == Scanner.Join(Words(0) + NameTokens(r, 23), Lex(tail, 24 + |RelationSql(r)|, false))
  {
    hide Lex, Next, Quote, NameTokens, RelationSql;
    var rel := RelationSql(r) + (" " + tail);
    var view := "VIEW" + " " + rel;
    var replace := "REPLACE" + " " + view;
    var or := "OR" + " " + replace;
    WordLex("CREATE", or, 0, false);
    WordLex("OR", replace, 7, false);
    WordLex("REPLACE", view, 10, false);
    WordLex("VIEW", rel, 18, false);
    RelationLexes(r, " " + tail, 23, false);
    var a := 23 + |RelationSql(r)|;
    SpaceLex(tail, a, false);
    var w, n, rest := Words(0), NameTokens(r, 23), Lex(tail, a + 1, false);
    var us := match rest case Ok(ts) => ts case Err(_, ts) => ts;
    assert [w[0]] + ([w[1]] + ([w[2]] + ([w[3]] + (n + us)))) == w + n + us;
  }

  /** The tokens of a redefinition: the header, AS, and the tokens of the body. */
  lemma CreateLexes(r: Relation, sql: string)
    ensures var a := 23 + |RelationSql(r)|;
            Tokens(CreateView(r, sql)) ==
            Scanner.Join(Words(0) + NameTokens(r, 23) + [Token(a + 1, "AS", false, a + 3)], Lex(sql, a + 4, false))
  {
    hide Lex, Next, Quote, NameTokens, RelationSql;
    var a := 23 + |RelationSql(r)|;
    HeaderLexes(r, "AS" + " " + sql);
    WordLex("AS", sql, a + 1, false);
    var n, t, rest := Words(0) + NameTokens(r, 23), Token(a + 1, "AS", false, a + 3), Lex(sql, a + 4, false);
    var us := match rest case Ok(ts) => ts case Err(_, ts) => ts;
    assert n + ([t] + us) == n + [t] + us;
  }

  lemma NotWord(t: Token, w: string)
    requires t.quoted || |t.value| != |w|
    ensures !Is(t, w)
  {
    assert |Lower(t.value)| == |t.value| && |Lower(w)| == |w|;
  }

  /** A token that no branch of the header scan takes, outside any column list. */
  predicate Plain(t: Token) {
    !Is(t, "(") && !Is(t, ")") && !Is(t, "AS")
  }

  lemma {:induction false} SkipsPlain(ddl: string, before: seq<Token>, rest: seq<Token>)
    requires forall t | t in before :: Plain(t)
    ensures Header(ddl, before + rest, 0, []) == Header(ddl, rest, 0, [])
  {
    hide Is;
    if before == [] {
      assert before + rest == rest;
    } else {
      assert before[0] in before;
      assert (before + rest)[0] == before[0] && (before + rest)[1..] == before[1..] + rest;
      SkipsPlain(ddl, before[1..], rest);
    }
  }

  lemma HeaderPlain(r: Relation)
    ensures forall t | t in Words(0) + NameTokens(r, 23) :: Plain(t)
  {
    forall t | t in Words(0) + NameTokens(r, 23) ensures Plain(t) {
      if t == Words(0)[1] {
        assert Lower("OR")[0] == 'o' && Lower("AS")[0] == 'a';
      } else if t == NameTokens(r, 23)[1] {
        assert Lower(".")[0] == '.' && Lower("(")[0] == '(' && Lower(")")[0] == ')';
        NotWord(t, "AS");
      } else {
        NotWord(t, "AS");
      }
      if t != NameTokens(r, 23)[1] {
        NotWord(t, "(");
        NotWord(t, ")");
      }
    }
  }

  /** Whatever the names, the body of a redefinition is read back, trimmed, exactly when it lexes. */
  lemma DefinitionRoundTrip(r: Relation, sql: string)
    ensures SelectBody(CreateView(r, sql)).Select? <==> Tokens(sql).Ok?
    ensures Tokens(sql).Ok? ==> SelectBody(CreateView(r, sql)) == Select(TrimBody(sql))
  {
    hide Lex, Next, Quote, NameTokens, RelationSql, Is;
    var ddl := CreateView(r, sql);
    var a := 23 + |RelationSql(r)|;
    var before, t := Words(0) + NameTokens(r, 23), Token(a + 1, "AS", false, a + 3);
    CreateLexes(r, sql);
    LexMoves(sql, a + 4, 0, false);
    if Tokens(sql).Ok? {
      var rest := Lex(sql, a + 4, false).tokens;
      HeaderPlain(r);
      assert before + [t] + rest == before + ([t] + rest);
      SkipsPlain(ddl, before, [t] + rest);
      AsToken(t);
      assert ([t] + rest)[0] == t;
      assert ddl[a + 3..] == " " + sql;
      assert (" " + sql)[1..] == sql;
    }
  }

  lemma AsToken(t: Token)
    requires t.value == "AS" && !t.quoted
    ensures Is(t, "AS") && !Is(t, "(") && !Is(t, ")")
  {
    NotWord(t, "(");
    NotWord(t, ")");
  }

  // ---------------------------------------------------------------- column lists

  /** The quoted names, as a list. */
  function QuoteAll(names: seq<string>): (r: seq<string>)
    ensures |r| == |names|
  {
    seq(|names|, i requires 0 <= i < |names| => Quote(names[i]))
  }

  /** The tokens of a list of quoted names, the first of which starts here. */
  function ListTokens(names: seq<string>, at: nat): seq<Token> {
    if names == [] then []
    else
      var a := at + |Quote(names[0])|;
      [Token(at, names[0], true, a)] +
      if |names| == 1 then [] else [Token(a, ",", false, a + 1)] + ListTokens(names[1..], a + 2)
  }

  lemma CommasCons(names: seq<string>)
    requires |names| > 1
    ensures Commas(QuoteAll(names)) == Quote(names[0]) + ("," + (" " + Commas(QuoteAll(names[1..]))))
  {
    assert QuoteAll(names)[1..] == QuoteAll(names[1..]);
    assert Quote(names[0]) + ", " + Commas(QuoteAll(names[1..])) ==
           Quote(names[0]) + ("," + (" " + Commas(QuoteAll(names[1..]))));
  }

  lemma {:induction false} ListLexes(names: seq<string>, tail: string, at: nat, e: bool)
    requires names != [] && tail != "" && tail[0] == ')'
    ensures var text := Commas(QuoteAll(names));
            Lex(text + tail, at, e) == Scanner.Join(ListTokens(names, at), Lex(tail, at + |text|, false))
    decreases |names|
  {
    hide Lex, Quote, Next;
    var text := Commas(QuoteAll(names));
    if |names| == 1 {
      assert text == Quote(names[0]);
      QuotedLex(names[0], tail, at, e);
    } else {
      var more := Commas(QuoteAll(names[1..]));
      CommasCons(names);
      assert text + tail == Quote(names[0]) + ("," + (" " + (more + tail)));
      QuotedLex(names[0], "," + (" " + (more + tail)), at, e);
      var a := at + |Quote(names[0])|;
      MarkLex(',', " " + (more + tail), a, false);
      SpaceLex(more + tail, a + 1, false);
      ListLexes(names[1..], tail, a + 2, false);
      var rest := Lex(tail, at + |text|, false);
      var us := match rest case Ok(ts) => ts case Err(_, ts) => ts;
      ThreeJoined(Token(at, names[0], true, a), Token(a, ",", false, a + 1), ListTokens(names[1..], a + 2), us);
    }
  }

  lemma ThreeJoined(x: Token, y: Token, zs: seq<Token>, us: seq<Token>)
    ensures [x] + ([y] + (zs + us)) == [x] + ([y] + zs) + us
  {
  }

  /** Inside the parentheses every name of the list is taken, in order. */
  lemma {:induction false} ListRead(ddl: string, names: seq<string>, at: nat, rest: seq<Token>, aliases: seq<string>)
    ensures Header(ddl, ListTokens(names, at) + rest, 1, aliases) == Header(ddl, rest, 1, aliases + QuoteAll(names))
    decreases |names|
  {
    hide Is;
    var ts := ListTokens(names, at);
    if names == [] {
      assert ts + rest == rest && aliases + QuoteAll([]) == aliases;
    } else {
      var a := at + |Quote(names[0])|;
      var t, taken := Token(at, names[0], true, a), aliases + [Quote(names[0])];
      assert (ts + rest)[0] == t;
      NotWord(t, "(");
      NotWord(t, ")");
      NotWord(t, "AS");
      NotWord(t, ",");
      assert taken + QuoteAll(names[1..]) == aliases + QuoteAll(names);
      if |names| == 1 {
        assert (ts + rest)[1..] == rest && QuoteAll(names[1..]) == [] && taken + [] == taken;
      } else {
        var comma, more := Token(a, ",", false, a + 1), ListTokens(names[1..], a + 2);
        assert (ts + rest)[1..] == [comma] + (more + rest) && ([comma] + (more + rest))[1..] == more + rest;
        CommaToken(comma);
        ListRead(ddl, names[1..], a + 2, rest, taken);
      }
    }
  }

  lemma CommaToken(t: Token)
    requires t.value == "," && !t.quoted
    ensures Is(t, ",") && !Is(t, "(") && !Is(t, ")") && !Is(t, "AS")
  {
    assert Lower(",")[0] == ',' && Lower("(")[0] == '(' && Lower(")")[0] == ')';
    NotWord(t, "AS");
  }

  /** A view that gives its columns other names. */
  function CreateColumns(r: Relation, names: seq<string>, sql: string): string {
    "CREATE" + " " + ("OR" + " " + ("REPLACE" + " " + ("VIEW" + " " + (RelationSql(r) +
      (" " + ("(" + (Commas(QuoteAll(names)) + (")" + (" " + ("AS" + " " + sql))))))))))
  }

  /** The column list and what follows it. */
  lemma ColumnsLex(names: seq<string>, sql: string, at: nat)
    requires names != []
    ensures var n := |Commas(QuoteAll(names))|;
            Lex("(" + (Commas(QuoteAll(names)) + (")" + (" " + ("AS" + " " + sql)))), at, false) ==
            Scanner.Join([Token(at, "(", false, at + 1)] + ListTokens(names, at + 1) +
                           [Token(at + 1 + n, ")", false, at + 2 + n), Token(at + 3 + n, "AS", false, at + 5 + n)],
                         Lex(sql, at + 6 + n, false))
  {
    hide Lex, Next, Quote, Commas;
    var list, as_ := Commas(QuoteAll(names)), "AS" + " " + sql;
    var n := |list|;
    MarkLex('(', list + (")" + (" " + as_)), at, false);
    ListLexes(names, ")" + (" " + as_), at + 1, false);
    MarkLex(')', " " + as_, at + 1 + n, false);
    SpaceLex(as_, at + 2 + n, false);
    WordLex("AS", sql, at + 3 + n, false);
    var rest := Lex(sql, at + 6 + n, false);
    var us := match rest case Ok(ts) => ts case Err(_, ts) => ts;
    var o, ls := Token(at, "(", false, at + 1), ListTokens(names, at + 1);
    var c, t := Token(at + 1 + n, ")", false, at + 2 + n), Token(at + 3 + n, "AS", false, at + 5 + n);
    assert [o] + (ls + ([c] + ([t] + us))) == [o] + ls + [c, t] + us;
  }

  /** A stored view with a column list is read back as its body under those column names, whatever they are. */
  lemma ColumnsRoundTrip(r: Relation, names: seq<string>, sql: string)
    requires names != [] && Tokens(sql).Ok?
    ensures SelectBody(CreateColumns(r, names, sql)) ==
            Select("SELECT * FROM (" + TrimBody(sql) + ") AS definition (" + Commas(QuoteAll(names)) + ")")
  {
    hide Lex, Next, Quote, NameTokens, RelationSql, Is, Commas, ListTokens, TrimBody;
    var list := Commas(QuoteAll(names));
    var columns := "(" + (list + (")" + (" " + ("AS" + " " + sql))));
    var ddl, a := CreateColumns(r, names, sql), 23 + |RelationSql(r)|;
    HeaderLexes(r, columns);
    ColumnsLex(names, sql, a + 1);
    var n := |list|;
    LexMoves(sql, a + 7 + n, 0, false);
    var rest := Lex(sql, a + 7 + n, false).tokens;
    var before, ls := Words(0) + NameTokens(r, 23), ListTokens(names, a + 2);
    var o, c, t := Token(a + 1, "(", false, a + 2), Token(a + 2 + n, ")", false, a + 3 + n),
      Token(a + 4 + n, "AS", false, a + 6 + n);
    var after := [c] + ([t] + rest);
    assert Tokens(ddl) == Ok(before + ([o] + (ls + after))) by {
      assert before + ([o] + ls + [c, t] + rest) == before + ([o] + (ls + after));
    }
    HeaderPlain(r);
    SkipsPlain(ddl, before, [o] + (ls + after));
    OpenAndClose(o, c);
    AsToken(t);
    assert ([o] + (ls + after))[1..] == ls + after && after[1..] == [t] + rest;
    ListRead(ddl, names, a + 2, after, []);
    assert [] + QuoteAll(names) == QuoteAll(names);
    assert ddl[t.end..] == " " + sql by { ColumnsEnd(r, names, sql); }
    SpacedBody(sql);
  }

  lemma OpenAndClose(o: Token, c: Token)
    requires o.value == "(" && c.value == ")" && !o.quoted && !c.quoted
    ensures Is(o, "(") && Is(c, ")") && !Is(c, "(")
  {
    assert Lower("(")[0] == '(' && Lower(")")[0] == ')';
  }

  lemma SpacedBody(sql: string)
    ensures TrimBody(" " + sql) == TrimBody(sql)
  {
    assert (" " + sql)[1..] == sql;
  }

  lemma ColumnsEnd(r: Relation, names: seq<string>, sql: string)
    ensures var at := 29 + |RelationSql(r)| + |Commas(QuoteAll(names))|;
            |CreateColumns(r, names, sql)| >= at && CreateColumns(r, names, sql)[at..] == " " + sql
  {
    hide RelationSql, Commas;
    var rel, list := RelationSql(r), Commas(QuoteAll(names));
    var front := "CREATE OR REPLACE VIEW " + rel + " (" + list + ") AS";
    assert CreateColumns(r, names, sql) == front + (" " + sql);
  }
}
