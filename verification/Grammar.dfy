/**
 * The texts that the lexer takes, written down as a grammar of its own: a text lexes exactly if it can be
 * printed from white space, comments, quoted and dollar-quoted texts, marks and words, and its tokens are
 * then those of the printed items.
 */
module Grammar {
  import opened Names
  import opened Lexer
  import opened Ddl
  import Scanner

  /** What follows the opening of a block comment: characters and whole comments, up to the closing. */
  datatype Comment = End | Plain(c: char, rest: Comment) | Nested(inner: Comment, rest: Comment)

  /** In a text after the word E: a character, a backslash and the character it escapes, or a doubled quote. */
  datatype Part = Raw(c: char) | Back(c: char) | Twice

  datatype Item =
    | Space(c: char)
    | Line(text: string)
    | Block(body: Comment)
    | Quoted(delimiter: char, text: string)
    | Escaped(parts: seq<Part>)
    | Dollar(tag: string, text: string)
    | Mark(c: char)
    | Word(text: string)

  // ---------------------------------------------------------------- printing

  function Body(c: Comment): (r: string)
    ensures |r| >= 2
  {
    match c
    case End => "*/"
    case Plain(x, rest) => [x] + Body(rest)
    case Nested(inner, rest) => "/*" + Body(inner) + Body(rest)
  }

  function PrintPart(p: Part): string {
    match p
    case Raw(c) => [c]
    case Back(c) => ['\\', c]
    case Twice => "''"
  }

  function PrintParts(ps: seq<Part>): string {
    if ps == [] then "" else PrintPart(ps[0]) + PrintParts(ps[1..])
  }

  function PrintItem(x: Item): string {
    match x
    case Space(c) => [c]
    case Line(text) => "--" + text
    case Block(body) => "/*" + Body(body)
    case Quoted(d, text) => [d] + Double(text, d) + [d]
    case Escaped(parts) => "'" + PrintParts(parts) + "'"
    case Dollar(tag, text) => Tag(tag) + text + Tag(tag)
    case Mark(c) => [c]
    case Word(text) => text
  }

  function Tag(tag: string): string {
    "$" + tag + "$"
  }

  function Print(xs: seq<Item>): string {
    if xs == [] then "" else PrintItem(xs[0]) + Print(xs[1..])
  }

  /** The tokens of the items, the first of which is printed at this position. */
  function Expected(xs: seq<Item>, at: nat): seq<Token> {
    if xs == [] then []
    else
      var x, next := xs[0], at + |PrintItem(xs[0])|;
      (match x
       case Quoted(_, text) => [Token(at, text, true, next)]
       case Escaped(parts) => [Token(at, Undouble(PrintParts(parts), '\''), true, next)]
       case Dollar(_, _) => [Token(at, PrintItem(x), true, next)]
       case Mark(c) => [Token(at, [c], false, next)]
       case Word(text) => [Token(at, text, false, next)]
       case _ => []) + Expected(xs[1..], next)
  }

  // ---------------------------------------------------------------- which items fit

  const SPACES := {' ', '\t', '\n', '\r', '\U{0C}'}
  const MARKS := {'(', ')', ';', ',', '.'}
  const QUOTES := {'\'', '"'}

  predicate OpensComment(r: string) {
    |r| >= 2 && (r[..2] == "--" || r[..2] == "/*")
  }

  /** A word goes on up to white space, a mark, a quote or a comment. */
  predicate Stops(r: string) {
    r == "" || r[0] in SPACES + MARKS + QUOTES || OpensComment(r)
  }

  /** A dollar sign, characters of a tag, and another dollar sign. */
  ghost predicate OpensDollar(r: string) {
    exists k :: 0 < k < |r| && r[0] == '$' && r[k] == '$' && forall j | 0 < j < k :: TagChar(r[j])
  }

  predicate TagChar(c: char) {
    '0' <= c <= '9' || 'A' <= c <= 'Z' || c == '_' || 'a' <= c <= 'z'
  }

  /** No character of a comment makes an opening or a closing with what follows it. */
  predicate Unmixed(c: Comment) {
    match c
    case End => true
    case Plain(x, rest) => !([x, Body(rest)[0]] in {"/*", "*/"}) && Unmixed(rest)
    case Nested(inner, rest) => Unmixed(inner) && Unmixed(rest)
  }

  /** Nowhere in this text, continued by `p`, does `p` begin. */
  ghost predicate NotBefore(text: string, p: string) {
    forall i | 0 <= i < |text| :: !(p <= (text + p)[i..])
  }

  /** The item, printed before this text, ends where it should; `e` says that the word E ends right before it. */
  ghost predicate FitsBefore(x: Item, tail: string, e: bool) {
    match x
    case Space(c) => c in SPACES
    case Line(text) => '\n' !in text && (tail == "" || tail[0] == '\n')
    case Block(body) => Unmixed(body)
    case Quoted(d, text) => d in QUOTES && !(e && d == '\'') && (tail == "" || tail[0] != d)
    case Escaped(parts) =>
      e && (tail == "" || tail[0] != '\'') && forall p | p in parts && p.Raw? :: p.c != '\\' && p.c != '\''
    case Dollar(tag, text) =>
      && (forall c | c in tag :: TagChar(c))
      && NotBefore(text, Tag(tag))
    case Mark(c) => c in MARKS
    case Word(text) =>
      && text != "" && Stops(tail) && !OpensDollar(text + tail)
      && forall i | 0 <= i < |text| :: !Stops((text + tail)[i..])
  }

  predicate IsE(x: Item) {
    x.Word? && (x.text == "E" || x.text == "e")
  }

  /** Every item fits before what is printed after it, and before this text after all of them. */
  ghost predicate FitAll(xs: seq<Item>, tail: string, e: bool) {
    xs == [] || (FitsBefore(xs[0], Print(xs[1..]) + tail, e) && FitAll(xs[1..], tail, IsE(xs[0])))
  }

  ghost predicate Fit(xs: seq<Item>) {
    FitAll(xs, "", false)
  }

  /** What the lexer makes of one item. */
  function LexemeOf(x: Item): Lexeme {
    var n := |PrintItem(x)|;
    match x
    case Quoted(_, text) => Piece(n, text, true)
    case Escaped(parts) => Piece(n, Undouble(PrintParts(parts), '\''), true)
    case Dollar(_, _) => Piece(n, PrintItem(x), true)
    case Mark(c) => Piece(n, [c], false)
    case Word(text) => Piece(n, text, false)
    case _ => Gap(n)
  }

  // ---------------------------------------------------------------- from items to lexemes

  lemma {:induction false} LinePrinted(text: string, tail: string)
    requires '\n' !in text && (tail == "" || tail[0] == '\n')
    ensures LineLength(text + tail) == |text|
  {
    var r := text + tail;
    if text == "" {
      assert r == tail;
    } else {
      assert r[1..] == text[1..] + tail && r[0] == text[0];
      LinePrinted(text[1..], tail);
    }
  }

  lemma Joined(a: string, b: string, tail: string)
    ensures a + b + tail == a + (b + tail) && (a + (b + tail))[|a|..] == b + tail
  {
  }

  lemma PlainStep(x: char, inner: string, tail: string, depth: nat)
    requires depth > 0 && inner != "" && !([x, inner[0]] in {"/*", "*/"})
    ensures CommentLength([x] + inner + tail, depth) == More(1, CommentLength(inner + tail, depth))
  {
    var r := [x] + inner + tail;
    Joined([x], inner, tail);
    assert [r[0], r[1]] == [x, inner[0]];
  }

  lemma NestedStep(inner: string, rest: string, tail: string, depth: nat)
    requires depth > 0
    ensures CommentLength("/*" + inner + rest + tail, depth) == More(2, CommentLength(inner + (rest + tail), depth + 1))
  {
    var r := "/*" + inner + rest + tail;
    assert r == "/*" + (inner + (rest + tail)) && Begins2(r, '/', '*');
    assert r[2..] == inner + (rest + tail);
  }

  lemma EndStep(tail: string, depth: nat)
    requires depth > 0
    ensures CommentLength("*/" + tail, depth) ==
            if depth == 1 then Some(2) else More(2, CommentLength(tail, depth - 1))
  {
    var r := "*/" + tail;
    assert Begins2(r, '*', '/') && r[2..] == tail;
  }

  lemma {:induction false} CommentPrinted(c: Comment, tail: string, depth: nat)
    requires Unmixed(c) && depth > 0
    ensures CommentLength(Body(c) + tail, depth) ==
            if depth == 1 then Some(|Body(c)|) else More(|Body(c)|, CommentLength(tail, depth - 1))
    decreases c
  {
    hide CommentLength;
    match c
    case End => EndStep(tail, depth);
    case Plain(x, rest) =>
      PlainStep(x, Body(rest), tail, depth);
      CommentPrinted(rest, tail, depth);
    case Nested(inner, rest) =>
      NestedStep(Body(inner), Body(rest), tail, depth);
      CommentPrinted(inner, Body(rest) + tail, depth + 1);
      CommentPrinted(rest, tail, depth);
  }

  lemma PartStep(p: Part, inner: string)
    requires p.Raw? ==> p.c != '\\' && p.c != '\''
    ensures QuoteLength(PrintPart(p) + inner, '\'', true) == More(|PrintPart(p)|, QuoteLength(inner, '\'', true))
  {
    var r := PrintPart(p) + inner;
    assert r[|PrintPart(p)|..] == inner && r[..|PrintPart(p)|] == PrintPart(p);
    if !p.Raw? { assert r[1] == PrintPart(p)[1]; }
  }

  lemma QuoteEnds(tail: string)
    requires Closes(tail, '\'')
    ensures QuoteLength("'" + tail, '\'', true) == Some(1)
  {
    if tail != "" { assert ("'" + tail)[1] == tail[0]; }
  }

  lemma {:induction false} PartsPrinted(ps: seq<Part>, tail: string)
    requires Closes(tail, '\'') && forall p | p in ps && p.Raw? :: p.c != '\\' && p.c != '\''
    ensures QuoteLength(PrintParts(ps) + "'" + tail, '\'', true) == Some(|PrintParts(ps)| + 1)
    decreases |ps|
  {
    hide QuoteLength, PrintPart;
    if ps == [] {
      assert "" + "'" + tail == "'" + tail;
      QuoteEnds(tail);
    } else {
      var inner := PrintParts(ps[1..]) + "'" + tail;
      assert PrintParts(ps) + "'" + tail == PrintPart(ps[0]) + inner;
      assert ps[0] in ps;
      PartStep(ps[0], inner);
      PartsPrinted(ps[1..], tail);
    }
  }

  lemma {:induction false} TagPrinted(tag: string, rest: string)
    requires forall c | c in tag :: TagChar(c)
    ensures TagBody(tag + "$" + rest) == Some(|tag|)
  {
    var r := tag + "$" + rest;
    if tag != "" {
      assert r[0] == tag[0] && tag[0] in tag && r[1..] == tag[1..] + "$" + rest;
      TagPrinted(tag[1..], rest);
    }
  }

  lemma {:induction false} FirstFound(text: string, p: string, tail: string)
    requires p != "" && NotBefore(text, p)
    ensures FindText(text + p + tail, p) == Some(|text|)
  {
    var r := text + p + tail;
    if text == "" {
      assert r[..|p|] == p;
    } else {
      assert !(p <= (text + p)[0..]);
      assert r[..|p|] == (text + p)[0..][..|p|];
      assert r[1..] == text[1..] + p + tail;
      forall i | 0 <= i < |text[1..]| ensures !(p <= (text[1..] + p)[i..]) {
        assert (text[1..] + p)[i..] == (text + p)[i + 1..];
      }
      FirstFound(text[1..], p, tail);
    }
  }

  lemma StopsIsEnd(r: string)
    ensures Stops(r) <==> r == "" || EndsWord(r)
  {
    if |r| >= 2 { assert r[..2] == [r[0], r[1]]; }
  }

  lemma {:induction false} WordPrinted(text: string, tail: string)
    requires Stops(tail) && forall i | 0 <= i < |text| :: !Stops((text + tail)[i..])
    ensures WordLength(text + tail) == |text|
  {
    var r := text + tail;
    StopsIsEnd(r);
    if text == "" {
      assert r == tail;
    } else {
      assert r[0..] == r && r[1..] == text[1..] + tail;
      forall i | 0 <= i < |text[1..]| ensures !Stops((text[1..] + tail)[i..]) {
        assert (text[1..] + tail)[i..] == r[i + 1..];
      }
      WordPrinted(text[1..], tail);
    }
  }

  lemma {:induction false} TagBodyIs(r: string)
    ensures TagBody(r).Some? ==> var n := TagBody(r).value; r[n] == '$' && forall j | 0 <= j < n :: TagChar(r[j])
    ensures forall k | 0 <= k < |r| && r[k] == '$' && (forall j | 0 <= j < k :: TagChar(r[j])) :: TagBody(r) == Some(k)
  {
    if r != "" {
      TagBodyIs(r[1..]);
      forall k | 0 <= k < |r| && r[k] == '$' && (forall j | 0 <= j < k :: TagChar(r[j])) ensures TagBody(r) == Some(k) {
        if k > 0 {
          assert TagChar(r[0]) && r[1..][k - 1] == '$';
          forall j | 0 <= j < k - 1 ensures TagChar(r[1..][j]) { assert r[1..][j] == r[j + 1]; }
        }
      }
    }
  }

  lemma DollarIsTag(r: string)
    requires r != "" && r[0] == '$'
    ensures OpensDollar(r) <==> TagLength(r).Some?
  {
    TagBodyIs(r[1..]);
    if OpensDollar(r) {
      var k :| 0 < k < |r| && r[0] == '$' && r[k] == '$' && forall j | 0 < j < k :: TagChar(r[j]);
      assert r[1..][k - 1] == '$';
      forall j | 0 <= j < k - 1 ensures TagChar(r[1..][j]) { assert r[1..][j] == r[j + 1]; }
    }
    if TagLength(r).Some? {
      var n := TagBody(r[1..]).value;
      assert r[n + 1] == '$';
      forall j | 0 < j < n + 1 ensures TagChar(r[j]) { assert r[1..][j - 1] == r[j]; }
    }
  }

  lemma GapPrinted(x: Item, tail: string, e: bool)
    requires FitsBefore(x, tail, e) && (x.Space? || x.Line? || x.Mark?)
    ensures Next(PrintItem(x) + tail, e) == LexemeOf(x)
  {
    hide LineLength, CommentLength, QuoteLength, TagBody, FindText, WordLength, Undouble;
    var r := PrintItem(x) + tail;
    match x
    case Space(c) =>
    case Mark(c) => assert r[..1] == [c];
    case Line(text) =>
      assert r[2..] == text + tail;
      LinePrinted(text, tail);
  }

  lemma BlockPrinted(body: Comment, tail: string, e: bool)
    requires Unmixed(body)
    ensures Next("/*" + Body(body) + tail, e) == Gap(2 + |Body(body)|)
  {
    hide LineLength, CommentLength, QuoteLength, TagBody, FindText, WordLength, Undouble, Body, Unmixed;
    var r := "/*" + Body(body) + tail;
    assert r[2..] == Body(body) + tail && Begins2(r, '/', '*');
    CommentPrinted(body, tail, 1);
  }

  lemma QuotedPrinted(d: char, text: string, tail: string, e: bool)
    requires FitsBefore(Quoted(d, text), tail, e)
    ensures Next(PrintItem(Quoted(d, text)) + tail, e) == LexemeOf(Quoted(d, text))
  {
    hide QuoteLength, TagBody, FindText, WordLength, Undouble, Double;
    var r, inner := PrintItem(Quoted(d, text)) + tail, Double(text, d);
    assert r[0] == d && r[1..] == inner + [d] + tail && r[1..|inner| + 1] == inner;
    DoubledLength(text, d, tail);
    UndoubleDoubled(text, d);
  }

  lemma EscapedPrinted(parts: seq<Part>, tail: string, e: bool)
    requires FitsBefore(Escaped(parts), tail, e)
    ensures Next(PrintItem(Escaped(parts)) + tail, e) == LexemeOf(Escaped(parts))
  {
    hide QuoteLength, TagBody, FindText, WordLength, Undouble, PrintParts;
    var r, inner := PrintItem(Escaped(parts)) + tail, PrintParts(parts);
    assert r[0] == '\'' && r[1..] == inner + "'" + tail && r[1..|inner| + 1] == inner;
    PartsPrinted(parts, tail);
  }

  /** An item that fits is read back as itself. */
  lemma PrintedNext(x: Item, tail: string, e: bool)
    requires FitsBefore(x, tail, e)
    ensures PrintItem(x) != "" && Next(PrintItem(x) + tail, e) == LexemeOf(x)
  {
    hide Next;
    match x
    case Quoted(d, text) => QuotedPrinted(d, text, tail, e);
    case Escaped(parts) => EscapedPrinted(parts, tail, e);
    case Dollar(tag, text) => DollarPrinted(tag, text, tail, e);
    case Word(text) => WordItem(text, tail, e);
    case Block(body) => BlockPrinted(body, tail, e);
    case _ => GapPrinted(x, tail, e);
  }

  /** A text that starts with a tag and goes on with this text. */
  lemma TagStarts(tag: string, rest: string)
    requires forall c | c in tag :: TagChar(c)
    ensures var r := Tag(tag) + rest;
            r[0] == '$' && TagLength(r) == Some(|Tag(tag)|) && r[..|Tag(tag)|] == Tag(tag) && r[|Tag(tag)|..] == rest
  {
    hide TagBody;
    var r := Tag(tag) + rest;
    assert r[1..] == tag + "$" + rest;
    TagPrinted(tag, rest);
  }

  lemma DollarPrinted(tag: string, text: string, tail: string, e: bool)
    requires FitsBefore(Dollar(tag, text), tail, e)
    ensures Next(PrintItem(Dollar(tag, text)) + tail, e) == LexemeOf(Dollar(tag, text))
  {
    hide TagLength, FindText, LineLength, CommentLength, QuoteLength, WordLength, Undouble, Tag, NotBefore;
    var t := Tag(tag);
    var r := PrintItem(Dollar(tag, text)) + tail;
    assert r == t + (text + t + tail);
    TagStarts(tag, text + t + tail);
    FirstFound(text, t, tail);
    assert r[..|t + text + t|] == t + text + t;
  }

  lemma WordItem(text: string, tail: string, e: bool)
    requires FitsBefore(Word(text), tail, e)
    ensures Next(text + tail, e) == LexemeOf(Word(text))
  {
    hide TagBody, FindText, LineLength, CommentLength, QuoteLength, WordLength, Undouble;
    var r := text + tail;
    assert !Stops(r[0..]) && r[0..] == r;
    StopsIsEnd(r);
    if r[0] == '$' { DollarIsTag(r); }
    assert r[1..] == text[1..] + tail;
    forall i | 0 <= i < |text[1..]| ensures !Stops((text[1..] + tail)[i..]) {
      assert (text[1..] + tail)[i..] == r[i + 1..];
    }
    WordPrinted(text[1..], tail);
    assert r[..|text|] == text;
  }

  // ---------------------------------------------------------------- from lexemes to items

  lemma {:induction false} LineText(r: string)
    ensures var n := LineLength(r); '\n' !in r[..n] && (r[n..] == "" || r[n..][0] == '\n')
  {
    if r != "" && r[0] != '\n' {
      LineText(r[1..]);
      var n := LineLength(r[1..]);
      assert r[..n + 1] == [r[0]] + r[1..][..n] && r[n + 1..] == r[1..][n..];
    }
  }

  function Bodies(cs: seq<Comment>): string {
    if cs == [] then "" else Body(cs[0]) + Bodies(cs[1..])
  }

  lemma BodiesCons(c: Comment, cs: seq<Comment>)
    ensures Bodies([c] + cs) == Body(c) + Bodies(cs)
  {
    assert ([c] + cs)[1..] == cs;
  }

  lemma BodiesOpen(cs: seq<Comment>)
    requires |cs| >= 2
    ensures Bodies([Nested(cs[0], cs[1])] + cs[2..]) == "/*" + Bodies(cs)
  {
    hide Bodies, Body;
    BodiesCons(Nested(cs[0], cs[1]), cs[2..]);
    BodiesCons(cs[1], cs[2..]);
    BodiesCons(cs[0], [cs[1]] + cs[2..]);
    assert [cs[0]] + ([cs[1]] + cs[2..]) == cs;
    NestedBody(cs[0], cs[1]);
    FourParts("/*", Body(cs[0]), Body(cs[1]), Bodies(cs[2..]));
  }

  lemma NestedBody(inner: Comment, rest: Comment)
    ensures Body(Nested(inner, rest)) == "/*" + Body(inner) + Body(rest)
  {
  }

  lemma FourParts(a: string, b: string, c: string, d: string)
    ensures a + b + c + d == a + (b + (c + d))
  {
  }

  lemma BodiesPlain(x: char, cs: seq<Comment>)
    requires cs != []
    ensures Bodies([Plain(x, cs[0])] + cs[1..]) == [x] + Bodies(cs) && Bodies(cs)[0] == Body(cs[0])[0]
  {
    hide Bodies;
    BodiesCons(Plain(x, cs[0]), cs[1..]);
    BodiesCons(cs[0], cs[1..]);
    assert [cs[0]] + cs[1..] == cs;
  }

  lemma BodiesEnd(cs: seq<Comment>)
    ensures Bodies([End] + cs) == "*/" + Bodies(cs)
  {
    BodiesCons(End, cs);
  }

  lemma Prefix(r: string, k: nat, n: nat)
    requires k + n <= |r|
    ensures r[..k + n] == r[..k] + r[k..][..n]
  {
  }

  /** A comment that is closed at some depth is that many comments, the open ones, one after the other. */
  lemma {:induction false} CommentText(r: string, depth: nat) returns (cs: seq<Comment>)
    requires depth > 0 && CommentLength(r, depth).Some?
    ensures |cs| == depth && r[..CommentLength(r, depth).value] == Bodies(cs) && forall c | c in cs :: Unmixed(c)
    decreases |r|
  {
    hide Body, Bodies;
    if Begins2(r, '/', '*') {
      var inner := CommentText(r[2..], depth + 1);
      BodiesOpen(inner);
      Prefix(r, 2, CommentLength(r[2..], depth + 1).value);
      cs := [Nested(inner[0], inner[1])] + inner[2..];
      assert Unmixed(inner[0]) && Unmixed(inner[1]) by { assert inner[0] in inner && inner[1] in inner; }
    } else if Begins2(r, '*', '/') {
      if depth == 1 {
        BodiesEnd([]);
        NoBodies();
        cs := [End];
      } else {
        var rest := CommentText(r[2..], depth - 1);
        BodiesEnd(rest);
        Prefix(r, 2, CommentLength(r[2..], depth - 1).value);
        cs := [End] + rest;
      }
    } else {
      var inner := CommentText(r[1..], depth);
      BodiesPlain(r[0], inner);
      var n := CommentLength(r[1..], depth).value;
      Prefix(r, 1, n);
      assert r[1] == r[1..][..n][0];
      cs := [Plain(r[0], inner[0])] + inner[1..];
      assert Unmixed(inner[0]) by { assert inner[0] in inner; }
    }
  }

  lemma NoBodies()
    ensures Bodies([]) == "" && [End] + [] == [End]
  {
  }

  lemma DoubleCons(c: char, text: string, d: char)
    ensures Double([c] + text, d) == (if c == d then [d, d] else [c]) + Double(text, d)
  {
    assert ([c] + text)[1..] == text;
  }

  lemma Suffix(r: string, k: nat, n: nat)
    requires k + n <= |r|
    ensures r[k..][n..] == r[k + n..]
  {
  }

  lemma {:induction false} QuoteText(r: string, d: char) returns (text: string)
    requires QuoteLength(r, d, false).Some?
    ensures var n := QuoteLength(r, d, false).value; r[..n] == Double(text, d) + [d] && Closes(r[n..], d)
    decreases |r|
  {
    hide Double;
    var k := if r[0] == d && |r| >= 2 && r[1] == d then 2 else 1;
    if k == 1 && r[0] == d {
      text := "";
      assert Double("", d) == "" by { NothingDoubled(d); }
    } else {
      var rest := QuoteText(r[k..], d);
      var n := QuoteLength(r[k..], d, false).value;
      text := [r[0]] + rest;
      DoubleCons(r[0], rest, d);
      Prefix(r, k, n);
      Suffix(r, k, n);
      assert r[..k] == if r[0] == d then [d, d] else [r[0]];
    }
  }

  lemma NothingDoubled(d: char)
    ensures Double("", d) == ""
  {
  }

  lemma PartsCons(p: Part, ps: seq<Part>)
    ensures PrintParts([p] + ps) == PrintPart(p) + PrintParts(ps)
  {
    assert ([p] + ps)[1..] == ps;
  }

  /** The first part of a text that goes on, and how long it is. */
  lemma FirstPart(r: string) returns (p: Part, k: nat)
    requires QuoteLength(r, '\'', true).Some? && QuoteLength(r, '\'', true).value > 1
    ensures p.Raw? ==> p.c != '\\' && p.c != '\''
    ensures 0 < k <= |r| && PrintPart(p) == r[..k]
    ensures QuoteLength(r, '\'', true) == More(k, QuoteLength(r[k..], '\'', true))
  {
    if r[0] == '\\' {
      p, k := Back(r[1]), 2;
    } else if r[0] == '\'' {
      p, k := Twice, 2;
    } else {
      p, k := Raw(r[0]), 1;
    }
  }

  lemma LastQuote(r: string)
    requires QuoteLength(r, '\'', true) == Some(1)
    ensures r[..1] == "'" && Closes(r[1..], '\'')
  {
  }

  lemma {:induction false} PartsText(r: string) returns (ps: seq<Part>)
    requires QuoteLength(r, '\'', true).Some?
    ensures forall p | p in ps && p.Raw? :: p.c != '\\' && p.c != '\''
    ensures var n := QuoteLength(r, '\'', true).value; r[..n] == PrintParts(ps) + "'" && Closes(r[n..], '\'')
    decreases |r|
  {
    hide QuoteLength, PrintPart, Closes;
    ps := [];
    if QuoteLength(r, '\'', true).value == 1 {
      LastQuote(r);
    } else {
      var p, k := FirstPart(r);
      var rest := PartsText(r[k..]);
      var n := QuoteLength(r[k..], '\'', true).value;
      ps := [p] + rest;
      PartsCons(p, rest);
      Prefix(r, k, n);
      Suffix(r, k, n);
    }
  }

  lemma NotBeforeCons(c: char, text: string, p: string)
    requires NotBefore(text, p) && !(p <= [c] + text + p)
    ensures NotBefore([c] + text, p)
  {
    var r := [c] + text + p;
    forall i | 0 <= i < |text| + 1 ensures !(p <= r[i..]) {
      if i == 0 { assert r[0..] == r; } else { assert r[i..] == (text + p)[i - 1..]; }
    }
  }

  lemma {:induction false} FoundFirst(r: string, p: string)
    requires p != "" && FindText(r, p).Some?
    ensures var n := FindText(r, p).value; n + |p| <= |r| && r[n..][..|p|] == p && NotBefore(r[..n], p)
  {
    hide NotBefore;
    var n := FindText(r, p).value;
    if n > 0 {
      FoundFirst(r[1..], p);
      Suffix(r, 1, n - 1);
      assert r[..n] == [r[0]] + r[1..][..n - 1];
      assert r[..n + |p|] == r[..n] + r[n..][..|p|];
      assert r[..n + |p|][..|p|] == r[..|p|];
      NotBeforeCons(r[0], r[1..][..n - 1], p);
    } else {
      assert r[0..] == r;
      assert NotBefore("", p) by { NothingBefore(p); }
    }
  }

  lemma NothingBefore(p: string)
    ensures NotBefore("", p)
  {
  }

  lemma {:induction false} WordText(r: string)
    ensures var n := WordLength(r); Stops(r[n..]) && forall i | 0 <= i < n :: !Stops(r[i..])
  {
    StopsIsEnd(r);
    assert r[0..] == r;
    if !Stops(r) {
      WordText(r[1..]);
      var n := WordLength(r);
      assert r[n..] == r[1..][n - 1..];
      forall i | 0 <= i < n ensures !Stops(r[i..]) { if i > 0 { assert r[i..] == r[1..][i - 1..]; } }
    }
  }

  /** This item starts the text, fits there and makes this lexeme. */
  ghost predicate Starts(x: Item, r: string, e: bool, l: Lexeme) {
    && !l.Broken? && l.length <= |r| && PrintItem(x) == r[..l.length] && FitsBefore(x, r[l.length..], e)
    && LexemeOf(x) == l
  }

  lemma GapItem(r: string, e: bool) returns (x: Item)
    requires r != "" && Next(r, e).Gap?
    ensures Starts(x, r, e, Next(r, e))
  {
    hide LineLength, CommentLength, QuoteLength, TagBody, FindText, WordLength, Undouble, Unmixed;
    if IsSpace(r[0]) {
      x := Space(r[0]);
      assert r[..1] == [r[0]];
    } else if Begins2(r, '-', '-') {
      var n := LineLength(r[2..]);
      LineText(r[2..]);
      x := Line(r[2..2 + n]);
      assert r[..2 + n] == "--" + r[2..2 + n] && r[2..][n..] == r[2 + n..] && r[2..][..n] == r[2..2 + n];
    } else {
      var n := CommentLength(r[2..], 1).value;
      var cs := CommentText(r[2..], 1);
      x := Block(cs[0]);
      assert cs[0] in cs && cs[1..] == [] && Bodies(cs) == Body(cs[0]) + "";
      assert r[..2 + n] == "/*" + r[2..][..n];
    }
  }

  lemma QuoteItem(r: string, e: bool) returns (x: Item)
    requires r != "" && (r[0] == '\'' || r[0] == '"') && Next(r, e).Piece?
    ensures Starts(x, r, e, Next(r, e))
  {
    hide QuoteLength, TagBody, FindText, WordLength, Undouble, Double, PrintParts;
    var escaped := e && r[0] == '\'';
    var n := QuoteLength(r[1..], r[0], escaped).value;
    assert r[..1 + n] == [r[0]] + r[1..][..n] && r[1..][n..] == r[1 + n..];
    assert r[1..][..n - 1] == r[1..n];
    if escaped {
      var ps := PartsText(r[1..]);
      x := Escaped(ps);
      assert PrintParts(ps) == r[1..][..n][..n - 1] == r[1..n];
    } else {
      var text := QuoteText(r[1..], r[0]);
      x := Quoted(r[0], text);
      assert Double(text, r[0]) == r[1..][..n][..n - 1] == r[1..n];
      UndoubleDoubled(text, r[0]);
    }
  }

  lemma DollarNext(r: string, e: bool)
    requires r != "" && r[0] == '$' && TagLength(r).Some? && Next(r, e).Piece?
    ensures var t := TagLength(r).value; var n := FindText(r[t..], r[..t]);
            n.Some? && Next(r, e) == Piece(t + n.value + t, r[..t + n.value + t], true)
  {
    hide TagBody, FindText, LineLength, CommentLength, QuoteLength, WordLength, Undouble, TagLength;
  }

  lemma TagText(r: string) returns (tag: string)
    requires r != "" && r[0] == '$' && TagLength(r).Some?
    ensures TagLength(r).value <= |r| && Tag(tag) == r[..TagLength(r).value] && forall c | c in tag :: TagChar(c)
  {
    hide TagBody;
    var n := TagBody(r[1..]).value;
    TagBodyIs(r[1..]);
    tag := r[1..][..n];
    assert r[..n + 2] == [r[0]] + tag + [r[n + 1]];
  }

  lemma DollarItem(r: string, e: bool) returns (x: Item)
    requires r != "" && r[0] == '$' && TagLength(r).Some? && Next(r, e).Piece?
    ensures Starts(x, r, e, Next(r, e))
  {
    hide Next, TagBody, FindText, TagLength, Tag, TagChar, Starts;
    DollarNext(r, e);
    var tag := TagText(r);
    var t := TagLength(r).value;
    var n := FindText(r[t..], r[..t]).value;
    FoundFirst(r[t..], r[..t]);
    x := Dollar(tag, r[t..][..n]);
    Prefix(r, t, n + t);
    Prefix(r[t..], n, t);
    DollarStarts(tag, r[t..][..n], r, e);
  }

  lemma DollarStarts(tag: string, text: string, r: string, e: bool)
    requires (forall c | c in tag :: TagChar(c)) && NotBefore(text, Tag(tag))
    requires Tag(tag) + (text + Tag(tag)) <= r
    ensures var k := |Tag(tag)| + |text| + |Tag(tag)|; Starts(Dollar(tag, text), r, e, Piece(k, r[..k], true))
  {
    hide Tag, TagChar, NotBefore;
    assert Tag(tag) + (text + Tag(tag)) == Tag(tag) + text + Tag(tag);
  }

  lemma WordOrMark(r: string, e: bool) returns (x: Item)
    requires r != "" && Next(r, e).Piece? && r[0] != '\'' && r[0] != '"' && !(r[0] == '$' && TagLength(r).Some?)
    ensures Starts(x, r, e, Next(r, e))
  {
    hide TagBody, FindText, LineLength, CommentLength, QuoteLength, WordLength, Undouble, TagLength;
    if IsMark(r[0]) {
      x := Mark(r[0]);
      assert r[..1] == [r[0]];
    } else {
      var n := 1 + WordLength(r[1..]);
      x := Word(r[..n]);
      WordText(r[1..]);
      StopsIsEnd(r);
      if r[0] == '$' { DollarIsTag(r); }
      assert r[..n] + r[n..] == r && r[1..][n - 1..] == r[n..];
      forall i | 0 <= i < n ensures !Stops(r[i..]) {
        if i == 0 { assert r[0..] == r; } else { assert r[i..] == r[1..][i - 1..]; }
      }
    }
  }

  /** Whatever the lexer reads is an item that fits there. */
  lemma ItemOf(r: string, e: bool) returns (x: Item)
    requires r != "" && !Next(r, e).Broken?
    ensures Starts(x, r, e, Next(r, e))
  {
    hide Starts, LineLength, CommentLength, QuoteLength, TagBody, FindText, WordLength, Undouble;
    if Next(r, e).Gap? { x := GapItem(r, e); }
    else if r[0] == '\'' || r[0] == '"' { x := QuoteItem(r, e); }
    else if r[0] == '$' && TagLength(r).Some? { x := DollarItem(r, e); }
    else { x := WordOrMark(r, e); }
  }

  // ---------------------------------------------------------------- whole texts

  /** Does the word E end right after these items? */
  predicate EndsInE(xs: seq<Item>, e: bool) {
    if xs == [] then e else IsE(xs[|xs| - 1])
  }

  lemma WordIsE(x: Item, at: nat)
    ensures x.Word? ==> Is(Token(at, x.text, false, at + |x.text|), "E") == IsE(x)
    ensures x.Mark? ==> !Is(Token(at, [x.c], false, at + 1), "E") || !(x.c in MARKS)
  {
    assert Lower("E")[0] == 'e' && |Lower("E")| == 1;
    if x.Word? && |x.text| == 1 {
      assert Lower(x.text)[0] == LowerChar(x.text[0]) && x.text == [x.text[0]];
    }
    if x.Word? { assert |Lower(x.text)| == |x.text|; }
    if x.Mark? { assert Lower([x.c])[0] == LowerChar(x.c); }
  }

  /** One item, and then the rest. */
  lemma ItemLex(x: Item, tail: string, at: nat, e: bool)
    requires FitsBefore(x, tail, e)
    ensures Lex(PrintItem(x) + tail, at, e) ==
            Scanner.Join(Expected([x], at), Lex(tail, at + |PrintItem(x)|, IsE(x)))
  {
    hide Next, Lex, Is, FitsBefore, PrintItem;
    var r, n := PrintItem(x) + tail, |PrintItem(x)|;
    PrintedNext(x, tail, e);
    assert r[n..] == tail;
    if LexemeOf(x).Gap? {
      GapStep(r, at, e, n);
      assert Expected([x], at) == [];
    } else {
      var t := Made(LexemeOf(x), at);
      PieceStep(r, at, e, t, n);
      assert Expected([x], at) == [t];
      PieceIsE(x, tail, e, at);
    }
  }

  lemma PieceIsE(x: Item, tail: string, e: bool, at: nat)
    requires FitsBefore(x, tail, e) && LexemeOf(x).Piece?
    ensures Is(Made(LexemeOf(x), at), "E") == IsE(x)
  {
    WordIsE(x, at);
  }

  lemma ExpectedCons(xs: seq<Item>, at: nat)
    requires xs != []
    ensures Expected(xs, at) == Expected([xs[0]], at) + Expected(xs[1..], at + |PrintItem(xs[0])|)
  {
    assert [xs[0]][1..] == [];
  }

  /** Items that fit lex to their tokens, and then the rest of the text. */
  lemma {:induction false} PrintedLex(xs: seq<Item>, tail: string, at: nat, e: bool)
    requires FitAll(xs, tail, e)
    ensures Lex(Print(xs) + tail, at, e) ==
            Scanner.Join(Expected(xs, at), Lex(tail, at + |Print(xs)|, EndsInE(xs, e)))
    decreases |xs|
  {
    hide Lex, FitsBefore, PrintItem, Expected;
    if xs == [] {
      assert Print(xs) + tail == tail;
      NoTokens(at);
      assert forall ts: seq<Token> :: [] + ts == ts;
    } else {
      var x, rest := xs[0], xs[1..];
      assert Print(xs) + tail == PrintItem(x) + (Print(rest) + tail);
      ItemLex(x, Print(rest) + tail, at, e);
      PrintedLex(rest, tail, at + |PrintItem(x)|, IsE(x));
      ExpectedCons(xs, at);
      JoinTwice(Expected([x], at), Expected(rest, at + |PrintItem(x)|),
                Lex(tail, at + |Print(xs)|, EndsInE(rest, IsE(x))));
    }
  }

  lemma NoTokens(at: nat)
    ensures Expected([], at) == []
  {
  }

  lemma JoinTwice(a: seq<Token>, b: seq<Token>, x: Lexed)
    ensures Scanner.Join(a, Scanner.Join(b, x)) == Scanner.Join(a + b, x)
  {
    match x
    case Ok(ts) => assert a + (b + ts) == a + b + ts;
    case Err(_, ts) => assert a + (b + ts) == a + b + ts;
  }

  /** No item fits at the start of this text. */
  ghost predicate NothingFits(r: string, e: bool) {
    r != "" && forall x: Item, n: nat | n <= |r| && PrintItem(x) == r[..n] :: !FitsBefore(x, r[n..], e)
  }

  /** What is wrong with a text at whose start nothing fits. */
  function Complaint(r: string): string {
    if r != "" && r[0] == '/' then "Unclosed SQL comment"
    else if r != "" && r[0] == '$' then "Unclosed dollar quote"
    else "Unclosed SQL quote"
  }

  lemma BrokenIsUnfit(r: string, e: bool)
    requires r != ""
    ensures Next(r, e).Broken? <==> NothingFits(r, e)
    ensures Next(r, e).Broken? ==> Next(r, e).message == Complaint(r)
  {
    hide FitsBefore, PrintItem, LexemeOf, CommentLength, QuoteLength, FindText, TagLength, LineLength, WordLength;
    if Next(r, e).Broken? {
      forall x: Item, n: nat | n <= |r| && PrintItem(x) == r[..n] ensures !FitsBefore(x, r[n..], e) {
        if FitsBefore(x, r[n..], e) {
          PrintedNext(x, r[n..], e);
          assert r[..n] + r[n..] == r;
          NotBroken(x);
        }
      }
    } else {
      var x := ItemOf(r, e);
      var n := Next(r, e).length;
      assert PrintItem(x) == r[..n];
    }
  }

  lemma NotBroken(x: Item)
    ensures !LexemeOf(x).Broken?
  {
  }

  /** A text is items that fit, up to where nothing fits, if there is such a place. */
  lemma {:induction false} TextItems(r: string, at: nat, e: bool) returns (xs: seq<Item>, rest: string)
    ensures r == Print(xs) + rest && FitAll(xs, rest, e)
    ensures rest != "" ==> NothingFits(rest, EndsInE(xs, e))
    decreases |r|
  {
    hide FitsBefore, PrintItem, NothingFits, Next, LexemeOf;
    xs, rest := [], r;
    if r != "" {
      BrokenIsUnfit(r, e);
      if !Next(r, e).Broken? {
        var x := ItemOf(r, e);
        var n := Next(r, e).length;
        var more;
        more, rest := TextItems(r[n..], at + n, IsE(x));
        xs := [x] + more;
        assert xs[1..] == more;
        assert r == r[..n] + r[n..];
        assert Print(xs) + rest == PrintItem(x) + (Print(more) + rest);
        assert more != [] ==> xs[|xs| - 1] == more[|more| - 1];
      }
    }
  }

  lemma RestLex(rest: string, at: nat, e: bool)
    requires rest != "" ==> NothingFits(rest, e)
    ensures Lex(rest, at, e) == if rest == "" then Ok([]) else Err(Complaint(rest), [])
  {
    hide NothingFits, Next, Complaint;
    if rest != "" { BrokenIsUnfit(rest, e); }
  }

  /** A text has these tokens exactly if it can be printed from items that fit and have them. */
  lemma LexesExactly(sql: string, ts: seq<Token>)
    ensures Tokens(sql) == Ok(ts) <==> exists xs :: Fit(xs) && Print(xs) == sql && Expected(xs, 0) == ts
  {
    hide Lex, Print, Expected, FitAll, NothingFits;
    if xs :| Fit(xs) && Print(xs) == sql && Expected(xs, 0) == ts {
      PrintedLex(xs, "", 0, false);
      assert sql + "" == sql && ts + [] == ts;
      LexNothing(|sql|, EndsInE(xs, false));
    }
    if Tokens(sql) == Ok(ts) {
      var xs, rest := TextItems(sql, 0, false);
      PrintedLex(xs, rest, 0, false);
      RestLex(rest, |Print(xs)|, EndsInE(xs, false));
      assert rest == "" && Print(xs) + "" == Print(xs) && Expected(xs, 0) + [] == ts;
    }
  }

  /** A text is refused exactly if it goes on, after items that fit, where nothing fits: with something unclosed. */
  lemma RefusesExactly(sql: string, message: string, preceding: seq<Token>)
    ensures Tokens(sql) == Err(message, preceding) <==>
            exists xs, rest :: FitAll(xs, rest, false) && Print(xs) + rest == sql && Expected(xs, 0) == preceding
                               && NothingFits(rest, EndsInE(xs, false)) && message == Complaint(rest)
  {
    hide Lex, Print, Expected, FitAll, Complaint;
    if xs, rest :| FitAll(xs, rest, false) && Print(xs) + rest == sql && Expected(xs, 0) == preceding
                   && NothingFits(rest, EndsInE(xs, false)) && message == Complaint(rest) {
      PrintedLex(xs, rest, 0, false);
      RestLex(rest, |Print(xs)|, EndsInE(xs, false));
      assert preceding + [] == preceding;
    }
    if Tokens(sql) == Err(message, preceding) {
      var xs, rest := TextItems(sql, 0, false);
      PrintedLex(xs, rest, 0, false);
      RestLex(rest, |Print(xs)|, EndsInE(xs, false));
      assert Expected(xs, 0) + [] == Expected(xs, 0);
    }
  }

  // ---------------------------------------------------------------- literals

  /** The text with a backslash before each backslash and each quote. */
  function Escape(s: string): string {
    if s == "" then ""
    else if s[0] == '\\' || s[0] == '\'' then ['\\'] + ([s[0]] + Escape(s[1..]))
    else [s[0]] + Escape(s[1..])
  }

  function EscapeParts(s: string): (ps: seq<Part>)
    ensures forall p | p in ps && p.Raw? :: p.c != '\\' && p.c != '\''
  {
    if s == "" then []
    else [if s[0] == '\\' || s[0] == '\'' then Back(s[0]) else Raw(s[0])] + EscapeParts(s[1..])
  }

  lemma {:induction false} EscapePrinted(s: string)
    ensures PrintParts(EscapeParts(s)) == Escape(s)
  {
    if s != "" {
      EscapePrinted(s[1..]);
      assert EscapeParts(s)[1..] == EscapeParts(s[1..]);
      assert ['\\', s[0]] + Escape(s[1..]) == ['\\'] + ([s[0]] + Escape(s[1..]));
    }
  }

  lemma UndoubleOne(c: char, rest: string, d: char)
    requires c != d || rest == "" || rest[0] != d
    ensures Undouble([c] + rest, d) == [c] + Undouble(rest, d)
  {
    assert ([c] + rest)[1..] == rest;
  }

  lemma EscapeCons(s: string)
    requires s != ""
    ensures var special := s[0] == '\\' || s[0] == '\'';
            Escape(s) == if special then ['\\'] + ([s[0]] + Escape(s[1..])) else [s[0]] + Escape(s[1..])
    ensures Escape(s) != "" && Escape(s)[0] != '\''
  {
  }

  /** No quote of an escaped text stands next to another one. */
  lemma {:induction false} EscapeSingle(s: string)
    ensures Undouble(Escape(s), '\'') == Escape(s)
  {
    hide Undouble, Escape;
    if s == "" {
      NothingEscaped();
    } else {
      var rest := Escape(s[1..]);
      EscapeCons(s);
      EscapeSingle(s[1..]);
      if s[1..] == "" { NothingEscaped(); } else { EscapeCons(s[1..]); }
      UndoubleOne(s[0], rest, '\'');
      UndoubleOne('\\', [s[0]] + rest, '\'');
    }
  }

  lemma NothingEscaped()
    ensures Escape("") == "" && Undouble("", '\'') == ""
  {
  }

  /** The items of a word E and a text right after it. */
  lemma EscapedItems(s: string, e: string)
    requires e == "E" || e == "e"
    ensures var text := "'" + Escape(s) + "'"; var xs := [Word(e), Escaped(EscapeParts(s))];
            && Fit(xs) && Print(xs) == e + text
            && Expected(xs, 0) == [Token(0, e, false, 1), Token(1, Escape(s), true, 1 + |text|)]
  {
    hide Undouble, Escape, FitsBefore, PrintParts;
    var text := "'" + Escape(s) + "'";
    var x, y := Word(e), Escaped(EscapeParts(s));
    EscapePrinted(s);
    EscapeSingle(s);
    assert [x, y][1..] == [y] && [y][1..] == [];
    assert PrintItem(y) == text && Print([y]) == text;
    WordEFits(e, text);
    assert Print([]) + "" == "" && text + "" == text;
    EscapedFits(s);
    assert FitAll([y], "", true);
    assert Expected([y], 1) == [Token(1, Escape(s), true, 1 + |text|)] by { assert Expected([], 1 + |text|) == []; }
  }

  lemma EscapedFits(s: string)
    ensures FitsBefore(Escaped(EscapeParts(s)), "", true)
  {
  }

  /** Right after the word E a text comes back as one token, whatever quotes and backslashes it holds. */
  lemma EscapedLiteral(s: string, e: string)
    requires e == "E" || e == "e"
    ensures var text := "'" + Escape(s) + "'";
            Tokens(e + text) == Ok([Token(0, e, false, 1), Token(1, Escape(s), true, 1 + |text|)])
  {
    hide *;
    EscapedItems(s, e);
    LexesExactly(e + "'" + Escape(s) + "'", Expected([Word(e), Escaped(EscapeParts(s))], 0));
    assert e + "'" + Escape(s) + "'" == e + ("'" + Escape(s) + "'");
  }

  lemma WordEFits(e: string, text: string)
    requires (e == "E" || e == "e") && text != "" && text[0] == '\''
    ensures FitsBefore(Word(e), text, false)
  {
    var r := e + text;
    assert r[0..] == r && r[..2] == [e[0], '\''];
  }

  /** Anywhere else a backslash is a character like any other, and a quote is doubled. */
  lemma PlainLiteral(s: string, tail: string)
    requires Closes(tail, '\'')
    ensures var text := "'" + Double(s, '\'') + "'"; Next(text + tail, false) == Piece(|text|, s, true)
    ensures var text := "'" + Double(s, '\'') + "'"; Tokens(text) == Ok([Token(0, s, true, |text|)])
  {
    hide Tokens, Next, Double;
    var x := Quoted('\'', s);
    QuotedPrinted('\'', s, tail, false);
    assert [x][1..] == [] && Print([x]) == PrintItem(x) + "";
    assert Print([]) + "" == "" && FitsBefore(x, "", false);
    assert FitAll([x], "", false);
    var n := |PrintItem(x)|;
    assert Expected([x], 0) == [Token(0, s, true, n)] by { assert Expected([], n) == []; }
    LexesExactly(PrintItem(x), Expected([x], 0));
  }
}
