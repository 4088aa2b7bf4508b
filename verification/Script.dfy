/** Splitting a script into statements, and the check that each entry of a batch is one statement. */
module Script {
  import opened Names
  import opened Lexer

  /** A stretch of the script up to a semicolon, or to the end, and the tokens in it. */
  datatype Segment = Segment(start: nat, end: nat, tokens: seq<Token>)

  predicate HasStatement(ts: seq<Token>) {
    exists t | t in ts :: !Is(t, ";")
  }

  /** The segments of a text from `start` to `end`, given its tokens there; `held` are those already met. */
  function Segments(ts: seq<Token>, start: nat, end: nat, held: seq<Token>): seq<Segment>
    decreases ts
  {
    if ts == [] then [Segment(start, end, held)]
    else if Is(ts[0], ";") then [Segment(start, ts[0].end, held + [ts[0]])] + Segments(ts[1..], ts[0].end, end, [])
    else Segments(ts[1..], start, end, held + [ts[0]])
  }

  function Kept(sql: string, segments: seq<Segment>): seq<string>
    requires forall s | s in segments :: s.start <= s.end <= |sql|
  {
    if segments == [] then []
    else (if HasStatement(segments[0].tokens) then [sql[segments[0].start..segments[0].end]]
      else []) + Kept(sql, segments[1..])
  }

  /** What a segment must be: its own tokens, moved, with a semicolon only at its end. */
  predicate Sound(sql: string, s: Segment) {
    && s.start <= s.end <= |sql|
    && (forall i | 0 <= i < |s.tokens| - 1 :: !Is(s.tokens[i], ";"))
    && Tokens(sql[s.start..s.end]).Ok?
    && AllMovedBy(s.tokens, Tokens(sql[s.start..s.end]).tokens, s.start)
    && (s.tokens != [] && Is(s.tokens[|s.tokens| - 1], ";") ==> s.tokens[|s.tokens| - 1].end == s.end)
  }

  /** The segments partition the text. */
  predicate Adjacent(segments: seq<Segment>, start: nat, end: nat)
    decreases segments
  {
    if segments == [] then start == end
    else segments[0].start == start && start <= segments[0].end && Adjacent(segments[1..], segments[0].end, end)
  }

  // ---------------------------------------------------------------- every segment is sound

  /** The text before a semicolon token, from where lexing last started afresh. */
  lemma SegmentBefore(sql: string, start: nat, ts: seq<Token>, k: nat)
    requires start <= |sql| && Lex(sql[start..], start, false) == Ok(ts)
    requires k < |ts| && Is(ts[k], ";") && forall i | 0 <= i < k :: !Is(ts[i], ";")
    ensures start <= ts[k].end <= |sql| && Sound(sql, Segment(start, ts[k].end, ts[..k + 1]))
    ensures Lex(sql[ts[k].end..], ts[k].end, false) == Ok(ts[k + 1..])
  {
    hide Lex, Is;
    var r := sql[start..];
    LexCut(r, start, false, k);
    LexResumes(r, start, false, k);
    var p := ts[k].end;
    assert r[..p - start] == sql[start..p] && r[p - start..] == sql[p..];
    LexMoves(sql[start..p], start, 0, false);
  }

  lemma SegmentLast(sql: string, start: nat, ts: seq<Token>)
    requires start <= |sql| && Lex(sql[start..], start, false) == Ok(ts) && forall i | 0 <= i < |ts| :: !Is(ts[i], ";")
    ensures Sound(sql, Segment(start, |sql|, ts))
  {
    hide Lex, Is;
    assert sql[start..|sql|] == sql[start..];
    LexMoves(sql[start..], start, 0, false);
  }

  lemma {:induction false} SegmentsSound(sql: string, start: nat, ts: seq<Token>, k: nat)
    requires start <= |sql| && Lex(sql[start..], start, false) == Ok(ts)
    requires k <= |ts| && forall i | 0 <= i < k :: !Is(ts[i], ";")
    ensures var segments := Segments(ts[k..], start, |sql|, ts[..k]);
            Adjacent(segments, start, |sql|) && forall s | s in segments :: Sound(sql, s)
    decreases |ts| - k
  {
    hide Lex, Is, Sound, Tokens;
    if k == |ts| {
      assert ts[..k] == ts;
      SegmentLast(sql, start, ts);
    } else {
      assert ts[k..][0] == ts[k] && ts[k..][1..] == ts[k + 1..] && ts[..k] + [ts[k]] == ts[..k + 1];
      if Is(ts[k], ";") {
        SegmentBefore(sql, start, ts, k);
        var rest := ts[k + 1..];
        assert rest[..0] == [] && rest[0..] == rest;
        SegmentsSound(sql, ts[k].end, rest, 0);
      } else {
        SegmentsSound(sql, start, ts, k + 1);
      }
    }
  }

  function AllSegments(sql: string): seq<Segment>
    requires Tokens(sql).Ok?
  {
    Segments(Tokens(sql).tokens, 0, |sql|, [])
  }

  /** The segments of a script partition it, and each lexes on its own to its own tokens. */
  lemma ScriptSegments(sql: string)
    requires Tokens(sql).Ok?
    ensures Adjacent(AllSegments(sql), 0, |sql|) && forall s | s in AllSegments(sql) :: Sound(sql, s)
  {
    var ts := Tokens(sql).tokens;
    assert sql[0..] == sql && ts[0..] == ts && ts[..0] == [];
    SegmentsSound(sql, 0, ts, 0);
  }

  // ---------------------------------------------------------------- statements

  /** The pieces, or what is wrong and how many statements are complete before it. */
  datatype Split = Statements(pieces: seq<string>) | Unlexable(message: string, statement: nat)

  /** How many statements a semicolon ends; `held` says that one has begun. */
  function Ended(ts: seq<Token>, held: bool): nat {
    if ts == [] then 0
    else if Is(ts[0], ";") then (if held then 1 else 0) + Ended(ts[1..], false)
    else Ended(ts[1..], true)
  }

  /** Begun, and not ended by a semicolon. */
  predicate Begun(ts: seq<Token>, held: bool) {
    if ts == [] then held else Begun(ts[1..], !Is(ts[0], ";"))
  }

  lemma {:induction false} KeptCount(sql: string, ts: seq<Token>, start: nat, held: seq<Token>)
    requires forall s | s in Segments(ts, start, |sql|, held) :: s.start <= s.end <= |sql|
    ensures |Kept(sql, Segments(ts, start, |sql|, held))| ==
            Ended(ts, HasStatement(held)) + if Begun(ts, HasStatement(held)) then 1 else 0
    decreases ts
  {
    hide Is;
    if ts == [] {
      assert Segments(ts, start, |sql|, held)[1..] == [];
    } else if Is(ts[0], ";") {
      var all, rest := Segments(ts, start, |sql|, held), Segments(ts[1..], ts[0].end, |sql|, []);
      assert all == [Segment(start, ts[0].end, held + [ts[0]])] + rest;
      assert all[0] in all && all[1..] == rest;
      forall s | s in rest ensures s in all { }
      KeptCount(sql, ts[1..], ts[0].end, []);
      SameHeld(held, ts[0]);
    } else {
      KeptCount(sql, ts[1..], start, held + [ts[0]]);
      assert ts[0] in held + [ts[0]];
    }
  }

  lemma SameHeld(held: seq<Token>, t: Token)
    requires Is(t, ";")
    ensures HasStatement(held + [t]) == HasStatement(held) && !HasStatement([])
  {
    hide Is;
    if HasStatement(held) {
      var x :| x in held && !Is(x, ";");
      assert x in held + [t];
    }
  }

  /**
   * The index that an error reports counts pieces: a script has as many as it ends, and one more if its last
   * is open.
   */
  lemma IndexCountsPieces(sql: string)
    requires Tokens(sql).Ok?
    ensures var ts := Tokens(sql).tokens;
            SplitScript(sql).Statements?
              && |SplitScript(sql).pieces| == Ended(ts, false) + if Begun(ts, false) then 1 else 0
  {
    hide Lex, Is, Kept, Segments, Sound;
    ScriptSegments(sql);
    forall s | s in AllSegments(sql) ensures s.start <= s.end <= |sql| { SoundInside(sql, s); }
    KeptCount(sql, Tokens(sql).tokens, 0, []);
    NothingHeld();
  }

  lemma NothingHeld()
    ensures !HasStatement([])
  {
  }

  lemma SoundInside(sql: string, s: Segment)
    requires Sound(sql, s)
    ensures s.start <= s.end <= |sql|
  {
  }

  function SplitScript(sql: string): Split {
    match Tokens(sql)
    case Ok(_) =>
      ScriptSegments(sql);
      assert forall s | s in AllSegments(sql) :: Sound(sql, s);
      Statements(Kept(sql, AllSegments(sql)))
    case Err(message, preceding) => Unlexable(message, Ended(preceding, false))
  }

  /** Would the batch check take this text as one statement? */
  predicate OneStatement(sql: string) {
    && Tokens(sql).Ok? && Tokens(sql).tokens != []
    && forall i | 0 <= i < |Tokens(sql).tokens| - 1 :: !Is(Tokens(sql).tokens[i], ";")
  }

  /** A kept segment reads back as one statement, and splitting it again gives it whole. */
  lemma KeptIsStatement(sql: string, s: Segment)
    requires Sound(sql, s) && HasStatement(s.tokens)
    ensures var piece := sql[s.start..s.end]; OneStatement(piece) && SplitScript(piece) == Statements([piece])
  {
    hide Lex;
    var piece := sql[s.start..s.end];
    var ts := Tokens(piece).tokens;
    var n := |ts|;
    forall i | 0 <= i < n ensures Is(ts[i], ";") == Is(s.tokens[i], ";") {
      assert MovedBy(s.tokens[i], ts[i], s.start);
      SameWord(s.tokens[i], ts[i], ";");
    }
    var t :| t in s.tokens && !Is(t, ";");
    var j :| 0 <= j < n && s.tokens[j] == t;
    assert !Is(ts[j], ";") && ts[j] in ts;
    assert MovedBy(s.tokens[n - 1], ts[n - 1], s.start);
    WholeKept(piece, ts);
  }

  /** The segments of a text that is one statement: itself, and an empty rest after a closing semicolon. */
  lemma WholeKept(piece: string, ts: seq<Token>)
    requires Tokens(piece) == Ok(ts) && HasStatement(ts) && (forall i | 0 <= i < |ts| - 1 :: !Is(ts[i], ";"))
    requires ts != [] && (Is(ts[|ts| - 1], ";") ==> ts[|ts| - 1].end == |piece|)
    ensures SplitScript(piece) == Statements([piece])
  {
    hide Lex, Is;
    OneSegment(ts, |piece|, 0);
    assert ts[..0] == [] && ts[0..] == ts;
    assert piece[0..|piece|] == piece;
    var a, b := Segment(0, |piece|, ts), Segment(|piece|, |piece|, []);
    assert [a, b][1..] == [b] && [b][1..] == [] && [a][1..] == [];
    assert Kept(piece, []) == [] && Kept(piece, [b]) == [];
    assert Kept(piece, [a]) == [piece] && Kept(piece, [a, b]) == [piece];
    assert AllSegments(piece) == [a, b] || AllSegments(piece) == [a];
  }

  lemma {:induction false} OneSegment(ts: seq<Token>, end: nat, k: nat)
    requires ts != [] && k <= |ts| && (forall i | 0 <= i < |ts| - 1 :: !Is(ts[i], ";"))
    requires k == |ts| ==> !Is(ts[k - 1], ";")
    requires Is(ts[|ts| - 1], ";") ==> ts[|ts| - 1].end == end
    ensures Segments(ts[k..], 0, end, ts[..k]) ==
            [Segment(0, end, ts)] + if Is(ts[|ts| - 1], ";") then [Segment(end, end, [])] else []
    decreases |ts| - k
  {
    hide Is;
    if k == |ts| {
      assert ts[..k] == ts;
    } else {
      assert ts[k..][0] == ts[k] && ts[k..][1..] == ts[k + 1..] && ts[..k] + [ts[k]] == ts[..k + 1];
      if k == |ts| - 1 && Is(ts[k], ";") {
        assert ts[..k + 1] == ts && ts[k + 1..] == [];
      } else {
        OneSegment(ts, end, k + 1);
      }
    }
  }

  lemma {:induction false} KeptFrom(sql: string, segments: seq<Segment>, piece: string) returns (s: Segment)
    requires forall x | x in segments :: x.start <= x.end <= |sql|
    requires piece in Kept(sql, segments)
    ensures s in segments && HasStatement(s.tokens) && piece == sql[s.start..s.end]
  {
    if HasStatement(segments[0].tokens) && piece == sql[segments[0].start..segments[0].end] {
      s := segments[0];
    } else {
      s := KeptFrom(sql, segments[1..], piece);
    }
  }

  /** For every script that lexes, no piece is refused as more than one statement, and splitting is idempotent. */
  lemma PiecesAreStatements(sql: string, piece: string)
    requires SplitScript(sql).Statements? && piece in SplitScript(sql).pieces
    ensures OneStatement(piece) && SplitScript(piece) == Statements([piece])
  {
    ScriptSegments(sql);
    assert forall x | x in AllSegments(sql) :: Sound(sql, x);
    var s := KeptFrom(sql, AllSegments(sql), piece);
    KeptIsStatement(sql, s);
  }

  // ---------------------------------------------------------------- the batch check

  datatype Verdict = Accepted | Unreadable(message: string) | Empty | SeveralStatements | SharedSetting | RuntimeOnly

  const RUNTIME_WORDS := ["BEGIN", "START", "COMMIT", "END", "ROLLBACK", "ABORT", "SAVEPOINT", "RELEASE", "PREPARE",
                          "EXECUTE", "ATTACH", "DETACH", "INSTALL", "LOAD", "PRAGMA"]

  /** A statement's first words decide whether a batch may hold it. */
  function ByFirstWords(ts: seq<Token>): Verdict
    requires ts != []
  {
    if (Is(ts[0], "SET") || Is(ts[0], "RESET")) && !(|ts| > 1 && (Is(ts[1], "VARIABLE") || Is(ts[1], "SESSION")))
    then SharedSetting
    else if exists w | w in RUNTIME_WORDS :: Is(ts[0], w) then RuntimeOnly
    else Accepted
  }

  function Validate(sql: string): Verdict {
    match Tokens(sql)
    case Err(message, _) => Unreadable(message)
    case Ok(ts) =>
      if ts == [] then Empty
      else if exists i | 0 <= i < |ts| - 1 :: Is(ts[i], ";") then SeveralStatements
      else ByFirstWords(ts)
  }

  /** Unquoted, and this word in any case. */
  predicate Says(t: Token, word: string) {
    !t.quoted && |t.value| == |word| && forall i | 0 <= i < |word| :: SameLetter(t.value[i], word[i])
  }

  /** The first word of a statement about transactions or about the connection. */
  predicate HostOwned(t: Token) {
    || Says(t, "BEGIN") || Says(t, "START") || Says(t, "COMMIT") || Says(t, "END") || Says(t, "ROLLBACK")
    || Says(t, "ABORT") || Says(t, "SAVEPOINT") || Says(t, "RELEASE") || Says(t, "PREPARE") || Says(t, "EXECUTE")
    || Says(t, "ATTACH") || Says(t, "DETACH") || Says(t, "INSTALL") || Says(t, "LOAD") || Says(t, "PRAGMA")
  }

  /** Setting or resetting without saying that it is for the session or a variable. */
  predicate Unscoped(ts: seq<Token>) {
    && ts != [] && (Says(ts[0], "SET") || Says(ts[0], "RESET"))
    && (|ts| == 1 || (!Says(ts[1], "VARIABLE") && !Says(ts[1], "SESSION")))
  }

  lemma IsSays(t: Token, word: string)
    ensures Is(t, word) <==> Says(t, word)
  {
    SameExactly(t.value, word);
  }

  lemma HostOwnedExactly(t: Token)
    ensures HostOwned(t) <==> exists w | w in RUNTIME_WORDS :: Is(t, w)
  {
    hide Says, Is;
    forall w ensures Is(t, w) <==> Says(t, w) { IsSays(t, w); }
    if HostOwned(t) {
      assert RUNTIME_WORDS[0] == "BEGIN" && RUNTIME_WORDS[1] == "START" && RUNTIME_WORDS[2] == "COMMIT"
        && RUNTIME_WORDS[3] == "END" && RUNTIME_WORDS[4] == "ROLLBACK" && RUNTIME_WORDS[5] == "ABORT"
        && RUNTIME_WORDS[6] == "SAVEPOINT" && RUNTIME_WORDS[7] == "RELEASE" && RUNTIME_WORDS[8] == "PREPARE"
        && RUNTIME_WORDS[9] == "EXECUTE" && RUNTIME_WORDS[10] == "ATTACH" && RUNTIME_WORDS[11] == "DETACH"
        && RUNTIME_WORDS[12] == "INSTALL" && RUNTIME_WORDS[13] == "LOAD" && RUNTIME_WORDS[14] == "PRAGMA";
    }
  }

  lemma FirstWordsExactly(ts: seq<Token>)
    requires ts != []
    ensures ByFirstWords(ts)
         == if Unscoped(ts) then SharedSetting else if HostOwned(ts[0]) then RuntimeOnly else Accepted
  {
    hide Says, Is, HostOwned, RUNTIME_WORDS;
    forall t, w ensures Is(t, w) <==> Says(t, w) { IsSays(t, w); }
    HostOwnedExactly(ts[0]);
  }

  /**
   * A text goes into a batch exactly if it lexes, has a token, has no semicolon but as its last token, does not
   * set anything without a scope of its own, and does not begin with a word that belongs to the host.
   */
  lemma ValidateExactly(sql: string)
    ensures match Tokens(sql)
            case Err(message, _) => Validate(sql) == Unreadable(message)
            case Ok(ts) =>
              && (Validate(sql) == Empty <==> ts == [])
              && (Validate(sql) == SeveralStatements <==> exists i | 0 <= i < |ts| - 1 :: Says(ts[i], ";"))
              && (Validate(sql) == Accepted <==>
                    && ts != [] && (forall i | 0 <= i < |ts| - 1 :: !Says(ts[i], ";"))
                    && !Unscoped(ts) && !HostOwned(ts[0]))
              && (Validate(sql) == SharedSetting ==> Unscoped(ts))
              && (Validate(sql) == RuntimeOnly ==> HostOwned(ts[0]))
  {
    hide Tokens, Says, Is, Unscoped, HostOwned, ByFirstWords;
    forall t, w ensures Is(t, w) <==> Says(t, w) { IsSays(t, w); }
    if Tokens(sql).Ok? && Tokens(sql).tokens != [] { FirstWordsExactly(Tokens(sql).tokens); }
  }

  lemma SameWords(ts: seq<Token>, us: seq<Token>, d: int)
    requires AllMovedBy(ts, us, d) && ts != []
    ensures us != [] && ByFirstWords(us) == ByFirstWords(ts)
  {
    hide Same;
    assert forall i, w | 0 <= i < |ts| :: Is(us[i], w) == Is(ts[i], w);
  }

  /** Every piece of a script is judged by the first words that its segment has in the script, and by nothing else. */
  lemma PieceIsJudged(sql: string, piece: string) returns (s: Segment)
    requires SplitScript(sql).Statements? && piece in SplitScript(sql).pieces
    ensures s in AllSegments(sql) && s.start <= s.end <= |sql| && piece == sql[s.start..s.end]
    ensures s.tokens != [] && Validate(piece) == ByFirstWords(s.tokens)
  {
    hide Lex, Is, ByFirstWords, Segments;
    ScriptSegments(sql);
    assert forall x | x in AllSegments(sql) :: Sound(sql, x);
    s := KeptFrom(sql, AllSegments(sql), piece);
    KeptIsStatement(sql, s);
    SameWords(s.tokens, Tokens(piece).tokens, s.start);
  }

  /** What is left out of the pieces lexes to nothing, or to one semicolon. */
  lemma LeftOutIsBlank(sql: string, s: Segment)
    requires Tokens(sql).Ok? && s in AllSegments(sql) && !HasStatement(s.tokens)
    ensures s.start <= s.end <= |sql| && Tokens(sql[s.start..s.end]).Ok?
    ensures var ts := Tokens(sql[s.start..s.end]).tokens; |ts| <= 1 && forall t | t in ts :: Is(t, ";")
  {
    ScriptSegments(sql);
    var ts := Tokens(sql[s.start..s.end]).tokens;
    forall i | 0 <= i < |ts| ensures Is(ts[i], ";") {
      assert MovedBy(s.tokens[i], ts[i], s.start) && s.tokens[i] in s.tokens;
      SameWord(s.tokens[i], ts[i], ";");
    }
    assert |ts| > 0 ==> s.tokens[0] in s.tokens;
  }
}
