/** Identifiers as the project compares them: ASCII case is ignored. */
module Names {

  datatype Option<+T> = None | Some(value: T)

  /** A schema-qualified catalogue object. */
  datatype Relation = Relation(schema: string, name: string)

  function LowerChar(c: char): char {
    if 'A' <= c <= 'Z' then (c as int + 32) as char else c
  }

  function Lower(s: string): (r: string)
    ensures |r| == |s|
  {
    seq(|s|, i requires 0 <= i < |s| => LowerChar(s[i]))
  }

  predicate Same(a: string, b: string) {
    Lower(a) == Lower(b)
  }

  /** Equal, or the two cases of one ASCII letter. */
  predicate SameLetter(c: char, d: char) {
    || c == d
    || ('A' <= c <= 'Z' && d as int - c as int == 32)
    || ('A' <= d <= 'Z' && c as int - d as int == 32)
  }

  /** Two names are the same exactly if they are equal letter by letter but for the case of ASCII letters. */
  lemma SameExactly(a: string, b: string)
    ensures Same(a, b) <==> |a| == |b| && forall i | 0 <= i < |a| :: SameLetter(a[i], b[i])
  {
    forall c: char, d: char ensures LowerChar(c) == LowerChar(d) <==> SameLetter(c, d) { }
    if Same(a, b) {
      forall i | 0 <= i < |a| ensures SameLetter(a[i], b[i]) { assert Lower(a)[i] == Lower(b)[i]; }
    }
  }

  predicate SameRelation(a: Relation, b: Relation) {
    Same(a.schema, b.schema) && Same(a.name, b.name)
  }

  /** A relation as it is compared: two relations are the same exactly if their keys are. */
  function KeyOf(r: Relation): (string, string) {
    (Lower(r.schema), Lower(r.name))
  }

  function LowerAll(path: seq<string>): (r: seq<string>)
    ensures |r| == |path|
  {
    seq(|path|, i requires 0 <= i < |path| => Lower(path[i]))
  }

  function LowerPaths(paths: seq<seq<string>>): (r: seq<seq<string>>)
    ensures |r| == |paths|
  {
    seq(|paths|, i requires 0 <= i < |paths| => LowerAll(paths[i]))
  }

  /** Unicode white space, as string trimming takes it. */
  predicate IsWhite(c: char) {
    || '\t' <= c <= '\r' || c == ' ' || c == '\U{85}' || c == '\U{A0}' || c == '\U{1680}'
    || '\U{2000}' <= c <= '\U{200A}' || c == '\U{2028}' || c == '\U{2029}' || c == '\U{202F}' || c == '\U{205F}'
      || c == '\U{3000}'
  }

  function TrimStart(s: string): string {
    if s != "" && IsWhite(s[0]) then TrimStart(s[1..]) else s
  }

  function TrimEnd(s: string): string {
    if s != "" && IsWhite(s[|s| - 1]) then TrimEnd(s[..|s| - 1]) else s
  }

  function Trim(s: string): string {
    TrimEnd(TrimStart(s))
  }

  predicate IsBlank(s: string) {
    forall c | c in s :: IsWhite(c)
  }

  /** A text that neither starts nor ends with white space. */
  predicate Bare(s: string) {
    s == "" || (!IsWhite(s[0]) && !IsWhite(s[|s| - 1]))
  }

  lemma {:induction false} TrimStartBlank(l: string, s: string)
    requires IsBlank(l) && (s == "" || !IsWhite(s[0]))
    ensures TrimStart(l + s) == s
  {
    if l == "" {
      assert l + s == s;
    } else {
      assert (l + s)[1..] == l[1..] + s && l[0] in l;
      TrimStartBlank(l[1..], s);
    }
  }

  lemma {:induction false} TrimEndBlank(s: string, r: string)
    requires IsBlank(r) && (s == "" || !IsWhite(s[|s| - 1]))
    ensures TrimEnd(s + r) == s
  {
    if r == "" {
      assert s + r == s;
    } else {
      assert (s + r)[..|s + r| - 1] == s + r[..|r| - 1] && r[|r| - 1] in r;
      TrimEndBlank(s, r[..|r| - 1]);
    }
  }

  lemma BlankJoin(a: string, b: string)
    requires IsBlank(a) && IsBlank(b)
    ensures IsBlank(a + b)
  {
    hide IsWhite;
  }

  lemma {:induction false} TrimStartCuts(s: string)
    ensures var t := TrimStart(s);
            |t| <= |s| && s[|s| - |t|..] == t && IsBlank(s[..|s| - |t|]) && (t == "" || !IsWhite(t[0]))
  {
    hide IsWhite;
    if s != "" && IsWhite(s[0]) {
      hide IsBlank;
      TrimStartCuts(s[1..]);
      var n := |s| - |TrimStart(s)|;
      OneBlank(s[0]);
      BlankJoin([s[0]], s[1..][..n - 1]);
      assert s[..n] == [s[0]] + s[1..][..n - 1] && s[n..] == s[1..][n - 1..];
    } else {
      assert s[0..] == s;
    }
  }

  lemma OneBlank(c: char)
    requires IsWhite(c)
    ensures IsBlank([c])
  {
  }

  lemma {:induction false} TrimEndCuts(s: string)
    ensures var t := TrimEnd(s);
            |t| <= |s| && s[..|t|] == t && IsBlank(s[|t|..]) && (t == "" || !IsWhite(t[|t| - 1]))
  {
    hide IsWhite;
    if s != "" && IsWhite(s[|s| - 1]) {
      hide IsBlank;
      TrimEndCuts(s[..|s| - 1]);
      var n := |TrimEnd(s)|;
      OneBlank(s[|s| - 1]);
      BlankJoin(s[..|s| - 1][n..], [s[|s| - 1]]);
      assert s[n..] == s[..|s| - 1][n..] + [s[|s| - 1]] && s[..n] == s[..|s| - 1][..n];
    } else {
      assert s[..|s|] == s;
    }
  }

  lemma TrimCuts(s: string) returns (l: string, r: string)
    ensures IsBlank(l) && IsBlank(r) && s == l + Trim(s) + r && Bare(Trim(s))
  {
    hide TrimStart, TrimEnd, IsBlank, IsWhite;
    var u, t := TrimStart(s), Trim(s);
    TrimStartCuts(s);
    TrimEndCuts(u);
    l, r := s[..|s| - |u|], u[|t|..];
    InParts(s, |s| - |u|);
    InParts(u, |t|);
    Regroup(l, t, r);
    if t != "" { assert t[0] == u[0]; }
  }

  lemma InParts(s: string, n: nat)
    requires n <= |s|
    ensures s == s[..n] + s[n..]
  {
  }

  lemma Regroup(a: string, b: string, c: string)
    ensures a + (b + c) == a + b + c
  {
  }

  /** Trimming takes off the white space at both ends, all of it and nothing else. */
  lemma TrimExactly(s: string, t: string)
    ensures Trim(s) == t <==> Bare(t) && exists l, r :: IsBlank(l) && IsBlank(r) && s == l + t + r
  {
    hide Trim, IsBlank, Bare;
    if Bare(t) {
      if l, r :| IsBlank(l) && IsBlank(r) && s == l + t + r { TrimSurrounded(l, t, r); }
    }
    if Trim(s) == t {
      var l, r := TrimCuts(s);
    }
  }

  lemma TrimSurrounded(l: string, t: string, r: string)
    requires IsBlank(l) && IsBlank(r) && Bare(t)
    ensures Trim(l + t + r) == t
  {
    if t == "" {
      assert l + t + r == (l + r) + "";
      TrimStartBlank(l + r, "");
    } else {
      assert l + t + r == l + (t + r);
      TrimStartBlank(l, t + r);
      TrimEndBlank(t, r);
    }
  }

  function Elements<T>(s: seq<T>): set<T> {
    set x | x in s
  }

  lemma {:induction false} SubsetSize<T>(a: set<T>, b: set<T>)
    requires a <= b
    ensures |a| <= |b|
  {
    if a != {} {
      var x :| x in a;
      SubsetSize(a - {x}, b - {x});
    }
  }
}
