/** Names of library files: components, order and selections. */
module LibraryNames {
  import opened Names
  import opened FileTree

  function Split(name: string): (r: Path)
    ensures |r| > 0
  {
    if name == [] then [[]]
    else
      var r := Split(name[1..]);
      if name[0] == '/' then [[]] + r else [[name[0]] + r[0]] + r[1..]
  }

  function Join(p: Path): string
    requires p != []
  {
    if |p| == 1 then p[0] else p[0] + "/" + Join(p[1..])
  }

  /** No two names split alike. */
  lemma {:induction false} JoinSplit(name: string)
    ensures Join(Split(name)) == name
  {
    if name != [] {
      JoinSplit(name[1..]);
      var r := Split(name[1..]);
      if name[0] == '/' {
        assert Split(name)[1..] == r;
      } else {
        assert Split(name)[1..] == r[1..];
      }
    }
  }

  lemma SplitInjective(a: string, b: string)
    requires Split(a) == Split(b)
    ensures a == b
  {
    JoinSplit(a);
    JoinSplit(b);
  }

  lemma {:induction false} SplitParts(name: string)
    ensures forall c | c in Split(name) :: '/' !in c
  {
    if name != [] {
      SplitParts(name[1..]);
      assert Split(name[1..])[0] in Split(name[1..]);
    }
  }

  lemma {:induction false} SplitJoin(p: Path)
    requires p != [] && forall c | c in p :: '/' !in c
    ensures Split(Join(p)) == p
    decreases |p|, if p == [] then 0 else |p[0]|
  {
    assert p[0] in p;
    if p[0] != [] {
      var shorter := [p[0][1..]] + p[1..];
      forall c | c in shorter ensures '/' !in c { if c in p[1..] { assert c in p; } }
      assert shorter[1..] == p[1..];
      SplitJoin(shorter);
      assert Join(p) == [p[0][0]] + Join(shorter) && Join(p)[1..] == Join(shorter);
      assert p[0][0] in p[0] && [p[0][0]] + p[0][1..] == p[0] && [p[0]] + p[1..] == p;
    } else if |p| > 1 {
      forall c | c in p[1..] ensures '/' !in c { assert c in p; }
      SplitJoin(p[1..]);
      assert Join(p) == "/" + Join(p[1..]) && Join(p)[1..] == Join(p[1..]) && [[]] + p[1..] == p;
    }
  }

  /** The components of a name are the one list of texts without slashes that gives the name, joined by slashes. */
  lemma SplitExactly(name: string, p: Path)
    ensures Split(name) == p <==> p != [] && (forall c | c in p :: '/' !in c) && Join(p) == name
  {
    JoinSplit(name);
    SplitParts(name);
    if p != [] && (forall c | c in p :: '/' !in c) && Join(p) == name { SplitJoin(p); }
  }

  // ---------------------------------------------------------------- names that may be used

  function UpperChar(c: char): char {
    if 'a' <= c <= 'z' then (c as int - 32) as char else c
  }

  function FirstPart(name: string): string {
    if name == [] || name[0] == '.' then [] else [UpperChar(name[0])] + FirstPart(name[1..])
  }

  predicate Reserved(part: string) {
    || part in {"CON", "PRN", "AUX", "NUL"}
    || (|part| == 4 && part[..3] in {"COM", "LPT"} && '1' <= part[3] <= '9')
  }

  predicate Control(c: char) {
    c < ' ' || 0x7f <= c as int <= 0x9f
  }

  predicate ValidName(name: string) {
    && name != [] && name[0] != '.' && name[|name| - 1] !in {'.', ' '}
    && (forall c | c in name :: c !in {'/', '\\', ':', '*', '?', '"', '<', '>', '|'} && !Control(c))
    && !Reserved(FirstPart(name))
  }

  /** Only the last component of a path may be missing. */
  predicate Usable(t: Tree, p: Path) {
    (forall c | c in p :: ValidName(c)) && (forall k | 0 < k < |p| :: IsFolder(t, p[..k]))
  }

  /** The path of a name in the data library. */
  function Resolve(t: Tree, name: string): Option<Path> {
    if name == "" then Some([])
    else if Usable(t, Split(name)) then Some(Split(name))
    else None
  }

  predicate Selectable(t: Tree, name: string) {
    name != "" && Resolve(t, name).Some? && Split(name) in t
  }

  /** The console and its kind, and nine ports of two sorts. */
  predicate IsDevice(device: string) {
    device in {"CON", "PRN", "AUX", "NUL"}
    || exists c: char | '1' <= c <= '9' :: device == "COM" + [c] || device == "LPT" + [c]
  }

  /** The name of a device in any case, alone or before a dot. */
  predicate NamesDevice(name: string, device: string) {
    && |device| <= |name| && Same(name[..|device|], device) && (|name| > |device| ==> name[|device|] == '.')
  }

  lemma {:induction false} FirstPartIs(name: string)
    ensures var n := |FirstPart(name)|;
            && n <= |name| && (n < |name| ==> name[n] == '.') && '.' !in name[..n]
            && forall i | 0 <= i < n :: FirstPart(name)[i] == UpperChar(name[i])
  {
    if name != [] && name[0] != '.' {
      var n := |FirstPart(name)|;
      FirstPartIs(name[1..]);
      assert name[..n] == [name[0]] + name[1..][..n - 1];
    }
  }

  /** Text in upper case, compared with a text without dots and lower-case letters. */
  lemma DeviceExactly(name: string, device: string)
    requires '.' !in device && forall c | c in device :: UpperChar(c) == c
    ensures FirstPart(name) == device <==> NamesDevice(name, device)
  {
    FirstPartIs(name);
    var n, d := |FirstPart(name)|, |device|;
    forall c: char, u: char ensures UpperChar(u) == u ==> (UpperChar(c) == u <==> SameLetter(c, u)) { }
    forall i | 0 <= i < d ensures UpperChar(device[i]) == device[i] && device[i] != '.' { assert device[i] in device; }
    if NamesDevice(name, device) {
      SameExactly(name[..d], device);
      forall i | 0 <= i < d ensures name[i] != '.' { assert SameLetter(name[..d][i], device[i]); }
      assert n == d && FirstPart(name) == device;
    }
    if FirstPart(name) == device {
      SameExactly(name[..d], device);
    }
  }

  /** Neither a control character nor one that separates or matches paths. */
  predicate CharAllowed(c: char) {
    c !in "/\\:*?\"<>|" && ' ' <= c && !('\U{7F}' <= c <= '\U{9F}')
  }

  lemma CharExactly(c: char)
    ensures CharAllowed(c) <==> c !in {'/', '\\', ':', '*', '?', '"', '<', '>', '|'} && !Control(c)
  {
  }

  /** A text that can name a file on every system, and neither hides it nor leads out of its folder. */
  ghost predicate NameAllowed(name: string) {
    && |name| > 0 && name[0] != '.' && name[|name| - 1] != '.' && name[|name| - 1] != ' '
    && (forall i | 0 <= i < |name| :: CharAllowed(name[i]))
    && forall device | IsDevice(device) :: !NamesDevice(name, device)
  }

  lemma ReservedExactly(part: string)
    ensures Reserved(part) <==> IsDevice(part)
  {
    if |part| == 4 { assert part == part[..3] + [part[3]]; }
  }

  lemma DevicesPlain(device: string)
    requires IsDevice(device)
    ensures '.' !in device && forall c | c in device :: UpperChar(c) == c
  {
  }

  lemma ValidNameExactly(name: string)
    ensures ValidName(name) <==> NameAllowed(name)
  {
    hide NamesDevice, FirstPart, UpperChar, Reserved, IsDevice, CharAllowed, Control;
    ReservedExactly(FirstPart(name));
    forall device | IsDevice(device) ensures FirstPart(name) == device <==> NamesDevice(name, device) {
      DevicesPlain(device);
      DeviceExactly(name, device);
    }
    forall i | 0 <= i < |name|
      ensures CharAllowed(name[i]) <==>
              name[i] !in {'/', '\\', ':', '*', '?', '"', '<', '>', '|'} && !Control(name[i])
    {
      CharExactly(name[i]);
    }
    if ValidName(name) { forall i | 0 <= i < |name| ensures name[i] in name { } }
  }

  /** The path of a name: its components are all allowed, and all but the last are folders that exist. */
  lemma ResolveExactly(t: Tree, name: string, p: Path)
    ensures Resolve(t, name) == Some(p) <==>
            if name == "" then p == []
            else
              && p != [] && Join(p) == name && (forall c | c in p :: NameAllowed(c))
              && forall k | 0 < k < |p| :: p[..k] in t && t[p[..k]].Folder?
  {
    hide ValidName, NameAllowed;
    SplitExactly(name, p);
    forall c | c in p ensures ValidName(c) <==> NameAllowed(c) { ValidNameExactly(c); }
    if forall c | c in p :: NameAllowed(c) { AllowedParts(p); }
  }

  lemma AllowedParts(p: Path)
    requires forall c | c in p :: NameAllowed(c)
    ensures forall c | c in p :: '/' !in c
  {
  }

  /** A selection: a name whose path exists, and not the whole library. */
  lemma SelectableExactly(t: Tree, name: string)
    ensures Selectable(t, name) <==> name != "" && Resolve(t, name).Some? && Resolve(t, name).value in t
  {
  }

  // ---------------------------------------------------------------- sorting

  predicate NameLe(a: string, b: string) {
    a == [] || (b != [] && (a[0] < b[0] || (a[0] == b[0] && NameLe(a[1..], b[1..]))))
  }

  /** The order of texts: a beginning comes first, and otherwise the first difference decides. */
  lemma {:induction false} NameLeExactly(a: string, b: string)
    ensures NameLe(a, b) <==> a <= b || exists k :: DiffersAt(a, b, k) && a[k] < b[k]
  {
    if a != [] && b != [] {
      NameLeExactly(a[1..], b[1..]);
      if a[0] == b[0] {
        forall k: int ensures DiffersAt(a[1..], b[1..], k) <==> k >= 0 && DiffersAt(a, b, k + 1) {
          if 0 <= k < |a| - 1 && k < |b| - 1 {
            assert a[..k + 1] == [a[0]] + a[1..][..k] && b[..k + 1] == [b[0]] + b[1..][..k];
          }
        }
        if k :| DiffersAt(a, b, k) && a[k] < b[k] { assert DiffersAt(a[1..], b[1..], k - 1); }
        if k :| DiffersAt(a[1..], b[1..], k) && a[1..][k] < b[1..][k] { assert DiffersAt(a, b, k + 1); }
      } else {
        assert DiffersAt(a, b, 0);
        forall k | DiffersAt(a, b, k) ensures k == 0 { }
      }
    }
  }

  predicate DiffersAt(a: string, b: string, k: int) {
    0 <= k < |a| && k < |b| && a[..k] == b[..k] && a[k] != b[k]
  }

  lemma {:induction false} NameOrder(a: string, b: string)
    ensures NameLe(a, b) || NameLe(b, a)
    ensures NameLe(a, b) && NameLe(b, a) ==> a == b
  {
    if a != [] && b != [] && a[0] == b[0] {
      NameOrder(a[1..], b[1..]);
      assert a == [a[0]] + a[1..] && b == [b[0]] + b[1..];
    }
  }

  lemma {:induction false} NameTransitive(a: string, b: string, c: string)
    requires NameLe(a, b) && NameLe(b, c)
    ensures NameLe(a, c)
  {
    if a != [] && a[0] == b[0] && b[0] == c[0] { NameTransitive(a[1..], b[1..], c[1..]); }
  }

  predicate Sorted(ns: seq<string>) {
    forall i, j | 0 <= i <= j < |ns| :: NameLe(ns[i], ns[j])
  }

  function Insert(ns: seq<string>, n: string): seq<string> {
    if ns == [] || NameLe(ns[|ns| - 1], n) then ns + [n]
    else Insert(ns[..|ns| - 1], n) + [ns[|ns| - 1]]
  }

  function Sort(ns: seq<string>): seq<string> {
    if ns == [] then [] else Insert(Sort(ns[..|ns| - 1]), ns[|ns| - 1])
  }

  lemma SortedLast(ns: seq<string>, last: string)
    requires Sorted(ns) && forall x | x in ns :: NameLe(x, last)
    ensures Sorted(ns + [last])
  {
    hide NameLe;
    NameOrder(last, last);
  }

  lemma {:induction false} InsertSorts(ns: seq<string>, n: string)
    requires Sorted(ns)
    ensures Sorted(Insert(ns, n)) && forall x :: x in Insert(ns, n) <==> x in ns || x == n
  {
    hide NameLe;
    if ns == [] || NameLe(ns[|ns| - 1], n) {
      forall x | x in ns ensures NameLe(x, n) {
        assert NameLe(x, ns[|ns| - 1]);
        NameTransitive(x, ns[|ns| - 1], n);
      }
      SortedLast(ns, n);
    } else {
      var rest, last := ns[..|ns| - 1], ns[|ns| - 1];
      assert ns == rest + [last];
      InsertSorts(rest, n);
      NameOrder(n, last);
      SortedLast(Insert(rest, n), last);
    }
  }

  lemma {:induction false} SortSorts(ns: seq<string>)
    ensures Sorted(Sort(ns)) && forall x :: x in Sort(ns) <==> x in ns
  {
    hide NameLe;
    if ns != [] {
      var rest, last := ns[..|ns| - 1], ns[|ns| - 1];
      assert ns == rest + [last];
      SortSorts(rest);
      InsertSorts(Sort(rest), last);
    }
  }

  predicate Distinct(ns: seq<string>) {
    forall i, j | 0 <= i < j < |ns| :: ns[i] != ns[j]
  }

  /** Drop a name that equals the one kept before it. */
  function Dedup(ns: seq<string>): seq<string> {
    if ns == [] then []
    else
      var rest, last := Dedup(ns[..|ns| - 1]), ns[|ns| - 1];
      if rest != [] && rest[|rest| - 1] == last then rest else rest + [last]
  }

  lemma {:induction false} DedupSorted(ns: seq<string>)
    requires Sorted(ns)
    ensures Distinct(Dedup(ns)) && Sorted(Dedup(ns)) && forall x :: x in Dedup(ns) <==> x in ns
  {
    hide NameLe;
    if ns != [] {
      var before, last := ns[..|ns| - 1], ns[|ns| - 1];
      assert ns == before + [last];
      DedupSorted(before);
      var rest := Dedup(before);
      forall x | x in rest ensures NameLe(x, last) {
        var i :| 0 <= i < |before| && before[i] == x;
        assert ns[i] == x && ns[|before|] == last;
      }
      SortedLast(rest, last);
      if rest == [] || rest[|rest| - 1] != last { NotAmong(rest, last); }
    }
  }

  lemma NotAmong(rest: seq<string>, last: string)
    requires Sorted(rest) && Distinct(rest) && (rest == [] || rest[|rest| - 1] != last)
               && forall x | x in rest :: NameLe(x, last)
    ensures last !in rest
  {
    hide NameLe;
    if last in rest {
      var top := rest[|rest| - 1];
      assert NameLe(last, top) && NameLe(top, last);
      NameOrder(last, top);
      assert false;
    }
  }

  // ---------------------------------------------------------------- selections

  predicate Requested(names: seq<string>, p: Path) {
    exists n | n in names :: Split(n) == p
  }

  /** A requested path that lies in no other requested one. */
  predicate Kept(names: seq<string>, p: Path) {
    Requested(names, p) && forall n | n in names :: Split(n) <= p ==> Split(n) == p
  }

  /** Every requested path lies in one that is kept. */
  lemma {:induction false} KeptCovers(names: seq<string>, p: Path) returns (c: Path)
    requires Requested(names, p)
    ensures Kept(names, c) && c <= p
    decreases |p|
  {
    if Kept(names, p) {
      c := p;
    } else {
      var n :| n in names && Split(n) <= p && Split(n) != p;
      c := KeptCovers(names, Split(n));
    }
  }

  /** No kept path lies in another. */
  lemma KeptApart(names: seq<string>, c: Path, d: Path)
    requires Kept(names, c) && Kept(names, d) && c <= d
    ensures c == d
  {
  }
}
