/**
 The string and path functions of the Go standard library that the tree parser calls,
 and the facts about them its correctness rests on. A char is a Unicode code point, so
 the order LexLess is the bytewise order of the UTF-8 encodings.
 */
module GoStrings {

  // unicode.IsSpace
  predicate IsSpace(c: char) {
    || '\t' <= c <= '\r' || c == ' ' || c == '\U{85}' || c == '\U{A0}' || c == '\U{1680}'
    || '\U{2000}' <= c <= '\U{200A}' || c == '\U{2028}' || c == '\U{2029}' || c == '\U{202F}'
    || c == '\U{205F}' || c == '\U{3000}'
  }

  function TrimLeft(s: string): string {
    if s != "" && IsSpace(s[0]) then TrimLeft(s[1..]) else s
  }

  function TrimRight(s: string): string {
    if s != "" && IsSpace(s[|s| - 1]) then TrimRight(s[..|s| - 1]) else s
  }

  // strings.TrimSpace
  function TrimSpace(s: string): string {
    TrimRight(TrimLeft(s))
  }

  // strings.Split with a one-character separator
  function Split(s: string, sep: char): (parts: seq<string>)
    ensures |parts| > 0
  {
    if s == "" then [""]
    else
      var rest := Split(s[1..], sep);
      if s[0] == sep then [""] + rest else [[s[0]] + rest[0]] + rest[1..]
  }

  // strings.Join with a one-character separator
  function Join(parts: seq<string>, sep: char): string {
    if parts == [] then ""
    else if |parts| == 1 then parts[0]
    else Join(parts[..|parts| - 1], sep) + [sep] + parts[|parts| - 1]
  }

  // strings.HasPrefix
  predicate HasPrefix(s: string, prefix: string) {
    prefix <= s
  }

  // The index of the last slash, or -1.
  function LastSlash(s: string): (i: int)
    ensures -1 <= i < |s|
    ensures i >= 0 ==> s[i] == '/'
    ensures forall k | i < k < |s| :: s[k] != '/'
  {
    if s == "" then -1
    else if s[|s| - 1] == '/' then |s| - 1
    else LastSlash(s[..|s| - 1])
  }

  // One step of filepath.Clean: the elements kept so far, and the next one.
  function PushElement(kept: seq<string>, e: string, rooted: bool): seq<string> {
    if e == "" || e == "." then kept
    else if e == ".." then
      if kept != [] && kept[|kept| - 1] != ".." then kept[..|kept| - 1]
      else if rooted then kept
      else kept + [".."]
    else kept + [e]
  }

  function CleanElements(elements: seq<string>, rooted: bool): seq<string> {
    if elements == [] then []
    else PushElement(CleanElements(elements[..|elements| - 1], rooted), elements[|elements| - 1], rooted)
  }

  // filepath.Clean on a Unix system
  function Clean(path: string): string {
    var rooted := path != "" && path[0] == '/';
    var kept := CleanElements(Split(path, '/'), rooted);
    if rooted then (if kept == [] then "/" else PathOf(kept))
    else if kept == [] then "." else Join(kept, '/')
  }

  // filepath.Dir on a Unix system
  function Dir(path: string): string {
    Clean(path[..LastSlash(path) + 1])
  }

  function TrimSlashes(s: string): string {
    if s != "" && s[|s| - 1] == '/' then TrimSlashes(s[..|s| - 1]) else s
  }

  // filepath.Base on a Unix system
  function Base(path: string): string {
    if path == "" then "."
    else
      var p := TrimSlashes(path);
      if p == "" then "/" else p[LastSlash(p) + 1..]
  }

  // The absolute path with these elements.
  function PathOf(elements: seq<string>): string {
    if elements == [] then ""
    else PathOf(elements[..|elements| - 1]) + "/" + elements[|elements| - 1]
  }

  // A name that a file can have.
  predicate FileName(e: string) {
    e != "" && e != "." && e != ".." && '/' !in e
  }

  predicate FileNames(elements: seq<string>) {
    forall e | e in elements :: FileName(e)
  }

  function Elements(path: string): seq<string> {
    Split(path, '/')[1..]
  }

  // An absolute path other than "/" that filepath.Clean leaves alone (see CleanPathIsClean).
  predicate CleanPath(path: string) {
    var e := Elements(path);
    e != [] && FileNames(e) && path == PathOf(e)
  }

  predicate LexLess(a: string, b: string) {
    b != "" && (a == "" || a[0] < b[0] || (a[0] == b[0] && LexLess(a[1..], b[1..])))
  }

  // ------------------------------------------------------------------ splitting

  lemma {:induction false} SplitWhole(s: string, sep: char)
    requires sep !in s
    ensures Split(s, sep) == [s]
  {
    if s != "" {
      SplitWhole(s[1..], sep);
      assert s == [s[0]] + s[1..];
    }
  }

  lemma {:induction false} SplitSnoc(s: string, last: string, sep: char)
    requires sep !in last
    ensures Split(s + [sep] + last, sep) == Split(s, sep) + [last]
  {
    var t := s + [sep] + last;
    if s == "" {
      assert t[1..] == last;
      SplitWhole(last, sep);
    } else {
      assert t[1..] == s[1..] + [sep] + last;
      SplitSnoc(s[1..], last, sep);
    }
  }

  lemma {:induction false} SplitConcat(s: string, t: string, sep: char)
    ensures Split(s + [sep] + t, sep) == Split(s, sep) + Split(t, sep)
  {
    var u := s + [sep] + t;
    if s == "" {
      assert u[1..] == t;
    } else {
      assert u[1..] == s[1..] + [sep] + t;
      SplitConcat(s[1..], t, sep);
    }
  }

  lemma {:induction false} SplitJoin(parts: seq<string>, sep: char)
    requires parts != []
    requires forall p | p in parts :: sep !in p
    ensures Split(Join(parts, sep), sep) == parts
  {
    var n := |parts| - 1;
    if n == 0 {
      SplitWhole(parts[0], sep);
    } else {
      SplitJoin(parts[..n], sep);
      SplitSnoc(Join(parts[..n], sep), parts[n], sep);
      assert parts == parts[..n] + [parts[n]];
    }
  }

  lemma {:induction false} SplitHasNoSeparator(s: string, sep: char)
    ensures forall p | p in Split(s, sep) :: sep !in p
  {
    if s != "" {
      SplitHasNoSeparator(s[1..], sep);
    }
  }

  lemma {:induction false} SplitPathOf(elements: seq<string>)
    requires forall e | e in elements :: '/' !in e
    ensures Split(PathOf(elements), '/') == [""] + elements
  {
    if elements != [] {
      var n := |elements| - 1;
      SplitPathOf(elements[..n]);
      assert PathOf(elements) == PathOf(elements[..n]) + ['/'] + elements[n];
      SplitSnoc(PathOf(elements[..n]), elements[n], '/');
      assert elements == elements[..n] + [elements[n]];
    }
  }

  // ------------------------------------------------------------------ clean paths

  /** Clean paths and non-empty lists of file names are in one-to-one correspondence. */
  lemma {:induction false} ElementsOfPathOf(elements: seq<string>)
    requires elements != [] && FileNames(elements)
    ensures CleanPath(PathOf(elements)) && Elements(PathOf(elements)) == elements
  {
    SplitPathOf(elements);
  }

  lemma {:induction false} PathOfSnoc(elements: seq<string>, e: string)
    ensures PathOf(elements + [e]) == PathOf(elements) + "/" + e
  {
    assert (elements + [e])[..|elements|] == elements;
  }

  lemma {:induction false} PathOfConcat(a: seq<string>, b: seq<string>)
    ensures PathOf(a + b) == PathOf(a) + PathOf(b)
  {
    if b == [] {
      assert a + b == a;
    } else {
      var n := |b| - 1;
      assert a + b == (a + b[..n]) + [b[n]];
      PathOfSnoc(a + b[..n], b[n]);
      PathOfConcat(a, b[..n]);
      assert PathOf(a) + PathOf(b[..n]) + "/" + b[n] == PathOf(a) + (PathOf(b[..n]) + "/" + b[n]);
    }
  }

  lemma {:induction false} CleanElementsOfNames(elements: seq<string>, rooted: bool)
    requires FileNames(elements)
    ensures CleanElements(elements, rooted) == elements
  {
    if elements != [] {
      var n := |elements| - 1;
      assert FileName(elements[n]);
      CleanElementsOfNames(elements[..n], rooted);
      assert elements == elements[..n] + [elements[n]];
    }
  }

  lemma {:induction false} CleanElementsSkip(before: seq<string>, elements: seq<string>, after: seq<string>)
    requires FileNames(elements)
    requires before == [""] && (after == [] || after == [""])
    ensures CleanElements(before + elements + after, true) == elements
  {
    CleanElementsLead(elements);
    var all := before + elements + after;
    if after == [] {
      assert all == [""] + elements;
    } else {
      assert all[..|all| - 1] == [""] + elements;
    }
  }

  lemma {:induction false} CleanElementsLead(elements: seq<string>)
    requires FileNames(elements)
    ensures CleanElements([""] + elements, true) == elements
  {
    var all := [""] + elements;
    if elements == [] {
      assert all[..0] == [];
    } else {
      var n := |elements| - 1;
      assert FileName(elements[n]);
      assert all[..|all| - 1] == [""] + elements[..n];
      CleanElementsLead(elements[..n]);
      assert elements == elements[..n] + [elements[n]];
    }
  }

  lemma {:induction false} PathOfStartsWithSlash(elements: seq<string>)
    requires elements != []
    ensures PathOf(elements) != "" && PathOf(elements)[0] == '/'
  {
    if |elements| > 1 {
      PathOfStartsWithSlash(elements[..|elements| - 1]);
    }
  }

  /** A clean path is a fixed point of filepath.Clean. */
  lemma {:induction false} CleanPathIsClean(elements: seq<string>)
    requires elements != [] && FileNames(elements)
    ensures Clean(PathOf(elements)) == PathOf(elements)
  {
    PathOfStartsWithSlash(elements);
    SplitPathOf(elements);
    CleanElementsSkip([""], elements, []);
    assert [""] + elements + [] == [""] + elements;
  }

  lemma {:induction false} LastSlashSnoc(s: string, e: string)
    requires '/' !in e
    ensures LastSlash(s + "/" + e) == |s|
  {
    var t := s + "/" + e;
    assert t[|s|] == '/';
    assert t[|s| + 1..] == e;
  }

  /** filepath.Dir and filepath.Base take a clean path apart at its last element. */
  lemma {:induction false} DirBase(parent: seq<string>, e: string)
    requires FileNames(parent) && FileName(e)
    ensures Base(PathOf(parent + [e])) == e
    ensures Dir(PathOf(parent + [e])) == if parent == [] then "/" else PathOf(parent)
  {
    PathOfSnoc(parent, e);
    var p, s := PathOf(parent + [e]), PathOf(parent);
    LastSlashSnoc(s, e);
    assert p[|p| - 1] == e[|e| - 1];
    assert TrimSlashes(p) == p;
    assert p[|s| + 1..] == e;
    var d := p[..|s| + 1];
    assert d == s + "/" + "";
    SplitPathOf(parent);
    SplitSnoc(s, "", '/');
    assert Split(d, '/') == [""] + parent + [""];
    assert d[0] == '/' by {
      if parent != [] {
        PathOfStartsWithSlash(parent);
      }
    }
    CleanElementsSkip([""], parent, [""]);
  }

  // One clean path is below another when its elements go on.
  lemma {:induction false} PrefixIsBelow(p: string, q: string)
    requires CleanPath(p) && CleanPath(q)
    ensures HasPrefix(q, p + "/") <==> |Elements(p)| < |Elements(q)| && Elements(p) <= Elements(q)
  {
    var e, d := Elements(p), Elements(q);
    if HasPrefix(q, p + "/") {
      var rest := q[|p| + 1..];
      assert q == p + ['/'] + rest;
      SplitConcat(p, rest, '/');
      assert d == e + Split(rest, '/');
    }
    if |e| < |d| && e <= d {
      assert d == e + d[|e|..];
      PathOfConcat(e, d[|e|..]);
      PathOfStartsWithSlash(d[|e|..]);
      assert PathOf(d[|e|..])[..1] == "/";
    }
  }

  // ------------------------------------------------------------------ order

  lemma {:induction false} LexPrefix(a: string, b: string)
    requires a <= b && a != b
    ensures LexLess(a, b)
  {
    if a != "" {
      LexPrefix(a[1..], b[1..]);
    }
  }

  lemma {:induction false} LexCommonPrefix(p: string, a: string, b: string)
    ensures LexLess(p + a, p + b) <==> LexLess(a, b)
  {
    if p == "" {
      assert p + a == a && p + b == b;
    } else {
      assert (p + a)[1..] == p[1..] + a;
      assert (p + b)[1..] == p[1..] + b;
      LexCommonPrefix(p[1..], a, b);
    }
  }

  lemma {:induction false} LexIrreflexive(a: string)
    ensures !LexLess(a, a)
  {
    if a != "" {
      LexIrreflexive(a[1..]);
    }
  }

  lemma {:induction false} LexAsymmetric(a: string, b: string)
    requires LexLess(a, b)
    ensures !LexLess(b, a)
  {
    if a != "" && a[0] == b[0] {
      LexAsymmetric(a[1..], b[1..]);
    }
  }

  lemma {:induction false} LexTransitive(a: string, b: string, c: string)
    requires LexLess(a, b) && LexLess(b, c)
    ensures LexLess(a, c)
  {
    if a != "" && a[0] == b[0] && b[0] == c[0] {
      LexTransitive(a[1..], b[1..], c[1..]);
    }
  }

  lemma {:induction false} LexTotal(a: string, b: string)
    ensures a == b || LexLess(a, b) || LexLess(b, a)
  {
    if a != "" && b != "" && a[0] == b[0] {
      LexTotal(a[1..], b[1..]);
      if a[1..] == b[1..] {
        assert a == [a[0]] + a[1..];
        assert b == [b[0]] + b[1..];
      }
    }
  }
}
