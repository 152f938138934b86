/** Filesystem paths in the manner of Python's pathlib: a path is a flag for
    "absolute" and the list of its components. Parsing a string splits it on
    '/' and drops empty and "." components, so "a//b/", "./a/b" and "a/b"
    denote the same path and "" denotes the current directory ".". */
module Paths {

  datatype Path = Path(absolute: bool, parts: seq<string>)

  /** `p.name`, the last component. */
  function Name(p: Path): string
    requires p.parts != []
  {
    p.parts[|p.parts| - 1]
  }

  /** `p.parent`: the path without its last component; a root ("/" or ".")
      is its own parent. */
  function Parent(p: Path): (q: Path)
    ensures q.absolute == p.absolute
    ensures p.parts == [] ==> q == p
    ensures p.parts != [] ==> |q.parts| == |p.parts| - 1 && q.parts == p.parts[..|p.parts| - 1]
  {
    if p.parts == [] then p else Path(p.absolute, p.parts[..|p.parts| - 1])
  }

  /** `p / name` for a single component name. */
  function Join(p: Path, name: string): (r: Path)
    ensures r.parts != [] && Parent(r) == p && Name(r) == name
  {
    Path(p.absolute, p.parts + [name])
  }

  /** q is an entry directly inside directory d. */
  predicate IsChild(d: Path, q: Path) {
    q.parts != [] && Parent(q) == d
  }

  /** p together with every directory above it, up to its root. */
  function AncestorsOrSelf(p: Path): (s: set<Path>)
    ensures p in s
    ensures forall q :: q in s ==> q.absolute == p.absolute && |q.parts| <= |p.parts|
    ensures forall q :: q in s ==> q.parts == p.parts[..|q.parts|]
    decreases |p.parts|
  {
    if p.parts == [] then {p} else {p} + AncestorsOrSelf(Parent(p))
  }

  /** A component name that parsing keeps as it is. */
  predicate PlainName(name: string) {
    name != "" && name != "." && '/' !in name
  }

  /** `s.split("/")`: the pieces between the slashes, always at least one. */
  function Split(s: string): (pieces: seq<string>)
    ensures |pieces| >= 1
    decreases |s|
  {
    if s == "" then [""]
    else
      var init := Split(s[..|s| - 1]);
      var c := s[|s| - 1];
      if c == '/' then init + [""]
      else init[..|init| - 1] + [init[|init| - 1] + [c]]
  }

  /** The pieces that name components: empty pieces and "." are dropped. */
  function Components(pieces: seq<string>): (parts: seq<string>)
    ensures forall i :: 0 <= i < |parts| ==> parts[i] != "" && parts[i] != "."
    decreases |pieces|
  {
    if pieces == [] then []
    else
      var last := pieces[|pieces| - 1];
      Components(pieces[..|pieces| - 1]) + (if last == "" || last == "." then [] else [last])
  }

  /** `Path(s)` for a string s. */
  function Parse(s: string): Path {
    Path(|s| > 0 && s[0] == '/', Components(Split(s)))
  }

  /** Splitting after a slash: the text after the last slash is the last piece. */
  lemma {:induction false} SplitSlash(a: string, b: string)
    requires '/' !in b
    ensures Split(a + "/" + b) == Split(a) + [b]
    decreases |b|
  {
    var s := a + "/" + b;
    if b == "" {
      assert s[..|s| - 1] == a;
    } else {
      var b' := b[..|b| - 1];
      var c := b[|b| - 1];
      assert s[..|s| - 1] == a + "/" + b';
      assert s[|s| - 1] == c;
      assert c in b;
      SplitSlash(a, b');
      assert b' + [c] == b;
    }
  }

  /** Concatenating a string path with "/" and a plain name gives that name
      inside the parsed directory, provided the string is not empty (for the
      empty string the result would become absolute). */
  lemma ParseJoin(a: string, name: string)
    requires |a| > 0 && PlainName(name)
    ensures Parse(a + "/" + name) == Join(Parse(a), name)
  {
    var pieces := Split(a) + [name];
    SplitSlash(a, name);
    assert pieces[..|pieces| - 1] == Split(a);
    assert Components(pieces) == Components(Split(a)) + [name];
    assert (a + "/" + name)[0] == a[0];
  }

  /** Two different names give two different entries of one directory. */
  lemma JoinInjective(d: Path, a: string, b: string)
    requires Join(d, a) == Join(d, b)
    ensures a == b
  {
    assert Name(Join(d, a)) == a && Name(Join(d, b)) == b;
  }
}
