/**
 * Paths as sequences of components, and the text-level reading of
 * `Path::join`: empty and "." components vanish, ".." drops the component
 * before it, and a name starting with '/' starts again from the root. This is
 * where the joined path points when every component on the way exists; the
 * lookup against the file system, where a missing component makes the whole
 * path not exist, is `Store.Resolve`.
 */
module Paths {

  /** An absolute path as its components below the root: "/home/ana" is ["home", "ana"]. */
  type Path = seq<string>

  function Parent(p: Path): Path
    requires p != []
  {
    p[..|p| - 1]
  }

  /** `b` is `a` itself or lies somewhere below it. */
  predicate Within(b: Path, a: Path) {
    |a| <= |b| && b[..|a|] == a
  }

  /** A name that `join` appends as exactly one new component. */
  predicate IsPlainName(n: string) {
    n != "" && n != "." && n != ".." && '/' !in n
  }

  /** The pieces of `s` between the '/' separators. */
  function Split(s: string): (r: seq<string>)
    ensures |r| >= 1
    ensures forall k :: 0 <= k < |r| ==> '/' !in r[k]
  {
    if s == [] then [""]
    else
      var rest := Split(s[1..]);
      if s[0] == '/' then [""] + rest else [[s[0]] + rest[0]] + rest[1..]
  }

  /** The components joined with '/' separators. */
  function Unsplit(cs: seq<string>): string
  {
    if cs == [] then ""
    else if |cs| == 1 then cs[0]
    else cs[0] + "/" + Unsplit(cs[1..])
  }

  function Step(p: Path, c: string): Path {
    if c == "" || c == "." then p
    else if c == ".." then (if p == [] then [] else Parent(p))
    else p + [c]
  }

  function Walk(p: Path, cs: seq<string>): Path
    decreases |cs|
  {
    if cs == [] then p else Walk(Step(p, cs[0]), cs[1..])
  }

  /** Where `base.join(name)` points when every component on the way exists. */
  function Join(base: Path, name: string): Path {
    Walk(if name != [] && name[0] == '/' then [] else base, Split(name))
  }

  /** How a path is written out on the command line of a child process. */
  function PathText(p: Path): string {
    "/" + Unsplit(p)
  }

  lemma {:induction false} SplitNoSeparator(s: string)
    requires '/' !in s
    ensures Split(s) == [s]
    decreases |s|
  {
    if s != [] {
      SplitNoSeparator(s[1..]);
      assert [s[0]] + s[1..] == s;
    }
  }

  lemma {:induction false} SplitAtSeparator(a: string, b: string)
    requires '/' !in a
    ensures Split(a + "/" + b) == [a] + Split(b)
    decreases |a|
  {
    var s := a + "/" + b;
    if a == [] {
      assert s[1..] == b;
    } else {
      assert s[1..] == a[1..] + "/" + b;
      SplitAtSeparator(a[1..], b);
      assert [a[0]] + a[1..] == a;
    }
  }

  /** A separator splits a path into the pieces on its left followed by those on its right. */
  lemma {:induction false} SplitConcat(x: string, y: string)
    ensures Split(x + "/" + y) == Split(x) + Split(y)
    decreases |x|
  {
    var s := x + "/" + y;
    if x == [] {
      assert s[1..] == y;
    } else {
      assert s[1..] == x[1..] + "/" + y;
      SplitConcat(x[1..], y);
    }
  }

  /** Splitting undoes joining, for components without separators. */
  lemma {:induction false} SplitUnsplit(cs: seq<string>)
    requires cs != []
    requires forall k :: 0 <= k < |cs| ==> '/' !in cs[k]
    ensures Split(Unsplit(cs)) == cs
    decreases |cs|
  {
    if |cs| == 1 {
      SplitNoSeparator(cs[0]);
    } else {
      SplitAtSeparator(cs[0], Unsplit(cs[1..]));
      SplitUnsplit(cs[1..]);
    }
  }

  lemma {:induction false} WalkPlain(p: Path, cs: seq<string>)
    requires forall k :: 0 <= k < |cs| ==> IsPlainName(cs[k])
    ensures Walk(p, cs) == p + cs
    decreases |cs|
  {
    if cs != [] {
      WalkPlain(p + [cs[0]], cs[1..]);
      assert p + [cs[0]] + cs[1..] == p + cs;
    }
  }

  /** Joining a plain name appends it as one component. */
  lemma JoinPlain(base: Path, name: string)
    requires IsPlainName(name)
    ensures Join(base, name) == base + [name]
  {
    SplitNoSeparator(name);
    assert name[0] != '/';
    assert Walk(base, [name]) == Walk(base + [name], []);
  }

  /** The path written on a command line names the same path again. */
  lemma PathTextRoundTrip(p: Path)
    requires forall k :: 0 <= k < |p| ==> IsPlainName(p[k])
    ensures Join([], PathText(p)) == p
  {
    var s := PathText(p);
    assert s[0] == '/' && s[1..] == Unsplit(p);
    if p == [] {
      assert Split(s) == ["", ""];
      assert Walk([], ["", ""]) == Walk([], [""]) == Walk([], []);
    } else {
      SplitUnsplit(p);
      assert Split(s) == [""] + p;
      WalkPlain([], p);
      assert Walk([], [""] + p) == Walk([], p);
    }
  }

  /** The text `Path::join` produces before any resolution: an absolute name replaces the base. */
  function JoinText(base: string, name: string): string {
    if name != [] && name[0] == '/' then name
    else if base == "/" then "/" + name
    else base + "/" + name
  }

  lemma {:induction false} WalkAppend(p: Path, a: seq<string>, b: seq<string>)
    ensures Walk(p, a + b) == Walk(Walk(p, a), b)
    decreases |a|
  {
    if a != [] {
      assert (a + b)[1..] == a[1..] + b;
      WalkAppend(Step(p, a[0]), a[1..], b);
    } else {
      assert a + b == b;
    }
  }

  /** The joined text splits into the root's empty piece, the base's components and the name's pieces. */
  lemma SplitJoinText(p: Path, name: string)
    requires forall k :: 0 <= k < |p| ==> IsPlainName(p[k])
    requires !(name != [] && name[0] == '/')
    ensures var s := JoinText(PathText(p), name);
            s != [] && s[0] == '/' && Split(s) == [""] + p + Split(name)
  {
    if p == [] {
      assert PathText(p) == "/";
      var s := "/" + name;
      assert s == "" + "/" + name;
      SplitAtSeparator("", name);
    } else {
      var u := Unsplit(p);
      assert PathText(p) != "/" by {
        assert |PathText(p)| > 1 by {
          assert |u| >= |p[0]| > 0 by { UnsplitLength(p); }
        }
      }
      var s := "/" + u + "/" + name;
      assert s == "" + "/" + (u + "/" + name);
      SplitAtSeparator("", u + "/" + name);
      SplitConcat(u, name);
      SplitUnsplit(p);
    }
  }

  /** The joined text, read from the root, points where `Join` points. */
  lemma JoinTextResolves(p: Path, name: string)
    requires forall k :: 0 <= k < |p| ==> IsPlainName(p[k])
    ensures Join([], JoinText(PathText(p), name)) == Join(p, name)
  {
    if !(name != [] && name[0] == '/') {
      var s := JoinText(PathText(p), name);
      SplitJoinText(p, name);
      assert Join([], s) == Walk([], [""] + p + Split(name));
      WalkFromRoot(p, Split(name));
    }
  }

  /** Walking from the root through the root's empty piece and then a plain path starts at that path. */
  lemma WalkFromRoot(p: Path, cs: seq<string>)
    requires forall k :: 0 <= k < |p| ==> IsPlainName(p[k])
    ensures Walk([], [""] + p + cs) == Walk(p, cs)
  {
    assert ([""] + p + cs)[1..] == p + cs;
    assert Walk([], [""] + p + cs) == Walk([], p + cs);
    WalkAppend([], p, cs);
    WalkPlain([], p);
    assert [] + p == p;
  }

  lemma UnsplitLength(cs: seq<string>)
    requires cs != []
    ensures |Unsplit(cs)| >= |cs[0]|
  {
  }

  /** The last piece of a split name that is not empty, or "" when there is none. */
  function LastNamed(cs: seq<string>): string
    decreases |cs|
  {
    if cs == [] then ""
    else if cs[|cs| - 1] != "" then cs[|cs| - 1]
    else LastNamed(cs[..|cs| - 1])
  }
}
