/**
 * The file system the commands see: a map from paths to entries. Only what the
 * commands observe is kept: directories, files with their bytes, and the two
 * ways a listed entry can fail (the listing yields an error item in its place,
 * or its metadata cannot be read).
 */
module Store {
  import opened Wrappers
  import opened Paths
  import opened Errors

  type Byte = b: int | 0 <= b < 256

  datatype Node =
    | Dir
    | File(data: seq<Byte>)
    | Unreadable    // `read_dir` yields an error item in this entry's place
    | Unstatable    // `read_dir` lists it, but `metadata()` fails

  /** The entries below the root; the root itself is always a directory. */
  type Tree = map<Path, Node>

  /** Every entry sits in a directory that exists. */
  predicate WellFormed(t: Tree) {
    forall q :: q in t ==> q != [] && IsDir(t, Parent(q))
  }

  predicate IsDir(t: Tree, p: Path) {
    p == [] || (p in t && t[p].Dir?)
  }

  /** `Path::exists`: the path names something whose metadata can be read. */
  predicate Exists(t: Tree, p: Path) {
    p == [] || (p in t && (t[p].Dir? || t[p].File?))
  }

  /** The names `read_dir` reports for a directory, error items included. */
  function Children(t: Tree, dir: Path): (names: set<string>)
    ensures forall n :: n in names <==> dir + [n] in t
  {
    assert forall q :: q in t && |q| == |dir| + 1 && q[..|dir|] == dir ==> q == dir + [q[|dir|]];
    assert forall n :: dir + [n] in t ==> (dir + [n])[..|dir|] == dir && (dir + [n])[|dir|] == n;
    set q | q in t && |q| == |dir| + 1 && q[..|dir|] == dir :: q[|dir|]
  }

  /** In a well-formed tree only a directory has entries. */
  lemma NoChildrenUnlessDir(t: Tree, p: Path)
    requires WellFormed(t) && !IsDir(t, p)
    ensures Children(t, p) == {}
  {
  }

  /** `metadata().len()` of an entry; a directory counts as 0 and a failing entry is skipped. */
  function EntrySize(t: Tree, p: Path): nat {
    if p in t && t[p].File? then |t[p].data| else 0
  }

  /** The sum of the weights of the given names. */
  ghost function Sum(w: map<string, nat>, names: set<string>): nat
    requires names <= w.Keys
    decreases names
  {
    if names == {} then 0 else var n :| n in names; w[n] + Sum(w, names - {n})
  }

  /** The sum does not depend on which name is taken out first. */
  lemma {:induction false} SumPick(w: map<string, nat>, names: set<string>, n: string)
    requires names <= w.Keys && n in names
    ensures Sum(w, names) == w[n] + Sum(w, names - {n})
    decreases names
  {
    var m :| m in names && Sum(w, names) == w[m] + Sum(w, names - {m});
    if m != n {
      SumPick(w, names - {m}, n);
      SumPick(w, names - {n}, m);
      assert names - {m} - {n} == names - {n} - {m};
    }
  }

  lemma SumAdd(w: map<string, nat>, done: set<string>, n: string)
    requires done + {n} <= w.Keys && n !in done
    ensures Sum(w, done + {n}) == Sum(w, done) + w[n]
  {
    SumPick(w, done + {n}, n);
    assert done + {n} - {n} == done;
  }

  /** Each direct entry of `dir` with the size it contributes. */
  function SizeWeights(t: Tree, dir: Path): (w: map<string, nat>)
    ensures w.Keys == Children(t, dir)
  {
    map n | n in Children(t, dir) :: EntrySize(t, dir + [n])
  }

  /** The bytes held directly in `dir`, one level deep: nested directories add nothing. */
  ghost function DirSize(t: Tree, dir: Path): nat {
    Sum(SizeWeights(t, dir), Children(t, dir))
  }

  /**
   * The loop `remove` and `doctor` share: the lengths of the direct entries of
   * `dir`, in whatever order they are listed, skipping those that fail.
   */
  method TotalSize(t: Tree, dir: Path) returns (total: nat)
    ensures total == DirSize(t, dir)
  {
    var w := SizeWeights(t, dir);
    var pending := Children(t, dir);
    ghost var done: set<string> := {};
    total := 0;
    while pending != {}
      invariant pending !! done && pending + done == Children(t, dir)
      invariant total == Sum(w, done)
      decreases pending
    {
      var n :| n in pending;
      SumAdd(w, done, n);
      total := total + EntrySize(t, dir + [n]);
      pending := pending - {n};
      done := done + {n};
    }
    assert done == Children(t, dir);
  }

  /** Sums over weights that agree on the names summed are equal. */
  lemma {:induction false} SumAgree(w: map<string, nat>, v: map<string, nat>, names: set<string>)
    requires names <= w.Keys && names <= v.Keys
    requires forall n :: n in names ==> w[n] == v[n]
    ensures Sum(w, names) == Sum(v, names)
    decreases names
  {
    if names != {} {
      var n :| n in names;
      SumPick(w, names, n);
      SumPick(v, names, n);
      SumAgree(w, v, names - {n});
    }
  }

  /** A new file directly inside `dir` adds its length to the directory's size. */
  lemma DirSizeAddFile(t: Tree, dir: Path, n: string, data: seq<Byte>)
    requires dir + [n] !in t
    ensures DirSize(t[dir + [n] := File(data)], dir) == DirSize(t, dir) + |data|
  {
    var t' := t[dir + [n] := File(data)];
    var w, w' := SizeWeights(t, dir), SizeWeights(t', dir);
    assert Children(t', dir) == Children(t, dir) + {n};
    forall m | m in Children(t, dir) ensures w[m] == w'[m] {
      assert dir + [m] != dir + [n];
    }
    SumAgree(w, w', Children(t, dir));
    assert n !in Children(t, dir);
    SumAdd(w', Children(t, dir), n);
  }

  /** An entry anywhere but directly inside `dir` leaves its size alone: only one level counts. */
  lemma DirSizeOneLevel(t: Tree, dir: Path, q: Path, node: Node)
    requires !(|q| == |dir| + 1 && q[..|dir|] == dir)
    ensures DirSize(t[q := node], dir) == DirSize(t, dir)
  {
    var t' := t[q := node];
    forall m ensures dir + [m] in t' <==> dir + [m] in t {
      assert (dir + [m])[..|dir|] == dir;
    }
    assert Children(t', dir) == Children(t, dir);
    forall m | m in Children(t, dir) ensures SizeWeights(t, dir)[m] == SizeWeights(t', dir)[m] {
      assert (dir + [m])[..|dir|] == dir;
    }
    SumAgree(SizeWeights(t, dir), SizeWeights(t', dir), Children(t, dir));
  }

  /** In a well-formed tree every ancestor of a directory is a directory. */
  lemma {:induction false} AncestorsAreDirs(t: Tree, p: Path)
    requires WellFormed(t) && IsDir(t, p)
    ensures forall i :: 0 <= i <= |p| ==> IsDir(t, p[..i])
    decreases |p|
  {
    if p != [] {
      AncestorsAreDirs(t, Parent(p));
      assert forall i :: 0 <= i < |p| ==> p[..i] == Parent(p)[..i];
      assert p[..|p|] == p;
    }
  }

  /**
   * `fs::create_dir_all`: make `p` and every missing ancestor a directory, or
   * fail at the first ancestor that exists but is not a directory.
   */
  function MakeDirs(t: Tree, p: Path): (r: Result<Tree, Error>)
    requires WellFormed(t)
    ensures r.Ok? ==> forall i :: 0 <= i <= |p| ==> IsDir(r.value, p[..i])
    ensures r.Ok? ==> forall q :: q in t ==> q in r.value && r.value[q] == t[q]
    ensures r.Ok? ==> forall q :: q in r.value && q !in t ==> Within(p, q) && r.value[q] == Dir
    ensures r.Err? ==> r.error.NotADirectory? && Within(p, r.error.path)
                       && r.error.path in t && !t[r.error.path].Dir?
    decreases |p|
  {
    if p == [] then Ok(t)
    else if p in t then
      if t[p].Dir? then AncestorsAreDirs(t, p); Ok(t) else Err(NotADirectory(p))
    else
      match MakeDirs(t, Parent(p))
      case Err(e) => Err(e)
      case Ok(t') =>
        assert forall i :: 0 <= i < |p| ==> p[..i] == Parent(p)[..i];
        assert p[..|p|] == p;
        Ok(t'[p := Dir])
  }

  lemma {:induction false} MakeDirsWellFormed(t: Tree, p: Path)
    requires WellFormed(t)
    ensures MakeDirs(t, p).Ok? ==> WellFormed(MakeDirs(t, p).value)
    decreases |p|
  {
    if p != [] && p !in t && MakeDirs(t, p).Ok? {
      MakeDirsWellFormed(t, Parent(p));
      var t' := MakeDirs(t, Parent(p)).value;
      assert IsDir(t', Parent(p)[..|Parent(p)|]);
      assert MakeDirs(t, p).value == t'[p := Dir];
    }
  }

  /** The `if !p.exists() { create_dir_all(p)? }` idiom. */
  function EnsureDir(t: Tree, p: Path): (r: Result<Tree, Error>)
    requires WellFormed(t)
    ensures r.Ok? ==> WellFormed(r.value) && Exists(r.value, p)
    ensures Exists(t, p) ==> r == Ok(t)
  {
    if Exists(t, p) then Ok(t) else MakeDirsWellFormed(t, p); MakeDirs(t, p)
  }

  /** Asking again for a directory that is already there changes nothing. */
  lemma EnsureDirIdempotent(t: Tree, p: Path)
    requires WellFormed(t) && EnsureDir(t, p).Ok?
    ensures EnsureDir(EnsureDir(t, p).value, p) == EnsureDir(t, p)
  {
  }

  /** `fs::remove_dir_all`: `p` and everything below it disappear, nothing else changes. */
  function RemoveTree(t: Tree, p: Path): (r: Tree)
    ensures forall q :: q in r <==> q in t && !Within(q, p)
    ensures forall q :: q in r ==> r[q] == t[q]
    ensures WellFormed(t) ==> WellFormed(r)
  {
    var r := map q | q in t && !Within(q, p) :: t[q];
    assert forall q :: q in r && q != [] && Within(Parent(q), p) ==> Within(q, p);
    r
  }

  /**
   * What `remove_dir_all` leaves when the system refuses the final `rmdir` of
   * `p`: everything below `p` is gone, `p` itself stays.
   */
  function ClearTree(t: Tree, p: Path): (r: Tree)
    ensures forall q :: q in r <==> q in t && !(Within(q, p) && q != p)
    ensures forall q :: q in r ==> r[q] == t[q]
    ensures WellFormed(t) ==> WellFormed(r)
  {
    var r := map q | q in t && !(Within(q, p) && q != p) :: t[q];
    assert forall q :: q != [] && Within(Parent(q), p) && Parent(q) != p ==> Within(q, p) && q != p;
    r
  }

  /**
   * `rmdir` refuses the root and a path whose last component is "." or ".."
   * (trailing separators aside), after `remove_dir_all` has emptied it.
   */
  predicate RmdirRefused(dir: Path, name: string) {
    dir == [] || LastNamed(Split(name)) == "." || LastNamed(Split(name)) == ".."
  }

  // ---- Looking a name up ----

  /**
   * How the system looks up `base.join(name)` component by component: an empty
   * component and "." stay, ".." climbs to the parent, and each must be met in a
   * directory; a name component followed by more of the path must itself be a
   * directory. A name starting with '/' starts again from the root. `None` when
   * a component on the way is missing or not a directory: the path then names
   * nothing, and nothing can be created there.
   */
  function Resolve(t: Tree, base: Path, name: string): Option<Path> {
    ResolveSteps(t, if name != [] && name[0] == '/' then [] else base, Split(name))
  }

  function ResolveSteps(t: Tree, p: Path, cs: seq<string>): Option<Path>
    decreases |cs|
  {
    if cs == [] then Some(p)
    else
      var c := cs[0];
      if c == "" || c == "." || c == ".." then
        if IsDir(t, p) then ResolveSteps(t, Step(p, c), cs[1..]) else None
      else if |cs| == 1 then Some(p + [c])
      else if IsDir(t, p + [c]) then ResolveSteps(t, p + [c], cs[1..])
      else None
  }

  /** `Path::exists` of `base.join(name)`. */
  predicate ExistsAt(t: Tree, base: Path, name: string) {
    var p := Resolve(t, base, name);
    p.Some? && Exists(t, p.value)
  }

  lemma {:induction false} ResolveStepsIsWalk(t: Tree, p: Path, cs: seq<string>)
    ensures ResolveSteps(t, p, cs).Some? ==> ResolveSteps(t, p, cs).value == Walk(p, cs)
    decreases |cs|
  {
    if cs != [] {
      var c := cs[0];
      if c == "" || c == "." || c == ".." {
        ResolveStepsIsWalk(t, Step(p, c), cs[1..]);
      } else if |cs| > 1 {
        ResolveStepsIsWalk(t, p + [c], cs[1..]);
      }
    }
  }

  /** Where the lookup succeeds it lands where the text-level `Join` points. */
  lemma ResolveIsJoin(t: Tree, base: Path, name: string)
    ensures Resolve(t, base, name).Some? ==> Resolve(t, base, name).value == Join(base, name)
  {
    ResolveStepsIsWalk(t, if name != [] && name[0] == '/' then [] else base, Split(name));
  }

  /** A plain name is looked up as one component, whatever the tree holds. */
  lemma ResolvePlain(t: Tree, base: Path, name: string)
    requires IsPlainName(name)
    ensures Resolve(t, base, name) == Some(base + [name])
  {
    SplitNoSeparator(name);
  }

  /** Through a component that is not a directory, "<component>/.." names nothing. */
  lemma ResolveThroughMissing(t: Tree, base: Path, name: string)
    requires IsPlainName(name) && !IsDir(t, base + [name])
    ensures Resolve(t, base, name + "/..") == None
  {
    assert name + "/.." == name + "/" + "..";
    SplitAtSeparator(name, "..");
    SplitNoSeparator("..");
    assert Split(name + "/..") == [name, ".."];
  }

  /** Whatever a lookup finds below `p` requires `p` to be a directory. */
  lemma ResolveNeedsDir(t: Tree, p: Path, cs: seq<string>)
    requires WellFormed(t) && cs != []
    requires ResolveSteps(t, p, cs).Some? && Exists(t, ResolveSteps(t, p, cs).value)
    ensures IsDir(t, p)
  {
    var c := cs[0];
    if c != "" && c != "." && c != ".." {
      assert (p + [c]) != [] && Parent(p + [c]) == p;
      if |cs| == 1 {
        assert ResolveSteps(t, p, cs).value == p + [c];
      }
    }
  }

  /** Starting above a directory, the lookup walks down its plain components first. */
  lemma {:induction false} ResolveDown(t: Tree, b: Path, p: Path, cs: seq<string>)
    requires WellFormed(t) && IsDir(t, b + p)
    requires forall k :: 0 <= k < |p| ==> IsPlainName(p[k])
    ensures ResolveSteps(t, b, p + cs) == ResolveSteps(t, b + p, cs)
    decreases |p|
  {
    if p != [] {
      var c := p[0];
      assert (p + cs)[0] == c && (p + cs)[1..] == p[1..] + cs;
      assert b + [c] + p[1..] == b + p;
      if |p + cs| == 1 {
        assert b + p == b + [c];
      } else {
        AncestorsAreDirs(t, b + p);
        assert (b + p)[..|b| + 1] == b + [c];
        ResolveDown(t, b + [c], p[1..], cs);
      }
    } else {
      assert b + p == b && p + cs == cs;
    }
  }

  /**
   * A child started on the text of a path joined to a directory's text finds
   * what the lookup below that directory finds.
   */
  lemma ResolveText(t: Tree, p: Path, name: string)
    requires WellFormed(t) && IsDir(t, p)
    requires forall k :: 0 <= k < |p| ==> IsPlainName(p[k])
    ensures Resolve(t, [], JoinText(PathText(p), name)) == Resolve(t, p, name)
  {
    if !(name != [] && name[0] == '/') {
      var s := JoinText(PathText(p), name);
      var cs := Split(name);
      SplitJoinText(p, name);
      assert Resolve(t, [], s) == ResolveSteps(t, [], [""] + p + cs);
      assert ([""] + p + cs)[1..] == p + cs;
      assert ResolveSteps(t, [], [""] + p + cs) == ResolveSteps(t, [], p + cs);
      assert [] + p == p;
      ResolveDown(t, [], p, cs);
    }
  }

  /** `File::create` followed by writing `data`, or `fs::write`. */
  function WriteFile(t: Tree, p: Path, data: seq<Byte>): (r: Result<Tree, Error>)
    ensures r.Ok? <==> p != [] && IsDir(t, Parent(p)) && (p !in t || t[p].File?)
    ensures r.Ok? ==> r.value == t[p := File(data)]
    ensures r.Ok? && WellFormed(t) ==> WellFormed(r.value)
    ensures r.Err? ==> r.error == CannotWrite(p)
  {
    if p != [] && IsDir(t, Parent(p)) && (p !in t || t[p].File?) then Ok(t[p := File(data)])
    else Err(CannotWrite(p))
  }
}
