/** POSIX path arithmetic the remote adapter uses to map a local working directory onto
    the cluster: `os.path.abspath`, `os.path.relpath`, `os.path.join` and `os.path.dirname`.

    A normalised absolute path is kept as the sequence of its names from the root down;
    `Render` turns it back into text. The process's working directory, which `abspath`
    reads, is a parameter. */
module Paths {
  import opened Wrappers
  import opened PyText

  /** A name of a normalised path: not empty, not `.` or `..`, no separator. */
  predicate IsName(x: string) {
    x != [] && x != "." && x != ".." && '/' !in x
  }

  predicate Normal(p: seq<string>) {
    forall k :: 0 <= k < |p| ==> IsName(p[k])
  }

  /** One component of a path applied to a normalised path, as `normpath` does. */
  function Step(p: seq<string>, c: string): seq<string> {
    if c == "" || c == "." then p
    else if c == ".." then (if p == [] then [] else p[..|p| - 1])
    else p + [c]
  }

  function Walk(p: seq<string>, cs: seq<string>): seq<string>
    decreases |cs|
  {
    if cs == [] then p else Walk(Step(p, cs[0]), cs[1..])
  }

  /** `os.path.abspath(s)` with `cwd` as the working directory. */
  function AbsPath(cwd: seq<string>, s: string): seq<string> {
    if s != [] && s[0] == '/' then Walk([], Split(s, '/')) else Walk(cwd, Split(s, '/'))
  }

  function Render(p: seq<string>): string {
    "/" + Join(p, "/")
  }

  /** `os.path.join(a, b)` for two parts. */
  function PathJoin(a: string, b: string): (r: string)
    ensures b != [] && b[0] == '/' ==> r == b
  {
    if b != [] && b[0] == '/' then b
    else if a == [] || a[|a| - 1] == '/' then a + b
    else a + "/" + b
  }

  function Repeat(x: string, n: nat): (r: seq<string>)
    ensures |r| == n && forall k :: 0 <= k < n ==> r[k] == x
  {
    if n == 0 then [] else [x] + Repeat(x, n - 1)
  }

  /** Length of the longest common prefix of two name sequences. */
  function CommonPrefix(a: seq<string>, b: seq<string>): (n: nat)
    ensures n <= |a| && n <= |b| && a[..n] == b[..n]
    ensures n < |a| && n < |b| ==> a[n] != b[n]
  {
    if a == [] || b == [] || a[0] != b[0] then 0
    else
      var m := CommonPrefix(a[1..], b[1..]);
      assert a[..m + 1] == [a[0]] + a[1..][..m];
      assert b[..m + 1] == [b[0]] + b[1..][..m];
      m + 1
  }

  /** `os.path.relpath(path, start)`: climb from `start` to the common ancestor, then
      descend to `path`; `.` when they coincide. An empty `path` is a ValueError. */
  function RelPath(cwd: seq<string>, path: string, start: string): (r: Result<string>)
    ensures r.Err? <==> path == []
    ensures r.Err? ==> r.error == ValueError
  {
    if path == [] then Err(ValueError)
    else
      var s := AbsPath(cwd, start);
      var p := AbsPath(cwd, path);
      var i := CommonPrefix(s, p);
      var rel := Repeat("..", |s| - i) + p[i..];
      if rel == [] then Ok(".") else Ok(Join(rel, "/"))
  }

  /** `os.path.dirname(p)`: everything before the last separator, with trailing
      separators removed unless that leaves nothing but separators. */
  function Dirname(p: string): string {
    var head := p[..LastSlashEnd(p)];
    if exists k :: 0 <= k < |head| && head[k] != '/' then TrimSlashes(head) else head
  }

  function LastSlashEnd(p: string): (i: nat)
    ensures i <= |p|
    ensures i > 0 ==> p[i - 1] == '/'
    ensures forall k :: i <= k < |p| ==> p[k] != '/'
  {
    if p == [] then 0
    else if p[|p| - 1] == '/' then |p|
    else LastSlashEnd(p[..|p| - 1])
  }

  function TrimSlashes(s: string): (r: string)
    ensures |r| <= |s| && r == s[..|r|] && (r == [] || r[|r| - 1] != '/')
  {
    if s != [] && s[|s| - 1] == '/' then TrimSlashes(s[..|s| - 1]) else s
  }

  // ---------------------------------------------------------------- lemmas

  /** Walking a concatenation is walking one part after the other. */
  lemma {:induction false} WalkAppend(p: seq<string>, x: seq<string>, y: seq<string>)
    ensures Walk(p, x + y) == Walk(Walk(p, x), y)
    decreases |x|
  {
    if x != [] {
      assert (x + y)[0] == x[0];
      assert (x + y)[1..] == x[1..] + y;
      WalkAppend(Step(p, x[0]), x[1..], y);
    } else {
      assert x + y == y;
    }
  }

  /** Names are appended as they are. */
  lemma {:induction false} WalkNames(p: seq<string>, names: seq<string>)
    requires Normal(names)
    ensures Walk(p, names) == p + names
    decreases |names|
  {
    if names != [] {
      WalkNames(p + [names[0]], names[1..]);
      assert p + [names[0]] + names[1..] == p + names;
    }
  }

  /** `n` parent steps drop the last `n` names. */
  lemma {:induction false} WalkUp(p: seq<string>, n: nat)
    requires n <= |p|
    ensures Walk(p, Repeat("..", n)) == p[..|p| - n]
    decreases n
  {
    if n > 0 {
      assert Repeat("..", n)[1..] == Repeat("..", n - 1);
      WalkUp(p[..|p| - 1], n - 1);
      assert p[..|p| - 1][..|p| - 1 - (n - 1)] == p[..|p| - n];
    }
  }

  /** Walking components free of separators keeps a path normal. */
  lemma {:induction false} WalkNormal(p: seq<string>, cs: seq<string>)
    requires Normal(p)
    requires forall k :: 0 <= k < |cs| ==> '/' !in cs[k]
    ensures Normal(Walk(p, cs))
    decreases |cs|
  {
    if cs != [] {
      WalkNormal(Step(p, cs[0]), cs[1..]);
    }
  }

  lemma AbsPathNormal(cwd: seq<string>, s: string)
    requires Normal(cwd)
    ensures Normal(AbsPath(cwd, s))
  {
    SplitPiecesClean(s, '/');
    if s != [] && s[0] == '/' {
      WalkNormal([], Split(s, '/'));
    } else {
      WalkNormal(cwd, Split(s, '/'));
    }
  }

  /** Joining separator-free pieces and splitting again gives the pieces back. */
  lemma {:induction false} SplitJoinInverse(parts: seq<string>)
    requires parts != []
    requires forall k :: 0 <= k < |parts| ==> '/' !in parts[k]
    ensures Split(Join(parts, "/"), '/') == parts
    decreases |parts|
  {
    if |parts| == 1 {
      SplitHead(parts[0], '/');
    } else {
      SplitJoinInverse(parts[1..]);
      JoinCons(parts[0], parts[1..], "/");
      assert [parts[0]] + parts[1..] == parts;
      SplitAt(parts[0], '/', Join(parts[1..], "/"));
    }
  }

  /** Splitting around one separator splits each side on its own. */
  lemma {:induction false} SplitAround(a: string, b: string)
    ensures Split(a + "/" + b, '/') == Split(a, '/') + Split(b, '/')
    decreases |a|
  {
    if '/' !in a {
      SplitAt(a, '/', b);
      SplitHead(a, '/');
    } else {
      var i := IndexOf(a, '/');
      var x, y := a[..i], a[i + 1..];
      assert '/' !in x;
      assert a == x + [('/')] + y;
      var rest := y + "/" + b;
      assert a + "/" + b == x + [('/')] + rest;
      calc {
        Split(a + "/" + b, '/');
        Split(x + [('/')] + rest, '/');
        { SplitAt(x, '/', rest); }
        [x] + Split(rest, '/');
        { SplitAround(y, b); }
        [x] + (Split(y, '/') + Split(b, '/'));
        ([x] + Split(y, '/')) + Split(b, '/');
        { SplitAt(x, '/', y); }
        Split(a, '/') + Split(b, '/');
      }
    }
  }

  /** A rendered path reads back as itself. */
  lemma RenderAbs(cwd: seq<string>, p: seq<string>)
    requires Normal(p)
    ensures AbsPath(cwd, Render(p)) == p
  {
    var s := Render(p);
    if p == [] {
      assert s == "" + [('/')] + "";
      SplitAt("", '/', "");
      SplitHead("", '/');
      assert Split(s, '/') == ["", ""];
      assert Walk([], [""]) == [];
    } else {
      SplitJoinInverse(p);
      assert s == "" + [('/')] + Join(p, "/");
      SplitAt("", '/', Join(p, "/"));
      assert Walk([], [""] + p) == Walk([], p);
      WalkNames([], p);
    }
  }

  /** Joining a relative part onto a directory and resolving is resolving the part from the
      resolved directory. */
  lemma AbsPathJoin(cwd: seq<string>, a: string, rel: string)
    requires rel == [] || rel[0] != '/'
    ensures AbsPath(cwd, PathJoin(a, rel)) == Walk(AbsPath(cwd, a), Split(rel, '/'))
  {
    var base := if a != [] && a[0] == '/' then [] else cwd;
    if a == [] {
      SplitHead("", '/');
      assert Walk(cwd, [""]) == cwd;
      assert PathJoin(a, rel) == rel;
    } else if a[|a| - 1] == '/' {
      var a' := a[..|a| - 1];
      assert a == a' + "/" + "";
      assert a + rel == a' + "/" + rel;
      SplitAround(a', rel);
      SplitAround(a', "");
      SplitHead("", '/');
      WalkAppend(base, Split(a', '/'), Split(rel, '/'));
      WalkAppend(base, Split(a', '/'), [""]);
      assert (a + rel)[0] == a[0];
    } else {
      SplitAround(a, rel);
      WalkAppend(base, Split(a, '/'), Split(rel, '/'));
      assert (a + "/" + rel)[0] == a[0];
    }
  }

  /** `relpath` is correct: walking the relative path from `start` reaches `path`. */
  lemma RelPathReaches(cwd: seq<string>, path: string, start: string)
    requires Normal(cwd) && path != []
    ensures Walk(AbsPath(cwd, start), Split(RelPath(cwd, path, start).value, '/')) == AbsPath(cwd, path)
  {
    var s := AbsPath(cwd, start);
    var p := AbsPath(cwd, path);
    AbsPathNormal(cwd, path);
    var i := CommonPrefix(s, p);
    var rel := Repeat("..", |s| - i) + p[i..];
    assert RelPath(cwd, path, start) == if rel == [] then Ok(".") else Ok(Join(rel, "/"));
    UpThenDown(s, p, i);
    RelPiecesClean(p, i, |s| - i);
    RelPathText(s, rel);
  }

  /** Going up from `s` to the common prefix and down the rest of `p` reaches `p`. */
  lemma UpThenDown(s: seq<string>, p: seq<string>, i: nat)
    requires Normal(p) && i <= |s| && i <= |p| && s[..i] == p[..i]
    ensures Walk(s, Repeat("..", |s| - i) + p[i..]) == p
  {
    var up := Repeat("..", |s| - i);
    WalkAppend(s, up, p[i..]);
    WalkUp(s, |s| - i);
    assert s[..|s| - (|s| - i)] == p[..i];
    WalkDown(p, i);
  }

  /** Walking down the rest of a normalised path from its prefix reaches the path. */
  lemma WalkDown(p: seq<string>, i: nat)
    requires Normal(p) && i <= |p|
    ensures Walk(p[..i], p[i..]) == p
  {
    assert p[..i] + p[i..] == p;
    NormalSuffix(p[..i], p[i..]);
    WalkNames(p[..i], p[i..]);
  }

  /** What follows a prefix of a normalised path is normalised. */
  lemma NormalSuffix(l: seq<string>, suffix: seq<string>)
    requires Normal(l + suffix)
    ensures Normal(suffix)
  {
    forall k | 0 <= k < |suffix| ensures IsName(suffix[k]) {
      assert suffix[k] == (l + suffix)[|l| + k];
    }
  }

  /** No piece of the relative walk contains a separator. */
  lemma RelPiecesClean(p: seq<string>, i: nat, n: nat)
    requires Normal(p) && i <= |p|
    ensures forall k :: 0 <= k < |Repeat("..", n) + p[i..]| ==> '/' !in (Repeat("..", n) + p[i..])[k]
  {
    var up := Repeat("..", n);
    forall k | 0 <= k < |up + p[i..]| ensures '/' !in (up + p[i..])[k] {
      if k < n {
        assert (up + p[i..])[k] == "..";
      } else {
        assert (up + p[i..])[k] == p[i + k - n];
      }
    }
  }

  /** The text `relpath` returns splits into the walk it describes; `.` walks nowhere. */
  lemma RelPathText(s: seq<string>, rel: seq<string>)
    requires forall k :: 0 <= k < |rel| ==> '/' !in rel[k]
    ensures Walk(s, Split(if rel == [] then "." else Join(rel, "/"), '/')) == Walk(s, rel)
  {
    if rel == [] {
      SplitHead(".", '/');
      assert Split(".", '/') == ["."];
    } else {
      SplitJoinInverse(rel);
    }
  }

  /** A path below `start` is reached by its extra names alone. */
  lemma RelPathBelow(cwd: seq<string>, path: string, start: string, suffix: seq<string>)
    requires Normal(cwd) && path != []
    requires AbsPath(cwd, path) == AbsPath(cwd, start) + suffix
    ensures suffix != [] ==> RelPath(cwd, path, start) == Ok(Join(suffix, "/"))
    ensures suffix == [] ==> RelPath(cwd, path, start) == Ok(".")
  {
    var s := AbsPath(cwd, start);
    var p := AbsPath(cwd, path);
    AbsPathNormal(cwd, path);
    var i := CommonPrefix(s, p);
    assert p[..|s|] == s;
    assert i == |s|;
    assert p[i..] == suffix;
    assert Repeat("..", 0) + suffix == suffix;
  }

  /** The directory part of `a/name` is `a`. */
  lemma DirnameOfChild(a: string, name: string)
    requires a != [] && a[|a| - 1] != '/'
    requires '/' !in name
    ensures Dirname(a + "/" + name) == a
  {
    var p := a + "/" + name;
    var head := a + "/";
    assert p == head + name;
    LastSlashEndAfter(head, name);
    assert p[..LastSlashEnd(p)] == head;
    assert head[|a| - 1] != '/';
    assert head[..|head| - 1] == a;
    assert TrimSlashes(head) == TrimSlashes(a);
  }

  lemma {:induction false} LastSlashEndAfter(a: string, name: string)
    requires a != [] && a[|a| - 1] == '/'
    requires '/' !in name
    ensures LastSlashEnd(a + name) == |a|
    decreases |name|
  {
    if name != [] {
      var p := a + name;
      assert p[..|p| - 1] == a + name[..|name| - 1];
      LastSlashEndAfter(a, name[..|name| - 1]);
    } else {
      assert a + name == a;
    }
  }
}
