/**
  `os.path.normpath` on POSIX (`posixpath.normpath`): a purely lexical
  normalisation that collapses repeated separators, drops `.` components and
  folds `name/..` pairs, keeping one leading slash (two when the path starts
  with exactly two).
*/
module PosixPath {
  import opened Text

  /** The leading slashes normpath keeps. */
  function Root(path: string): (root: string)
    ensures root == "" || root == "/" || root == "//"
    ensures IsPrefix(root, path)
    ensures root != "" <==> IsPrefix("/", path)
  {
    if IsPrefix("//", path) && !IsPrefix("///", path) then "//"
    else if IsPrefix("/", path) then "/"
    else ""
  }

  /**
    The component loop of normpath: `comps` are the pieces of the path split at
    `/`, `acc` the components kept so far. `FoldNormal` shows what it keeps is
    normal, and `FoldFixes` that it leaves normal components alone.
  */
  function Fold(comps: seq<string>, absolute: bool, acc: seq<string>): (r: seq<string>)
    ensures |r| <= |acc| + |comps|
    decreases |comps|
  {
    if |comps| == 0 then acc
    else
      var c := comps[0];
      var next :=
        if c == "" || c == "." then acc
        else if c != ".." || (!absolute && acc == []) || (acc != [] && acc[|acc| - 1] == "..") then acc + [c]
        else if acc != [] then acc[..|acc| - 1]
        else acc;
      Fold(comps[1..], absolute, next)
  }

  /** `os.path.normpath(path)` for POSIX. */
  function NormPath(path: string): (r: string)
    ensures r != ""
  {
    if path == "" then "."
    else
      var root := Root(path);
      var p := root + JoinWith(Fold(SplitOn(path, "/"), root != "", []), "/");
      if p == "" then "." else p
  }

  /**
    The shape of normpath's components: none is empty, `.` or holds a `/`, and
    `..` occurs only in a leading run of a relative path.
  */
  ghost predicate Normal(cs: seq<string>, absolute: bool) {
    forall i :: 0 <= i < |cs| ==>
      && cs[i] != "" && cs[i] != "." && '/' !in cs[i]
      && (cs[i] == ".." ==> !absolute && forall j :: 0 <= j < i ==> cs[j] == "..")
  }

  /** Each step of the fold keeps the kept components normal. */
  lemma {:induction false} FoldNormal(comps: seq<string>, absolute: bool, acc: seq<string>)
    requires Normal(acc, absolute)
    requires forall c :: c in comps ==> '/' !in c
    ensures Normal(Fold(comps, absolute, acc), absolute)
    decreases |comps|
  {
    if |comps| > 0 {
      var c := comps[0];
      assert c in comps;
      var next :=
        if c == "" || c == "." then acc
        else if c != ".." || (!absolute && acc == []) || (acc != [] && acc[|acc| - 1] == "..") then acc + [c]
        else if acc != [] then acc[..|acc| - 1]
        else acc;
      assert Normal(next, absolute);
      assert forall x :: x in comps[1..] ==> x in comps;
      FoldNormal(comps[1..], absolute, next);
    }
  }

  /** Normal components pass through the fold unchanged. */
  lemma {:induction false} FoldFixes(comps: seq<string>, absolute: bool, acc: seq<string>)
    requires Normal(acc + comps, absolute)
    ensures Fold(comps, absolute, acc) == acc + comps
    decreases |comps|
  {
    if |comps| > 0 {
      var c := comps[0];
      assert c == (acc + comps)[|acc|];
      if c == ".." && acc != [] {
        assert acc[|acc| - 1] == (acc + comps)[|acc| - 1];
      }
      assert (acc + [c]) + comps[1..] == acc + comps;
      FoldFixes(comps[1..], absolute, acc + [c]);
    }
  }

  lemma FoldSkipsEmpty(comps: seq<string>, absolute: bool, acc: seq<string>)
    ensures Fold([""] + comps, absolute, acc) == Fold(comps, absolute, acc)
  {
    assert ([""] + comps)[1..] == comps;
  }

  /** Splitting at a character that the first piece does not hold cuts right after that piece. */
  lemma {:induction false} SplitAfterPiece(x: string, c: char, rest: string)
    requires c !in x
    ensures SplitOn(x + [c] + rest, [c]) == [x] + SplitOn(rest, [c])
    decreases |x|
  {
    var s := x + [c] + rest;
    if |x| == 0 {
      assert s == [c] + rest;
      assert s[1..] == rest;
    } else {
      assert s[1..] == x[1..] + [c] + rest;
      SplitAfterPiece(x[1..], c, rest);
      assert [x[0]] + x[1..] == x;
    }
  }

  /** Splitting at a character undoes joining pieces that do not hold it. */
  lemma {:induction false} SplitJoinChar(cs: seq<string>, c: char)
    requires |cs| >= 1
    requires forall x :: x in cs ==> c !in x
    ensures SplitOn(JoinWith(cs, [c]), [c]) == cs
    decreases |cs|
  {
    assert cs[0] in cs;
    if |cs| == 1 {
      ContainsChar(cs[0], c);
      SplitSingle(cs[0], [c]);
      JoinSplit(cs[0], [c]);
    } else {
      assert forall x :: x in cs[1..] ==> x in cs;
      SplitJoinChar(cs[1..], c);
      SplitAfterPiece(cs[0], c, JoinWith(cs[1..], [c]));
      assert cs[0] + [c] + JoinWith(cs[1..], [c]) == JoinWith(cs, [c]);
      assert [cs[0]] + cs[1..] == cs;
    }
  }

  /** No piece of a path split at `/` holds a `/`. */
  lemma SplitSlashPieces(path: string)
    ensures forall x :: x in SplitOn(path, "/") ==> '/' !in x
  {
    SplitPiecesFree(path, "/");
    forall x | x in SplitOn(path, "/") ensures '/' !in x {
      ContainsChar(x, '/');
    }
  }

  /** The components normpath keeps are normal. */
  lemma NormPathNormal(path: string)
    requires path != ""
    ensures Normal(Fold(SplitOn(path, "/"), Root(path) != "", []), Root(path) != "")
  {
    SplitSlashPieces(path);
    FoldNormal(SplitOn(path, "/"), Root(path) != "", []);
  }

  /** A normal path that does not start with a component begins with its first component. */
  lemma JoinStartsWith(cs: seq<string>)
    requires |cs| > 0 && |cs[0]| > 0
    ensures |JoinWith(cs, "/")| > 0 && JoinWith(cs, "/")[0] == cs[0][0]
  {
  }

  /** Normalising a root and normal components gives them back. */
  lemma {:induction false} NormPathOfNormal(root: string, cs: seq<string>)
    requires root == "" || root == "/" || root == "//"
    requires Normal(cs, root != "")
    requires root + JoinWith(cs, "/") != ""
    ensures NormPath(root + JoinWith(cs, "/")) == root + JoinWith(cs, "/")
  {
    var j := JoinWith(cs, "/");
    var r := root + j;
    if cs != [] {
      JoinStartsWith(cs);
      assert j[0] != '/';
    }
    assert Root(r) == root by {
      if root == "//" {
        assert r[..2] == "//";
        if |r| >= 3 { assert r[2] == j[0]; }
      } else if root == "/" {
        assert r[..1] == "/";
        if |r| >= 2 { assert r[1] == j[0]; }
      } else {
        assert r == j;
      }
    }
    var absolute := root != "";
    assert forall x :: x in cs ==> '/' !in x;
    var pieces := if cs == [] then [""] else cs;
    assert SplitOn(j, "/") == pieces by {
      if cs != [] {
        SplitJoinChar(cs, '/');
      }
    }
    assert Fold(pieces, absolute, []) == cs by {
      if cs == [] {
        assert Fold([""], absolute, []) == [];
      } else {
        FoldFixes(cs, absolute, []);
        assert [] + cs == cs;
      }
    }
    if root == "" {
      assert r == j;
    } else if root == "/" {
      assert r[1..] == j;
      assert SplitOn(r, "/") == [""] + pieces;
      FoldSkipsEmpty(pieces, absolute, []);
    } else {
      assert r[1..] == "/" + j && ("/" + j)[1..] == j;
      assert SplitOn(r, "/") == [""] + ([""] + pieces);
      FoldSkipsEmpty([""] + pieces, absolute, []);
      FoldSkipsEmpty(pieces, absolute, []);
    }
  }

  lemma SplitDot()
    ensures SplitOn(".", "/") == ["."]
  {
    ContainsChar(".", '/');
    SplitSingle(".", "/");
    JoinSplit(".", "/");
  }

  /** Normalising twice is normalising once. */
  lemma NormPathIdempotent(path: string)
    ensures NormPath(NormPath(path)) == NormPath(path)
  {
    if path != "" {
      var root := Root(path);
      var cs := Fold(SplitOn(path, "/"), root != "", []);
      NormPathNormal(path);
      if root + JoinWith(cs, "/") != "" {
        NormPathOfNormal(root, cs);
      } else {
        assert NormPath(path) == ".";
        SplitDot();
      }
    } else {
      SplitDot();
    }
  }

  /** normpath keeps a path absolute or relative. */
  lemma NormPathAbsolute(path: string)
    ensures IsPrefix("/", NormPath(path)) <==> IsPrefix("/", path)
  {
    if path != "" {
      var root := Root(path);
      var cs := Fold(SplitOn(path, "/"), root != "", []);
      NormPathNormal(path);
      var p := root + JoinWith(cs, "/");
      if root != "" {
        assert p[..1] == root[..1];
        assert NormPath(path) == p;
      } else if cs != [] {
        JoinStartsWith(cs);
        assert cs[0][0] in cs[0];
        assert p[0] != '/';
      } else {
        assert NormPath(path) == ".";
        assert "."[0] != "/"[0];
      }
    } else {
      assert "."[0] != "/"[0];
    }
  }
}
