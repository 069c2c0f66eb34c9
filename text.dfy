/**
  The Python string operations the formula engine is built from, on `string`
  (a sequence of Unicode scalar values): `sub in s`, `str.strip()`,
  `str.split()`, `str.split(sep)`, `sep.join(parts)`, `str.replace(old, new)`,
  the first group of `re.findall(r'\{(.*?)\}', s)` and `str(int)`.
*/
module Text {
  import opened Wrappers

  /** Python's `str.isspace()` for one character. */
  predicate IsSpace(c: char) {
    || c == ' '
    || ('\t' <= c <= '\r')
    || ('\U{1C}' <= c <= '\U{1F}')
    || c == '\U{85}' || c == '\U{A0}' || c == '\U{1680}'
    || ('\U{2000}' <= c <= '\U{200A}')
    || c == '\U{2028}' || c == '\U{2029}' || c == '\U{202F}' || c == '\U{205F}' || c == '\U{3000}'
  }

  predicate NoSpace(w: string) {
    forall i :: 0 <= i < |w| ==> !IsSpace(w[i])
  }

  predicate IsPrefix(p: string, s: string) {
    |p| <= |s| && s[..|p|] == p
  }

  /** Python's `sub in s`. */
  predicate Contains(s: string, sub: string)
    ensures Contains(s, sub) ==> |sub| <= |s|
    decreases |s|
  {
    IsPrefix(sub, s) || (|s| > 0 && Contains(s[1..], sub))
  }

  /** `sub` occurs in `s` at position `k`. */
  predicate OccursAt(s: string, sub: string, k: int) {
    0 <= k <= |s| - |sub| && s[k..k + |sub|] == sub
  }

  /** `sub in s` holds exactly when `sub` occurs at some position of `s`. */
  lemma {:induction false} ContainsAt(s: string, sub: string)
    ensures Contains(s, sub) <==> exists k :: OccursAt(s, sub, k)
    decreases |s|
  {
    if IsPrefix(sub, s) {
      assert OccursAt(s, sub, 0);
    } else if |s| > 0 {
      ContainsAt(s[1..], sub);
      if Contains(s[1..], sub) {
        var k :| OccursAt(s[1..], sub, k);
        assert s[k + 1..k + 1 + |sub|] == s[1..][k..k + |sub|];
        assert OccursAt(s, sub, k + 1);
      }
      if exists k :: OccursAt(s, sub, k) {
        var k :| OccursAt(s, sub, k);
        assert k != 0;
        assert s[1..][k - 1..k - 1 + |sub|] == s[k..k + |sub|];
        assert OccursAt(s[1..], sub, k - 1);
      }
    }
  }

  /** A one-character substring is just a member. */
  lemma {:induction false} ContainsChar(s: string, c: char)
    ensures Contains(s, [c]) <==> c in s
    decreases |s|
  {
    if |s| > 0 {
      ContainsChar(s[1..], c);
      assert s == [s[0]] + s[1..];
    }
  }

  // ---------------------------------------------------------------- strip

  /** `s.lstrip()`: drops the leading whitespace. */
  function TrimLeft(s: string): (r: string)
    ensures |r| <= |s|
    ensures r == [] || !IsSpace(r[0])
    decreases |s|
  {
    if |s| > 0 && IsSpace(s[0]) then TrimLeft(s[1..]) else s
  }

  /** `s.rstrip()`: drops the trailing whitespace. */
  function TrimRight(s: string): (r: string)
    ensures |r| <= |s|
    ensures r == [] || !IsSpace(r[|r| - 1])
    decreases |s|
  {
    if |s| > 0 && IsSpace(s[|s| - 1]) then TrimRight(s[..|s| - 1]) else s
  }

  /** What `lstrip` leaves is a suffix of `s`, and what it drops is whitespace. */
  lemma {:induction false} TrimLeftSuffix(s: string)
    ensures TrimLeft(s) == s[|s| - |TrimLeft(s)|..]
    ensures forall i :: 0 <= i < |s| - |TrimLeft(s)| ==> IsSpace(s[i])
    decreases |s|
  {
    if |s| > 0 && IsSpace(s[0]) {
      TrimLeftSuffix(s[1..]);
    }
  }

  /** What `rstrip` leaves is a prefix of `s`, and what it drops is whitespace. */
  lemma {:induction false} TrimRightPrefix(s: string)
    ensures TrimRight(s) == s[..|TrimRight(s)|]
    ensures forall i :: |TrimRight(s)| <= i < |s| ==> IsSpace(s[i])
    decreases |s|
  {
    if |s| > 0 && IsSpace(s[|s| - 1]) {
      TrimRightPrefix(s[..|s| - 1]);
    }
  }

  /** `s.strip()`: `s` without the whitespace at both ends. */
  function Strip(s: string): (r: string)
    ensures |r| <= |s|
    ensures r == [] || (!IsSpace(r[0]) && !IsSpace(r[|r| - 1]))
  {
    var t := TrimLeft(s);
    TrimRightPrefix(t);
    assert TrimRight(t) != [] ==> TrimRight(t)[0] == t[0];
    TrimRight(t)
  }

  /**
    `s.strip()` is the slice of `s` between its leading and its trailing
    whitespace: everything before it and everything after it is whitespace.
  */
  lemma StripSlice(s: string)
    ensures var r := Strip(s); var n := |s| - |TrimLeft(s)|;
      && n + |r| <= |s| && r == s[n..n + |r|]
      && (forall k :: 0 <= k < n ==> IsSpace(s[k]))
      && (forall k :: n + |r| <= k < |s| ==> IsSpace(s[k]))
  {
    var t := TrimLeft(s);
    var r := TrimRight(t);
    TrimLeftSuffix(s);
    TrimRightPrefix(t);
    assert r != [] ==> r[0] == t[0];
    SliceWithin(s, t, r, |s| - |t|);
  }

  /** A prefix `r` of the suffix `t` of `s` from `n` on is a slice of `s`, followed by what `t` has after `r`. */
  lemma SliceWithin(s: string, t: string, r: string, n: nat)
    requires n <= |s| && t == s[n..] && |r| <= |t| && r == t[..|r|]
    requires forall k :: |r| <= k < |t| ==> IsSpace(t[k])
    ensures n + |r| <= |s| && r == s[n..n + |r|]
    ensures forall k :: n + |r| <= k < |s| ==> IsSpace(s[k])
  {
    forall k | n + |r| <= k < |s| ensures IsSpace(s[k]) {
      assert s[k] == t[k - n];
    }
  }

  lemma {:induction false} TrimLeftKeeps(s: string, c: char)
    requires c !in s
    ensures c !in TrimLeft(s)
    decreases |s|
  {
    if |s| > 0 && IsSpace(s[0]) {
      assert forall x :: x in s[1..] ==> x in s;
      TrimLeftKeeps(s[1..], c);
    }
  }

  lemma {:induction false} TrimRightKeeps(s: string, c: char)
    requires c !in s
    ensures c !in TrimRight(s)
    decreases |s|
  {
    if |s| > 0 && IsSpace(s[|s| - 1]) {
      assert forall x :: x in s[..|s| - 1] ==> x in s;
      TrimRightKeeps(s[..|s| - 1], c);
    }
  }

  /** Stripping only removes characters. */
  lemma StripKeeps(s: string, c: char)
    requires c !in s
    ensures c !in Strip(s)
  {
    TrimLeftKeeps(s, c);
    TrimRightKeeps(TrimLeft(s), c);
  }

  /** A string without whitespace at its ends is its own strip. */
  lemma StripUnchanged(s: string)
    requires s == [] || (!IsSpace(s[0]) && !IsSpace(s[|s| - 1]))
    ensures Strip(s) == s
  {
  }

  lemma StripIdempotent(s: string)
    ensures Strip(Strip(s)) == Strip(s)
  {
    StripUnchanged(Strip(s));
  }

  // ---------------------------------------------------------------- split() and join

  /** The length of the leading run of non-whitespace characters. */
  function WordEnd(t: string): (n: nat)
    ensures n <= |t|
    ensures forall i :: 0 <= i < n ==> !IsSpace(t[i])
    ensures n < |t| ==> IsSpace(t[n])
    decreases |t|
  {
    if |t| == 0 || IsSpace(t[0]) then 0 else 1 + WordEnd(t[1..])
  }

  /** `s.split()`: the maximal runs of non-whitespace characters, in order. */
  function Words(s: string): (r: seq<string>)
    ensures forall w :: w in r ==> |w| > 0 && NoSpace(w)
    decreases |s|
  {
    var t := TrimLeft(s);
    if t == [] then []
    else
      var n := WordEnd(t);
      var w := t[..n];
      assert |w| > 0 && NoSpace(w) by {
        assert !IsSpace(t[0]);
        forall i | 0 <= i < n ensures !IsSpace(w[i]) {
          assert w[i] == t[i];
        }
      }
      [w] + Words(t[n..])
  }

  /** `sep.join(parts)`; `JoinSplit` and `WordsJoin` show it undoes `split(sep)` and `split()`. */
  function JoinWith(parts: seq<string>, sep: string): (r: string)
    ensures forall k :: 0 <= k < |parts| ==> |parts[k]| <= |r|
    ensures |parts| >= 2 ==> |parts[0]| + |sep| <= |r|
    decreases |parts|
  {
    if |parts| == 0 then ""
    else if |parts| == 1 then parts[0]
    else parts[0] + sep + JoinWith(parts[1..], sep)
  }

  lemma {:induction false} WordEndOf(w: string, rest: string)
    requires NoSpace(w)
    requires rest == [] || IsSpace(rest[0])
    ensures WordEnd(w + rest) == |w|
    decreases |w|
  {
    if |w| > 0 {
      assert (w + rest)[1..] == w[1..] + rest;
      WordEndOf(w[1..], rest);
    } else {
      assert w + rest == rest;
    }
  }

  /** The first word of `w + rest` is `w` when `rest` starts with whitespace. */
  lemma WordsCons(w: string, rest: string)
    requires |w| > 0 && NoSpace(w)
    requires rest == [] || IsSpace(rest[0])
    ensures Words(w + rest) == [w] + Words(rest)
  {
    var s := w + rest;
    assert TrimLeft(s) == s;
    WordEndOf(w, rest);
    assert s[..|w|] == w && s[|w|..] == rest;
  }

  lemma WordsAfterSpace(rest: string)
    ensures Words(" " + rest) == Words(rest)
  {
    assert TrimLeft(" " + rest) == TrimLeft(rest) by {
      assert (" " + rest)[1..] == rest;
    }
  }

  lemma WordsSingle(w: string)
    requires |w| > 0 && NoSpace(w)
    ensures Words(w) == [w]
  {
    assert TrimLeft(w) == w;
    WordEndOf(w, []);
    assert w + [] == w;
    assert w[..|w|] == w && w[|w|..] == [];
    assert TrimLeft([]) == [];
  }

  lemma WordsAfterWord(w: string, rest: string)
    requires |w| > 0 && NoSpace(w)
    ensures Words(w + (" " + rest)) == [w] + Words(rest)
  {
    var r := " " + rest;
    assert r[0] == ' ';
    WordsCons(w, r);
    WordsAfterSpace(rest);
    assert Words(w + r) == [w] + Words(rest);
  }

  lemma JoinHead(w: string, ws: seq<string>, sep: string)
    requires |ws| > 0
    ensures JoinWith([w] + ws, sep) == w + (sep + JoinWith(ws, sep))
  {
    assert ([w] + ws)[1..] == ws;
  }

  /** Splitting on whitespace undoes joining space-free words with one space. */
  lemma {:induction false} WordsJoin(ws: seq<string>)
    requires forall w :: w in ws ==> |w| > 0 && NoSpace(w)
    ensures Words(JoinWith(ws, " ")) == ws
    decreases |ws|
  {
    if |ws| == 0 {
      assert Words("") == [];
    } else if |ws| == 1 {
      assert ws[0] in ws;
      WordsSingle(ws[0]);
    } else {
      var w, tail := ws[0], ws[1..];
      assert ws == [w] + tail;
      assert w in ws;
      assert forall x :: x in tail ==> x in ws;
      WordsJoin(tail);
      JoinHead(w, tail, " ");
      WordsAfterWord(w, JoinWith(tail, " "));
    }
  }

  // ---------------------------------------------------------------- split(sep) and replace

  /** `s.split(sep)` for a non-empty separator: cuts at every occurrence, left to right. */
  function SplitOn(s: string, sep: string): (r: seq<string>)
    requires |sep| > 0
    ensures |r| >= 1
    decreases |s|
  {
    if |s| < |sep| then [s]
    else if s[..|sep|] == sep then [""] + SplitOn(s[|sep|..], sep)
    else
      var rest := SplitOn(s[1..], sep);
      [[s[0]] + rest[0]] + rest[1..]
  }

  /** `s.replace(pat, rep)` for a non-empty pattern: every occurrence, left to right, without overlap. */
  function ReplaceAll(s: string, pat: string, rep: string): (r: string)
    requires |pat| > 0
    ensures pat == rep ==> r == s
    decreases |s|
  {
    if |s| < |pat| then s
    else if s[..|pat|] == pat then rep + ReplaceAll(s[|pat|..], pat, rep)
    else [s[0]] + ReplaceAll(s[1..], pat, rep)
  }

  lemma JoinCons(c: char, parts: seq<string>, sep: string)
    requires |parts| >= 1
    ensures JoinWith([[c] + parts[0]] + parts[1..], sep) == [c] + JoinWith(parts, sep)
  {
    var q := [[c] + parts[0]] + parts[1..];
    if |parts| > 1 {
      assert q[1..] == parts[1..];
    }
  }

  /** Joining the pieces of `s.split(sep)` with `sep` gives back `s`. */
  lemma {:induction false} JoinSplit(s: string, sep: string)
    requires |sep| > 0
    ensures JoinWith(SplitOn(s, sep), sep) == s
    decreases |s|
  {
    if |s| < |sep| {
    } else if s[..|sep|] == sep {
      var rest := SplitOn(s[|sep|..], sep);
      JoinSplit(s[|sep|..], sep);
      assert ([""] + rest)[1..] == rest;
      assert s == sep + s[|sep|..];
    } else {
      var rest := SplitOn(s[1..], sep);
      JoinSplit(s[1..], sep);
      JoinCons(s[0], rest, sep);
      assert s == [s[0]] + s[1..];
    }
  }

  /** `s.replace(pat, rep)` is `rep.join(s.split(pat))`. */
  lemma {:induction false} ReplaceIsJoinOfSplit(s: string, pat: string, rep: string)
    requires |pat| > 0
    ensures ReplaceAll(s, pat, rep) == JoinWith(SplitOn(s, pat), rep)
    decreases |s|
  {
    if |s| < |pat| {
    } else if s[..|pat|] == pat {
      var rest := SplitOn(s[|pat|..], pat);
      ReplaceIsJoinOfSplit(s[|pat|..], pat, rep);
      assert ([""] + rest)[1..] == rest;
    } else {
      var rest := SplitOn(s[1..], pat);
      ReplaceIsJoinOfSplit(s[1..], pat, rep);
      JoinCons(s[0], rest, rep);
    }
  }

  /** A string without the pattern is left as it is by `replace`. */
  lemma {:induction false} ReplaceAbsent(s: string, pat: string, rep: string)
    requires |pat| > 0 && !Contains(s, pat)
    ensures ReplaceAll(s, pat, rep) == s
    decreases |s|
  {
    if |s| >= |pat| {
      ReplaceAbsent(s[1..], pat, rep);
      assert s == [s[0]] + s[1..];
    }
  }

  /** The first piece of `s.split(sep)` is a prefix of `s`. */
  lemma {:induction false} SplitHeadIsPrefix(s: string, sep: string)
    requires |sep| > 0
    ensures IsPrefix(SplitOn(s, sep)[0], s)
    decreases |s|
  {
    if |s| >= |sep| && s[..|sep|] != sep {
      SplitHeadIsPrefix(s[1..], sep);
    }
  }

  /** No piece of `s.split(sep)` contains the separator. */
  lemma {:induction false} SplitPiecesFree(s: string, sep: string)
    requires |sep| > 0
    ensures forall i :: 0 <= i < |SplitOn(s, sep)| ==> !Contains(SplitOn(s, sep)[i], sep)
    decreases |s|
  {
    var r := SplitOn(s, sep);
    if |s| < |sep| {
    } else if s[..|sep|] == sep {
      SplitPiecesFree(s[|sep|..], sep);
      assert !Contains("", sep);
      forall i | 1 <= i < |r| ensures !Contains(r[i], sep) {
        assert r[i] == SplitOn(s[|sep|..], sep)[i - 1];
      }
    } else {
      var rest := SplitOn(s[1..], sep);
      SplitPiecesFree(s[1..], sep);
      var head := [s[0]] + rest[0];
      SplitHeadIsPrefix(s[1..], sep);
      assert !IsPrefix(sep, head);
      assert head[1..] == rest[0];
      assert !Contains(head, sep);
      forall i | 1 <= i < |r| ensures !Contains(r[i], sep) {
        assert r[i] == rest[i];
      }
    }
  }

  /** An occurrence `n + j` positions into `s` is an occurrence `j` positions into `s[n..]`. */
  lemma OccursAtShift(s: string, sub: string, n: nat, j: nat)
    requires n <= |s|
    ensures OccursAt(s, sub, n + j) <==> OccursAt(s[n..], sub, j)
  {
    if j <= |s[n..]| - |sub| {
      assert s[n + j..n + j + |sub|] == s[n..][j..j + |sub|];
    }
  }

  /**
    `s.split(sep)` cuts at the first occurrence of `sep`: none starts inside the
    first piece, and when there are more pieces one starts right after it.
  */
  lemma {:induction false} SplitHeadFirst(s: string, sep: string)
    requires |sep| > 0
    ensures forall k :: 0 <= k < |SplitOn(s, sep)[0]| ==> !OccursAt(s, sep, k)
    ensures |SplitOn(s, sep)| >= 2 ==> OccursAt(s, sep, |SplitOn(s, sep)[0]|)
    decreases |s|
  {
    var pieces := SplitOn(s, sep);
    if |s| >= |sep| && s[..|sep|] == sep {
      assert OccursAt(s, sep, 0);
    } else if |s| >= |sep| {
      var rest := SplitOn(s[1..], sep);
      SplitHeadFirst(s[1..], sep);
      assert pieces == [[s[0]] + rest[0]] + rest[1..];
      SplitHeadStep(s, sep, pieces, rest);
    }
  }

  /**
    The pieces of `s.split(sep)` after the first are the split of what follows
    the occurrence of `sep` that ends the first piece.
  */
  lemma {:induction false} SplitTail(s: string, sep: string)
    requires |sep| > 0
    ensures var pieces := SplitOn(s, sep);
      |pieces| >= 2 ==>
        && |pieces[0]| + |sep| <= |s|
        && pieces[1..] == SplitOn(s[|pieces[0]| + |sep|..], sep)
    decreases |s|
  {
    var pieces := SplitOn(s, sep);
    if |s| >= |sep| && s[..|sep|] == sep {
      assert pieces[1..] == SplitOn(s[|sep|..], sep);
    } else if |s| >= |sep| {
      var rest := SplitOn(s[1..], sep);
      SplitTail(s[1..], sep);
      assert pieces == [[s[0]] + rest[0]] + rest[1..];
      if |rest| >= 2 {
        SplitTailStep(s, sep, pieces, rest);
      }
    }
  }

  /** The step of `SplitTail` where `s` does not start with `sep`. */
  lemma SplitTailStep(s: string, sep: string, pieces: seq<string>, rest: seq<string>)
    requires |s| >= 1 && |rest| >= 2 && pieces == [[s[0]] + rest[0]] + rest[1..]
    requires |rest[0]| + |sep| <= |s[1..]|
    ensures |pieces[0]| + |sep| <= |s| && pieces[1..] == rest[1..]
    ensures s[1..][|rest[0]| + |sep|..] == s[|pieces[0]| + |sep|..]
  {
    DropDrop(s, 1, |rest[0]| + |sep|);
  }

  /** Dropping `m` and then `n` elements drops `m + n`. */
  lemma DropDrop(s: string, m: nat, n: nat)
    requires m + n <= |s|
    ensures s[m..][n..] == s[m + n..]
  {
    assert forall i :: 0 <= i < |s| - m - n ==> s[m..][n..][i] == s[m + n..][i];
  }

  /**
    The step of `SplitHeadFirst` where `s` does not start with `sep`: the first
    piece is `s[0]` in front of the first piece of the split of `s[1..]`.
  */
  lemma SplitHeadStep(s: string, sep: string, pieces: seq<string>, rest: seq<string>)
    requires |sep| > 0 && |s| >= |sep| && s[..|sep|] != sep
    requires |rest| >= 1 && pieces == [[s[0]] + rest[0]] + rest[1..]
    requires forall k :: 0 <= k < |rest[0]| ==> !OccursAt(s[1..], sep, k)
    requires |rest| >= 2 ==> OccursAt(s[1..], sep, |rest[0]|)
    ensures forall k :: 0 <= k < |pieces[0]| ==> !OccursAt(s, sep, k)
    ensures |pieces| >= 2 ==> OccursAt(s, sep, |pieces[0]|)
  {
    var h := pieces[0];
    assert !OccursAt(s, sep, 0);
    forall k | 1 <= k < |h| ensures !OccursAt(s, sep, k) {
      OccursAtShift(s, sep, 1, k - 1);
    }
    if |rest| >= 2 {
      OccursAtShift(s, sep, 1, |rest[0]|);
    }
  }

  /** `s.split(sep)` has a single piece exactly when `sep` does not occur in `s`. */
  lemma {:induction false} SplitSingle(s: string, sep: string)
    requires |sep| > 0
    ensures |SplitOn(s, sep)| == 1 <==> !Contains(s, sep)
    decreases |s|
  {
    if |s| < |sep| {
    } else if s[..|sep|] == sep {
    } else {
      SplitSingle(s[1..], sep);
    }
  }

  // ---------------------------------------------------------------- deleting one character

  /** `s` with every `c` deleted, the other characters kept in order. */
  function Without(s: string, c: char): (r: string)
    ensures c !in r
    ensures forall x :: x in r ==> x in s
    ensures c !in s ==> r == s
    decreases |s|
  {
    if |s| == 0 then s
    else if s[0] == c then Without(s[1..], c)
    else [s[0]] + Without(s[1..], c)
  }

  /** `s.replace(c, '')` deletes every `c`. */
  lemma {:induction false} ReplaceCharByNothing(s: string, c: char)
    ensures ReplaceAll(s, [c], "") == Without(s, c)
    decreases |s|
  {
    if |s| > 0 {
      ReplaceCharByNothing(s[1..], c);
    }
  }

  // ---------------------------------------------------------------- the first {...} match

  /** The index of the first `}` or newline in `t` (`|t|` when there is none). */
  function BracketEnd(t: string): (k: nat)
    ensures k <= |t|
    ensures forall i :: 0 <= i < k ==> t[i] != '}' && t[i] != '\n'
    ensures k < |t| ==> t[k] == '}' || t[k] == '\n'
    decreases |t|
  {
    if |t| == 0 || t[0] == '}' || t[0] == '\n' then 0 else 1 + BracketEnd(t[1..])
  }

  /**
    The first element of `re.findall(r'\{(.*?)\}', s)`: the text after the
    leftmost `{` that is followed by a `}` with no newline in between, up to
    that first `}`; None when `findall` finds nothing.
  */
  function FirstBracket(s: string): (r: Option<string>)
    ensures r.Some? ==> Contains(s, "{" + r.value + "}")
    ensures r.Some? ==> '}' !in r.value && '\n' !in r.value
    ensures '{' !in s ==> r.None?
    decreases |s|
  {
    if |s| == 0 then None
    else if s[0] == '{' then
      var k := BracketEnd(s[1..]);
      if k < |s| - 1 && s[1 + k] == '}' then
        assert IsPrefix("{" + s[1..1 + k] + "}", s) by {
          assert s[..k + 2] == "{" + s[1..1 + k] + "}";
        }
        Some(s[1..1 + k])
      else
        FirstBracket(s[1..])
    else
      FirstBracket(s[1..])
  }

  lemma {:induction false} BracketEndOf(x: string, rest: string)
    requires '}' !in x && '\n' !in x
    ensures BracketEnd(x + "}" + rest) == |x|
    decreases |x|
  {
    if |x| > 0 {
      assert (x + "}" + rest)[1..] == x[1..] + "}" + rest;
      BracketEndOf(x[1..], rest);
    }
  }

  /** Literal text before the first `{` does not change which name is found. */
  lemma {:induction false} FirstBracketOf(a: string, x: string, b: string)
    requires '{' !in a && '}' !in x && '\n' !in x
    ensures FirstBracket(a + "{" + x + "}" + b) == Some(x)
    decreases |a|
  {
    var s := a + "{" + x + "}" + b;
    if |a| == 0 {
      assert s == "{" + (x + "}" + b);
      assert s[1..] == x + "}" + b;
      BracketEndOf(x, b);
      assert s[1..1 + |x|] == x;
    } else {
      assert s[0] == a[0];
      assert s[1..] == a[1..] + "{" + x + "}" + b;
      FirstBracketOf(a[1..], x, b);
    }
  }

  // ---------------------------------------------------------------- str(int)

  predicate IsDigit(c: char) {
    '0' <= c <= '9'
  }

  /** `str(n)` for a natural number. */
  function NatToString(n: nat): (r: string)
    ensures |r| >= 1
    ensures forall i :: 0 <= i < |r| ==> IsDigit(r[i])
    decreases n
  {
    if n < 10 then ["0123456789"[n]]
    else NatToString(n / 10) + ["0123456789"[n % 10]]
  }

  /** `str(i)`: decimal digits, with a leading `-` for a negative number. */
  function IntToString(i: int): (r: string)
    ensures |r| >= 1 && (r[0] == '-' <==> i < 0)
    ensures forall k :: (if i < 0 then 1 else 0) <= k < |r| ==> IsDigit(r[k])
  {
    if i < 0 then "-" + NatToString(-i) else NatToString(i)
  }

  /** The digits of `str(i)` read back as the magnitude of `i`. */
  lemma ParseIntToString(i: int)
    ensures var r := IntToString(i); var digits := if i < 0 then r[1..] else r;
      ParseNat(digits) == if i < 0 then -i else i
  {
    var n := if i < 0 then -i else i;
    ParseNatToString(n);
    if i < 0 {
      assert IntToString(i)[1..] == NatToString(n);
    }
  }

  /** `int(s)` for a string of decimal digits. */
  function ParseNat(s: string): nat
    requires forall i :: 0 <= i < |s| ==> IsDigit(s[i])
    decreases |s|
  {
    if |s| == 0 then 0
    else
      assert IsDigit(s[|s| - 1]);
      ParseNat(s[..|s| - 1]) * 10 + (s[|s| - 1] as int - '0' as int)
  }

  /** Reading back the decimal rendering of a number gives the number. */
  lemma {:induction false} ParseNatToString(n: nat)
    ensures ParseNat(NatToString(n)) == n
    decreases n
  {
    if n >= 10 {
      var s := NatToString(n);
      ParseNatToString(n / 10);
      assert s[..|s| - 1] == NatToString(n / 10);
    }
  }
}
