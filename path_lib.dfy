/**
  The formula manager of path_lib.py. It reads `name = value` lines from a
  base source, a project source and an asset source, splits them into a name
  table and an ordered name list, cleans the values, expands one
  cross-reference per formula and answers lookups.

  The pure functions in this module are the specification; the class
  `FormulaManager` is the object itself, whose methods update its three fields
  with the same loops the source uses and are proved to agree with those
  functions.
*/
module PathLib {
  import opened Wrappers
  import opened Text

  /** The lines of the three configuration files: base, project and asset formulas. */
  datatype Sources = Sources(base: seq<string>, project: seq<string>, asset: seq<string>)

  /**
    The manager's fields: `all_formulas` (the retained lines), `formulas_dict`
    (name to value) and `formulas` (every name split so far, duplicates included).
  */
  datatype Manager = Manager(allFormulas: seq<string>, table: map<string, string>, names: seq<string>)

  /** What `get_formula` is asked for: nothing (None), one name, or a list of names. */
  datatype Request = AllFormulas | Formula(name: string) | FormulaList(names: seq<string>)

  /**
    What `parse_formulas` gives back: the whitespace-split pieces of a value,
    None for an absent name, or the whole table (with its keys in dictionary order).
  */
  datatype FormulaValue =
    | Pieces(pieces: seq<string>)
    | Absent
    | Table(keys: seq<string>, values: map<string, string>)

  /** What `get_formula` returns: one value, or one value per requested name. */
  datatype Answer = One(value: FormulaValue) | Many(values: seq<FormulaValue>)

  /** A freshly constructed manager. */
  const Empty := Manager([], map[], [])

  /** The separator `split_formulas` cuts a line at. */
  const Assign := " = "

  // ---------------------------------------------------------------- reading the sources

  predicate NoComments(lines: seq<string>) {
    forall l :: l in lines ==> !Contains(l, "#")
  }

  /**
    The fields agree: no retained line holds `#`, and the table's keys are
    exactly the names in the list.
  */
  predicate Coherent(m: Manager) {
    && NoComments(m.allFormulas)
    && (forall n :: n in m.names ==> n in m.table)
    && (forall k :: k in m.table ==> k in m.names)
  }

  /** Python's `list.remove(x)` on a list that holds `x`; the list itself otherwise. */
  function RemoveFirst(s: seq<string>, x: string): (r: seq<string>)
    ensures x !in s ==> r == s
    ensures x in s ==> |r| == |s| - 1 && multiset(r) == multiset(s) - multiset{x}
    decreases |s|
  {
    if s == [] then s
    else if s[0] == x then
      assert s == [s[0]] + s[1..];
      s[1..]
    else
      assert s == [s[0]] + s[1..];
      [s[0]] + RemoveFirst(s[1..], x)
  }

  /** Removing a line that was just appended, and occurs nowhere before, undoes the append. */
  lemma {:induction false} RemoveJustAppended(s: seq<string>, x: string)
    requires x !in s
    ensures RemoveFirst(s + [x], x) == s
    decreases |s|
  {
    if s != [] {
      assert (s + [x])[1..] == s[1..] + [x];
      RemoveJustAppended(s[1..], x);
      assert [s[0]] + s[1..] == s;
    }
  }

  /**
    The lines a source contributes, in order: each line stripped, kept when it
    holds `marker`, and removed again when it holds `#`.
  */
  function Kept(lines: seq<string>, marker: string): (r: seq<string>)
    ensures forall l :: l in r ==> Contains(l, marker) && !Contains(l, "#")
    ensures |r| <= |lines|
    decreases |lines|
  {
    if lines == [] then []
    else
      var line := Strip(lines[|lines| - 1]);
      Kept(lines[..|lines| - 1], marker)
        + (if Contains(line, marker) && !Contains(line, "#") then [line] else [])
  }

  /** One more source line extends the kept lines by at most that line, stripped. */
  lemma KeptStep(lines: seq<string>, i: nat, marker: string)
    requires i < |lines|
    ensures var line := Strip(lines[i]);
      Kept(lines[..i + 1], marker)
        == Kept(lines[..i], marker) + (if Contains(line, marker) && !Contains(line, "#") then [line] else [])
  {
    assert lines[..i + 1][..i] == lines[..i];
  }

  /** `l` is the strip of one of the lines. */
  ghost predicate StripOfSome(lines: seq<string>, l: string) {
    exists i :: 0 <= i < |lines| && Strip(lines[i]) == l
  }

  lemma StripOfSomeSnoc(lines: seq<string>, l: string)
    requires lines != []
    ensures StripOfSome(lines, l) <==>
      StripOfSome(lines[..|lines| - 1], l) || Strip(lines[|lines| - 1]) == l
  {
    var init := lines[..|lines| - 1];
    if StripOfSome(init, l) {
      var i :| 0 <= i < |init| && Strip(init[i]) == l;
      assert lines[i] == init[i];
    }
    if StripOfSome(lines, l) {
      var i :| 0 <= i < |lines| && Strip(lines[i]) == l;
      if i < |init| {
        assert init[i] == lines[i];
      }
    }
  }

  /** A line is kept exactly when it is the strip of a source line that holds the marker and no `#`. */
  lemma {:induction false} KeptMembers(lines: seq<string>, marker: string, l: string)
    ensures l in Kept(lines, marker) <==>
      Contains(l, marker) && !Contains(l, "#") && StripOfSome(lines, l)
    decreases |lines|
  {
    if lines != [] {
      var init := lines[..|lines| - 1];
      var line := Strip(lines[|lines| - 1]);
      var extra := if Contains(line, marker) && !Contains(line, "#") then [line] else [];
      assert Kept(lines, marker) == Kept(init, marker) + extra;
      KeptMembers(init, marker, l);
      StripOfSomeSnoc(lines, l);
      assert l in Kept(lines, marker) <==> l in Kept(init, marker) || l in extra;
    }
  }

  /** Keeping is done line by line: the lines of `a + b` are those of `a`, then those of `b`. */
  lemma {:induction false} KeptAppend(a: seq<string>, b: seq<string>, marker: string)
    ensures Kept(a + b, marker) == Kept(a, marker) + Kept(b, marker)
    decreases |b|
  {
    if b == [] {
      assert a + b == a;
    } else {
      var b' := b[..|b| - 1];
      assert (a + b)[..|a + b| - 1] == a + b';
      assert (a + b)[|a + b| - 1] == b[|b| - 1];
      KeptAppend(a, b', marker);
    }
  }

  /**
    `read_formulas(formula)`: the base lines replace `all_formulas`; then the
    project lines are appended when the name holds `pr_`, the asset lines when
    it holds `as_`, and both when the name is empty. A None name fails at the
    `'pr_' in formula` test, after the base read.
  */
  function ReadSpec(m: Manager, name: Option<string>, src: Sources): (r: (Manager, Outcome))
    ensures r.0.table == m.table && r.0.names == m.names
    ensures NoComments(r.0.allFormulas)
    ensures r.1 == Pass <==> name.Some?
    ensures r.1.Fail? ==> r.1.error == TypeError(120) && r.0.allFormulas == Kept(src.base, ",")
  {
    var base := Kept(src.base, ",");
    match name
    case None => (m.(allFormulas := base), Fail(TypeError(120)))
    case Some(n) =>
      var withProject := if Contains(n, "pr_") then base + Kept(src.project, "pr_") else base;
      var withAsset := if Contains(n, "as_") then withProject + Kept(src.asset, "as_") else withProject;
      var lines := if n == "" then withAsset + Kept(src.project, "pr_") + Kept(src.asset, "as_") else withAsset;
      (m.(allFormulas := lines), Pass)
  }

  /** The empty name reads all three sources. */
  lemma ReadEmptyName(m: Manager, src: Sources)
    ensures ReadSpec(m, Some(""), src).0.allFormulas
      == Kept(src.base, ",") + Kept(src.project, "pr_") + Kept(src.asset, "as_")
  {
    assert !Contains("", "pr_");
    assert !Contains("", "as_");
  }

  /** A name that holds both `pr_` and `as_`, such as `pr_as_type_dir`, reads all three sources. */
  lemma ReadBothNamespaces(m: Manager, n: string, src: Sources)
    requires Contains(n, "pr_") && Contains(n, "as_")
    ensures ReadSpec(m, Some(n), src).0.allFormulas
      == Kept(src.base, ",") + Kept(src.project, "pr_") + Kept(src.asset, "as_")
  {
  }

  lemma PrAsTypeDirReadsAll(m: Manager, src: Sources)
    ensures ReadSpec(m, Some("pr_as_type_dir"), src).0.allFormulas
      == Kept(src.base, ",") + Kept(src.project, "pr_") + Kept(src.asset, "as_")
  {
    var n := "pr_as_type_dir";
    assert IsPrefix("pr_", n);
    assert IsPrefix("as_", n[3..]);
    assert Contains(n[3..], "as_");
    assert Contains(n[2..], "as_");
    assert Contains(n[1..], "as_");
    ReadBothNamespaces(m, n, src);
  }

  /**
    Which sources a name reads: always the base, then the project source when
    the name holds `pr_` or is empty, then the asset source when it holds
    `as_` or is empty.
  */
  lemma ReadSources(m: Manager, n: string, src: Sources)
    ensures ReadSpec(m, Some(n), src).1 == Pass
    ensures ReadSpec(m, Some(n), src).0.allFormulas ==
      Kept(src.base, ",")
        + (if n == "" || Contains(n, "pr_") then Kept(src.project, "pr_") else [])
        + (if n == "" || Contains(n, "as_") then Kept(src.asset, "as_") else [])
  {
    var b, p, a := Kept(src.base, ","), Kept(src.project, "pr_"), Kept(src.asset, "as_");
    if n == "" {
      ReadEmptyName(m, src);
    } else {
      assert b + [] == b && b + p + [] == b + p && b + [] + a == b + a && b + [] + [] == b;
    }
  }

  /** A non-empty name with neither namespace marker reads the base source only. */
  lemma ReadBaseOnly(m: Manager, n: string, src: Sources)
    requires n != "" && !Contains(n, "pr_") && !Contains(n, "as_")
    ensures ReadSpec(m, Some(n), src).0.allFormulas == Kept(src.base, ",")
  {
  }

  // ---------------------------------------------------------------- splitting

  /** `line.split(' = ')[0]` and `[1]`; an IndexError at line 152 when the line has no `' = '`. */
  function SplitLine(line: string): (r: Result<(string, string)>)
    ensures r.Ok? <==> Contains(line, Assign)
    ensures r.Err? ==> r.error == IndexError(152)
  {
    var pieces := SplitOn(line, Assign);
    SplitSingle(line, Assign);
    if |pieces| < 2 then Err(IndexError(152)) else Ok((pieces[0], pieces[1]))
  }

  /** `sep.join(parts)` starts with the first part, then the separator when there are more. */
  lemma JoinHeadSep(parts: seq<string>, sep: string)
    requires |parts| >= 2
    ensures JoinWith(parts, sep) == parts[0] + sep + JoinWith(parts[1..], sep)
  {
  }

  lemma {:induction false} JoinStartsWithFirst(parts: seq<string>, sep: string)
    requires |parts| >= 1
    ensures IsPrefix(parts[0], JoinWith(parts, sep))
    ensures |parts| >= 2 ==> IsPrefix(parts[0] + sep, JoinWith(parts, sep))
  {
    if |parts| >= 2 {
      var rest := JoinWith(parts[1..], sep);
      assert JoinWith(parts, sep) == parts[0] + sep + rest;
      assert (parts[0] + sep + rest)[..|parts[0]|] == parts[0];
      assert (parts[0] + sep + rest)[..|parts[0] + sep|] == parts[0] + sep;
    }
  }

  /**
    The name is the text before the first `' = '` and the value the text between
    the first and the second: neither holds the separator, the line starts with
    `name = value`, and after that it either ends or goes on with another `' = '`.
  */
  lemma SplitLineShape(line: string)
    requires Contains(line, Assign)
    ensures var (name, value) := SplitLine(line).value;
      && !Contains(name, Assign) && !Contains(value, Assign)
      && (line == name + Assign + value || IsPrefix(name + Assign + value + Assign, line))
    ensures var (name, value) := SplitLine(line).value; var n := |name| + |Assign|;
      && (forall k :: 0 <= k < |name| ==> !OccursAt(line, Assign, k))
      && OccursAt(line, Assign, |name|)
      && (forall k :: n <= k < n + |value| ==> !OccursAt(line, Assign, k))
  {
    SplitSingle(line, Assign);
    SplitPiecesFree(line, Assign);
    SplitLineRejoin(line, SplitOn(line, Assign));
    SplitLineCuts(line, SplitOn(line, Assign));
  }

  /** The name ends at the first ` = ` of the line, and the value at the next one after it. */
  lemma SplitLineCuts(line: string, pieces: seq<string>)
    requires pieces == SplitOn(line, Assign) && |pieces| >= 2
    ensures var n := |pieces[0]| + |Assign|;
      && (forall k :: 0 <= k < |pieces[0]| ==> !OccursAt(line, Assign, k))
      && OccursAt(line, Assign, |pieces[0]|)
      && (forall k :: n <= k < n + |pieces[1]| ==> !OccursAt(line, Assign, k))
  {
    SplitHeadFirst(line, Assign);
    SplitTail(line, Assign);
    var n := |pieces[0]| + |Assign|;
    var t := line[n..];
    SplitHeadFirst(t, Assign);
    assert pieces[1] == SplitOn(t, Assign)[0];
    forall k | n <= k < n + |pieces[1]| ensures !OccursAt(line, Assign, k) {
      OccursAtShift(line, Assign, n, k - n);
    }
  }

  /** A line that splits into two or more pieces is the first two around ` = `, alone or followed by another ` = `. */
  lemma SplitLineRejoin(line: string, pieces: seq<string>)
    requires pieces == SplitOn(line, Assign) && |pieces| >= 2
    ensures line == pieces[0] + Assign + pieces[1] || IsPrefix(pieces[0] + Assign + pieces[1] + Assign, line)
  {
    JoinSplit(line, Assign);
    var name, value := pieces[0], pieces[1];
    var tail := pieces[1..];
    JoinHeadSep(pieces, Assign);
    if |tail| == 1 {
      assert line == name + Assign + value;
    } else {
      JoinStartsWithFirst(tail, Assign);
      var t := JoinWith(tail, Assign);
      assert line == (name + Assign) + t;
      PrefixAfter(name + Assign, value + Assign, t);
      assert (name + Assign) + (value + Assign) == name + Assign + value + Assign;
    }
  }

  lemma PrefixAfter(a: string, p: string, s: string)
    requires IsPrefix(p, s)
    ensures IsPrefix(a + p, a + s)
  {
    assert (a + s)[..|a + p|] == a + s[..|p|];
  }

  /**
    `split_formulas`: every retained line, in order, sets `table[name] := value`
    and appends `name` to the name list; the first line without `' = '` stops
    the loop with the fields as they are at that point.
  */
  function SplitAll(lines: seq<string>, m: Manager): (r: (Manager, Outcome))
    ensures r.0.allFormulas == m.allFormulas
    ensures Coherent(m) ==> Coherent(r.0)
    decreases |lines|
  {
    if lines == [] then (m, Pass)
    else
      match SplitLine(lines[0])
      case Err(e) => (m, Fail(e))
      case Ok((name, value)) =>
        SplitAll(lines[1..], m.(table := m.table[name := value], names := m.names + [name]))
  }

  predicate WellFormed(lines: seq<string>) {
    forall l :: l in lines ==> Contains(l, Assign)
  }

  /** Splitting succeeds exactly when every line holds `' = '`, and otherwise fails at line 152. */
  lemma {:induction false} SplitAllSucceeds(lines: seq<string>, m: Manager)
    ensures SplitAll(lines, m).1 == Pass <==> WellFormed(lines)
    ensures SplitAll(lines, m).1 != Pass ==> SplitAll(lines, m).1 == Fail(IndexError(152))
    decreases |lines|
  {
    if lines != [] {
      assert lines[0] in lines;
      assert forall l :: l in lines[1..] ==> l in lines;
      assert WellFormed(lines) <==> Contains(lines[0], Assign) && WellFormed(lines[1..]) by {
        assert lines == [lines[0]] + lines[1..];
      }
      match SplitLine(lines[0])
      case Err(_) =>
      case Ok((name, value)) =>
        SplitAllSucceeds(lines[1..], m.(table := m.table[name := value], names := m.names + [name]));
    }
  }

  /** Splitting `a + b` splits `a`, then goes on with `b` from where `a` left off. */
  lemma {:induction false} SplitAllAppend(a: seq<string>, b: seq<string>, m: Manager)
    ensures SplitAll(a + b, m) ==
      if SplitAll(a, m).1 == Pass then SplitAll(b, SplitAll(a, m).0) else SplitAll(a, m)
    decreases |a|
  {
    if a == [] {
      assert a + b == b;
    } else {
      assert (a + b)[0] == a[0];
      assert (a + b)[1..] == a[1..] + b;
      match SplitLine(a[0])
      case Err(_) =>
      case Ok((name, value)) =>
        SplitAllAppend(a[1..], b, m.(table := m.table[name := value], names := m.names + [name]));
    }
  }

  /** Lines that do not define `name` leave its table entry alone. */
  lemma {:induction false} SplitAllOtherNames(lines: seq<string>, m: Manager, name: string)
    requires WellFormed(lines)
    requires forall l :: l in lines ==> SplitLine(l).value.0 != name
    requires name in m.table
    ensures name in SplitAll(lines, m).0.table
    ensures SplitAll(lines, m).0.table[name] == m.table[name]
    decreases |lines|
  {
    if lines != [] {
      assert lines[0] in lines;
      assert forall l :: l in lines[1..] ==> l in lines;
      var (n, v) := SplitLine(lines[0]).value;
      SplitAllOtherNames(lines[1..], m.(table := m.table[n := v], names := m.names + [n]), name);
    }
  }

  /** The last definition of a name wins in the table. */
  lemma LastDefinitionWins(a: seq<string>, line: string, b: seq<string>, m: Manager)
    requires WellFormed(a + [line] + b)
    requires forall l :: l in b ==> SplitLine(l).value.0 != SplitLine(line).value.0
    ensures var (name, value) := SplitLine(line).value;
      && name in SplitAll(a + [line] + b, m).0.table
      && SplitAll(a + [line] + b, m).0.table[name] == value
  {
    assert forall l :: l in a ==> l in a + [line] + b;
    assert line in a + [line] + b;
    assert forall l :: l in b ==> l in a + [line] + b;
    SplitAllSucceeds(a, m);
    var ma := SplitAll(a, m).0;
    SplitAllAppend(a, [line] + b, m);
    assert a + ([line] + b) == a + [line] + b;
    var (name, value) := SplitLine(line).value;
    var ml := ma.(table := ma.table[name := value], names := ma.names + [name]);
    assert ([line] + b)[0] == line && ([line] + b)[1..] == b;
    assert SplitAll([line] + b, ma) == SplitAll(b, ml);
    SplitAllOtherNames(b, ml, name);
  }

  /** Every line appends its name: the name list grows by the lines' names, duplicates included. */
  lemma {:induction false} SplitAllNames(lines: seq<string>, m: Manager)
    requires WellFormed(lines)
    ensures var names := SplitAll(lines, m).0.names;
      && |names| == |m.names| + |lines|
      && names[..|m.names|] == m.names
      && forall i :: 0 <= i < |lines| ==> names[|m.names| + i] == SplitLine(lines[i]).value.0
    decreases |lines|
  {
    if lines != [] {
      assert lines[0] in lines;
      assert forall l :: l in lines[1..] ==> l in lines;
      var (n, v) := SplitLine(lines[0]).value;
      var m' := m.(table := m.table[n := v], names := m.names + [n]);
      SplitAllNames(lines[1..], m');
      var names := SplitAll(lines, m).0.names;
      assert names == SplitAll(lines[1..], m').0.names;
      assert names[..|m.names|] == names[..|m'.names|][..|m.names|];
      forall i | 0 <= i < |lines|
        ensures names[|m.names| + i] == SplitLine(lines[i]).value.0
      {
        if i == 0 {
          assert names[|m.names|] == names[..|m'.names|][|m.names|];
        } else {
          assert lines[i] == lines[1..][i - 1];
          assert |m.names| + i == |m'.names| + (i - 1);
        }
      }
    }
  }

  // ---------------------------------------------------------------- cleaning

  /** `value.replace(',', '').replace("'", '').replace('(', '').replace(')', '').strip()`. */
  function CleanValue(v: string): (r: string)
    ensures ',' !in r && '\'' !in r && '(' !in r && ')' !in r
    ensures r == [] || (!IsSpace(r[0]) && !IsSpace(r[|r| - 1]))
  {
    var a := ReplaceAll(v, ",", "");
    ReplaceCharByNothing(v, ',');
    var b := ReplaceAll(a, "'", "");
    ReplaceCharByNothing(a, '\'');
    var c := ReplaceAll(b, "(", "");
    ReplaceCharByNothing(b, '(');
    var d := ReplaceAll(c, ")", "");
    ReplaceCharByNothing(c, ')');
    StripKeeps(d, ',');
    StripKeeps(d, '\'');
    StripKeeps(d, '(');
    StripKeeps(d, ')');
    Strip(d)
  }

  /** Cleaning a clean value changes nothing. */
  lemma CleanIdempotent(v: string)
    ensures CleanValue(CleanValue(v)) == CleanValue(v)
  {
    var r := CleanValue(v);
    ReplaceCharByNothing(r, ',');
    ReplaceCharByNothing(r, '\'');
    ReplaceCharByNothing(r, '(');
    ReplaceCharByNothing(r, ')');
    StripUnchanged(r);
  }

  /** `clean_formulas`: every listed name's value is replaced by its cleaned form, in list order. */
  function CleanAll(names: seq<string>, table: map<string, string>): (r: map<string, string>)
    requires forall n :: n in names ==> n in table
    ensures r.Keys == table.Keys
    decreases |names|
  {
    if names == [] then table
    else
      assert forall n :: n in names[1..] ==> n in names;
      var t := table[names[0] := CleanValue(table[names[0]])];
      assert t.Keys == table.Keys;
      CleanAll(names[1..], t)
  }

  /**
    Each listed value ends up cleaned once and the others are untouched, however
    often a name is listed: duplicates are harmless because cleaning is idempotent.
  */
  lemma {:induction false} CleanAllCleansEach(names: seq<string>, table: map<string, string>, k: string)
    requires forall n :: n in names ==> n in table
    requires k in table
    ensures CleanAll(names, table)[k] == if k in names then CleanValue(table[k]) else table[k]
    decreases |names|
  {
    if names != [] {
      assert forall n :: n in names[1..] ==> n in names;
      var n0 := names[0];
      var t := table[n0 := CleanValue(table[n0])];
      CleanAllCleansEach(names[1..], t, k);
      if k == n0 {
        CleanIdempotent(table[n0]);
      }
      assert k in names <==> k == n0 || k in names[1..];
    }
  }

  // ---------------------------------------------------------------- expanding

  /** A value that refers to other formulas: it holds `pipe_`, `pr_` or `as_`. */
  predicate Marked(v: string) {
    Contains(v, "pipe_") || Contains(v, "pr_") || Contains(v, "as_")
  }

  /**
    One iteration of `expand_formulas` for `name`: an unmarked value and a value
    whose first bracketed name is empty are left alone; a marked value without
    `{...}` fails at line 185; an unknown first name fails at line 190 (the
    dictionary lookup comes before the membership test of line 193, which then
    always holds); otherwise every `{X}` is replaced by X's current value.
  */
  function ExpandOne(table: map<string, string>, name: string): (r: Result<map<string, string>>)
    requires name in table
    ensures r.Ok? ==> r.value.Keys == table.Keys
    ensures r.Ok? ==> forall k :: k in table && k != name ==> r.value[k] == table[k]
  {
    var v := table[name];
    if !Marked(v) then Ok(table)
    else
      match FirstBracket(v)
      case None => Err(IndexError(185))
      case Some(x) =>
        if x == "" then Ok(table)
        else if x !in table then Err(KeyError(x))
        else Ok(table[name := ReplaceAll(v, "{" + x + "}", table[x])])
  }

  /** `expand_formulas`: one iteration per listed name, in list order, on the table as it stands. */
  function ExpandAll(names: seq<string>, table: map<string, string>): (r: (map<string, string>, Outcome))
    requires forall n :: n in names ==> n in table
    ensures r.0.Keys == table.Keys
    decreases |names|
  {
    if names == [] then (table, Pass)
    else
      match ExpandOne(table, names[0])
      case Err(e) => (table, Fail(e))
      case Ok(t) =>
        assert forall n :: n in names[1..] ==> n in names;
        ExpandAll(names[1..], t)
  }

  /**
    The outcomes of one expansion step. A value left alone is unmarked or
    starts with `{}`; a failure is line 185 (no bracket) or a KeyError for the
    first name; a replacement rebuilds the value from the text around every
    `{X}` (which is the original value joined back with `{X}`) put together
    with X's value.
  */
  lemma ExpandOneCases(table: map<string, string>, name: string)
    requires name in table
    ensures var v := table[name];
      match ExpandOne(table, name)
      case Err(e) =>
        && Marked(v)
        && (e == IndexError(185) <==> FirstBracket(v).None?)
        && (e.KeyError? <==> FirstBracket(v).Some?)
        && (e.KeyError? ==> e.key == FirstBracket(v).value && e.key != "" && e.key !in table)
      case Ok(t) =>
        if t[name] == v then true
        else
          && Marked(v) && FirstBracket(v).Some?
          && var x := FirstBracket(v).value;
          && x != "" && x in table
          && t[name] == JoinWith(SplitOn(v, "{" + x + "}"), table[x])
          && JoinWith(SplitOn(v, "{" + x + "}"), "{" + x + "}") == v
  {
    var v := table[name];
    if Marked(v) && FirstBracket(v).Some? {
      var x := FirstBracket(v).value;
      if x != "" && x in table {
        ReplaceIsJoinOfSplit(v, "{" + x + "}", table[x]);
        JoinSplit(v, "{" + x + "}");
      }
    }
  }

  /** One turn of the expansion loop, at position `i` of the name list. */
  lemma ExpandAllStep(names: seq<string>, i: nat, table: map<string, string>)
    requires i < |names| && forall n :: n in names ==> n in table
    ensures names[i] in table
    ensures var step := ExpandOne(table, names[i]);
      ExpandAll(names[i..], table) ==
        if step.Err? then (table, Fail(step.error)) else ExpandAll(names[i + 1..], step.value)
  {
    assert names[i..][0] == names[i] && names[i..][1..] == names[i + 1..];
    assert names[i] in names;
    assert forall n :: n in names[i..] ==> n in names;
  }

  /** A value without any formula marker is not touched by expansion. */
  lemma ExpandUnmarked(table: map<string, string>, name: string)
    requires name in table && !Marked(table[name])
    ensures ExpandOne(table, name) == Ok(table)
  {
  }

  /** A value whose first bracket refers to a formula without markers gets that formula's value spliced in. */
  lemma ExpandSplices(table: map<string, string>, name: string, a: string, x: string, b: string)
    requires name in table && x in table && x != ""
    requires table[name] == a + "{" + x + "}" + b
    requires '{' !in a && '}' !in x && '\n' !in x
    requires Marked(table[name])
    ensures ExpandOne(table, name).Ok?
    ensures ExpandOne(table, name).value[name] == ReplaceAll(table[name], "{" + x + "}", table[x])
  {
    FirstBracketOf(a, x, b);
  }

  /** A reference to a formula that is not in the table fails with a KeyError for it. */
  lemma ExpandUnknown(table: map<string, string>, name: string, a: string, x: string, b: string)
    requires name in table && x !in table && x != ""
    requires table[name] == a + "{" + x + "}" + b
    requires '{' !in a && '}' !in x && '\n' !in x
    requires Marked(table[name])
    ensures ExpandOne(table, name) == Err(KeyError(x))
  {
    FirstBracketOf(a, x, b);
  }

  // ---------------------------------------------------------------- the table's key order

  /** The first occurrences of the names, in order: the insertion order of the dictionary. */
  function Dedup(s: seq<string>): (r: seq<string>)
    ensures forall x :: x in r <==> x in s
    ensures forall i, j :: 0 <= i < j < |r| ==> r[i] != r[j]
    decreases |s|
  {
    if s == [] then []
    else
      var d := Dedup(s[..|s| - 1]);
      assert forall x :: x in s <==> x in s[..|s| - 1] || x == s[|s| - 1] by {
        assert s == s[..|s| - 1] + [s[|s| - 1]];
      }
      if s[|s| - 1] in d then d else d + [s[|s| - 1]]
  }

  /** A name joins the key order at its first occurrence and never moves again. */
  lemma DedupSnoc(s: seq<string>, x: string)
    ensures Dedup(s + [x]) == if x in s then Dedup(s) else Dedup(s) + [x]
  {
    assert (s + [x])[..|s + [x]| - 1] == s;
  }

  /** Later names never reorder the keys already there: `Dedup(a)` starts `Dedup(a + b)`. */
  lemma {:induction false} DedupPrefix(a: seq<string>, b: seq<string>)
    ensures |Dedup(a)| <= |Dedup(a + b)| && Dedup(a + b)[..|Dedup(a)|] == Dedup(a)
    decreases |b|
  {
    if b == [] {
      assert a + b == a;
    } else {
      var b' := b[..|b| - 1];
      var y := b[|b| - 1];
      assert a + b == (a + b') + [y];
      DedupPrefix(a, b');
      DedupSnoc(a + b', y);
    }
  }

  // ---------------------------------------------------------------- parsing and lookup

  /**
    `parse_formulas(name)`: split, clean and expand, then the pieces of the
    name's value when the name is non-empty and present, None when it is
    absent, and the whole table when the name is empty. A split or expansion
    failure is passed on.
  */
  function ParseSpec(m: Manager, name: string): (r: (Manager, Result<FormulaValue>))
    requires Coherent(m)
    ensures Coherent(r.0) && r.0.allFormulas == m.allFormulas
  {
    var (m1, split) := SplitAll(m.allFormulas, m);
    if split.Fail? then (m1, Err(split.error))
    else
      var m2 := m1.(table := CleanAll(m1.names, m1.table));
      var (t3, expand) := ExpandAll(m2.names, m2.table);
      var m3 := m2.(table := t3);
      if expand.Fail? then (m3, Err(expand.error))
      else if name != "" then
        (m3, Ok(if name in t3 then Pieces(Words(t3[name])) else Absent))
      else
        (m3, Ok(Table(Dedup(m3.names), t3)))
  }

  /** A successful parse answers a present name with the words of its value and an absent one with None. */
  lemma ParseAnswers(m: Manager, name: string)
    requires Coherent(m)
    requires ParseSpec(m, name).1.Ok?
    ensures var (m', v) := ParseSpec(m, name);
      && (name != "" && name in m'.table ==> v.value == Pieces(Words(m'.table[name])))
      && (name != "" && name !in m'.table ==> v.value == Absent)
      && (name == "" ==>
            && v.value.Table? && v.value.values == m'.table
            && (forall k :: k in v.value.keys <==> k in m'.table)
            && (forall i, j :: 0 <= i < j < |v.value.keys| ==> v.value.keys[i] != v.value.keys[j]))
  {
  }

  /** Splitting the pieces back together gives the value's words separated by single spaces. */
  lemma PiecesRejoin(v: string)
    ensures Words(JoinWith(Words(v), " ")) == Words(v)
  {
    WordsJoin(Words(v));
  }

  /** `read_formulas(name)` followed by `parse_formulas(name)`, for a string name. */
  function ReadParse(m: Manager, name: string, src: Sources): (r: (Manager, Result<FormulaValue>))
    requires Coherent(m)
    ensures Coherent(r.0)
  {
    ParseSpec(ReadSpec(m, Some(name), src).0, name)
  }

  /**
    The values collected for a list, as the caller sees them once the list is
    done. `parse_formulas("")` returns the manager's dictionary object itself,
    so every such entry is that one dictionary, which the later names have
    since changed in place: each `Table` entry shows the final dictionary `t`.
  */
  function Shared(vs: seq<FormulaValue>, t: FormulaValue): (r: seq<FormulaValue>)
    ensures |r| == |vs|
    ensures forall i :: 0 <= i < |vs| ==> r[i] == if vs[i].Table? then t else vs[i]
  {
    seq(|vs|, i requires 0 <= i < |vs| => if vs[i].Table? then t else vs[i])
  }

  /** The list branch of `get_formula`: read and parse each name in turn, collecting the values. */
  function GetList(m: Manager, names: seq<string>, src: Sources, acc: seq<FormulaValue>): (r: (Manager, Result<Answer>))
    requires Coherent(m)
    ensures Coherent(r.0)
    ensures r.1.Ok? ==> r.1.value.Many? && |r.1.value.values| == |acc| + |names|
    ensures r.1.Ok? ==> forall i :: 0 <= i < |r.1.value.values| && r.1.value.values[i].Table? ==>
      r.1.value.values[i] == Table(Dedup(r.0.names), r.0.table)
    decreases |names|
  {
    if names == [] then (m, Ok(Many(Shared(acc, Table(Dedup(m.names), m.table)))))
    else
      var (m1, v) := ReadParse(m, names[0], src);
      if v.Err? then (m1, Err(v.error))
      else GetList(m1, names[1..], src, acc + [v.value])
  }

  /**
    `get_formula(request)`: a list gives one value per name; a string the value
    of `parse_formulas`; None fails in `read_formulas` after the base read.
  */
  function GetFormulaSpec(m: Manager, request: Request, src: Sources): (r: (Manager, Result<Answer>))
    requires Coherent(m)
    ensures Coherent(r.0)
    ensures request.Formula? && r.1.Ok? ==> r.1.value.One?
    ensures request.AllFormulas? ==> r.1 == Err(TypeError(120))
  {
    match request
    case AllFormulas =>
      (ReadSpec(m, None, src).0, Err(TypeError(120)))
    case Formula(name) =>
      var (m1, v) := ReadParse(m, name, src);
      (m1, if v.Err? then Err(v.error) else Ok(One(v.value)))
    case FormulaList(names) =>
      GetList(m, names, src, [])
  }

  /** The manager object: its three fields change in place across calls. */
  class FormulaManager {
    var allFormulas: seq<string>
    var table: map<string, string>
    var names: seq<string>
    /** The contents of the base, project and asset configuration files. */
    const sources: Sources

    function State(): Manager
      reads this
    {
      Manager(allFormulas, table, names)
    }

    predicate Valid()
      reads this
    {
      Coherent(State())
    }

    /** `FormulaManager()`: empty fields. */
    constructor(sources: Sources)
      ensures State() == Empty && this.sources == sources
      ensures Valid()
    {
      allFormulas := [];
      table := map[];
      names := [];
      this.sources := sources;
    }

    /** `_read`: the kept base lines replace `all_formulas`. */
    method ReadBase()
      requires Valid()
      modifies this
      ensures State() == old(State()).(allFormulas := Kept(sources.base, ","))
      ensures Valid()
    {
      var lines := sources.base;
      var keep: seq<string> := [];
      for i := 0 to |lines|
        invariant keep == Kept(lines[..i], ",")
        invariant unchanged(this)
      {
        var line := Strip(lines[i]);
        KeptStep(lines, i, ",");
        if Contains(line, ",") {
          var before := keep;
          keep := keep + [line];
          if Contains(line, "#") {
            assert line !in before;
            RemoveJustAppended(before, line);
            keep := RemoveFirst(keep, line);
          }
        }
      }
      assert lines[..|lines|] == lines;
      allFormulas := keep;
    }

    /** `_read_projects` / `_read_assets`: the kept lines of a source are appended to `all_formulas`. */
    method ReadNamespace(lines: seq<string>, marker: string)
      requires Valid()
      modifies this
      ensures State() == old(State()).(allFormulas := old(allFormulas) + Kept(lines, marker))
      ensures Valid()
    {
      for i := 0 to |lines|
        invariant allFormulas == old(allFormulas) + Kept(lines[..i], marker)
        invariant NoComments(allFormulas)
        invariant table == old(table) && names == old(names)
      {
        var line := Strip(lines[i]);
        KeptStep(lines, i, marker);
        if Contains(line, marker) {
          var before := allFormulas;
          allFormulas := allFormulas + [line];
          if Contains(line, "#") {
            assert line !in before;
            RemoveJustAppended(before, line);
            allFormulas := RemoveFirst(allFormulas, line);
          }
        }
      }
      assert lines[..|lines|] == lines;
    }

    /** `read_formulas(name)`. */
    method ReadFormulas(name: Option<string>) returns (out: Outcome)
      requires Valid()
      modifies this
      ensures (State(), out) == ReadSpec(old(State()), name, sources)
      ensures Valid()
    {
      ReadBase();
      if name.None? {
        return Fail(TypeError(120));
      }
      var n := name.value;
      if Contains(n, "pr_") {
        ReadNamespace(sources.project, "pr_");
      }
      if Contains(n, "as_") {
        ReadNamespace(sources.asset, "as_");
      }
      if n == "" {
        ReadNamespace(sources.project, "pr_");
        ReadNamespace(sources.asset, "as_");
      }
      return Pass;
    }

    /** `split_formulas`. */
    method SplitFormulas() returns (out: Outcome)
      requires Valid()
      modifies this
      ensures (State(), out) == SplitAll(old(allFormulas), old(State()))
      ensures Valid()
    {
      var lines := allFormulas;
      var i := 0;
      while i < |lines|
        invariant 0 <= i <= |lines| && allFormulas == lines
        invariant SplitAll(lines[i..], State()) == SplitAll(lines, old(State()))
        invariant Valid()
      {
        assert lines[i..][0] == lines[i] && lines[i..][1..] == lines[i + 1..];
        var pieces := SplitOn(lines[i], Assign);
        if |pieces| < 2 {
          return Fail(IndexError(152));
        }
        table := table[pieces[0] := pieces[1]];
        names := names + [pieces[0]];
        i := i + 1;
      }
      return Pass;
    }

    /** `clean_formulas`. */
    method CleanFormulas()
      requires Valid()
      modifies this
      ensures State() == old(State()).(table := CleanAll(old(names), old(table)))
      ensures Valid()
    {
      var i := 0;
      while i < |names|
        invariant 0 <= i <= |names| && names == old(names) && allFormulas == old(allFormulas)
        invariant table.Keys == old(table).Keys
        invariant CleanAll(names[i..], table) == CleanAll(names, old(table))
      {
        assert names[i..][0] == names[i] && names[i..][1..] == names[i + 1..];
        var name := names[i];
        var value := table[name];
        value := ReplaceAll(value, ",", "");
        value := ReplaceAll(value, "'", "");
        value := ReplaceAll(value, "(", "");
        value := ReplaceAll(value, ")", "");
        value := Strip(value);
        table := table[name := value];
        i := i + 1;
      }
    }

    /** `expand_formulas`. */
    method ExpandFormulas() returns (out: Outcome)
      requires Valid()
      modifies this
      ensures (table, out) == ExpandAll(old(names), old(table))
      ensures names == old(names) && allFormulas == old(allFormulas)
      ensures Valid()
    {
      var i := 0;
      while i < |names|
        invariant 0 <= i <= |names| && names == old(names) && allFormulas == old(allFormulas)
        invariant table.Keys == old(table).Keys
        invariant forall n :: n in names ==> n in table
        invariant ExpandAll(names[i..], table) == ExpandAll(names, old(table))
      {
        ExpandAllStep(names, i, table);
        var step := ExpandEntry(names[i]);
        if step.Fail? {
          return step;
        }
        i := i + 1;
      }
      return Pass;
    }

    /** One iteration of the loop of `expand_formulas`, for `name`. */
    method ExpandEntry(name: string) returns (out: Outcome)
      requires name in table
      modifies this
      ensures names == old(names) && allFormulas == old(allFormulas)
      ensures var step := ExpandOne(old(table), name);
        if step.Err? then out == Fail(step.error) && table == old(table)
        else out == Pass && table == step.value
    {
      var value := table[name];
      if !Contains(value, "pipe_") && !Contains(value, "pr_") && !Contains(value, "as_") {
        return Pass;
      }
      var bracketed := FirstBracket(value);
      if bracketed.None? {
        return Fail(IndexError(185));
      }
      var switchTo := bracketed.value;
      if switchTo == "" {
        return Pass;
      }
      if switchTo !in table {
        return Fail(KeyError(switchTo));
      }
      var legit := table[switchTo];
      var replacement := "{" + switchTo + "}";
      table := table[name := ReplaceAll(value, replacement, legit)];
      return Pass;
    }

    /** `parse_formulas(name)`, the empty name standing for a falsy one. */
    method ParseFormulas(name: string) returns (r: Result<FormulaValue>)
      requires Valid()
      modifies this
      ensures (State(), r) == ParseSpec(old(State()), name)
      ensures Valid()
    {
      var split := SplitFormulas();
      if split.Fail? {
        return Err(split.error);
      }
      CleanFormulas();
      var expand := ExpandFormulas();
      if expand.Fail? {
        return Err(expand.error);
      }
      if name != "" {
        if name in table {
          return Ok(Pieces(Words(table[name])));
        }
        return Ok(Absent);
      }
      return Ok(Table(Dedup(names), table));
    }

    /** `get_formula(request)`. */
    method GetFormula(request: Request) returns (r: Result<Answer>)
      requires Valid()
      modifies this
      ensures (State(), r) == GetFormulaSpec(old(State()), request, sources)
      ensures Valid()
    {
      match request
      case AllFormulas =>
        var out := ReadFormulas(None);
        return Err(out.error);
      case Formula(name) =>
        var _ := ReadFormulas(Some(name));
        var v := ParseFormulas(name);
        if v.Err? {
          return Err(v.error);
        }
        return Ok(One(v.value));
      case FormulaList(list) =>
        var values: seq<FormulaValue> := [];
        var i := 0;
        while i < |list|
          invariant 0 <= i <= |list| && Valid()
          invariant GetList(State(), list[i..], sources, values) == GetList(old(State()), list, sources, [])
        {
          assert list[i..][0] == list[i] && list[i..][1..] == list[i + 1..];
          var _ := ReadFormulas(Some(list[i]));
          var v := ParseFormulas(list[i]);
          if v.Err? {
            return Err(v.error);
          }
          values := values + [v.value];
          i := i + 1;
        }
        return Ok(Many(Shared(values, Table(Dedup(names), table))));
    }
  }
}
