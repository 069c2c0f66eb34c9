/**
  The pipeline context of pipe_context.py. `PipeContext` holds the current
  path and a history of earlier ones, and evaluates formulas one after another
  inside a `with` block. `PathContext` resolves one formula: it runs the formula
  manager on the parent formulas and then on the formula, fills the formula's
  pieces from keyword arguments or from the context's attributes, joins them
  with `/` and normalises the result.

  As in the formula manager, pure functions specify each step and the two
  classes carry the state the source updates, with methods proved against
  those functions.
*/
module Contexts {
  import opened Wrappers
  import opened Text
  import opened PosixPath
  import opened PathLib

  /** A value stored in the context object's `__dict__`. */
  datatype Attr = Str(s: string) | NoneValue | ListValue(items: seq<string>) | BoolValue(b: bool)

  function OptionAttr(o: Option<string>): Attr {
    match o
    case Some(s) => Str(s)
    case None => NoneValue
  }

  /** Keyword arguments: each maps to a string or to None. */
  type Kwargs = map<string, Option<string>>

  /** `kwargs.setdefault(key, default)`, reading the result. */
  function Setdefault(kwargs: Kwargs, key: string, default: Option<string>): Option<string> {
    if key in kwargs then kwargs[key] else default
  }

  /** The attributes `__init__` sets from the keyword arguments. */
  datatype Settings = Settings(
    asset: Option<string>,
    assetType: Option<string>,
    contextArea: Option<string>,
    diskType: Option<string>,
    drive: Option<string>,
    project: Option<string>)

  /**
    `PipeContext.__init__(**kwargs)`: each attribute is its keyword argument
    or its default. The default drive is `PIPELINE.OS`, the operating system's
    name as `platform.system()` reports it (not `PIPELINE.DRIVE`).
  */
  function SettingsOf(kwargs: Kwargs, osName: string): (r: Settings)
    ensures "drive" !in kwargs ==> r.drive == Some(osName)
    ensures "context_area" !in kwargs ==> r.contextArea == Some("pipeline")
  {
    Settings(
      Setdefault(kwargs, "asset", None),
      Setdefault(kwargs, "asset_type", None),
      Setdefault(kwargs, "context_area", Some("pipeline")),
      Setdefault(kwargs, "disk_type", None),
      Setdefault(kwargs, "drive", Some(osName)),
      Setdefault(kwargs, "project", None))
  }

  /** With no keyword arguments every attribute takes its default. */
  lemma SettingsDefaults(osName: string)
    ensures SettingsOf(map[], osName) == Settings(None, None, Some("pipeline"), None, Some(osName), None)
  {
  }

  // ---------------------------------------------------------------- the current path and its history

  /** `_context` (None until set) and `_old_context`. */
  datatype Ctx = Ctx(current: Option<string>, history: seq<string>)

  /** Python truthiness of an optional string. */
  predicate Truthy(o: Option<string>) {
    o.Some? && o.value != ""
  }

  /**
    The `context` setter. The old current path is pushed onto the history when
    it is truthy and differs from the new one; the source's further test
    `current != self._old_context[-1:]` compares a string with a list and so
    always holds. The new path always becomes current.
  */
  function SetRule(c: Ctx, path: string): (r: Ctx)
    ensures r.current == Some(path)
    ensures r.history == c.history || (c.current.Some? && r.history == c.history + [c.current.value])
    ensures r.history != c.history <==> Truthy(c.current) && c.current.value != path
  {
    if Truthy(c.current) && c.current.value != path then
      assert |c.history + [c.current.value]| != |c.history|;
      Ctx(Some(path), c.history + [c.current.value])
    else
      Ctx(Some(path), c.history)
  }

  /**
    `__enter__` and `context_init`: when there is no truthy current path and a
    drive is set, the drive becomes current; the history never changes, since
    nothing truthy is there to push.
  */
  function InitRule(c: Ctx, drive: Option<string>): (r: Ctx)
    ensures r.history == c.history
    ensures r.current == if !Truthy(c.current) && drive.Some? then Some(drive.value) else c.current
  {
    if !Truthy(c.current) && drive.Some? then SetRule(c, drive.value) else c
  }

  /** What the `old_context` setter is given: a string, a list, or something else. */
  datatype HistoryArg = Item(s: string) | Items(items: seq<string>) | Other

  /** The `old_context` setter: a string is appended, a list replaces the history, anything else is ignored. */
  function SetHistoryRule(c: Ctx, v: HistoryArg): (r: Ctx)
    ensures r.current == c.current
    ensures v.Item? ==> r.history == c.history + [v.s]
    ensures v.Items? ==> r.history == v.items
    ensures v.Other? ==> r == c
  {
    match v
    case Item(s) => c.(history := c.history + [s])
    case Items(items) => c.(history := items)
    case Other => c
  }

  predicate NoAdjacentRepeats(s: seq<string>) {
    forall i :: 0 < i < |s| ==> s[i - 1] != s[i]
  }

  /**
    The chain the setter builds: no two consecutive history entries are equal,
    and once there is history the current path is truthy and differs from the
    last entry.
  */
  predicate Chained(c: Ctx) {
    && NoAdjacentRepeats(c.history)
    && (c.history != [] ==> Truthy(c.current) && c.current.value != c.history[|c.history| - 1])
  }

  /** Setting a non-empty path keeps the chain. */
  lemma SetKeepsChain(c: Ctx, path: string)
    requires Chained(c) && path != ""
    ensures Chained(SetRule(c, path))
  {
    var r := SetRule(c, path);
    if r.history != c.history {
      var h := r.history;
      assert h[|h| - 1] == c.current.value;
      forall i | 0 < i < |h| ensures h[i - 1] != h[i] {
        if i < |h| - 1 {
          assert h[i - 1] == c.history[i - 1] && h[i] == c.history[i];
        }
      }
    }
  }

  /** The history only grows through the setter: the old history is a prefix of the new one. */
  lemma SetExtendsHistory(c: Ctx, path: string)
    ensures |c.history| <= |SetRule(c, path).history|
    ensures SetRule(c, path).history[..|c.history|] == c.history
  {
  }

  /** `s` with every run of equal adjacent entries collapsed to one. */
  function Compress(s: seq<string>): (r: seq<string>)
    ensures |r| <= |s|
    ensures s != [] ==> r != [] && r[|r| - 1] == s[|s| - 1]
    decreases |s|
  {
    if |s| <= 1 then s
    else
      var init := Compress(s[..|s| - 1]);
      if init[|init| - 1] == s[|s| - 1] then init else init + [s[|s| - 1]]
  }

  /**
    The history followed by the current path is the trail of every path set so
    far with repeats collapsed: each non-empty path set either repeats the
    current one, which changes nothing, or pushes the current one.
  */
  lemma SetFollowsTrail(c: Ctx, trail: seq<string>, path: string)
    requires Truthy(c.current) && c.history + [c.current.value] == Compress(trail)
    requires path != ""
    ensures var r := SetRule(c, path); r.history + [r.current.value] == Compress(trail + [path])
  {
    var t := trail + [path];
    assert t[..|t| - 1] == trail;
    assert trail != [];
    var r := SetRule(c, path);
    if c.current.value != path {
      assert r.history + [path] == (c.history + [c.current.value]) + [path];
    }
  }

  // ---------------------------------------------------------------- the attribute dictionary

  /** `PipeContext.__dict__`: the attributes set in `__init__`, with the current path and history. */
  function AttrDict(st: Settings, c: Ctx): (d: map<string, Attr>)
    ensures "_context" in d && d["_context"] == OptionAttr(c.current)
    ensures "drive" in d && d["drive"] == OptionAttr(st.drive)
  {
    map[
      "_context" := OptionAttr(c.current),
      "_old_context" := ListValue(c.history),
      "asset" := OptionAttr(st.asset),
      "asset_type" := OptionAttr(st.assetType),
      "context_area" := OptionAttr(st.contextArea),
      "disk_type" := OptionAttr(st.diskType),
      "drive" := OptionAttr(st.drive),
      "project" := OptionAttr(st.project),
      "preferences" := NoneValue,
      "user" := BoolValue(false)
    ]
  }

  // ---------------------------------------------------------------- _return_path

  /**
    What one piece of a formula adds to the path: a piece without `{` adds
    itself; otherwise the first `{name}` in it is looked up in the keyword
    arguments, then in the attributes, and adds that value or nothing; a `{`
    with no closing `}` fails at line 306.
  */
  function PieceValue(piece: string, kwargs: Kwargs, attrs: map<string, Attr>): (r: Result<Option<Attr>>)
    ensures r.Err? <==> '{' in piece && FirstBracket(piece).None?
    ensures r.Err? ==> r.error == IndexError(306)
  {
    if '{' !in piece then Ok(Some(Str(piece)))
    else
      match FirstBracket(piece)
      case None => Err(IndexError(306))
      case Some(x) =>
        if x in kwargs then Ok(Some(OptionAttr(kwargs[x])))
        else if x in attrs then Ok(Some(attrs[x]))
        else Ok(None)
  }

  /**
    A braced piece adds only the value of its first name: the literal text
    around `{name}` is dropped, a keyword argument comes before an attribute,
    and a name found in neither adds nothing.
  */
  lemma PieceTakesFirstName(a: string, x: string, b: string, kwargs: Kwargs, attrs: map<string, Attr>)
    requires '{' !in a && '}' !in x && '\n' !in x
    ensures PieceValue(a + "{" + x + "}" + b, kwargs, attrs) ==
      if x in kwargs then Ok(Some(OptionAttr(kwargs[x])))
      else if x in attrs then Ok(Some(attrs[x]))
      else Ok(None)
  {
    var piece := a + "{" + x + "}" + b;
    assert piece[|a|] == '{';
    FirstBracketOf(a, x, b);
  }

  /** The loop of `_return_path`: each piece in order adds its value to `acc`, the first failure stops it. */
  function Resolve(pieces: seq<string>, kwargs: Kwargs, attrs: map<string, Attr>, acc: seq<Attr>): (r: Result<seq<Attr>>)
    ensures r.Ok? ==> |acc| <= |r.value| <= |acc| + |pieces|
    ensures r.Err? ==> r.error == IndexError(306)
    decreases |pieces|
  {
    if pieces == [] then Ok(acc)
    else
      match PieceValue(pieces[0], kwargs, attrs)
      case Err(e) => Err(e)
      case Ok(None) => Resolve(pieces[1..], kwargs, attrs, acc)
      case Ok(Some(v)) => Resolve(pieces[1..], kwargs, attrs, acc + [v])
  }

  /** The loop keeps what it has collected: starting from `acc` gives `acc` followed by what starting afresh gives. */
  lemma {:induction false} ResolveAcc(pieces: seq<string>, kwargs: Kwargs, attrs: map<string, Attr>, acc: seq<Attr>)
    ensures var w := Resolve(pieces, kwargs, attrs, []);
      Resolve(pieces, kwargs, attrs, acc) == if w.Err? then w else Ok(acc + w.value)
    decreases |pieces|
  {
    if pieces == [] {
      assert acc + [] == acc;
    } else {
      var rest := pieces[1..];
      var p := PieceValue(pieces[0], kwargs, attrs);
      if p.Ok? && p.value.None? {
        ResolveAcc(rest, kwargs, attrs, acc);
        ResolveAcc(rest, kwargs, attrs, []);
      } else if p.Ok? {
        var v := p.value.value;
        assert [] + [v] == [v];
        ResolveAcc(rest, kwargs, attrs, acc + [v]);
        ResolveAcc(rest, kwargs, attrs, [v]);
        var w := Resolve(rest, kwargs, attrs, []);
        if w.Ok? {
          assert acc + [v] + w.value == acc + ([v] + w.value);
        }
      }
    }
  }

  /**
    Each piece adds its own value in front of what the remaining pieces add:
    its string for a literal, its first name's value when there is one, nothing
    otherwise, and an incomplete `{` stops the loop.
  */
  lemma ResolveCons(piece: string, rest: seq<string>, kwargs: Kwargs, attrs: map<string, Attr>)
    ensures var p := PieceValue(piece, kwargs, attrs); var w := Resolve(rest, kwargs, attrs, []);
      Resolve([piece] + rest, kwargs, attrs, []) ==
        if p.Err? then Err(p.error)
        else if p.value.None? || w.Err? then w
        else Ok([p.value.value] + w.value)
  {
    assert ([piece] + rest)[0] == piece && ([piece] + rest)[1..] == rest;
    var p := PieceValue(piece, kwargs, attrs);
    if p.Ok? && p.value.Some? {
      assert [] + [p.value.value] == [p.value.value];
      ResolveAcc(rest, kwargs, attrs, [p.value.value]);
    }
  }

  /** When every piece has a value, the loop collects exactly those values, in order. */
  lemma {:induction false} ResolveValues(pieces: seq<string>, kwargs: Kwargs, attrs: map<string, Attr>, values: seq<Attr>)
    requires |values| == |pieces|
    requires forall i :: 0 <= i < |pieces| ==> PieceValue(pieces[i], kwargs, attrs) == Ok(Some(values[i]))
    ensures Resolve(pieces, kwargs, attrs, []) == Ok(values)
    decreases |pieces|
  {
    if pieces != [] {
      assert PieceValue(pieces[0], kwargs, attrs) == Ok(Some(values[0]));
      ResolveValues(pieces[1..], kwargs, attrs, values[1..]);
      ResolveCons(pieces[0], pieces[1..], kwargs, attrs);
      assert [pieces[0]] + pieces[1..] == pieces;
      assert [values[0]] + values[1..] == values;
    }
  }

  /** Pieces without braces are passed through as they are. */
  lemma {:induction false} ResolveLiterals(pieces: seq<string>, kwargs: Kwargs, attrs: map<string, Attr>, acc: seq<Attr>)
    requires forall p :: p in pieces ==> '{' !in p
    ensures Resolve(pieces, kwargs, attrs, acc) == Ok(acc + Strs(pieces))
    decreases |pieces|
  {
    if pieces == [] {
      assert acc + [] == acc;
    } else {
      var head, tail := pieces[0], pieces[1..];
      assert head in pieces;
      assert PieceValue(head, kwargs, attrs) == Ok(Some(Str(head)));
      assert Resolve(pieces, kwargs, attrs, acc) == Resolve(tail, kwargs, attrs, acc + [Str(head)]);
      assert forall p :: p in tail ==> p in pieces;
      ResolveLiterals(tail, kwargs, attrs, acc + [Str(head)]);
      assert Strs(pieces) == [Str(head)] + Strs(tail);
      assert acc + [Str(head)] + Strs(tail) == acc + Strs(pieces);
    }
  }

  /** Each string as a string attribute. */
  function Strs(ss: seq<string>): seq<Attr> {
    if ss == [] then [] else [Str(ss[0])] + Strs(ss[1..])
  }

  /** The strings of `parts`, when every part is a string. */
  function StrParts(parts: seq<Attr>): Option<seq<string>> {
    if parts == [] then Some([])
    else if parts[0].Str? && StrParts(parts[1..]).Some? then Some([parts[0].s] + StrParts(parts[1..]).value)
    else None
  }

  lemma {:induction false} StrPartsWhenAllStrings(parts: seq<Attr>)
    ensures StrParts(parts).Some? <==> forall i :: 0 <= i < |parts| ==> parts[i].Str?
  {
    if parts != [] {
      StrPartsWhenAllStrings(parts[1..]);
      assert forall i :: 1 <= i < |parts| ==> parts[i] == parts[1..][i - 1];
    }
  }

  lemma {:induction false} StrPartsOfStrs(ss: seq<string>)
    ensures StrParts(Strs(ss)) == Some(ss)
  {
    if ss != [] {
      StrPartsOfStrs(ss[1..]);
      assert Strs(ss)[1..] == Strs(ss[1..]);
      assert [ss[0]] + ss[1..] == ss;
    }
  }

  /** `os.path.sep.join(parts)` on POSIX: a TypeError at line 314 when a part is not a string. */
  function JoinPath(parts: seq<Attr>): (r: Result<string>)
    ensures r.Ok? <==> forall i :: 0 <= i < |parts| ==> parts[i].Str?
    ensures r.Err? ==> r.error == TypeError(314)
  {
    StrPartsWhenAllStrings(parts);
    match StrParts(parts)
    case Some(ss) => Ok(JoinWith(ss, "/"))
    case None => Err(TypeError(314))
  }

  lemma JoinStrs(ss: seq<string>)
    ensures JoinPath(Strs(ss)) == Ok(JoinWith(ss, "/"))
  {
    StrPartsOfStrs(ss);
  }

  /** What `_return_path` iterates over: the pieces, the table's keys, or None (a TypeError at line 298). */
  function FormPieces(v: FormulaValue): (r: Result<seq<string>>)
    ensures r.Err? <==> v.Absent?
  {
    match v
    case Pieces(p) => Ok(p)
    case Table(keys, _) => Ok(keys)
    case Absent => Err(TypeError(298))
  }

  /** `_return_path(pieces, **kwargs)`: `normpath` of the contributed values joined with `/`. */
  function ReturnPathSpec(v: FormulaValue, kwargs: Kwargs, attrs: map<string, Attr>): (r: Result<string>)
    ensures r.Ok? ==> r.value != ""
    ensures v.Absent? ==> r == Err(TypeError(298))
  {
    match FormPieces(v)
    case Err(e) => Err(e)
    case Ok(pieces) =>
      match Resolve(pieces, kwargs, attrs, [])
      case Err(e) => Err(e)
      case Ok(parts) =>
        match JoinPath(parts)
        case Err(e) => Err(e)
        case Ok(joined) => Ok(NormPath(joined))
  }

  /** A formula without braces resolves to `normpath` of its pieces joined with `/`. */
  lemma LiteralFormula(pieces: seq<string>, kwargs: Kwargs, attrs: map<string, Attr>)
    requires forall p :: p in pieces ==> '{' !in p
    ensures ReturnPathSpec(Pieces(pieces), kwargs, attrs) == Ok(NormPath(JoinWith(pieces, "/")))
  {
    ResolveLiterals(pieces, kwargs, attrs, []);
    assert [] + Strs(pieces) == Strs(pieces);
    JoinStrs(pieces);
  }

  lemma JoinThree(a: string, b: string, c: string)
    ensures JoinWith([a, b, c], "/") == a + "/" + b + "/" + c
  {
    var t := [a, b, c];
    assert t[1..] == [b, c] && t[1..][1..] == [c];
    assert JoinWith(t[1..], "/") == b + "/" + c;
    assert a + "/" + (b + "/" + c) == a + "/" + b + "/" + c;
  }

  /**
    A formula of a braced name, a literal folder and another braced name, both
    names passed as keyword arguments (as `{drive}` and `{project}` are in the
    repository's single-path test case), resolves to the two values and the
    folder joined with `/` and normalised, whatever the attributes hold.
  */
  lemma KeywordsFillFormula(x: string, folder: string, y: string, kwargs: Kwargs, attrs: map<string, Attr>)
    requires '}' !in x && '\n' !in x && '}' !in y && '\n' !in y && '{' !in folder
    requires x in kwargs && kwargs[x].Some? && y in kwargs && kwargs[y].Some?
    ensures ReturnPathSpec(Pieces(["{" + x + "}", folder, "{" + y + "}"]), kwargs, attrs)
      == Ok(NormPath(kwargs[x].value + "/" + folder + "/" + kwargs[y].value))
  {
    var texts := [kwargs[x].value, folder, kwargs[y].value];
    FillThree(x, folder, y, kwargs, attrs);
    JoinStrs(texts);
    JoinThree(texts[0], folder, texts[2]);
  }

  /** The pieces `{x}`, a folder and `{y}` collect the two keyword values around the folder. */
  lemma FillThree(x: string, folder: string, y: string, kwargs: Kwargs, attrs: map<string, Attr>)
    requires '}' !in x && '\n' !in x && '}' !in y && '\n' !in y && '{' !in folder
    requires x in kwargs && kwargs[x].Some? && y in kwargs && kwargs[y].Some?
    ensures Resolve(["{" + x + "}", folder, "{" + y + "}"], kwargs, attrs, [])
      == Ok(Strs([kwargs[x].value, folder, kwargs[y].value]))
  {
    var texts := [kwargs[x].value, folder, kwargs[y].value];
    KeywordPiece(x, kwargs, attrs);
    KeywordPiece(y, kwargs, attrs);
    var values := [Str(texts[0]), Str(folder), Str(texts[2])];
    assert Strs(texts) == values by {
      assert texts[1..] == [folder, texts[2]] && texts[1..][1..] == [texts[2]];
      assert Strs(texts[1..][1..]) == [values[2]];
    }
    ResolveValues(["{" + x + "}", folder, "{" + y + "}"], kwargs, attrs, values);
  }

  /** A piece `{x}` whose name is a keyword argument with a value gives that value. */
  lemma KeywordPiece(x: string, kwargs: Kwargs, attrs: map<string, Attr>)
    requires '}' !in x && '\n' !in x && x in kwargs && kwargs[x].Some?
    ensures PieceValue("{" + x + "}", kwargs, attrs) == Ok(Some(Str(kwargs[x].value)))
  {
    assert "" + "{" + x + "}" + "" == "{" + x + "}";
    PieceTakesFirstName("", x, "", kwargs, attrs);
  }

  // ---------------------------------------------------------------- PathContext.get_path

  /** The parents are evaluated on the manager in turn and their values discarded; a failure stops the loop. */
  function RunParents(m: Manager, parents: seq<string>, src: Sources): (r: (Manager, Outcome))
    requires Coherent(m)
    ensures Coherent(r.0)
    decreases |parents|
  {
    if parents == [] then (m, Pass)
    else
      var (m1, v) := GetFormulaSpec(m, Formula(parents[0]), src);
      if v.Err? then (m1, Fail(v.error)) else RunParents(m1, parents[1..], src)
  }

  /**
    `PathContext.get_path(formula, *parents, **kwargs)`: a fresh manager reads
    the parents, then the formula, whose value `_return_path` turns into a path.
  */
  function ResolveSpec(src: Sources, parents: seq<string>, formula: string, kwargs: Kwargs, attrs: map<string, Attr>): (r: Result<string>)
    ensures r.Ok? ==> r.value != ""
  {
    var (m1, out) := RunParents(Empty, parents, src);
    if out.Fail? then Err(out.error) else ResolveOn(m1, formula, kwargs, attrs, src)
  }

  /**
    The formula's own step of `get_path`, on the manager the parents left. A
    keyword argument named `formula_pieces` collides with the parameter of
    `_get_form_path`, a TypeError at the call on line 279.
  */
  function ResolveOn(m: Manager, formula: string, kwargs: Kwargs, attrs: map<string, Attr>, src: Sources): (r: Result<string>)
    requires Coherent(m)
    ensures r.Ok? ==> r.value != ""
    ensures r.Ok? ==> "formula_pieces" !in kwargs && "pieces" !in kwargs
  {
    var (_, answer) := GetFormulaSpec(m, Formula(formula), src);
    if answer.Err? then Err(answer.error)
    else if "formula_pieces" in kwargs then Err(TypeError(279))
    else FormPathSpec(answer.value.value, kwargs, attrs)
  }

  /**
    `_get_form_path(formula_pieces, **kwargs)`: a keyword argument named
    `pieces` collides with the parameter of `_return_path`, a TypeError at the
    call on line 284; otherwise the value goes on to `_return_path`.
  */
  function FormPathSpec(v: FormulaValue, kwargs: Kwargs, attrs: map<string, Attr>): (r: Result<string>)
    ensures r.Ok? ==> r.value != "" && "pieces" !in kwargs
    ensures "pieces" !in kwargs ==> r == ReturnPathSpec(v, kwargs, attrs)
  {
    if "pieces" in kwargs then Err(TypeError(284)) else ReturnPathSpec(v, kwargs, attrs)
  }

  // ---------------------------------------------------------------- PipeContext.get_path

  /** The formula argument of `get_path`: one name or a list of names. */
  datatype Formulas = Single(name: string) | Batch(names: seq<string>)

  function NamesOf(f: Formulas): seq<string> {
    match f
    case Single(n) => [n]
    case Batch(ns) => ns
  }

  /** How a formula is resolved against the attributes as they stand. */
  type Resolver = (string, map<string, Attr>) -> Result<string>

  /** `eval_path` with fixed parents, keyword arguments and configuration sources. */
  function Resolving(src: Sources, parents: seq<string>, kwargs: Kwargs): Resolver {
    (f: string, attrs: map<string, Attr>) => ResolveSpec(src, parents, f, kwargs, attrs)
  }

  /** A resolver whose paths are never empty, as `normpath` guarantees. */
  ghost predicate NonEmptyPaths(resolve: Resolver) {
    forall f, attrs :: resolve(f, attrs).Ok? ==> resolve(f, attrs).value != ""
  }

  lemma ResolvingNonEmpty(src: Sources, parents: seq<string>, kwargs: Kwargs)
    ensures NonEmptyPaths(Resolving(src, parents, kwargs))
  {
    var resolve := Resolving(src, parents, kwargs);
    forall f, attrs | resolve(f, attrs).Ok? ensures resolve(f, attrs).value != "" {
      assert resolve(f, attrs) == ResolveSpec(src, parents, f, kwargs, attrs);
    }
  }

  /**
    The evaluation loop inside the `with` block: each formula is resolved
    against the attributes as they stand and becomes the current path; the
    first failure stops the loop.
  */
  function EvalAll(formulas: seq<string>, resolve: Resolver, st: Settings, c: Ctx): (r: (Ctx, Outcome))
    ensures |c.history| <= |r.0.history| && r.0.history[..|c.history|] == c.history
    ensures formulas == [] ==> r == (c, Pass)
    decreases |formulas|
  {
    if formulas == [] then (c, Pass)
    else
      match resolve(formulas[0], AttrDict(st, c))
      case Err(e) => (c, Fail(e))
      case Ok(path) =>
        var c1 := SetRule(c, path);
        var r := EvalAll(formulas[1..], resolve, st, c1);
        assert r.0.history[..|c.history|] == r.0.history[..|c1.history|][..|c.history|];
        r
  }

  /** One turn of the evaluation loop, for a resolver result `r` of the formula at `i`. */
  lemma EvalAllStep(formulas: seq<string>, i: nat, resolve: Resolver, st: Settings, c: Ctx, r: Result<string>)
    requires i < |formulas| && r == resolve(formulas[i], AttrDict(st, c))
    ensures EvalAll(formulas[i..], resolve, st, c) ==
      if r.Err? then (c, Fail(r.error)) else EvalAll(formulas[i + 1..], resolve, st, SetRule(c, r.value))
  {
    assert formulas[i..][0] == formulas[i] && formulas[i..][1..] == formulas[i + 1..];
  }

  /** The context `get_path` evaluates in: the keyword arguments' attributes, entered once. */
  function Entered(kwargs: Kwargs, osName: string): (r: Ctx)
    ensures r == Ctx(SettingsOf(kwargs, osName).drive, [])
  {
    InitRule(Ctx(None, []), SettingsOf(kwargs, osName).drive)
  }

  /**
    `PipeContext.get_path(formula, *parents, **kwargs)`: enter, evaluate, and
    return the current path. On a failure `__exit__` returns the current path,
    so a truthy one swallows the error and the call returns None. A keyword
    argument named `self` collides with the parameter of `__init__`, a
    TypeError at line 140, before the `with` block.
  */
  function GetPathSpec(formula: Formulas, parents: seq<string>, kwargs: Kwargs, osName: string, src: Sources): (r: Result<Option<string>>)
    ensures "self" in kwargs ==> r == Err(TypeError(140))
  {
    if "self" in kwargs then Err(TypeError(140))
    else
      var (c, out) := EvalAll(NamesOf(formula), Resolving(src, parents, kwargs), SettingsOf(kwargs, osName), Entered(kwargs, osName));
      if out.Pass? then Ok(c.current)
      else if Truthy(c.current) then Ok(None)
      else Err(out.error)
  }

  /** A batch keeps the chain and only extends the history. */
  lemma {:induction false} EvalAllKeepsChain(formulas: seq<string>, resolve: Resolver, st: Settings, c: Ctx)
    requires NonEmptyPaths(resolve) && Chained(c)
    ensures var r := EvalAll(formulas, resolve, st, c).0;
      && Chained(r)
      && |c.history| <= |r.history| && r.history[..|c.history|] == c.history
    decreases |formulas|
  {
    if formulas != [] {
      match resolve(formulas[0], AttrDict(st, c))
      case Err(_) =>
      case Ok(path) =>
        var c1 := SetRule(c, path);
        SetKeepsChain(c, path);
        SetExtendsHistory(c, path);
        EvalAllKeepsChain(formulas[1..], resolve, st, c1);
        var r := EvalAll(formulas[1..], resolve, st, c1).0;
        assert r.history[..|c.history|] == r.history[..|c1.history|][..|c.history|];
    }
  }

  /** Once the current path is truthy it stays truthy through a batch. */
  lemma {:induction false} EvalAllKeepsTruthy(formulas: seq<string>, resolve: Resolver, st: Settings, c: Ctx)
    requires NonEmptyPaths(resolve) && Truthy(c.current)
    ensures Truthy(EvalAll(formulas, resolve, st, c).0.current)
    decreases |formulas|
  {
    if formulas != [] {
      match resolve(formulas[0], AttrDict(st, c))
      case Err(_) =>
      case Ok(path) =>
        EvalAllKeepsTruthy(formulas[1..], resolve, st, SetRule(c, path));
    }
  }

  /**
    A batch that succeeds ends with the last formula's path as the current
    path, resolved against the context the earlier formulas left.
  */
  lemma {:induction false} EvalAllLast(formulas: seq<string>, f: string, resolve: Resolver, st: Settings, c: Ctx)
    requires EvalAll(formulas + [f], resolve, st, c).1 == Pass
    ensures var last := resolve(f, AttrDict(st, EvalAll(formulas, resolve, st, c).0));
      && last.Ok?
      && EvalAll(formulas + [f], resolve, st, c).0.current == Some(last.value)
    decreases |formulas|
  {
    if formulas == [] {
      assert [] + [f] == [f];
      assert [f][1..] == [];
    } else {
      var all := formulas + [f];
      assert all[0] == formulas[0] && all[1..] == formulas[1..] + [f];
      match resolve(formulas[0], AttrDict(st, c))
      case Err(_) =>
      case Ok(path) =>
        EvalAllLast(formulas[1..], f, resolve, st, SetRule(c, path));
    }
  }

  /**
    Whatever goes wrong inside the `with` block, `get_path` with a non-empty
    drive returns None rather than raising; when nothing goes wrong it returns
    the current path.
  */
  lemma NeverRaisesWithDrive(formula: Formulas, parents: seq<string>, kwargs: Kwargs, osName: string, src: Sources)
    requires Truthy(SettingsOf(kwargs, osName).drive) && "self" !in kwargs
    ensures var (c, out) := EvalAll(NamesOf(formula), Resolving(src, parents, kwargs), SettingsOf(kwargs, osName), Entered(kwargs, osName));
      GetPathSpec(formula, parents, kwargs, osName, src) == if out.Fail? then Ok(None) else Ok(c.current)
  {
    ResolvingNonEmpty(src, parents, kwargs);
    EvalAllKeepsTruthy(NamesOf(formula), Resolving(src, parents, kwargs), SettingsOf(kwargs, osName), Entered(kwargs, osName));
  }

  /** Without a `drive` keyword the default drive is the OS name, so a non-empty name never lets an error escape. */
  lemma DefaultDriveSwallowsErrors(formula: Formulas, parents: seq<string>, kwargs: Kwargs, osName: string, src: Sources)
    requires "drive" !in kwargs && osName != "" && "self" !in kwargs
    ensures GetPathSpec(formula, parents, kwargs, osName, src).Ok?
  {
    NeverRaisesWithDrive(formula, parents, kwargs, osName, src);
  }

  /** The history `get_path` builds never holds the same path twice in a row. */
  lemma GetPathChained(formula: Formulas, parents: seq<string>, kwargs: Kwargs, osName: string, src: Sources)
    ensures Chained(EvalAll(NamesOf(formula), Resolving(src, parents, kwargs), SettingsOf(kwargs, osName), Entered(kwargs, osName)).0)
  {
    ResolvingNonEmpty(src, parents, kwargs);
    EvalAllKeepsChain(NamesOf(formula), Resolving(src, parents, kwargs), SettingsOf(kwargs, osName), Entered(kwargs, osName));
  }

  /** A batch's result is the last formula's path only; the earlier ones just move the context along. */
  lemma BatchReturnsLast(formulas: seq<string>, f: string, parents: seq<string>, kwargs: Kwargs, osName: string, src: Sources)
    requires "self" !in kwargs
    requires EvalAll(formulas + [f], Resolving(src, parents, kwargs), SettingsOf(kwargs, osName), Entered(kwargs, osName)).1 == Pass
    ensures var st := SettingsOf(kwargs, osName);
      var before := EvalAll(formulas, Resolving(src, parents, kwargs), st, Entered(kwargs, osName)).0;
      var last := ResolveSpec(src, parents, f, kwargs, AttrDict(st, before));
      last.Ok? && GetPathSpec(Batch(formulas + [f]), parents, kwargs, osName, src) == Ok(Some(last.value))
  {
    EvalAllLast(formulas, f, Resolving(src, parents, kwargs), SettingsOf(kwargs, osName), Entered(kwargs, osName));
  }

  /** A keyword argument named `pieces` or `formula_pieces` makes every formula fail to resolve. */
  lemma ClashingKeywordsFail(src: Sources, parents: seq<string>, formula: string, kwargs: Kwargs, attrs: map<string, Attr>)
    requires "pieces" in kwargs || "formula_pieces" in kwargs
    ensures ResolveSpec(src, parents, formula, kwargs, attrs).Err?
  {
    var (m1, out) := RunParents(Empty, parents, src);
    if out.Pass? {
      var r := ResolveOn(m1, formula, kwargs, attrs, src);
      assert r.Ok? ==> "formula_pieces" !in kwargs && "pieces" !in kwargs;
    }
  }

  /**
    With such a keyword and a non-empty drive, `get_path` of a formula the
    error is swallowed and the call returns None.
  */
  lemma ClashingKeywordsGiveNone(f: string, parents: seq<string>, kwargs: Kwargs, osName: string, src: Sources)
    requires "pieces" in kwargs || "formula_pieces" in kwargs
    requires Truthy(SettingsOf(kwargs, osName).drive) && "self" !in kwargs
    ensures GetPathSpec(Single(f), parents, kwargs, osName, src) == Ok(None)
  {
    var st := SettingsOf(kwargs, osName);
    var c := Entered(kwargs, osName);
    var resolve := Resolving(src, parents, kwargs);
    ClashingKeywordsFail(src, parents, f, kwargs, AttrDict(st, c));
    assert resolve(f, AttrDict(st, c)) == ResolveSpec(src, parents, f, kwargs, AttrDict(st, c));
    EvalAllStep([f], 0, resolve, st, c, resolve(f, AttrDict(st, c)));
    assert [f][0..] == [f];
  }

  // ---------------------------------------------------------------- the objects

  /** The context object: the current path and the history change in place. */
  class PipeContext {
    var current: Option<string>
    var history: seq<string>
    /** The attributes `__init__` sets; the core never reassigns them. */
    const settings: Settings

    function State(): Ctx
      reads this
    {
      Ctx(current, history)
    }

    function Dict(): map<string, Attr>
      reads this
    {
      AttrDict(settings, State())
    }

    /** `PipeContext(**kwargs)`, with `PIPELINE.OS` given as `osName`. */
    constructor(kwargs: Kwargs, osName: string)
      ensures settings == SettingsOf(kwargs, osName)
      ensures current == None && history == []
    {
      settings := SettingsOf(kwargs, osName);
      current := None;
      history := [];
    }

    /** The `context` setter. */
    method SetContext(path: string)
      modifies this
      ensures State() == SetRule(old(State()), path)
    {
      var currentContext := current;
      if currentContext.Some? && currentContext.value != "" {
        if path != currentContext.value {
          history := history + [currentContext.value];
        }
      }
      current := Some(path);
    }

    /** The `old_context` setter. */
    method SetOldContext(v: HistoryArg)
      modifies this
      ensures State() == SetHistoryRule(old(State()), v)
    {
      match v
      case Item(s) => history := history + [s];
      case Items(items) => history := items;
      case Other =>
    }

    /** `context_init`. */
    method ContextInit()
      modifies this
      ensures State() == InitRule(old(State()), settings.drive)
    {
      if !(current.Some? && current.value != "") && settings.drive.Some? {
        SetContext(settings.drive.value);
      }
    }

    /** `__enter__`: the same step as `context_init`. */
    method Enter()
      modifies this
      ensures State() == InitRule(old(State()), settings.drive)
    {
      ContextInit();
    }

    /**
      `__exit__`: the test `context == old_context[-1:]` compares a string with
      a list and never holds, so nothing is popped; the current path is returned.
    */
    method Exit() returns (r: Option<string>)
      ensures r == current
    {
      r := current;
    }

    /** `eval_path(formula, *parents, **kwargs)`: resolve and make the result current. */
    method EvalPath(formula: string, parents: seq<string>, kwargs: Kwargs, src: Sources) returns (r: Result<string>)
      modifies this
      ensures r == ResolveSpec(src, parents, formula, kwargs, old(Dict()))
      ensures State() == if r.Ok? then SetRule(old(State()), r.value) else old(State())
    {
      var pcontext := new PathContext(this);
      r := pcontext.GetPath(formula, parents, kwargs, src);
      if r.Ok? {
        SetContext(r.value);
      }
    }

    /** `PipeContext.get_path(formula, *parents, **kwargs)`. */
    static method GetPath(formula: Formulas, parents: seq<string>, kwargs: Kwargs, osName: string, src: Sources)
      returns (r: Result<Option<string>>)
      ensures r == GetPathSpec(formula, parents, kwargs, osName, src)
    {
      if "self" in kwargs {
        return Err(TypeError(140));
      }
      var pc := new PipeContext(kwargs, osName);
      pc.Enter();
      var out := pc.EvalFormulas(NamesOf(formula), parents, kwargs, src);
      var result := pc.current;
      var exit := pc.Exit();
      if out.Fail? {
        if exit.Some? && exit.value != "" {
          return Ok(None);
        }
        return Err(out.error);
      }
      return Ok(result);
    }

    /** The loop of `get_path` inside the `with` block. */
    method EvalFormulas(formulas: seq<string>, parents: seq<string>, kwargs: Kwargs, src: Sources) returns (out: Outcome)
      modifies this
      ensures (State(), out) == EvalAll(formulas, Resolving(src, parents, kwargs), settings, old(State()))
    {
      ghost var resolve := Resolving(src, parents, kwargs);
      ghost var c0 := State();
      var i := 0;
      while i < |formulas|
        invariant 0 <= i <= |formulas|
        invariant EvalAll(formulas[i..], resolve, settings, State()) == EvalAll(formulas, resolve, settings, c0)
      {
        ghost var c := State();
        assert resolve(formulas[i], AttrDict(settings, c)) == ResolveSpec(src, parents, formulas[i], kwargs, Dict());
        var path := EvalPath(formulas[i], parents, kwargs, src);
        EvalAllStep(formulas, i, resolve, settings, c, path);
        if path.Err? {
          return Fail(path.error);
        }
        i := i + 1;
      }
      return Pass;
    }
  }

  /** Resolves one formula against a context object. */
  class PathContext {
    const pipeContext: PipeContext

    constructor(pipeContext: PipeContext)
      ensures this.pipeContext == pipeContext
    {
      this.pipeContext := pipeContext;
    }

    /** `get_path(formula, *parents, **kwargs)`. */
    method GetPath(formula: string, parents: seq<string>, kwargs: Kwargs, src: Sources) returns (r: Result<string>)
      ensures r == ResolveSpec(src, parents, formula, kwargs, pipeContext.Dict())
    {
      var manager := new FormulaManager(src);
      var out := ReadParents(manager, parents);
      if out.Fail? {
        return Err(out.error);
      }
      var answer := manager.GetFormula(Formula(formula));
      if answer.Err? {
        return Err(answer.error);
      }
      if "formula_pieces" in kwargs {
        return Err(TypeError(279));
      }
      r := GetFormPath(answer.value.value, kwargs);
    }

    /** The loop of `get_path` over the parents, whose values are discarded. */
    method ReadParents(manager: FormulaManager, parents: seq<string>) returns (out: Outcome)
      requires manager.Valid()
      modifies manager
      ensures manager.Valid()
      ensures (manager.State(), out) == RunParents(old(manager.State()), parents, manager.sources)
    {
      ghost var m0 := manager.State();
      var i := 0;
      while i < |parents|
        invariant 0 <= i <= |parents| && manager.Valid()
        invariant RunParents(manager.State(), parents[i..], manager.sources) == RunParents(m0, parents, manager.sources)
      {
        assert parents[i..][0] == parents[i] && parents[i..][1..] == parents[i + 1..];
        var v := manager.GetFormula(Formula(parents[i]));
        if v.Err? {
          return Fail(v.error);
        }
        i := i + 1;
      }
      return Pass;
    }

    /** `_get_form_path`: passes the value on to `_return_path`. */
    method GetFormPath(v: FormulaValue, kwargs: Kwargs) returns (r: Result<string>)
      ensures r == FormPathSpec(v, kwargs, pipeContext.Dict())
    {
      if "pieces" in kwargs {
        return Err(TypeError(284));
      }
      r := ReturnPath(v, kwargs);
    }

    /** `_return_path(pieces, **kwargs)`. */
    method ReturnPath(v: FormulaValue, kwargs: Kwargs) returns (r: Result<string>)
      ensures r == ReturnPathSpec(v, kwargs, pipeContext.Dict())
    {
      var pieces: seq<string>;
      match v {
        case Pieces(p) => pieces := p;
        case Table(keys, _) => pieces := keys;
        case Absent => return Err(TypeError(298));
      }
      var attrs := pipeContext.Dict();
      var path: seq<Attr> := [];
      var i := 0;
      while i < |pieces|
        invariant 0 <= i <= |pieces|
        invariant Resolve(pieces[i..], kwargs, attrs, path) == Resolve(pieces, kwargs, attrs, [])
      {
        assert pieces[i..][0] == pieces[i] && pieces[i..][1..] == pieces[i + 1..];
        var piece := pieces[i];
        i := i + 1;
        if '{' !in piece {
          path := path + [Str(piece)];
          continue;
        }
        var cleaned := FirstBracket(piece);
        if cleaned.None? {
          return Err(IndexError(306));
        }
        if cleaned.value in kwargs {
          path := path + [OptionAttr(kwargs[cleaned.value])];
        } else if cleaned.value in attrs {
          path := path + [attrs[cleaned.value]];
        }
      }
      var joined := JoinPath(path);
      if joined.Err? {
        return Err(joined.error);
      }
      return Ok(NormPath(joined.value));
    }
  }
}
