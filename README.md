# asset-engine path resolution, modelled in Dafny

The core of asset-engine turns pipeline *formulas* into paths on disk. A
formula is one line of a configuration file. For example,
`pr_base_dir = ('{pipe_base_dir}', 'projects', '{project}')` names a formula
and lists its pieces.

- **`FormulaManager`** (path_lib.py) reads, splits, cleans and expands the
  formulas. It does this in three steps:
  - it reads the base formula file, and the project or asset file depending
    on the name asked for;
  - it splits each line at ` = `, strips quotes, commas and parentheses from
    the value, and splices a referenced formula into each namespaced value;
  - it returns the requested value as a list of pieces.
- **`PipeContext`** (pipe_context.py) holds the attributes of one request
  (drive, project, asset, ...), the current path and the history of earlier
  paths. Its class method `get_path` evaluates one formula or a list of
  formulas, one after another, inside a `with` block.
- **`PathContext`** resolves one formula:
  - it runs a fresh manager on the parent formulas, then on the formula;
  - it fills each braced piece from the keyword arguments or from the
    context's attributes;
  - it joins the pieces with `/` and normalises the result with
    `os.path.normpath`.
- **pipe_enums.py** holds the enumerations around this: each operating
  system's drive, the disks, the disciplines, the rig types, and the
  human-readable file sizes of `FileSize.size`.

The project has six modules, one per file:

- `Wrappers`: `Option`, `Result`, and the Python exceptions the core raises,
  each tagged with the source line that raises it.
- `Text`: the Python string operations the core uses:
  - `in`, `strip()`, `split()`, `split(sep)`, `join` and `replace`;
  - the first `{...}` match of the two regular expressions;
  - `str(int)`.
- `PosixPath`: `os.path.normpath` for POSIX.
- `PathLib`: the formula manager.
- `Contexts`: `PipeContext` and `PathContext`.
- `PipeEnums`: the enumerations and `FileSize`.

How each form is modelled:

- **Classes with state.** The source objects that change state in place are
  Dafny classes:
  - `FormulaManager` has the fields `all_formulas`, `formulas_dict` and
    `formulas`;
  - `PipeContext` has `_context` and `_old_context`;
  - `PIPE_OS` has `os` and `drive`.

  Each of their methods is proved to produce exactly the state, and the
  result, that a pure specification function gives. The properties are then
  proved about those functions.
- **Loops.** The source's loops are Dafny loops, each with its invariants:
  - the reading and splitting loops;
  - the cleaning and expanding loops;
  - the list loop of `get_formula`;
  - the parent and formula loops of `get_path`;
  - the pieces loop of `_return_path`;
  - the unit search of `size`.

### Behaviour that follows the code

Where the code and its comments or documentation disagree, the model follows
the code.

- **`PipeContext.__init__`** (pipe_context.py:66-67) defaults the drive to
  `PIPELINE.OS`, the operating system's *name*, not to `PIPELINE.DRIVE`.
- **`get_formula(None)`** fails with a TypeError at path_lib.py:120 after
  reading the base file. The comment says it returns all formulas. Only the
  empty name `""` returns the whole dictionary.
- **`__exit__`** (pipe_context.py:96) compares the current path, a string,
  with the list slice `old_context[-1:]`. So it never pops. It returns the
  current path, so any truthy current path suppresses an exception raised in
  the `with` block, and `get_path` then returns None. The setter's test at
  line 199 has the same mismatch and always holds.
- **`expand_formulas`** (path_lib.py):
  - it looks up the referenced formula at line 190 before the membership test
    at line 193, so an unknown reference raises KeyError rather than being
    skipped;
  - a namespaced value without any `{...}` raises IndexError at line 185.
- **`get_formula` on a list** (path_lib.py:56-63): for the empty name
  `parse_formulas` returns the manager's dictionary object itself
  (path_lib.py:141-143). Each later name in the list changes that dictionary
  in place, so every such entry of the returned list shows the dictionary as
  the last name left it, not as it stood when the entry was appended.
- **Keyword arguments named like a parameter.** `get_path` passes its keyword
  arguments on to `PipeContext(**kwargs)`, `_get_form_path` and
  `_return_path`. A keyword named `self` raises TypeError at
  pipe_context.py:140, before the `with` block, so it escapes. A keyword named
  `formula_pieces` or `pieces` raises TypeError at line 279 or 284, inside the
  block, where `__exit__` may swallow it.
- **`FileSize`**: its class documentation gives `2MB` for two million bytes in
  the alternative system. The code gives `1 MB`: the factor is 1024², and
  `int()` truncates 1.9 to 1.

## Model

| member | source | states |
|---|---|---|
| Text.Strip | path_lib.py:89 | `line.strip()` is no longer than the line and neither starts nor ends with whitespace |
| Text.StripSlice | path_lib.py:89 | `line.strip()` is the slice of the line between its leading and its trailing whitespace, and only whitespace lies outside it |
| Text.TrimLeft | path_lib.py:89 | the left half of `strip()` is no longer than the line and does not start with whitespace |
| Text.TrimRight | path_lib.py:89 | the right half of `strip()` is no longer than its input and does not end with whitespace |
| Text.TrimLeftSuffix | path_lib.py:89 | what the left half keeps is a suffix of the line, and everything it drops is whitespace |
| Text.TrimRightPrefix | path_lib.py:89 | what the right half keeps is a prefix of its input, and everything it drops is whitespace |
| Text.StripIdempotent | path_lib.py:89 | stripping an already stripped line gives it back |
| Text.StripKeeps | path_lib.py:89-92 | stripping never adds a character, so a line without `#` keeps none after `strip()` |
| Text.Words | path_lib.py:140 | every piece of `str.split()` is non-empty and holds no whitespace |
| Text.WordsJoin | path_lib.py:140 | splitting words joined by single spaces gives the words back |
| Text.JoinWith | pipe_context.py:314 | `sep.join(parts)` is at least as long as each part, and with two or more parts at least as long as the first part and one separator |
| Text.SplitOn | path_lib.py:151 | `str.split(sep)` always gives at least one piece |
| Text.JoinSplit | path_lib.py:151 | joining the pieces of `split(sep)` with `sep` rebuilds the string |
| Text.SplitSingle | path_lib.py:151-152 | `split(sep)` gives a single piece exactly when the separator does not occur |
| Text.SplitPiecesFree | path_lib.py:151 | no piece of `split(sep)` contains the separator |
| Text.SplitHeadFirst | path_lib.py:151-152 | `split(sep)` cuts at the leftmost occurrence: no occurrence of the separator starts inside the first piece, and one starts right after it when there are more pieces |
| Text.SplitTail | path_lib.py:151-152 | the pieces after the first are the split of what follows the separator that ends the first piece |
| Text.ReplaceIsJoinOfSplit | path_lib.py:196 | `replace(pat, rep)` is the pieces of `split(pat)` joined with `rep` |
| Text.ReplaceAbsent | path_lib.py:196 | replacing a pattern that does not occur changes nothing |
| Text.ReplaceAll | path_lib.py:196 | replacing a pattern by itself changes nothing |
| Text.Without | path_lib.py:163-166 | `s` with every `c` deleted: no `c` is left, no other character is added, and `s` is unchanged when it holds no `c` |
| Text.ReplaceCharByNothing | path_lib.py:163-166 | `replace(c, '')` is removal of every `c` |
| Text.FirstBracket | path_lib.py:184-185 | the first `{...}` match is a braced substring without `}` or newline, and there is none without `{` |
| Text.FirstBracketOf | pipe_context.py:306 | the first match of `x + "{" + name + "}" + y`, with no `{` in `x`, is exactly `name` |
| Text.NatToString | pipe_enums.py:183 | `str(n)` of a natural number is a non-empty run of decimal digits |
| Text.ParseNatToString | pipe_enums.py:183 | reading back `str(n)` gives `n` |
| Text.IntToString | pipe_enums.py:183 | `str(i)` is non-empty, starts with `-` exactly for a negative number, and is decimal digits after that |
| Text.ParseIntToString | pipe_enums.py:183 | the digits of `str(i)` read back as the magnitude of `i` |
| Text.Contains | path_lib.py:120-123 | `sub in s` holds only when `sub` is no longer than `s` |
| Text.ContainsAt | path_lib.py:120-123 | `sub in s` holds exactly when `sub` occurs at some position of `s` |
| PosixPath.Root | pipe_context.py:314 | the root normpath keeps is empty, `/` or `//`, is a prefix of the path, and is non-empty exactly when the path starts with `/` |
| PosixPath.NormPath | pipe_context.py:314 | `os.path.normpath` never returns the empty string |
| PosixPath.Fold | pipe_context.py:314 | the component loop of normpath keeps no more components than it started with plus the pieces it reads |
| PosixPath.NormPathNormal | pipe_context.py:314 | the components normpath keeps are never empty, `.` or slash-bearing, and `..` survives only at the front of a relative path |
| PosixPath.NormPathOfNormal | pipe_context.py:314 | a path that is already normal comes back unchanged |
| PosixPath.NormPathIdempotent | pipe_context.py:314 | normalising twice is normalising once |
| PosixPath.NormPathAbsolute | pipe_context.py:314 | the result starts with `/` exactly when the input does |
| PathLib.RemoveFirst | path_lib.py:93 | `list.remove(x)` takes out one occurrence of `x` and leaves the list unchanged when `x` is absent |
| PathLib.RemoveJustAppended | path_lib.py:91-93 | removing the line just appended, when no earlier line equals it, restores the list |
| PathLib.Kept | path_lib.py:85-94 | every kept line holds the marker and no `#`, and there are no more kept lines than read |
| PathLib.KeptStep | path_lib.py:88-93 | one more line keeps that line stripped exactly when it holds the marker and no `#` |
| PathLib.KeptMembers | path_lib.py:85-115 | a string is kept exactly when it is the strip of some line, holds the marker and holds no `#` |
| PathLib.KeptAppend | path_lib.py:85-115 | reading two runs of lines keeps what each run keeps, in order |
| PathLib.ReadSpec | path_lib.py:117-126 | reading changes only `all_formulas`, leaves no comment line, and raises TypeError(120) exactly for None, after the base read |
| PathLib.ReadSources | path_lib.py:117-126 | a name reads the base lines, then the project lines exactly when it is empty or holds `pr_`, then the asset lines exactly when it is empty or holds `as_` |
| PathLib.ReadEmptyName | path_lib.py:124-126 | the empty name reads the base, project and asset sources in that order |
| PathLib.ReadBothNamespaces | path_lib.py:120-123 | a name holding both `pr_` and `as_` reads all three sources |
| PathLib.PrAsTypeDirReadsAll | path_lib.py:120-123 | `pr_as_type_dir` reads all three sources |
| PathLib.ReadBaseOnly | path_lib.py:117-126 | a non-empty name with neither marker reads the base source only |
| PathLib.SplitLine | path_lib.py:151-152 | a line splits exactly when it contains ` = `, and otherwise raises IndexError(152) |
| PathLib.SplitLineShape | path_lib.py:151-152 | name and value hold no ` = `, and the line is `name = value` or begins with `name = value = `; the name ends where the first ` = ` starts, and no ` = ` starts inside the value, so the value ends at the second ` = ` or the end of the line |
| PathLib.SplitAll | path_lib.py:146-155 | splitting leaves `all_formulas` alone and keeps a coherent manager coherent: the table's keys are the listed names |
| PathLib.SplitAllSucceeds | path_lib.py:150-152 | splitting succeeds exactly when every line contains ` = `, and fails only with IndexError(152) |
| PathLib.SplitAllAppend | path_lib.py:150-153 | splitting two runs of lines is splitting the first and then the second, stopping at a failure |
| PathLib.SplitAllOtherNames | path_lib.py:152 | a name that no line defines keeps its previous value |
| PathLib.LastDefinitionWins | path_lib.py:152 | when a name is defined more than once, the last definition is its value |
| PathLib.SplitAllNames | path_lib.py:153 | `formulas` grows by one name per line, in order, duplicates included |
| PathLib.CleanValue | path_lib.py:162-167 | a cleaned value holds no `,`, `'`, `(` or `)` and neither starts nor ends with whitespace |
| PathLib.CleanIdempotent | path_lib.py:162-167 | cleaning a cleaned value changes nothing |
| PathLib.CleanAll | path_lib.py:158-170 | cleaning keeps the table's keys |
| PathLib.CleanAllCleansEach | path_lib.py:161-168 | every listed name's value is cleaned and every other value stays unchanged |
| PathLib.ExpandOne | path_lib.py:177-197 | expanding one name keeps the keys and changes no other name's value |
| PathLib.ExpandAll | path_lib.py:173-197 | expanding keeps the table's keys |
| PathLib.ExpandOneCases | path_lib.py:177-197 | a failure comes only from a marked value: IndexError(185) exactly when it has no `{...}`, otherwise a KeyError for its first, unknown, non-empty name; a changed value is the original's pieces around `{x}` rejoined with the value of a known `x` |
| PathLib.ExpandAllStep | path_lib.py:177-197 | one unfolding of `ExpandAll` at a position, used by the loop proof of `FormulaManager.ExpandFormulas`: that name's expansion step, then the rest on the step's table, unless the step fails |
| PathLib.ExpandUnmarked | path_lib.py:178-181 | a value without `pipe_`, `pr_` or `as_` is left alone |
| PathLib.ExpandSplices | path_lib.py:184-197 | a marked value whose first reference is known gets every occurrence of that reference replaced by its value |
| PathLib.ExpandUnknown | path_lib.py:190 | a marked value whose first reference is unknown raises KeyError for it |
| PathLib.Dedup | path_lib.py:142-143 | the dictionary's keys are the listed names, each once |
| PathLib.DedupSnoc | path_lib.py:152-153 | one more name adds a new key at the end, and a name already listed leaves the keys and their order alone |
| PathLib.DedupPrefix | path_lib.py:152-153 | the keys of a longer list start with the keys of its prefix, in first-occurrence order |
| PathLib.ParseSpec | path_lib.py:129-143 | parsing keeps the manager coherent and leaves `all_formulas` alone |
| PathLib.ParseAnswers | path_lib.py:137-143 | a present name gives its value's words, an absent one None, and the empty name the whole table with distinct keys |
| PathLib.PiecesRejoin | path_lib.py:140 | joining the pieces with single spaces and splitting again gives the same pieces |
| PathLib.ReadParse | path_lib.py:66-68 | reading and parsing one name keeps the manager coherent |
| PathLib.GetList | path_lib.py:56-63 | a successful list request gives one value per name, every entry for the empty name is the one shared dictionary as the last name left it, and the manager stays coherent |
| PathLib.GetFormulaSpec | path_lib.py:52-75 | a name gives one value, a list a list, and None raises TypeError(120) |
| PathLib.FormulaManager.constructor | path_lib.py:40-50 | a new manager has no lines, an empty table and no names, and holds the given sources |
| PathLib.FormulaManager.ReadBase | path_lib.py:85-94 | `_read` replaces `all_formulas` by the kept base lines |
| PathLib.FormulaManager.ReadNamespace | path_lib.py:96-115 | `_read_projects` and `_read_assets` append the kept lines for their marker |
| PathLib.FormulaManager.ReadFormulas | path_lib.py:77-126 | `read_formulas` produces the state and outcome of `ReadSpec` |
| PathLib.FormulaManager.SplitFormulas | path_lib.py:146-155 | `split_formulas` produces the state and outcome of `SplitAll` |
| PathLib.FormulaManager.CleanFormulas | path_lib.py:158-170 | `clean_formulas` sets the table to `CleanAll` |
| PathLib.FormulaManager.ExpandFormulas | path_lib.py:173-197 | `expand_formulas` produces the table and outcome of `ExpandAll` and changes nothing else |
| PathLib.FormulaManager.ExpandEntry | path_lib.py:177-197 | one turn of the loop fails as `ExpandOne` fails, leaving the table alone, or sets the table to `ExpandOne`'s table |
| PathLib.FormulaManager.ParseFormulas | path_lib.py:129-143 | `parse_formulas` produces the state and value of `ParseSpec` |
| PathLib.FormulaManager.GetFormula | path_lib.py:52-75 | `get_formula` produces the state and answer of `GetFormulaSpec` |
| Contexts.SettingsOf | pipe_context.py:57-70 | without a keyword the drive is the OS name and the context area is `pipeline` |
| Contexts.SettingsDefaults | pipe_context.py:62-68 | with no keywords every attribute takes its default |
| Contexts.SetRule | pipe_context.py:191-204 | the new path becomes current, and the history grows by the old path exactly when that was truthy and different |
| Contexts.InitRule | pipe_context.py:73-84 | entering sets the drive as current only when there is no truthy current path and a drive, and never touches the history |
| Contexts.SetHistoryRule | pipe_context.py:219-224 | a string is appended to the history, a list replaces it, and anything else changes nothing |
| Contexts.SetKeepsChain | pipe_context.py:191-204 | setting a non-empty path keeps the history free of adjacent repeats, and it never ends with the current path |
| Contexts.SetExtendsHistory | pipe_context.py:191-204 | the setter only ever appends to the history |
| Contexts.Compress | pipe_context.py:191-204 | the collapsed trail is never longer than the trail and ends with its last path |
| Contexts.SetFollowsTrail | pipe_context.py:191-204 | the history followed by the current path is the trail of every path set, with repeats collapsed |
| Contexts.AttrDict | pipe_context.py:57-70 | `__dict__` holds `_context` as the current path and `drive` as the drive setting |
| Contexts.PieceValue | pipe_context.py:298-309 | a piece fails with IndexError(306) exactly when it holds `{` but no complete `{...}` |
| Contexts.PieceTakesFirstName | pipe_context.py:303-309 | a braced piece contributes its first name's value, keyword arguments first, then attributes, else nothing, and its surrounding text is dropped |
| Contexts.Resolve | pipe_context.py:298-312 | the pieces loop adds at most one value per piece, and fails only with IndexError(306) |
| Contexts.ResolveAcc | pipe_context.py:297-312 | the loop keeps what it has collected: starting from some values gives those values followed by what starting afresh gives |
| Contexts.ResolveCons | pipe_context.py:298-312 | each piece puts its own value, if any, in front of what the remaining pieces give, and an incomplete `{` stops the loop |
| Contexts.ResolveValues | pipe_context.py:298-312 | when every piece, literal or braced, has a value, the loop collects exactly those values in order |
| Contexts.ResolveLiterals | pipe_context.py:300-302 | pieces without braces pass through as they are |
| Contexts.StrPartsWhenAllStrings | pipe_context.py:314 | the parts can be joined exactly when every part is a string |
| Contexts.JoinPath | pipe_context.py:314 | joining succeeds exactly when every part is a string, and otherwise raises TypeError(314) |
| Contexts.FormPieces | pipe_context.py:298 | iterating the formula's value fails exactly for a missing formula's None |
| Contexts.ReturnPathSpec | pipe_context.py:287-314 | a resolved path is never empty, and a missing formula raises TypeError(298) |
| Contexts.LiteralFormula | pipe_context.py:287-314 | a formula without braces resolves to the normpath of its pieces joined with `/` |
| Contexts.KeywordsFillFormula | pipe_context.py:287-314 | `{x}`, a folder and `{y}`, with both names passed as keyword arguments, resolve to the normpath of the two values and the folder joined with `/` |
| Contexts.RunParents | pipe_context.py:274-277 | running the parents keeps the manager coherent |
| Contexts.ResolveSpec | pipe_context.py:263-279 | a formula that resolves gives a non-empty path |
| Contexts.ResolveOn | pipe_context.py:278-279 | the formula's own step, when it succeeds, gives a non-empty path, and a `formula_pieces` or `pieces` keyword never lets it succeed |
| Contexts.FormPathSpec | pipe_context.py:282-284 | `_get_form_path` raises TypeError(284) for a `pieces` keyword and otherwise gives what `_return_path` gives |
| Contexts.ClashingKeywordsFail | pipe_context.py:279-287 | a `pieces` or `formula_pieces` keyword makes `PathContext.get_path` fail for every formula |
| Contexts.ResolvingNonEmpty | pipe_context.py:154-165 | `eval_path` never makes the empty string current |
| Contexts.Entered | pipe_context.py:73-84 | after `__enter__` on a new context the current path is the drive and the history is empty |
| Contexts.EvalAll | pipe_context.py:141-150 | with no formulas the loop passes and leaves the context as it was, and a run of the loop only ever extends the history |
| Contexts.GetPathSpec | pipe_context.py:140 | a `self` keyword raises TypeError(140) before any formula is evaluated |
| Contexts.EvalAllStep | pipe_context.py:140-148 | one unfolding of `EvalAll` at a position, used by the loop proof of `PipeContext.EvalFormulas`: the turn either stops at the failure or moves on with the new current path |
| Contexts.EvalAllKeepsChain | pipe_context.py:140-148 | a batch keeps the history free of adjacent repeats and only appends to it |
| Contexts.EvalAllKeepsTruthy | pipe_context.py:140-148 | once the current path is truthy it stays truthy |
| Contexts.EvalAllLast | pipe_context.py:140-151 | a successful batch leaves the last formula's path current, resolved in the context the earlier formulas left |
| Contexts.NeverRaisesWithDrive | pipe_context.py:87-98 | with a non-empty drive and no `self` keyword, `get_path` returns None when a formula fails and the current path otherwise |
| Contexts.ClashingKeywordsGiveNone | pipe_context.py:87-98 | with a `pieces` or `formula_pieces` keyword and a non-empty drive, `get_path` of a formula returns None |
| Contexts.DefaultDriveSwallowsErrors | pipe_context.py:66-67 | without a `drive` or `self` keyword and with a non-empty OS name, `get_path` never raises |
| Contexts.GetPathChained | pipe_context.py:122-151 | the history `get_path` builds never holds the same path twice in a row |
| Contexts.BatchReturnsLast | pipe_context.py:138-151 | for a list of formulas, and no `self` keyword, `get_path` returns the last formula's path |
| Contexts.PipeContext.constructor | pipe_context.py:57-70 | a new context has the keyword settings, no current path and an empty history |
| Contexts.PipeContext.SetContext | pipe_context.py:191-204 | the `context` setter produces the state of `SetRule` |
| Contexts.PipeContext.SetOldContext | pipe_context.py:219-224 | the `old_context` setter produces the state of `SetHistoryRule` |
| Contexts.PipeContext.ContextInit | pipe_context.py:117-119 | `context_init` produces the state of `InitRule` |
| Contexts.PipeContext.Enter | pipe_context.py:73-84 | `__enter__` produces the state of `InitRule` |
| Contexts.PipeContext.Exit | pipe_context.py:87-98 | `__exit__` returns the current path and pops nothing |
| Contexts.PipeContext.EvalPath | pipe_context.py:154-165 | `eval_path` returns the resolved path and makes it current, and on a failure changes nothing |
| Contexts.PipeContext.GetPath | pipe_context.py:122-151 | `get_path` returns what `GetPathSpec` gives |
| Contexts.PipeContext.EvalFormulas | pipe_context.py:140-148 | the loop in the `with` block produces the state and outcome of `EvalAll` |
| Contexts.PathContext.constructor | pipe_context.py:252-255 | a path context refers to its pipe context |
| Contexts.PathContext.GetPath | pipe_context.py:263-279 | `PathContext.get_path` returns what `ResolveSpec` gives for the context's attributes |
| Contexts.PathContext.ReadParents | pipe_context.py:274-277 | the parent loop produces the manager state and outcome of `RunParents` |
| Contexts.PathContext.GetFormPath | pipe_context.py:282-284 | `_get_form_path` returns what `FormPathSpec` gives |
| Contexts.PathContext.ReturnPath | pipe_context.py:287-314 | `_return_path` returns what `ReturnPathSpec` gives |
| PipeEnums.DriveFor | pipe_enums.py:46-52 | `eval_drive` either keeps the drive or sets `C:/` or `/home/` |
| PipeEnums.DriveKnownSystems | pipe_enums.py:30-52 | Windows gets `C:/`, Linux and Darwin get `/home/`, and any other name or None keeps the drive; so exactly the three known systems get a drive |
| PipeEnums.DrivesShared | pipe_enums.py:30 | Linux and macOS share a drive, and Windows has its own |
| PipeEnums.PipeOs.constructor | pipe_enums.py:35-39 | a new `PIPE_OS` holds the reported system and the drive `eval_drive` gives it, None for an unknown system |
| PipeEnums.PipeOs.EvalOs | pipe_enums.py:42-43 | `eval_os` records the reported system and keeps the drive |
| PipeEnums.PipeOs.EvalDrive | pipe_enums.py:46-52 | `eval_drive` sets the drive of a known system and keeps it otherwise |
| PipeEnums.GetAll | pipe_enums.py:55-68 | `get_all` lists five distinct disks, every disk but `render` |
| PipeEnums.Omit | pipe_enums.py:64 | leaving a value out of a list keeps every other member and no more |
| PipeEnums.GetAllInOrder | pipe_enums.py:58-68 | `get_all` is the declared disks, in their declared order, with `render` left out |
| PipeEnums.DisciplineType.GetLong | pipe_enums.py:76-77 | `get_long` returns the long name the discipline was built with |
| PipeEnums.DisciplineType.GetShort | pipe_enums.py:79-80 | `get_short` returns the short name the discipline was built with |
| PipeEnums.UnitsGeometric | pipe_enums.py:119-162 | a table with the binary factors falls by 1024 from entry to entry down to 1, and one with the decimal factors by 1000 |
| PipeEnums.TablesGeometric | pipe_enums.py:119-162 | the traditional, alternative, verbose and IEC tables are geometric in 1024, and the SI table in 1000 |
| PipeEnums.Pick | pipe_enums.py:173-175 | the loop stops at the first factor no larger than the size, or at the last entry |
| PipeEnums.PickUnique | pipe_enums.py:173-175 | an entry that is the first to fit, or the last entry, is the one the loop stops at |
| PipeEnums.TruncDiv | pipe_enums.py:176 | `int(bytes / factor)` truncates toward zero |
| PipeEnums.Amount | pipe_enums.py:176 | `int(bytes / factor)` for a positive factor is the floor for a non-negative size and rounds toward zero for a negative one |
| PipeEnums.SuffixFor | pipe_enums.py:177-182 | a singular-plural pair gives one of its two names, and the singular only for an amount of one |
| PipeEnums.SizeOf | pipe_enums.py:164-183 | `size` fails exactly for an empty system (its loop variables stay unbound at line 176) or for a zero factor at the picked entry |
| PipeEnums.Size | pipe_enums.py:164-183 | `size` returns what `SizeOf` gives |
| PipeEnums.SizeDefault | pipe_enums.py:165 | `size` with its default system, the alternative one, never fails |
| PipeEnums.FindUnit | pipe_enums.py:173-175 | the loop with its `break` ends on the entry `Pick` chooses |
| PipeEnums.GeometricPositive | pipe_enums.py:119-162 | every factor of a geometric table is positive |
| PipeEnums.AmountInRange | pipe_enums.py:173-176 | in a geometric table a positive size below the top unit times the base shows an amount of 1 to base−1 of the picked unit |
| PipeEnums.TablesAmountInRange | pipe_enums.py:128-162 | in the alternative and SI tables the amount a positive size shows is from 1 to 1023, and from 1 to 999 |
| PipeEnums.SizeInUnit | pipe_enums.py:164-183 | in a geometric table a positive size below the top unit times the base prints the amount of the one unit whose range holds it, from 1 to base−1, then that unit's name for the amount |
| PipeEnums.SingularOnlyForOne | pipe_enums.py:177-182 | the singular is used exactly for an amount of one, unless the singular and plural are equal |
| PipeEnums.TwoMillionBytes | pipe_enums.py:116-183 | two million bytes is `2M` in SI and `1 MB` in the alternative system |
| PipeEnums.SmallSizes | pipe_enums.py:134 | one byte is `1 byte` and zero bytes is `0 bytes` |
| PipeEnums.NegativeSize | pipe_enums.py:173-183 | a negative size takes the last unit and keeps its minus sign |

## Left out

- **File I/O.** The three configuration files are given as three sequences of
  lines (`Sources`). Opening them and the `__file__`-relative path arithmetic
  are left out.
- **Platform and logging.** `platform.system()` becomes the `system` and
  `osName` parameters. The `IO` logging calls are left out.
- **`PipeContext` methods and the context deleter:**
  - `relpath` and `_bpy_relpath` call `os.path.relpath` and Blender's `bpy`;
  - `examine_path` is not implemented in the source;
  - `__str__` and `__repr__` are empty;
  - the `context` deleter reads a global `preferences` that the core never sets.
- **`PathContext.create_path`** creates directories. It is file I/O.
- **`FormulaManager.get_formula_disk`** and the `formula_disk` field: nothing
  in the core calls it.
- **Keyword arguments** are strings or None. Other Python values passed as
  keywords are not modelled.
- **Parents and formulas** given to `get_path` and `PathContext.get_path` are
  single formula names. A list or None given as a parent or as the formula of
  `eval_path` is not modelled.
- **`PipeContext.preferences` and `user`** are fixed at None and False. The
  global `preferences` is not modelled.
- **`PathContext.path` and `path_dict`** are always None and are never read,
  so they are left out.
- **`PIPELINE`** is left out as a separate class. Its `OS` reaches the model as
  the `osName` parameter.
- **`RigTypes` and `PIPE_DISC`** are constants only. Nothing is proved about
  their use, because the core never reads them.
- **TruncDiv** uses exact integer division. Python divides in floating point,
  so sizes above 2⁵³ bytes may round differently.
- **`FileSize.size`** on a non-integer `bytes`, and a system whose entries are
  not pairs, are not modelled.
- **Default formula.** `get_path`'s default `formula="pipe_base_dir"`
  (pipe_context.py:123) is not modelled. Callers pass the formula, for example
  `Single("pipe_base_dir")`.
- **Other clashing keywords.** Keywords named `formula` or `cls` clash with
  `get_path`'s own parameters at its call site, outside the core. Calls of
  `eval_path` or `PathContext.get_path` made directly with such keywords are
  not modelled either.
- **Path separator.** Paths are always joined with `/` and normalised as POSIX
  paths, whatever `osName` is. `os.path.sep` and `ntpath.normpath` on Windows
  are not modelled.
- **Contexts.NeverRaisesWithDrive** covers only the errors the model raises.
  Errors in the left-out I/O and logging are not covered.
