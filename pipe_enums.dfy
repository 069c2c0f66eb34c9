/**
  The enumerations of pipe_enums.py: the drive each operating system uses,
  the pipeline's disks and disciplines, the rig types, and the human-readable
  file sizes of `FileSize.size`.
*/
module PipeEnums {
  import opened Wrappers
  import opened Text

  // ---------------------------------------------------------------- operating system and drive

  /** `OSDrives`. */
  const WindowsDrive := "C:/"
  const LinuxDrive := "/home/"
  const MacDrive := "/home/"

  /**
    The drive `eval_drive` picks for the operating system's name; for a name
    it does not know the drive keeps its previous value.
  */
  function DriveFor(os: Option<string>, drive: Option<string>): (r: Option<string>)
    ensures r != drive ==> r == Some(WindowsDrive) || r == Some(LinuxDrive)
  {
    if os == Some("Windows") then Some(WindowsDrive)
    else if os == Some("Linux") then Some(LinuxDrive)
    else if os == Some("Darwin") then Some(MacDrive)
    else drive
  }

  /**
    Windows gets `C:/`, Linux and Darwin get `/home/`, and any other name (or
    none) leaves the drive as it was; so exactly the three known systems give a
    fresh `PIPE_OS` a drive.
  */
  lemma DriveKnownSystems(os: string, d: Option<string>)
    ensures os == "Windows" ==> DriveFor(Some(os), d) == Some("C:/")
    ensures os == "Linux" || os == "Darwin" ==> DriveFor(Some(os), d) == Some("/home/")
    ensures os != "Windows" && os != "Linux" && os != "Darwin" ==> DriveFor(Some(os), d) == d
    ensures DriveFor(None, d) == d
    ensures DriveFor(Some(os), None).Some? <==> os == "Windows" || os == "Linux" || os == "Darwin"
    ensures DriveFor(Some(os), None).Some? ==> DriveFor(Some(os), None).value in {"C:/", "/home/"}
  {
  }

  /** Linux and macOS share their drive; Windows has its own. */
  lemma DrivesShared()
    ensures DriveFor(Some("Linux"), None) == DriveFor(Some("Darwin"), None)
    ensures DriveFor(Some("Windows"), None) != DriveFor(Some("Linux"), None)
  {
    assert WindowsDrive[0] != LinuxDrive[0];
  }

  /** `PIPE_OS`: the name `platform.system()` reports, given as `system`, and its drive. */
  class PipeOs {
    var os: Option<string>
    var drive: Option<string>

    /** `__init__`: both start as None, then `eval_os` and `eval_drive` run. */
    constructor(system: string)
      ensures os == Some(system) && drive == DriveFor(Some(system), None)
    {
      os := None;
      drive := None;
      new;
      EvalOs(system);
      EvalDrive();
    }

    /** `eval_os`. */
    method EvalOs(system: string)
      modifies this
      ensures os == Some(system) && drive == old(drive)
    {
      os := Some(system);
    }

    /** `eval_drive`. */
    method EvalDrive()
      modifies this
      ensures os == old(os) && drive == DriveFor(old(os), old(drive))
    {
      if os == Some("Windows") {
        drive := Some(WindowsDrive);
      } else if os == Some("Linux") {
        drive := Some(LinuxDrive);
      } else if os == Some("Darwin") {
        drive := Some(MacDrive);
      }
    }
  }

  // ---------------------------------------------------------------- disks, disciplines and rigs

  /** `PIPE_DISK`. */
  const Code := "code"
  const Config := "config"
  const Data := "data"
  const Render := "render"
  const Store := "store"
  const Work := "work"

  /** The disks in the order `PIPE_DISK` declares them. */
  const Declared := [Code, Config, Data, Render, Store, Work]

  /** `s` without the entries equal to `x`, the others kept in order. */
  function Omit(s: seq<string>, x: string): (r: seq<string>)
    ensures forall y :: y in r <==> y in s && y != x
    ensures |r| <= |s|
    decreases |s|
  {
    if s == [] then []
    else if s[0] == x then Omit(s[1..], x)
    else [s[0]] + Omit(s[1..], x)
  }

  lemma OmitStep(s: seq<string>, x: string)
    requires s != []
    ensures Omit(s, x) == if s[0] == x then Omit(s[1..], x) else [s[0]] + Omit(s[1..], x)
  {
  }

  /** `PIPE_DISK.get_all()`: the declared disks, in order, without `render`. */
  function GetAll(): (r: seq<string>)
    ensures |r| == 5 && Render !in r
    ensures forall d :: d in [Code, Config, Data, Store, Work] <==> d in r
    ensures forall i, j :: 0 <= i < j < |r| ==> r[i] != r[j]
  {
    var all := [Code, Config, Data, Store, Work];
    assert all[0][0] != all[1][1] && all[0][0] == all[1][0] && all[0][1] == all[1][1] && all[0][2] != all[1][2];
    assert all[2][0] == 'd' && all[3][0] == 's' && all[4][0] == 'w';
    assert Render[0] == 'r';
    all
  }

  /** `get_all` lists the declared disks in their declared order, with `render` left out. */
  lemma GetAllInOrder()
    ensures GetAll() == Omit(Declared, Render)
  {
    assert Render != Work && Render != Store && Render != Data && Render != Config && Render != Code by {
      assert Render[0] == 'r';
      assert Work[0] == 'w' && Store[0] == 's' && Data[0] == 'd' && Config[0] == 'c' && Code[0] == 'c';
    }
    OmitStep([Work], Render);
    OmitStep([Store, Work], Render);
    OmitStep([Render, Store, Work], Render);
    OmitStep([Data, Render, Store, Work], Render);
    OmitStep([Config, Data, Render, Store, Work], Render);
    OmitStep(Declared, Render);
  }

  /** `DisciplineType(long, short)`; `get_long` and `get_short` read the two names. */
  datatype DisciplineType = DisciplineType(long: string, short: string)
  {
    function GetLong(): (r: string)
      ensures DisciplineType(r, short) == this
    {
      long
    }

    function GetShort(): (r: string)
      ensures DisciplineType(long, r) == this
    {
      short
    }
  }

  /** `PIPE_DISC`. */
  const Model := DisciplineType("modeling", "mdl")
  const Surface := DisciplineType("shading", "surf")
  const Rig := DisciplineType("rigging", "rig")
  const Layout := DisciplineType("layout", "lay")
  const Animation := DisciplineType("animation", "ani")
  const Light := DisciplineType("lighting", "lit")
  const Comp := DisciplineType("compositing", "comp")

  const Disciplines := [Model, Surface, Rig, Layout, Animation, Light, Comp]

  /** `RigTypes`. */
  const RigTypes := ["ani_rig", "cache_rig", "lay_rig", "model_rig", "previs_rig", "lit_rig"]

  // ---------------------------------------------------------------- file sizes

  /** A unit's name: one text, or a singular and a plural. */
  datatype Suffix = Plain(text: string) | Plural(singular: string, multiple: string)

  /** A size system: factors with their suffixes, largest first. */
  type System = seq<(int, Suffix)>

  /** The factors 1024^5 down to 1024^0, and 1000^5 down to 1000^0. */
  const Binary: seq<int> := [1125899906842624, 1099511627776, 1073741824, 1048576, 1024, 1]
  const Decimal: seq<int> := [1000000000000000, 1000000000000, 1000000000, 1000000, 1000, 1]

  /** A system from six factors and six suffixes. */
  function Units(factors: seq<int>, suffixes: seq<Suffix>): (r: System)
    requires |factors| == 6 && |suffixes| == 6
    ensures |r| == 6 && forall i :: 0 <= i < 6 ==> r[i] == (factors[i], suffixes[i])
  {
    seq(6, i requires 0 <= i < 6 => (factors[i], suffixes[i]))
  }

  const Traditional := Units(Binary, [Plain("P"), Plain("T"), Plain("G"), Plain("M"), Plain("K"), Plain("B")])
  const Alternative := Units(Binary, [Plain(" PB"), Plain(" TB"), Plain(" GB"), Plain(" MB"), Plain(" KB"), Plural(" byte", " bytes")])
  const Verbose := Units(Binary, [
    Plural(" petabyte", " petabytes"), Plural(" terabyte", " terabytes"), Plural(" gigabyte", " gigabytes"),
    Plural(" megabyte", " megabytes"), Plural(" kilobyte", " kilobytes"), Plural(" byte", " bytes")])
  const Iec := Units(Binary, [Plain("Pi"), Plain("Ti"), Plain("Gi"), Plain("Mi"), Plain("Ki"), Plain("")])
  const Si := Units(Decimal, [Plain("P"), Plain("T"), Plain("G"), Plain("M"), Plain("K"), Plain("B")])

  /**
    The entry `size` stops at: the first whose factor is at most `bytes`, or
    the last one when there is none.
  */
  function Pick(bytes: int, system: System, from: nat): (r: nat)
    requires from < |system|
    ensures from <= r < |system|
    ensures system[r].0 <= bytes || r == |system| - 1
    ensures forall j :: from <= j < r ==> bytes < system[j].0
    decreases |system| - from
  {
    if system[from].0 <= bytes || from == |system| - 1 then from else Pick(bytes, system, from + 1)
  }

  /**
    `int(a / b)` for a positive `b`: the quotient truncated toward zero, so
    `q * b` lies between zero and `a`, less than `b` away from `a`.
  */
  function TruncDiv(a: int, b: int): (q: int)
    requires b > 0
    ensures a >= 0 ==> 0 <= q * b <= a < q * b + b
    ensures a < 0 ==> q * b - b < a <= q * b <= 0
  {
    var n := if a >= 0 then a else -a;
    var m := n / b;
    assert m * b <= n < m * b + b;
    if a >= 0 then m else -m
  }

  /** The unit's name for an amount: a singular only for exactly one. */
  function SuffixFor(suffix: Suffix, amount: int): (r: string)
    ensures suffix.Plural? ==> r == suffix.singular || r == suffix.multiple
    ensures suffix.Plural? && r != suffix.multiple ==> amount == 1
  {
    match suffix
    case Plain(t) => t
    case Plural(s, m) => if amount == 1 then s else m
  }

  /** `int(bytes / factor)`, with Python's true division of a negative factor written out by sign. */
  function Amount(bytes: int, factor: int): (r: int)
    requires factor != 0
    ensures bytes >= 0 && factor > 0 ==> r == bytes / factor
    ensures bytes <= 0 && factor > 0 ==> r == -((-bytes) / factor)
  {
    if factor < 0 then -TruncDiv(bytes, -factor) else TruncDiv(bytes, factor)
  }

  /**
    `FileSize.size(bytes, system)`. An empty system leaves the loop variables
    unbound (line 176); a zero factor divides by zero.
  */
  function SizeOf(bytes: int, system: System): (r: Result<string>)
    ensures r.Err? <==> system == [] || system[Pick(bytes, system, 0)].0 == 0
  {
    if system == [] then Err(UnboundLocalError(176))
    else
      var (factor, suffix) := system[Pick(bytes, system, 0)];
      if factor == 0 then Err(ZeroDivisionError(176))
      else
        var amount := Amount(bytes, factor);
        Ok(IntToString(amount) + SuffixFor(suffix, amount))
  }

  /** `FileSize.size(bytes, system)`. */
  method Size(bytes: int, system: System) returns (r: Result<string>)
    ensures r == SizeOf(bytes, system)
  {
    if |system| == 0 {
      return Err(UnboundLocalError(176));
    }
    var factor, suffix := FindUnit(bytes, system);
    if factor == 0 {
      return Err(ZeroDivisionError(176));
    }
    var amount := Amount(bytes, factor);
    var text: string;
    if suffix.Plural? {
      if amount == 1 {
        text := suffix.singular;
      } else {
        text := suffix.multiple;
      }
    } else {
      text := suffix.text;
    }
    return Ok(IntToString(amount) + text);
  }

  /** `FileSize.size(bytes)`, whose default system is the alternative one: it never fails. */
  function SizeDefault(bytes: int): (r: Result<string>)
    ensures r.Ok?
  {
    TablesGeometric();
    GeometricPositive(Alternative, 1024, Pick(bytes, Alternative, 0));
    SizeOf(bytes, Alternative)
  }

  /** The loop of `size`: it stops at the first factor that fits, or leaves the last entry behind. */
  method FindUnit(bytes: int, system: System) returns (factor: int, suffix: Suffix)
    requires |system| > 0
    ensures (factor, suffix) == system[Pick(bytes, system, 0)]
  {
    factor, suffix := system[0].0, system[0].1;
    var i := 0;
    while i < |system|
      invariant 0 <= i <= |system|
      invariant 0 < i ==> (factor, suffix) == system[i - 1]
      invariant forall j :: 0 <= j < i ==> bytes < system[j].0
    {
      factor, suffix := system[i].0, system[i].1;
      if bytes >= factor {
        break;
      }
      i := i + 1;
    }
    PickUnique(bytes, system, if i < |system| then i else |system| - 1);
  }

  /** A system whose factors fall by `base` from entry to entry down to 1, as all five tables do. */
  ghost predicate Geometric(system: System, base: nat) {
    && |system| > 0
    && system[|system| - 1].0 == 1
    && forall j :: 0 < j < |system| ==> system[j - 1].0 == base * system[j].0
  }

  lemma UnitsGeometric(factors: seq<int>, base: nat, suffixes: seq<Suffix>)
    requires |factors| == 6 && |suffixes| == 6
    requires (factors == Binary && base == 1024) || (factors == Decimal && base == 1000)
    ensures Geometric(Units(factors, suffixes), base)
  {
  }

  /** All five tables fall by 1024 from entry to entry down to 1, except SI, which falls by 1000. */
  lemma TablesGeometric()
    ensures Geometric(Traditional, 1024) && Geometric(Alternative, 1024) && Geometric(Verbose, 1024)
    ensures Geometric(Iec, 1024) && Geometric(Si, 1000)
  {
    UnitsGeometric(Binary, 1024, [Plain("P"), Plain("T"), Plain("G"), Plain("M"), Plain("K"), Plain("B")]);
    UnitsGeometric(Binary, 1024, [Plain(" PB"), Plain(" TB"), Plain(" GB"), Plain(" MB"), Plain(" KB"), Plural(" byte", " bytes")]);
    UnitsGeometric(Binary, 1024, [
      Plural(" petabyte", " petabytes"), Plural(" terabyte", " terabytes"), Plural(" gigabyte", " gigabytes"),
      Plural(" megabyte", " megabytes"), Plural(" kilobyte", " kilobytes"), Plural(" byte", " bytes")]);
    UnitsGeometric(Binary, 1024, [Plain("Pi"), Plain("Ti"), Plain("Gi"), Plain("Mi"), Plain("Ki"), Plain("")]);
    UnitsGeometric(Decimal, 1000, [Plain("P"), Plain("T"), Plain("G"), Plain("M"), Plain("K"), Plain("B")]);
  }

  lemma DivRange(a: int, f: int, base: int)
    requires 1 <= f <= a < base * f
    ensures 1 <= a / f < base
  {
  }

  lemma {:induction false} GeometricPositive(system: System, base: nat, j: nat)
    requires Geometric(system, base) && base >= 1 && j < |system|
    ensures system[j].0 >= 1
    decreases |system| - j
  {
    if j < |system| - 1 {
      GeometricPositive(system, base, j + 1);
      assert system[j].0 == base * system[j + 1].0;
    }
  }

  /**
    In a geometric system a positive size below `base` times the largest factor
    is written with an amount from 1 to `base - 1` of the picked unit.
  */
  lemma AmountInRange(bytes: int, system: System, base: nat)
    requires Geometric(system, base) && base >= 2
    requires 1 <= bytes < base * system[0].0
    ensures var k := Pick(bytes, system, 0); var f := system[k].0;
      f >= 1 && 1 <= bytes / f < base && Amount(bytes, f) == bytes / f
  {
    var k := Pick(bytes, system, 0);
    var f := system[k].0;
    GeometricPositive(system, base, k);
    assert f <= bytes;
    assert bytes < base * f by {
      if k > 0 {
        assert bytes < system[k - 1].0;
      }
    }
    DivRange(bytes, f, base);
  }

  /**
    In a geometric system `size` of a positive size below `base` times the
    largest factor prints the amount of the one unit whose range holds the
    size, followed by that unit's name for the amount.
  */
  lemma SizeInUnit(bytes: int, system: System, base: nat)
    requires Geometric(system, base) && base >= 2
    requires 1 <= bytes < base * system[0].0
    ensures var k := Pick(bytes, system, 0); var f := system[k].0;
      1 <= f <= bytes < base * f &&
      var a := bytes / f;
      1 <= a < base && SizeOf(bytes, system) == Ok(IntToString(a) + SuffixFor(system[k].1, a))
  {
    var k := Pick(bytes, system, 0);
    AmountInRange(bytes, system, base);
    if k > 0 {
      assert bytes < system[k - 1].0;
    }
  }

  /** For the shipped tables the amount of a positive size below the sixth power of the base is 1 to `base - 1`. */
  lemma TablesAmountInRange(bytes: int)
    ensures 1 <= bytes < 1024 * Binary[0] ==>
      var k := Pick(bytes, Alternative, 0); 1 <= Amount(bytes, Alternative[k].0) < 1024
    ensures 1 <= bytes < 1000 * Decimal[0] ==>
      var k := Pick(bytes, Si, 0); 1 <= Amount(bytes, Si[k].0) < 1000
  {
    UnitsGeometric(Binary, 1024, [Plain(" PB"), Plain(" TB"), Plain(" GB"), Plain(" MB"), Plain(" KB"), Plural(" byte", " bytes")]);
    UnitsGeometric(Decimal, 1000, [Plain("P"), Plain("T"), Plain("G"), Plain("M"), Plain("K"), Plain("B")]);
    if 1 <= bytes < 1024 * Binary[0] {
      AmountInRange(bytes, Alternative, 1024);
    }
    if 1 <= bytes < 1000 * Decimal[0] {
      AmountInRange(bytes, Si, 1000);
    }
  }

  /** The singular is used exactly when the amount is one. */
  lemma SingularOnlyForOne(suffix: Suffix, amount: int)
    requires suffix.Plural?
    ensures SuffixFor(suffix, amount) == suffix.singular <==> amount == 1 || suffix.singular == suffix.multiple
  {
  }

  /** Conversely, the entry `size` stops at is the only one that is the first to fit or the last. */
  lemma PickUnique(bytes: int, system: System, k: nat)
    requires k < |system|
    requires system[k].0 <= bytes || k == |system| - 1
    requires forall j :: 0 <= j < k ==> bytes < system[j].0
    ensures Pick(bytes, system, 0) == k
  {
  }

  /**
    Two million bytes in the SI system is `2M`, as the class documentation
    says; in the alternative system it is `1 MB` (two million bytes is 1.9
    binary megabytes, truncated), where the documentation says `2MB`.
  */
  lemma TwoMillionBytes()
    ensures SizeOf(2000000, Si) == Ok("2M")
    ensures SizeOf(2000000, Alternative) == Ok("1 MB")
  {
    PickUnique(2000000, Si, 3);
    PickUnique(2000000, Alternative, 3);
    assert Si[3] == (1000000, Plain("M"));
    assert TruncDiv(2000000, 1000000) == 2;
    assert IntToString(2) == "2";
    assert IntToString(2) + "M" == "2M";
    assert Alternative[3] == (1048576, Plain(" MB"));
    assert TruncDiv(2000000, 1048576) == 1;
    assert IntToString(1) + " MB" == "1 MB";
  }

  /** The byte unit takes the singular for one byte only. */
  lemma SmallSizes()
    ensures SizeOf(1, Alternative) == Ok("1 byte")
    ensures SizeOf(0, Alternative) == Ok("0 bytes")
  {
    PickUnique(1, Alternative, 5);
    PickUnique(0, Alternative, 5);
    assert Alternative[5] == (1, Plural(" byte", " bytes"));
    assert TruncDiv(1, 1) == 1 && TruncDiv(0, 1) == 0;
    assert IntToString(1) + " byte" == "1 byte";
    assert IntToString(0) + " bytes" == "0 bytes";
  }

  /** A negative size takes the last unit and keeps its sign, `str` writing the minus. */
  lemma NegativeSize()
    ensures SizeOf(-5, Traditional) == Ok("-5B")
  {
    PickUnique(-5, Traditional, 5);
    assert Traditional[5] == (1, Plain("B"));
    assert TruncDiv(-5, 1) == -5;
    assert IntToString(-5) + "B" == "-5B";
  }
}
