/** The string tables that the `enum_from_str!` macro generates for the
    program's enumerations. One `Table` stands for one expansion of the macro:
    its arms `Variant = "string"` in the order written and the message of the
    catch-all arm of `from_str`. The four generated functions are defined once,
    over any table, exactly as the macro defines them; the five tables of the
    program are instances. */
module EnumTables {
  import opened Base

  datatype Table<T> = Table(arms: seq<(T, string)>, unknown: string)

  /** Position of the first arm whose string is `s` (`|arms|` when there is
      none): the arm a `match s { "a" => .., "b" => .., _ => .. }` selects. */
  function StrIndex<T>(arms: seq<(T, string)>, s: string): (r: nat)
    ensures r <= |arms|
    ensures forall i :: 0 <= i < r ==> arms[i].1 != s
    ensures r < |arms| ==> arms[r].1 == s
  {
    if arms == [] then 0
    else if arms[0].1 == s then 0
    else 1 + StrIndex(arms[1..], s)
  }

  /** Position of the first arm whose variant is `v` (`|arms|` when there is none). */
  function VariantIndex<T(==)>(arms: seq<(T, string)>, v: T): (r: nat)
    ensures r <= |arms|
    ensures forall i :: 0 <= i < r ==> arms[i].0 != v
    ensures r < |arms| ==> arms[r].0 == v
  {
    if arms == [] then 0
    else if arms[0].0 == v then 0
    else 1 + VariantIndex(arms[1..], v)
  }

  /** `possible_values()`: the strings of the arms, in order; they are
      exactly the strings that the `match` of `from_str` selects an arm for. */
  function PossibleValues<T>(t: Table<T>): (r: seq<string>)
    ensures |r| == |t.arms|
    ensures forall s :: s in r <==> StrIndex(t.arms, s) < |t.arms|
  {
    var r := seq(|t.arms|, j requires 0 <= j < |t.arms| => t.arms[j].1);
    assert forall s :: StrIndex(t.arms, s) < |t.arms| ==> r[StrIndex(t.arms, s)] == s;
    r
  }

  /** `possible_values_typed()`: the variants of the arms, in order; zipped
      with `possible_values()` it gives back the table's arms. */
  function PossibleValuesTyped<T>(t: Table<T>): (r: seq<T>)
    ensures |r| == |PossibleValues(t)|
    ensures forall j :: 0 <= j < |r| ==> (r[j], PossibleValues(t)[j]) == t.arms[j]
  {
    seq(|t.arms|, j requires 0 <= j < |t.arms| => t.arms[j].0)
  }

  /** `from_str`: the variant of the first arm whose string is `s`; any other
      string is the table's own error message. */
  function FromStr<T>(t: Table<T>, s: string): (r: Result<T, Error>)
    ensures r.Ok? <==> s in PossibleValues(t)
    ensures r.Err? ==> r.error == Str(t.unknown)
    ensures r.Ok? ==> r.value in PossibleValuesTyped(t)
  {
    var j := StrIndex(t.arms, s);
    if j < |t.arms| then
      assert PossibleValuesTyped(t)[j] == t.arms[j].0 && PossibleValues(t)[j] == s;
      Ok(t.arms[j].0)
    else
      assert s !in PossibleValues(t) by {
        forall i | 0 <= i < |t.arms| ensures PossibleValues(t)[i] != s { }
      }
      Err(Str(t.unknown))
  }

  /** `to_str`: the string of the first arm whose variant is `v`; a variant
      the table does not list falls to the `_ => "unknown"` arm. */
  function ToStr<T(==)>(t: Table<T>, v: T): (s: string)
    ensures v !in PossibleValuesTyped(t) ==> s == "unknown"
    ensures v in PossibleValuesTyped(t) ==> s in PossibleValues(t)
  {
    var j := VariantIndex(t.arms, v);
    if j < |t.arms| then
      assert PossibleValues(t)[j] == t.arms[j].1 && PossibleValuesTyped(t)[j] == v;
      t.arms[j].1
    else
      assert v !in PossibleValuesTyped(t) by {
        forall i | 0 <= i < |t.arms| ensures PossibleValuesTyped(t)[i] != v { }
      }
      "unknown"
  }

  /** No variant and no string appears in two arms. */
  ghost predicate Distinct<T>(t: Table<T>)
  {
    forall a, b :: 0 <= a < b < |t.arms| ==> t.arms[a].0 != t.arms[b].0 && t.arms[a].1 != t.arms[b].1
  }

  /** In a table without repeats, arm `j` is the one both lookups select. */
  lemma ArmSelected<T>(t: Table<T>, j: nat)
    requires Distinct(t) && j < |t.arms|
    ensures StrIndex(t.arms, t.arms[j].1) == j
    ensures VariantIndex(t.arms, t.arms[j].0) == j
  {
  }

  /** Round trip: every listed variant converts to its string and back. */
  lemma RoundTrip<T>(t: Table<T>, v: T)
    requires Distinct(t) && v in PossibleValuesTyped(t)
    ensures FromStr(t, ToStr(t, v)) == Ok(v)
  {
    var j :| 0 <= j < |t.arms| && PossibleValuesTyped(t)[j] == v;
    ArmSelected(t, j);
  }

  /** `from_str` accepts exactly the strings `to_str` produces for listed
      variants, and returns that variant. */
  lemma FromStrInverse<T>(t: Table<T>, s: string, v: T)
    requires Distinct(t)
    ensures FromStr(t, s) == Ok(v) <==> v in PossibleValuesTyped(t) && ToStr(t, v) == s
  {
    if FromStr(t, s) == Ok(v) {
      ArmSelected(t, StrIndex(t.arms, s));
    }
    if v in PossibleValuesTyped(t) && ToStr(t, v) == s {
      RoundTrip(t, v);
    }
  }

  /** The two generated lists run in parallel: the `j`-th string is the string
      of the `j`-th variant. */
  lemma PossibleValuesParallel<T>(t: Table<T>)
    requires Distinct(t)
    ensures |PossibleValues(t)| == |PossibleValuesTyped(t)|
    ensures forall j :: 0 <= j < |PossibleValues(t)| ==> PossibleValues(t)[j] == ToStr(t, PossibleValuesTyped(t)[j])
  {
    forall j | 0 <= j < |PossibleValues(t)|
      ensures PossibleValues(t)[j] == ToStr(t, PossibleValuesTyped(t)[j])
    {
      ArmSelected(t, j);
    }
  }

  // The five expansions of the macro in the program.

  const OutputFormatTable: Table<OutputFormat> :=
    Table([(Human, "human"), (OutputFormat.Json, "json")], "unknown output format")

  const ResetSettingsTable: Table<ResetSettings> :=
    Table([
      (VoltageBoost, "voltage-boost"),
      (SensorLimits, "thermal"),
      (PowerLimits, "power"),
      (CoolerLevels, "cooler"),
      (VfpDeltas, "vfp"),
      (VfpLock, "lock"),
      (PStateDeltas, "pstate"),
      (Overvolt, "overvolt")
    ], "unknown setting")

  const PStateTable: Table<PState> :=
    Table([
      (P0, "P0"), (P1, "P1"), (P2, "P2"), (P3, "P3"),
      (P4, "P4"), (P5, "P5"), (P6, "P6"), (P7, "P7"),
      (P8, "P8"), (P9, "P9"), (P10, "P10"), (P11, "P11"),
      (P12, "P12"), (P13, "P13"), (P14, "P14"), (P15, "P15")
    ], "unknown pstate")

  const ClockDomainTable: Table<ClockDomain> :=
    Table([
      (Graphics, "graphics"),
      (Memory, "memory"),
      (Processor, "processor"),
      (Video, "video")
    ], "unknown clock type")

  const CoolerPolicyTable: Table<CoolerPolicy> :=
    Table([
      (NoPolicy, "default"),
      (Manual, "manual"),
      (Performance, "perf"),
      (TemperatureDiscrete, "discrete"),
      (TemperatureContinuous, "continuous"),
      (Hybrid, "hybrid"),
      (Silent, "silent"),
      (Unknown32, "32")
    ], "unknown cooler policy")

  /** The output-format table lists every variant once, under distinct strings. */
  lemma OutputFormatTableComplete()
    ensures Distinct(OutputFormatTable)
    ensures forall v: OutputFormat :: v in PossibleValuesTyped(OutputFormatTable)
  {
    var t := OutputFormatTable;
    forall a, b | 0 <= a < b < |t.arms| ensures t.arms[a].0 != t.arms[b].0 && t.arms[a].1 != t.arms[b].1 {
      assert a == 0 && b == 1;
    }
    var typed := PossibleValuesTyped(t);
    assert typed == [Human, OutputFormat.Json];
    forall v: OutputFormat ensures v in typed {
      match v
      case Human =>
      case Json =>
    }
  }

  /** No two arms of the reset-setting table share a variant or a string. */
  lemma ResetSettingsTableDistinct()
    ensures Distinct(ResetSettingsTable)
  {
    var t := ResetSettingsTable;
    forall a, b | 0 <= a < b < |t.arms| ensures t.arms[a].0 != t.arms[b].0 && t.arms[a].1 != t.arms[b].1 {
      assert a == 0 || a == 1 || a == 2 || a == 3 || a == 4 || a == 5 || a == 6;
      assert b == 1 || b == 2 || b == 3 || b == 4 || b == 5 || b == 6 || b == 7;
    }
  }

  /** `ResetSettings::possible_values_typed()` lists every setting, in the
      order of the table. */
  lemma ResetSettingsTableListsAll()
    ensures PossibleValuesTyped(ResetSettingsTable)
         == [VoltageBoost, SensorLimits, PowerLimits, CoolerLevels, VfpDeltas, VfpLock, PStateDeltas, Overvolt]
    ensures forall v: ResetSettings :: v in PossibleValuesTyped(ResetSettingsTable)
  {
    var typed := PossibleValuesTyped(ResetSettingsTable);
    assert typed == [VoltageBoost, SensorLimits, PowerLimits, CoolerLevels, VfpDeltas, VfpLock, PStateDeltas, Overvolt];
    forall v: ResetSettings ensures v in typed {
      match v
      case VoltageBoost => case SensorLimits => case PowerLimits => case CoolerLevels =>
      case VfpDeltas => case VfpLock => case PStateDeltas => case Overvolt =>
    }
  }

  /** A table whose arms carry distinct codes, read off both the variant and
      the string of each arm, has no repeats. */
  lemma DistinctByCodes<T>(t: Table<T>, variantCode: T -> int, stringCode: string -> int)
    requires forall j :: 0 <= j < |t.arms| ==> variantCode(t.arms[j].0) == j && stringCode(t.arms[j].1) == j
    ensures Distinct(t)
  {
  }

  /** The position of a power state in `P0` .. `P15`. */
  function PStateNumber(p: PState): int
  {
    match p
    case P0 => 0 case P1 => 1 case P2 => 2 case P3 => 3
    case P4 => 4 case P5 => 5 case P6 => 6 case P7 => 7
    case P8 => 8 case P9 => 9 case P10 => 10 case P11 => 11
    case P12 => 12 case P13 => 13 case P14 => 14 case P15 => 15
  }

  /** The number written in a power-state name `"P<n>"` with one or two digits. */
  function PStateNameNumber(s: string): int
  {
    if |s| == 2 then s[1] as int - '0' as int
    else if |s| == 3 then 10 * (s[1] as int - '0' as int) + (s[2] as int - '0' as int)
    else -1
  }

  /** No two arms of the power-state table share a variant or a string. */
  lemma PStateTableDistinct()
    ensures Distinct(PStateTable)
  {
    var t := PStateTable;
    forall j | 0 <= j < |t.arms| ensures PStateNumber(t.arms[j].0) == j && PStateNameNumber(t.arms[j].1) == j {
      assert j == 0 || j == 1 || j == 2 || j == 3 || j == 4 || j == 5 || j == 6 || j == 7
          || j == 8 || j == 9 || j == 10 || j == 11 || j == 12 || j == 13 || j == 14 || j == 15;
    }
    DistinctByCodes(t, PStateNumber, PStateNameNumber);
  }

  /** The power-state table lists each of the sixteen states. */
  lemma PStateTableListsAll()
    ensures forall v: PState :: v in PossibleValuesTyped(PStateTable)
  {
    var typed := PossibleValuesTyped(PStateTable);
    assert typed == [P0, P1, P2, P3, P4, P5, P6, P7, P8, P9, P10, P11, P12, P13, P14, P15];
    forall v: PState ensures v in typed {
      match v
      case P0 => case P1 => case P2 => case P3 => case P4 => case P5 => case P6 => case P7 =>
      case P8 => case P9 => case P10 => case P11 => case P12 => case P13 => case P14 => case P15 =>
    }
  }

  /** The clock-domain table lists each of its four domains once, under distinct strings. */
  lemma ClockDomainTableComplete()
    ensures Distinct(ClockDomainTable)
    ensures forall v: ClockDomain :: v in PossibleValuesTyped(ClockDomainTable)
  {
    var t := ClockDomainTable;
    forall a, b | 0 <= a < b < |t.arms| ensures t.arms[a].0 != t.arms[b].0 && t.arms[a].1 != t.arms[b].1 {
      assert a == 0 || a == 1 || a == 2;
      assert b == 1 || b == 2 || b == 3;
    }
    var typed := PossibleValuesTyped(t);
    assert typed == [Graphics, Memory, Processor, Video];
    forall v: ClockDomain ensures v in typed {
      match v
      case Graphics => case Memory => case Processor => case Video =>
    }
  }

  /** No two arms of the cooler-policy table share a variant or a string. */
  lemma CoolerPolicyTableDistinct()
    ensures Distinct(CoolerPolicyTable)
  {
    var t := CoolerPolicyTable;
    forall a, b | 0 <= a < b < |t.arms| ensures t.arms[a].0 != t.arms[b].0 && t.arms[a].1 != t.arms[b].1 {
      assert a == 0 || a == 1 || a == 2 || a == 3 || a == 4 || a == 5 || a == 6;
      assert b == 1 || b == 2 || b == 3 || b == 4 || b == 5 || b == 6 || b == 7;
    }
  }

  /** The cooler-policy table lists each of its eight policies. */
  lemma CoolerPolicyTableListsAll()
    ensures forall v: CoolerPolicy :: v in PossibleValuesTyped(CoolerPolicyTable)
  {
    var typed := PossibleValuesTyped(CoolerPolicyTable);
    assert typed == [NoPolicy, Manual, Performance, TemperatureDiscrete, TemperatureContinuous, Hybrid, Silent, Unknown32];
    forall v: CoolerPolicy ensures v in typed {
      match v
      case NoPolicy => case Manual => case Performance => case TemperatureDiscrete =>
      case TemperatureContinuous => case Hybrid => case Silent => case Unknown32 =>
    }
  }

  /** Every reset setting round-trips through its command-line string. */
  lemma ResetSettingsRoundTrip(v: ResetSettings)
    ensures FromStr(ResetSettingsTable, ToStr(ResetSettingsTable, v)) == Ok(v)
  {
    ResetSettingsTableDistinct();
    ResetSettingsTableListsAll();
    RoundTrip(ResetSettingsTable, v);
  }

  /** Every output format round-trips through its command-line string. */
  lemma OutputFormatRoundTrip(v: OutputFormat)
    ensures FromStr(OutputFormatTable, ToStr(OutputFormatTable, v)) == Ok(v)
  {
    OutputFormatTableComplete();
    RoundTrip(OutputFormatTable, v);
  }
}
