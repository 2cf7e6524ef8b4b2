# nvoclock in Dafny

`nvoclock` is a command-line tool that reads and changes the overclocking
settings of NVIDIA GPUs through the vendor interface (NVAPI). This project
models the logic of its main program, `src/main.rs`, that can be stated
without the hardware:

- **The calibration sweep** (`set vfp auto`). The model builds the options
  and constructs the calibration object. It prepares it, then tests the points
  of the voltage/frequency (V/F) curve from the top of the requested range
  down. It records each point found in an index-ordered map, then cleans up
  and hands the results over. The calibration object is the class
  `AutoDetect`, whose `calls` log records every prepare, test and cleanup.
  What a test finds is an oracle. The driver `RunAuto` is proved equal to a
  functional specification: `Run` folds `Step` over the sweep order. The
  lemmas give that specification's closed forms, one for a sweep that
  completes and one for a sweep that stops at a failing index.
- **The string tables** that the `enum_from_str!` macro generates. The model
  has one generic `Table` and the four generated functions. The program's five
  tables are instances. Proved: the round trip, the inverse direction, that
  the two value lists run in parallel, and that each table has no repeats
  and lists every variant.
- **GPU selection**: `select_gpus` (positions, enumeration order, the empty
  selection error) and `single_gpu`.
- **The `reset` command**: the settings it restores, the error policy
  `warn_result`, and the two nested loops over GPUs and settings, as methods
  proved against recursive specifications. Lemmas say when the command
  succeeds (if and only if) and what errors it can end with.
- **V/F helpers**: matching imported rows to curve points (`set vfp import`)
  and finding the voltage to lock at (`set vfp lock`).
- **`parse_bool_match`**: how an on/off switch is read from the parsed
  command line.

A Rust `BTreeMap<usize, _>` is a `map<nat, _>`, and its iteration order is
given by `Ordered.AscendingKeys`. Vendor calls are parameters: `info`,
`apply`, `isAllowable`, the test oracle `script` and the statuses in
`Environment`.

Points of the code's behaviour that are easy to misread, as the model
follows them:

- Each tested point is passed its own stored delta (src/main.rs:909); the
  delta found for one point does not feed the next test.
- The end of the sweep range is exclusive (`(start..end).rev()`,
  src/main.rs:907), although the option's help calls it the "Point index to
  end at" (src/main.rs:484). By default it is the largest index on the curve,
  so the top point of the curve is never tested.
- `select_gpus` is modelled as written, including its arm for no `--gpu`
  values (src/main.rs:552). Under clap 2 that arm is unreachable in the
  program: the argument has the default value "0" (src/main.rs:281), so
  without `--gpu` only GPU 0 is selected.
- If preparing the calibration object fails, the command returns at once.
  No cleanup runs and nothing is handed over.
- After a sweep without a failing test, a cleanup error takes precedence
  over an error writing the results.
- The `reset` command's help offers to "Reset only the specified
  setting(s)" (src/main.rs:350), but the code reads an argument that the
  subcommand does not declare, so it always resets everything (see
  Findings).

The methods of `AutoSweep.AutoDetect` (the constructor, `TestPrepare`,
`TestPoint`, `TestCleanup`, `TestIndex`, `SweepLoop` and `RunAuto`) state
their new state with `old`/`fresh`; the facts about the sweep are the
lemmas on `Run`.

## Model

| member | source | states |
|---|---|---|
| `Base.Lookup` | src/main.rs:867 | a lookup (`graphics.get(&i)` here, `values_of(name)` at src/main.rs:704) finds a value exactly when the key is present, and then it is the key's value |
| `Ordered.Least` | src/main.rs:853-855 | the smallest key of a non-empty key set: it is in the set and below every other key, which is where an ascending `BTreeMap` walk starts (`vfp.iter().find(..)` here, through `Vfp.FindByVoltage`, and `results.into_iter()` at src/main.rs:934, through `Ordered.AscendingKeys`) |
| `Ordered.Greatest` | src/main.rs:892 | the largest key of a non-empty key set, `keys.max()`: it is in the set and above every other key |
| `Ordered.AscendingKeys` | src/main.rs:934 | the order a `BTreeMap` walk visits keys: strictly increasing, holding exactly the map's keys |
| `Ordered.AscendingKeysCount` | src/main.rs:934 | the walk visits as many keys as the map holds |
| `Ordered.InOrder` | src/main.rs:934 | `results.into_iter().map(\|(_, v)\| v)` hands over exactly one value per entry |
| `Ordered.InOrderAscending` | src/main.rs:934 | the values are handed over along the strictly increasing key walk: the `j`-th value is the value of the `j`-th key |
| `Ordered.InOrderContents` | src/main.rs:934 | every entry's value is handed over, and nothing else is |
| `EnumTables.StrIndex` | src/main.rs:129-134 | the arm a string `match` selects is the first arm whose string equals the input; none before it matches |
| `EnumTables.VariantIndex` | src/main.rs:139-144 | the arm a variant `match` selects is the first arm with that variant |
| `EnumTables.PossibleValues` | src/main.rs:147-151 | `possible_values()` has one string per arm, and they are exactly the strings for which the `match` of `from_str` selects an arm |
| `EnumTables.PossibleValuesTyped` | src/main.rs:153-157 | `possible_values_typed()` runs parallel to `possible_values()`: zipped together they give back the macro's arms in order |
| `EnumTables.FromStr` | src/main.rs:128-135 | `from_str` succeeds exactly on the table's strings and returns a listed variant; any other string is the table's own error message |
| `EnumTables.ToStr` | src/main.rs:138-145 | `to_str` gives a listed string for a listed variant and "unknown" for any other variant |
| `EnumTables.ArmSelected` | src/main.rs:127-158 | in a table without repeats, both lookups select arm `j` for arm `j`'s string and variant |
| `EnumTables.RoundTrip` | src/main.rs:127-158 | for every listed variant `v` of a table without repeats, `from_str(to_str(v)) == Ok(v)` |
| `EnumTables.FromStrInverse` | src/main.rs:127-158 | `from_str(s) == Ok(v)` if and only if `v` is listed and `to_str(v) == s` |
| `EnumTables.PossibleValuesParallel` | src/main.rs:147-157 | `possible_values()` and `possible_values_typed()` have equal length, and `possible_values()[j] == to_str(possible_values_typed()[j])` |
| `EnumTables.OutputFormatTableComplete` | src/main.rs:162-168 | the output-format table has no repeats and lists both formats |
| `EnumTables.ResetSettingsTableDistinct` | src/main.rs:170-182 | no two arms of the reset-setting table share a variant or a string |
| `EnumTables.ResetSettingsTableListsAll` | src/main.rs:170-182 | `ResetSettings::possible_values_typed()` is the eight settings in table order, so it lists every setting |
| `EnumTables.DistinctByCodes` | src/main.rs:184-204 | (proof helper) arms whose variants and strings carry distinct position codes have no repeats |
| `EnumTables.PStateTableDistinct` | src/main.rs:184-204 | no two arms of the power-state table share a variant or a string |
| `EnumTables.PStateTableListsAll` | src/main.rs:184-204 | the power-state table lists all sixteen states |
| `EnumTables.ClockDomainTableComplete` | src/main.rs:206-214 | the clock-domain table has no repeats and lists all four domains |
| `EnumTables.CoolerPolicyTableDistinct` | src/main.rs:216-228 | no two arms of the cooler-policy table share a variant or a string |
| `EnumTables.CoolerPolicyTableListsAll` | src/main.rs:216-228 | the cooler-policy table lists all eight policies |
| `EnumTables.ResetSettingsRoundTrip` | src/main.rs:170-182 | every reset setting converts to its command-line string and back |
| `EnumTables.OutputFormatRoundTrip` | src/main.rs:162-168 | every output format converts to its command-line string and back |
| `Cli.SwitchText` | src/main.rs:252-257 | a defined text exactly for the counts (1,1), (0,1) and (1,2) with a value: "on" for a bare switch, otherwise the value given; any other combination is the `unreachable!` panic |
| `Cli.ParseBoolMatch` | src/main.rs:242-264 | `true` exactly for a bare switch or the value "on", `false` exactly for the value "off"; defined exactly when the switch text is one of the two possible values |
| `GpuSelect.ParsePositions` | src/main.rs:540 | every position parses, or else the first failing one becomes the `ParseInt` error; on success the `j`-th number comes from the `j`-th argument |
| `GpuSelect.Named` | src/main.rs:543-549 | the inner search answers true exactly when the position is requested |
| `GpuSelect.SelectedPositions` | src/main.rs:542-550 | the selected positions are strictly increasing (enumeration order, each once) and are exactly the requested positions below the GPU count |
| `GpuSelect.At` | src/main.rs:542-550 | the `j`-th selected GPU is the GPU at the `j`-th selected position |
| `GpuSelect.SelectGpus` | src/main.rs:537-560 | no request gives all GPUs; a bad position is the parse error; otherwise success exactly when some requested position is in range, with the GPUs at the selected positions, and `NvidiaDeviceNotFound` when none is |
| `GpuSelect.Next` | src/main.rs:529-534 | `Iterator::next` on a slice: nothing exactly when the slice is empty, otherwise its first element |
| `GpuSelect.SingleGpu` | src/main.rs:528-535 | succeeds exactly when one GPU is selected, returning it; "no GPU selected" for none, "multiple GPUs selected" for more |
| `Reset.AllowableResult` | src/main.rs:711 | the classification `allowable_result` makes: success, an allowable failure or a fatal one, each exactly when the status says so, carrying the failing status |
| `Reset.WarnResult` | src/main.rs:710-715 | success exactly when the restore succeeded or failed allowably without an explicit selection; every error is the failing status tagged with the setting |
| `Reset.ParseSettings` | src/main.rs:705 | succeeds exactly when every named setting is a table string, giving each one's variant in order; otherwise "unknown setting" |
| `Reset.PlanFrom` | src/main.rs:704-708 | named settings give their parse, marked explicit; no names give every setting in table order, not explicit |
| `Reset.ResetPlan` | src/main.rs:704-708 | as written: when the parsed arguments hold no "reset" entry, every setting is restored and none explicitly |
| `Reset.ResetPlanIntended` | src/main.rs:345-351 | as intended: the settings named by the declared "setting" argument, explicitly; all settings otherwise; an unknown name is "unknown setting" |
| `Reset.ResetPlanIgnoresSelection` | src/main.rs:704-708 | since the subcommand declares only "setting", `reset` as written always restores all eight settings, never explicitly |
| `Reset.ResetPowerOnly` | src/main.rs:704-708 | for `nvoclock reset power` the code plans all eight settings in table order with no setting marked explicit, while the intended reading restores only the power limits, explicitly |
| `Reset.SettingStatus` | src/main.rs:757-760 | the overvolt restore always fails with `NoImplementation`; every other setting is the vendor call's status |
| `Reset.AfterAssoc` | src/main.rs:717-764 | (proof helper) prefixing attempts twice is prefixing their concatenation |
| `Reset.SettingsAttempted` | src/main.rs:719-762 | the inner loop, `ResetSettingsFrom`, attempts the settings in list order on its one GPU, a prefix of the list, and all of them when it does not stop |
| `Reset.AttemptsConcat` | src/main.rs:717-764 | (proof helper) attempts on lower GPUs followed by attempts on higher GPUs stay in GPU order |
| `Reset.GpusAttempted` | src/main.rs:717-764 | the outer loop, `ResetGpusFrom`, attempts only listed settings on selected GPUs, one GPU after the other, never going back |
| `Reset.SettingsPassIff` | src/main.rs:719-762 | one GPU's settings pass exactly when no restore fails under `warn_result` |
| `Reset.SettingsFailure` | src/main.rs:719-762 | a failed inner loop ends with a `ResetError` for one of the settings, not forgiven: explicit, or a fatal status |
| `Reset.ResetSucceedsIff` | src/main.rs:717-764 | `reset` succeeds exactly when every GPU's information reads and no restore on any GPU fails under `warn_result` |
| `Reset.ResetFailure` | src/main.rs:717-764 | every error of `reset` is a failed information read of some GPU or an unforgiven restore failure; without an explicit selection only fatal statuses stop it |
| `Reset.ExplicitOvervoltFails` | src/main.rs:757-760 | naming `overvolt` explicitly makes `reset` fail |
| `Reset.ResetGpu` | src/main.rs:719-762 | the inner loop attempts the settings in order and stops at the first unforgiven failure, as `ResetSettingsFrom` specifies |
| `Reset.ResetAll` | src/main.rs:717-764 | the outer loop reads each GPU's information and then restores its settings, stopping at the first error, as `ResetGpusFrom` specifies |
| `Vfp.FindByVoltage` | src/main.rs:853-855 | finds a point exactly when some curve point has the voltage, and then it is the lowest such index |
| `Vfp.ImportPoints` | src/main.rs:850-857 | no more pairs than rows; each pair targets a curve index and comes from some row whose voltage is found there, with that row's delta |
| `Vfp.ImportAppend` | src/main.rs:850-857 | import preserves input order: importing `a + b` is importing `a` then `b` |
| `Vfp.ImportOne` | src/main.rs:850-857 | a row is kept exactly when its voltage is on the curve, targeting the lowest such index with its own delta |
| `Vfp.ImportAllMatched` | src/main.rs:850-857 | when every voltage is on the curve, nothing is dropped and the `j`-th pair comes from the `j`-th row |
| `Vfp.LockTarget` | src/main.rs:863-870 | with `--voltage` the number itself; otherwise the voltage of that curve point, or "invalid point index" when the index is not on the curve |
| `AutoSweep.WrapI32` | src/main.rs:896 | an `i32` result in release mode: in range, equal modulo 2^32, and unchanged when already in range |
| `AutoSweep.WrapU32` | src/main.rs:899 | a `u32` result in release mode: in range, equal modulo 2^32, and unchanged when already in range |
| `AutoSweep.BuildOptions` | src/main.rs:894-900 | the options carry the fan and test choices, a 2-second delay, and step and ceiling in kHz; these are exact within range and wrap in 32 bits beyond it |
| `AutoSweep.StepWrapsPastRange` | src/main.rs:896 | (illustration of `BuildOptions`) a step of 2147484 MHz wraps to a negative step |
| `AutoSweep.AutoDetect.constructor` | src/main.rs:902 | a new calibration object holds the options and has received no calls |
| `AutoSweep.AutoDetect.TestPrepare` | src/main.rs:905 | `test_prepare` is logged once and reports its status |
| `AutoSweep.AutoDetect.TestPoint` | src/main.rs:911 | `test_point` is logged with its arguments and reports the oracle's outcome for them |
| `AutoSweep.AutoDetect.TestCleanup` | src/main.rs:932 | `test_cleanup` is logged once and reports its status |
| `AutoSweep.ResolveEnd` | src/main.rs:883-892 | on a non-empty curve (the largest index is computed even when `--end` is given), the end is the `--end` index, or else the largest index on the curve |
| `AutoSweep.SweepOrder` | src/main.rs:907-908 | the indices visited are exactly the curve indices in `[start, end)`; `end` itself is never visited |
| `AutoSweep.SweepOrderDescending` | src/main.rs:907 | the sweep visits its indices strictly from the top down, each once |
| `AutoSweep.StepEffect` | src/main.rs:909-929 | one loop iteration, `Step`: after a stop nothing happens; otherwise the index is tested once with its own stored delta, a stop can only be at that index, and no other entry changes |
| `AutoSweep.RunBounds` | src/main.rs:907-930 | the loop, `Run`: at most one test per index and one for every index when it does not stop; entries and the stopping index only from the visited indices |
| `AutoSweep.RunSnoc` | src/main.rs:907-930 | (proof helper) one more index in the loop is one more `Step` |
| `AutoSweep.RunWithoutFailure` | src/main.rs:907-930 | a loop in which no test fails tests every index in order and keeps an entry for exactly the indices whose test found a point |
| `AutoSweep.RunStopsAtFailure` | src/main.rs:922-928 | a loop whose first failing test is the `k`-th stops there, with the tests up to and including it and the entries found before it |
| `AutoSweep.RunAbsorbs` | src/main.rs:927 | after the early return, further indices change nothing |
| `AutoSweep.SweepOrderSplit` | src/main.rs:907 | the order of a range is the order of its upper part followed by that of its lower part |
| `AutoSweep.SweepOneMore` | src/main.rs:907-930 | widening the range by one index at the bottom adds one `Step` if the index is on the curve, and nothing otherwise |
| `AutoSweep.SweepStops` | src/main.rs:922-928 | a sweep that stopped in the upper part of its range ends there |
| `AutoSweep.SweepCompletes` | src/main.rs:907-921 | with no failing test: every curve index in the range is tested from the top down with its own stored delta; the entries are exactly the indices whose test found a point, each with the point's voltage and the frequency and delta found |
| `AutoSweep.SweepFailsAt` | src/main.rs:922-928 | when the test at `k` fails and all above succeed: the sweep stops at `k` with that error, tests from the top down to `k`, and keeps exactly the entries found above `k` |
| `AutoSweep.FinalStatus` | src/main.rs:932-936 | success exactly when both cleanup and output succeed; a cleanup error takes precedence over an output error |
| `AutoSweep.TestCallsSnoc` | src/main.rs:911 | (proof helper) logging one more test appends one `Tested` call |
| `AutoSweep.TestIndex` | src/main.rs:909-929 | one loop iteration: one logged test with the point's own stored delta; the results and the stop agree with `Step` |
| `AutoSweep.SweepLoop` | src/main.rs:907-930 | the loop's results, logged tests and stopping error are those of `Run` over the sweep order |
| `AutoSweep.RunAuto` | src/main.rs:880-937 | a construction error returns before any call; a prepare error returns after `Prepared` alone with nothing handed over. Otherwise the calls are `Prepared`, the sweep's tests, then exactly one `CleanedUp`; the results go out in ascending index order; the result is the failing test's error, else the cleanup error, else the output error |

## Left out

- `src/auto.rs` is not part of this model. The search that `test_point` runs is the oracle `script`. Preparing, cleaning up and constructing the calibration object succeed or fail as `Environment` says.
- The NVAPI calls are abstract or left out:
  - `Gpu::enumerate`, and the `gpu.status()` and `gpu.settings()` reads, are left out; the sweep takes the curve and the stored deltas they yield as its inputs;
  - in `reset`, `info` stands only for whether `gpu.info()` succeeds (src/main.rs:718), not for what it returns (the default limits and the power-state table the restores use);
  - in `reset`, `apply` is the status of each `set_*`/`reset_*` restore;
  - `set_vfp_table` and `set_vfp_lock` (and the `gpu.status()` read before the lock) are left out entirely: `Vfp.ImportPoints` and `Vfp.LockTarget` stop at the values these calls would receive;
  - `allowable_result` is the classifier `isAllowable`;
  - GPUs are positions or the type parameter `G`.
- The argument parser is modelled only by what the modelled code reads from it (occurrence and value counts, `values_of`). Its construction, defaults and `possible_values` restrictions are left out.
- Parsing `--start`, `--end`, `--step`, `--max` and `--point` with `from_str` is left out. The sweep takes the parsed numbers.
- CSV and JSON reading and writing, and printing to standard output, are left out. `export_vfp` is the sequence of values handed over plus its outcome `exportStatus`. The `human` display module and logging are left out.
- The `overvolt` command (`unimplemented!`) is left out.
- The settle delay is recorded only as the number of seconds (2). Timing is not modelled.
- Panics are preconditions or `None`; `ParseBoolMatch` and `SwitchText` give `None` for `unreachable!()`.
- `AutoSweep.RunAuto` (and `AutoSweep.ResolveEnd`) require a non-empty curve, whether or not `--end` is given: `unwrap_or` evaluates `max().unwrap()` eagerly (src/main.rs:892).
- `AutoSweep.RunAuto` (and `AutoSweep.SweepLoop`) require a stored delta for every curve index in the range, including those below a failing test that the program never reaches. The program's `get(&i).unwrap()` (src/main.rs:909) panics only at an index it reaches; it assumes that the curve and delta maps share their indices. An input whose delta map lacks an index below the first failing test is therefore outside the model.
- `BuildOptions` requires 32-bit inputs, as their Rust types guarantee. It follows a release build's wrap-around on overflow, not a debug build's panic.
- The `Base` enumerations list only the variants the program's tables name. A variant of the vendor's own enumerations that the program does not list (the `"unknown"` arm of `to_str`) appears only in the generic `EnumTables.ToStr`.

## Findings

| source | as written | input that shows it | evidently intended | confidence | as-written member | corrected member |
|---|---|---|---|---|---|---|
| src/main.rs:704 | `reset` reads the values of an argument named "reset", but its subcommand declares the argument as "setting" (src/main.rs:345), so the lookup is always empty: every setting is restored and no failure counts as explicit | `nvoclock reset power` restores all eight settings, and an allowable failure is not reported | restore only the named settings, and report their allowable failures | not executed | `Reset.ResetPowerOnly` | `Reset.ResetPlanIntended` |
