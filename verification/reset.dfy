/** The `reset` command: which settings it restores, whether a failure to
    restore one stops the command (`warn_result`), and the loop over the
    selected GPUs and settings. The vendor calls are left abstract: `info` is
    the outcome of reading a GPU's information, `apply` the outcome of
    restoring one setting on one GPU, and `isAllowable` the classification
    that `nvapi::allowable_result` makes of a failure status. GPUs are named
    by their position among the selected ones. */
module Reset {
  import opened Base
  import opened EnumTables

  /** `nvapi::allowable_result`: success, an allowable failure (`Ok(Err(e))`)
      or a fatal one (`Err(e)`). */
  function AllowableResult(r: Result<(), Status>, isAllowable: Status -> bool): (c: Result<Result<(), Status>, Status>)
    ensures c == Ok(Ok(())) <==> r.Ok?
    ensures c.Ok? && c.value.Err? <==> r.Err? && isAllowable(r.error)
    ensures c.Err? <==> r.Err? && !isAllowable(r.error)
    ensures r.Err? ==> (if c.Ok? then c.value.error else c.error) == r.error
  {
    match r
    case Ok(_) => Ok(Ok(()))
    case Err(e) => if isAllowable(e) then Ok(Err(e)) else Err(e)
  }

  /** `warn_result`: a fatal failure always stops the command, an allowable
      one only when the settings were named explicitly; the error is tagged
      with the setting. */
  function WarnResult(r: Result<(), Status>, setting: ResetSettings, explicit: bool, isAllowable: Status -> bool): (w: Result<(), Error>)
    ensures w.Ok? <==> r.Ok? || (!explicit && isAllowable(r.error))
    ensures w.Err? ==> r.Err? && w.error == ResetError(setting, r.error)
  {
    match AllowableResult(r, isAllowable)
    case Err(e) => Err(ResetError(setting, e))
    case Ok(inner) =>
      match (inner, explicit)
      case (Err(e), true) => Err(ResetError(setting, e))
      case _ => Ok(())
  }

  /** `from_str` over every named setting, collected into one result: the
      first unknown name fails the command. */
  function ParseSettings(args: seq<string>): (r: Result<seq<ResetSettings>, Error>)
    ensures r.Ok? <==> forall j :: 0 <= j < |args| ==> args[j] in PossibleValues(ResetSettingsTable)
    ensures r.Ok? ==> (|r.value| == |args|
      && forall j :: 0 <= j < |args| ==> Ok(r.value[j]) == FromStr(ResetSettingsTable, args[j]))
    ensures r.Err? ==> r.error == Str("unknown setting")
  {
    if args == [] then Ok([])
    else
      var first :- FromStr(ResetSettingsTable, args[0]);
      var rest :- ParseSettings(args[1..]);
      assert forall j :: 1 <= j < |args| ==> args[1..][j - 1] == args[j];
      Ok([first] + rest)
  }

  /** The settings to restore and whether they were named: the named ones,
      or else every setting in table order. */
  function PlanFrom(named: Option<seq<string>>): (r: Result<(seq<ResetSettings>, bool), Error>)
    ensures named.None? ==> r == Ok((PossibleValuesTyped(ResetSettingsTable), false))
    ensures named.Some? ==> r.Ok? == ParseSettings(named.value).Ok?
    ensures named.Some? && r.Ok? ==> r.value == (ParseSettings(named.value).value, true)
  {
    match named
    case None => Ok((PossibleValuesTyped(ResetSettingsTable), false))
    case Some(args) =>
      var settings :- ParseSettings(args);
      Ok((settings, true))
  }

  /** The plan as the program computes it: it asks for the values of an
      argument called "reset", but the subcommand declares its argument as
      "setting". */
  function ResetPlan(matches: map<string, seq<string>>): (r: Result<(seq<ResetSettings>, bool), Error>)
    ensures "reset" !in matches ==> r == Ok((PossibleValuesTyped(ResetSettingsTable), false))
  {
    PlanFrom(Lookup(matches, "reset"))
  }

  /** The plan as intended: the values of the declared "setting" argument. */
  function ResetPlanIntended(matches: map<string, seq<string>>): (r: Result<(seq<ResetSettings>, bool), Error>)
    ensures "setting" !in matches ==> r == Ok((PossibleValuesTyped(ResetSettingsTable), false))
    ensures "setting" in matches && ParseSettings(matches["setting"]).Ok? ==>
      r == Ok((ParseSettings(matches["setting"]).value, true))
    ensures "setting" in matches && ParseSettings(matches["setting"]).Err? ==> r == Err(Str("unknown setting"))
  {
    PlanFrom(Lookup(matches, "setting"))
  }

  /** The subcommand declares only "setting", so the parsed arguments never
      hold "reset": as written, `reset` always restores every setting and
      never treats a failure as explicit, whatever the user names. */
  lemma ResetPlanIgnoresSelection(matches: map<string, seq<string>>)
    requires matches.Keys <= {"setting"}
    ensures ResetPlan(matches) == Ok(([VoltageBoost, SensorLimits, PowerLimits, CoolerLevels,
                                       VfpDeltas, VfpLock, PStateDeltas, Overvolt], false))
  {
    assert "reset" !in matches;
    ResetSettingsTableListsAll();
  }

  /** `nvoclock reset power`: the program restores all eight settings, the
      intended reading restores the power limits only, explicitly. */
  lemma ResetPowerOnly()
    ensures ResetPlan(map["setting" := ["power"]]) == Ok((PossibleValuesTyped(ResetSettingsTable), false))
    ensures ResetPlanIntended(map["setting" := ["power"]]) == Ok(([PowerLimits], true))
  {
    var m := map["setting" := ["power"]];
    ResetPlanIgnoresSelection(m);
    ResetSettingsTableDistinct();
    ResetSettingsTableListsAll();
    ArmSelected(ResetSettingsTable, 2);
    assert FromStr(ResetSettingsTable, "power") == Ok(PowerLimits);
    assert PossibleValues(ResetSettingsTable)[2] == "power";
    var parsed := ParseSettings(["power"]);
    assert parsed.Ok? && |parsed.value| == 1 && parsed.value[0] == PowerLimits;
    assert parsed.value == [PowerLimits];
  }

  /** The status of restoring one setting: the overvolt reset is not
      implemented and always fails with `NoImplementation`. */
  function SettingStatus(gpu: nat, setting: ResetSettings, apply: (nat, ResetSettings) -> Result<(), Status>): (r: Result<(), Status>)
    ensures setting == Overvolt ==> r == Err(NoImplementation)
    ensures setting != Overvolt ==> r == apply(gpu, setting)
  {
    if setting == Overvolt then Err(NoImplementation) else apply(gpu, setting)
  }

  /** What a run of the reset loop did: the (GPU, setting) pairs it tried to
      restore, in order, and how the command ended. */
  datatype ResetRun = ResetRun(attempted: seq<(nat, ResetSettings)>, result: Result<(), Error>)

  /** The run `run`, preceded by the attempts `done`. */
  function After(done: seq<(nat, ResetSettings)>, run: ResetRun): ResetRun
  {
    ResetRun(done + run.attempted, run.result)
  }

  lemma AfterAssoc(a: seq<(nat, ResetSettings)>, b: seq<(nat, ResetSettings)>, run: ResetRun)
    ensures After(a, After(b, run)) == After(a + b, run)
  {
    assert a + (b + run.attempted) == (a + b) + run.attempted;
  }

  /** The inner loop from the `j`-th setting on, for GPU `gpu`. */
  function ResetSettingsFrom(gpu: nat, settings: seq<ResetSettings>, j: nat, explicit: bool,
                             apply: (nat, ResetSettings) -> Result<(), Status>, isAllowable: Status -> bool): ResetRun
    decreases |settings| - j
  {
    if j >= |settings| then ResetRun([], Ok(()))
    else
      var w := WarnResult(SettingStatus(gpu, settings[j], apply), settings[j], explicit, isAllowable);
      if w.Err? then ResetRun([(gpu, settings[j])], w)
      else
        var rest := ResetSettingsFrom(gpu, settings, j + 1, explicit, apply, isAllowable);
        After([(gpu, settings[j])], rest)
  }

  /** The outer loop from the `g`-th selected GPU on. */
  function ResetGpusFrom(gpuCount: nat, g: nat, settings: seq<ResetSettings>, explicit: bool, info: nat -> Result<(), Status>,
                         apply: (nat, ResetSettings) -> Result<(), Status>, isAllowable: Status -> bool): ResetRun
    decreases gpuCount - g
  {
    if g >= gpuCount then ResetRun([], Ok(()))
    else if info(g).Err? then ResetRun([], Err(Nvapi(info(g).error)))
    else
      var here := ResetSettingsFrom(g, settings, 0, explicit, apply, isAllowable);
      if here.result.Err? then here
      else
        var rest := ResetGpusFrom(gpuCount, g + 1, settings, explicit, info, apply, isAllowable);
        After(here.attempted, rest)
  }

  /** The inner loop attempts the settings from the `j`-th on, in order and
      each on GPU `gpu`, up to the first unforgiven failure; a run without
      failure attempts them all. */
  lemma {:induction false} SettingsAttempted(gpu: nat, settings: seq<ResetSettings>, j: nat, explicit: bool,
                                             apply: (nat, ResetSettings) -> Result<(), Status>, isAllowable: Status -> bool)
    requires j <= |settings|
    ensures var run := ResetSettingsFrom(gpu, settings, j, explicit, apply, isAllowable);
      && |run.attempted| <= |settings| - j
      && (forall k :: 0 <= k < |run.attempted| ==> run.attempted[k] == (gpu, settings[j + k]))
      && (run.result.Ok? ==> |run.attempted| == |settings| - j)
    decreases |settings| - j
  {
    if j < |settings| {
      SettingsAttempted(gpu, settings, j + 1, explicit, apply, isAllowable);
    }
  }

  /** Every attempt is on a GPU of `[g, gpuCount)` and restores a setting of
      the list, and the GPUs are taken in order, never going back. */
  ghost predicate AttemptsInOrder(attempted: seq<(nat, ResetSettings)>, g: nat, gpuCount: nat, settings: seq<ResetSettings>)
  {
    && (forall k :: 0 <= k < |attempted| ==> g <= attempted[k].0 < gpuCount && attempted[k].1 in settings)
    && (forall a, b :: 0 <= a < b < |attempted| ==> attempted[a].0 <= attempted[b].0)
  }

  /** Attempts on GPUs below `mid` followed by attempts on GPUs from `mid` on
      are still in GPU order. */
  lemma AttemptsConcat(a: seq<(nat, ResetSettings)>, b: seq<(nat, ResetSettings)>, lo: nat, mid: nat, hi: nat, settings: seq<ResetSettings>)
    requires lo <= mid <= hi
    requires AttemptsInOrder(a, lo, mid, settings) && AttemptsInOrder(b, mid, hi, settings)
    ensures AttemptsInOrder(a + b, lo, hi, settings)
  {
    var all := a + b;
    var n := |a|;
    forall k | 0 <= k < |all| ensures lo <= all[k].0 < hi && all[k].1 in settings {
      if k < n {
        assert all[k] == a[k];
      } else {
        assert all[k] == b[k - n];
      }
    }
    forall i, j | 0 <= i < j < |all| ensures all[i].0 <= all[j].0 {
      if j < n {
        assert all[i] == a[i] && all[j] == a[j];
      } else if i < n {
        assert all[i] == a[i] && all[j] == b[j - n];
      } else {
        assert all[i] == b[i - n] && all[j] == b[j - n];
      }
    }
  }

  /** The outer loop attempts only settings of the list, on the GPUs from
      the `g`-th on, one GPU after the other. */
  lemma {:induction false} GpusAttempted(gpuCount: nat, g: nat, settings: seq<ResetSettings>, explicit: bool, info: nat -> Result<(), Status>,
                                         apply: (nat, ResetSettings) -> Result<(), Status>, isAllowable: Status -> bool)
    ensures AttemptsInOrder(ResetGpusFrom(gpuCount, g, settings, explicit, info, apply, isAllowable).attempted, g, gpuCount, settings)
    decreases gpuCount - g
  {
    if g < gpuCount && info(g).Ok? {
      var here := ResetSettingsFrom(g, settings, 0, explicit, apply, isAllowable);
      SettingsAttempted(g, settings, 0, explicit, apply, isAllowable);
      assert AttemptsInOrder(here.attempted, g, g + 1, settings) by {
        forall k | 0 <= k < |here.attempted| ensures here.attempted[k].0 == g && here.attempted[k].1 in settings {
          assert here.attempted[k] == (g, settings[k]);
        }
      }
      if here.result.Ok? {
        GpusAttempted(gpuCount, g + 1, settings, explicit, info, apply, isAllowable);
        AttemptsConcat(here.attempted, ResetGpusFrom(gpuCount, g + 1, settings, explicit, info, apply, isAllowable).attempted,
                       g, g + 1, gpuCount, settings);
      } else {
        AttemptsConcat(here.attempted, [], g, g + 1, gpuCount, settings);
        assert here.attempted + [] == here.attempted;
      }
    }
  }

  /** The settings of one GPU pass exactly when no setting's restore fails
      under `warn_result`. */
  lemma {:induction false} SettingsPassIff(gpu: nat, settings: seq<ResetSettings>, j: nat, explicit: bool,
                                           apply: (nat, ResetSettings) -> Result<(), Status>, isAllowable: Status -> bool)
    requires j <= |settings|
    ensures ResetSettingsFrom(gpu, settings, j, explicit, apply, isAllowable).result.Ok? <==>
      forall k :: j <= k < |settings| ==> WarnResult(SettingStatus(gpu, settings[k], apply), settings[k], explicit, isAllowable).Ok?
    decreases |settings| - j
  {
    if j < |settings| {
      SettingsPassIff(gpu, settings, j + 1, explicit, apply, isAllowable);
    }
  }

  /** The failures a run of the inner loop can end with: a restore that
      failed and that `warn_result` did not forgive. */
  lemma {:induction false} SettingsFailure(gpu: nat, settings: seq<ResetSettings>, j: nat, explicit: bool,
                                           apply: (nat, ResetSettings) -> Result<(), Status>, isAllowable: Status -> bool)
    ensures var run := ResetSettingsFrom(gpu, settings, j, explicit, apply, isAllowable);
      run.result.Err? ==>
        run.result.error.ResetError? && run.result.error.setting in settings
        && (explicit || !isAllowable(run.result.error.err))
    decreases |settings| - j
  {
    if j < |settings| {
      SettingsFailure(gpu, settings, j + 1, explicit, apply, isAllowable);
    }
  }

  /** GPU `gpu`'s information can be read and none of its restores fails
      under `warn_result`. */
  ghost predicate GpuPasses(gpu: nat, settings: seq<ResetSettings>, explicit: bool, info: nat -> Result<(), Status>,
                            apply: (nat, ResetSettings) -> Result<(), Status>, isAllowable: Status -> bool)
  {
    info(gpu).Ok? &&
    forall k :: 0 <= k < |settings| ==> WarnResult(SettingStatus(gpu, settings[k], apply), settings[k], explicit, isAllowable).Ok?
  }

  /** `reset` succeeds exactly when every GPU's information can be read and
      no restore on any GPU fails under `warn_result`. */
  lemma {:induction false} ResetSucceedsIff(gpuCount: nat, g: nat, settings: seq<ResetSettings>, explicit: bool, info: nat -> Result<(), Status>,
                                            apply: (nat, ResetSettings) -> Result<(), Status>, isAllowable: Status -> bool)
    ensures ResetGpusFrom(gpuCount, g, settings, explicit, info, apply, isAllowable).result.Ok? <==>
      forall h :: g <= h < gpuCount ==> GpuPasses(h, settings, explicit, info, apply, isAllowable)
    decreases gpuCount - g
  {
    if g < gpuCount {
      SettingsPassIff(g, settings, 0, explicit, apply, isAllowable);
      ResetSucceedsIff(gpuCount, g + 1, settings, explicit, info, apply, isAllowable);
      if !GpuPasses(g, settings, explicit, info, apply, isAllowable) {
        assert ResetGpusFrom(gpuCount, g, settings, explicit, info, apply, isAllowable).result.Err?;
      }
    }
  }

  /** Every error `reset` ends with is either the failure to read a GPU's
      information or a restore failure that `warn_result` did not forgive:
      without an explicit selection only fatal statuses stop the command. */
  lemma {:induction false} ResetFailure(gpuCount: nat, g: nat, settings: seq<ResetSettings>, explicit: bool, info: nat -> Result<(), Status>,
                                        apply: (nat, ResetSettings) -> Result<(), Status>, isAllowable: Status -> bool)
    ensures var run := ResetGpusFrom(gpuCount, g, settings, explicit, info, apply, isAllowable);
      run.result.Err? ==>
        (exists h :: g <= h < gpuCount && info(h).Err? && run.result.error == Nvapi(info(h).error))
        || (run.result.error.ResetError? && run.result.error.setting in settings
            && (explicit || !isAllowable(run.result.error.err)))
    decreases gpuCount - g
  {
    if g < gpuCount && info(g).Ok? {
      SettingsFailure(g, settings, 0, explicit, apply, isAllowable);
      ResetFailure(gpuCount, g + 1, settings, explicit, info, apply, isAllowable);
    }
  }

  /** Naming `overvolt` explicitly makes `reset` fail on any GPU whose
      information can be read, since its restore is not implemented. */
  lemma ExplicitOvervoltFails(gpuCount: nat, settings: seq<ResetSettings>, info: nat -> Result<(), Status>,
                              apply: (nat, ResetSettings) -> Result<(), Status>, isAllowable: Status -> bool)
    requires Overvolt in settings && gpuCount > 0
    ensures ResetGpusFrom(gpuCount, 0, settings, true, info, apply, isAllowable).result.Err?
  {
    var k :| 0 <= k < |settings| && settings[k] == Overvolt;
    assert WarnResult(SettingStatus(0, settings[k], apply), settings[k], true, isAllowable).Err?;
    assert !GpuPasses(0, settings, true, info, apply, isAllowable);
    ResetSucceedsIff(gpuCount, 0, settings, true, info, apply, isAllowable);
  }

  /** The inner loop: restore each setting on GPU `gpu` in turn; the first
      failure that `warn_result` does not forgive ends the command. */
  method ResetGpu(gpu: nat, settings: seq<ResetSettings>, explicit: bool,
                  apply: (nat, ResetSettings) -> Result<(), Status>, isAllowable: Status -> bool)
    returns (attempted: seq<(nat, ResetSettings)>, r: Result<(), Error>)
    ensures ResetRun(attempted, r) == ResetSettingsFrom(gpu, settings, 0, explicit, apply, isAllowable)
  {
    attempted := [];
    var j := 0;
    while j < |settings|
      invariant j <= |settings|
      invariant ResetSettingsFrom(gpu, settings, 0, explicit, apply, isAllowable)
             == After(attempted, ResetSettingsFrom(gpu, settings, j, explicit, apply, isAllowable))
    {
      var setting := settings[j];
      var w := WarnResult(SettingStatus(gpu, setting, apply), setting, explicit, isAllowable);
      AfterAssoc(attempted, [(gpu, setting)], ResetSettingsFrom(gpu, settings, j + 1, explicit, apply, isAllowable));
      attempted := attempted + [(gpu, setting)];
      if w.Err? {
        return attempted, w;
      }
      j := j + 1;
    }
    r := Ok(());
  }

  /** The reset loop: for each selected GPU read its information, then
      restore its settings; the first error ends the command. */
  method ResetAll(gpuCount: nat, settings: seq<ResetSettings>, explicit: bool, info: nat -> Result<(), Status>,
                  apply: (nat, ResetSettings) -> Result<(), Status>, isAllowable: Status -> bool)
    returns (attempted: seq<(nat, ResetSettings)>, r: Result<(), Error>)
    ensures ResetRun(attempted, r) == ResetGpusFrom(gpuCount, 0, settings, explicit, info, apply, isAllowable)
  {
    attempted := [];
    var g := 0;
    while g < gpuCount
      invariant g <= gpuCount
      invariant ResetGpusFrom(gpuCount, 0, settings, explicit, info, apply, isAllowable)
             == After(attempted, ResetGpusFrom(gpuCount, g, settings, explicit, info, apply, isAllowable))
    {
      var status := info(g);
      if status.Err? {
        return attempted, Err(Nvapi(status.error));
      }
      var done, w := ResetGpu(g, settings, explicit, apply, isAllowable);
      AfterAssoc(attempted, done, ResetGpusFrom(gpuCount, g + 1, settings, explicit, info, apply, isAllowable));
      attempted := attempted + done;
      if w.Err? {
        return attempted, w;
      }
      g := g + 1;
    }
    r := Ok(());
  }
}
