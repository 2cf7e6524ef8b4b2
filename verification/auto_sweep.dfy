/** The `set vfp auto` command: a calibration sweep over the points of the
    voltage/frequency curve. The calibration object itself (`AutoDetect`) is
    abstract: what its test of a point finds is the oracle `script`, and its
    preparation, cleanup and construction succeed or fail as its environment
    says. The driver walks the curve indices from the top of the requested
    range down, records what each test finds, and always hands the results
    found so far to the output once the calibration has been prepared. */
module AutoSweep {
  import opened Base
  import opened Ordered
  import opened Vfp

  // ---------------------------------------------------------------------
  // Integer widths of the options

  predicate IsI32(x: int) { -0x8000_0000 <= x < 0x8000_0000 }

  predicate IsU32(x: int) { 0 <= x < 0x1_0000_0000 }

  /** A signed 32-bit result as a release build computes it: two's-complement
      wrap-around. */
  function WrapI32(x: int): (r: int)
    ensures IsI32(r)
    ensures (r - x) % 0x1_0000_0000 == 0
    ensures IsI32(x) ==> r == x
  {
    (x + 0x8000_0000) % 0x1_0000_0000 - 0x8000_0000
  }

  /** An unsigned 32-bit result as a release build computes it. */
  function WrapU32(x: int): (r: int)
    ensures IsU32(r)
    ensures (r - x) % 0x1_0000_0000 == 0
    ensures IsU32(x) ==> r == x
  {
    x % 0x1_0000_0000
  }

  /** `auto::AutoDetectOptions`: frequencies in kHz, the settle delay in seconds. */
  datatype AutoDetectOptions = AutoDetectOptions(
    fanOverride: bool,
    step: int,
    test: Option<string>,
    voltageWaitDelaySecs: nat,
    maxFrequency: int)

  /** The options of the sweep: the step and the frequency ceiling are given
      in MHz (an `i32` and a `u32`) and multiplied by 1000 in their own width;
      the settle delay is two seconds. */
  function BuildOptions(fanOverride: bool, stepMhz: int, test: Option<string>, maxMhz: int): (o: AutoDetectOptions)
    requires IsI32(stepMhz) && IsU32(maxMhz)
    ensures o.fanOverride == fanOverride && o.test == test && o.voltageWaitDelaySecs == 2
    ensures IsI32(o.step) && (o.step - stepMhz * 1000) % 0x1_0000_0000 == 0
    ensures IsU32(o.maxFrequency) && (o.maxFrequency - maxMhz * 1000) % 0x1_0000_0000 == 0
    ensures -2147483 <= stepMhz <= 2147483 ==> o.step == stepMhz * 1000
    ensures maxMhz <= 4294967 ==> o.maxFrequency == maxMhz * 1000
  {
    AutoDetectOptions(fanOverride, WrapI32(stepMhz * 1000), test, 2, WrapU32(maxMhz * 1000))
  }

  /** An illustration of the wrap-around that `BuildOptions` states for every
      input: past the exact range, 2147484 MHz becomes a negative step. */
  lemma StepWrapsPastRange()
    ensures BuildOptions(false, 2147484, None, 0).step == 2147484000 - 0x1_0000_0000
  {
  }

  // ---------------------------------------------------------------------
  // The calibration object

  /** One call of `test_point`: the curve index, the point's voltage (µV)
      and frequency (kHz), and the frequency delta (kHz) it starts from. */
  datatype PointRequest = PointRequest(index: nat, voltage: nat, frequency: nat, delta: int)

  /** What `test_point` reports: the best `(delta, frequency)` found, nothing,
      or an error. */
  type Outcome = Result<Option<(int, nat)>, Error>

  /** The calls made on the calibration object, in order. */
  datatype Call = Prepared | Tested(request: PointRequest) | CleanedUp

  /** The calibration object. Its answers come from the `*Status` fields and
      the `script`; `calls` records what was asked of it. */
  class AutoDetect {
    const options: AutoDetectOptions
    const prepareStatus: Result<(), Error>
    const script: PointRequest -> Outcome
    const cleanupStatus: Result<(), Error>
    var calls: seq<Call>

    constructor (options: AutoDetectOptions, prepareStatus: Result<(), Error>,
                 script: PointRequest -> Outcome, cleanupStatus: Result<(), Error>)
      ensures this.options == options && this.prepareStatus == prepareStatus
      ensures this.script == script && this.cleanupStatus == cleanupStatus
      ensures calls == []
    {
      this.options := options;
      this.prepareStatus := prepareStatus;
      this.script := script;
      this.cleanupStatus := cleanupStatus;
      calls := [];
    }

    /** `test_prepare`. */
    method TestPrepare() returns (r: Result<(), Error>)
      modifies this
      ensures r == prepareStatus
      ensures calls == old(calls) + [Prepared]
    {
      calls := calls + [Prepared];
      r := prepareStatus;
    }

    /** `test_point(index, voltage, frequency, delta)`. */
    method TestPoint(index: nat, voltage: nat, frequency: nat, delta: int) returns (r: Outcome)
      modifies this
      ensures r == script(PointRequest(index, voltage, frequency, delta))
      ensures calls == old(calls) + [Tested(PointRequest(index, voltage, frequency, delta))]
    {
      calls := calls + [Tested(PointRequest(index, voltage, frequency, delta))];
      r := script(PointRequest(index, voltage, frequency, delta));
    }

    /** `test_cleanup`. */
    method TestCleanup() returns (r: Result<(), Error>)
      modifies this
      ensures r == cleanupStatus
      ensures calls == old(calls) + [CleanedUp]
    {
      calls := calls + [CleanedUp];
      r := cleanupStatus;
    }
  }

  /** The answers of everything the sweep calls but does not compute:
      constructing the calibration object, preparing it, testing each point,
      cleaning up, and writing the results out (an I/O error message). */
  datatype Environment = Environment(
    newStatus: Result<(), Error>,
    prepareStatus: Result<(), Error>,
    script: PointRequest -> Outcome,
    cleanupStatus: Result<(), Error>,
    exportStatus: Result<(), string>)

  // ---------------------------------------------------------------------
  // The sweep as a function of its inputs

  /** The end of the range (exclusive): the `--end` index, or else the
      largest index on the curve. The largest index is computed (and must
      exist) even when `--end` is given, since `unwrap_or` takes its default
      as an evaluated value. */
  function ResolveEnd(endArg: Option<nat>, curve: map<nat, CurvePoint>): (e: nat)
    requires curve != map[]
    ensures endArg.Some? ==> e == endArg.value
    ensures endArg.None? ==> e in curve && forall i :: i in curve ==> i <= e
  {
    assert curve.Keys != {} by {
      var k :| k in curve;
    }
    var greatest := Greatest(curve.Keys);
    match endArg
    case Some(e) => e
    case None => greatest
  }

  /** The indices `(start..end).rev()` that are on the curve: those of
      `[start, end)`, never `end` itself. */
  function SweepOrder(keys: set<nat>, start: nat, end: nat): (order: seq<nat>)
    ensures forall i :: i in order <==> i in keys && start <= i < end
    decreases end - start
  {
    if start >= end then []
    else SweepOrder(keys, start + 1, end) + (if start in keys then [start] else [])
  }

  /** Strictly decreasing: each element once, from the top down. */
  ghost predicate Descending(s: seq<nat>)
  {
    forall a, b :: 0 <= a < b < |s| ==> s[a] > s[b]
  }

  /** The sweep visits its indices from the top down, each once. */
  lemma {:induction false} SweepOrderDescending(keys: set<nat>, start: nat, end: nat)
    ensures Descending(SweepOrder(keys, start, end))
    decreases end - start
  {
    if start < end {
      SweepOrderDescending(keys, start + 1, end);
      var higher := SweepOrder(keys, start + 1, end);
      var low := if start in keys then [start] else [];
      var order := SweepOrder(keys, start, end);
      assert order == higher + low;
      forall a, b | 0 <= a < b < |order| ensures order[a] > order[b] {
        assert order[a] == higher[a];
        if b < |higher| {
          assert order[b] == higher[b] && higher[a] > higher[b];
        } else {
          assert order[b] == start && higher[a] in higher;
        }
      }
    }
  }

  /** The curve, the stored deltas and the test oracle of one sweep. */
  datatype Sweep = Sweep(curve: map<nat, CurvePoint>, deltas: map<nat, int>, script: PointRequest -> Outcome)

  /** Every index of `order` has a curve point and a stored delta. */
  ghost predicate Testable(sw: Sweep, order: seq<nat>)
  {
    forall i :: i in order ==> i in sw.curve && i in sw.deltas
  }

  /** The test of index `i`: its own point and its own stored delta. */
  function Request(sw: Sweep, i: nat): PointRequest
    requires i in sw.curve && i in sw.deltas
  {
    PointRequest(i, sw.curve[i].voltage, sw.curve[i].frequency, sw.deltas[i])
  }

  function OutcomeAt(sw: Sweep, i: nat): Outcome
    requires i in sw.curve && i in sw.deltas
  {
    sw.script(Request(sw, i))
  }

  /** The state of the sweep: results by index, the tests made, and the
      failure (index and error) that stopped it, if any. */
  datatype SweepState = SweepState(results: map<nat, VfPoint>, tested: seq<PointRequest>, failure: Option<(nat, Error)>)

  /** One iteration of the loop: once stopped, nothing more happens. */
  function Step(sw: Sweep, s: SweepState, i: nat): SweepState
    requires i in sw.curve && i in sw.deltas
  {
    if s.failure.Some? then s
    else
      var req := Request(sw, i);
      match sw.script(req)
      case Ok(Some(found)) =>
        SweepState(s.results[i := VfPoint(sw.curve[i].voltage, found.1, found.0)], s.tested + [req], None)
      case Ok(None) => SweepState(s.results, s.tested + [req], None)
      case Err(e) => SweepState(s.results, s.tested + [req], Some((i, e)))
  }

  /** The loop over `order`, one `Step` per index. */
  function Run(sw: Sweep, order: seq<nat>): SweepState
    requires Testable(sw, order)
    decreases |order|
  {
    if order == [] then SweepState(map[], [], None)
    else
      var before := order[..|order| - 1];
      assert forall i :: i in before ==> i in order;
      Step(sw, Run(sw, before), order[|order| - 1])
  }

  /** `Run` takes one more `Step` for one more index. */
  lemma RunSnoc(sw: Sweep, order: seq<nat>, i: nat)
    requires Testable(sw, order) && i in sw.curve && i in sw.deltas
    ensures Testable(sw, order + [i])
    ensures Run(sw, order + [i]) == Step(sw, Run(sw, order), i)
  {
    assert (order + [i])[..|order|] == order;
  }

  /** What one iteration does: once stopped, nothing; otherwise it tests
      index `i` with its own stored delta, may stop there, and changes no
      entry but the one at `i`. */
  lemma StepEffect(sw: Sweep, s: SweepState, i: nat)
    requires i in sw.curve && i in sw.deltas
    ensures s.failure.Some? ==> Step(sw, s, i) == s
    ensures s.failure.None? ==> Step(sw, s, i).tested == s.tested + [Request(sw, i)]
    ensures s.failure.None? && Step(sw, s, i).failure.Some? ==> Step(sw, s, i).failure.value.0 == i
    ensures s.failure.None? ==> Step(sw, s, i).results.Keys <= s.results.Keys + {i}
    ensures forall k :: k in s.results && k != i ==> k in Step(sw, s, i).results && Step(sw, s, i).results[k] == s.results[k]
  {
  }

  /** What the loop does over `order`: at most one test per index, one for
      every index when it does not stop, entries only for indices of
      `order`, and a stop only at one of them. */
  lemma {:induction false} RunBounds(sw: Sweep, order: seq<nat>)
    requires Testable(sw, order)
    ensures |Run(sw, order).tested| <= |order|
    ensures Run(sw, order).failure.None? ==> |Run(sw, order).tested| == |order|
    ensures forall k :: k in Run(sw, order).results ==> k in order
    ensures Run(sw, order).failure.Some? ==> Run(sw, order).failure.value.0 in order
    decreases |order|
  {
    if order != [] {
      var before := order[..|order| - 1];
      assert forall i :: i in before ==> i in order;
      RunBounds(sw, before);
      StepEffect(sw, Run(sw, before), order[|order| - 1]);
    }
  }

  /** The tests of the indices of `order`, in order. */
  function Requests(sw: Sweep, order: seq<nat>): seq<PointRequest>
    requires Testable(sw, order)
  {
    seq(|order|, j requires 0 <= j < |order| => Request(sw, order[j]))
  }

  /** The entry recorded for an index whose test found a point. */
  function Entry(sw: Sweep, i: nat): VfPoint
    requires i in sw.curve && i in sw.deltas && OutcomeAt(sw, i).Ok? && OutcomeAt(sw, i).value.Some?
  {
    var found := OutcomeAt(sw, i).value.value;
    VfPoint(sw.curve[i].voltage, found.1, found.0)
  }

  /** The results of testing every index of `order`: one entry for each
      index whose test found a point. */
  function Found(sw: Sweep, order: seq<nat>): map<nat, VfPoint>
    requires Testable(sw, order)
  {
    map i | i in order && OutcomeAt(sw, i).Ok? && OutcomeAt(sw, i).value.Some? :: Entry(sw, i)
  }

  /** No test of an index of `order` fails. */
  ghost predicate AllOk(sw: Sweep, order: seq<nat>)
    requires Testable(sw, order)
  {
    forall i :: i in order ==> OutcomeAt(sw, i).Ok?
  }

  /** A sweep in which no test fails tests every index in order and keeps an
      entry for exactly the indices whose test found a point. */
  lemma {:induction false} RunWithoutFailure(sw: Sweep, order: seq<nat>)
    requires Testable(sw, order) && AllOk(sw, order)
    ensures Run(sw, order) == SweepState(Found(sw, order), Requests(sw, order), None)
    decreases |order|
  {
    if order != [] {
      var before := order[..|order| - 1];
      var last := order[|order| - 1];
      assert order == before + [last];
      assert forall i :: i in order <==> i in before || i == last;
      RunWithoutFailure(sw, before);
      assert Requests(sw, order) == Requests(sw, before) + [Request(sw, last)];
      var prev := Found(sw, before);
      if OutcomeAt(sw, last).value.Some? {
        assert Found(sw, order) == prev[last := Entry(sw, last)];
      } else {
        assert Found(sw, order) == prev;
      }
    }
  }

  /** A sweep whose first failing test is the `k`-th: it stops there, with
      the entries found before it, having made the tests up to and including
      the failing one, and it reports that index and error. */
  lemma {:induction false} RunStopsAtFailure(sw: Sweep, order: seq<nat>, k: nat)
    requires Testable(sw, order) && k < |order|
    requires forall j :: 0 <= j < k ==> OutcomeAt(sw, order[j]).Ok?
    requires OutcomeAt(sw, order[k]).Err?
    ensures Run(sw, order) == SweepState(Found(sw, order[..k]), Requests(sw, order[..k + 1]),
                                         Some((order[k], OutcomeAt(sw, order[k]).error)))
    decreases |order|
  {
    var before := order[..|order| - 1];
    assert forall i :: i in before ==> i in order;
    if |order| == k + 1 {
      assert before == order[..k];
      assert forall i :: i in order[..k] ==> i in order;
      RunWithoutFailure(sw, before);
      assert Requests(sw, order[..k + 1]) == Requests(sw, before) + [Request(sw, order[k])];
    } else {
      assert before[..k] == order[..k] && before[..k + 1] == order[..k + 1];
      RunStopsAtFailure(sw, before, k);
    }
  }

  /** Once a sweep has stopped, further indices change nothing. */
  lemma {:induction false} RunAbsorbs(sw: Sweep, a: seq<nat>, b: seq<nat>)
    requires Testable(sw, a) && Testable(sw, a + b)
    requires Run(sw, a).failure.Some?
    ensures Run(sw, a + b) == Run(sw, a)
    decreases |b|
  {
    if b != [] {
      var ab := a + b;
      assert ab[..|ab| - 1] == a + b[..|b| - 1];
      assert forall i :: i in a + b[..|b| - 1] ==> i in ab;
      RunAbsorbs(sw, a, b[..|b| - 1]);
    } else {
      assert a + b == a;
    }
  }

  /** The sweep order of a range is the order of its upper part followed by
      the order of its lower part. */
  lemma {:induction false} SweepOrderSplit(keys: set<nat>, start: nat, mid: nat, end: nat)
    requires start <= mid <= end
    ensures SweepOrder(keys, start, end) == SweepOrder(keys, mid, end) + SweepOrder(keys, start, mid)
    decreases mid - start
  {
    if start < mid {
      SweepOrderSplit(keys, start + 1, mid, end);
      var low := if start in keys then [start] else [];
      assert SweepOrder(keys, start, mid) == SweepOrder(keys, start + 1, mid) + low;
      assert SweepOrder(keys, start, end) == SweepOrder(keys, start + 1, end) + low;
    }
  }

  /** Every index of a sweep range has a curve point and a stored delta. */
  ghost predicate RangeTestable(sw: Sweep, start: nat, end: nat)
  {
    forall i :: i in sw.curve && start <= i < end ==> i in sw.deltas
  }

  /** Widening the range at the bottom by one index adds one `Step` when the
      index is on the curve and nothing otherwise. */
  lemma SweepOneMore(sw: Sweep, i: nat, end: nat)
    requires i < end && RangeTestable(sw, i, end)
    ensures Testable(sw, SweepOrder(sw.curve.Keys, i + 1, end)) && Testable(sw, SweepOrder(sw.curve.Keys, i, end))
    ensures i in sw.curve ==>
      Run(sw, SweepOrder(sw.curve.Keys, i, end)) == Step(sw, Run(sw, SweepOrder(sw.curve.Keys, i + 1, end)), i)
    ensures i !in sw.curve ==>
      Run(sw, SweepOrder(sw.curve.Keys, i, end)) == Run(sw, SweepOrder(sw.curve.Keys, i + 1, end))
  {
    var higher := SweepOrder(sw.curve.Keys, i + 1, end);
    if i in sw.curve {
      assert SweepOrder(sw.curve.Keys, i, end) == higher + [i];
      RunSnoc(sw, higher, i);
    } else {
      assert SweepOrder(sw.curve.Keys, i, end) == higher;
    }
  }

  /** A sweep that has stopped in the upper part of its range ends there. */
  lemma SweepStops(sw: Sweep, start: nat, mid: nat, end: nat)
    requires start <= mid <= end && RangeTestable(sw, start, end)
    ensures Testable(sw, SweepOrder(sw.curve.Keys, mid, end)) && Testable(sw, SweepOrder(sw.curve.Keys, start, end))
    ensures Run(sw, SweepOrder(sw.curve.Keys, mid, end)).failure.Some? ==>
      Run(sw, SweepOrder(sw.curve.Keys, start, end)) == Run(sw, SweepOrder(sw.curve.Keys, mid, end))
  {
    var keys := sw.curve.Keys;
    SweepOrderSplit(keys, start, mid, end);
    if Run(sw, SweepOrder(keys, mid, end)).failure.Some? {
      RunAbsorbs(sw, SweepOrder(keys, mid, end), SweepOrder(keys, start, mid));
    }
  }

  /** A sweep over `[start, end)` in which no test fails: it tests every
      index on the curve in the range, from the top down, each with its own
      stored delta, and ends with one entry per index whose test found a
      point, holding that point's voltage and the frequency and delta found. */
  lemma SweepCompletes(sw: Sweep, start: nat, end: nat)
    requires Testable(sw, SweepOrder(sw.curve.Keys, start, end))
    requires forall i :: i in sw.curve && start <= i < end ==> OutcomeAt(sw, i).Ok?
    ensures var s := Run(sw, SweepOrder(sw.curve.Keys, start, end));
      && s.failure.None?
      && s.tested == Requests(sw, SweepOrder(sw.curve.Keys, start, end))
      && (forall i :: i in s.results <==> i in sw.curve && start <= i < end && OutcomeAt(sw, i).value.Some?)
      && (forall i :: i in s.results ==> s.results[i] == Entry(sw, i))
  {
    RunWithoutFailure(sw, SweepOrder(sw.curve.Keys, start, end));
  }

  /** A sweep over `[start, end)` whose test of index `k` fails while every
      test above `k` succeeds: it stops at `k` with that error, having tested
      the indices from the top down to `k`, and keeps exactly the entries
      found above `k`. */
  lemma SweepFailsAt(sw: Sweep, start: nat, end: nat, k: nat)
    requires Testable(sw, SweepOrder(sw.curve.Keys, start, end))
    requires k in sw.curve && start <= k < end && OutcomeAt(sw, k).Err?
    requires forall i :: i in sw.curve && k < i < end ==> OutcomeAt(sw, i).Ok?
    ensures var s := Run(sw, SweepOrder(sw.curve.Keys, start, end));
      && s.failure == Some((k, OutcomeAt(sw, k).error))
      && s.tested == Requests(sw, SweepOrder(sw.curve.Keys, k, end))
      && (forall i :: i in s.results <==> i in sw.curve && k < i < end && OutcomeAt(sw, i).value.Some?)
      && (forall i :: i in s.results ==> s.results[i] == Entry(sw, i))
  {
    var keys := sw.curve.Keys;
    var order := SweepOrder(keys, start, end);
    var upper := SweepOrder(keys, k + 1, end);
    SweepOrderSplit(keys, start, k, end);
    assert SweepOrder(keys, k, end) == upper + [k];
    var pos := |upper|;
    assert order[..pos] == upper && order[..pos + 1] == upper + [k] && order[pos] == k;
    forall j | 0 <= j < pos ensures OutcomeAt(sw, order[j]).Ok? {
      assert order[j] in upper;
    }
    RunStopsAtFailure(sw, order, pos);
  }

  /** How the command ends after a sweep without failure: a cleanup error
      first, then an error writing the results out. */
  function FinalStatus(cleanup: Result<(), Error>, written: Result<(), string>): (r: Result<(), Error>)
    ensures r.Ok? <==> cleanup.Ok? && written.Ok?
    ensures cleanup.Err? ==> r == cleanup
    ensures cleanup.Ok? && written.Err? ==> r == Err(Io(written.error))
  {
    match cleanup
    case Err(e) => Err(e)
    case Ok(_) =>
      match written
      case Err(message) => Err(Io(message))
      case Ok(_) => Ok(())
  }

  /** The tests of `tested`, as calls on the calibration object. */
  function TestCalls(tested: seq<PointRequest>): seq<Call>
  {
    seq(|tested|, j requires 0 <= j < |tested| => Tested(tested[j]))
  }

  lemma TestCallsSnoc(tested: seq<PointRequest>, req: PointRequest)
    ensures TestCalls(tested + [req]) == TestCalls(tested) + [Tested(req)]
  {
  }

  // ---------------------------------------------------------------------
  // The driver

  /** One iteration of the loop, for an index on the curve: test the point
      with its own stored delta and record an entry if the test found one;
      a failing test's error is returned. */
  method TestIndex(auto: AutoDetect, curve: map<nat, CurvePoint>, deltas: map<nat, int>, i: nat,
                   results: map<nat, VfPoint>, ghost tested: seq<PointRequest>)
    returns (updated: map<nat, VfPoint>, failed: Option<Error>)
    requires i in curve && i in deltas
    modifies auto
    ensures var sw := Sweep(curve, deltas, auto.script);
      var next := Step(sw, SweepState(results, tested, None), i);
      && next.results == updated && next.tested == tested + [Request(sw, i)]
      && (next.failure.None? <==> failed.None?)
      && (failed.Some? ==> next.failure == Some((i, failed.value)))
      && auto.calls == old(auto.calls) + [Tested(Request(sw, i))]
  {
    var point := curve[i];
    var outcome := auto.TestPoint(i, point.voltage, point.frequency, deltas[i]);
    updated := results;
    failed := None;
    match outcome
    case Ok(Some(found)) =>
      updated := results[i := VfPoint(point.voltage, found.1, found.0)];
    case Ok(None) =>
    case Err(e) =>
      failed := Some(e);
  }

  /** The loop of the sweep: test the indices of `[start, end)` that are on
      the curve, from the top down, and record what each test finds; stop at
      the first failing test and return its error. */
  method SweepLoop(auto: AutoDetect, curve: map<nat, CurvePoint>, deltas: map<nat, int>, start: nat, end: nat)
    returns (results: map<nat, VfPoint>, stopped: Option<Error>)
    requires forall i :: i in curve && start <= i < end ==> i in deltas
    modifies auto
    ensures var s := Run(Sweep(curve, deltas, auto.script), SweepOrder(curve.Keys, start, end));
      && results == s.results
      && auto.calls == old(auto.calls) + TestCalls(s.tested)
      && (s.failure.None? <==> stopped.None?)
      && (s.failure.Some? ==> stopped == Some(s.failure.value.1))
  {
    ghost var sw := Sweep(curve, deltas, auto.script);
    assert RangeTestable(sw, start, end);
    ghost var tested: seq<PointRequest> := [];
    results := map[];
    var i := end;
    while start < i
      invariant i <= end && (start <= i || i == end)
      invariant Testable(sw, SweepOrder(curve.Keys, i, end))
      invariant Run(sw, SweepOrder(curve.Keys, i, end)) == SweepState(results, tested, None)
      invariant auto.calls == old(auto.calls) + TestCalls(tested)
    {
      i := i - 1;
      SweepOneMore(sw, i, end);
      if i in curve {
        ghost var req := Request(sw, i);
        ghost var callsBefore := auto.calls;
        TestCallsSnoc(tested, req);
        var failed;
        results, failed := TestIndex(auto, curve, deltas, i, results, tested);
        tested := tested + [req];
        if failed.Some? {
          SweepStops(sw, start, i, end);
          return results, failed;
        }
      }
    }
    stopped := None;
  }

  /** The `auto` arm of `set vfp`: build the options, construct and prepare
      the calibration object, test the points of the range from the top
      down, then clean up and hand the results over in ascending index
      order. A failing test ends the sweep at once: cleanup still runs once,
      the results found so far are still handed over, and the test's error
      is returned. */
  method RunAuto(curve: map<nat, CurvePoint>, deltas: map<nat, int>, start: nat, endArg: Option<nat>,
                 fanOverride: bool, stepMhz: int, test: Option<string>, maxMhz: int, env: Environment)
    returns (auto: AutoDetect?, emitted: Option<seq<VfPoint>>, result: Result<(), Error>)
    requires IsI32(stepMhz) && IsU32(maxMhz)
    requires curve != map[]
    requires forall i :: i in curve && start <= i < ResolveEnd(endArg, curve) ==> i in deltas
    ensures env.newStatus.Err? ==> auto == null && emitted.None? && result == Err(env.newStatus.error)
    ensures env.newStatus.Ok? ==> auto != null && fresh(auto) && auto.options == BuildOptions(fanOverride, stepMhz, test, maxMhz)
    ensures env.newStatus.Ok? && env.prepareStatus.Err? ==>
      auto != null && auto.calls == [Prepared] && emitted.None? && result == Err(env.prepareStatus.error)
    ensures env.newStatus.Ok? && env.prepareStatus.Ok? ==>
      var s := Run(Sweep(curve, deltas, env.script), SweepOrder(curve.Keys, start, ResolveEnd(endArg, curve)));
      && auto != null
      && auto.calls == [Prepared] + TestCalls(s.tested) + [CleanedUp]
      && emitted == Some(InOrder(s.results))
      && result == (if s.failure.Some? then Err(s.failure.value.1) else FinalStatus(env.cleanupStatus, env.exportStatus))
  {
    var end := ResolveEnd(endArg, curve);
    var options := BuildOptions(fanOverride, stepMhz, test, maxMhz);
    if env.newStatus.Err? {
      return null, None, Err(env.newStatus.error);
    }
    auto := new AutoDetect(options, env.prepareStatus, env.script, env.cleanupStatus);
    var prepared := auto.TestPrepare();
    if prepared.Err? {
      return auto, None, Err(prepared.error);
    }
    var results, stopped := SweepLoop(auto, curve, deltas, start, end);
    var cleaned := auto.TestCleanup();
    emitted := Some(InOrder(results));
    match stopped
    case Some(e) => result := Err(e);
    case None => result := FinalStatus(cleaned, env.exportStatus);
  }
}
