/** The voltage/frequency (V/F) curve as the `set vfp` commands see it: the
    points of the curve, the rows of an imported CSV table, how an imported
    row is matched to a curve point, and how `set vfp lock` finds the voltage
    to lock at. */
module Vfp {
  import opened Base
  import opened Ordered

  /** One point of the curve as the device reports it: its voltage (µV) and
      its frequency (kHz). The curve is a `map` from point index to point. */
  datatype CurvePoint = CurvePoint(voltage: nat, frequency: nat)

  /** A row of an exported or imported curve, and an entry of the calibration
      results: voltage (µV), frequency (kHz), frequency delta (kHz). */
  datatype VfPoint = VfPoint(voltage: nat, frequency: nat, delta: int)

  /** The curve indices whose point has voltage `voltage`. */
  function WithVoltage(curve: map<nat, CurvePoint>, voltage: nat): set<nat>
  {
    set i | i in curve && curve[i].voltage == voltage
  }

  /** `vfp.iter().find(|&(_, v)| v.voltage == voltage)`: the curve is visited in
      ascending index order, so the match found is the lowest such index. */
  function FindByVoltage(curve: map<nat, CurvePoint>, voltage: nat): (r: Option<nat>)
    ensures r.Some? <==> exists i :: i in curve && curve[i].voltage == voltage
    ensures r.Some? ==> r.value in curve && curve[r.value].voltage == voltage
    ensures r.Some? ==> forall i :: i in curve && curve[i].voltage == voltage ==> r.value <= i
  {
    var matching := WithVoltage(curve, voltage);
    assert forall i :: i in curve && curve[i].voltage == voltage ==> i in matching;
    if matching == {} then None else Some(Least(matching))
  }

  /** The `filter_map` of `set vfp import`: each imported row becomes
      `(index, delta)` for the first curve point with the row's voltage; a row
      whose voltage is not on the curve is dropped. */
  function ImportPoints(input: seq<VfPoint>, curve: map<nat, CurvePoint>): (r: seq<(nat, int)>)
    ensures |r| <= |input|
    ensures forall e :: e in r ==> e.0 in curve
    ensures forall e :: e in r ==> exists p :: p in input && FindByVoltage(curve, p.voltage) == Some(e.0) && e.1 == p.delta
  {
    if input == [] then []
    else
      var p := input[0];
      var rest := ImportPoints(input[1..], curve);
      assert forall q :: q in input[1..] ==> q in input;
      match FindByVoltage(curve, p.voltage)
      case None => rest
      case Some(i) => [(i, p.delta)] + rest
  }

  /** Import preserves the order of the input: importing two tables one after
      the other is importing their concatenation. */
  lemma {:induction false} ImportAppend(a: seq<VfPoint>, b: seq<VfPoint>, curve: map<nat, CurvePoint>)
    ensures ImportPoints(a + b, curve) == ImportPoints(a, curve) + ImportPoints(b, curve)
  {
    if a != [] {
      assert (a + b)[0] == a[0];
      assert (a + b)[1..] == a[1..] + b;
      ImportAppend(a[1..], b, curve);
    } else {
      assert a + b == b;
    }
  }

  /** A single row is kept exactly when its voltage is on the curve, and then
      it targets the lowest index with that voltage and keeps its delta. */
  lemma ImportOne(p: VfPoint, curve: map<nat, CurvePoint>)
    ensures (exists i :: i in curve && curve[i].voltage == p.voltage) ==>
      ImportPoints([p], curve) == [(FindByVoltage(curve, p.voltage).value, p.delta)]
    ensures (forall i :: i in curve ==> curve[i].voltage != p.voltage) ==> ImportPoints([p], curve) == []
  {
    assert [p][1..] == [];
  }

  /** When every imported voltage is on the curve, nothing is dropped and the
      `j`-th pair comes from the `j`-th row. */
  lemma {:induction false} ImportAllMatched(input: seq<VfPoint>, curve: map<nat, CurvePoint>)
    requires forall j :: 0 <= j < |input| ==> FindByVoltage(curve, input[j].voltage).Some?
    ensures |ImportPoints(input, curve)| == |input|
    ensures forall j :: 0 <= j < |input| ==>
      ImportPoints(input, curve)[j] == (FindByVoltage(curve, input[j].voltage).value, input[j].delta)
  {
    if input != [] {
      ImportAllMatched(input[1..], curve);
      assert FindByVoltage(curve, input[0].voltage).Some?;
    }
  }

  /** The voltage that `set vfp lock` locks at: the given number itself with
      `--voltage`, otherwise the voltage of the curve point with that index. */
  function LockTarget(point: nat, byVoltage: bool, curve: map<nat, CurvePoint>): (r: Result<nat, Error>)
    ensures byVoltage ==> r == Ok(point)
    ensures !byVoltage && point in curve ==> r == Ok(curve[point].voltage)
    ensures !byVoltage && point !in curve ==> r == Err(Str("invalid point index"))
  {
    if byVoltage then Ok(point)
    else
      match Lookup(curve, point)
      case Some(p) => Ok(p.voltage)
      case None => Err(Str("invalid point index"))
  }
}
