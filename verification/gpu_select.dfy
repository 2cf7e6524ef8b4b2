/** Which of the enumerated GPUs a command acts on: `select_gpus`, driven by
    the `--gpu` positions, and `single_gpu`, which insists on exactly one. The
    GPU handles are left abstract (type parameter `G`). */
module GpuSelect {
  import opened Base

  /** `usize::from_str` over every requested position, collected into one
      result: the first failure wins and becomes `Error::ParseInt`. The parser
      of the standard library is the parameter `parse`. */
  function ParsePositions(args: seq<string>, parse: string -> Result<nat, string>): (r: Result<seq<nat>, Error>)
    ensures r.Ok? <==> forall j :: 0 <= j < |args| ==> parse(args[j]).Ok?
    ensures r.Ok? ==> |r.value| == |args| && forall j :: 0 <= j < |args| ==> r.value[j] == parse(args[j]).value
    ensures r.Err? ==> exists j :: 0 <= j < |args| && parse(args[j]).Err? && r.error == ParseInt(parse(args[j]).error)
                          && forall i :: 0 <= i < j ==> parse(args[i]).Ok?
  {
    if args == [] then Ok([])
    else
      match parse(args[0])
      case Err(e) => Err(ParseInt(e))
      case Ok(p) =>
        match ParsePositions(args[1..], parse)
        case Err(e) =>
          assert forall j :: 1 <= j < |args| ==> args[1..][j - 1] == args[j];
          Err(e)
        case Ok(ps) => Ok([p] + ps)
  }

  /** The inner search of the `filter_map`: is position `i` among the requested ones? */
  function Named(requested: seq<nat>, i: nat): (r: bool)
    ensures r <==> i in requested
  {
    if requested == [] then false
    else if requested[0] == i then true
    else Named(requested[1..], i)
  }

  /** The positions below `n` that the request names, in enumeration order. */
  function SelectedPositions(n: nat, requested: seq<nat>): (ps: seq<nat>)
    ensures forall a, b :: 0 <= a < b < |ps| ==> ps[a] < ps[b]
    ensures forall p :: p in ps <==> p < n && p in requested
    ensures forall j :: 0 <= j < |ps| ==> ps[j] < n
  {
    if n == 0 then []
    else
      var below := SelectedPositions(n - 1, requested);
      assert forall a :: 0 <= a < |below| ==> below[a] in below;
      below + (if Named(requested, n - 1) then [n - 1] else [])
  }

  /** The GPUs at the given positions. */
  function At<G>(gpus: seq<G>, ps: seq<nat>): (r: seq<G>)
    requires forall j :: 0 <= j < |ps| ==> ps[j] < |gpus|
    ensures |r| == |ps| && forall j :: 0 <= j < |ps| ==> r[j] == gpus[ps[j]]
  {
    seq(|ps|, j requires 0 <= j < |ps| => gpus[ps[j]])
  }

  /** `select_gpus`: all GPUs when no position is requested, otherwise those
      whose position is requested, in enumeration order and each once; a
      selection that comes out empty is `NvidiaDeviceNotFound`. */
  function SelectGpus<G>(gpus: seq<G>, requested: Option<seq<string>>, parse: string -> Result<nat, string>): (r: Result<seq<G>, Error>)
    ensures requested.None? ==> r == if gpus == [] then Err(Nvapi(NvidiaDeviceNotFound)) else Ok(gpus)
    ensures requested.Some? && ParsePositions(requested.value, parse).Err? ==> r == Err(ParsePositions(requested.value, parse).error)
    ensures requested.Some? && ParsePositions(requested.value, parse).Ok? ==>
      var ps := SelectedPositions(|gpus|, ParsePositions(requested.value, parse).value);
      && (r.Ok? <==> exists p :: p in ParsePositions(requested.value, parse).value && p < |gpus|)
      && (r.Ok? ==> r.value == At(gpus, ps))
      && (r.Err? ==> r.error == Nvapi(NvidiaDeviceNotFound))
  {
    match requested
    case None => if gpus == [] then Err(Nvapi(NvidiaDeviceNotFound)) else Ok(gpus)
    case Some(args) =>
      match ParsePositions(args, parse)
      case Err(e) => Err(e)
      case Ok(positions) =>
        var ps := SelectedPositions(|gpus|, positions);
        if ps == [] then
          Err(Nvapi(NvidiaDeviceNotFound))
        else
          assert ps[0] in ps;
          assert ps[0] in positions && ps[0] < |gpus|;
          Ok(At(gpus, ps))
  }

  /** `single_gpu`: take the first selected GPU, and fail if there is none or
      if a second one follows. */
  function SingleGpu<G>(gpus: seq<G>): (r: Result<G, Error>)
    ensures r.Ok? <==> |gpus| == 1
    ensures r.Ok? ==> r.value == gpus[0]
    ensures |gpus| == 0 ==> r == Err(Str("no GPU selected"))
    ensures |gpus| > 1 ==> r == Err(Str("multiple GPUs selected"))
  {
    match Next(gpus)
    case None => Err(Str("no GPU selected"))
    case Some(g) =>
      match Next(gpus[1..])
      case None => Ok(g)
      case Some(_) => Err(Str("multiple GPUs selected"))
  }

  /** `Iterator::next` on a slice. */
  function Next<G>(s: seq<G>): (r: Option<G>)
    ensures r.None? <==> s == []
    ensures r.Some? ==> r.value == s[0]
  {
    if s == [] then None else Some(s[0])
  }
}
