/** Values shared by the whole model of the `nvoclock` command-line tool: the
    result and option wrappers, the status codes of the vendor interface, the
    program's error type and the enumerations that its string tables convert. */
module Base {

  datatype Option<+T> = None | Some(value: T)

  /** Rust's `Result<T, E>`. */
  datatype Result<+T, +E> = Ok(value: T) | Err(error: E) {
    // The three members below let `:-` stand for Rust's `?` operator.

    predicate IsFailure() {
      Err?
    }

    function PropagateFailure<U>(): Result<U, E>
      requires Err?
    {
      Err(error)
    }

    function Extract(): T
      requires Ok?
    {
      value
    }
  }

  /** A keyed lookup that may miss: `BTreeMap::get`, and `ArgMatches::values_of`
      on the parsed arguments (absent when the argument was not given, or is
      not declared at all). */
  function Lookup<K, V>(m: map<K, V>, k: K): (r: Option<V>)
    ensures r.Some? <==> k in m
    ensures r.Some? ==> r.value == m[k]
  {
    if k in m then Some(m[k]) else None
  }

  /** Status codes of the vendor interface (NVAPI). Only the codes the program
      names itself are distinguished; every other code is `OtherStatus`. */
  datatype Status = NvidiaDeviceNotFound | NoImplementation | OtherStatus(code: int)

  /** The `--output-format` choices. */
  datatype OutputFormat = Human | Json

  /** The settings that `reset` restores. */
  datatype ResetSettings =
    | VoltageBoost
    | SensorLimits
    | PowerLimits
    | CoolerLevels
    | VfpDeltas
    | VfpLock
    | PStateDeltas
    | Overvolt

  /** Performance states of the vendor interface, as far as the program lists them. */
  datatype PState =
    | P0 | P1 | P2 | P3 | P4 | P5 | P6 | P7
    | P8 | P9 | P10 | P11 | P12 | P13 | P14 | P15

  /** Clock domains of the vendor interface, as far as the program lists them. */
  datatype ClockDomain = Graphics | Memory | Processor | Video

  /** Cooler policies of the vendor interface, as far as the program lists them.
      The vendor's `None` policy is called `NoPolicy` here, so that it does not
      clash with `Option.None`. */
  datatype CoolerPolicy =
    | NoPolicy
    | Manual
    | Performance
    | TemperatureDiscrete
    | TemperatureContinuous
    | Hybrid
    | Silent
    | Unknown32

  /** The program's error type. Errors of the I/O, JSON and integer-parsing
      libraries are carried as their messages only. */
  datatype Error =
    | Nvapi(status: Status)
    | Io(ioMessage: string)
    | Json(jsonMessage: string)
    | ParseInt(parseMessage: string)
    | Str(message: string)
    | ResetError(setting: ResetSettings, err: Status)
}
