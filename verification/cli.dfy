/** Reading an on/off switch from the parsed command line: `parse_bool_match`.
    The argument parser reports, for one argument, how often it occurred, how
    many values it carries and its (first) value; the three figures are the
    parameters here. */
module Cli {
  import opened Base

  const PossibleBoolOff: string := "off"
  const PossibleBoolOn: string := "on"

  /** The values a switch accepts. */
  const PossibleBool: seq<string> := [PossibleBoolOff, PossibleBoolOn]

  /** The text the switch stands for: a bare occurrence means "on", otherwise
      the value given (or the default). `None` is an `unreachable!()` panic. */
  function SwitchText(occurrences: nat, valueCount: nat, value: Option<string>): (r: Option<string>)
    ensures r.Some? <==> value.Some? && ((occurrences, valueCount) == (1, 1) || (occurrences, valueCount) == (0, 1) || (occurrences, valueCount) == (1, 2))
    ensures r.Some? && (occurrences, valueCount) == (1, 1) ==> r.value == PossibleBoolOn
    ensures r.Some? && (occurrences, valueCount) != (1, 1) ==> r == value
  {
    match (occurrences, valueCount, value)
    case (1, 1, Some(_)) => Some(PossibleBoolOn)
    case (0, 1, Some(v)) => Some(v)
    case (1, 2, Some(v)) => Some(v)
    case _ => None
  }

  /** `parse_bool_match`: `true` for a bare switch or the value "on", `false`
      for the value "off"; every other combination is a panic (`None`). */
  function ParseBoolMatch(occurrences: nat, valueCount: nat, value: Option<string>): (r: Option<bool>)
    ensures r == Some(true) <==>
      value.Some? && ((occurrences == 1 && valueCount == 1)
                      || ((occurrences, valueCount) in {(0, 1), (1, 2)} && value.value == "on"))
    ensures r == Some(false) <==>
      value.Some? && (occurrences, valueCount) in {(0, 1), (1, 2)} && value.value == "off"
    ensures var text := SwitchText(occurrences, valueCount, value);
      r.Some? <==> text.Some? && text.value in PossibleBool
  {
    match SwitchText(occurrences, valueCount, value)
    case None => None
    case Some(v) =>
      if v == PossibleBoolOff then Some(false)
      else if v == PossibleBoolOn then Some(true)
      else None
  }
}
