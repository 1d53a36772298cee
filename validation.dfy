/**
 * The check on the requested number of states: a number from 1 to 16 is
 * kept, a number outside that range or text that does not read as a number
 * becomes the default of 3, and an argument of the wrong kind is an error.
 */
module Validation {
  import opened Wrappers

  /** The outcome of converting the argument to an integer: its value; the
      rejection of a value of the right kind that does not read as a number
      (such as the text "abc"); or the rejection of a value of the wrong kind
      (such as no value at all). Only the middle one is caught. */
  datatype IntConversion = Int(v: int) | ValueError | TypeError

  const MinStates := 1
  const MaxStates := 16
  const DefaultStates := 3

  /** The requested count when it lies in [1, 16], otherwise the default 3;
      so always a count in [1, 16]. None stands for the uncaught error an
      argument of the wrong kind raises. */
  function NumStatesValidation(arg: IntConversion): (r: Option<int>)
    ensures r.None? <==> arg.TypeError?
    ensures r.Some? ==> MinStates <= r.value <= MaxStates
    ensures arg.Int? && MinStates <= arg.v <= MaxStates ==> r == Some(arg.v)
    ensures arg.Int? && !(MinStates <= arg.v <= MaxStates) ==> r == Some(DefaultStates)
    ensures arg.ValueError? ==> r == Some(DefaultStates)
  {
    match arg
    case Int(v) => if MinStates <= v <= MaxStates then Some(v) else Some(DefaultStates)
    case ValueError => Some(DefaultStates)
    case TypeError => None
  }

  /** Validating a validated count changes nothing. */
  lemma ValidationIdempotent(arg: IntConversion)
    requires NumStatesValidation(arg).Some?
    ensures NumStatesValidation(Int(NumStatesValidation(arg).value)) == NumStatesValidation(arg)
  {
  }
}
