/** Python-level values shared by every part of the model: the exceptions the
    pipeline raises, results that carry them, and configuration settings that
    are either checked numbers or raw text pasted in from a configuration file. */
module Values {

  /** The exception classes the modelled code raises. A raised exception is
      never caught by the drivers, so every one of them ends the run. */
  datatype PyError =
    | ValueError
    | TypeError
    | AttributeError
    | IndexError
    | KeyError
    | AxisError
    | UnboundLocalError
    | FileNotFoundError
    | SystemExit

  datatype Option<+T> = None | Some(value: T)

  datatype Result<+T> = Ok(value: T) | Err(error: PyError) {
    predicate IsFailure() { Err? }
    function PropagateFailure<U>(): Result<U>
      requires Err?
    {
      Err(error)
    }
    function Extract(): T
      requires Ok?
    {
      value
    }
  }

  /** `prefix` followed by the entries of `rest`, or the error of `rest`:
      what a list holds once a loop that already appended `prefix` runs on. */
  function Prepend<T>(prefix: seq<T>, rest: Result<seq<T>>): (r: Result<seq<T>>)
    ensures r.Err? <==> rest.Err?
    ensures r.Err? ==> r.error == rest.error
    ensures r.Ok? ==> r.value == prefix + rest.value
    ensures prefix == [] ==> r == rest
  {
    match rest
    case Ok(v) =>
      assert prefix == [] ==> prefix + v == v;
      Ok(prefix + v)
    case Err(e) => Err(e)
  }

  /** Prepending in two steps is prepending the concatenation. */
  lemma PrependTwice<T>(a: seq<T>, b: seq<T>, rest: Result<seq<T>>)
    ensures Prepend(a, Prepend(b, rest)) == Prepend(a + b, rest)
  {
    if rest.Ok? {
      assert a + (b + rest.value) == (a + b) + rest.value;
    }
  }

  /** A setter call or a check that returns nothing or raises. */
  datatype Outcome = Pass | Fail(error: PyError) {
    predicate IsFailure() { Fail? }
    function PropagateFailure<U>(): Result<U>
      requires Fail?
    {
      Err(error)
    }
  }

  /** A configuration attribute: either a number that a setter (or the
      constructor) stored, or the raw text a driver assigned to the private
      attribute straight from the configuration file, bypassing the setter. */
  datatype Setting<+T> = Checked(value: T) | RawText(text: string)

  /** Python truthiness of an int-valued attribute. */
  predicate TruthyInt(s: Setting<int>)
  {
    match s
    case Checked(v) => v != 0
    case RawText(t) => t != ""
  }

  /** Python truthiness of a float-valued attribute. */
  predicate TruthyReal(s: Setting<real>)
  {
    match s
    case Checked(v) => v != 0.0
    case RawText(t) => t != ""
  }

  /** Python's `abs` on an integer (a day or second count of a timedelta). */
  function Abs(x: int): (r: nat)
    ensures r == x || r == -x
  {
    if x < 0 then -x else x
  }
}
