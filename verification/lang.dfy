/** The Java runtime notions the engine relies on: nullable references, the
    exceptions it can raise, and string conversion of a possibly-null String. */
module Lang {

  /** A possibly-absent value; `None` stands for a Java `null` reference. */
  datatype Option<+T> = None | Some(value: T) {
    function GetOr(default: T): T {
      match this
      case Some(v) => v
      case None => default
    }
  }

  /** The exceptions the modelled code can raise. */
  datatype Fault =
    | NullPointer        // a null reference was dereferenced (or rejected by a null check)
    | IllegalArgument    // `Enum.valueOf` on an unknown name
    | InvalidActorName   // a child actor created under a name already in use

  /** The result of a call that either returns a value or throws. */
  datatype Result<+T> = Ok(value: T) | Err(fault: Fault) {
    predicate IsFailure() { Err? }

    function PropagateFailure<U>(): Result<U>
      requires Err?
    {
      Err(fault)
    }

    function Extract(): T
      requires Ok?
    {
      value
    }
  }

  /** A Java `String` reference. */
  type NString = Option<string>

  /** Java string conversion, as performed by `+` on a String: `null` renders as "null". */
  function Show(s: NString): (r: string)
    ensures s.Some? ==> r == s.value
  {
    match s
    case Some(v) => v
    case None => "null"
  }
}
