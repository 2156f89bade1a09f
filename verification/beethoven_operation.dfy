/** `BeethovenOperation`: the request body of a workflow operation. Its operation is
    one of four, written by id. An unknown id, and reading an unset operation, both
    reach `orElseGet(null)`, which calls the null supplier and throws. */
module BeethovenOperation {
  import opened Lang
  import opened Definitions

  datatype Operation = Schedule | Start | Stop | Cancel

  /** The id each operation is written as. */
  function Id(op: Operation): string {
    match op
    case Schedule => "schedule"
    case Start => "start"
    case Stop => "stop"
    case Cancel => "cancel"
  }

  /** `values()`, in declaration order. */
  const Values: seq<Operation> := [Schedule, Start, Stop, Cancel]

  /** The first operation of `ops` whose id equals `id`; a null id equals none. */
  function FirstWithId(ops: seq<Operation>, id: NString): (r: Option<Operation>)
    ensures r.None? <==> forall i :: 0 <= i < |ops| ==> Some(Id(ops[i])) != id
    ensures r.Some? ==> r.value in ops && Some(Id(r.value)) == id
  {
    if |ops| == 0 then None
    else if Some(Id(ops[0])) == id then Some(ops[0])
    else FirstWithId(ops[1..], id)
  }

  /** `findById`: the operation with this id; any other id, null included, throws. */
  function FindById(id: NString): (r: Result<Operation>)
    ensures r.Err? ==> r.fault == NullPointer
    ensures r.Ok? <==> id in {Some("schedule"), Some("start"), Some("stop"), Some("cancel")}
    ensures r.Ok? ==> Some(Id(r.value)) == id
  {
    match FirstWithId(Values, id)
    case None => Err(NullPointer)
    case Some(op) => Ok(op)
  }

  /** Every operation is found by its own id, so the ids are distinct. */
  lemma FindByIdRoundTrip(op: Operation)
    ensures FindById(Some(Id(op))) == Ok(op)
  {
  }

  /** The fields of the request body; `operation` is null until set. */
  datatype Request = Request(
    workflowName: NString,
    instanceName: NString,
    operation: Option<Operation>,
    inputs: seq<ContextualInput>)

  /** `setOperation`: stores the operation with this id; an unknown id throws and
      leaves the body as it was. */
  function SetOperation(d: Request, id: NString): (r: Result<Request>)
    ensures r.Ok? <==> FindById(id).Ok?
    ensures r.Ok? ==> r.value == d.(operation := Some(FindById(id).value))
  {
    var op :- FindById(id);
    Ok(d.(operation := Some(op)))
  }

  /** `getOperation`: the id of the stored operation; an unset one throws. */
  function GetOperation(d: Request): (r: Result<string>)
    ensures r.Ok? <==> d.operation.Some?
    ensures r.Ok? ==> FindById(Some(r.value)) == Ok(d.operation.value)
  {
    match d.operation
    case None => Err(NullPointer)
    case Some(op) =>
      FindByIdRoundTrip(op);
      Ok(Id(op))
  }

  /** Setting an operation by id and reading it back gives the same id, and setting
      the id just read changes nothing. */
  lemma SetThenGet(d: Request, id: NString)
    ensures SetOperation(d, id).Ok? ==> GetOperation(SetOperation(d, id).value) == Ok(id.value)
    ensures d.operation.Some? ==> SetOperation(d, Some(GetOperation(d).value)) == Ok(d)
  {
  }
}
