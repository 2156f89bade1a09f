/** `WorkflowRepository`: the definition registry, keyed by workflow name. It holds
    the contextual input repository because deleting a workflow also deletes that
    workflow's global inputs. */
module WorkflowRepository {
  import opened Lang
  import opened Definitions
  import opened ContextualInputRepository

  datatype Repository = Repository(workflows: map<string, Workflow>, inputs: Store)

  /** Every workflow is stored under its own name; `save` keeps this so. */
  predicate Valid(r: Repository) {
    forall n :: n in r.workflows ==> r.workflows[n].name == n
  }

  /** `save`: stores the workflow under its name, replacing any previous entry. */
  function Save(r: Repository, w: Workflow): (r': Repository)
    ensures w.name in r'.workflows && r'.workflows[w.name] == w
    ensures forall n :: n != w.name ==>
      (n in r'.workflows <==> n in r.workflows) && (n in r.workflows ==> r'.workflows[n] == r.workflows[n])
    ensures r'.inputs == r.inputs
    ensures Valid(r) ==> Valid(r')
  {
    r.(workflows := r.workflows[w.name := w])
  }

  /** The last workflow of `ws` named `n`, if any. */
  function LastNamed(ws: seq<Workflow>, n: string): (r: Option<Workflow>)
    ensures r.Some? ==> r.value in ws && r.value.name == n
    ensures r.None? ==> forall w :: w in ws ==> w.name != n
  {
    if |ws| == 0 then None
    else if ws[|ws| - 1].name == n then Some(ws[|ws| - 1])
    else LastNamed(ws[..|ws| - 1], n)
  }

  /** `saveAll`: saves the workflows one after the other, so for a repeated name the
      later workflow wins. */
  function SaveAll(r: Repository, ws: seq<Workflow>): (r': Repository)
    ensures forall n :: n in r'.workflows <==> n in r.workflows || LastNamed(ws, n).Some?
    ensures forall n :: LastNamed(ws, n).Some? ==> r'.workflows[n] == LastNamed(ws, n).value
    ensures forall n :: n in r.workflows && LastNamed(ws, n).None? ==> r'.workflows[n] == r.workflows[n]
    ensures r'.inputs == r.inputs
    ensures Valid(r) ==> Valid(r')
  {
    if |ws| == 0 then r else Save(SaveAll(r, ws[..|ws| - 1]), ws[|ws| - 1])
  }

  /** `findByName`: the stored workflow, or null. */
  function FindByName(r: Repository, name: string): (w: Option<Workflow>)
    ensures w.Some? <==> name in r.workflows
    ensures w.Some? ==> w.value == r.workflows[name]
  {
    if name in r.workflows then Some(r.workflows[name]) else None
  }

  /** `findAll`: the stored workflows, exactly one per stored name. */
  function FindAll(r: Repository): (ws: set<Workflow>)
    ensures forall n :: n in r.workflows ==> r.workflows[n] in ws
    ensures Valid(r) ==> forall w :: w in ws ==> w.name in r.workflows && r.workflows[w.name] == w
  {
    r.workflows.Values
  }

  /** `delete`: removes the workflow and its global contextual inputs. */
  function Delete(r: Repository, name: string): (r': Repository)
    ensures r'.workflows.Keys == r.workflows.Keys - {name}
    ensures forall n :: n in r'.workflows ==> r'.workflows[n] == r.workflows[n]
    ensures name !in r'.inputs.globalInputs
    ensures r'.inputs == DeleteGlobalContextualInput(r.inputs, name)
    ensures Valid(r) ==> Valid(r')
  {
    Repository(r.workflows - {name}, DeleteGlobalContextualInput(r.inputs, name))
  }
}
