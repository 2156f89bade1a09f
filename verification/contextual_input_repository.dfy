/** `ContextualInputRepository`: global inputs per workflow name and local inputs
    per workflow instance name. Each set is kept in iteration order. A lookup is
    three-valued because the source returns a null `Optional` when the set for the
    name is absent or empty. */
module ContextualInputRepository {
  import opened Lang
  import opened Definitions

  datatype Store = Store(
    globalInputs: map<string, seq<ContextualInput>>,
    localInputs: map<string, seq<ContextualInput>>)

  /** Both maps start empty. */
  const Initial := Store(map[], map[])

  /** The result of a `find*` call: a null Optional, an empty one, or a present one. */
  datatype Lookup = NoStore | Miss | Hit(input: ContextualInput)

  /** `i` is the position of the first input whose key equals `key`. */
  predicate IsFirstWithKey(inputs: seq<ContextualInput>, key: NString, i: int) {
    && 0 <= i < |inputs|
    && Some(inputs[i].key) == key
    && forall j :: 0 <= j < i ==> Some(inputs[j].key) != key
  }

  /** `stream().filter(key equals).findFirst()`; a null key matches nothing. */
  function FirstWithKey(inputs: seq<ContextualInput>, key: NString): (r: Option<ContextualInput>)
    ensures r.None? <==> forall i :: 0 <= i < |inputs| ==> Some(inputs[i].key) != key
    ensures r.Some? ==> exists i :: IsFirstWithKey(inputs, key, i) && inputs[i] == r.value
  {
    if |inputs| == 0 then None
    else if Some(inputs[0].key) == key then
      assert IsFirstWithKey(inputs, key, 0);
      Some(inputs[0])
    else
      var r := FirstWithKey(inputs[1..], key);
      if r.Some? then
        var i :| IsFirstWithKey(inputs[1..], key, i) && inputs[1..][i] == r.value;
        assert IsFirstWithKey(inputs, key, i + 1);
        r
      else
        r
  }

  /** The shared body of both `find*` methods over one of the two maps. */
  function Find(stores: map<string, seq<ContextualInput>>, name: string, key: NString): (r: Lookup)
    ensures r.NoStore? <==> name !in stores || stores[name] == []
    ensures r.Hit? ==> name in stores && r.input in stores[name] && Some(r.input.key) == key
    ensures r.Miss? ==> name in stores && forall ci :: ci in stores[name] ==> Some(ci.key) != key
  {
    if name !in stores || stores[name] == [] then NoStore
    else
      match FirstWithKey(stores[name], key)
      case None => Miss
      case Some(ci) => Hit(ci)
  }

  /** `findGlobalContextualInput`. */
  function FindGlobalContextualInput(s: Store, workflowName: string, key: NString): (r: Lookup)
    ensures r.NoStore? <==> workflowName !in s.globalInputs || s.globalInputs[workflowName] == []
    ensures r.Hit? ==> workflowName in s.globalInputs && r.input in s.globalInputs[workflowName] && Some(r.input.key) == key
    ensures r.Miss? ==> workflowName in s.globalInputs && forall ci :: ci in s.globalInputs[workflowName] ==> Some(ci.key) != key
  {
    Find(s.globalInputs, workflowName, key)
  }

  /** `findLocalContextualInput` (its key is `@NonNull`). */
  function FindLocalContextualInput(s: Store, workflowInstanceName: string, key: string): (r: Lookup)
    ensures r.NoStore? <==> workflowInstanceName !in s.localInputs || s.localInputs[workflowInstanceName] == []
    ensures r.Hit? ==> workflowInstanceName in s.localInputs && r.input in s.localInputs[workflowInstanceName] && r.input.key == key
    ensures r.Miss? ==> workflowInstanceName in s.localInputs && forall ci :: ci in s.localInputs[workflowInstanceName] ==> ci.key != key
  {
    Find(s.localInputs, workflowInstanceName, Some(key))
  }

  /** `saveGlobalInputs`: replaces the whole set of one workflow. */
  function SaveGlobalInputs(s: Store, workflowName: string, inputs: seq<ContextualInput>): (r: Store)
    ensures workflowName in r.globalInputs && r.globalInputs[workflowName] == inputs
    ensures forall w :: w != workflowName ==>
      (w in r.globalInputs <==> w in s.globalInputs) && (w in s.globalInputs ==> r.globalInputs[w] == s.globalInputs[w])
    ensures r.localInputs == s.localInputs
  {
    s.(globalInputs := s.globalInputs[workflowName := inputs])
  }

  /** After `saveGlobalInputs(w, S)`, lookups for `w` see exactly `S`, and lookups
      for every other workflow are unaffected. */
  lemma SaveGlobalThenFind(s: Store, w: string, inputs: seq<ContextualInput>, w': string, key: NString)
    ensures FindGlobalContextualInput(SaveGlobalInputs(s, w, inputs), w', key) ==
      if w' == w then Find(map[w := inputs], w, key) else FindGlobalContextualInput(s, w', key)
  {
  }

  /** Set insertion: unchanged when an equal input is already present. */
  function AddInput(inputs: seq<ContextualInput>, input: ContextualInput): (r: seq<ContextualInput>)
    ensures input in r
    ensures forall ci :: ci in r <==> ci in inputs || ci == input
  {
    if input in inputs then inputs else inputs + [input]
  }

  /** `saveLocalInput`: adds only into a set that already exists and is non-empty;
      otherwise nothing happens. */
  function SaveLocalInput(s: Store, workflowInstanceName: string, input: ContextualInput): (r: Store)
    ensures r.globalInputs == s.globalInputs
    ensures workflowInstanceName !in s.localInputs || s.localInputs[workflowInstanceName] == [] ==> r == s
    ensures workflowInstanceName in s.localInputs && s.localInputs[workflowInstanceName] != [] ==>
      r.localInputs == s.localInputs[workflowInstanceName := AddInput(s.localInputs[workflowInstanceName], input)]
  {
    if workflowInstanceName in s.localInputs && s.localInputs[workflowInstanceName] != [] then
      s.(localInputs := s.localInputs[workflowInstanceName := AddInput(s.localInputs[workflowInstanceName], input)])
    else
      s
  }

  /** `deleteGlobalContextualInput`: forgets one workflow's inputs, nothing else. */
  function DeleteGlobalContextualInput(s: Store, workflowName: string): (r: Store)
    ensures r.globalInputs.Keys == s.globalInputs.Keys - {workflowName}
    ensures forall w :: w in r.globalInputs ==> r.globalInputs[w] == s.globalInputs[w]
    ensures r.localInputs == s.localInputs
  {
    s.(globalInputs := s.globalInputs - {workflowName})
  }

  /** `deleteLocalContextualInput`: forgets one instance's inputs, nothing else. */
  function DeleteLocalContextualInput(s: Store, workflowInstanceName: string): (r: Store)
    ensures r.localInputs.Keys == s.localInputs.Keys - {workflowInstanceName}
    ensures forall w :: w in r.localInputs ==> r.localInputs[w] == s.localInputs[w]
    ensures r.globalInputs == s.globalInputs
  {
    s.(localInputs := s.localInputs - {workflowInstanceName})
  }

  /** Every way the repository can be changed. */
  datatype StoreOp =
    | SaveGlobal(workflowName: string, inputs: seq<ContextualInput>)
    | SaveLocal(workflowInstanceName: string, input: ContextualInput)
    | DeleteGlobal(workflowName: string)
    | DeleteLocal(workflowInstanceName: string)

  function Apply(s: Store, op: StoreOp): Store {
    match op
    case SaveGlobal(w, inputs) => SaveGlobalInputs(s, w, inputs)
    case SaveLocal(wi, input) => SaveLocalInput(s, wi, input)
    case DeleteGlobal(w) => DeleteGlobalContextualInput(s, w)
    case DeleteLocal(wi) => DeleteLocalContextualInput(s, wi)
  }

  function ApplyAll(s: Store, ops: seq<StoreOp>): Store
    decreases |ops|
  {
    if |ops| == 0 then s else ApplyAll(Apply(s, ops[0]), ops[1..])
  }

  /** No operation ever creates a local set: saving a local input needs one to exist
      already. So an empty local map stays empty. */
  lemma {:induction false} LocalInputsStayEmpty(s: Store, ops: seq<StoreOp>)
    requires s.localInputs == map[]
    ensures ApplyAll(s, ops).localInputs == map[]
    decreases |ops|
  {
    if |ops| > 0 {
      var s' := Apply(s, ops[0]);
      assert s'.localInputs == map[] by {
        match ops[0]
        case SaveGlobal(_, _) =>
        case SaveLocal(_, _) =>
        case DeleteGlobal(_) =>
        case DeleteLocal(wi) =>
          assert s'.localInputs.Keys == {};
      }
      LocalInputsStayEmpty(s', ops[1..]);
    }
  }

  /** From the initial repository, every local lookup returns a null Optional. */
  lemma FindLocalAlwaysNoStore(ops: seq<StoreOp>, workflowInstanceName: string, key: string)
    ensures FindLocalContextualInput(ApplyAll(Initial, ops), workflowInstanceName, key) == NoStore
  {
    LocalInputsStayEmpty(Initial, ops);
  }
}
