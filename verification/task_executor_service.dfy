/** `TaskExecutorService`: builds a task's HTTP request, substituting contextual
    inputs (global ones by workflow name, local ones by workflow instance name) for
    placeholders, and turns the HTTP outcome into a Decider event. Each lookup
    returns a null `Optional` when the instance or workflow has no non-empty input
    set, and dereferencing it throws. The HTTP exchange itself is not modelled: its
    outcome arrives as the `response` or `failure` argument of the handlers. */
module TaskExecutorService {
  import opened Lang
  import opened Definitions
  import opened Engine
  import opened Messages
  import opened ContextualInputRepository
  import WorkflowRepository
  import DeciderActor

  /** `v` is the value of some input with key `key`, global to workflow `w` or local
      to instance `wi`. */
  ghost predicate SuppliedBy(s: Store, w: string, wi: string, key: string, v: NString) {
    exists ci :: ((w in s.globalInputs && ci in s.globalInputs[w]) || (wi in s.localInputs && ci in s.localInputs[wi]))
      && ci.key == key && ci.value == v
  }

  /** A lookup whose result is usable as a value: present, with a non-null value. */
  predicate Resolves(l: Lookup) {
    l.Hit? && l.input.value.Some?
  }

  /** `buildBody`: the value of the global input named by the body when there is one;
      otherwise the value of the local input of that name; otherwise the body itself.
      A null lookup result throws, and a null body throws at the local lookup. */
  function BuildBody(s: Store, body: NString, workflowName: string, instanceName: string): (r: Result<NString>)
    ensures r.Err? ==> r.fault == NullPointer
    ensures Resolves(FindGlobalContextualInput(s, workflowName, body)) ==>
      r == Ok(FindGlobalContextualInput(s, workflowName, body).input.value)
    ensures r.Err? <==>
      || FindGlobalContextualInput(s, workflowName, body).NoStore?
      || (!Resolves(FindGlobalContextualInput(s, workflowName, body)) &&
          (body.None? || FindLocalContextualInput(s, instanceName, body.value).NoStore?))
    ensures r.Ok? && r.value != body ==> body.Some? && SuppliedBy(s, workflowName, instanceName, body.value, r.value)
    ensures body.Some? && FindGlobalContextualInput(s, workflowName, body).Miss? ==> r == BodyFromLocal(s, body.value, instanceName)
    ensures body.Some? && FindGlobalContextualInput(s, workflowName, body).Hit? && !Resolves(FindGlobalContextualInput(s, workflowName, body)) ==>
      r == BodyFromLocal(s, body.value, instanceName)
  {
    var g := FindGlobalContextualInput(s, workflowName, body);
    if g.NoStore? then Err(NullPointer)
    else if Resolves(g) then
      assert g.input in s.globalInputs[workflowName];
      Ok(g.input.value)
    else if body.None? then Err(NullPointer)
    else
      var l := FindLocalContextualInput(s, instanceName, body.value);
      if l.NoStore? then Err(NullPointer)
      else if Resolves(l) then
        assert l.input in s.localInputs[instanceName];
        Ok(l.input.value)
      else Ok(body)
  }

  /** The local half of `buildBody` for a non-null body: the value of the local
      input of that name when it is present and non-null, otherwise the body itself;
      a null lookup result throws. */
  function BodyFromLocal(s: Store, body: string, instanceName: string): (r: Result<NString>)
    ensures r.Err? <==> FindLocalContextualInput(s, instanceName, body).NoStore?
    ensures Resolves(FindLocalContextualInput(s, instanceName, body)) ==> r == Ok(FindLocalContextualInput(s, instanceName, body).input.value)
    ensures !FindLocalContextualInput(s, instanceName, body).NoStore? && !Resolves(FindLocalContextualInput(s, instanceName, body)) ==>
      r == Ok(Some(body))
  {
    var l := FindLocalContextualInput(s, instanceName, body);
    if l.NoStore? then Err(NullPointer)
    else if Resolves(l) then Ok(l.input.value)
    else Ok(Some(body))
  }

  /** Looking up `key` throws: the workflow or the instance has no inputs at all. */
  predicate Unresolvable(s: Store, key: string, workflowName: string, instanceName: string) {
    FindGlobalContextualInput(s, workflowName, Some(key)).NoStore? || FindLocalContextualInput(s, instanceName, key).NoStore?
  }

  /** The values one placeholder contributes: the global value, then the local one,
      each when present (a present input's value may itself be null). */
  function Substitutes(s: Store, key: string, workflowName: string, instanceName: string): (r: Result<seq<NString>>)
    ensures r.Err? <==> Unresolvable(s, key, workflowName, instanceName)
    ensures r.Err? ==> r.fault == NullPointer
    ensures r.Ok? ==> |r.value| <= 2
    ensures var g := FindGlobalContextualInput(s, workflowName, Some(key));
      var l := FindLocalContextualInput(s, instanceName, key);
      r.Ok? ==> |r.value| == (if g.Hit? then 1 else 0) + (if l.Hit? then 1 else 0)
    ensures var g := FindGlobalContextualInput(s, workflowName, Some(key));
      r.Ok? && g.Hit? ==> r.value[0] == g.input.value
    ensures var l := FindLocalContextualInput(s, instanceName, key);
      r.Ok? && l.Hit? ==> r.value[|r.value| - 1] == l.input.value
    ensures r.Ok? ==> forall v :: v in r.value ==> SuppliedBy(s, workflowName, instanceName, key, v)
  {
    var g := FindGlobalContextualInput(s, workflowName, Some(key));
    if g.NoStore? then Err(NullPointer)
    else
      var l := FindLocalContextualInput(s, instanceName, key);
      if l.NoStore? then Err(NullPointer)
      else Ok((if g.Hit? then [g.input.value] else []) + (if l.Hit? then [l.input.value] else []))
  }

  /** `buildUriVariables`: the substitutes of every variable in order. The variable
      itself is never kept, so a variable with no input contributes nothing. */
  function BuildUriVariables(s: Store, vars: seq<string>, workflowName: string, instanceName: string): (r: Result<seq<NString>>)
    ensures r.Err? <==> exists i :: 0 <= i < |vars| && Unresolvable(s, vars[i], workflowName, instanceName)
    ensures r.Err? ==> r.fault == NullPointer
    ensures r.Ok? ==> |r.value| <= 2 * |vars|
    ensures r.Ok? ==> forall v :: v in r.value ==> exists i :: 0 <= i < |vars| && v in Substitutes(s, vars[i], workflowName, instanceName).value
  {
    if |vars| == 0 then Ok([])
    else
      var init := vars[..|vars| - 1];
      var last := vars[|vars| - 1];
      assert forall i :: 0 <= i < |init| ==> init[i] == vars[i];
      var front := BuildUriVariables(s, init, workflowName, instanceName);
      if front.Err? then Err(front.fault)
      else
        var tail := Substitutes(s, last, workflowName, instanceName);
        if tail.Err? then Err(tail.fault)
        else Ok(front.value + tail.value)
  }

  /** The substitutes of one header or parameter value, as headers of that name. */
  function Tagged(name: string, values: seq<NString>): (r: seq<Entry>)
    ensures |r| == |values|
    ensures forall k :: 0 <= k < |r| ==> r[k] == Entry(name, values[k])
  {
    seq(|values|, k requires 0 <= k < |values| => Entry(name, values[k]))
  }

  /** Some header's value cannot be looked up. */
  predicate SomeHeaderUnresolvable(s: Store, headers: seq<Header>, workflowName: string, instanceName: string) {
    exists i :: 0 <= i < |headers| && Unresolvable(s, headers[i].value, workflowName, instanceName)
  }

  /** `buildHeaders`: for each header, the header as written, then the substitutes
      of its value under the same header name. */
  function BuildHeaders(s: Store, headers: seq<Header>, workflowName: string, instanceName: string): (r: Result<seq<Entry>>)
    ensures r.Err? <==> SomeHeaderUnresolvable(s, headers, workflowName, instanceName)
    ensures r.Ok? ==> |headers| <= |r.value| <= 3 * |headers|
  {
    if |headers| == 0 then Ok([])
    else
      var init := headers[..|headers| - 1];
      var h := headers[|headers| - 1];
      assert forall i :: 0 <= i < |init| ==> init[i] == headers[i];
      var front := BuildHeaders(s, init, workflowName, instanceName);
      if front.Err? then Err(front.fault)
      else
        var subs := Substitutes(s, h.value, workflowName, instanceName);
        if subs.Err? then Err(subs.fault)
        else Ok(front.value + [Entry(h.name, Some(h.value))] + Tagged(h.name, subs.value))
  }

  /** One step of `BuildHeaders`: a successful build of a non-empty list is the
      build of all but the last header, then the last header as written, then its
      substitutes. */
  lemma BuildHeadersLast(s: Store, headers: seq<Header>, w: string, wi: string)
    requires |headers| > 0 && BuildHeaders(s, headers, w, wi).Ok?
    ensures var h := headers[|headers| - 1];
      var front := BuildHeaders(s, headers[..|headers| - 1], w, wi);
      var subs := Substitutes(s, h.value, w, wi);
      && front.Ok? && subs.Ok?
      && BuildHeaders(s, headers, w, wi).value == front.value + [Entry(h.name, Some(h.value))] + Tagged(h.name, subs.value)
  { }

  /** What is in the front of a splice is in the whole. */
  lemma InSpliceFront<T>(x: T, v: seq<T>, front: seq<T>, m: T, tail: seq<T>)
    requires v == front + [m] + tail && x in front
    ensures x in v
  {
    var k :| 0 <= k < |front| && front[k] == x;
    assert v[k] == x;
  }

  /** The middle element of a splice is in the whole. */
  lemma InSpliceMiddle<T>(v: seq<T>, front: seq<T>, m: T, tail: seq<T>)
    requires v == front + [m] + tail
    ensures m in v
  {
    assert v[|front|] == m;
  }

  /** The `i`-th header as written is sent. */
  lemma {:induction false} BuildHeadersKeepsLiteral(s: Store, headers: seq<Header>, w: string, wi: string, i: nat)
    requires i < |headers| && BuildHeaders(s, headers, w, wi).Ok?
    ensures Entry(headers[i].name, Some(headers[i].value)) in BuildHeaders(s, headers, w, wi).value
    decreases |headers|
  {
    var last := |headers| - 1;
    var init := headers[..last];
    var h := headers[last];
    assert |init| == last;
    BuildHeadersLast(s, headers, w, wi);
    var v := BuildHeaders(s, headers, w, wi).value;
    var front := BuildHeaders(s, init, w, wi).value;
    var lit := Entry(h.name, Some(h.value));
    var tail := Tagged(h.name, Substitutes(s, h.value, w, wi).value);
    if i < |init| {
      BuildHeadersKeepsLiteral(s, init, w, wi, i);
      assert init[i] == headers[i];
      InSpliceFront(Entry(headers[i].name, Some(headers[i].value)), v, front, lit, tail);
    } else {
      assert i == last;
      InSpliceMiddle(v, front, lit, tail);
    }
  }

  /** Every header as written is sent. */
  lemma BuildHeadersKeepsLiterals(s: Store, headers: seq<Header>, w: string, wi: string)
    ensures var r := BuildHeaders(s, headers, w, wi);
      r.Ok? ==> forall i :: 0 <= i < |headers| ==> Entry(headers[i].name, Some(headers[i].value)) in r.value
  {
    if BuildHeaders(s, headers, w, wi).Ok? {
      forall i | 0 <= i < |headers|
        ensures Entry(headers[i].name, Some(headers[i].value)) in BuildHeaders(s, headers, w, wi).value
      {
        BuildHeadersKeepsLiteral(s, headers, w, wi, i);
      }
    }
  }

  /** Nothing is sent under a name that is not one of the task's header names. */
  lemma {:induction false} BuildHeadersNamesOnly(s: Store, headers: seq<Header>, w: string, wi: string)
    ensures var r := BuildHeaders(s, headers, w, wi);
      r.Ok? ==> forall e :: e in r.value ==> exists i :: 0 <= i < |headers| && e.name == headers[i].name
    decreases |headers|
  {
    var r := BuildHeaders(s, headers, w, wi);
    if |headers| > 0 && r.Ok? {
      var init := headers[..|headers| - 1];
      var h := headers[|headers| - 1];
      var front := BuildHeaders(s, init, w, wi);
      var subs := Substitutes(s, h.value, w, wi);
      BuildHeadersNamesOnly(s, init, w, wi);
      assert r.value == front.value + [Entry(h.name, Some(h.value))] + Tagged(h.name, subs.value);
      forall e | e in r.value ensures exists i :: 0 <= i < |headers| && e.name == headers[i].name {
        if e in front.value {
          var i :| 0 <= i < |init| && e.name == init[i].name;
          assert headers[i] == init[i];
        } else {
          assert e.name == headers[|headers| - 1].name;
        }
      }
    }
  }

  /** `buildQueryParams`: every parameter becomes a request attribute as written,
      while the substitutes of its value are added as headers, not as attributes. */
  function BuildQueryParams(s: Store, params: seq<Param>, workflowName: string, instanceName: string): (r: Result<seq<Entry>>)
    ensures r.Err? <==> exists i :: 0 <= i < |params| && Unresolvable(s, params[i].value, workflowName, instanceName)
    ensures r.Ok? ==> forall e :: e in r.value ==> exists i :: 0 <= i < |params| && e.name == params[i].name
    ensures r.Ok? ==> |r.value| <= 2 * |params|
  {
    if |params| == 0 then Ok([])
    else
      var init := params[..|params| - 1];
      var p := params[|params| - 1];
      assert forall i :: 0 <= i < |init| ==> init[i] == params[i];
      var front := BuildQueryParams(s, init, workflowName, instanceName);
      if front.Err? then Err(front.fault)
      else
        var subs := Substitutes(s, p.value, workflowName, instanceName);
        if subs.Err? then Err(subs.fault)
        else
          var r := front.value + Tagged(p.name, subs.value);
          assert forall e :: e in r ==> e in front.value || e.name == p.name;
          Ok(r)
  }

  /** The first non-null value of `vs`, or `fallback` when there is none. */
  function FirstPresent(vs: seq<NString>, fallback: NString): (v: NString)
    ensures v == fallback || (v in vs && v.Some?)
    ensures (forall k :: 0 <= k < |vs| ==> vs[k].None?) ==> v == fallback
  {
    if |vs| == 0 then fallback
    else if vs[0].Some? then vs[0]
    else FirstPresent(vs[1..], fallback)
  }

  /** The body and the uri variables agree: where both lookups succeed, the body
      is the first non-null substitute a uri variable of the same name would get,
      and the body as written when there is none. */
  lemma BuildBodyFirstSubstitute(s: Store, key: string, w: string, wi: string)
    requires !Unresolvable(s, key, w, wi)
    ensures BuildBody(s, Some(key), w, wi) == Ok(FirstPresent(Substitutes(s, key, w, wi).value, Some(key)))
  {
    var g := FindGlobalContextualInput(s, w, Some(key));
    var l := FindLocalContextualInput(s, wi, key);
    var subs := Substitutes(s, key, w, wi).value;
    assert subs == (if g.Hit? then [g.input.value] else []) + (if l.Hit? then [l.input.value] else []);
    if !Resolves(g) && g.Hit? {
      assert subs[1..] == (if l.Hit? then [l.input.value] else []);
    }
  }

  /** The loop shape shared by the three builders: each element in order
      contributes the values its `step` gives, and the first step that throws
      ends the loop with its exception. */
  function ConcatSteps<T, E>(xs: seq<T>, step: T -> Result<seq<E>>): Result<seq<E>>
  {
    if |xs| == 0 then Ok([])
    else
      var front := ConcatSteps(xs[..|xs| - 1], step);
      if front.Err? then Err(front.fault)
      else
        var t := step(xs[|xs| - 1]);
        if t.Err? then Err(t.fault)
        else Ok(front.value + t.value)
  }

  /** The loop over one element is that element's step. */
  lemma ConcatStepsSingle<T, E>(x: T, step: T -> Result<seq<E>>)
    ensures ConcatSteps([x], step) == step(x)
  {
    assert [x][..0] == [];
    var t := step(x);
    if t.Ok? {
      assert [] + t.value == t.value;
    }
  }

  /** The loop over `a + b` is the loop over `a` followed by the loop over `b`;
      it succeeds exactly when both do. */
  lemma {:induction false} ConcatStepsAppend<T, E>(a: seq<T>, b: seq<T>, step: T -> Result<seq<E>>)
    ensures var r := ConcatSteps(a + b, step);
      var ra := ConcatSteps(a, step);
      var rb := ConcatSteps(b, step);
      && (r.Ok? <==> ra.Ok? && rb.Ok?)
      && (r.Ok? ==> r.value == ra.value + rb.value)
    decreases |b|
  {
    if |b| == 0 {
      assert a + b == a;
    } else {
      var b0 := b[..|b| - 1];
      var x := b[|b| - 1];
      var ab := a + b;
      assert |ab| == |a| + |b|;
      assert ab[..|ab| - 1] == a + b0;
      assert ab[|ab| - 1] == x;
      ConcatStepsAppend(a, b0, step);
      var ra := ConcatSteps(a, step);
      var rb0 := ConcatSteps(b0, step);
      var t := step(x);
      if ConcatSteps(a + b0, step).Ok? && t.Ok? {
        assert (ra.value + rb0.value) + t.value == ra.value + (rb0.value + t.value);
      }
    }
  }

  /** One uri variable's step: its substitutes. */
  function UriVariableStep(s: Store, w: string, wi: string): string -> Result<seq<NString>> {
    (x: string) => Substitutes(s, x, w, wi)
  }

  /** One header's step: the header as written, then its substitutes. */
  function HeaderStep(s: Store, w: string, wi: string): Header -> Result<seq<Entry>> {
    (h: Header) => var subs := Substitutes(s, h.value, w, wi);
                  if subs.Err? then Err(subs.fault) else Ok([Entry(h.name, Some(h.value))] + Tagged(h.name, subs.value))
  }

  /** One parameter's step: its substitutes, as headers of its name. */
  function ParamStep(s: Store, w: string, wi: string): Param -> Result<seq<Entry>> {
    (p: Param) => var subs := Substitutes(s, p.value, w, wi);
                 if subs.Err? then Err(subs.fault) else Ok(Tagged(p.name, subs.value))
  }

  lemma {:induction false} BuildUriVariablesIsConcatSteps(s: Store, vars: seq<string>, w: string, wi: string)
    ensures BuildUriVariables(s, vars, w, wi) == ConcatSteps(vars, UriVariableStep(s, w, wi))
    decreases |vars|
  {
    if |vars| > 0 {
      BuildUriVariablesIsConcatSteps(s, vars[..|vars| - 1], w, wi);
    }
  }

  lemma {:induction false} BuildHeadersIsConcatSteps(s: Store, headers: seq<Header>, w: string, wi: string)
    ensures BuildHeaders(s, headers, w, wi) == ConcatSteps(headers, HeaderStep(s, w, wi))
    decreases |headers|
  {
    if |headers| > 0 {
      var h := headers[|headers| - 1];
      BuildHeadersIsConcatSteps(s, headers[..|headers| - 1], w, wi);
      var front := BuildHeaders(s, headers[..|headers| - 1], w, wi);
      var subs := Substitutes(s, h.value, w, wi);
      if front.Ok? && subs.Ok? {
        var lit := [Entry(h.name, Some(h.value))];
        var t := Tagged(h.name, subs.value);
        assert front.value + lit + t == front.value + (lit + t);
      }
    }
  }

  lemma {:induction false} BuildQueryParamsIsConcatSteps(s: Store, params: seq<Param>, w: string, wi: string)
    ensures BuildQueryParams(s, params, w, wi) == ConcatSteps(params, ParamStep(s, w, wi))
    decreases |params|
  {
    if |params| > 0 {
      BuildQueryParamsIsConcatSteps(s, params[..|params| - 1], w, wi);
    }
  }

  /** A single uri variable contributes exactly its substitutes. */
  lemma BuildUriVariablesSingle(s: Store, x: string, w: string, wi: string)
    ensures BuildUriVariables(s, [x], w, wi) == Substitutes(s, x, w, wi)
  {
    BuildUriVariablesIsConcatSteps(s, [x], w, wi);
    ConcatStepsSingle(x, UriVariableStep(s, w, wi));
  }

  /** The uri variables of `a + b` are those of `a` followed by those of `b`:
      together with `BuildUriVariablesSingle`, every variable contributes its
      substitutes, in the order of the variables. */
  lemma BuildUriVariablesAppend(s: Store, a: seq<string>, b: seq<string>, w: string, wi: string)
    ensures var r := BuildUriVariables(s, a + b, w, wi);
      var ra := BuildUriVariables(s, a, w, wi);
      var rb := BuildUriVariables(s, b, w, wi);
      && (r.Ok? <==> ra.Ok? && rb.Ok?)
      && (r.Ok? ==> r.value == ra.value + rb.value)
  {
    BuildUriVariablesIsConcatSteps(s, a + b, w, wi);
    BuildUriVariablesIsConcatSteps(s, a, w, wi);
    BuildUriVariablesIsConcatSteps(s, b, w, wi);
    ConcatStepsAppend(a, b, UriVariableStep(s, w, wi));
  }

  /** A single header is sent as written, then with each of its substitutes. */
  lemma BuildHeadersSingle(s: Store, h: Header, w: string, wi: string)
    ensures var r := BuildHeaders(s, [h], w, wi);
      var subs := Substitutes(s, h.value, w, wi);
      && (r.Ok? <==> subs.Ok?)
      && (r.Ok? ==> r.value == [Entry(h.name, Some(h.value))] + Tagged(h.name, subs.value))
  {
    BuildHeadersIsConcatSteps(s, [h], w, wi);
    ConcatStepsSingle(h, HeaderStep(s, w, wi));
  }

  /** The headers of `a + b` are those of `a` followed by those of `b`: with
      `BuildHeadersSingle`, each header in order is sent as written and then with
      its global and its local substitute. */
  lemma BuildHeadersAppend(s: Store, a: seq<Header>, b: seq<Header>, w: string, wi: string)
    ensures var r := BuildHeaders(s, a + b, w, wi);
      var ra := BuildHeaders(s, a, w, wi);
      var rb := BuildHeaders(s, b, w, wi);
      && (r.Ok? <==> ra.Ok? && rb.Ok?)
      && (r.Ok? ==> r.value == ra.value + rb.value)
  {
    BuildHeadersIsConcatSteps(s, a + b, w, wi);
    BuildHeadersIsConcatSteps(s, a, w, wi);
    BuildHeadersIsConcatSteps(s, b, w, wi);
    ConcatStepsAppend(a, b, HeaderStep(s, w, wi));
  }

  /** A single parameter adds its substitutes as headers under its name. */
  lemma BuildQueryParamsSingle(s: Store, p: Param, w: string, wi: string)
    ensures var r := BuildQueryParams(s, [p], w, wi);
      var subs := Substitutes(s, p.value, w, wi);
      && (r.Ok? <==> subs.Ok?)
      && (r.Ok? ==> r.value == Tagged(p.name, subs.value))
  {
    BuildQueryParamsIsConcatSteps(s, [p], w, wi);
    ConcatStepsSingle(p, ParamStep(s, w, wi));
  }

  /** The headers added for the parameters `a + b` are those for `a` followed by
      those for `b`: with `BuildQueryParamsSingle`, each parameter in order adds its
      global and its local substitute under its own name. */
  lemma BuildQueryParamsAppend(s: Store, a: seq<Param>, b: seq<Param>, w: string, wi: string)
    ensures var r := BuildQueryParams(s, a + b, w, wi);
      var ra := BuildQueryParams(s, a, w, wi);
      var rb := BuildQueryParams(s, b, w, wi);
      && (r.Ok? <==> ra.Ok? && rb.Ok?)
      && (r.Ok? ==> r.value == ra.value + rb.value)
  {
    BuildQueryParamsIsConcatSteps(s, a + b, w, wi);
    BuildQueryParamsIsConcatSteps(s, a, w, wi);
    BuildQueryParamsIsConcatSteps(s, b, w, wi);
    ConcatStepsAppend(a, b, ParamStep(s, w, wi));
  }

  /** A null list is dereferenced by the loop over it. */
  function NonNull<T>(xs: Option<seq<T>>): (r: Result<seq<T>>)
    ensures r.Ok? <==> xs.Some?
    ensures r.Ok? ==> r.value == xs.value
  {
    if xs.None? then Err(NullPointer) else Ok(xs.value)
  }

  /** `buildHttpRequest` and the four `build*Request` methods: uri variables, then
      the body (POST and PUT only), then headers, then query parameters. A null
      method, or one other than GET, POST, PUT and DELETE, leaves the request null,
      and `execute` then dereferences it. */
  function BuildHttpRequest(s: Store, req: HttpRequest, workflowName: string, instanceName: string): (r: Result<Request>)
    ensures req.httpMethod !in {Some(Get), Some(Post), Some(Put), Some(Delete)} ==> r == Err(NullPointer)
    ensures r.Ok? ==> Some(r.value.httpMethod) == req.httpMethod && r.value.url == req.url
    ensures r.Ok? ==> req.uriVariables.Some? && req.headers.Some? && req.params.Some?
    ensures r.Ok? ==> BuildUriVariables(s, req.uriVariables.value, workflowName, instanceName).Ok?
    ensures r.Ok? ==> r.value.uriVariables == Some(BuildUriVariables(s, req.uriVariables.value, workflowName, instanceName).value)
    ensures r.Ok? ==> r.value.attributes == Attributes(req.params.value)
    ensures r.Ok? ==> (r.value.body.Some? <==> r.value.httpMethod in {Post, Put})
    ensures r.Ok? && r.value.body.Some? ==> BuildBody(s, req.body, workflowName, instanceName).Ok?
    ensures r.Ok? && r.value.body.Some? ==> r.value.body == Some(BuildBody(s, req.body, workflowName, instanceName).value)
    ensures r.Ok? ==> BuildHeaders(s, req.headers.value, workflowName, instanceName).Ok?
    ensures r.Ok? ==> BuildQueryParams(s, req.params.value, workflowName, instanceName).Ok?
    ensures r.Ok? ==>
      r.value.headers == BuildHeaders(s, req.headers.value, workflowName, instanceName).value
                         + BuildQueryParams(s, req.params.value, workflowName, instanceName).value
  {
    if req.httpMethod !in {Some(Get), Some(Post), Some(Put), Some(Delete)} then Err(NullPointer)
    else
      var m := req.httpMethod.value;
      var vars :- NonNull(req.uriVariables);
      var uriVariables :- BuildUriVariables(s, vars, workflowName, instanceName);
      var body :- if m == Post || m == Put then
                    var b :- BuildBody(s, req.body, workflowName, instanceName); Ok(Some(b))
                  else Ok(None);
      var hs :- NonNull(req.headers);
      var headers :- BuildHeaders(s, hs, workflowName, instanceName);
      var ps :- NonNull(req.params);
      var paramHeaders :- BuildQueryParams(s, ps, workflowName, instanceName);
      Ok(Request(m, req.url, Some(uriVariables), headers + paramHeaders, Attributes(ps), body))
  }

  /** `buildTaskInstance`: the task's name and a fresh random name (`uuid`, a
      parameter standing for `UUID.randomUUID()`), nothing else. */
  function BuildTaskInstance(task: Task, uuid: string): (ti: TaskInstance)
    ensures ti.taskName == Some(task.name) && ti.taskInstanceName == Some(uuid)
    ensures ti.workflowName.None? && ti.workflowInstanceName.None?
    ensures !IsTerminated(ti) && ti.response.None? && ti.failure.None?
  {
    NoTaskInstance.(taskName := Some(task.name), taskInstanceName := Some(uuid))
  }

  /** `execute` up to sending the request: the task instance and the request. */
  function Execute(s: Store, task: Task, instanceName: string, uuid: string): (r: Result<(Request, TaskInstance)>)
    ensures r.Ok? <==> BuildHttpRequest(s, task.httpRequest, task.workflowName, instanceName).Ok?
    ensures r.Ok? ==> r.value == (BuildHttpRequest(s, task.httpRequest, task.workflowName, instanceName).value, BuildTaskInstance(task, uuid))
  {
    var ti := BuildTaskInstance(task, uuid);
    var request :- BuildHttpRequest(s, task.httpRequest, task.workflowName, instanceName);
    Ok((request, ti))
  }

  /** The outcome of a response handler: the repository, the task instance, and the
      event sent to the Decider. */
  datatype Outcome = Outcome(store: Store, taskInstance: TaskInstance, event: Message)

  /** `buildContextualInput`: the task's response published under its response key. */
  function ResponseInput(ti: TaskInstance): (ci: ContextualInput)
    ensures ci.key == ResponseKey(ti.taskName) && ci.value == ti.response
  {
    ContextualInput(ResponseKey(ti.taskName), ti.response)
  }

  /** `handleSuccessResponse`: records the response, offers it as a local input, and
      reports the task completed for this workflow instance. */
  function OnSuccess(s: Store, task: Task, instanceName: string, ti: TaskInstance, response: NString): (o: Outcome)
    ensures o.taskInstance == ti.(response := response)
    ensures o.store == SaveLocalInput(s, instanceName, ResponseInput(o.taskInstance))
    ensures o.event == ToDecider(TaskCompletedEvent(Some(task.name), Some(instanceName), Some(task.workflowName)))
  {
    var ti' := ti.(response := response);
    Outcome(SaveLocalInput(s, instanceName, ResponseInput(ti')),
            ti', ToDecider(TaskCompletedEvent(Some(task.name), Some(instanceName), Some(task.workflowName))))
  }

  /** `handleFailureResponse`, as written: records the failure, offers the (absent)
      response as a local input, and reports the task failed, passing the task
      instance's random name where the event expects the workflow instance name. */
  function OnFailure(s: Store, task: Task, instanceName: string, ti: TaskInstance, failure: Throwable): (o: Outcome)
    ensures o.taskInstance == ti.(failure := Some(failure))
    ensures o.store == SaveLocalInput(s, instanceName, ResponseInput(o.taskInstance))
    ensures o.event == ToDecider(TaskFailedEvent(Some(task.name), ti.taskInstanceName, Some(task.workflowName)))
  {
    var ti' := ti.(failure := Some(failure));
    Outcome(SaveLocalInput(s, instanceName, ResponseInput(ti')),
            ti', ToDecider(TaskFailedEvent(Some(task.name), ti'.taskInstanceName, Some(task.workflowName))))
  }

  /** `handleFailureResponse` as evidently intended: the event names the workflow
      instance, as the success handler's does. */
  function OnFailureCorrected(s: Store, task: Task, instanceName: string, ti: TaskInstance, failure: Throwable): (o: Outcome)
    ensures o.taskInstance == ti.(failure := Some(failure))
    ensures o.store == SaveLocalInput(s, instanceName, ResponseInput(o.taskInstance))
    ensures o.event.ToDecider? && o.event.event.TaskFailedEvent?
    ensures o.event.event.workflowInstanceName == OnSuccess(s, task, instanceName, ti, None).event.event.workflowInstanceName
  {
    var ti' := ti.(failure := Some(failure));
    Outcome(SaveLocalInput(s, instanceName, ResponseInput(ti')),
            ti', ToDecider(TaskFailedEvent(Some(task.name), Some(instanceName), Some(task.workflowName))))
  }

  /** As written, a failure of a task executed for instance `wi` is announced for the
      instance named by the random task instance name instead, so the two differ
      whenever the random name is not `wi`. */
  lemma FailureNamesWrongInstance(s: Store, task: Task, wi: string, uuid: string, failure: Throwable)
    requires uuid != wi
    ensures OnFailure(s, task, wi, BuildTaskInstance(task, uuid), failure).event.event.workflowInstanceName == Some(uuid)
    ensures OnFailure(s, task, wi, BuildTaskInstance(task, uuid), failure).event
         != OnFailureCorrected(s, task, wi, BuildTaskInstance(task, uuid), failure).event
  {
  }

  /** Every instance command the Decider sends in answer to `e` is addressed to
      `instance`. */
  predicate AllAddressedTo(out: seq<Message>, instance: NString) {
    forall m :: m in out ==>
      && (m.ToTaskActor? ==> m.startTask.workflowInstanceName == instance)
      && (m.ToWorkflowActor? && !m.command.ScheduleWorkflowCommand? ==> m.command.instanceName == instance)
  }

  /** As written, whatever the handlers of a failed task command, the Decider sends
      it to the instance named by the task instance's random name, which no
      coordinator child carries, so it is dropped. */
  lemma FailureHandlersTargetTaskInstance(r: WorkflowRepository.Repository, s: Store, task: Task, wi: string,
                                          uuid: string, failure: Throwable)
    ensures var e := OnFailure(s, task, wi, BuildTaskInstance(task, uuid), failure).event.event;
      AllAddressedTo(DeciderActor.Decide(r, e).outbox, Some(uuid))
  {
  }

  /** Corrected, the commands of a failed task's handlers reach the instance the
      task ran for. */
  lemma CorrectedFailureHandlersTargetInstance(r: WorkflowRepository.Repository, s: Store, task: Task, wi: string,
                                               uuid: string, failure: Throwable)
    ensures var e := OnFailureCorrected(s, task, wi, BuildTaskInstance(task, uuid), failure).event.event;
      AllAddressedTo(DeciderActor.Decide(r, e).outbox, Some(wi))
  {
  }

  /** The local input store never has a set to add to, so the response handlers
      leave the repository as it was. */
  lemma HandlersLeaveStoreUnchanged(s: Store, task: Task, wi: string, ti: TaskInstance, response: NString, failure: Throwable)
    requires s.localInputs == map[]
    ensures OnSuccess(s, task, wi, ti, response).store == s
    ensures OnFailure(s, task, wi, ti, failure).store == s
  {
  }

  /** With no local inputs (the only state the repository reaches), every lookup of a
      placeholder throws, so a request builds only when it has no uri variables, no
      headers and no query parameters, and a POST or PUT body must be the key of a
      global input with a non-null value. */
  lemma BuildsOnlyWithoutPlaceholders(s: Store, req: HttpRequest, w: string, wi: string)
    requires s.localInputs == map[]
    ensures BuildHttpRequest(s, req, w, wi).Ok? ==>
      && req.uriVariables == Some([]) && req.headers == Some([]) && req.params == Some([])
      && (req.httpMethod in {Some(Post), Some(Put)} ==> Resolves(FindGlobalContextualInput(s, w, req.body)))
  {
    assert forall k :: Unresolvable(s, k, w, wi);
  }
}
