/**
 * A template component: its class hierarchy (from its own class up to `Object`, as method
 * descriptors), the state node its model proxy reads and writes, the lazily created model,
 * and the dispatch of browser events to annotated handler methods.
 */
module Templates {
  import opened Wrappers
  import opened JavaInts
  import opened TemplateModel

  const MODEL_INTERFACE: JType := ClassT("com.vaadin.ui.Template$Model")
  const ELEMENT: JType := ClassT("com.vaadin.hummingbird.kernel.Element")
  const GET_MODEL: string := "getModel"

  /** A declared method: its name, whether it carries `@TemplateEventHandler`, and its signature. */
  datatype MethodDecl = MethodDecl(name: string, isEventHandler: bool, paramTypes: seq<JType>, returnType: JType)

  /** A class of the hierarchy: whether it is `Template` itself, and its declared methods in order. */
  datatype ClassDecl = ClassDecl(name: string, isTemplate: bool, methods: seq<MethodDecl>)

  /** No class from `from` up to and including `i` is `Template`. */
  predicate BelowTemplate(chain: seq<ClassDecl>, from: nat, i: nat)
    requires i < |chain|
  {
    forall k :: from <= k <= i ==> !chain[k].isTemplate
  }

  /** `Template` is somewhere at or above position `from`. */
  predicate TemplateAbove(chain: seq<ClassDecl>, from: nat)
  {
    exists k :: from <= k < |chain| && chain[k].isTemplate
  }

  // ----- Event handler search -----

  predicate IsHandler(m: MethodDecl, name: string, count: nat)
  {
    m.name == name && m.isEventHandler && |m.paramTypes| == count
  }

  /** The position of the first handler among a class's declared methods. */
  function FirstHandlerIn(methods: seq<MethodDecl>, name: string, count: nat): (r: Option<nat>)
    ensures r.Some? ==> r.value < |methods| && IsHandler(methods[r.value], name, count) &&
                        forall j :: 0 <= j < r.value ==> !IsHandler(methods[j], name, count)
    ensures r.None? ==> forall j :: 0 <= j < |methods| ==> !IsHandler(methods[j], name, count)
    decreases |methods|
  {
    if methods == [] then None
    else if IsHandler(methods[0], name, count) then Some(0)
    else match FirstHandlerIn(methods[1..], name, count)
      case None =>
        assert forall j :: 0 < j < |methods| ==> methods[j] == methods[1..][j - 1];
        None
      case Some(j) =>
        assert forall j' :: 0 < j' < |methods| ==> methods[j'] == methods[1..][j' - 1];
        Some(j + 1)
  }

  /** No class in `[from, i)` declares a handler. */
  predicate NoHandlerIn(chain: seq<ClassDecl>, from: nat, i: nat, name: string, count: nat)
    requires i <= |chain|
  {
    forall k, j :: from <= k < i && 0 <= j < |chain[k].methods| ==> !IsHandler(chain[k].methods[j], name, count)
  }

  /**
   * Where the handler search of `findTemplateEventHandlerMethod` stops: the first handler of
   * the first class, starting at `from`, that declares one, looking no further than the
   * class below `Template` (or the top of the hierarchy).
   */
  function HandlerPosition(chain: seq<ClassDecl>, from: nat, name: string, count: nat): (r: Option<(nat, nat)>)
    requires from <= |chain|
    ensures r.Some? ==>
              var (i, j) := r.value;
              from <= i < |chain| && BelowTemplate(chain, from, i) && j < |chain[i].methods| &&
              IsHandler(chain[i].methods[j], name, count) &&
              NoHandlerIn(chain, from, i, name, count) &&
              forall j' :: 0 <= j' < j ==> !IsHandler(chain[i].methods[j'], name, count)
    ensures r.None? ==>
              forall k, j :: from <= k < |chain| && BelowTemplate(chain, from, k) && 0 <= j < |chain[k].methods| ==>
                             !IsHandler(chain[k].methods[j], name, count)
    decreases |chain| - from
  {
    if from == |chain| || chain[from].isTemplate then None
    else match FirstHandlerIn(chain[from].methods, name, count)
      case Some(j) => Some((from, j))
      case None =>
        var r := HandlerPosition(chain, from + 1, name, count);
        assert forall k :: from + 1 <= k < |chain| && BelowTemplate(chain, from, k) ==> BelowTemplate(chain, from + 1, k);
        assert forall k :: from < k < |chain| && BelowTemplate(chain, from + 1, k) ==> BelowTemplate(chain, from, k);
        r
  }

  /** `findTemplateEventHandlerMethod`: the class loop and, inside it, the declared-method loop. */
  method FindTemplateEventHandlerMethod(chain: seq<ClassDecl>, methodName: string, paramCount: nat)
    returns (r: Option<MethodDecl>)
    ensures var p := HandlerPosition(chain, 0, methodName, paramCount);
            r == if p.Some? then Some(chain[p.value.0].methods[p.value.1]) else None
  {
    var i := 0;
    while i < |chain| && !chain[i].isTemplate
      invariant 0 <= i <= |chain|
      invariant HandlerPosition(chain, 0, methodName, paramCount) == HandlerPosition(chain, i, methodName, paramCount)
    {
      var methods := chain[i].methods;
      for j := 0 to |methods|
        invariant forall j' :: 0 <= j' < j ==> !IsHandler(methods[j'], methodName, paramCount)
      {
        if methods[j].name == methodName && methods[j].isEventHandler && |methods[j].paramTypes| == paramCount {
          assert FirstHandlerIn(methods, methodName, paramCount) == Some(j);
          return Some(methods[j]);
        }
      }
      i := i + 1;
    }
    return None;
  }

  /** A class with no handler below `Template` means no handler is found at all. */
  lemma {:induction false} HandlerNeverFoundInTemplate(chain: seq<ClassDecl>, name: string, count: nat)
    requires chain != [] && chain[0].isTemplate
    ensures HandlerPosition(chain, 0, name, count) == None
  {
  }

  /** A handler declared in the concrete class wins over any declared further up. */
  lemma {:induction false} OwnHandlerWins(chain: seq<ClassDecl>, name: string, count: nat, j: nat)
    requires chain != [] && !chain[0].isTemplate
    requires j < |chain[0].methods| && IsHandler(chain[0].methods[j], name, count)
    requires forall j' :: 0 <= j' < j ==> !IsHandler(chain[0].methods[j'], name, count)
    ensures HandlerPosition(chain, 0, name, count) == Some((0, j))
  {
    var p := FirstHandlerIn(chain[0].methods, name, count);
    assert p == Some(j);
  }

  // ----- Model type -----

  /** `getDeclaredMethod("getModel")`: the first declared `getModel` without parameters. */
  function DeclaredGetModel(methods: seq<MethodDecl>): (r: Option<MethodDecl>)
    ensures r.Some? ==> (exists j :: 0 <= j < |methods| && methods[j] == r.value &&
                                     forall j' :: 0 <= j' < j ==> !(methods[j'].name == GET_MODEL && methods[j'].paramTypes == [])) &&
                        r.value.name == GET_MODEL && r.value.paramTypes == []
    ensures r.None? ==> forall j :: 0 <= j < |methods| ==> !(methods[j].name == GET_MODEL && methods[j].paramTypes == [])
    decreases |methods|
  {
    if methods == [] then None
    else if methods[0].name == GET_MODEL && methods[0].paramTypes == [] then Some(methods[0])
    else
      var r := DeclaredGetModel(methods[1..]);
      assert forall j :: 0 < j < |methods| ==> methods[j] == methods[1..][j - 1];
      if r.None? then r
      else
        var j :| 0 <= j < |methods[1..]| && methods[1..][j] == r.value &&
                 forall j' :: 0 <= j' < j ==> !(methods[1..][j'].name == GET_MODEL && methods[1..][j'].paramTypes == []);
        assert methods[j + 1] == r.value;
        assert forall j' :: 0 <= j' < j + 1 ==> !(methods[j'].name == GET_MODEL && methods[j'].paramTypes == []);
        r
  }

  /**
   * `getModelType`: the return type of the first `getModel()` declared below `Template`,
   * starting at `from`; the `Model` marker interface when there is none.
   */
  function ModelTypeFrom(chain: seq<ClassDecl>, from: nat): (t: JType)
    requires TemplateAbove(chain, from)
    ensures (forall i :: from <= i < |chain| && BelowTemplate(chain, from, i) ==> DeclaredGetModel(chain[i].methods).None?) ==>
              t == MODEL_INTERFACE
    ensures t != MODEL_INTERFACE ==>
              exists i :: from <= i < |chain| && BelowTemplate(chain, from, i) &&
                          DeclaredGetModel(chain[i].methods).Some? && t == DeclaredGetModel(chain[i].methods).value.returnType
    decreases |chain| - from
  {
    if chain[from].isTemplate then MODEL_INTERFACE
    else match DeclaredGetModel(chain[from].methods)
      case Some(m) =>
        assert BelowTemplate(chain, from, from);
        m.returnType
      case None =>
        assert TemplateAbove(chain, from + 1);
        var t := ModelTypeFrom(chain, from + 1);
        assert forall k :: from + 1 <= k < |chain| && BelowTemplate(chain, from, k) ==> BelowTemplate(chain, from + 1, k);
        assert forall k :: from < k < |chain| && BelowTemplate(chain, from + 1, k) ==> BelowTemplate(chain, from, k);
        t
  }

  /**
   * The nearest `getModel()` decides: when class `i` below `Template` is the first, from
   * `from` up, to declare one, the model type is that method's return type.
   */
  lemma {:induction false} NearestGetModelDecides(chain: seq<ClassDecl>, from: nat, i: nat)
    requires TemplateAbove(chain, from)
    requires from <= i < |chain| && BelowTemplate(chain, from, i) && DeclaredGetModel(chain[i].methods).Some?
    requires forall k :: from <= k < i ==> DeclaredGetModel(chain[k].methods).None?
    ensures ModelTypeFrom(chain, from) == DeclaredGetModel(chain[i].methods).value.returnType
    decreases i - from
  {
    assert !chain[from].isTemplate;
    if i > from {
      assert DeclaredGetModel(chain[from].methods).None?;
      assert TemplateAbove(chain, from + 1);
      assert BelowTemplate(chain, from + 1, i);
      NearestGetModelDecides(chain, from + 1, i);
      assert ModelTypeFrom(chain, from) == ModelTypeFrom(chain, from + 1);
    }
  }

  /** A subclass that declares `getModel()` gets that method's return type as its model type. */
  lemma {:induction false} OwnGetModelDecides(chain: seq<ClassDecl>, m: MethodDecl)
    requires chain != [] && !chain[0].isTemplate && TemplateAbove(chain, 0)
    requires DeclaredGetModel(chain[0].methods) == Some(m)
    ensures ModelTypeFrom(chain, 0) == m.returnType
  {
  }

  // ----- Browser events -----

  /** A JSON value sent by the browser; numbers are doubles, modelled as reals. */
  datatype JsonParam =
    | PNull
    | PBool(b: bool)
    | PNumber(n: real)
    | PString(s: string)
    | PArray(items: seq<JsonParam>)

  /** Java's `(int)` cast of a `double`: toward zero, saturating at the ends of the range. */
  function DoubleToInt(x: real): (r: Int32)
    ensures -0x8000_0000 as real < x < 0x8000_0000 as real ==> (r as real) <= x < (r + 1) as real || (r - 1) as real < x <= (r as real)
    ensures x >= 0.0 ==> 0 <= r && r as real <= x
    ensures x <= 0.0 ==> r <= 0 && x <= r as real
    ensures x >= 0x8000_0000 as real ==> r == 0x7fff_ffff
    ensures x <= -0x8000_0000 as real ==> r == -0x8000_0000
  {
    if x >= 0x7fff_ffff as real then 0x7fff_ffff
    else if x <= -0x8000_0000 as real then -0x8000_0000
    else if x >= 0.0 then x.Floor
    else -((-x).Floor)
  }

  /** A handler's argument: an element looked up by node and template id, or a converted JSON value. */
  datatype Arg =
    | ElementArg(nodeId: Int32, templateId: Int32)
    | Converted(paramType: JType, param: JsonParam)

  datatype EventError =
    | NoHandler(methodName: string, paramCount: nat)   // "Couldn't find any @TemplateEventHandler method"
    | BadElementReference(index: nat)                  // an element array without two numbers

  /**
   * The argument for one parameter: an `Element` parameter given an array takes its first
   * two numbers as node id and template id; anything else goes to the JSON converter.
   */
  function ConvertParam(t: JType, p: JsonParam): (r: Option<Arg>)
    ensures (r.Some? && r.value.ElementArg?) <==>
              t == ELEMENT && p.PArray? && |p.items| >= 2 && p.items[0].PNumber? && p.items[1].PNumber?
    ensures r.None? <==> t == ELEMENT && p.PArray? && !(|p.items| >= 2 && p.items[0].PNumber? && p.items[1].PNumber?)
    ensures r.Some? && r.value.Converted? ==> r.value == Converted(t, p)
    ensures r.Some? && r.value.ElementArg? ==>
              r.value == ElementArg(DoubleToInt(p.items[0].n), DoubleToInt(p.items[1].n))
  {
    if t == ELEMENT && p.PArray? then
      if |p.items| >= 2 && p.items[0].PNumber? && p.items[1].PNumber? then
        Some(ElementArg(DoubleToInt(p.items[0].n), DoubleToInt(p.items[1].n)))
      else None
    else Some(Converted(t, p))
  }

  /** The call `onBrowserEvent` makes: the handler and its arguments. */
  datatype HandlerCall = HandlerCall(handler: MethodDecl, args: seq<Arg>)

  /** A created model: its interface, and whether it is a proxy or the bare marker. */
  class ModelInstance {
    const modelType: JType
    const isProxy: bool

    constructor (modelType: JType, isProxy: bool)
      ensures this.modelType == modelType && this.isProxy == isProxy
    {
      this.modelType := modelType;
      this.isProxy := isProxy;
    }
  }

  class Template {
    /** `getClass()` and its superclasses, up to `Object`. */
    const hierarchy: seq<ClassDecl>
    /** The state node's properties. */
    var node: map<string, Value>
    var model: ModelInstance?

    /** The class is a template class, and a created model has the model type of the class. */
    ghost predicate Valid()
      reads this
    {
      TemplateAbove(hierarchy, 0) &&
      (model != null ==> model.modelType == ModelTypeFrom(hierarchy, 0) &&
                         model.isProxy == (model.modelType != MODEL_INTERFACE))
    }

    constructor (hierarchy: seq<ClassDecl>)
      requires TemplateAbove(hierarchy, 0)
      ensures Valid()
      ensures this.hierarchy == hierarchy && node == map[] && model == null
    {
      this.hierarchy := hierarchy;
      node := map[];
      model := null;
    }

    /** `getModelType`: the walk up the hierarchy until `Template`. */
    method GetModelType() returns (t: JType)
      requires Valid()
      ensures t == ModelTypeFrom(hierarchy, 0)
    {
      var i := 0;
      while !hierarchy[i].isTemplate
        invariant 0 <= i < |hierarchy| && TemplateAbove(hierarchy, i)
        invariant ModelTypeFrom(hierarchy, 0) == ModelTypeFrom(hierarchy, i)
        decreases |hierarchy| - i
      {
        var m := DeclaredGetModel(hierarchy[i].methods);
        if m.Some? {
          return m.value.returnType;
        }
        assert TemplateAbove(hierarchy, i + 1);
        i := i + 1;
      }
      return MODEL_INTERFACE;
    }

    /** `createModel`: a proxy for a model interface, a bare instance for the marker itself. */
    method CreateModel() returns (m: ModelInstance)
      requires Valid()
      ensures fresh(m)
      ensures m.modelType == ModelTypeFrom(hierarchy, 0) && m.isProxy == (m.modelType != MODEL_INTERFACE)
    {
      var modelType := GetModelType();
      if modelType == MODEL_INTERFACE {
        m := new ModelInstance(modelType, false);
      } else {
        m := new ModelInstance(modelType, true);
      }
    }

    /** `getModel`: created on the first call, the same instance on every later one. */
    method GetModel() returns (m: ModelInstance)
      requires Valid()
      modifies this
      ensures Valid()
      ensures model == m && node == old(node)
      ensures old(model) != null ==> m == old(model)
      ensures old(model) == null ==> fresh(m)
      ensures m.modelType == ModelTypeFrom(hierarchy, 0)
    {
      if model == null {
        model := CreateModel();
      }
      m := model;
    }

    /** Two calls of `getModel` give the same instance. */
    method GetModelTwice() returns (first: ModelInstance, second: ModelInstance)
      requires Valid()
      modifies this
      ensures Valid()
      ensures first == second
    {
      first := GetModel();
      second := GetModel();
    }

    /** The model proxy's `invoke`, against this template's state node. */
    method InvokeModelMethod(m: ProxyMethod, args: seq<Value>) returns (r: Result<Value, ProxyError>)
      requires |args| == |m.paramTypes|
      modifies this
      ensures model == old(model)
      ensures ProxyOutcome(r, node) == Invoke(old(node), m, args)
      ensures Dispatch(m, args).Ok? && Dispatch(m, args).value.Getter? ==>
                var a := Dispatch(m, args).value;
                r == Ok(GetProperty(old(node), a.property, a.valueType)) && node == old(node)
      ensures Dispatch(m, args).Ok? && Dispatch(m, args).value.Setter? ==>
                var a := Dispatch(m, args).value;
                r == Ok(Null) && node == SetProperty(old(node), a.property, a.valueType, a.value)
    {
      var call := Dispatch(m, args);
      match call
      case Err(e) =>
        r := Err(e);
      case Ok(Getter(p, t)) =>
        r := Ok(GetProperty(node, p, t));
      case Ok(Setter(p, t, v)) =>
        node := SetProperty(node, p, t, v);
        r := Ok(Null);
    }

    /**
     * `onBrowserEvent` up to the reflective call: the handler for the event, and its
     * arguments filled in parameter by parameter.
     */
    method OnBrowserEvent(methodName: string, params: seq<JsonParam>) returns (r: Result<HandlerCall, EventError>)
      ensures var p := HandlerPosition(hierarchy, 0, methodName, |params|);
              && (p.None? ==> r == Err(NoHandler(methodName, |params|)))
              && (p.Some? ==>
                    var h := hierarchy[p.value.0].methods[p.value.1];
                    && (r.Ok? <==> forall i :: 0 <= i < |params| ==> ConvertParam(h.paramTypes[i], params[i]).Some?)
                    && (r.Ok? ==> r.value.handler == h && |r.value.args| == |params| &&
                                  forall i :: 0 <= i < |params| ==> r.value.args[i] == ConvertParam(h.paramTypes[i], params[i]).value)
                    && (r.Err? ==> r.error.BadElementReference? && r.error.index < |params| &&
                                   ConvertParam(h.paramTypes[r.error.index], params[r.error.index]).None? &&
                                   forall i :: 0 <= i < r.error.index ==> ConvertParam(h.paramTypes[i], params[i]).Some?))
    {
      var found := FindTemplateEventHandlerMethod(hierarchy, methodName, |params|);
      if found.None? {
        return Err(NoHandler(methodName, |params|));
      }
      var h := found.value;
      var parameterTypes := h.paramTypes;
      var methodParams := new Arg[|parameterTypes|];
      var paramIndex := 0;
      for i := 0 to |parameterTypes|
        invariant paramIndex == i
        invariant forall k :: 0 <= k < i ==> ConvertParam(parameterTypes[k], params[k]).Some? &&
                                             methodParams[k] == ConvertParam(parameterTypes[k], params[k]).value
      {
        var param := params[paramIndex];
        paramIndex := paramIndex + 1;
        var arg := ConvertParam(parameterTypes[i], param);
        if arg.None? {
          return Err(BadElementReference(i));
        }
        methodParams[i] := arg.value;
      }
      return Ok(HandlerCall(h, methodParams[..]));
    }
  }
}
