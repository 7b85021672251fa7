/**
 * The property rules of a template's model proxy: which interface methods are getters and
 * setters, the property name derived from a method name, and how a property is read from
 * and written to the template's state node, a map from property name to value.
 */
module TemplateModel {
  import opened Wrappers
  import opened JavaStrings

  /** A Java type as far as the rules look at it: the primitives, or a class by qualified name. */
  datatype JType =
    | BooleanT | ByteT | ShortT | CharT | IntT | LongT | FloatT | DoubleT | VoidT
    | ClassT(name: string)

  const OBJECT: JType := ClassT("java.lang.Object")

  predicate IsPrimitive(t: JType)
  {
    !t.ClassT?
  }

  /** A value held in the state node or passed to the proxy; floating point values as reals. */
  datatype Value =
    | Null
    | BoolV(b: bool)
    | ByteV(i: int)
    | ShortV(i: int)
    | CharV(i: int)
    | IntV(i: int)
    | LongV(i: int)
    | FloatV(r: real)
    | DoubleV(r: real)
    | Ref(id: nat)

  /** `primitiveDefaults`: the zero of every primitive but `boolean` and `void`. */
  const PRIMITIVE_DEFAULTS: map<JType, Value> :=
    map[ByteT := ByteV(0), ShortT := ShortV(0), CharT := CharV(0), IntT := IntV(0),
        LongT := LongV(0), FloatT := FloatV(0.0), DoubleT := DoubleV(0.0)]

  /** `primitiveDefaults.get(type)`: `null` for a type without an entry. */
  function PrimitiveDefault(t: JType): Value
  {
    if t in PRIMITIVE_DEFAULTS then PRIMITIVE_DEFAULTS[t] else Null
  }

  /** The defaults table covers exactly the numeric primitives, each with its zero. */
  lemma {:induction false} PrimitiveDefaultsAreZero(t: JType)
    ensures t in PRIMITIVE_DEFAULTS <==> IsPrimitive(t) && t != BooleanT && t != VoidT
    ensures t == ByteT ==> PrimitiveDefault(t) == ByteV(0)
    ensures t == ShortT ==> PrimitiveDefault(t) == ShortV(0)
    ensures t == CharT ==> PrimitiveDefault(t) == CharV(0)
    ensures t == IntT ==> PrimitiveDefault(t) == IntV(0)
    ensures t == LongT ==> PrimitiveDefault(t) == LongV(0)
    ensures t == FloatT ==> PrimitiveDefault(t) == FloatV(0.0)
    ensures t == DoubleT ==> PrimitiveDefault(t) == DoubleV(0.0)
    ensures t == VoidT ==> PrimitiveDefault(t) == Null
  {
    assert PRIMITIVE_DEFAULTS.Keys == {ByteT, ShortT, CharT, IntT, LongT, FloatT, DoubleT};
  }

  // ----- Property names -----

  /** A name the proxy treats as a getter. */
  predicate IsGetterName(name: string)
  {
    StartsWith(name, "get") || StartsWith(name, "is")
  }

  /** At most one of the three accessor prefixes begins a name. */
  lemma {:induction false} AccessorPrefixesExclusive(name: string)
    ensures StartsWith(name, "is") ==> !StartsWith(name, "set") && !StartsWith(name, "get")
    ensures StartsWith(name, "set") ==> !StartsWith(name, "get")
  {
    if StartsWith(name, "is") {
      assert name[0] == name[..2][0] == 'i';
    }
    if StartsWith(name, "set") {
      assert name[0] == name[..3][0] == 's';
    }
  }

  /** `replaceFirst("^(set|get|is)", "")`. */
  function StripAccessorPrefix(name: string): (r: string)
    ensures StartsWith(name, "set") || StartsWith(name, "get") ==> r == name[3..]
    ensures StartsWith(name, "is") ==> r == name[2..]
    ensures !StartsWith(name, "set") && !IsGetterName(name) ==> r == name
  {
    AccessorPrefixesExclusive(name);
    if StartsWith(name, "set") || StartsWith(name, "get") then name[3..]
    else if StartsWith(name, "is") then name[2..]
    else name
  }

  /** What the proxy can fail with. */
  datatype ProxyError =
    | ObjectMethodNotSupported   // any method declared by `Object`
    | MethodNotSupported         // neither a getter nor a setter name
    | EmptyPropertyName          // `charAt(0)` of an empty name: StringIndexOutOfBoundsException
    | MissingParameter           // a setter without a parameter: ArrayIndexOutOfBoundsException

  /**
   * `getPropertyName`: one leading "set", "get" or "is" removed, then the first remaining
   * character lower-cased. A name that is nothing but the prefix fails.
   */
  function PropertyName(name: string): (r: Result<string, ProxyError>)
    ensures r.Err? <==> StripAccessorPrefix(name) == []
    ensures r.Err? ==> r.error == EmptyPropertyName
    ensures r.Ok? ==> var rest := StripAccessorPrefix(name);
                      |r.value| == |rest| && r.value[0] == ToLowerAscii(rest[0]) && r.value[1..] == rest[1..]
  {
    var rest := StripAccessorPrefix(name);
    if rest == [] then Err(EmptyPropertyName) else Ok([ToLowerAscii(rest[0])] + rest[1..])
  }

  /** The accessor name JavaBeans give a property: prefix, capitalised first letter, rest. */
  function AccessorName(prefix: string, property: string): string
    requires property != []
  {
    prefix + [ToUpperAscii(property[0])] + property[1..]
  }

  /**
   * Property names round-trip through accessor names, for each of the three prefixes,
   * whenever the property does not itself start with an upper-case letter.
   */
  lemma {:induction false} PropertyNameRoundTrip(prefix: string, property: string)
    requires prefix == "get" || prefix == "set" || prefix == "is"
    requires property != [] && !('A' <= property[0] <= 'Z')
    ensures PropertyName(AccessorName(prefix, property)) == Ok(property)
  {
    var name := AccessorName(prefix, property);
    assert name[..|prefix|] == prefix;
    assert name[..2] == prefix[..2];
    AccessorPrefixesExclusive(name);
    var rest := StripAccessorPrefix(name);
    assert rest == [ToUpperAscii(property[0])] + property[1..];
    assert [ToLowerAscii(rest[0])] + rest[1..] == property;
  }

  /** A getter and a setter for the same tail name address the same property. */
  lemma {:induction false} AccessorsShareProperty(tail: string)
    ensures PropertyName("get" + tail) == PropertyName("set" + tail) == PropertyName("is" + tail)
  {
    assert ("get" + tail)[..3] == "get" && ("get" + tail)[3..] == tail;
    assert ("set" + tail)[..3] == "set" && ("set" + tail)[3..] == tail;
    assert ("is" + tail)[..2] == "is" && ("is" + tail)[2..] == tail;
    assert !StartsWith("is" + tail, "set") && !StartsWith("is" + tail, "get");
    assert !StartsWith("get" + tail, "set");
  }

  /** A setter named only "set", or a getter named only "get" or "is", fails. */
  lemma {:induction false} BarePrefixFails()
    ensures PropertyName("set") == Err(EmptyPropertyName)
    ensures PropertyName("get") == Err(EmptyPropertyName)
    ensures PropertyName("is") == Err(EmptyPropertyName)
  {
    assert StartsWith("set", "set") && StartsWith("get", "get") && StartsWith("is", "is");
    assert "set"[3..] == [] && "get"[3..] == [] && "is"[2..] == [];
  }

  // ----- Dispatch -----

  /** An interface method as the proxy sees it. */
  datatype ProxyMethod = ProxyMethod(declaringClass: JType, name: string, paramTypes: seq<JType>, returnType: JType)

  /** What the proxy does with a call: read a property as a type, or write a value as a type. */
  datatype Accessor =
    | Getter(property: string, valueType: JType)
    | Setter(property: string, valueType: JType, value: Value)

  /**
   * The dispatch of the proxy's `invoke`. The reflection machinery passes one argument per
   * parameter, which the precondition records.
   */
  function Dispatch(m: ProxyMethod, args: seq<Value>): (r: Result<Accessor, ProxyError>)
    requires |args| == |m.paramTypes|
    ensures r.Ok? ==> m.declaringClass != OBJECT && PropertyName(m.name) == Ok(r.value.property)
    ensures m.declaringClass == OBJECT ==> r == Err(ObjectMethodNotSupported)
    ensures (r.Ok? && r.value.Getter?) <==>
              m.declaringClass != OBJECT && IsGetterName(m.name) && PropertyName(m.name).Ok?
    ensures (r.Ok? && r.value.Setter?) <==>
              m.declaringClass != OBJECT && StartsWith(m.name, "set") && PropertyName(m.name).Ok? &&
              |m.paramTypes| >= 1
    ensures r.Ok? && r.value.Getter? ==> r.value.valueType == m.returnType
    ensures r.Ok? && r.value.Setter? ==> r.value.valueType == m.paramTypes[0] && r.value.value == args[0]
    ensures r == Err(MethodNotSupported) <==>
              m.declaringClass != OBJECT && !IsGetterName(m.name) && !StartsWith(m.name, "set")
  {
    if m.declaringClass == OBJECT then Err(ObjectMethodNotSupported)
    else if IsGetterName(m.name) then
      match PropertyName(m.name)
      case Err(e) => Err(e)
      case Ok(p) => Ok(Getter(p, m.returnType))
    else if StartsWith(m.name, "set") then
      match PropertyName(m.name)
      case Err(e) => Err(e)
      case Ok(p) => if |m.paramTypes| == 0 then Err(MissingParameter) else Ok(Setter(p, m.paramTypes[0], args[0]))
    else Err(MethodNotSupported)
  }

  // ----- Reading and writing the state node -----

  /** The proxy's `set`: `false` for a `boolean` removes the key, anything else is stored. */
  function SetProperty(node: map<string, Value>, property: string, t: JType, value: Value): (r: map<string, Value>)
    ensures property in r <==> !(t == BooleanT && value == BoolV(false))
    ensures property in r ==> r[property] == value
    ensures forall k :: k != property ==> (k in r <==> k in node)
    ensures forall k :: k in node && k != property ==> r[k] == node[k]
  {
    if t == BooleanT && value == BoolV(false) then node - {property} else node[property := value]
  }

  /**
   * The proxy's `get`: a `boolean` is whether the key is present; another primitive is the
   * stored value or its default; any other type is the stored value or `null`.
   */
  function GetProperty(node: map<string, Value>, property: string, t: JType): (r: Value)
    ensures t == BooleanT ==> r == BoolV(property in node)
    ensures t != BooleanT && property in node ==> r == node[property]
    ensures t != BooleanT && property !in node ==> r == (if IsPrimitive(t) then PrimitiveDefault(t) else Null)
  {
    if t == BooleanT then BoolV(property in node)
    else if IsPrimitive(t) then
      if property !in node then PrimitiveDefault(t) else node[property]
    else if property in node then node[property] else Null
  }

  /** Reading back a property gives what was written: for `boolean` the flag, otherwise the value. */
  lemma {:induction false} GetAfterSet(node: map<string, Value>, property: string, t: JType, value: Value)
    requires t == BooleanT ==> value.BoolV?
    ensures GetProperty(SetProperty(node, property, t, value), property, t) == value
  {
  }

  /** Writing a property leaves every other property as it was, for reading as any type. */
  lemma {:induction false} SetLeavesOtherProperties(node: map<string, Value>, property: string, t: JType,
                                                    value: Value, other: string, readAs: JType)
    requires other != property
    ensures GetProperty(SetProperty(node, property, t, value), other, readAs) == GetProperty(node, other, readAs)
  {
  }

  /** A numeric primitive that was never written reads as its zero, and never as `null`. */
  lemma {:induction false} MissingPrimitiveReadsAsZero(node: map<string, Value>, property: string, t: JType)
    requires property !in node && IsPrimitive(t) && t != BooleanT && t != VoidT
    ensures GetProperty(node, property, t) == PRIMITIVE_DEFAULTS[t]
    ensures GetProperty(node, property, t) != Null
  {
    PrimitiveDefaultsAreZero(t);
  }

  /** The outcome of one proxy call: the value returned, or the failure, and the new state node. */
  datatype ProxyOutcome = ProxyOutcome(result: Result<Value, ProxyError>, node: map<string, Value>)

  /** One call of the model proxy against the state node. A setter returns `null`. */
  function Invoke(node: map<string, Value>, m: ProxyMethod, args: seq<Value>): (o: ProxyOutcome)
    requires |args| == |m.paramTypes|
    ensures Dispatch(m, args).Err? ==> o == ProxyOutcome(Err(Dispatch(m, args).error), node)
    ensures o.node != node ==> Dispatch(m, args).Ok? && Dispatch(m, args).value.Setter?
    ensures Dispatch(m, args).Ok? && Dispatch(m, args).value.Getter? ==>
              var a := Dispatch(m, args).value;
              o == ProxyOutcome(Ok(GetProperty(node, a.property, a.valueType)), node)
    ensures Dispatch(m, args).Ok? && Dispatch(m, args).value.Setter? ==>
              var a := Dispatch(m, args).value;
              o == ProxyOutcome(Ok(Null), SetProperty(node, a.property, a.valueType, a.value))
  {
    match Dispatch(m, args)
    case Err(e) => ProxyOutcome(Err(e), node)
    case Ok(Getter(p, t)) => ProxyOutcome(Ok(GetProperty(node, p, t)), node)
    case Ok(Setter(p, t, v)) => ProxyOutcome(Ok(Null), SetProperty(node, p, t, v))
  }

  /**
   * Calling `setX(v)` and then `getX()` (or `isX()`) on a model interface returns `v`; for
   * a `boolean` property, the flag that was set.
   */
  lemma {:induction false} SetterThenGetter(node: map<string, Value>, iface: JType, getterPrefix: string,
                                            property: string, t: JType, v: Value)
    requires iface != OBJECT
    requires getterPrefix == "get" || getterPrefix == "is"
    requires property != [] && !('A' <= property[0] <= 'Z')
    requires t == BooleanT ==> v.BoolV?
    ensures var setter := ProxyMethod(iface, AccessorName("set", property), [t], VoidT);
            var getter := ProxyMethod(iface, AccessorName(getterPrefix, property), [], t);
            var afterSet := Invoke(node, setter, [v]);
            afterSet.result == Ok(Null) && Invoke(afterSet.node, getter, []).result == Ok(v)
  {
    var setName := AccessorName("set", property);
    var getName := AccessorName(getterPrefix, property);
    PropertyNameRoundTrip("set", property);
    PropertyNameRoundTrip(getterPrefix, property);
    assert setName[..3] == "set";
    assert getName[..|getterPrefix|] == getterPrefix;
    assert StartsWith(getName, getterPrefix);
    if getterPrefix == "is" {
      assert getName[..2] == "is";
    }
    assert !IsGetterName(setName) by {
      assert setName[..2] == "se";
    }
    GetAfterSet(node, property, t, v);
  }
}
