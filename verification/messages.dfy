/** The message type registries and the subscriber-callback dispatch: symbolic type
    names resolve to zero-value messages, generic readings maps convert to typed
    messages, and received typed messages convert back to maps. */
module Messages {
  import opened Wrappers
  import opened Strings
  import opened Wire

  /** A registry maps a symbolic type name to the type its constructor builds; the
      constructor itself returns that type's zero value. */
  type Registry = map<string, MsgType>

  const StdPrefix: string := "std_msgs/"

  /** The standard messages, keyed by their `std_msgs/` names. */
  const StdMsgsRegistry: Registry :=
    map[
      "std_msgs/Header" := StdHeader,
      "std_msgs/String" := StdString,
      "std_msgs/Bool" := StdBool,
      "std_msgs/Int8" := StdInt8,
      "std_msgs/Int16" := StdInt16,
      "std_msgs/Int32" := StdInt32,
      "std_msgs/Int64" := StdInt64,
      "std_msgs/UInt8" := StdUInt8,
      "std_msgs/UInt16" := StdUInt16,
      "std_msgs/UInt32" := StdUInt32,
      "std_msgs/UInt64" := StdUInt64,
      "std_msgs/Float32" := StdFloat32,
      "std_msgs/Float64" := StdFloat64,
      "std_msgs/Time" := StdTime,
      "std_msgs/Duration" := StdDuration,
      "std_msgs/ColorRGBA" := StdColorRGBA,
      "std_msgs/MultiArrayDimension" := StdMultiArrayDimension,
      "std_msgs/MultiArrayLayout" := StdMultiArrayLayout,
      "std_msgs/Byte" := StdByte,
      "std_msgs/ByteMultiArray" := StdByteMultiArray,
      "std_msgs/Char" := StdChar,
      "std_msgs/Empty" := StdEmpty
    ]

  /** The extension registry of project-specific messages. */
  const CustomTypeRegistry: Registry := map["ThrottlingStates" := ThrottlingStates]

  /** The registries in the order they are consulted. */
  const TypeRegistries: seq<Registry> := [StdMsgsRegistry, CustomTypeRegistry]

  /** A subscriber callback; it accepts messages of exactly one type. */
  datatype Callback = Callback(accepts: MsgType)

  /** The subscriber configuration produced for a type name; the caller fills in node
      and topic afterwards. */
  datatype SubscriberConf = SubscriberConf(callback: Callback)

  /** The type the first registry holding `name` maps it to. */
  function LookupIn(regs: seq<Registry>, name: string): (r: Option<MsgType>)
    ensures r.Some? <==> exists i | 0 <= i < |regs| :: name in regs[i]
    ensures r.Some? ==> exists i | 0 <= i < |regs| ::
      && name in regs[i] && regs[i][name] == r.value
      && forall h | 0 <= h < i :: name !in regs[h]
  {
    if |regs| == 0 then None
    else if name in regs[0] then Some(regs[0][name])
    else
      var r := LookupIn(regs[1..], name);
      assert forall i | 1 <= i < |regs| :: regs[i] == regs[1..][i - 1];
      r
  }

  /** The zero-value message for a type name, looked up in the registries in order. */
  function GetMessageType(name: string): (r: Result<Typed, Error>)
    ensures name in StdMsgsRegistry ==> r == Ok(Zero(StructK(StdMsgsRegistry[name])))
    ensures name !in StdMsgsRegistry && name in CustomTypeRegistry ==>
      r == Ok(Zero(StructK(CustomTypeRegistry[name])))
    ensures name !in StdMsgsRegistry && name !in CustomTypeRegistry ==> r == Err(TypeNotFound)
  {
    assert TypeRegistries[0] == StdMsgsRegistry && TypeRegistries[1] == CustomTypeRegistry;
    match LookupIn(TypeRegistries, name)
    case Some(ty) => Ok(Zero(StructK(ty)))
    case None => Err(TypeNotFound)
  }

  /** The standard-message callback table: one typed callback per standard name. */
  function GetStdMsgsCallback(name: string): Option<Callback> {
    match name
    case "std_msgs/Header" => Some(Callback(StdHeader))
    case "std_msgs/String" => Some(Callback(StdString))
    case "std_msgs/Bool" => Some(Callback(StdBool))
    case "std_msgs/Int8" => Some(Callback(StdInt8))
    case "std_msgs/Int16" => Some(Callback(StdInt16))
    case "std_msgs/Int32" => Some(Callback(StdInt32))
    case "std_msgs/Int64" => Some(Callback(StdInt64))
    case "std_msgs/UInt8" => Some(Callback(StdUInt8))
    case "std_msgs/UInt16" => Some(Callback(StdUInt16))
    case "std_msgs/UInt32" => Some(Callback(StdUInt32))
    case "std_msgs/UInt64" => Some(Callback(StdUInt64))
    case "std_msgs/Float32" => Some(Callback(StdFloat32))
    case "std_msgs/Float64" => Some(Callback(StdFloat64))
    case "std_msgs/Time" => Some(Callback(StdTime))
    case "std_msgs/Duration" => Some(Callback(StdDuration))
    case "std_msgs/ColorRGBA" => Some(Callback(StdColorRGBA))
    case "std_msgs/MultiArrayDimension" => Some(Callback(StdMultiArrayDimension))
    case "std_msgs/MultiArrayLayout" => Some(Callback(StdMultiArrayLayout))
    case "std_msgs/Byte" => Some(Callback(StdByte))
    case "std_msgs/ByteMultiArray" => Some(Callback(StdByteMultiArray))
    case "std_msgs/Char" => Some(Callback(StdChar))
    case "std_msgs/Empty" => Some(Callback(StdEmpty))
    case _ => None
  }

  /** The custom-message callback table. */
  function GetCustomMsgsCallback(name: string): Option<Callback> {
    match name
    case "ThrottlingStates" => Some(Callback(ThrottlingStates))
    case _ => None
  }

  /** Names with the standard prefix are served by the standard table, every other
      name by the custom table. Between them the two tables serve exactly the
      registered names, each with a callback for the registered type. */
  function GetCallback(name: string): (r: Option<Callback>)
    ensures r.Some? <==> name in StdMsgsRegistry || name in CustomTypeRegistry
    ensures r.Some? && name in StdMsgsRegistry ==> r.value.accepts == StdMsgsRegistry[name]
    ensures r.Some? && name !in StdMsgsRegistry ==> r.value.accepts == CustomTypeRegistry[name]
  {
    StdCallbackTableMatchesRegistry(name);
    CustomCallbackTableMatchesRegistry(name);
    StdRegistryPrefixed();
    CustomRegistryShape();
    if HasPrefix(name, StdPrefix) then
      assert name !in CustomTypeRegistry;
      GetStdMsgsCallback(name)
    else
      assert name !in StdMsgsRegistry;
      GetCustomMsgsCallback(name)
  }

  /** A subscriber can be configured for a name exactly when the registries resolve
      it, and its callback then accepts the type the registries build. */
  function GetSubscriberConfigWithHandler(name: string): (r: Result<SubscriberConf, Error>)
    ensures r.Ok? <==> GetMessageType(name).Ok?
    ensures r.Ok? ==> r.value.callback.accepts == GetMessageType(name).value.ty
    ensures r.Err? ==> r.error == TypeNotFound
  {
    match GetCallback(name)
    case Some(cb) => Ok(SubscriberConf(cb))
    case None => Err(TypeNotFound)
  }

  /** Every value of a readings map can be marshalled. */
  predicate Marshallable(data: map<string, Value>) {
    forall key | key in data :: FiniteValue(data[key])
  }

  /** A generic readings map turned into the typed message registered under `name`:
      the lookup error comes first, then the marshalling error, then the unmarshal.
      A nil map (`None`) marshals to JSON `null`, which clears the message variable,
      so the conversion succeeds with no message at all (`Ok(None)`). */
  function ConvertToRosMsg(name: string, data: Option<map<string, Value>>): (r: Result<Option<Typed>, Error>)
    ensures GetMessageType(name).Err? ==> r == Err(TypeNotFound)
    ensures GetMessageType(name).Ok? && data.None? ==> r == Ok(None)
    ensures GetMessageType(name).Ok? && data.Some? && !Marshallable(data.value) ==> r == Err(UnsupportedValue)
    ensures r.Ok? && data.Some? ==> r.value.Some?
    ensures r.Ok? && r.value.Some? ==>
      Conforms(StructK(GetMessageType(name).value.ty), r.value.value) && FiniteTyped(r.value.value)
    ensures r.Err? ==> r.error in {TypeNotFound, UnsupportedValue, UnmarshalTypeError, TimeParseError}
  {
    var zero :- GetMessageType(name);
    match data
    case None => Ok(None)
    case Some(m) =>
      if !Marshallable(m) then Err(UnsupportedValue)
      else
        DecodeSound(StructK(zero.ty), Object(m));
        DecodeErrors(StructK(zero.ty), Object(m));
        var t :- Decode(StructK(zero.ty), Object(m));
        Ok(Some(t))
  }

  /** A typed message flattened into a generic map keyed by its fields' Go names. */
  function ConvertFromRosMsg(msg: Typed): (r: Result<map<string, Value>, Error>)
    requires msg.TStruct? && Conforms(StructK(msg.ty), msg)
    ensures r.Ok? <==> FiniteTyped(msg)
    ensures r.Err? ==> r.error == UnsupportedValue
    ensures r.Ok? ==> r.value.Keys == set j | 0 <= j < |Schema(msg.ty)| :: Schema(msg.ty)[j].name
  {
    EncodeFailsIffNonFinite(StructK(msg.ty), msg);
    match Encode(msg)
    case Ok(v) =>
      EncodeFieldsKeys(Schema(msg.ty), msg.fields, 0);
      Ok(v.entries)
    case Err(e) => Err(e)
  }

  /** What one run of the generic handler did: the error it returned, and the maps it
      passed to `setLastMessage`, in order. */
  datatype Handled = Handled(err: Option<Error>, setLastMessageCalls: seq<map<string, Value>>)

  /** The generic handler behind every callback: convert the message, then hand the map
      to `setLastMessage`. */
  function HandleMessage(msg: Typed): (r: Handled)
    requires msg.TStruct? && Conforms(StructK(msg.ty), msg)
    ensures r.err.None? <==> FiniteTyped(msg)
    ensures r.err.None? ==> r.setLastMessageCalls == [ConvertFromRosMsg(msg).value]
    ensures r.err.Some? ==> r.err.value == UnsupportedValue && r.setLastMessageCalls == []
  {
    match ConvertFromRosMsg(msg)
    case Ok(m) => Handled(None, [m])
    case Err(e) => Handled(Some(e), [])
  }

  /** Invoking a callback forwards the message unchanged to the handler and discards the
      handler's error: the result is the map `setLastMessage` received, if any. */
  function Invoke(cb: Callback, msg: Typed): (r: Option<map<string, Value>>)
    requires msg.TStruct? && msg.ty == cb.accepts && Conforms(StructK(cb.accepts), msg)
    ensures r.Some? <==> FiniteTyped(msg)
    ensures r.Some? ==> HandleMessage(msg).setLastMessageCalls == [r.value]
  {
    var h := HandleMessage(msg);
    if h.err.None? then Some(h.setLastMessageCalls[0]) else None
  }

  // ---------------------------------------------------------------------------
  // Properties of the registries and the dispatch

  /** Every standard name carries the standard prefix. */
  lemma StdRegistryPrefixed()
    ensures forall name | name in StdMsgsRegistry :: HasPrefix(name, StdPrefix)
  {
  }

  /** The custom registry holds exactly "ThrottlingStates", which lacks the standard
      prefix, so subscriber dispatch sends it to the custom table. */
  lemma CustomRegistryShape()
    ensures CustomTypeRegistry.Keys == {"ThrottlingStates"}
    ensures !HasPrefix("ThrottlingStates", StdPrefix)
  {
    assert "ThrottlingStates"[0] != StdPrefix[0];
  }

  /** The standard callback table and the standard registry list the same names, and the
      callback for a name accepts exactly the type the registry builds for it. */
  lemma StdCallbackTableMatchesRegistry(name: string)
    ensures GetStdMsgsCallback(name).Some? <==> name in StdMsgsRegistry
    ensures GetStdMsgsCallback(name).Some? ==> GetStdMsgsCallback(name).value.accepts == StdMsgsRegistry[name]
  {
  }

  /** The custom callback table is non-nil for "ThrottlingStates" only, and agrees with
      the custom registry. */
  lemma CustomCallbackTableMatchesRegistry(name: string)
    ensures GetCustomMsgsCallback(name).Some? <==> name in CustomTypeRegistry
    ensures GetCustomMsgsCallback(name).Some? ==>
      name == "ThrottlingStates" && GetCustomMsgsCallback(name).value.accepts == CustomTypeRegistry[name]
  {
  }

  /** Every registered name resolves to its type's zero message, which is well formed. */
  lemma RegisteredNamesResolve(name: string)
    requires name in StdMsgsRegistry || name in CustomTypeRegistry
    ensures GetMessageType(name).Ok?
    ensures var z := GetMessageType(name).value;
      && z.TStruct?
      && z.ty == (if name in StdMsgsRegistry then StdMsgsRegistry[name] else CustomTypeRegistry[name])
      && Conforms(StructK(z.ty), z) && FiniteTyped(z)
  {
    var ty := if name in StdMsgsRegistry then StdMsgsRegistry[name] else CustomTypeRegistry[name];
    ZeroConforms(StructK(ty));
  }

  /** The conversion is field-wise: it succeeds exactly when every field, taken from the
      map under its own Go name, unmarshals; each present key populates the same-named
      field, each absent key leaves the zero value, and other keys are ignored. It fails
      with a time field's own error when some time field rejects its value, and with a
      type error otherwise. */
  lemma {:induction false} ConvertToRosMsgFieldwise(name: string, data: map<string, Value>)
    requires GetMessageType(name).Ok? && Marshallable(data)
    ensures var ty := GetMessageType(name).value.ty;
      var sch := Schema(ty);
      var r := ConvertToRosMsg(name, Some(data));
      && (r.Ok? <==> forall j | 0 <= j < |sch| :: FieldFromMap(sch[j], data).Ok?)
      && (r.Err? ==> r.error == UnmarshalTypeError || r.error == TimeParseError)
      && (r.Err? ==> (r.error == TimeParseError <==>
            exists j | 0 <= j < |sch| :: FieldFromMap(sch[j], data) == Err(TimeParseError)))
      && (r.Ok? ==>
            && r.value.Some? && r.value.value.ty == ty && |r.value.value.fields| == |sch|
            && forall j | 0 <= j < |sch| ::
                 && (sch[j].name in data ==> Decode(sch[j].kind, data[sch[j].name]) == Ok(r.value.value.fields[j]))
                 && (sch[j].name !in data ==> r.value.value.fields[j] == Zero(sch[j].kind)))
  {
    ConvertMapDecodes(name, data);
    DecodeStructFieldwise(GetMessageType(name).value.ty, data);
  }

  /** For a known name, converting a marshallable map is unmarshalling the object into
      the registered type, with the result or the error passed on unchanged. */
  lemma {:induction false} ConvertMapDecodes(name: string, data: map<string, Value>)
    requires GetMessageType(name).Ok? && Marshallable(data)
    ensures var d := Decode(StructK(GetMessageType(name).value.ty), Object(data));
      ConvertToRosMsg(name, Some(data)) == if d.Ok? then Ok(Some(d.value)) else Err(d.error)
  {
    var zero := GetMessageType(name).value;
    assert ConvertToRosMsg(name, Some(data)) ==
      var d := Decode(StructK(zero.ty), Object(data));
      if d.Ok? then Ok(Some(d.value)) else Err(d.error);
  }

  /** A received message, flattened to a map and converted back under its registered
      name, is the message itself (when it holds no NaN or infinity). */
  lemma ConvertRoundTrip(name: string, msg: Typed)
    requires GetMessageType(name).Ok? && msg.TStruct? && msg.ty == GetMessageType(name).value.ty
    requires Conforms(StructK(msg.ty), msg) && FiniteTyped(msg)
    ensures ConvertFromRosMsg(msg).Ok?
    ensures ConvertToRosMsg(name, Some(ConvertFromRosMsg(msg).value)) == Ok(Some(msg))
  {
    EncodeDecodeRoundTrip(StructK(msg.ty), msg);
    EncodeFinite(msg);
    var m := Encode(msg).value.entries;
    assert ConvertFromRosMsg(msg) == Ok(m);
    assert Marshallable(m);
    assert ConvertToRosMsg(name, Some(m)) == Ok(Some(msg));
  }

  /** For a message whose fields are the package marker and `Data`, converting
      `{"Data": v}` leaves the marker zero and stores in `Data` what unmarshalling `v`
      into that field gives; when that fails the conversion fails with the same error. */
  lemma {:induction false} ConvertDataField(name: string, k: Kind, v: Value)
    requires name in StdMsgsRegistry && Schema(StdMsgsRegistry[name]) == Data(k)
    requires FiniteValue(v)
    ensures Decode(k, v).Ok? ==>
      ConvertToRosMsg(name, Some(map["Data" := v]))
        == Ok(Some(TStruct(StdMsgsRegistry[name], [TInt(0), Decode(k, v).value])))
    ensures Decode(k, v).Err? ==> ConvertToRosMsg(name, Some(map["Data" := v])) == Err(Decode(k, v).error)
  {
    var ty := StdMsgsRegistry[name];
    var data := map["Data" := v];
    assert Marshallable(data);
    assert GetMessageType(name).value.ty == ty;
    DecodeDataField(ty, k, v);
    var decoded := Decode(StructK(ty), Object(data));
    assert ConvertToRosMsg(name, Some(data)) == if decoded.Ok? then Ok(Some(decoded.value)) else Err(decoded.error);
  }

  /** An integer stored in an integer `Data` field is kept unchanged when it fits the
      field's width, and rejected with a type error when it does not. */
  lemma {:induction false} ConvertIntegerData(name: string, w: IntWidth, n: int)
    requires name in StdMsgsRegistry && Schema(StdMsgsRegistry[name]) == Data(IntK(w))
    ensures InRange(w, n) ==>
      ConvertToRosMsg(name, Some(map["Data" := Num(Whole(n))]))
        == Ok(Some(TStruct(StdMsgsRegistry[name], [TInt(0), TInt(n)])))
    ensures !InRange(w, n) ==>
      ConvertToRosMsg(name, Some(map["Data" := Num(Whole(n))])) == Err(UnmarshalTypeError)
  {
    ConvertDataField(name, IntK(w), Num(Whole(n)));
  }

  /** A number stored in a `float32` `Data` field is kept when it rounds to a finite
      `float32`, and rejected with a type error when it overflows; NaN and the
      infinities never get that far, since the map cannot be marshalled. */
  lemma {:induction false} ConvertFloat32Data(name: string, x: Number)
    requires name in StdMsgsRegistry && Schema(StdMsgsRegistry[name]) == Data(FloatK(F32))
    requires !x.NonFinite?
    ensures FitsFloat(F32, x) ==>
      ConvertToRosMsg(name, Some(map["Data" := Num(x)]))
        == Ok(Some(TStruct(StdMsgsRegistry[name], [TInt(0), TFloat(x)])))
    ensures !FitsFloat(F32, x) ==>
      ConvertToRosMsg(name, Some(map["Data" := Num(x)])) == Err(UnmarshalTypeError)
  {
    ConvertDataField(name, FloatK(F32), Num(x));
  }

  /** The colour message takes its four channels from the keys R, G, B and A and leaves
      its package marker zero. */
  lemma {:induction false} ConvertColorRGBA(name: string, r: Number, g: Number, b: Number, a: Number)
    requires name in StdMsgsRegistry && StdMsgsRegistry[name] == StdColorRGBA
    requires FitsFloat(F32, r) && FitsFloat(F32, g) && FitsFloat(F32, b) && FitsFloat(F32, a)
    ensures ConvertToRosMsg(name, Some(map["R" := Num(r), "G" := Num(g), "B" := Num(b), "A" := Num(a)]))
      == Ok(Some(TStruct(StdColorRGBA, [TInt(0), TFloat(r), TFloat(g), TFloat(b), TFloat(a)])))
  {
    var data := map["R" := Num(r), "G" := Num(g), "B" := Num(b), "A" := Num(a)];
    assert Marshallable(data);
    assert GetMessageType(name).value.ty == StdColorRGBA;
    DecodeColorRGBA(r, g, b, a);
  }

  /** A colour channel that overflows a `float32`, whichever of the four it is, makes
      the whole conversion fail with a type error, whatever the other channels hold. */
  lemma {:induction false} ColorChannelOverflowRejected(name: string, r: Number, g: Number, b: Number, a: Number)
    requires name in StdMsgsRegistry && StdMsgsRegistry[name] == StdColorRGBA
    requires !r.NonFinite? && !g.NonFinite? && !b.NonFinite? && !a.NonFinite?
    requires !FitsFloat(F32, r) || !FitsFloat(F32, g) || !FitsFloat(F32, b) || !FitsFloat(F32, a)
    ensures ConvertToRosMsg(name, Some(map["R" := Num(r), "G" := Num(g), "B" := Num(b), "A" := Num(a)]))
      == Err(UnmarshalTypeError)
  {
    var data := map["R" := Num(r), "G" := Num(g), "B" := Num(b), "A" := Num(a)];
    assert Marshallable(data);
    assert GetMessageType(name).value.ty == StdColorRGBA;
    DecodeColorOverflow(StdColorRGBA, r, g, b, a);
  }

  /** A nil readings map converts to no message under every registered name, and to the
      lookup error under every other name. */
  lemma {:induction false} ConvertNilReadings(name: string)
    ensures ConvertToRosMsg(name, None) == (if name in StdMsgsRegistry || name in CustomTypeRegistry
                                           then Ok(None) else Err(TypeNotFound))
  {
  }
}
