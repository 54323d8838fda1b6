/** Message shapes and the field-wise conversion between a generic readings map and a
    typed message.  The bridge converts by marshalling to JSON and unmarshalling into
    the typed value; this module states what that round trip does to each field,
    without modelling the JSON text itself. */
module Wire {
  import opened Wrappers

  /** A JSON number.  Integral values are kept exactly; other finite floating values
      are opaque; NaN and the infinities cannot be written as JSON at all. */
  datatype Number = Whole(n: int) | Frac(code: int) | NonFinite

  /** A value of a generic readings map (`map[string]interface{}` in the source). */
  datatype Value =
    | Null
    | Bool(b: bool)
    | Num(x: Number)
    | Str(s: string)
    | Time(t: int)
    | List(items: seq<Value>)
    | Object(entries: map<string, Value>)

  /** Failures of the conversion. */
  datatype Error =
    | TypeNotFound        // the symbolic type name is in no registry
    | UnmarshalTypeError  // a present value has the wrong shape or does not fit the field
    | TimeParseError      // a time field's own unmarshaller rejected the value
    | UnsupportedValue    // a NaN or infinite number cannot be marshalled

  datatype IntWidth = I8 | I16 | I32 | I64 | U8 | U16 | U32 | U64

  function MinOf(w: IntWidth): int {
    match w
    case I8 => -0x80
    case I16 => -0x8000
    case I32 => -0x8000_0000
    case I64 => -0x8000_0000_0000_0000
    case _ => 0
  }

  function MaxOf(w: IntWidth): int {
    match w
    case I8 => 0x7F
    case I16 => 0x7FFF
    case I32 => 0x7FFF_FFFF
    case I64 => 0x7FFF_FFFF_FFFF_FFFF
    case U8 => 0xFF
    case U16 => 0xFFFF
    case U32 => 0xFFFF_FFFF
    case U64 => 0xFFFF_FFFF_FFFF_FFFF
  }

  predicate InRange(w: IntWidth, n: int) {
    MinOf(w) <= n <= MaxOf(w)
  }

  /** The width of a floating-point field: `float32` or `float64`. */
  datatype FloatWidth = F32 | F64

  /** The least magnitude that no longer rounds to a finite `float32`: the largest
      `float32`, (2^24 - 1) * 2^104, plus half of its last place, 2^103. */
  const Float32Overflow: int := 0x1_0000_0000_0000_0000_0000_0000_0000_0000 - 0x80_0000_0000_0000_0000_0000_0000

  /** A finite number a field of width `w` can hold. Every fractional `float64` is far
      below the `float32` limit, so only an integral value can overflow it; every
      `float64` fits a `float64` field. */
  predicate FitsFloat(w: FloatWidth, x: Number) {
    && !x.NonFinite?
    && (w == F32 && x.Whole? ==> -Float32Overflow < x.n < Float32Overflow)
  }

  /** The closed set of message types the bridge knows: the 22 standard messages and
      the one custom message. */
  datatype MsgType =
    | StdHeader | StdString | StdBool
    | StdInt8 | StdInt16 | StdInt32 | StdInt64
    | StdUInt8 | StdUInt16 | StdUInt32 | StdUInt64
    | StdFloat32 | StdFloat64 | StdTime | StdDuration | StdColorRGBA
    | StdMultiArrayDimension | StdMultiArrayLayout
    | StdByte | StdByteMultiArray | StdChar | StdEmpty
    | ThrottlingStates

  /** The shape of one field. */
  datatype Kind =
    | BoolK
    | IntK(width: IntWidth)
    | FloatK(fwidth: FloatWidth)
    | StringK
    | TimeK
    | ListK(elem: Kind)
    | StructK(ty: MsgType)

  /** One field of a message: its Go name (also its key in a readings map), its
      name on the wire (empty for the package marker), and its shape. */
  datatype FieldSpec = FieldSpec(name: string, rosName: string, kind: Kind)

  /** A typed message value.  A message is a `TStruct`; nested messages and slices
      appear as its fields. */
  datatype Typed =
    | TBool(b: bool)
    | TInt(n: int)
    | TFloat(x: Number)
    | TString(s: string)
    | TTime(t: int)
    | TList(items: seq<Typed>)
    | TStruct(ty: MsgType, fields: seq<Typed>)

  /** The embedded package marker every generated message carries.  It is not a field
      on the wire, but it is an exported Go field, so marshalling emits it as the key
      `Package` and unmarshalling fills it from that key. */
  const PackageField: FieldSpec := FieldSpec("Package", "", IntK(I64))

  /** The fields of a message with the marker and one field `Data` of kind `k`. */
  function Data(k: Kind): seq<FieldSpec> {
    [PackageField, FieldSpec("Data", "data", k)]
  }

  /** The fields of the color message: the marker and four `float32` channels. */
  const ColorFields: seq<FieldSpec> :=
    [PackageField, FieldSpec("R", "r", FloatK(F32)), FieldSpec("G", "g", FloatK(F32)),
     FieldSpec("B", "b", FloatK(F32)), FieldSpec("A", "a", FloatK(F32))]

  /** The fields of each message type, in declaration order, the package marker first. */
  function Schema(ty: MsgType): seq<FieldSpec> {
    match ty
    case StdHeader =>
      [PackageField, FieldSpec("Seq", "seq", IntK(U32)), FieldSpec("Stamp", "stamp", TimeK),
       FieldSpec("FrameId", "frame_id", StringK)]
    case StdString => Data(StringK)
    case StdBool => Data(BoolK)
    case StdInt8 => Data(IntK(I8))
    case StdInt16 => Data(IntK(I16))
    case StdInt32 => Data(IntK(I32))
    case StdInt64 => Data(IntK(I64))
    case StdUInt8 => Data(IntK(U8))
    case StdUInt16 => Data(IntK(U16))
    case StdUInt32 => Data(IntK(U32))
    case StdUInt64 => Data(IntK(U64))
    case StdFloat32 => Data(FloatK(F32))
    case StdFloat64 => Data(FloatK(F64))
    case StdTime => Data(TimeK)
    case StdDuration => Data(IntK(I64))
    case StdColorRGBA => ColorFields
    case StdMultiArrayDimension =>
      [PackageField, FieldSpec("Label", "label", StringK), FieldSpec("Size", "size", IntK(U32)),
       FieldSpec("Stride", "stride", IntK(U32))]
    case StdMultiArrayLayout =>
      [PackageField, FieldSpec("Dim", "dim", ListK(StructK(StdMultiArrayDimension))),
       FieldSpec("DataOffset", "data_offset", IntK(U32))]
    case StdByte => Data(IntK(I8))
    case StdByteMultiArray =>
      [PackageField, FieldSpec("Layout", "layout", StructK(StdMultiArrayLayout)),
       FieldSpec("Data", "data", ListK(IntK(I8)))]
    case StdChar => Data(IntK(U8))
    case StdEmpty => [PackageField]
    case ThrottlingStates =>
      [PackageField, FieldSpec("Header", "header", StructK(StdHeader)),
       FieldSpec("Undervoltage", "undervoltage", BoolK),
       FieldSpec("ArmFrequentlyCapped", "arm_frequently_capped", BoolK),
       FieldSpec("Throttled", "throttled", BoolK),
       FieldSpec("SoftTemperatureLimitActive", "soft_temperature_limit_active", BoolK),
       FieldSpec("UndervoltageOccurred", "undervoltage_occurred", BoolK),
       FieldSpec("ArmFrequentlyCappedOccurred", "arm_frequently_capped_occurred", BoolK),
       FieldSpec("ThrottlingOccurred", "throttling_occurred", BoolK),
       FieldSpec("SoftTemperatureLimitOccurred", "soft_temperature_limit_occurred", BoolK)]
  }

  /** Nesting depth of a message type: strictly above the rank of each of its fields. */
  function TypeRank(ty: MsgType): nat {
    match ty
    case StdMultiArrayLayout => 3
    case StdByteMultiArray => 4
    case ThrottlingStates => 2
    case _ => 1
  }

  function Rank(k: Kind): nat {
    match k
    case ListK(e) => Rank(e) + 1
    case StructK(ty) => TypeRank(ty)
    case _ => 0
  }

  /** Every field of `specs` ranks strictly below `bound`. */
  predicate RankedBelow(specs: seq<FieldSpec>, bound: nat) {
    forall i | 0 <= i < |specs| :: Rank(specs[i].kind) < bound
  }

  /** No two fields of `specs` share a Go name. */
  predicate DistinctNames(specs: seq<FieldSpec>) {
    forall i, j | 0 <= i < j < |specs| :: specs[i].name != specs[j].name
  }

  lemma SchemaRanked(ty: MsgType)
    ensures RankedBelow(Schema(ty), TypeRank(ty))
  {
  }

  /** No two fields of a message share a Go name, nor a wire name. */
  lemma ThrottlingNamesDistinct()
    ensures DistinctNames(Schema(ThrottlingStates))
  {
  }

  lemma SchemaNamesDistinct(ty: MsgType)
    ensures DistinctNames(Schema(ty))
  {
    match ty
    case StdHeader =>
    case StdColorRGBA =>
    case StdMultiArrayDimension =>
    case StdMultiArrayLayout =>
    case StdByteMultiArray =>
    case ThrottlingStates => ThrottlingNamesDistinct();
    case _ =>
  }

  /** The zero value Go gives a field of kind `k`; for a message, every field zero. */
  function Zero(k: Kind): Typed
    decreases Rank(k)
  {
    match k
    case BoolK => TBool(false)
    case IntK(_) => TInt(0)
    case FloatK(_) => TFloat(Whole(0))
    case StringK => TString("")
    case TimeK => TTime(0)
    case ListK(_) => TList([])
    case StructK(ty) =>
      SchemaRanked(ty);
      var sch := Schema(ty);
      TStruct(ty, seq(|sch|, j requires 0 <= j < |sch| => Zero(sch[j].kind)))
  }

  /** `t` is a well-formed value of kind `k`: the right constructor, integers within
      their Go width, finite floats within theirs, lists and messages conforming
      element by element. */
  predicate Conforms(k: Kind, t: Typed)
    decreases Rank(k)
  {
    match k
    case BoolK => t.TBool?
    case IntK(w) => t.TInt? && InRange(w, t.n)
    case FloatK(w) => t.TFloat? && (t.x.NonFinite? || FitsFloat(w, t.x))
    case StringK => t.TString?
    case TimeK => t.TTime?
    case ListK(e) => t.TList? && forall i | 0 <= i < |t.items| :: Conforms(e, t.items[i])
    case StructK(ty) =>
      SchemaRanked(ty);
      && t.TStruct? && t.ty == ty && |t.fields| == |Schema(ty)|
      && forall j | 0 <= j < |Schema(ty)| :: Conforms(Schema(ty)[j].kind, t.fields[j])
  }

  /** No NaN or infinity anywhere in a generic value. */
  predicate FiniteValue(v: Value) {
    match v
    case Num(x) => !x.NonFinite?
    case List(items) => forall i | 0 <= i < |items| :: FiniteValue(items[i])
    case Object(m) => forall key | key in m :: FiniteValue(m[key])
    case _ => true
  }

  /** No NaN or infinity anywhere in a typed value. */
  predicate FiniteTyped(t: Typed) {
    match t
    case TFloat(x) => !x.NonFinite?
    case TList(items) => forall i | 0 <= i < |items| :: FiniteTyped(items[i])
    case TStruct(_, fs) => forall j | 0 <= j < |fs| :: FiniteTyped(fs[j])
    case _ => true
  }

  /** What one field of a message receives from a readings map: the decoded value
      under its own name, or its zero value when the name is absent. */
  function FieldFromMap(f: FieldSpec, m: map<string, Value>): Result<Typed, Error>
    decreases Rank(f.kind), 2, 0
  {
    if f.name in m then Decode(f.kind, m[f.name]) else Ok(Zero(f.kind))
  }

  /** Unmarshalling a value into a zero field of kind `k`.  Null leaves the zero value;
      a value of the wrong shape, a fractional number in an integer field, or a
      number outside the field's width is a type error.  A time field has its own
      unmarshaller: it takes a time and rejects anything else with its own error. */
  function Decode(k: Kind, v: Value): Result<Typed, Error>
    decreases Rank(k), 1, 0
  {
    if v.Null? then Ok(Zero(k))
    else
      match k
      case BoolK => if v.Bool? then Ok(TBool(v.b)) else Err(UnmarshalTypeError)
      case IntK(w) =>
        if v.Num? && v.x.Whole? && InRange(w, v.x.n) then Ok(TInt(v.x.n))
        else Err(UnmarshalTypeError)
      case FloatK(w) =>
        if v.Num? && FitsFloat(w, v.x) then Ok(TFloat(v.x)) else Err(UnmarshalTypeError)
      case StringK => if v.Str? then Ok(TString(v.s)) else Err(UnmarshalTypeError)
      case TimeK => if v.Time? then Ok(TTime(v.t)) else Err(TimeParseError)
      case ListK(e) =>
        if v.List? then
          var r := DecodeList(e, v.items);
          if r.Ok? then Ok(TList(r.value)) else Err(r.error)
        else Err(UnmarshalTypeError)
      case StructK(ty) =>
        if v.Object? then
          SchemaRanked(ty);
          var r := DecodeFields(Schema(ty), 0, v.entries, TypeRank(ty));
          if r.Ok? then Ok(TStruct(ty, r.value)) else Err(r.error)
        else Err(UnmarshalTypeError)
  }

  /** One element (or field) and the rest decoded together.  A type error is recorded
      and decoding goes on, while a time field's error stops it at once; so a time
      error anywhere prevails over type errors, and otherwise the first type error is
      the result. */
  function Joined(head: Result<Typed, Error>, tail: Result<seq<Typed>, Error>): (r: Result<seq<Typed>, Error>)
    ensures r.Ok? <==> head.Ok? && tail.Ok?
    ensures r.Ok? ==> |r.value| == 1 + |tail.value| && r.value[0] == head.value && r.value[1..] == tail.value
    ensures r.Err? && (head == Err(TimeParseError) || tail == Err(TimeParseError)) ==> r.error == TimeParseError
    ensures r.Err? && head != Err(TimeParseError) && tail != Err(TimeParseError) ==>
      r.error == (if head.Err? then head.error else tail.error)
  {
    if head.Ok? && tail.Ok? then Ok([head.value] + tail.value)
    else if head == Err(TimeParseError) || tail == Err(TimeParseError) then Err(TimeParseError)
    else if head.Err? then Err(head.error)
    else Err(tail.error)
  }

  function DecodeList(e: Kind, items: seq<Value>): Result<seq<Typed>, Error>
    decreases Rank(e) + 1, 0, |items|
  {
    if |items| == 0 then Ok([])
    else
      Joined(Decode(e, items[0]), DecodeList(e, items[1..]))
  }

  /** Fields `j..` of a message with field list `specs`, each taken from the map by its
      own name.  `bound` is a rank above every field's, for termination only. */
  function DecodeFields(specs: seq<FieldSpec>, j: nat, m: map<string, Value>, ghost bound: nat): Result<seq<Typed>, Error>
    requires j <= |specs| && RankedBelow(specs, bound)
    decreases bound, 0, |specs| - j
  {
    if j == |specs| then Ok([])
    else
      Joined(FieldFromMap(specs[j], m), DecodeFields(specs, j + 1, m, bound))
  }

  /** Marshalling a typed value back into a generic value: a message becomes an object
      keyed by its fields' Go names; a NaN or infinite float cannot be marshalled. */
  function Encode(t: Typed): Result<Value, Error>
    decreases t, 1
  {
    match t
    case TBool(b) => Ok(Bool(b))
    case TInt(n) => Ok(Num(Whole(n)))
    case TFloat(x) => if x.NonFinite? then Err(UnsupportedValue) else Ok(Num(x))
    case TString(s) => Ok(Str(s))
    case TTime(u) => Ok(Time(u))
    case TList(items) =>
      var r := EncodeList(items);
      if r.Ok? then Ok(List(r.value)) else Err(r.error)
    case TStruct(ty, fs) =>
      var r := EncodeFields(Schema(ty), fs, 0);
      if r.Ok? then Ok(Object(r.value)) else Err(r.error)
  }

  function EncodeList(items: seq<Typed>): Result<seq<Value>, Error>
    decreases items, 0
  {
    if |items| == 0 then Ok([])
    else
      var head := Encode(items[0]);
      if head.Err? then Err(head.error)
      else
        var tail := EncodeList(items[1..]);
        if tail.Err? then Err(tail.error) else Ok([head.value] + tail.value)
  }

  /** The object holding fields `j..` of a message, keyed by the Go names in `specs`. */
  function EncodeFields(specs: seq<FieldSpec>, fs: seq<Typed>, j: nat): Result<map<string, Value>, Error>
    decreases fs, 0, |fs| - j
  {
    if j >= |fs| || j >= |specs| then Ok(map[])
    else
      var head := Encode(fs[j]);
      if head.Err? then Err(head.error)
      else
        var tail := EncodeFields(specs, fs, j + 1);
        if tail.Err? then Err(tail.error) else Ok(tail.value[specs[j].name := head.value])
  }

  // ---------------------------------------------------------------------------
  // Properties of the conversion

  /** The zero value of every kind is well formed and finite. */
  lemma {:induction false} ZeroConforms(k: Kind)
    ensures Conforms(k, Zero(k)) && FiniteTyped(Zero(k))
    decreases Rank(k)
  {
    match k
    case StructK(ty) =>
      SchemaRanked(ty);
      var z := Zero(k);
      forall j | 0 <= j < |Schema(ty)|
        ensures Conforms(Schema(ty)[j].kind, z.fields[j]) && FiniteTyped(z.fields[j])
      {
        ZeroConforms(Schema(ty)[j].kind);
      }
    case _ =>
  }

  /** A successful unmarshal yields a well-formed, finite value of the field's kind. */
  lemma {:induction false} DecodeSound(k: Kind, v: Value)
    ensures Decode(k, v).Ok? ==> Conforms(k, Decode(k, v).value) && FiniteTyped(Decode(k, v).value)
    decreases Rank(k), 1, 0
  {
    if v.Null? {
      ZeroConforms(k);
    } else {
      match k
      case ListK(e) =>
        if v.List? {
          DecodeListSound(e, v.items);
        }
      case StructK(ty) =>
        if v.Object? {
          SchemaRanked(ty);
          DecodeFieldsSound(Schema(ty), 0, v.entries, TypeRank(ty));
        }
      case _ =>
    }
  }

  lemma {:induction false} DecodeListSound(e: Kind, items: seq<Value>)
    ensures DecodeList(e, items).Ok? ==>
      var ts := DecodeList(e, items).value;
      |ts| == |items| && forall i | 0 <= i < |ts| :: Conforms(e, ts[i]) && FiniteTyped(ts[i])
    decreases Rank(e) + 1, 0, |items|
  {
    if |items| > 0 {
      DecodeSound(e, items[0]);
      DecodeListSound(e, items[1..]);
    }
  }

  lemma {:induction false} DecodeFieldsSound(specs: seq<FieldSpec>, j: nat, m: map<string, Value>, bound: nat)
    requires j <= |specs| && RankedBelow(specs, bound)
    ensures DecodeFields(specs, j, m, bound).Ok? ==>
      var fs := DecodeFields(specs, j, m, bound).value;
      |fs| == |specs| - j &&
      forall i | 0 <= i < |fs| :: Conforms(specs[j + i].kind, fs[i]) && FiniteTyped(fs[i])
    decreases bound, 0, |specs| - j
  {
    if j < |specs| {
      var f := specs[j];
      var head := FieldFromMap(f, m);
      if f.name in m {
        DecodeSound(f.kind, m[f.name]);
      } else {
        ZeroConforms(f.kind);
      }
      DecodeFieldsSound(specs, j + 1, m, bound);
      var r := DecodeFields(specs, j, m, bound);
      if r.Ok? {
        var tail := DecodeFields(specs, j + 1, m, bound);
        assert r == Joined(head, tail);
        assert head.Ok? && tail.Ok? && r.value == [head.value] + tail.value;
        forall i | 0 <= i < |r.value|
          ensures Conforms(specs[j + i].kind, r.value[i]) && FiniteTyped(r.value[i])
        {
          if i > 0 {
            assert r.value[i] == tail.value[i - 1];
          }
        }
      }
    }
  }

  /** Field-wise success of the unmarshal: fields `j..` decode exactly when each of
      them, taken on its own from the map, does. */
  lemma {:induction false} DecodeFieldsOkIff(specs: seq<FieldSpec>, j: nat, m: map<string, Value>, bound: nat)
    requires j <= |specs| && RankedBelow(specs, bound)
    ensures DecodeFields(specs, j, m, bound).Ok? <==>
      forall i | j <= i < |specs| :: FieldFromMap(specs[i], m).Ok?
    decreases |specs| - j
  {
    if j < |specs| {
      DecodeFieldsOkIff(specs, j + 1, m, bound);
    }
  }

  /** Field-wise values of the unmarshal: when fields `j..` decode, each holds what its
      own key gave it (or its zero value when the key is absent). */
  lemma {:induction false} DecodeFieldsValues(specs: seq<FieldSpec>, j: nat, m: map<string, Value>, bound: nat)
    requires j <= |specs| && RankedBelow(specs, bound)
    ensures DecodeFields(specs, j, m, bound).Ok? ==>
      var fs := DecodeFields(specs, j, m, bound).value;
      |fs| == |specs| - j &&
      forall i | j <= i < |specs| :: FieldFromMap(specs[i], m) == Ok(fs[i - j])
    decreases |specs| - j
  {
    if j < |specs| && DecodeFields(specs, j, m, bound).Ok? {
      DecodeFieldsValues(specs, j + 1, m, bound);
      var head := FieldFromMap(specs[j], m);
      var tail := DecodeFields(specs, j + 1, m, bound);
      var d := DecodeFields(specs, j, m, bound);
      assert d == Joined(head, tail);
      var fs := d.value;
      forall i | j <= i < |specs| ensures FieldFromMap(specs[i], m) == Ok(fs[i - j]) {
        if i > j {
          assert fs[i - j] == fs[1..][i - (j + 1)];
        }
      }
    }
  }

  /** The encoded object of a message holds each field under its own name. */
  lemma {:induction false} EncodeFieldsSpec(specs: seq<FieldSpec>, fs: seq<Typed>, j: nat)
    requires |fs| == |specs| && j <= |fs| && DistinctNames(specs)
    requires forall i | j <= i < |fs| :: Encode(fs[i]).Ok?
    ensures EncodeFields(specs, fs, j).Ok?
    ensures forall i | j <= i < |fs| ::
      specs[i].name in EncodeFields(specs, fs, j).value &&
      EncodeFields(specs, fs, j).value[specs[i].name] == Encode(fs[i]).value
    decreases |fs| - j
  {
    if j < |fs| {
      EncodeFieldsSpec(specs, fs, j + 1);
      var tail := EncodeFields(specs, fs, j + 1).value;
      var obj := EncodeFields(specs, fs, j).value;
      assert obj == tail[specs[j].name := Encode(fs[j]).value];
      forall i | j < i < |fs| ensures specs[i].name in obj && obj[specs[i].name] == Encode(fs[i]).value {
        assert specs[i].name != specs[j].name;
        assert specs[i].name in tail;
      }
    }
  }

  /** When each field `j..`, taken from the map, gives the matching value, the fields
      decode to exactly those values. */
  lemma {:induction false} DecodeFieldsFromValues(specs: seq<FieldSpec>, fs: seq<Typed>, j: nat, m: map<string, Value>, bound: nat)
    requires |fs| == |specs| && j <= |fs| && RankedBelow(specs, bound)
    requires forall i | j <= i < |fs| :: FieldFromMap(specs[i], m) == Ok(fs[i])
    ensures DecodeFields(specs, j, m, bound) == Ok(fs[j..])
    decreases |fs| - j
  {
    if j < |fs| {
      DecodeFieldsFromValues(specs, fs, j + 1, m, bound);
      assert DecodeFields(specs, j, m, bound) == Joined(Ok(fs[j]), Ok(fs[j + 1..]));
      assert fs[j..] == [fs[j]] + fs[j + 1..];
    }
  }

  /** Marshalling a well-formed, finite typed value and unmarshalling the result into a
      zero value of the same kind gives the original value back. */
  lemma {:induction false} EncodeDecodeRoundTrip(k: Kind, t: Typed)
    requires Conforms(k, t) && FiniteTyped(t)
    ensures Encode(t).Ok? && Decode(k, Encode(t).value) == Ok(t)
    decreases t
  {
    match k
    case ListK(e) =>
      EncodeListRoundTrip(e, t.items);
    case StructK(ty) =>
      var fs := t.fields;
      forall i | 0 <= i < |fs|
        ensures Encode(fs[i]).Ok? && Decode(Schema(ty)[i].kind, Encode(fs[i]).value) == Ok(fs[i])
      {
        EncodeDecodeRoundTrip(Schema(ty)[i].kind, fs[i]);
      }
      SchemaRanked(ty);
      SchemaNamesDistinct(ty);
      EncodeFieldsSpec(Schema(ty), fs, 0);
      var obj := EncodeFields(Schema(ty), fs, 0).value;
      forall i | 0 <= i < |fs| ensures FieldFromMap(Schema(ty)[i], obj) == Ok(fs[i]) {
        assert Schema(ty)[i].name in obj;
      }
      DecodeFieldsFromValues(Schema(ty), fs, 0, obj, TypeRank(ty));
      assert fs[0..] == fs;
    case _ =>
  }

  lemma {:induction false} EncodeListRoundTrip(e: Kind, items: seq<Typed>)
    requires forall i | 0 <= i < |items| :: Conforms(e, items[i]) && FiniteTyped(items[i])
    ensures EncodeList(items).Ok? && DecodeList(e, EncodeList(items).value) == Ok(items)
    decreases items
  {
    if |items| > 0 {
      EncodeDecodeRoundTrip(e, items[0]);
      EncodeListRoundTrip(e, items[1..]);
      assert items == [items[0]] + items[1..];
    }
  }

  /** Marshalling a well-formed value fails exactly when it holds a NaN or an infinity. */
  lemma {:induction false} EncodeFailsIffNonFinite(k: Kind, t: Typed)
    requires Conforms(k, t)
    ensures Encode(t).Ok? <==> FiniteTyped(t)
    ensures Encode(t).Err? ==> Encode(t).error == UnsupportedValue
    decreases t
  {
    match k
    case ListK(e) =>
      forall i | 0 <= i < |t.items| ensures Encode(t.items[i]).Ok? <==> FiniteTyped(t.items[i])
        ensures Encode(t.items[i]).Err? ==> Encode(t.items[i]).error == UnsupportedValue
      {
        EncodeFailsIffNonFinite(e, t.items[i]);
      }
      EncodeListOk(t.items);
    case StructK(ty) =>
      forall i | 0 <= i < |t.fields| ensures Encode(t.fields[i]).Ok? <==> FiniteTyped(t.fields[i])
        ensures Encode(t.fields[i]).Err? ==> Encode(t.fields[i]).error == UnsupportedValue
      {
        EncodeFailsIffNonFinite(Schema(ty)[i].kind, t.fields[i]);
      }
      EncodeFieldsOk(Schema(ty), t.fields, 0);
    case _ =>
  }

  lemma {:induction false} EncodeListOk(items: seq<Typed>)
    requires forall i | 0 <= i < |items| :: Encode(items[i]).Err? ==> Encode(items[i]).error == UnsupportedValue
    ensures EncodeList(items).Ok? <==> forall i | 0 <= i < |items| :: Encode(items[i]).Ok?
    ensures EncodeList(items).Err? ==> EncodeList(items).error == UnsupportedValue
    decreases |items|
  {
    if |items| > 0 {
      EncodeListOk(items[1..]);
      assert forall i | 1 <= i < |items| :: items[i] == items[1..][i - 1];
    }
  }

  lemma {:induction false} EncodeFieldsOk(specs: seq<FieldSpec>, fs: seq<Typed>, j: nat)
    requires |fs| == |specs| && j <= |fs|
    requires forall i | j <= i < |fs| :: Encode(fs[i]).Err? ==> Encode(fs[i]).error == UnsupportedValue
    ensures EncodeFields(specs, fs, j).Ok? <==> forall i | j <= i < |fs| :: Encode(fs[i]).Ok?
    ensures EncodeFields(specs, fs, j).Err? ==> EncodeFields(specs, fs, j).error == UnsupportedValue
    decreases |fs| - j
  {
    if j < |fs| {
      EncodeFieldsOk(specs, fs, j + 1);
    }
  }

  /** A successfully encoded message has exactly its fields' Go names as keys. */
  lemma {:induction false} EncodeFieldsKeys(specs: seq<FieldSpec>, fs: seq<Typed>, j: nat)
    requires |fs| == |specs| && j <= |fs|
    requires EncodeFields(specs, fs, j).Ok?
    ensures EncodeFields(specs, fs, j).value.Keys == set i | j <= i < |fs| :: specs[i].name
    decreases |fs| - j
  {
    if j < |fs| {
      EncodeFieldsKeys(specs, fs, j + 1);
      var lhs := EncodeFields(specs, fs, j).value.Keys;
      var rest := set i | j + 1 <= i < |fs| :: specs[i].name;
      assert lhs == rest + {specs[j].name};
      assert (set i | j <= i < |fs| :: specs[i].name) == rest + {specs[j].name};
    }
  }

  /** Whatever marshals successfully is itself free of NaN and infinity. */
  lemma {:induction false} EncodeFinite(t: Typed)
    ensures Encode(t).Ok? ==> FiniteValue(Encode(t).value)
    decreases t, 1
  {
    match t
    case TList(items) =>
      EncodeListFinite(items);
      if Encode(t).Ok? {
        assert EncodeList(items).Ok?;
        var vs := EncodeList(items).value;
        assert Encode(t).value == List(vs);
        assert forall i | 0 <= i < |vs| :: FiniteValue(vs[i]);
      }
    case TStruct(ty, fs) =>
      EncodeFieldsFinite(Schema(ty), fs, 0);
      if Encode(t).Ok? {
        assert EncodeFields(Schema(ty), fs, 0).Ok?;
        var obj := EncodeFields(Schema(ty), fs, 0).value;
        assert Encode(t).value == Object(obj);
        assert forall key | key in obj :: FiniteValue(obj[key]);
      }
    case _ =>
  }

  lemma {:induction false} EncodeListFinite(items: seq<Typed>)
    ensures EncodeList(items).Ok? ==>
      var vs := EncodeList(items).value;
      forall i | 0 <= i < |vs| :: FiniteValue(vs[i])
    decreases items, 0
  {
    if |items| > 0 && EncodeList(items).Ok? {
      EncodeFinite(items[0]);
      EncodeListFinite(items[1..]);
      var vs := EncodeList(items).value;
      assert vs == [Encode(items[0]).value] + EncodeList(items[1..]).value;
      forall i | 0 <= i < |vs| ensures FiniteValue(vs[i]) {
        if i > 0 {
          assert vs[i] == EncodeList(items[1..]).value[i - 1];
        }
      }
    }
  }

  lemma {:induction false} EncodeFieldsFinite(specs: seq<FieldSpec>, fs: seq<Typed>, j: nat)
    ensures EncodeFields(specs, fs, j).Ok? ==>
      forall key | key in EncodeFields(specs, fs, j).value :: FiniteValue(EncodeFields(specs, fs, j).value[key])
    decreases fs, 0, |fs| - j
  {
    if j < |fs| && j < |specs| && EncodeFields(specs, fs, j).Ok? {
      EncodeFinite(fs[j]);
      EncodeFieldsFinite(specs, fs, j + 1);
      var obj := EncodeFields(specs, fs, j).value;
      var head := Encode(fs[j]);
      var tail := EncodeFields(specs, fs, j + 1);
      assert head.Ok? && tail.Ok?;
      assert obj == tail.value[specs[j].name := head.value];
      forall key | key in obj ensures FiniteValue(obj[key]) {
        if key == specs[j].name {
          assert obj[key] == head.value;
        } else {
          assert key in tail.value && obj[key] == tail.value[key];
        }
      }
    }
  }

  /** A field of kind `k` holds a time: it is one, or a slice or message holding one. */
  predicate HoldsTime(k: Kind)
    decreases Rank(k)
  {
    match k
    case TimeK => true
    case ListK(e) => HoldsTime(e)
    case StructK(ty) =>
      SchemaRanked(ty);
      exists j | 0 <= j < |Schema(ty)| :: HoldsTime(Schema(ty)[j].kind)
    case _ => false
  }

  /** Some field `j..` of `specs`, taken from the map, is rejected by a time field. */
  predicate SomeTimeError(specs: seq<FieldSpec>, j: nat, m: map<string, Value>) {
    exists i | j <= i < |specs| :: FieldFromMap(specs[i], m) == Err(TimeParseError)
  }

  /** Unmarshalling into a message fails with a time field's error exactly when one of
      its fields does, and otherwise with a type error; with no time field among them,
      only a type error is possible. */
  lemma {:induction false} DecodeFieldsErrors(specs: seq<FieldSpec>, j: nat, m: map<string, Value>, bound: nat)
    requires j <= |specs| && RankedBelow(specs, bound)
    ensures var d := DecodeFields(specs, j, m, bound);
      && (d.Err? ==> d.error == UnmarshalTypeError || d.error == TimeParseError)
      && (d.Err? ==> (d.error == TimeParseError <==> SomeTimeError(specs, j, m)))
      && (d.Err? && (forall i | j <= i < |specs| :: !HoldsTime(specs[i].kind)) ==> d.error == UnmarshalTypeError)
    decreases bound, 0, |specs| - j
  {
    if j < |specs| {
      var f := specs[j];
      if f.name in m {
        DecodeErrors(f.kind, m[f.name]);
      }
      DecodeFieldsErrors(specs, j + 1, m, bound);
      var head := FieldFromMap(f, m);
      var tail := DecodeFields(specs, j + 1, m, bound);
      var d := DecodeFields(specs, j, m, bound);
      assert d == Joined(head, tail);
      if head == Err(TimeParseError) {
        assert SomeTimeError(specs, j, m);
      } else if SomeTimeError(specs, j, m) {
        var i :| j <= i < |specs| && FieldFromMap(specs[i], m) == Err(TimeParseError);
        assert SomeTimeError(specs, j + 1, m);
        DecodeFieldsOkIff(specs, j + 1, m, bound);
        assert tail == Err(TimeParseError);
      } else if d.Err? && tail.Err? {
        assert tail.error != TimeParseError;
      }
    }
  }

  /** Unmarshalling fails only with a type error or a time field's error, and with the
      latter only for a kind that holds a time. */
  lemma {:induction false} DecodeErrors(k: Kind, v: Value)
    ensures Decode(k, v).Err? ==> Decode(k, v).error == UnmarshalTypeError || Decode(k, v).error == TimeParseError
    ensures Decode(k, v).Err? && !HoldsTime(k) ==> Decode(k, v).error == UnmarshalTypeError
    decreases Rank(k), 1, 0
  {
    if !v.Null? {
      match k
      case ListK(e) => if v.List? { DecodeListErrors(e, v.items); }
      case StructK(ty) => if v.Object? { SchemaRanked(ty); DecodeFieldsErrors(Schema(ty), 0, v.entries, TypeRank(ty)); }
      case _ =>
    }
  }

  lemma {:induction false} DecodeListErrors(e: Kind, items: seq<Value>)
    ensures DecodeList(e, items).Err? ==>
      DecodeList(e, items).error == UnmarshalTypeError || DecodeList(e, items).error == TimeParseError
    ensures DecodeList(e, items).Err? && !HoldsTime(e) ==> DecodeList(e, items).error == UnmarshalTypeError
    decreases Rank(e) + 1, 0, |items|
  {
    if |items| > 0 {
      DecodeErrors(e, items[0]);
      DecodeListErrors(e, items[1..]);
    }
  }

  /** Unmarshalling an object into fields `specs`, field by field. */
  lemma {:induction false} DecodeFieldsFieldwise(specs: seq<FieldSpec>, data: map<string, Value>, bound: nat)
    requires RankedBelow(specs, bound)
    ensures var d := DecodeFields(specs, 0, data, bound);
      && (d.Ok? <==> forall j | 0 <= j < |specs| :: FieldFromMap(specs[j], data).Ok?)
      && (d.Ok? ==> |d.value| == |specs| && forall j | 0 <= j < |specs| :: FieldFromMap(specs[j], data) == Ok(d.value[j]))
  {
    DecodeFieldsOkIff(specs, 0, data, bound);
    DecodeFieldsValues(specs, 0, data, bound);
    var d := DecodeFields(specs, 0, data, bound);
    if d.Ok? {
      forall i | 0 <= i < |specs| ensures FieldFromMap(specs[i], data) == Ok(d.value[i]) {
        assert d.value[i - 0] == d.value[i];
      }
    }
  }

  /** Unmarshalling an object into a message, field by field. */
  lemma {:induction false} DecodeStructFieldwise(ty: MsgType, data: map<string, Value>)
    ensures var r := Decode(StructK(ty), Object(data));
      var sch := Schema(ty);
      && (r.Ok? <==> forall j | 0 <= j < |sch| :: FieldFromMap(sch[j], data).Ok?)
      && (r.Err? ==> r.error == UnmarshalTypeError || r.error == TimeParseError)
      && (r.Err? ==> (r.error == TimeParseError <==>
            exists j | 0 <= j < |sch| :: FieldFromMap(sch[j], data) == Err(TimeParseError)))
      && (r.Ok? ==>
            && r.value.TStruct? && r.value.ty == ty && |r.value.fields| == |sch|
            && forall j | 0 <= j < |sch| :: FieldFromMap(sch[j], data) == Ok(r.value.fields[j]))
  {
    var sch := Schema(ty);
    SchemaRanked(ty);
    var d := DecodeFields(sch, 0, data, TypeRank(ty));
    assert Decode(StructK(ty), Object(data)) == if d.Ok? then Ok(TStruct(ty, d.value)) else Err(d.error);
    DecodeFieldsFieldwise(sch, data, TypeRank(ty));
    DecodeFieldsErrors(sch, 0, data, TypeRank(ty));
  }

  /** The field list of a single-`Data` message decodes `{"Data": v}` to a zero marker
      and whatever unmarshalling `v` into the field gives. */
  lemma {:induction false} DecodeFieldsData(k: Kind, v: Value, bound: nat)
    requires RankedBelow(Data(k), bound)
    ensures var d := Decode(k, v);
      DecodeFields(Data(k), 0, map["Data" := v], bound)
        == if d.Ok? then Ok([TInt(0), d.value]) else Err(d.error)
  {
    var sch := Data(k);
    var data := map["Data" := v];
    assert FieldFromMap(sch[0], data) == Ok(TInt(0));
    assert FieldFromMap(sch[1], data) == Decode(k, v);
    var tail := DecodeFields(sch, 1, data, bound);
    assert DecodeFields(sch, 2, data, bound) == Ok([]);
    assert tail == Joined(Decode(k, v), Ok([]));
    assert DecodeFields(sch, 0, data, bound) == Joined(Ok(TInt(0)), tail);
    if Decode(k, v).Ok? {
      assert [Decode(k, v).value] + [] == [Decode(k, v).value];
      assert tail == Ok([Decode(k, v).value]);
      assert [TInt(0)] + [Decode(k, v).value] == [TInt(0), Decode(k, v).value];
    }
  }

  /** Unmarshalling `{"Data": v}` into a message whose fields are the package marker
      and `Data` leaves the marker zero and stores what unmarshalling `v` into the field
      gives, or fails with that error. */
  lemma {:induction false} DecodeDataField(ty: MsgType, k: Kind, v: Value)
    requires Schema(ty) == Data(k)
    ensures var d := Decode(k, v);
      Decode(StructK(ty), Object(map["Data" := v]))
        == if d.Ok? then Ok(TStruct(ty, [TInt(0), d.value])) else Err(d.error)
  {
    SchemaRanked(ty);
    DecodeFieldsData(k, v, TypeRank(ty));
  }

  /** The color message's fields take `R`, `G`, `B` and `A` that fit a `float32` as
      they are, and leave the marker zero. */
  lemma {:induction false} DecodeColorFields(r: Number, g: Number, b: Number, a: Number, bound: nat)
    requires FitsFloat(F32, r) && FitsFloat(F32, g) && FitsFloat(F32, b) && FitsFloat(F32, a)
    requires RankedBelow(ColorFields, bound)
    ensures DecodeFields(ColorFields, 0, map["R" := Num(r), "G" := Num(g), "B" := Num(b), "A" := Num(a)], bound)
      == Ok([TInt(0), TFloat(r), TFloat(g), TFloat(b), TFloat(a)])
  {
    var data := map["R" := Num(r), "G" := Num(g), "B" := Num(b), "A" := Num(a)];
    var fs := [TInt(0), TFloat(r), TFloat(g), TFloat(b), TFloat(a)];
    assert FieldFromMap(ColorFields[0], data) == Ok(fs[0]);
    assert FieldFromMap(ColorFields[1], data) == Ok(fs[1]);
    assert FieldFromMap(ColorFields[2], data) == Ok(fs[2]);
    assert FieldFromMap(ColorFields[3], data) == Ok(fs[3]);
    assert FieldFromMap(ColorFields[4], data) == Ok(fs[4]);
    DecodeFieldsFromValues(ColorFields, fs, 0, data, bound);
    assert fs[0..] == fs;
  }

  /** Unmarshalling an object with `R`, `G`, `B` and `A` that fit a `float32` into a
      color message fills the four components with those numbers and leaves the marker
      zero. */
  lemma DecodeColorRGBA(r: Number, g: Number, b: Number, a: Number)
    requires FitsFloat(F32, r) && FitsFloat(F32, g) && FitsFloat(F32, b) && FitsFloat(F32, a)
    ensures Decode(StructK(StdColorRGBA), Object(map["R" := Num(r), "G" := Num(g), "B" := Num(b), "A" := Num(a)]))
      == Ok(TStruct(StdColorRGBA, [TInt(0), TFloat(r), TFloat(g), TFloat(b), TFloat(a)]))
  {
    DecodeColorShaped(StdColorRGBA, r, g, b, a);
  }

  /** A channel outside the `float32` range, whichever of the four it is, makes
      unmarshalling a color-shaped message fail with a type error, whatever the other
      channels hold. */
  lemma {:induction false} DecodeColorOverflow(ty: MsgType, r: Number, g: Number, b: Number, a: Number)
    requires Schema(ty) == ColorFields
    requires !r.NonFinite? && !g.NonFinite? && !b.NonFinite? && !a.NonFinite?
    requires !FitsFloat(F32, r) || !FitsFloat(F32, g) || !FitsFloat(F32, b) || !FitsFloat(F32, a)
    ensures Decode(StructK(ty), Object(map["R" := Num(r), "G" := Num(g), "B" := Num(b), "A" := Num(a)]))
      == Err(UnmarshalTypeError)
  {
    var data := map["R" := Num(r), "G" := Num(g), "B" := Num(b), "A" := Num(a)];
    if !FitsFloat(F32, r) {
      assert FieldFromMap(ColorFields[1], data) == Err(UnmarshalTypeError);
    } else if !FitsFloat(F32, g) {
      assert FieldFromMap(ColorFields[2], data) == Err(UnmarshalTypeError);
    } else if !FitsFloat(F32, b) {
      assert FieldFromMap(ColorFields[3], data) == Err(UnmarshalTypeError);
    } else {
      assert FieldFromMap(ColorFields[4], data) == Err(UnmarshalTypeError);
    }
    forall j | 0 <= j < |ColorFields| ensures FieldFromMap(ColorFields[j], data) != Err(TimeParseError) {
      assert ColorFields[j].kind == IntK(I64) || ColorFields[j].kind == FloatK(F32);
    }
    DecodeStructFieldwise(ty, data);
  }

  /** Any message type with the color message's fields unmarshals such an object alike. */
  lemma {:induction false} DecodeColorShaped(ty: MsgType, r: Number, g: Number, b: Number, a: Number)
    requires Schema(ty) == ColorFields
    requires FitsFloat(F32, r) && FitsFloat(F32, g) && FitsFloat(F32, b) && FitsFloat(F32, a)
    ensures Decode(StructK(ty), Object(map["R" := Num(r), "G" := Num(g), "B" := Num(b), "A" := Num(a)]))
      == Ok(TStruct(ty, [TInt(0), TFloat(r), TFloat(g), TFloat(b), TFloat(a)]))
  {
    SchemaRanked(ty);
    DecodeColorFields(r, g, b, a, TypeRank(ty));
  }
}
