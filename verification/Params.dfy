/** Packing and unpacking of parameters: `json_hal_add_param` and `json_hal_get_param`. */
module Params {
  import opened Common
  import opened Decimal

  /** The JSON values that can occur in a parameter object; integers are 64 bits wide. */
  datatype Json = JString(s: string) | JBool(b: bool) | JInt(n: int)

  type Object = map<string, Json>

  datatype ParamType =
    | Unset | Boolean | String | Integer | UnsignedInteger | Long | UnsignedLong | HexBinary | Base64

  datatype Action = GetRequest | GetResponse | SetRequest | DeleteRequest | PublishEventResponse

  datatype Param = Param(name: string, value: string, ptype: ParamType)

  const NAME_SIZE := 256
  const VALUE_SIZE := 2048

  // ---------- json-c's conversions ----------

  function GetString(j: Json): string {
    match j
    case JString(s) => s
    case JBool(b) => if b then "true" else "false"
    case JInt(n) => Format(n)
  }

  function GetInt64(j: Json): int {
    match j
    case JString(s) => Strtol(s)
    case JBool(b) => if b then 1 else 0
    case JInt(n) => n
  }

  /** json-c saturates when it narrows to an int. */
  function GetInt32(j: Json): int {
    var n := GetInt64(j);
    if n < -TWO_31 then -TWO_31 else if n > TWO_31 - 1 then TWO_31 - 1 else n
  }

  function GetBoolean(j: Json): bool {
    match j
    case JString(s) => s != ""
    case JBool(b) => b
    case JInt(n) => n != 0
  }

  /** What strncpy leaves in an array of `size` bytes. */
  function Copy(size: nat, s: string): string { if |s| <= size then s else s[..size] }

  function TypeName(t: ParamType): string
    requires !t.Unset?
  {
    match t
    case Boolean => "boolean"
    case String => "string"
    case Integer => "int"
    case UnsignedInteger => "unsignedInt"
    case Long => "long"
    case UnsignedLong => "unsignedLong"
    case HexBinary => "hexBinary"
    case Base64 => "base64"
  }

  /** The reader matches by prefix, in this order; an unknown type stays unset. */
  function ParseType(s: string): (t: ParamType) {
    if "string" <= s then String
    else if "hexBinary" <= s then HexBinary
    else if "base64" <= s then Base64
    else if "boolean" <= s then Boolean
    else if "int" <= s then Integer
    else if "unsignedInt" <= s then UnsignedInteger
    else if "long" <= s then Long
    else if "unsignedLong" <= s then UnsignedLong
    else Unset
  }

  predicate IsText(t: ParamType) { t.String? || t.HexBinary? || t.Base64? }

  // ---------- packing ----------

  predicate IsTrue(v: string) { v == "true" || v == "TRUE" }
  predicate IsFalse(v: string) { v == "false" || v == "FALSE" }

  /** The JSON value that stands for a parameter's text; None where packing fails. */
  function PackValue(t: ParamType, v: string): Option<Json>
    requires !t.Unset?
  {
    match t
    case Boolean => if IsTrue(v) then Some(JBool(true)) else if IsFalse(v) then Some(JBool(false)) else None
    case Integer => Some(JInt(ToInt32(Strtol(v))))
    case UnsignedInteger => Some(JInt(ToInt32(ToUint32(ToInt32(Strtol(v))))))
    case Long => Some(JInt(Strtol(v)))
    case UnsignedLong => Some(JInt(ToUint32(Strtol(v))))
    case _ => Some(JString(v))
  }

  /** The object appended for a parameter; a record whose type was never set gets a name only. */
  function Pack(p: Param): Option<Object> {
    if p.ptype.Unset? then Some(map["name" := JString(p.name)]) else
    var v := PackValue(p.ptype, p.value);
    if v.None? then None
    else Some(map["name" := JString(p.name), "type" := JString(TypeName(p.ptype)), "value" := v.value])
  }

  // ---------- unpacking ----------

  /** The text `json_hal_get_param` writes for a value of the given type. */
  function UnpackValue(t: ParamType, j: Json): string {
    match t
    case Boolean => if GetBoolean(j) then "1" else "0"
    case Integer => Format(GetInt32(j))
    case UnsignedInteger => Format(ToInt32(ToUint32(GetInt32(j))))
    case Long => Format(GetInt64(j))
    case UnsignedLong => Format(GetInt64(j))
    case Unset => ""
    case _ => Copy(VALUE_SIZE, GetString(j))
  }

  /** The params field of a message: missing, an array of parameter objects, or one object. */
  datatype Payload = Missing | Items(items: seq<Object>) | Fields(fields: Object)

  class Message {
    var params: Payload

    constructor (params: Payload)
      ensures this.params == params
    {
      this.params := params;
    }

    /** Adds one parameter; on any error the message is left as it was. json-c demands an object
        where fields are added and an array where elements are. */
    method AddParam(action: Action, param: Param) returns (rc: int)
      requires if action.PublishEventResponse? then !params.Items? else !params.Fields?
      modifies this
      ensures rc == RETURN_OK || (rc == RETURN_ERR && params == old(params))
      ensures action.SetRequest? || action.GetResponse? ==>
                && (rc == RETURN_OK <==> old(params).Items? && Pack(param).Some?)
                && (rc == RETURN_OK ==> params == Items(old(params).items + [Pack(param).value]))
      ensures action.GetRequest? || action.DeleteRequest? ==>
                && (rc == RETURN_OK <==> old(params).Items?)
                && (rc == RETURN_OK ==> params == Items(old(params).items + [map["name" := JString(param.name)]]))
      ensures action.PublishEventResponse? ==>
                && (rc == RETURN_OK <==> old(params).Fields?)
                && (rc == RETURN_OK ==>
                      params == Fields(
                        old(params).fields + map["name" := JString(param.name), "value" := JString(param.value)]))
    {
      if params.Missing? {
        return RETURN_ERR;
      }
      if action.PublishEventResponse? {
        params := Fields(params.fields["name" := JString(param.name)]["value" := JString(param.value)]);
        return RETURN_OK;
      }
      var jparam: Object := map["name" := JString(param.name)];
      if (action.SetRequest? || action.GetResponse?) && !param.ptype.Unset? {
        jparam := jparam["type" := JString(TypeName(param.ptype))];
        match param.ptype
        case Boolean =>
          if param.value == "true" || param.value == "TRUE" {
            jparam := jparam["value" := JBool(true)];
          } else if param.value == "false" || param.value == "FALSE" {
            jparam := jparam["value" := JBool(false)];
          } else {
            return RETURN_ERR;
          }
        case Integer =>
          jparam := jparam["value" := JInt(ToInt32(Strtol(param.value)))];
        case UnsignedInteger =>
          var uintValue := ToUint32(ToInt32(Strtol(param.value)));
          jparam := jparam["value" := JInt(ToInt32(uintValue))];
        case Long =>
          jparam := jparam["value" := JInt(Strtol(param.value))];
        case UnsignedLong =>
          var ulongValue := ToUint32(Strtol(param.value));
          jparam := jparam["value" := JInt(ulongValue)];
        case _ =>
          jparam := jparam["value" := JString(param.value)];
      }
      params := Items(params.items + [jparam]);
      rc := RETURN_OK;
    }

    /** Reads parameter `index`, filling a zeroed record field by field; the record may be
        partly filled when an error is returned. */
    method GetParam(index: int, action: Action) returns (rc: int, param: Param)
      requires !params.Fields?
      ensures Read(params, index, action) == if rc == RETURN_OK then Some(param) else None
      ensures rc == RETURN_OK || rc == RETURN_ERR
    {
      param := Param("", "", Unset);
      if params.Missing? {
        return RETURN_ERR, param;
      }
      var jparam: Object := if 0 <= index < |params.items| then params.items[index] else map[];
      if action.PublishEventResponse? {
        return RETURN_OK, param;
      }
      if "name" !in jparam {
        return RETURN_ERR, param;
      }
      param := param.(name := Copy(NAME_SIZE, GetString(jparam["name"])));
      if action.SetRequest? || action.GetResponse? {
        if "type" !in jparam {
          return RETURN_ERR, param;
        }
        var t := ParseType(GetString(jparam["type"]));
        if "value" in jparam {
          param := param.(value := UnpackValue(t, jparam["value"]));
        } else if IsText(t) {
          return RETURN_ERR, param;
        }
        param := param.(ptype := t);
      }
      return RETURN_OK, param;
    }
  }

  /** What reading a message yields, stated over its parameter objects. */
  function Read(params: Payload, index: int, action: Action): (r: Option<Param>)
    requires !params.Fields?
  {
    if params.Missing? then None
    else if action.PublishEventResponse? then Some(Param("", "", Unset))
    else if !(0 <= index < |params.items|) then None
    else ReadObject(params.items[index], action)
  }

  function ReadObject(o: Object, action: Action): (r: Option<Param>) {
    if "name" !in o then None
    else
      var name := Copy(NAME_SIZE, GetString(o["name"]));
      if action.GetRequest? || action.DeleteRequest? then Some(Param(name, "", Unset))
      else if "type" !in o then None
      else
        var t := ParseType(GetString(o["type"]));
        if "value" in o then Some(Param(name, UnpackValue(t, o["value"]), t))
        else if IsText(t) then None
        else Some(Param(name, "", t))
  }

  // ---------- the round trip ----------

  /** A parameter that fits its record and, if boolean, spells a truth value. */
  ghost predicate Valid(p: Param) {
    && !p.ptype.Unset?
    && |p.name| < NAME_SIZE && |p.value| < VALUE_SIZE
    && (p.ptype.Boolean? ==> IsTrue(p.value) || IsFalse(p.value))
  }

  /** What a value comes back as: text unchanged, numbers as canonical decimal. */
  function Normal(t: ParamType, v: string): (r: string) {
    match t
    case Boolean => if IsTrue(v) then "1" else "0"
    case Integer => Format(ToInt32(Strtol(v)))
    case UnsignedInteger => Format(ToInt32(Strtol(v)))
    case Long => Format(Strtol(v))
    case UnsignedLong => Format(Strtol(v) % TWO_32)
    case _ => v
  }

  lemma {:induction false} CastTwice(n: int)
    ensures ToInt32(ToUint32(n)) == ToInt32(n)
    ensures ToInt32(ToInt32(n)) == ToInt32(n)
  {
  }

  lemma {:induction false} TypeRoundTrip(t: ParamType)
    requires !t.Unset?
    ensures ParseType(TypeName(t)) == t
  {
    var s := TypeName(t);
    match t
    case Boolean => assert s[0] == 'b' && s[1] == 'o';
    case String => assert s[0] == 's';
    case Integer => assert s[0] == 'i';
    case UnsignedInteger => assert s[0] == 'u' && s[8] == 'I';
    case Long => assert s[0] == 'l';
    case UnsignedLong => assert s[0] == 'u' && s[8] == 'L';
    case HexBinary => assert s[0] == 'h';
    case Base64 => assert s[0] == 'b' && s[1] == 'a';
  }

  lemma {:induction false} ValueRoundTrip(p: Param)
    requires Valid(p)
    ensures PackValue(p.ptype, p.value).Some?
    ensures UnpackValue(p.ptype, PackValue(p.ptype, p.value).value) == Normal(p.ptype, p.value)
  {
    hide Strtol, Format;
    CastTwice(Strtol(p.value));
    CastTwice(ToInt32(Strtol(p.value)));
  }

  lemma {:induction false} ObjectRoundTrip(p: Param, action: Action)
    requires Valid(p) && (action.SetRequest? || action.GetResponse?)
    ensures Pack(p).Some?
    ensures ReadObject(Pack(p).value, action) == Some(Param(p.name, Normal(p.ptype, p.value), p.ptype))
  {
    hide Strtol, Format, Normal, PackValue, UnpackValue, ParseType, TypeName;
    ValueRoundTrip(p);
    TypeRoundTrip(p.ptype);
    var o := Pack(p).value;
    assert "name" in o && "type" in o && "value" in o;
    assert o["name"] == JString(p.name) && o["type"] == JString(TypeName(p.ptype));
  }

  /** A message to which the parameters `ps` were added one by one. */
  method AddAll(msg: Message, action: Action, ps: seq<Param>) returns (rc: int)
    requires action.SetRequest? || action.GetResponse?
    requires msg.params == Items([]) && forall i :: 0 <= i < |ps| ==> Valid(ps[i])
    modifies msg
    ensures rc == RETURN_OK && msg.params.Items? && |msg.params.items| == |ps|
    ensures forall i :: 0 <= i < |ps| ==>
              Read(msg.params, i, action) == Some(Param(ps[i].name, Normal(ps[i].ptype, ps[i].value), ps[i].ptype))
    ensures forall i :: i < 0 || i >= |ps| ==> Read(msg.params, i, action) == None
  {
    hide Strtol, Format, Normal, Pack, ReadObject;
    rc := RETURN_OK;
    for k := 0 to |ps|
      invariant rc == RETURN_OK && msg.params.Items? && |msg.params.items| == k
      invariant forall i :: 0 <= i < k ==>
                  ReadObject(msg.params.items[i], action)
                  == Some(Param(ps[i].name, Normal(ps[i].ptype, ps[i].value), ps[i].ptype))
    {
      ObjectRoundTrip(ps[k], action);
      ghost var before := msg.params.items;
      rc := msg.AddParam(action, ps[k]);
      assert forall i :: 0 <= i < k ==> msg.params.items[i] == before[i];
    }
  }

  // ---------- what is on the wire, and what comes back ----------

  /** The names of the types on the wire, read back by the same names. */
  lemma {:induction false} TypeNames()
    ensures TypeName(Boolean) == "boolean" && TypeName(String) == "string" && TypeName(HexBinary) == "hexBinary"
    ensures TypeName(Integer) == "int" && TypeName(UnsignedInteger) == "unsignedInt" && TypeName(Base64) == "base64"
    ensures TypeName(Long) == "long" && TypeName(UnsignedLong) == "unsignedLong"
    ensures forall t: ParamType :: !t.Unset? ==> ParseType(TypeName(t)) == t
  {
    hide ParseType;
    forall t: ParamType | !t.Unset? ensures ParseType(TypeName(t)) == t {
      TypeRoundTrip(t);
    }
  }

  /** The object that stands for a parameter has its name, its type and its value: text as it is, a
      truth value as a boolean, and a number as the integer that its text denotes, as far as that
      survives. */
  lemma {:induction false} PackMeaning(p: Param, n: int)
    requires Valid(p)
    ensures Pack(p).Some? && Pack(p).value.Keys == {"name", "type", "value"}
    ensures Pack(p).value["name"] == JString(p.name)
    ensures p.ptype.String? || p.ptype.HexBinary? || p.ptype.Base64? ==> Pack(p).value["value"] == JString(p.value)
    ensures p.ptype.Boolean? ==> Pack(p).value["value"] == JBool(p.value == "true" || p.value == "TRUE")
    ensures IsNumber(p.ptype) && p.value == Format(n) && Survives(p.ptype, n) ==> Pack(p).value["value"] == JInt(n)
  {
    StrtolFormat(n);
    CastRange(n);
    hide Strtol, Format, ToInt32;
    if IsNumber(p.ptype) && p.value == Format(n) && Survives(p.ptype, n) {
      CastTwice(n);
      assert ToUint32(n) == n <== 0 <= n < TWO_32;
    }
  }

  /** Text comes back as it was, truth values as "1" and "0", and numbers in canonical decimal. */
  lemma {:induction false} NormalMeaning(t: ParamType, v: string)
    ensures t.String? || t.HexBinary? || t.Base64? ==> Normal(t, v) == v
    ensures t.Boolean? ==> Normal(t, v) == if v == "true" || v == "TRUE" then "1" else "0"
    ensures IsNumber(t) ==> CanonicalDecimal(Normal(t, v)) && Normal(t, v) == Normal(t, Format(Strtol(v)))
  {
    hide Strtol, Format, CanonicalDecimal;
    var n := Strtol(v);
    StrtolFormat(n);
    FormatCanonical(n);
    FormatCanonical(ToInt32(n));
    FormatCanonical(n % TWO_32);
  }

  /** A request that names a parameter reads back as that name. */
  lemma {:induction false} NameRoundTrip(name: string, action: Action)
    requires |name| < NAME_SIZE && (action.GetRequest? || action.DeleteRequest?)
    ensures ReadObject(map["name" := JString(name)], action) == Some(Param(name, "", Unset))
  {
  }

  /** Packing fails exactly for a boolean that spells no truth value; a record without a type gets a
      name only. */
  lemma {:induction false} PackFails(p: Param)
    ensures Pack(p).None? <==>
              p.ptype.Boolean? && p.value != "true" && p.value != "TRUE" && p.value != "false" && p.value != "FALSE"
    ensures p.ptype.Unset? ==> Pack(p) == Some(map["name" := JString(p.name)])
  {
    hide Strtol;
  }

  /** Integers that other programs send: narrowed to the nearest int, and kept as a long. */
  lemma {:induction false} UnpackNumber(n: int)
    ensures -TWO_31 <= n < TWO_31 ==>
              UnpackValue(Integer, JInt(n)) == UnpackValue(UnsignedInteger, JInt(n)) == Format(n)
    ensures n >= TWO_31 ==> UnpackValue(Integer, JInt(n)) == Format(TWO_31 - 1)
    ensures n < -TWO_31 ==> UnpackValue(Integer, JInt(n)) == Format(-TWO_31)
    ensures UnpackValue(Long, JInt(n)) == UnpackValue(UnsignedLong, JInt(n)) == Format(n)
  {
    hide Format;
    CastTwice(n);
    CastRange(n);
  }

  /** A message without params yields nothing, and so does an index outside of them; an event yields
      an empty record. */
  lemma {:induction false} ReadBounds(params: Payload, index: int, action: Action)
    requires !params.Fields?
    ensures params.Missing? ==> Read(params, index, action).None?
    ensures params.Items? && action.PublishEventResponse? ==> Read(params, index, action) == Some(Param("", "", Unset))
    ensures params.Items? && !action.PublishEventResponse? ==>
              Read(params, index, action) ==
                if 0 <= index < |params.items| then ReadObject(params.items[index], action) else None
  {
  }

  /** Reading fails exactly where the name is missing or, for values, the type is, or a text has no
      value. */
  lemma {:induction false} ReadFails(o: Object, action: Action)
    requires !action.PublishEventResponse?
    ensures ReadObject(o, action).None? <==>
              || "name" !in o
              || ((action.SetRequest? || action.GetResponse?) &&
                    ("type" !in o || (IsText(ParseType(GetString(o["type"]))) && "value" !in o)))
  {
  }

  /** Normal values are fixed points, and canonical decimal text of a value in range. */
  lemma {:induction false} NormalIdempotent(t: ParamType, v: string)
    requires !t.Boolean?
    ensures Normal(t, Normal(t, v)) == Normal(t, v)
  {
    hide Strtol, Format;
    var n := Strtol(v);
    CastTwice(n);
    match t
    case Integer => StrtolFormat(ToInt32(n));
    case UnsignedInteger => StrtolFormat(ToInt32(n));
    case Long => StrtolFormat(n);
    case UnsignedLong => StrtolFormat(n % TWO_32);
    case _ =>
  }

  /** A boolean does not survive a second trip: what comes back is refused by the packer. */
  lemma {:induction false} BooleanNotRepacked(p: Param)
    requires p.ptype.Boolean? && Valid(p)
    ensures Pack(p.(value := Normal(Boolean, p.value))).None?
  {
    var v := Normal(Boolean, p.value);
    assert |v| == 1;
  }

  /** The numbers of a type that survive: `unsignedInt` has the range of a signed int, and
      `unsignedLong` that of a 32-bit unsigned one. */
  predicate Survives(t: ParamType, n: int) {
    match t
    case Integer => -TWO_31 <= n < TWO_31
    case UnsignedInteger => -TWO_31 <= n < TWO_31
    case UnsignedLong => 0 <= n < TWO_32
    case _ => -LONG_MAX - 1 <= n <= LONG_MAX
  }

  predicate IsNumber(t: ParamType) { t.Integer? || t.UnsignedInteger? || t.Long? || t.UnsignedLong? }

  /** A number in canonical form comes back unchanged exactly when it is in the range that
      survives. */
  lemma {:induction false} InRangeUnchanged(t: ParamType, n: int)
    requires IsNumber(t)
    ensures Normal(t, Format(n)) == Format(n) <==> Survives(t, n)
  {
    hide Strtol, Format, ToInt32;
    var m := Saturate(n);
    StrtolFormat(n);
    CastRange(m);
    FormatInjective(ToInt32(m), n);
    FormatInjective(m % TWO_32, n);
    FormatInjective(m, n);
  }

  lemma {:induction false} CastRange(n: int)
    ensures ToInt32(n) == n <==> -TWO_31 <= n < TWO_31
    ensures TWO_31 <= n < TWO_32 ==> ToInt32(n) == n - TWO_32
  {
  }

  /** The upper half of the documented range of `unsignedInt` comes back negative, what is beyond
      32 bits of an `unsignedLong` is cut off, and all that no long can hold comes back as the
      largest 32-bit number: 3000000000 comes back as -1294967296. */
  lemma {:induction false} UnsignedLost(n: int)
    ensures TWO_31 <= n < TWO_32 ==> Normal(UnsignedInteger, Format(n)) == Format(n - TWO_32) != Format(n)
    ensures TWO_32 <= n <= LONG_MAX ==> Normal(UnsignedLong, Format(n)) == Format(n % TWO_32) != Format(n)
    ensures n > LONG_MAX ==> Normal(UnsignedLong, Format(n)) == Format(TWO_32 - 1) != Format(n)
  {
    hide Strtol, Format, ToInt32;
    StrtolFormat(n);
    CastRange(n);
    FormatInjective(n - TWO_32, n);
    FormatInjective(n % TWO_32, n);
    FormatInjective(TWO_32 - 1, n);
  }

  /** What was read back can be packed again, exactly if it is not a boolean. */
  lemma {:induction false} RepackedIff(p: Param)
    requires Valid(p)
    ensures Pack(p.(value := Normal(p.ptype, p.value))).Some? <==> !p.ptype.Boolean?
  {
    if p.ptype.Boolean? { BooleanNotRepacked(p); }
  }
}
