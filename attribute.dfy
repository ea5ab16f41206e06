/** GXF (GTF and GFF) attribute definitions, their Arrow column types, and the
    harmonised attribute value that both dialects' entries are converted to. */
module Attribute {
  import opened Wrappers
  import opened CaseFolding

  /** The Arrow data types a dynamic attribute column can have. */
  datatype DataType = Utf8 | List(child: Field)

  /** An Arrow schema field: a named, typed, possibly nullable column. */
  datatype Field = Field(name: string, dataType: DataType, nullable: bool)

  /** The closed set of attribute types. */
  datatype AttributeType = String | Array

  /** An attribute column definition: its name and its type. */
  datatype AttributeDef = AttributeDef(name: string, ty: AttributeType)

  /** The child field of every list column. */
  const ItemField: Field := Field("item", Utf8, true)

  /** `AttributeType::arrow_type`: the column type allocated for an attribute type. */
  function ArrowType(t: AttributeType): (r: DataType)
    ensures r.Utf8? <==> t == AttributeType.String
    ensures r.List? ==> r.child == ItemField
  {
    match t
    case String => Utf8
    case Array => List(ItemField)
  }

  /** Reads an attribute type back from a column type; `None` for any type that no
      attribute type allocates. */
  function AttributeTypeOf(dt: DataType): Option<AttributeType>
  {
    match dt
    case Utf8 => Some(AttributeType.String)
    case List(child) => if child == ItemField then Some(AttributeType.Array) else None
  }

  /** `ArrowType` loses nothing: the attribute type can be read back from it, so two
      attribute types never share a column type. */
  lemma ArrowTypeRoundTrip(t: AttributeType)
    ensures AttributeTypeOf(ArrowType(t)) == Some(t)
  {
  }

  /** `AttributeDef::get_arrow_field`: a nullable field named after the attribute. */
  function GetArrowField(def: AttributeDef): (f: Field)
    ensures f.name == def.name && f.nullable
    ensures AttributeTypeOf(f.dataType) == Some(def.ty)
  {
    Field(def.name, ArrowType(def.ty), true)
  }

  /** `TryFrom<(String, String)> for AttributeDef`: the type string is matched
      case-insensitively against "string" and "array"; anything else is an
      `InvalidInput` error. */
  function TryFromPair(def: (string, string)): (r: Result<AttributeDef>)
    ensures r.Ok? ==> r.value.name == def.0
    ensures r.Ok? && r.value.ty == AttributeType.String <==> SpellsIgnoringCase(def.1, "string")
    ensures r.Ok? && r.value.ty == AttributeType.Array <==> SpellsIgnoringCase(def.1, "array")
    ensures r.Err? ==> r.error == InvalidInput
  {
    var (name, ty) := def;
    LowercaseIsWord(ty, "string");
    LowercaseIsWord(ty, "array");
    var lowered := Lowercase(ty);
    if lowered == "string" then Ok(AttributeDef(name, AttributeType.String))
    else if lowered == "array" then Ok(AttributeDef(name, AttributeType.Array))
    else Err(InvalidInput)
  }

  /** The type tag the attribute scanner records for a type. */
  function TypeName(t: AttributeType): string
  {
    match t
    case String => "String"
    case Array => "Array"
  }

  /** The two tags the scanner writes. */
  predicate IsTypeName(tag: string)
  {
    tag == "String" || tag == "Array"
  }

  /** Every tag the scanner writes parses back, under any name, to the type it was
      written for; and only these two tags are written. */
  lemma TypeNameRoundTrip(name: string, t: AttributeType)
    ensures IsTypeName(TypeName(t))
    ensures TryFromPair((name, TypeName(t))) == Ok(AttributeDef(name, t))
  {
  }

  /** `AttributeValue`: the harmonised value of one GTF or GFF attribute entry. */
  datatype AttributeValue = String(text: string) | Array(items: seq<string>)

  /** The attribute type a value belongs to. */
  function TypeOf(v: AttributeValue): AttributeType
  {
    match v
    case String(_) => AttributeType.String
    case Array(_) => AttributeType.Array
  }

  /** A GTF attribute entry: a key and a single value. */
  datatype GtfEntry = GtfEntry(key: string, value: string)

  /** A GFF attribute value: a single (percent-decoded) string, or an array whose
      elements each decode or fail to (`None`). */
  datatype GffValue = GffString(text: string) | GffArray(elements: seq<Option<string>>)

  /** A GFF value whose array elements all decoded. */
  predicate Decoded(value: GffValue)
  {
    value.GffArray? ==> forall i :: 0 <= i < |value.elements| ==> value.elements[i].Some?
  }

  /** `From<GtfEntry> for AttributeValue`: a GTF entry always becomes a single string,
      its value. */
  function FromGtfEntry(entry: GtfEntry): (v: AttributeValue)
    ensures v.String? && v.text == entry.value
  {
    AttributeValue.String(entry.value)
  }

  /** The decoded elements of a GFF array, in order. */
  function Unwrapped(elements: seq<Option<string>>): (r: seq<string>)
    requires forall i :: 0 <= i < |elements| ==> elements[i].Some?
    ensures |r| == |elements|
    ensures forall i :: 0 <= i < |r| ==> elements[i] == Some(r[i])
  {
    if elements == [] then [] else [elements[0].value] + Unwrapped(elements[1..])
  }

  /** `From<&GffValue> for AttributeValue`: a GFF string stays a string, a GFF array
      becomes an array of its elements in the same order. */
  function FromGffValue(value: GffValue): (v: AttributeValue)
    requires Decoded(value)
    ensures value.GffString? <==> v.String?
    ensures v.String? ==> v.text == value.text
    ensures v.Array? ==> |v.items| == |value.elements|
    ensures v.Array? ==> forall i :: 0 <= i < |v.items| ==> value.elements[i] == Some(v.items[i])
  {
    match value
    case GffString(s) => AttributeValue.String(s)
    case GffArray(a) => AttributeValue.Array(Unwrapped(a))
  }

  /** The GFF value that an attribute value is written as. */
  function ToGffValue(v: AttributeValue): (g: GffValue)
    ensures Decoded(g)
  {
    match v
    case String(s) => GffString(s)
    case Array(items) => GffArray(seq(|items|, i requires 0 <= i < |items| => Some(items[i])))
  }

  /** The GFF conversion is a bijection between decoded GFF values and attribute values. */
  lemma FromGffValueRoundTrip(v: AttributeValue, g: GffValue)
    ensures FromGffValue(ToGffValue(v)) == v
    ensures Decoded(g) ==> ToGffValue(FromGffValue(g)) == g
  {
  }
}
