/** The boolean member of the primitive type-handler family: it tells whether a
    protobuf field holds a Java `boolean` and coerces a raw decoded value into one,
    leniently (anything that is not a spelling of "true" becomes `false`). */
module BooleanTypeHandler {
  import opened Values

  /** `Descriptors.FieldDescriptor.JavaType`. */
  datatype JavaType = INT | LONG | FLOAT | DOUBLE | BOOLEAN | STRING | BYTE_STRING | ENUM | MESSAGE

  /** The part of a protobuf field descriptor the handler reads. */
  datatype FieldDescriptor = FieldDescriptor(name: string, javaType: JavaType)

  function ToUpperAscii(c: char): char
  {
    if 'a' <= c <= 'z' then (c as int - 32) as char else c
  }

  function ToLowerAscii(c: char): char
  {
    if 'A' <= c <= 'Z' then (c as int + 32) as char else c
  }

  /** The per-character test of `String.equalsIgnoreCase`. */
  predicate CharEqualsIgnoreCase(a: char, b: char)
  {
    a == b
    || ToUpperAscii(a) == ToUpperAscii(b)
    || ToLowerAscii(ToUpperAscii(a)) == ToLowerAscii(ToUpperAscii(b))
  }

  /** `String.equalsIgnoreCase`: same length, characters pairwise equal up to case. */
  predicate EqualsIgnoreCase(a: string, b: string)
  {
    |a| == |b| && forall k :: 0 <= k < |a| ==> CharEqualsIgnoreCase(a[k], b[k])
  }

  /** `Boolean.parseBoolean`: true exactly for the sixteen case spellings of "true". */
  function ParseBoolean(s: string): (r: bool)
    ensures r <==> |s| == 4 && s[0] in "tT" && s[1] in "rR" && s[2] in "uU" && s[3] in "eE"
  {
    EqualsIgnoreCase(s, "true")
  }

  /** `PrimitiveTypeHandler.getValueOrDefault`: the default for a missing value,
      the value's string form otherwise. */
  function GetValueOrDefault(field: Value, default: string): string
  {
    if field.Null? then default else StringValueOf(field)
  }

  datatype BooleanPrimitiveTypeHandler = BooleanPrimitiveTypeHandler(fieldDescriptor: FieldDescriptor)
  {
    /** The handler applies to a field whose Java type is `BOOLEAN`; it reads
        nothing but the descriptor fixed at construction. */
    predicate CanHandle()
      ensures CanHandle() ==> fieldDescriptor.javaType !in {INT, LONG, FLOAT, DOUBLE, STRING, BYTE_STRING, ENUM, MESSAGE}
      ensures !CanHandle() ==> fieldDescriptor.javaType in {INT, LONG, FLOAT, DOUBLE, STRING, BYTE_STRING, ENUM, MESSAGE}
    {
      fieldDescriptor.javaType == BOOLEAN
    }

    /** Lenient coercion: always a `Boolean`, never an error. A missing value,
        a number and any string other than a case spelling of "true" give
        `false`; a `Boolean` is returned as it is. */
    function GetValue(field: Value): (r: Value)
      ensures r.Bool?
      ensures r.b <==> match field
                       case Null => false
                       case Int(_) => false
                       case Bool(b) => b
                       case Str(s) => |s| == 4 && s[0] in "tT" && s[1] in "rR" && s[2] in "uU" && s[3] in "eE"
    {
      IntToStringHead(if field.Int? then field.i else 0);
      Bool(ParseBoolean(GetValueOrDefault(field, "false")))
    }
  }

  /** Exactly the `BOOLEAN` Java type is accepted, whatever the field's name. */
  lemma CanHandleOnlyBoolean(name: string, t: JavaType)
    ensures BooleanPrimitiveTypeHandler(FieldDescriptor(name, t)).CanHandle() <==> t == BOOLEAN
  {
  }

  /** Strings that are not "true" in any case decode to `false`, not to an error;
      every case spelling of "true" decodes to `true`. */
  lemma GetValueSamples(h: BooleanPrimitiveTypeHandler)
    ensures h.GetValue(Str("1")) == Bool(false)
    ensures h.GetValue(Str("yes")) == Bool(false)
    ensures h.GetValue(Str("")) == Bool(false)
    ensures h.GetValue(Str("false")) == Bool(false)
    ensures h.GetValue(Str(" true")) == Bool(false)
    ensures h.GetValue(Int(1)) == Bool(false)
    ensures h.GetValue(Null) == Bool(false)
    ensures h.GetValue(Str("TRUE")) == Bool(true)
    ensures h.GetValue(Str("tRuE")) == Bool(true)
  {
  }
}
