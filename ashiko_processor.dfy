/** The Ashiko post-processor: it walks the fields of the output protobuf
    message, and for every field that has an entry in the async configuration it
    names that output column and wraps the stream in one more async decorator. */
module Ashiko {
  import opened Values

  /** A field of the output descriptor: its name and its position (`getIndex`). */
  datatype FieldDescriptor = FieldDescriptor(name: string, index: int)

  /** Protobuf numbers the fields of a message by their position. */
  predicate WellIndexed(fields: seq<FieldDescriptor>)
  {
    forall i :: 0 <= i < |fields| ==> fields[i].index == i
  }

  /** The configuration keys and the capacity default the processor reads. */
  datatype Keys = Keys(
    asyncIoKey: string,
    outputProtoClassPrefixKey: string,
    asyncIoCapacityKey: string,
    asyncIoCapacityDefault: string,
    fieldNameKey: string)

  /** What `StreamDecoratorFactory.getStreamDecorator` is given for one field. */
  datatype Decorator = Decorator(fieldConfiguration: map<string, string>, fieldIndex: int, capacity: int, outputSize: int)

  /** A data stream as the chain of decorators applied to a source stream, innermost first. */
  datatype DataStream = DataStream(source: string, decorators: seq<Decorator>)

  datatype ProcessError = NumberFormatException(input: string)

  /** `Map.getOrDefault`. */
  function GetOrDefault(m: map<string, string>, key: string, default: string): (r: string)
    ensures key in m ==> r == m[key]
    ensures key !in m ==> r == default
  {
    if key in m then m[key] else default
  }

  /** `streamDecorator.decorate(stream)`: the stream wrapped in one more decorator. */
  function Decorate(d: Decorator, stream: DataStream): (r: DataStream)
    ensures r.source == stream.source && r.decorators == stream.decorators + [d]
  {
    DataStream(stream.source, stream.decorators + [d])
  }

  /** The decorator built for a configured field, or the failure of parsing its capacity. */
  function DecoratorFor(keys: Keys, field: FieldDescriptor, fieldConfiguration: map<string, string>, size: int): Result<Decorator, ProcessError>
  {
    var capacityText := CapacityText(keys, fieldConfiguration);
    match ParseJavaInt(capacityText)
    case None => Err(NumberFormatException(capacityText))
    case Some(capacity) =>
      Ok(Decorator(fieldConfiguration[keys.fieldNameKey := field.name], field.index, capacity, size))
  }

  /** The decorators of the configured fields among `fields`, in field order. */
  function Decorators(keys: Keys, fields: seq<FieldDescriptor>, asyncConfig: map<string, map<string, string>>, size: int): Result<seq<Decorator>, ProcessError>
  {
    if fields == [] then Ok([])
    else if fields[0].name !in asyncConfig then Decorators(keys, fields[1..], asyncConfig, size)
    else match DecoratorFor(keys, fields[0], asyncConfig[fields[0].name], size)
      case Err(e) => Err(e)
      case Ok(d) =>
        match Decorators(keys, fields[1..], asyncConfig, size)
        case Err(e) => Err(e)
        case Ok(ds) => Ok([d] + ds)
  }

  /** The column-name array: a field's name at its index when it is configured,
      null (`None`) at the index of every field the async configuration skips. */
  function ColumnNames(fields: seq<FieldDescriptor>, asyncConfig: map<string, map<string, string>>): (r: seq<Option<string>>)
    requires WellIndexed(fields)
    ensures |r| == |fields|
    ensures forall f :: f in fields ==> 0 <= f.index < |r| && r[f.index] == if f.name in asyncConfig then Some(f.name) else None
  {
    seq(|fields|, i requires 0 <= i < |fields| => if fields[i].name in asyncConfig then Some(fields[i].name) else None)
  }

  /** The fields that have an entry in the async configuration, in field order. */
  function ConfiguredFields(fields: seq<FieldDescriptor>, asyncConfig: map<string, map<string, string>>): seq<FieldDescriptor>
  {
    if fields == [] then []
    else (if fields[0].name in asyncConfig then [fields[0]] else []) + ConfiguredFields(fields[1..], asyncConfig)
  }

  /** The capacity text a configured field's decorator is built from. */
  function CapacityText(keys: Keys, fieldConfiguration: map<string, string>): string
  {
    GetOrDefault(fieldConfiguration, keys.asyncIoCapacityKey, keys.asyncIoCapacityDefault)
  }

  /** Every configured field comes from the descriptor, and they keep the descriptor's order. */
  lemma {:induction false} ConfiguredFieldsInOrder(fields: seq<FieldDescriptor>, asyncConfig: map<string, map<string, string>>, offset: nat)
    requires forall i :: 0 <= i < |fields| ==> fields[i].index == offset + i
    ensures var cf := ConfiguredFields(fields, asyncConfig);
            && (forall j :: 0 <= j < |cf| ==> cf[j] in fields && cf[j].name in asyncConfig)
            && (forall j, k :: 0 <= j < k < |cf| ==> cf[j].index < cf[k].index)
            && (forall f :: f in fields && f.name in asyncConfig ==> f in cf)
  {
    if fields != [] {
      var rest := fields[1..];
      ConfiguredFieldsInOrder(rest, asyncConfig, offset + 1);
      var cf := ConfiguredFields(fields, asyncConfig);
      var cr := ConfiguredFields(rest, asyncConfig);
      forall j | 0 <= j < |cr| ensures cr[j].index > offset {
        var i :| 0 <= i < |rest| && rest[i] == cr[j];
      }
      forall f | f in fields && f.name in asyncConfig ensures f in cf {
        if f != fields[0] {
          assert f in rest;
        }
      }
    }
  }

  /** Building the decorators fails exactly when some configured field's capacity
      text is not a Java `int`. */
  lemma {:induction false} DecoratorsFail(keys: Keys, fields: seq<FieldDescriptor>, asyncConfig: map<string, map<string, string>>, size: int)
    ensures Decorators(keys, fields, asyncConfig, size).Err? <==>
            exists f :: f in fields && f.name in asyncConfig && ParseJavaInt(CapacityText(keys, asyncConfig[f.name])).None?
  {
    if fields != [] {
      DecoratorsFail(keys, fields[1..], asyncConfig, size);
      assert forall f :: f in fields <==> f == fields[0] || f in fields[1..];
    }
  }

  /** A configured field whose capacity text is not a Java `int`. */
  predicate BadCapacity(keys: Keys, asyncConfig: map<string, map<string, string>>, f: FieldDescriptor)
  {
    f.name in asyncConfig && ParseJavaInt(CapacityText(keys, asyncConfig[f.name])).None?
  }

  /** The error is the `NumberFormatException` of the first field, in field order,
      that is configured with a capacity that is not a Java `int`; the fields after
      it are never looked at. */
  lemma {:induction false} DecoratorsFirstFailure(keys: Keys, fields: seq<FieldDescriptor>, asyncConfig: map<string, map<string, string>>, size: int, k: nat)
    requires k < |fields| && BadCapacity(keys, asyncConfig, fields[k])
    requires forall j :: 0 <= j < k ==> !BadCapacity(keys, asyncConfig, fields[j])
    ensures Decorators(keys, fields, asyncConfig, size) == Err(NumberFormatException(CapacityText(keys, asyncConfig[fields[k].name])))
  {
    if k > 0 {
      var rest := fields[1..];
      assert rest[k - 1] == fields[k];
      assert forall j :: 0 <= j < k - 1 ==> rest[j] == fields[j + 1];
      DecoratorsFirstFailure(keys, rest, asyncConfig, size, k - 1);
      assert !BadCapacity(keys, asyncConfig, fields[0]);
    }
  }

  /** `d` is the decorator built for the configured field `f`: on the field's
      configuration with the field-name key set to the field's name, at the
      field's index, with the configured capacity (the default when the field
      has none) and the descriptor's field count. */
  predicate BuiltFor(keys: Keys, asyncConfig: map<string, map<string, string>>, size: int, f: FieldDescriptor, d: Decorator)
  {
    && f.name in asyncConfig
    && d.fieldConfiguration == asyncConfig[f.name][keys.fieldNameKey := f.name]
    && d.fieldIndex == f.index
    && ParseJavaInt(CapacityText(keys, asyncConfig[f.name])) == Some(d.capacity)
    && d.outputSize == size
  }

  /** One decorator per configured field, in field order: the k-th is built for
      the k-th configured field. */
  lemma {:induction false} DecoratorsPerField(keys: Keys, fields: seq<FieldDescriptor>, asyncConfig: map<string, map<string, string>>, size: int)
    requires Decorators(keys, fields, asyncConfig, size).Ok?
    ensures var ds := Decorators(keys, fields, asyncConfig, size).value;
            var cf := ConfiguredFields(fields, asyncConfig);
            |ds| == |cf| && forall k :: 0 <= k < |ds| ==> BuiltFor(keys, asyncConfig, size, cf[k], ds[k])
  {
    if fields != [] {
      var rest := fields[1..];
      var name := fields[0].name;
      DecoratorsPerField(keys, rest, asyncConfig, size);
      var later := Decorators(keys, rest, asyncConfig, size).value;
      var cr := ConfiguredFields(rest, asyncConfig);
      if name in asyncConfig {
        var d := DecoratorFor(keys, fields[0], asyncConfig[name], size);
        assert d.Ok? && BuiltFor(keys, asyncConfig, size, fields[0], d.value);
        var ds := [d.value] + later;
        var cf := [fields[0]] + cr;
        assert Decorators(keys, fields, asyncConfig, size).value == ds;
        assert ConfiguredFields(fields, asyncConfig) == cf;
        forall k | 0 <= k < |ds| ensures BuiltFor(keys, asyncConfig, size, cf[k], ds[k]) {
          if k > 0 {
            assert ds[k] == later[k - 1] && cf[k] == cr[k - 1];
          }
        }
      } else {
        assert Decorators(keys, fields, asyncConfig, size).value == later;
        assert ConfiguredFields(fields, asyncConfig) == cr;
      }
    }
  }

  /** The Ashiko post-processor with its Flink configuration and its descriptor registry. */
  class AshikoProcessor {
    const configuration: map<string, string>
    const asyncConfig: map<string, map<string, string>>
    const stencil: string -> seq<FieldDescriptor>
    const keys: Keys

    /** `asyncConfig` is the parsed form of `configuration[keys.asyncIoKey]`. */
    constructor (configuration: map<string, string>, asyncConfig: map<string, map<string, string>>,
                 stencil: string -> seq<FieldDescriptor>, keys: Keys)
      ensures this.configuration == configuration && this.asyncConfig == asyncConfig
      ensures this.stencil == stencil && this.keys == keys
    {
      this.configuration := configuration;
      this.asyncConfig := asyncConfig;
      this.stencil := stencil;
      this.keys := keys;
    }

    /** `Configuration.getString(key, "")`. */
    function GetString(key: string): string
    {
      if key in configuration then configuration[key] else ""
    }

    /** The name the output descriptor is looked up under. */
    function OutputDescriptorName(): string
    {
      GetString(keys.outputProtoClassPrefixKey) + "Message"
    }

    /** `process`: the column names and the decorated stream, or the
        `NumberFormatException` of the first configured field whose capacity is not a number. */
    method Process(dataStream: DataStream) returns (r: Result<(DataStream, array<Option<string>>), ProcessError>)
      requires WellIndexed(stencil(OutputDescriptorName()))
      ensures var fields := stencil(GetString(keys.outputProtoClassPrefixKey) + "Message");
              match Decorators(keys, fields, asyncConfig, |fields|)
              case Err(e) => r == Err(e)
              case Ok(ds) =>
                && r.Ok?
                && r.value.0 == DataStream(dataStream.source, dataStream.decorators + ds)
                && r.value.1[..] == ColumnNames(fields, asyncConfig)
    {
      var fields := stencil(OutputDescriptorName());
      var size := |fields|;
      var columnNames := new Option<string>[size](_ => None);
      var resultStream := dataStream;
      ghost var applied: seq<Decorator> := [];
      assert fields[0..] == fields;
      PrependEmpty(Decorators(keys, fields, asyncConfig, size));
      for i := 0 to size
        invariant resultStream == DataStream(dataStream.source, dataStream.decorators + applied)
        invariant forall k :: 0 <= k < size ==>
                    columnNames[k] == if k < i && fields[k].name in asyncConfig then Some(fields[k].name) else None
        invariant Decorators(keys, fields, asyncConfig, size) ==
                    Prepend(applied, Decorators(keys, fields[i..], asyncConfig, size))
      {
        var fieldDescriptor := fields[i];
        var fieldName := fieldDescriptor.name;
        assert fields[i..][0] == fieldDescriptor && fields[i..][1..] == fields[i + 1..];
        ghost var later := Decorators(keys, fields[i + 1..], asyncConfig, size);
        if fieldName !in asyncConfig {
          assert Decorators(keys, fields[i..], asyncConfig, size) == later;
          continue;
        }
        var fieldConfiguration := asyncConfig[fieldName];
        var capacityText := GetOrDefault(fieldConfiguration, keys.asyncIoCapacityKey, keys.asyncIoCapacityDefault);
        var capacity := ParseJavaInt(capacityText);
        if capacity.None? {
          return Err(NumberFormatException(capacityText));
        }
        var fieldIndex := fieldDescriptor.index;
        fieldConfiguration := fieldConfiguration[keys.fieldNameKey := fieldName];
        var streamDecorator := Decorator(fieldConfiguration, fieldIndex, capacity.value, size);
        columnNames[fieldIndex] := Some(fieldName);
        resultStream := Decorate(streamDecorator, resultStream);
        assert DecoratorFor(keys, fieldDescriptor, asyncConfig[fieldName], size) == Ok(streamDecorator);
        assert Decorators(keys, fields[i..], asyncConfig, size) == Prepend([streamDecorator], later);
        PrependPrepend(applied, [streamDecorator], later);
        applied := applied + [streamDecorator];
      }
      assert fields[size..] == [];
      return Ok((resultStream, columnNames));
    }
  }
}
