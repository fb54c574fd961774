/** The decoded descriptor tree that the renderer reads. Every entity is a
    value: the renderer never changes the tree it is given. */
module Descriptors {

  /** A Java `Int`, the width of descriptor field and enum-value numbers. */
  newtype Int32 = x: int | -0x8000_0000 <= x < 0x8000_0000

  /** The declared kind of a field, one constructor per protobuf field type. */
  datatype FieldType =
    | TypeDouble | TypeFloat | TypeInt64 | TypeUint64 | TypeInt32
    | TypeFixed64 | TypeFixed32 | TypeBool | TypeString | TypeGroup
    | TypeMessage | TypeBytes | TypeUint32 | TypeEnum
    | TypeSfixed32 | TypeSfixed64 | TypeSint32 | TypeSint64

  /** A field: `typeName` is the referenced type, read only for message and enum fields. */
  datatype Field = Field(name: string, number: Int32, kind: FieldType, typeName: string)

  datatype EnumValue = EnumValue(name: string, number: Int32)

  datatype Enum = Enum(name: string, values: seq<EnumValue>)

  /** A message and, recursively, the messages and enums declared inside it. */
  datatype Message = Message(name: string, nested: seq<Message>, enums: seq<Enum>, fields: seq<Field>)

  datatype Method = Method(
    name: string,
    inputType: string,
    outputType: string,
    clientStreaming: bool,
    serverStreaming: bool)

  datatype Service = Service(name: string, methods: seq<Method>)

  /** One file-level option: its declared name, whether its declared kind is
      STRING, and its value already turned into text by the protobuf library. */
  datatype OptionEntry = OptionEntry(name: string, isString: bool, value: string)

  datatype File = File(
    name: string,
    package: string,
    syntax: string,
    options: seq<OptionEntry>,
    dependencies: seq<string>,
    messages: seq<Message>,
    enums: seq<Enum>,
    services: seq<Service>)

  /** The sort keys used by the renderer's `sortedBy { it.number }`. */
  function FieldNumber(f: Field): int { f.number as int }

  function ValueNumber(v: EnumValue): int { v.number as int }
}
