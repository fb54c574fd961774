# proto-decompiler renderer, modelled in Dafny

The repository turns a compiled Protocol Buffers descriptor set back into
`.proto` source text. Its core is the renderer in `writer.kt`. The renderer
walks a decoded descriptor tree and appends text to one shared buffered writer:

- a file contributes syntax, package, options, imports, a blank line, its
  messages, its enums and its services;
- a message contributes its header, its nested messages (recursively), its
  nested enums, its fields sorted by number and a closing brace;
- an enum contributes its header, its values sorted by number and a closing brace;
- a service contributes its header, one `rpc` line per method and a closing brace.

The project has three layers:

- `descriptors.dfy`: the descriptor tree as datatypes. The renderer never
  changes the tree, so every entity is a value. Field and enum-value numbers
  are 32-bit (`Int32`).
- `sorting.dfy`, `decimal.dfy` and `proto_text.dfy`: pure specification
  functions. `StableSort` models Kotlin's stable `sortedBy`, `IntText` models
  the decimal rendering of `$number`, and `ProtoText` gives the text each
  renderer produces. `TypeToken` is the type-keyword `when`.
- `proto_writer.dfy`: the renderers as imperative methods over a `Writer`
  class whose `buf` plays the buffered writer. Each method has a loop wherever
  the source has a `forEach`. Each ensures that it appends exactly the
  specified text (`w.buf == old(w.buf) + …`).

The kinds FIXED64, FIXED32, GROUP, UINT32, SFIXED32, SFIXED64, SINT32 and
SINT64 reach `TODO()` in the source, which throws. The model treats this as a
failure result:

- the text functions return an `Emit(text, ok)`, where `text` is what had been
  written before the throw;
- the methods return `ok = false` and stop, and so do all their callers.

The field renderer writes its leading tab *before* the `when` runs. A failing
field therefore leaves `"\t"` behind. Because `use` closes the writer on the
way out, that partial text is what the output file holds. The model keeps it.

`proto_text_properties.dfy` proves the following properties about those
text functions:

- **Order.** Fields and enum values come out sorted, as a permutation of the
  input, stably. With unique numbers, the input order does not matter.
- **Failure.** Rendering fails exactly when an unsupported kind occurs
  somewhere in the tree.
- **Round trips.** Member lines read back to their parts, and so do the two
  streaming flags of a method line. Numbers read back from their decimal text.
- **Line count.** An enum gives one value line per entry, so duplicates are kept.
- **A worked example.** A complete file rendering.

Behaviours of the renderer that the model keeps:

- A field of an unsupported kind leaves its leading `"\t"` in the output:
  `write("\t")` runs before the `when` reaches `TODO()` (writer.kt:114-116).
- Message rendering recurses into nested messages with no limit on the
  depth (writer.kt:99).
- The first unsupported field ends the rendering of the whole file; nothing
  after it is written and no later error is reported.
- Fields and enum values that share a number keep their input order, since
  `sortedBy` is stable (writer.kt:110, 158).

## Model

| member | source | states |
|---|---|---|
| Sorting.SortIsSorted | src/main/kotlin/com/systems51/protodecomplier/writer.kt:109-111 | `sortedBy { it.number }` yields keys in ascending order |
| Sorting.SortIsPermutation | src/main/kotlin/com/systems51/protodecomplier/writer.kt:109-111 | the sorted list has the same multiset of elements as the input (nothing dropped, duplicated or merged) and the same length |
| Sorting.SortIsStable | src/main/kotlin/com/systems51/protodecomplier/writer.kt:157-159 | for every key, the elements carrying it keep their input order (stability of `sortedBy`) |
| Sorting.StableSortIsTheStableOrder | src/main/kotlin/com/systems51/protodecomplier/writer.kt:157-159 | any ascending arrangement that keeps the input order within each key equals the sort's output, so the output is fully determined |
| Sorting.SortForgetsOrder | src/main/kotlin/com/systems51/protodecomplier/writer.kt:109-111 | two arrangements of the same elements with unique keys sort to the same sequence |
| Decimal.NatText | src/main/kotlin/com/systems51/protodecomplier/writer.kt:137 | the decimal text of a number is non-empty, all digits, with no leading zero except for 0 itself |
| Decimal.IntTextRoundTrip | src/main/kotlin/com/systems51/protodecomplier/writer.kt:137 | parsing the rendered `$number` gives back the number, negative numbers included |
| Decimal.IntTextChars | src/main/kotlin/com/systems51/protodecomplier/writer.kt:163 | the rendered number is non-empty, holds only digits apart from its first character, and starts with '-' exactly when it is negative |
| ProtoTextProperties.TypeTokenDefined | src/main/kotlin/com/systems51/protodecomplier/writer.kt:116-135 | the `when` yields a token exactly for the eight supported scalar kinds plus message and enum; message and enum fields use `typeName` verbatim |
| ProtoTextProperties.FieldOutFails | src/main/kotlin/com/systems51/protodecomplier/writer.kt:113-136 | a field renders exactly when its kind is supported; an unsupported one fails after writing only the tab |
| ProtoTextProperties.FieldLinesOk | src/main/kotlin/com/systems51/protodecomplier/writer.kt:110 | the `forEach` over fields completes iff every field has a supported kind |
| ProtoTextProperties.FieldsOk | src/main/kotlin/com/systems51/protodecomplier/writer.kt:109-111 | a field list renders iff all of its fields are supported, in whatever order they come |
| ProtoTextProperties.FieldOrderIrrelevant | src/main/kotlin/com/systems51/protodecomplier/writer.kt:109-111 | with unique field numbers, the field text does not depend on the declaration order |
| ProtoTextProperties.FieldLinesStopAtFailure | src/main/kotlin/com/systems51/protodecomplier/writer.kt:110 | once a field has failed, later fields add nothing (the throw ends the loop) |
| ProtoTextProperties.MessageOk | src/main/kotlin/com/systems51/protodecomplier/writer.kt:95-106 | a message renders in full iff its fields and, recursively, its nested messages' fields are all supported |
| ProtoTextProperties.MessagesOk | src/main/kotlin/com/systems51/protodecomplier/writer.kt:91-93 | a message list renders iff each message in it does |
| ProtoTextProperties.MessagesStopAtFailure | src/main/kotlin/com/systems51/protodecomplier/writer.kt:92 | once a message has failed, later messages add nothing |
| ProtoTextProperties.FileOk | src/main/kotlin/com/systems51/protodecomplier/writer.kt:25-86 | a file renders in full iff its top-level messages do; header, enums and services never fail |
| ProtoTextProperties.MemberLineRoundTrip | src/main/kotlin/com/systems51/protodecomplier/writer.kt:137-138 | every `\t<lhs> = <number>;` line reads back to its left-hand side and number, whatever the left-hand side holds (the number never contains '=') |
| ProtoTextProperties.FieldLineRoundTrip | src/main/kotlin/com/systems51/protodecomplier/writer.kt:113-139 | a supported field line reads back to `<token> <name>` and the field number |
| ProtoTextProperties.EnumValueLineRoundTrip | src/main/kotlin/com/systems51/protodecomplier/writer.kt:161-165 | an enum value line reads back to the value's name and number |
| ProtoTextProperties.EnumValueLineCount | src/main/kotlin/com/systems51/protodecomplier/writer.kt:157-165 | an enum's value block has exactly one line per value entry, duplicate numbers included |
| ProtoTextProperties.MethodLineFlags | src/main/kotlin/com/systems51/protodecomplier/writer.kt:65-74 | the client and server `stream ` markers are read back from a method line independently of each other |
| ProtoTextProperties.FooFieldsSorted | src/main/kotlin/com/systems51/protodecomplier/writer.kt:110 | fields declared as `label = 2`, `id = 1` are rendered `id` first |
| ProtoTextProperties.FooIdLine | src/main/kotlin/com/systems51/protodecomplier/writer.kt:113-139 | an int64 field `id = 1` renders as `\tint64 id = 1;` |
| ProtoTextProperties.FooLabelLine | src/main/kotlin/com/systems51/protodecomplier/writer.kt:113-139 | a string field `label = 2` renders as `\tstring label = 2;` |
| ProtoTextProperties.FooFieldsText | src/main/kotlin/com/systems51/protodecomplier/writer.kt:109-111 | the two example fields render in number order |
| ProtoTextProperties.FooMessageText | src/main/kotlin/com/systems51/protodecomplier/writer.kt:95-106 | message `Foo` renders as header, sorted field lines, `}` and a blank line |
| ProtoTextProperties.FooFileHeader | src/main/kotlin/com/systems51/protodecomplier/writer.kt:27-52 | the example file's header is its syntax line, its package line and one blank line |
| ProtoTextProperties.FooFileText | src/main/kotlin/com/systems51/protodecomplier/writer.kt:25-86 | the whole example file renders to the expected text, line by line |
| ProtoTextProperties.EmptyPackageLine | src/main/kotlin/com/systems51/protodecomplier/writer.kt:30-31 | for every file whose package is empty, the header still holds the line `package ;` between the syntax line and the options, imports and blank line |
| ProtoWriter.Writer.constructor | src/main/kotlin/com/systems51/protodecomplier/writer.kt:25 | a new writer holds no text |
| ProtoWriter.Writer.Write | src/main/kotlin/com/systems51/protodecomplier/writer.kt:27 | `write` appends its argument and nothing else |
| ProtoWriter.Writer.NewLine | src/main/kotlin/com/systems51/protodecomplier/writer.kt:28 | `newLine` appends one line break |
| ProtoWriter.WriteField | src/main/kotlin/com/systems51/protodecomplier/writer.kt:113-139 | appends exactly the field's text, and reports failure exactly when `FieldOut` fails |
| ProtoWriter.WriteFieldLines | src/main/kotlin/com/systems51/protodecomplier/writer.kt:110 | the `forEach` loop appends the lines of the sorted fields, stopping at the first failure |
| ProtoWriter.WriteFields | src/main/kotlin/com/systems51/protodecomplier/writer.kt:109-111 | appends the fields' text in ascending number order |
| ProtoWriter.WriteEnumValue | src/main/kotlin/com/systems51/protodecomplier/writer.kt:161-165 | appends `\t<name> = <number>;` and a line break |
| ProtoWriter.WriteEnumValues | src/main/kotlin/com/systems51/protodecomplier/writer.kt:157-159 | appends the value lines in ascending number order |
| ProtoWriter.WriteEnum | src/main/kotlin/com/systems51/protodecomplier/writer.kt:146-155 | appends the enum header, its sorted values, `}` and a blank line |
| ProtoWriter.WriteEnums | src/main/kotlin/com/systems51/protodecomplier/writer.kt:142-144 | appends every enum in list order |
| ProtoWriter.WriteMessage | src/main/kotlin/com/systems51/protodecomplier/writer.kt:95-106 | appends header, nested messages, nested enums, sorted fields and close, stopping at the first failure |
| ProtoWriter.WriteMessages | src/main/kotlin/com/systems51/protodecomplier/writer.kt:91-93 | appends every message in list order, stopping at the first failure |
| ProtoWriter.WriteStream | src/main/kotlin/com/systems51/protodecomplier/writer.kt:65-67 | appends `stream ` iff the flag is set |
| ProtoWriter.WriteMethod | src/main/kotlin/com/systems51/protodecomplier/writer.kt:61-78 | appends exactly the method's `rpc` line |
| ProtoWriter.WriteMethods | src/main/kotlin/com/systems51/protodecomplier/writer.kt:61 | appends one `rpc` line per method, in list order |
| ProtoWriter.WriteService | src/main/kotlin/com/systems51/protodecomplier/writer.kt:58-81 | appends the service header, its methods and `}` with one line break |
| ProtoWriter.WriteServices | src/main/kotlin/com/systems51/protodecomplier/writer.kt:57-82 | appends every service in list order |
| ProtoWriter.WriteOption | src/main/kotlin/com/systems51/protodecomplier/writer.kt:34-44 | appends `option <name> = <value>;`, quoting the value iff its kind is STRING |
| ProtoWriter.WriteOptions | src/main/kotlin/com/systems51/protodecomplier/writer.kt:33-45 | appends one option line per entry, in the given order |
| ProtoWriter.WriteImport | src/main/kotlin/com/systems51/protodecomplier/writer.kt:48-49 | appends `import "<dependency>";` and a line break |
| ProtoWriter.WriteImports | src/main/kotlin/com/systems51/protodecomplier/writer.kt:47-50 | appends one import line per dependency, in declared order |
| ProtoWriter.WriteFileHeader | src/main/kotlin/com/systems51/protodecomplier/writer.kt:27-52 | appends syntax, package, options, imports and one blank line |
| ProtoWriter.WriteFile | src/main/kotlin/com/systems51/protodecomplier/writer.kt:25-86 | appends the whole file's text, stopping at the first unsupported field |

## Left out

- `decompile` and `FileDescriptorSet.writeProto` (writer.kt:8-23) are left out. They read the input file, decode it with the protobuf library's `parseFrom`, log with `println` and create directories and files. All of that is I/O or foreign code.
- `flush` and the closing done by `use` are left out. They only move the buffer to disk; the model's `buf` is the text that reaches the file.
- `newLine()` writes the platform line separator. The model fixes it as `"\n"` (`ProtoText.NL`).
- The order of `options.allFields` comes from the protobuf library. The model takes the option entries as a given sequence.
- `value.toString()` for non-string option values is foreign code. The model takes each value as a pre-rendered string.
- The option's declared kind is reduced to the `isString` flag, the only thing the renderer checks.
- The model does not capture the exception's type or message. An unsupported kind is a failure flag together with the text written so far.
- `main.kt` is not part of this model. It is a command-line wrapper that only parses arguments.
- `build.gradle.kts` is not part of this model. It is build configuration.
- ProtoTextProperties.MethodLineFlags: requires a method name without '(' and type names without spaces or ')'. Fully qualified protobuf type names never contain these characters.
- ProtoTextProperties.EnumValueLineCount: requires value names without line breaks.
