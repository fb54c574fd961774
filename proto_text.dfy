/** The `.proto` text the renderer produces for each descriptor, as pure
    functions. A rendering step that hits an unsupported field kind throws
    in the renderer; here it yields an `Emit` whose `ok` is false and whose
    text is what had been written before the throw. */
module ProtoText {
  import opened Wrappers
  import opened Descriptors
  import opened Sorting
  import opened Decimal

  /** What `newLine()` writes. */
  const NL: string := "\n"

  /** Text written so far, and whether rendering is still going. */
  datatype Emit = Emit(text: string, ok: bool)

  function Done(text: string): Emit { Emit(text, true) }

  /** Runs `b` after `a`; once `a` has failed nothing more is written. */
  function Then(a: Emit, b: Emit): Emit
  {
    if a.ok then Emit(a.text + b.text, b.ok) else a
  }

  /** Regrouping a concatenation, stated once so that proofs can name each step. */
  lemma Append3(a: string, b: string, c: string)
    ensures (a + b) + c == a + (b + c)
  {
  }

  /** Concatenation of `line(x)` for the elements of `xs`, in order. */
  function Concat<T>(xs: seq<T>, line: T -> string): string
  {
    if xs == [] then "" else Concat(xs[..|xs| - 1], line) + line(xs[|xs| - 1])
  }

  // ---------------------------------------------------------------- fields

  /** The kinds for which the renderer has no keyword and calls `TODO()`. */
  predicate Unsupported(k: FieldType)
  {
    k.TypeFixed64? || k.TypeFixed32? || k.TypeGroup? || k.TypeUint32? ||
    k.TypeSfixed32? || k.TypeSfixed64? || k.TypeSint32? || k.TypeSint64?
  }

  /** The token written before a field's name; `None` where the source throws. */
  function TypeToken(f: Field): Option<string>
  {
    match f.kind
    case TypeDouble => Some("double")
    case TypeFloat => Some("float")
    case TypeInt64 => Some("int64")
    case TypeUint64 => Some("uint64")
    case TypeInt32 => Some("int32")
    case TypeFixed64 => None
    case TypeFixed32 => None
    case TypeBool => Some("bool")
    case TypeString => Some("string")
    case TypeGroup => None
    case TypeMessage => Some(f.typeName)
    case TypeBytes => Some("bytes")
    case TypeUint32 => None
    case TypeEnum => Some(f.typeName)
    case TypeSfixed32 => None
    case TypeSfixed64 => None
    case TypeSint32 => None
    case TypeSint64 => None
  }

  /** One member line `\t<lhs> = <number>;`. */
  function MemberLine(lhs: string, number: int): string
  {
    "\t" + lhs + " = " + IntText(number) + ";" + NL
  }

  /** A field: the tab is written before the token is looked up. */
  function FieldOut(f: Field): Emit
  {
    match TypeToken(f)
    case None => Emit("\t", false)
    case Some(token) => Done(MemberLine(token + " " + f.name, f.number as int))
  }

  function FieldLinesOut(fs: seq<Field>): Emit
  {
    if fs == [] then Done("") else Then(FieldLinesOut(fs[..|fs| - 1]), FieldOut(fs[|fs| - 1]))
  }

  /** A message's fields, in ascending number order. */
  function FieldsOut(fs: seq<Field>): Emit
  {
    FieldLinesOut(StableSort(fs, FieldNumber))
  }

  // ----------------------------------------------------------------- enums

  function EnumValueLine(v: EnumValue): string
  {
    MemberLine(v.name, v.number as int)
  }

  /** An enum's values, in ascending number order. */
  function EnumValuesText(vs: seq<EnumValue>): string
  {
    Concat(StableSort(vs, ValueNumber), EnumValueLine)
  }

  function EnumText(e: Enum): string
  {
    ("enum " + e.name + " {") + NL + EnumValuesText(e.values) + "}" + NL + NL
  }

  function EnumsText(es: seq<Enum>): string
  {
    Concat(es, EnumText)
  }

  // -------------------------------------------------------------- messages

  /** A message: header, nested messages, nested enums, sorted fields, close. */
  function MessageOut(m: Message): Emit
    decreases m
  {
    Then(Then(Then(Then(
      Done("message " + m.name + " {" + NL),
      MessagesOut(m.nested)),
      Done(EnumsText(m.enums))),
      FieldsOut(m.fields)),
      Done("}" + NL + NL))
  }

  function MessagesOut(ms: seq<Message>): Emit
    decreases ms
  {
    if ms == [] then Done("")
    else Then(MessagesOut(ms[..|ms| - 1]), MessageOut(ms[|ms| - 1]))
  }

  // -------------------------------------------------------------- services

  function Stream(streaming: bool): string
  {
    if streaming then "stream " else ""
  }

  /** A method line; the parts are grouped as the renderer writes them. */
  function MethodLine(m: Method): string
  {
    "\t" + ("rpc " + m.name + "(") + Stream(m.clientStreaming) + (m.inputType + ")")
      + " returns (" + Stream(m.serverStreaming) + (m.outputType + ");") + NL
  }

  function ServiceText(s: Service): string
  {
    ("service " + s.name + " {") + NL + Concat(s.methods, MethodLine) + "}" + NL
  }

  // ------------------------------------------------------------------ file

  /** An option statement; only STRING-kind values are quoted, and nothing
      inside the value is escaped. */
  function OptionLine(o: OptionEntry): string
  {
    "option " + o.name + " = "
      + (if o.isString then "\"" + o.value + "\"" else o.value) + ";" + NL
  }

  function ImportLine(dependency: string): string
  {
    ("import \"" + dependency + "\";") + NL
  }

  /** Everything before the first message: syntax, package (even when it is
      empty), options, imports and one blank line. */
  function FileHeader(f: File): string
  {
    ("syntax = \"" + f.syntax + "\";") + NL
      + ("package " + f.package + ";") + NL
      + Concat(f.options, OptionLine)
      + Concat(f.dependencies, ImportLine)
      + NL
  }

  function FileOut(f: File): Emit
  {
    Then(Then(Then(
      Done(FileHeader(f)),
      MessagesOut(f.messages)),
      Done(EnumsText(f.enums))),
      Done(Concat(f.services, ServiceText)))
  }
}
