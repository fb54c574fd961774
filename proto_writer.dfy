/** The renderers as they run: each appends, piece by piece, to one shared
    writer, and each is proved to append exactly the text that `ProtoText`
    specifies. A renderer that meets an unsupported field kind returns
    false at once, leaving in the writer what it had written so far; its
    callers stop as well, as the throw from `TODO()` does. */
module ProtoWriter {
  import opened Descriptors
  import opened Sorting
  import opened Decimal
  import opened ProtoText
  import opened ProtoTextProperties

  /** The buffered writer the renderers append to. */
  class Writer {
    var buf: string

    constructor ()
      ensures buf == ""
    {
      buf := "";
    }

    method Write(s: string)
      modifies this
      ensures buf == old(buf) + s
    {
      buf := buf + s;
    }

    method NewLine()
      modifies this
      ensures buf == old(buf) + NL
    {
      buf := buf + NL;
    }
  }

  lemma ConcatStep<T>(xs: seq<T>, i: nat, line: T -> string)
    requires i < |xs|
    ensures Concat(xs[..i + 1], line) == Concat(xs[..i], line) + line(xs[i])
  {
    assert xs[..i + 1][..i] == xs[..i];
  }

  // ---------------------------------------------------------------- fields

  method WriteField(f: Field, w: Writer) returns (ok: bool)
    modifies w
    ensures w.buf == old(w.buf) + FieldOut(f).text && ok == FieldOut(f).ok
  {
    w.Write("\t");
    var token := TypeToken(f);
    if token.None? {
      return false;
    }
    ghost var start := old(w.buf);
    var rest := " " + f.name + " = " + IntText(f.number as int) + ";";
    w.Write(token.value);
    w.Write(rest);
    w.NewLine();
    ok := true;
    assert w.buf == start + FieldOut(f).text by {
      assert FieldOut(f).text == MemberLine(token.value + " " + f.name, f.number as int);
      FieldLineShape(token.value, f.name, IntText(f.number as int));
    }
  }

  /** A field line regrouped as the renderer writes it: tab, token, the rest, line break. */
  lemma FieldLineShape(token: string, name: string, digits: string)
    ensures "\t" + (token + " " + name) + " = " + digits + ";" + NL
         == "\t" + token + (" " + name + " = " + digits + ";") + NL
  {
    Append3("\t" + token, " " + name, " = ");
    Append3("\t" + token + " " + name + " = ", digits, ";");
    Append3("\t", token, " " + name);
    assert "\t" + (token + " " + name) + " = " + digits + ";"
        == "\t" + token + " " + name + " = " + digits + ";";
    assert "\t" + token + " " + name + " = " + digits + ";"
        == "\t" + token + (" " + name + " = " + digits + ";");
  }

  /** The `forEach` over the already sorted fields. */
  method WriteFieldLines(sorted: seq<Field>, w: Writer) returns (ok: bool)
    modifies w
    ensures w.buf == old(w.buf) + FieldLinesOut(sorted).text && ok == FieldLinesOut(sorted).ok
  {
    ghost var start := w.buf;
    ok := true;
    var i := 0;
    while i < |sorted| && ok
      invariant 0 <= i <= |sorted|
      invariant w.buf == start + FieldLinesOut(sorted[..i]).text
      invariant ok == FieldLinesOut(sorted[..i]).ok
    {
      assert sorted[..i + 1][..i] == sorted[..i];
      Append3(start, FieldLinesOut(sorted[..i]).text, FieldOut(sorted[i]).text);
      ok := WriteField(sorted[i], w);
      i := i + 1;
    }
    if ok {
      assert sorted[..i] == sorted;
    } else {
      FieldLinesStopAtFailure(sorted, i);
    }
  }

  method WriteFields(fs: seq<Field>, w: Writer) returns (ok: bool)
    modifies w
    ensures w.buf == old(w.buf) + FieldsOut(fs).text && ok == FieldsOut(fs).ok
  {
    ok := WriteFieldLines(StableSort(fs, FieldNumber), w);
  }

  // ----------------------------------------------------------------- enums

  method WriteEnumValue(v: EnumValue, w: Writer)
    modifies w
    ensures w.buf == old(w.buf) + EnumValueLine(v)
  {
    w.Write("\t");
    w.Write(v.name + " = " + IntText(v.number as int) + ";");
    w.NewLine();
  }

  method WriteEnumValues(vs: seq<EnumValue>, w: Writer)
    modifies w
    ensures w.buf == old(w.buf) + EnumValuesText(vs)
  {
    var sorted := StableSort(vs, ValueNumber);
    ghost var start := w.buf;
    for i := 0 to |sorted|
      invariant w.buf == start + Concat(sorted[..i], EnumValueLine)
    {
      ConcatStep(sorted, i, EnumValueLine);
      Append3(start, Concat(sorted[..i], EnumValueLine), EnumValueLine(sorted[i]));
      WriteEnumValue(sorted[i], w);
    }
    assert sorted[..|sorted|] == sorted;
  }

  method WriteEnum(e: Enum, w: Writer)
    modifies w
    ensures w.buf == old(w.buf) + EnumText(e)
  {
    ghost var start := w.buf;
    var header := "enum " + e.name + " {";
    w.Write(header);
    Append3(start, header, NL);
    w.NewLine();
    ghost var written := header + NL;
    Append3(start, written, EnumValuesText(e.values));
    WriteEnumValues(e.values, w);
    written := written + EnumValuesText(e.values);
    Append3(start, written, "}");
    w.Write("}");
    written := written + "}";
    Append3(start, written, NL);
    w.NewLine();
    written := written + NL;
    Append3(start, written, NL);
    w.NewLine();
  }

  method WriteEnums(es: seq<Enum>, w: Writer)
    modifies w
    ensures w.buf == old(w.buf) + EnumsText(es)
  {
    ghost var start := w.buf;
    for i := 0 to |es|
      invariant w.buf == start + Concat(es[..i], EnumText)
    {
      ConcatStep(es, i, EnumText);
      Append3(start, Concat(es[..i], EnumText), EnumText(es[i]));
      WriteEnum(es[i], w);
    }
    assert es[..|es|] == es;
  }

  // -------------------------------------------------------------- messages

  method WriteMessage(m: Message, w: Writer) returns (ok: bool)
    modifies w
    ensures w.buf == old(w.buf) + MessageOut(m).text && ok == MessageOut(m).ok
    decreases m
  {
    ghost var start := w.buf;
    var header := "message " + m.name + " {";
    w.Write(header);
    w.NewLine();
    Append3(start, header, NL);
    ghost var written := header + NL;
    ghost var nested := MessagesOut(m.nested);
    Append3(start, written, nested.text);
    ok := WriteMessages(m.nested, w);
    written := written + nested.text;
    if !ok {
      return;
    }
    Append3(start, written, EnumsText(m.enums));
    WriteEnums(m.enums, w);
    written := written + EnumsText(m.enums);
    ghost var fields := FieldsOut(m.fields);
    Append3(start, written, fields.text);
    ok := WriteFields(m.fields, w);
    written := written + fields.text;
    if !ok {
      return;
    }
    w.Write("}");
    w.NewLine();
    w.NewLine();
    assert w.buf == start + written + "}" + NL + NL;
    assert MessageOut(m).text == written + ("}" + NL + NL);
    Append3(start + written, "}", NL);
    Append3(start + written, "}" + NL, NL);
    Append3(start, written, "}" + NL + NL);
  }

  method WriteMessages(ms: seq<Message>, w: Writer) returns (ok: bool)
    modifies w
    ensures w.buf == old(w.buf) + MessagesOut(ms).text && ok == MessagesOut(ms).ok
    decreases ms
  {
    ghost var start := w.buf;
    ok := true;
    var i := 0;
    while i < |ms| && ok
      invariant 0 <= i <= |ms|
      invariant w.buf == start + MessagesOut(ms[..i]).text
      invariant ok == MessagesOut(ms[..i]).ok
    {
      assert ms[..i + 1][..i] == ms[..i];
      Append3(start, MessagesOut(ms[..i]).text, MessageOut(ms[i]).text);
      ok := WriteMessage(ms[i], w);
      i := i + 1;
    }
    if ok {
      assert ms[..i] == ms;
    } else {
      MessagesStopAtFailure(ms, i);
    }
  }

  // -------------------------------------------------------------- services

  /** The optional `stream ` marker in front of a method's request or response type. */
  method WriteStream(streaming: bool, w: Writer)
    modifies w
    ensures w.buf == old(w.buf) + Stream(streaming)
  {
    if streaming {
      w.Write("stream ");
    } else {
      assert w.buf + "" == w.buf;
    }
  }

  method WriteMethod(m: Method, w: Writer)
    modifies w
    ensures w.buf == old(w.buf) + MethodLine(m)
  {
    ghost var start := w.buf;
    w.Write("\t");
    ghost var written := "\t";
    var call := "rpc " + m.name + "(";
    Append3(start, written, call);
    w.Write(call);
    written := written + call;
    Append3(start, written, Stream(m.clientStreaming));
    WriteStream(m.clientStreaming, w);
    written := written + Stream(m.clientStreaming);
    var input := m.inputType + ")";
    Append3(start, written, input);
    w.Write(input);
    written := written + input;
    Append3(start, written, " returns (");
    w.Write(" returns (");
    written := written + " returns (";
    Append3(start, written, Stream(m.serverStreaming));
    WriteStream(m.serverStreaming, w);
    written := written + Stream(m.serverStreaming);
    var output := m.outputType + ");";
    Append3(start, written, output);
    w.Write(output);
    written := written + output;
    Append3(start, written, NL);
    w.NewLine();
  }

  method WriteMethods(methods: seq<Method>, w: Writer)
    modifies w
    ensures w.buf == old(w.buf) + Concat(methods, MethodLine)
  {
    ghost var start := w.buf;
    for j := 0 to |methods|
      invariant w.buf == start + Concat(methods[..j], MethodLine)
    {
      ConcatStep(methods, j, MethodLine);
      Append3(start, Concat(methods[..j], MethodLine), MethodLine(methods[j]));
      WriteMethod(methods[j], w);
    }
    assert methods[..|methods|] == methods;
  }

  method WriteService(s: Service, w: Writer)
    modifies w
    ensures w.buf == old(w.buf) + ServiceText(s)
  {
    ghost var start := w.buf;
    var header := "service " + s.name + " {";
    w.Write(header);
    Append3(start, header, NL);
    w.NewLine();
    ghost var opening := header + NL;
    Append3(start, opening, Concat(s.methods, MethodLine));
    WriteMethods(s.methods, w);
    ghost var written := opening + Concat(s.methods, MethodLine);
    Append3(start, written, "}");
    w.Write("}");
    Append3(start, written + "}", NL);
    w.NewLine();
  }

  method WriteServices(services: seq<Service>, w: Writer)
    modifies w
    ensures w.buf == old(w.buf) + Concat(services, ServiceText)
  {
    ghost var start := w.buf;
    for i := 0 to |services|
      invariant w.buf == start + Concat(services[..i], ServiceText)
    {
      ConcatStep(services, i, ServiceText);
      Append3(start, Concat(services[..i], ServiceText), ServiceText(services[i]));
      WriteService(services[i], w);
    }
    assert services[..|services|] == services;
  }

  // ------------------------------------------------------------------ file

  method WriteOption(o: OptionEntry, w: Writer)
    modifies w
    ensures w.buf == old(w.buf) + OptionLine(o)
  {
    ghost var start := w.buf;
    w.Write("option ");
    ghost var written := "option ";
    Append3(start, written, o.name);
    w.Write(o.name);
    written := written + o.name;
    Append3(start, written, " = ");
    w.Write(" = ");
    written := written + " = ";
    var value := if o.isString then "\"" + o.value + "\"" else o.value;
    Append3(start, written, value);
    if o.isString {
      w.Write("\"" + o.value + "\"");
    } else {
      w.Write(o.value);
    }
    written := written + value;
    Append3(start, written, ";");
    w.Write(";");
    written := written + ";";
    Append3(start, written, NL);
    w.NewLine();
  }

  method WriteImport(dependency: string, w: Writer)
    modifies w
    ensures w.buf == old(w.buf) + ImportLine(dependency)
  {
    var line := "import \"" + dependency + "\";";
    Append3(w.buf, line, NL);
    w.Write(line);
    w.NewLine();
  }

  method WriteOptions(options: seq<OptionEntry>, w: Writer)
    modifies w
    ensures w.buf == old(w.buf) + Concat(options, OptionLine)
  {
    ghost var start := w.buf;
    for i := 0 to |options|
      invariant w.buf == start + Concat(options[..i], OptionLine)
    {
      ConcatStep(options, i, OptionLine);
      Append3(start, Concat(options[..i], OptionLine), OptionLine(options[i]));
      WriteOption(options[i], w);
    }
    assert options[..|options|] == options;
  }

  method WriteImports(dependencies: seq<string>, w: Writer)
    modifies w
    ensures w.buf == old(w.buf) + Concat(dependencies, ImportLine)
  {
    ghost var start := w.buf;
    for i := 0 to |dependencies|
      invariant w.buf == start + Concat(dependencies[..i], ImportLine)
    {
      ConcatStep(dependencies, i, ImportLine);
      Append3(start, Concat(dependencies[..i], ImportLine), ImportLine(dependencies[i]));
      WriteImport(dependencies[i], w);
    }
    assert dependencies[..|dependencies|] == dependencies;
  }

  /** Syntax, package, options and imports, then a blank line. */
  method WriteFileHeader(f: File, w: Writer)
    modifies w
    ensures w.buf == old(w.buf) + FileHeader(f)
  {
    ghost var start := w.buf;
    var syntax := "syntax = \"" + f.syntax + "\";";
    w.Write(syntax);
    Append3(start, syntax, NL);
    w.NewLine();
    ghost var written := syntax + NL;
    var package := "package " + f.package + ";";
    Append3(start, written, package);
    w.Write(package);
    written := written + package;
    Append3(start, written, NL);
    w.NewLine();
    written := written + NL;

    Append3(start, written, Concat(f.options, OptionLine));
    WriteOptions(f.options, w);
    written := written + Concat(f.options, OptionLine);
    Append3(start, written, Concat(f.dependencies, ImportLine));
    WriteImports(f.dependencies, w);
    written := written + Concat(f.dependencies, ImportLine);

    Append3(start, written, NL);
    w.NewLine();
    written := written + NL;
    assert written == FileHeader(f);
  }

  /** Renders one file descriptor: the body of `use { writer -> ... }`. */
  method WriteFile(f: File, w: Writer) returns (ok: bool)
    modifies w
    ensures w.buf == old(w.buf) + FileOut(f).text && ok == FileOut(f).ok
  {
    ghost var start := w.buf;
    WriteFileHeader(f, w);
    ghost var written := FileHeader(f);
    ghost var messages := MessagesOut(f.messages);
    Append3(start, written, messages.text);
    ok := WriteMessages(f.messages, w);
    written := written + messages.text;
    if !ok {
      return;
    }
    Append3(start, written, EnumsText(f.enums));
    WriteEnums(f.enums, w);
    written := written + EnumsText(f.enums);
    Append3(start, written, Concat(f.services, ServiceText));
    WriteServices(f.services, w);
  }
}
