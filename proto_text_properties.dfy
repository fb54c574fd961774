/** What the rendered text promises: which descriptors render at all,
    that member lines carry their names and numbers recoverably, and how
    a failure stops the output. */
module ProtoTextProperties {
  import opened Wrappers
  import opened Descriptors
  import opened Sorting
  import opened Decimal
  import opened ProtoText

  // ------------------------------------------------------ which trees render

  /** Every field in the message and, recursively, in its nested messages
      has a kind the renderer supports. */
  ghost predicate Renderable(m: Message)
    decreases m
  {
    AllSupported(m.fields) &&
    (forall n :: n in m.nested ==> Renderable(n))
  }

  /** The type token exists exactly for the supported kinds, and message
      and enum fields use their type name verbatim. */
  lemma TypeTokenDefined(f: Field)
    ensures TypeToken(f).Some? <==> !Unsupported(f.kind)
    ensures f.kind == TypeMessage || f.kind == TypeEnum ==> TypeToken(f) == Some(f.typeName)
  {
  }

  /** An unsupported field fails after writing only its leading tab. */
  lemma FieldOutFails(f: Field)
    ensures FieldOut(f).ok <==> !Unsupported(f.kind)
    ensures !FieldOut(f).ok ==> FieldOut(f).text == "\t"
  {
  }

  ghost predicate AllSupported(fs: seq<Field>)
  {
    forall f :: f in fs ==> !Unsupported(f.kind)
  }

  lemma AllSupportedSnoc(fs: seq<Field>)
    requires fs != []
    ensures AllSupported(fs) <==> AllSupported(fs[..|fs| - 1]) && !Unsupported(fs[|fs| - 1].kind)
  {
    assert fs == fs[..|fs| - 1] + [fs[|fs| - 1]];
  }

  lemma {:induction false} FieldLinesOk(fs: seq<Field>)
    ensures FieldLinesOut(fs).ok <==> AllSupported(fs)
  {
    if fs != [] {
      var init, last := fs[..|fs| - 1], fs[|fs| - 1];
      FieldLinesOk(init);
      FieldOutFails(last);
      AllSupportedSnoc(fs);
      assert FieldLinesOut(fs).ok <==> FieldLinesOut(init).ok && FieldOut(last).ok;
    }
  }

  /** A field list renders exactly when every one of its fields has a
      supported kind, whatever their order. */
  lemma FieldsOk(fs: seq<Field>)
    ensures FieldsOut(fs).ok <==> AllSupported(fs)
  {
    var sorted := StableSort(fs, FieldNumber);
    SortIsPermutation(fs, FieldNumber);
    FieldLinesOk(sorted);
    forall f ensures f in fs <==> f in sorted {
      assert f in fs <==> f in multiset(fs);
      assert f in sorted <==> f in multiset(sorted);
    }
  }

  /** The fields of a message have distinct numbers, so declaring them in
      another order gives the same text. */
  lemma FieldOrderIrrelevant(fs: seq<Field>, gs: seq<Field>)
    requires multiset(fs) == multiset(gs)
    requires UniqueKeys(fs, FieldNumber) && UniqueKeys(gs, FieldNumber)
    ensures FieldsOut(fs) == FieldsOut(gs)
  {
    SortForgetsOrder(fs, gs, FieldNumber);
  }

  /** A message renders exactly when it is `Renderable`. */
  lemma {:induction false} MessageOk(m: Message)
    ensures MessageOut(m).ok <==> Renderable(m)
    decreases m
  {
    MessagesOk(m.nested);
    FieldsOk(m.fields);
  }

  lemma {:induction false} MessagesOk(ms: seq<Message>)
    ensures MessagesOut(ms).ok <==> forall m :: m in ms ==> Renderable(m)
    decreases ms
  {
    if ms != [] {
      var init, last := ms[..|ms| - 1], ms[|ms| - 1];
      MessagesOk(init);
      MessageOk(last);
      assert MessagesOut(ms).ok <==> MessagesOut(init).ok && MessageOut(last).ok;
      assert (forall m :: m in ms ==> Renderable(m))
        <==> (forall m :: m in init ==> Renderable(m)) && Renderable(last) by {
        assert ms == init + [last];
      }
    }
  }

  /** A file renders in full exactly when each of its top-level messages
      does; enums, options and services never fail. */
  lemma FileOk(f: File)
    ensures FileOut(f).ok <==> forall m :: m in f.messages ==> Renderable(m)
  {
    MessagesOk(f.messages);
  }

  // ------------------------------------------------------ failure is final

  /** Once a prefix of the fields has failed, the rest adds nothing. */
  lemma {:induction false} FieldLinesStopAtFailure(fs: seq<Field>, i: nat)
    requires i <= |fs|
    requires !FieldLinesOut(fs[..i]).ok
    ensures FieldLinesOut(fs) == FieldLinesOut(fs[..i])
    decreases |fs| - i
  {
    if i < |fs| {
      assert fs[..i + 1][..i] == fs[..i];
      FieldLinesStopAtFailure(fs, i + 1);
    } else {
      assert fs[..i] == fs;
    }
  }

  /** Once a prefix of the messages has failed, the rest adds nothing. */
  lemma {:induction false} MessagesStopAtFailure(ms: seq<Message>, i: nat)
    requires i <= |ms|
    requires !MessagesOut(ms[..i]).ok
    ensures MessagesOut(ms) == MessagesOut(ms[..i])
    decreases |ms| - i
  {
    if i < |ms| {
      assert ms[..i + 1][..i] == ms[..i];
      MessagesStopAtFailure(ms, i + 1);
    } else {
      assert ms[..i] == ms;
    }
  }

  // ------------------------------------------------------------ line counts

  /** How many times `c` occurs in `s`. */
  function Occurrences(s: string, c: char): (r: nat)
    ensures r <= |s|
    ensures r == 0 <==> c !in s
  {
    if s == [] then 0
    else Occurrences(s[..|s| - 1], c) + (if s[|s| - 1] == c then 1 else 0)
  }

  lemma {:induction false} OccurrencesAppend(a: string, b: string, c: char)
    ensures Occurrences(a + b, c) == Occurrences(a, c) + Occurrences(b, c)
  {
    if b != [] {
      assert (a + b)[..|a + b| - 1] == a + b[..|b| - 1];
      OccurrencesAppend(a, b[..|b| - 1], c);
    } else {
      assert a + b == a;
    }
  }

  /** A member line holds exactly one line break when its left-hand side holds none. */
  lemma MemberLineBreaks(lhs: string, n: int)
    requires '\n' !in lhs
    ensures Occurrences(MemberLine(lhs, n), '\n') == 1
  {
    var digits := IntText(n);
    IntTextChars(n);
    assert '\n' !in digits;
    OccurrencesAppend("\t", lhs, '\n');
    OccurrencesAppend("\t" + lhs, " = ", '\n');
    OccurrencesAppend("\t" + lhs + " = ", digits, '\n');
    OccurrencesAppend("\t" + lhs + " = " + digits, ";", '\n');
    OccurrencesAppend("\t" + lhs + " = " + digits + ";", NL, '\n');
  }

  lemma {:induction false} ValueLinesBreaks(vs: seq<EnumValue>)
    requires forall v :: v in vs ==> '\n' !in v.name
    ensures Occurrences(Concat(vs, EnumValueLine), '\n') == |vs|
  {
    if vs != [] {
      var init, last := vs[..|vs| - 1], vs[|vs| - 1];
      assert forall v :: v in init ==> v in vs;
      ValueLinesBreaks(init);
      MemberLineBreaks(last.name, last.number as int);
      OccurrencesAppend(Concat(init, EnumValueLine), EnumValueLine(last), '\n');
    }
  }

  /** An enum's value block has one line per value entry: values that share
      a number are all kept, none is merged away. */
  lemma EnumValueLineCount(vs: seq<EnumValue>)
    requires forall v :: v in vs ==> '\n' !in v.name
    ensures Occurrences(EnumValuesText(vs), '\n') == |vs|
  {
    var sorted := StableSort(vs, ValueNumber);
    SortIsPermutation(vs, ValueNumber);
    forall v | v in sorted ensures '\n' !in v.name {
      assert v in multiset(sorted);
    }
    ValueLinesBreaks(sorted);
  }

  // ------------------------------------------------------ reading lines back

  function IndexOf(s: string, c: char): (r: Option<nat>)
    ensures r.None? ==> c !in s
    ensures r.Some? ==> r.value < |s| && s[r.value] == c && c !in s[..r.value]
  {
    if s == [] then None
    else if s[0] == c then Some(0)
    else match IndexOf(s[1..], c)
      case None => None
      case Some(i) => assert s[..i + 1] == [s[0]] + s[1..][..i]; Some(i + 1)
  }

  /** The position of the last `c` in `s`. */
  function LastIndexOf(s: string, c: char): (r: Option<nat>)
    ensures r.None? ==> c !in s
    ensures r.Some? ==> r.value < |s| && s[r.value] == c && c !in s[r.value + 1..]
  {
    if s == [] then None
    else if s[|s| - 1] == c then Some(|s| - 1)
    else match LastIndexOf(s[..|s| - 1], c)
      case None => None
      case Some(i) => assert s[i + 1..] == s[..|s| - 1][i + 1..] + [s[|s| - 1]]; Some(i)
  }

  /** Splits `<lhs> = <rhs>` at its last '='; the number on the right never holds one. */
  function ParseAssignment(body: string): Option<(string, int)>
  {
    match LastIndexOf(body, '=')
    case None => None
    case Some(i) =>
      if 1 <= i && body[i - 1] == ' ' && i + 1 < |body| && body[i + 1] == ' '
      then Some((body[..i - 1], ParseInt(body[i + 2..])))
      else None
  }

  /** Reads a member line `\t<lhs> = <number>;` back into its two parts. */
  function ParseMemberLine(line: string): Option<(string, int)>
  {
    if |line| < 3 || line[0] != '\t' || line[|line| - 2..] != ";" + NL then None
    else ParseAssignment(line[1..|line| - 2])
  }

  lemma {:induction false} IndexOfFirst(s: string, c: char, k: nat)
    requires k < |s| && s[k] == c && c !in s[..k]
    ensures IndexOf(s, c) == Some(k)
  {
    if k > 0 {
      assert s[0] == s[..k][0];
      assert s[1..][..k - 1] == s[..k][1..];
      IndexOfFirst(s[1..], c, k - 1);
    }
  }

  lemma {:induction false} LastIndexOfLast(s: string, c: char, k: nat)
    requires k < |s| && s[k] == c && c !in s[k + 1..]
    ensures LastIndexOf(s, c) == Some(k)
  {
    if k < |s| - 1 {
      assert s[|s| - 1] == s[k + 1..][|s| - k - 2];
      assert s[..|s| - 1][k + 1..] == s[k + 1..][..|s| - k - 2];
      LastIndexOfLast(s[..|s| - 1], c, k);
    }
  }

  lemma AssignmentRoundTrip(lhs: string, n: int)
    ensures ParseAssignment(lhs + " = " + IntText(n)) == Some((lhs, n))
  {
    var text := IntText(n);
    var body := lhs + " = " + text;
    var k := |lhs| + 1;
    assert body[k - 1] == ' ' && body[k] == '=' && body[k + 1] == ' ';
    assert '=' !in body[k + 1..] by {
      IntTextChars(n);
      assert body[k + 1..] == " " + text;
    }
    LastIndexOfLast(body, '=', k);
    assert k + 1 < |body|;
    assert body[..k - 1] == lhs;
    assert body[k + 2..] == text;
    IntTextRoundTrip(n);
    assert ParseAssignment(body) == Some((body[..k - 1], ParseInt(body[k + 2..])));
  }

  /** A member line gives back its left-hand side and its number, whatever
      the left-hand side holds. */
  lemma MemberLineRoundTrip(lhs: string, n: int)
    ensures ParseMemberLine(MemberLine(lhs, n)) == Some((lhs, n))
  {
    var body := lhs + " = " + IntText(n);
    var line := "\t" + body + ";\n";
    assert MemberLine(lhs, n) == line;
    assert ParseMemberLine(line) == ParseAssignment(body) by {
      assert line[0] == '\t';
      assert line[1..|line| - 2] == body;
      assert line[|line| - 2..] == ";" + NL;
    }
    AssignmentRoundTrip(lhs, n);
  }

  /** A field line gives back its type token, its name and its number. */
  lemma FieldLineRoundTrip(f: Field, token: string)
    requires TypeToken(f) == Some(token)
    ensures FieldOut(f).ok
    ensures ParseMemberLine(FieldOut(f).text) == Some((token + " " + f.name, f.number as int))
  {
    MemberLineRoundTrip(token + " " + f.name, f.number as int);
  }

  /** An enum value line gives back the value's name and number. */
  lemma EnumValueLineRoundTrip(v: EnumValue)
    ensures ParseMemberLine(EnumValueLine(v)) == Some((v.name, v.number as int))
  {
    MemberLineRoundTrip(v.name, v.number as int);
  }

  predicate StartsWithStream(s: string)
  {
    |s| >= 7 && s[..7] == "stream "
  }

  /** Reads back the two streaming flags of a method line: whether the
      request type, after the first '(', and the response type, after
      `) returns (`, carry the `stream ` marker. */
  function ParseMethodFlags(line: string): Option<(bool, bool)>
  {
    match IndexOf(line, '(')
    case None => None
    case Some(i) =>
      var args := line[i + 1..];
      match IndexOf(args, ')')
      case None => None
      case Some(j) =>
        var tail := args[j..];
        if |tail| >= 11 && tail[..11] == ") returns (" then
          Some((StartsWithStream(args), StartsWithStream(tail[11..])))
        else None
  }

  /** A type name without spaces or ')' followed by ')' cannot look like the marker. */
  lemma NoStreamMarker(t: string, rest: string)
    requires ' ' !in t && ')' !in t && rest != [] && rest[0] == ')'
    ensures !StartsWithStream(t + rest)
  {
    var s := t + rest;
    if |s| >= 7 {
      var k := if |t| < 6 then |t| else 6;
      assert s[k] == (if k < |t| then t[k] else rest[0]);
      assert s[k] != "stream "[k];
      assert s[..7][k] == s[k];
    }
  }

  lemma StreamMarker(rest: string)
    ensures StartsWithStream("stream " + rest)
  {
    assert ("stream " + rest)[..7] == "stream ";
  }

  /** One side of a method line: the marker is read back iff it was written. */
  lemma StreamSide(streaming: bool, t: string, rest: string)
    requires ' ' !in t && ')' !in t && rest != [] && rest[0] == ')'
    ensures StartsWithStream(Stream(streaming) + (t + rest)) <==> streaming
  {
    if streaming {
      StreamMarker(t + rest);
    } else {
      assert Stream(streaming) + (t + rest) == t + rest;
      NoStreamMarker(t, rest);
    }
  }

  /** The first '(' of `head + "(" + rest`, when `head` holds none. */
  lemma OpenParen(head: string, rest: string)
    requires '(' !in head
    ensures IndexOf(head + "(" + rest, '(') == Some(|head|)
    ensures (head + "(" + rest)[|head| + 1..] == rest
  {
    var s := head + "(" + rest;
    assert s[..|head|] == head;
    IndexOfFirst(s, '(', |head|);
  }

  /** The first ')' of `a + (b + rest)`, when `rest` starts with one. */
  lemma CloseParen(a: string, b: string, rest: string)
    requires ')' !in a && ')' !in b && rest != [] && rest[0] == ')'
    ensures IndexOf(a + (b + rest), ')') == Some(|a| + |b|)
    ensures (a + (b + rest))[|a| + |b|..] == rest
  {
    var s := a + (b + rest);
    assert s[..|a| + |b|] == a + b;
    IndexOfFirst(s, ')', |a| + |b|);
  }

  /** `MethodLine` regrouped around its first '(': the eight pieces the
      renderer writes, folded to the right. */
  lemma MethodLineShape(m: Method)
    ensures MethodLine(m)
         == ("\trpc " + m.name) + "("
            + (Stream(m.clientStreaming) + (m.inputType
            + (") returns (" + (Stream(m.serverStreaming) + (m.outputType + ");" + NL)))))
  {
    var b, c, d, e := "rpc " + m.name + "(", Stream(m.clientStreaming), m.inputType + ")", " returns (";
    var f, g := Stream(m.serverStreaming), m.outputType + ");";
    var back := g + NL;
    var tail := ") returns (" + (f + back);
    Append3(m.inputType, ")", e + (f + back));
    Append3(")", e, f + back);
    assert d + (e + (f + back)) == m.inputType + tail;
    var args := c + (m.inputType + tail);
    Append3("\t", "rpc " + m.name, "(");
    Append3("\t" + ("rpc " + m.name), "(", args);
    Append3("\t", b, args);
    assert "\t" + ("rpc " + m.name) == "\trpc " + m.name;
    Append3("\t" + b + c + d + e + f, g, NL);
    Append3("\t" + b + c + d + e, f, back);
    Append3("\t" + b + c + d, e, f + back);
    Append3("\t" + b + c, d, e + (f + back));
    Append3("\t" + b, c, d + (e + (f + back)));
  }

  /** Reading the flags back from a line assembled from its parts; the
      markers are either empty or `stream `. */
  /** `ParseMethodFlags` once the '(' and the ')' after it have been found. */
  lemma ParseMethodFlagsAt(line: string, i: nat, j: nat, rest: string)
    requires IndexOf(line, '(') == Some(i)
    requires IndexOf(line[i + 1..], ')') == Some(j)
    requires line[i + 1..][j..] == ") returns (" + rest
    ensures ParseMethodFlags(line) == Some((StartsWithStream(line[i + 1..]), StartsWithStream(rest)))
  {
    var tail := ") returns (" + rest;
    assert tail[..11] == ") returns (" && tail[11..] == rest;
  }

  lemma FlagsOfParts(head: string, client: string, input: string, server: string, output: string)
    requires '(' !in head
    requires client == "" || client == "stream "
    requires server == "" || server == "stream "
    requires ' ' !in input && ')' !in input && ' ' !in output && ')' !in output
    ensures ParseMethodFlags(head + "(" + (client + (input + (") returns (" + (server + (output + ");\n"))))))
         == Some((client != "", server != ""))
  {
    var rest := server + (output + ");\n");
    var tail := ") returns (" + rest;
    var args := client + (input + tail);
    var line := head + "(" + args;
    var j := |client| + |input|;
    assert IndexOf(line, '(') == Some(|head|) && line[|head| + 1..] == args by {
      OpenParen(head, args);
    }
    assert IndexOf(args, ')') == Some(j) && args[j..] == tail by {
      assert ')' !in client;
      CloseParen(client, input, tail);
    }
    ParseMethodFlagsAt(line, |head|, j, rest);
    assert StartsWithStream(args) == (client != "") by {
      StreamSide(client != "", input, tail);
    }
    assert StartsWithStream(rest) == (server != "") by {
      StreamSide(server != "", output, ");\n");
    }
  }

  /** The two flags of a method line are read back independently of each
      other, as long as the method name holds no '(' and the type names
      hold no space and no ')'. */
  lemma MethodLineFlags(m: Method)
    requires '(' !in m.name
    requires ' ' !in m.inputType && ')' !in m.inputType
    requires ' ' !in m.outputType && ')' !in m.outputType
    ensures ParseMethodFlags(MethodLine(m)) == Some((m.clientStreaming, m.serverStreaming))
  {
    var head := "\trpc " + m.name;
    var client, server := Stream(m.clientStreaming), Stream(m.serverStreaming);
    assert MethodLine(m)
        == head + "(" + (client + (m.inputType + (") returns (" + (server + (m.outputType + ");\n"))))) by {
      MethodLineShape(m);
      assert ");" + NL == ");\n";
    }
    assert '(' !in head;
    FlagsOfParts(head, Stream(m.clientStreaming), m.inputType, Stream(m.serverStreaming), m.outputType);
  }

  // ------------------------------------------------------ a worked example

  /** `pkg/foo.proto`: package `pkg`, proto3, one message `Foo` whose
      fields `label = 2` and `id = 1` are declared out of order. */
  function FooFile(): File
  {
    File("pkg/foo.proto", "pkg", "proto3", [], [], [FooMessage()], [], [])
  }

  function FooMessage(): Message
  {
    Message("Foo", [], [], [Field("label", 2, TypeString, ""), Field("id", 1, TypeInt64, "")])
  }

  lemma FooFieldsSorted(labelField: Field, idField: Field)
    requires labelField == Field("label", 2, TypeString, "")
    requires idField == Field("id", 1, TypeInt64, "")
    ensures StableSort([labelField, idField], FieldNumber) == [idField, labelField]
  {
    assert [labelField, idField][1..] == [idField];
    assert [idField][1..] == [];
    assert StableSort([idField], FieldNumber) == [idField];
    assert Insert(labelField, [idField], FieldNumber) == [idField] + Insert(labelField, [], FieldNumber);
  }

  lemma FooIdLine()
    ensures FieldOut(Field("id", 1, TypeInt64, "")) == Done("\tint64 id = 1;\n")
  {
    assert IntText(1) == "1";
  }

  lemma FooLabelLine()
    ensures FieldOut(Field("label", 2, TypeString, "")) == Done("\tstring label = 2;\n")
  {
    assert IntText(2) == "2";
  }

  lemma FooFieldsText(labelField: Field, idField: Field)
    requires labelField == Field("label", 2, TypeString, "")
    requires idField == Field("id", 1, TypeInt64, "")
    ensures FieldsOut([labelField, idField]) == Done("\tint64 id = 1;\n" + "\tstring label = 2;\n")
  {
    FooFieldsSorted(labelField, idField);
    FooIdLine();
    FooLabelLine();
    var sorted := [idField, labelField];
    assert sorted[..1] == [idField] && [idField][..0] == [];
    assert FieldLinesOut([idField]) == Then(Done(""), FieldOut(idField));
    assert FieldLinesOut(sorted) == Then(FieldLinesOut([idField]), FieldOut(labelField));
  }

  lemma FooMessageText()
    ensures MessageOut(FooMessage())
         == Done("message Foo {\n" + ("\tint64 id = 1;\n" + "\tstring label = 2;\n") + "}\n\n")
  {
    var foo := FooMessage();
    var fieldText := "\tint64 id = 1;\n" + "\tstring label = 2;\n";
    FooFieldsText(foo.fields[0], foo.fields[1]);
    assert foo.fields == [foo.fields[0], foo.fields[1]];
    var h0, c0 := "message " + foo.name + " {" + NL, "}" + NL + NL;
    assert MessagesOut(foo.nested) == Done("");
    assert EnumsText(foo.enums) == "";
    assert MessageOut(foo) == Then(Then(Then(Then(Done(h0), Done("")), Done("")), Done(fieldText)), Done(c0));
    assert MessageOut(foo).text == (((h0 + "") + "") + fieldText) + c0;
    assert (h0 + "") + "" == h0;
    assert h0 == "message Foo {\n";
    assert c0 == "}\n\n";
  }

  lemma FooFileHeader()
    ensures FileHeader(FooFile()) == "syntax = \"proto3\";\n" + "package pkg;\n" + "\n"
  {
    var f := FooFile();
    var syntax, package := "syntax = \"proto3\";\n", "package pkg;\n";
    assert syntax == ("syntax = \"" + f.syntax + "\";") + NL;
    assert package == ("package " + f.package + ";") + NL;
    assert Concat(f.options, OptionLine) == "" && Concat(f.dependencies, ImportLine) == "";
  }

  /** A file without top-level enums and services is its header followed by its messages. */
  lemma FileOfMessages(f: File)
    requires f.enums == [] && f.services == []
    ensures FileOut(f) == Then(Done(FileHeader(f)), MessagesOut(f.messages))
  {
    var body := Then(Done(FileHeader(f)), MessagesOut(f.messages));
    assert body.text + "" == body.text;
  }

  lemma MessagesOutSingle(m: Message)
    ensures MessagesOut([m]) == MessageOut(m)
  {
    assert [m][..0] == [];
    assert "" + MessageOut(m).text == MessageOut(m).text;
  }

  /** The file renders line by line as below, fields sorted by number. */
  lemma FooFileText()
    ensures FileOut(FooFile()) == Done(
      ("syntax = \"proto3\";\n" + "package pkg;\n" + "\n")
      + ("message Foo {\n" + ("\tint64 id = 1;\n" + "\tstring label = 2;\n") + "}\n\n"))
  {
    var header := "syntax = \"proto3\";\n" + "package pkg;\n" + "\n";
    var messageText := "message Foo {\n" + ("\tint64 id = 1;\n" + "\tstring label = 2;\n") + "}\n\n";
    FooFileHeader();
    FooMessageText();
    MessagesOutSingle(FooMessage());
    FileOfMessages(FooFile());
    assert FileOut(FooFile()) == Then(Done(header), Done(messageText));
  }

  /** An empty package still produces the line `package ;`. */
  lemma EmptyPackageLine(f: File)
    requires f.package == ""
    ensures FileHeader(f)
         == ("syntax = \"" + f.syntax + "\";") + NL + "package ;\n"
            + Concat(f.options, OptionLine) + Concat(f.dependencies, ImportLine) + NL
  {
  }
}
