/** package_parser/type_parser.go: a type declaration (a struct or an
    interface) read off the syntax tree, and its rendering. */
module TypeParser {
  import opened Wrappers
  import opened GoStrings
  import opened GoAst
  import opened FieldParser

  datatype StructDeclaration = StructDeclaration(name: string, doc: Option<CommentText>, variables: seq<FieldDeclaration>)

  datatype InterfaceDeclaration = InterfaceDeclaration(name: string, doc: Option<CommentText>)

  /** The pair of pointers ParseTypeDeclaration returns, exactly one of which is non-nil. */
  datatype TypeDeclaration =
    | StructDecl(s: StructDeclaration)
    | InterfaceDecl(i: InterfaceDeclaration)

  /** The panics of ParseTypeDeclaration, in the order they are checked. */
  datatype TypePanic =
    | SpecCount                // a declaration without exactly one spec
    | NotStructOrInterface     // a type spec of any other type
    | UnknownSpec              // an import or value spec
    | TypeFieldPanicked(cause: FieldPanic)

  /** The doc text, kept only when it is not empty. */
  function DocOf(doc: Option<CommentText>): (r: Option<CommentText>)
    ensures r.Some? <==> DocText(doc) != ""
    ensures r.Some? ==> |r.value| > 0 && r.value[|r.value| - 1] == '\n'
    ensures r.Some? ==> r.value == DocText(doc)
  {
    if DocText(doc) != "" then Some(DocText(doc)) else None
  }

  function ParseTypeDeclaration(decl: GenDecl): (r: Result<TypeDeclaration, TypePanic>)
    ensures r == Failure(SpecCount) <==> |decl.specs| != 1
    ensures r == Failure(UnknownSpec) <==> |decl.specs| == 1 && !decl.specs[0].TypeSpec?
    ensures r == Failure(NotStructOrInterface) <==>
              |decl.specs| == 1 && decl.specs[0].TypeSpec?
              && !decl.specs[0].typ.StructType? && !decl.specs[0].typ.InterfaceType?
    ensures r.Failure? && r.error.TypeFieldPanicked? <==>
              |decl.specs| == 1 && decl.specs[0].TypeSpec? && decl.specs[0].typ.StructType?
              && ParseFields(decl.specs[0].typ.fields).Failure?
    ensures r.Failure? && r.error.TypeFieldPanicked? ==>
              r.error.cause == ParseFields(decl.specs[0].typ.fields).error
    ensures r.Success? ==> decl.specs[0].TypeSpec?
    ensures r.Success? && r.value.InterfaceDecl? <==>
              |decl.specs| == 1 && decl.specs[0].TypeSpec? && decl.specs[0].typ.InterfaceType?
    ensures r.Success? && r.value.InterfaceDecl? ==>
              r.value.i == InterfaceDeclaration(decl.specs[0].name, DocOf(decl.doc))
    ensures r.Success? && r.value.StructDecl? ==>
              && decl.specs[0].typ.StructType?
              && r.value.s.name == decl.specs[0].name
              && r.value.s.doc == DocOf(decl.doc)
              && Success(r.value.s.variables) == ParseFields(decl.specs[0].typ.fields)
  {
    if |decl.specs| != 1 then Failure(SpecCount)
    else
      match decl.specs[0]
      case TypeSpec(name, _, typ) =>
        var doc := DocOf(decl.doc);
        (match typ
         case InterfaceType => Success(InterfaceDecl(InterfaceDeclaration(name, doc)))
         case StructType(fields) =>
           (match ParseFields(fields)
            case Failure(e) => Failure(TypeFieldPanicked(e))
            case Success(vars) => Success(StructDecl(StructDeclaration(name, doc, vars))))
         case _ => Failure(NotStructOrInterface))
      case _ => Failure(UnknownSpec)
  }

  /** The optional comment line that precedes a declaration. */
  function DocLine(doc: Option<CommentText>): string {
    if doc.Some? then "// " + doc.value + "\n" else ""
  }

  /** The line of one field. */
  function VariableLine(v: FieldDeclaration): string {
    "\t" + FieldParser.String(v) + "\n"
  }

  /** One "\tname type\n" line per field, in order. */
  function VariableLines(vs: seq<FieldDeclaration>): string
    decreases |vs|
  {
    if vs == [] then ""
    else VariableLines(vs[..|vs| - 1]) + VariableLine(vs[|vs| - 1])
  }

  /** What StructDeclaration.String writes. */
  function StructText(s: StructDeclaration): string {
    DocLine(s.doc) + "type " + s.name + " struct {"
    + (if |s.variables| > 0 then "\n" else "")
    + VariableLines(s.variables) + "}"
  }

  /** StructDeclaration.String: the head, then the fields one by one. */
  method StructString(s: StructDeclaration) returns (r: string)
    ensures r == StructText(s)
  {
    r := DocLine(s.doc) + "type " + s.name + " struct {";
    if |s.variables| > 0 {
      r := r + "\n";
    }
    var lines := WriteVariables(s.variables);
    r := r + lines + "}";
  }

  /** The loop of StructDeclaration.String over the fields. */
  method WriteVariables(vs: seq<FieldDeclaration>) returns (r: string)
    ensures r == VariableLines(vs)
  {
    r := "";
    for i := 0 to |vs|
      invariant r == VariableLines(vs[..i])
    {
      assert vs[..i + 1][..i] == vs[..i];
      r := r + VariableLine(vs[i]);
    }
    assert vs[..|vs|] == vs;
  }

  /** InterfaceDeclaration.String: the doc comment, then the declaration
      with an empty body, whatever methods the interface declares. */
  function InterfaceText(d: InterfaceDeclaration): (t: string)
    ensures HasPrefix(t, DocLine(d.doc))
    ensures HasSuffix(t, "type " + d.name + " interface {}")
    ensures |t| == |DocLine(d.doc)| + |d.name| + 18
  {
    var decl := "type " + d.name + " interface {" + "}";
    assert decl == "type " + d.name + " interface {}";
    PrefixOfAppend(DocLine(d.doc), decl);
    SuffixOfAppend(DocLine(d.doc), decl);
    DocLine(d.doc) + decl
  }

  /** A parsed interface renders as its doc comment and an empty body. */
  lemma ParsedInterfaceText(decl: GenDecl)
    requires ParseTypeDeclaration(decl).Success? && ParseTypeDeclaration(decl).value.InterfaceDecl?
    ensures InterfaceText(ParseTypeDeclaration(decl).value.i) ==
              DocLine(DocOf(decl.doc)) + "type " + decl.specs[0].name + " interface {}"
  {
  }

  /** A doc comment keeps the line breaks of its text and adds one; as the
      text of a comment ends in a line break, the comment is followed by a
      blank line. */
  lemma DocLineCount(doc: Option<CommentText>)
    ensures Count(DocLine(doc), '\n') == if doc.Some? then Count(doc.value, '\n') + 1 else 0
    ensures doc.Some? && doc.value != "" ==> HasSuffix(DocLine(doc), "\n\n")
  {
    if doc.Some? {
      var line := "// " + doc.value + "\n";
      assert Count("\n", '\n') == 1;
      CountAppend("// " + doc.value, "\n", '\n');
      CountAppend("// ", doc.value, '\n');
      CountAbsent("// ", '\n');
      if doc.value != "" {
        assert line[|line| - 2..] == [doc.value[|doc.value| - 1], '\n'];
      }
    }
  }

  /** The doc comment "Foo" renders as a comment line and a blank line. */
  lemma DocLineExample()
    ensures DocLine(DocOf(Some("Foo\n"))) == "// Foo\n\n"
  {
  }

  /** Each field takes one line of its own. */
  lemma {:induction false} VariableLinesCount(vs: seq<FieldDeclaration>)
    requires forall k :: 0 <= k < |vs| ==> '\n' !in FieldParser.String(vs[k])
    ensures Count(VariableLines(vs), '\n') == |vs|
    decreases |vs|
  {
    if vs != [] {
      var init := vs[..|vs| - 1];
      var line := FieldParser.String(vs[|vs| - 1]);
      assert forall k :: 0 <= k < |init| ==> init[k] == vs[k];
      VariableLinesCount(init);
      assert VariableLines(vs) == VariableLines(init) + VariableLine(vs[|vs| - 1]);
      CountAppend(VariableLines(init), "\t" + line + "\n", '\n');
      CountAppend("\t" + line, "\n", '\n');
      CountAppend("\t", line, '\n');
      CountAbsent(line, '\n');
      assert Count("\n", '\n') == 1;
      assert Count("\t", '\n') == 0;
    }
  }

  /** The line break after the brace, present when there are fields. */
  function FieldsBreak(s: StructDeclaration): string {
    if |s.variables| > 0 then "\n" else ""
  }

  lemma StructTextParts(s: StructDeclaration)
    ensures StructText(s) == DocLine(s.doc) + ("type " + s.name + " struct {" + (FieldsBreak(s) + (VariableLines(s.variables) + "}")))
  {
    Regroup(DocLine(s.doc), "type ", s.name, " struct {", FieldsBreak(s), VariableLines(s.variables), "}");
  }

  /** The regrouping behind StructTextParts. */
  lemma Regroup(a: string, b: string, c: string, d: string, e: string, f: string, g: string)
    ensures a + b + c + d + e + f + g == a + (b + c + d + (e + (f + g)))
  {
    assert a + b + c + d + e + f + g == a + (b + c + d) + e + f + g;
    assert a + (b + c + d) + e + f + g == a + (b + c + d) + (e + (f + g));
  }

  /** A struct with n > 0 fields renders on n + 2 lines (n + 1 line breaks),
      with no fields on a single line, and a doc comment adds the line
      breaks of its text plus one. */
  lemma StructTextLineCount(s: StructDeclaration)
    requires '\n' !in s.name
    requires forall k :: 0 <= k < |s.variables| ==> '\n' !in FieldParser.String(s.variables[k])
    ensures Count(StructText(s), '\n') ==
              (if s.doc.Some? then Count(s.doc.value, '\n') + 1 else 0) + (if |s.variables| > 0 then 1 + |s.variables| else 0)
  {
    var head := "type " + s.name + " struct {";
    var lines := VariableLines(s.variables);
    var tail := FieldsBreak(s) + (lines + "}");
    StructTextParts(s);
    assert '\n' !in head;
    CountAbsent(head, '\n');
    CountAbsent("}", '\n');
    assert Count(FieldsBreak(s), '\n') == if |s.variables| > 0 then 1 else 0;
    DocLineCount(s.doc);
    VariableLinesCount(s.variables);
    CountAppend(lines, "}", '\n');
    CountAppend(FieldsBreak(s), lines + "}", '\n');
    CountAppend(head, tail, '\n');
    CountAppend(DocLine(s.doc), head + tail, '\n');
  }

  /** A parsed struct is rendered with exactly the fields it was parsed from. */
  lemma ParsedStructRendersFields(decl: GenDecl)
    requires ParseTypeDeclaration(decl).Success? && ParseTypeDeclaration(decl).value.StructDecl?
    ensures |ParseTypeDeclaration(decl).value.s.variables| == |decl.specs[0].typ.fields|
    ensures (|decl.specs[0].typ.fields| == 0) ==
              (StructText(ParseTypeDeclaration(decl).value.s) ==
                 DocLine(DocOf(decl.doc)) + "type " + decl.specs[0].name + " struct {}")
  {
    var s := ParseTypeDeclaration(decl).value.s;
    if |s.variables| > 0 {
      var t := StructText(s);
      var pre := DocLine(s.doc) + "type " + s.name + " struct {";
      var lines := VariableLines(s.variables);
      assert t == pre + "\n" + lines + "}";
      assert |t| > |pre + "}"|;
    }
  }
}
