/** goop.go: the single-file generator. Parse reads the goop tags of each
    struct and the receiver functions of a parsed file, Write keeps the
    classes with their Impl functions, and main derives the output path. */
module Goop {
  import opened Wrappers
  import opened GoStrings
  import opened GoAst
  import GeneratorUtils

  datatype Function = Function(name: string, argumentTypes: seq<string>, returnTypes: seq<string>)

  /** Parse allocates a fresh Struct per type declaration and reaches it only
      through its name in the map, so a Struct behaves as a value here. */
  datatype Struct = Struct(name: string, isClass: bool, super: Option<string>, vtable: Option<string>, functions: seq<Function>)

  /** The errors Parse returns. */
  datatype GoopError =
    | MissingPackageName
    | ManySpecs

  /** The run-time panics of Parse: failed type assertions, a slice or index
      out of range, and nil dereferences. */
  datatype GoopPanic =
    | NotAStruct(typeName: string)   // a type declaration that is not a struct
    | ShortTag                       // a tag literal too short to strip its quotes
    | TaggedTypeNotIdent             // a goop-tagged field whose type is not a plain name
    | EmptyReceiverList
    | ReceiverNotPointer
    | ReceiverNotIdent
    | StarOfNonIdent                 // a parameter or result *T where T is not a name
    | UnknownType                    // a parameter or result that is neither T nor *T
    | NilResults                     // a receiver function that declares no results
    | UnknownReceiver(receiver: string)

  /** How Parse stops early: an error it returns, or a panic. */
  datatype Stop = Error(error: GoopError) | Panic(panic: GoopPanic)

  // ---------------------------------------------------------------------------
  // Function and Struct rendering
  // ---------------------------------------------------------------------------

  /** The argument types, comma separated: every type once, in order, with
      one ", " between neighbours. */
  function ArgTypesString(f: Function): (r: string)
    ensures |r| == SumLengths(f.argumentTypes) + if f.argumentTypes == [] then 0 else 2 * (|f.argumentTypes| - 1)
    ensures f.argumentTypes == [] ==> r == ""
    ensures |f.argumentTypes| == 1 ==> r == f.argumentTypes[0]
  {
    JoinLength(f.argumentTypes, ", ");
    Join(f.argumentTypes, ", ")
  }

  /** The return types, comma separated, as ArgTypesString does it. */
  function RetTypesString(f: Function): (r: string)
    ensures |r| == SumLengths(f.returnTypes) + if f.returnTypes == [] then 0 else 2 * (|f.returnTypes| - 1)
    ensures f.returnTypes == [] ==> r == ""
    ensures |f.returnTypes| == 1 ==> r == f.returnTypes[0]
  {
    JoinLength(f.returnTypes, ", ");
    Join(f.returnTypes, ", ")
  }

  /** Function.String: name(args)(rets). */
  function FunctionString(f: Function): string {
    f.name + "(" + ArgTypesString(f) + ")(" + RetTypesString(f) + ")"
  }

  lemma CountFunctionString(f: Function, c: char)
    ensures Count(FunctionString(f), c) ==
              Count(f.name, c) + Count("(", c) + Count(ArgTypesString(f), c)
              + Count(")(", c) + Count(RetTypesString(f), c) + Count(")", c)
  {
    var a := ArgTypesString(f);
    var t := RetTypesString(f);
    CountAppend(f.name + "(" + a + ")(" + t, ")", c);
    CountAppend(f.name + "(" + a + ")(", t, c);
    CountAppend(f.name + "(" + a, ")(", c);
    CountAppend(f.name + "(", a, c);
    CountAppend(f.name, "(", c);
  }

  /** The number of commas that a ", "-joined list of comma-free names holds. */
  lemma JoinedCommas(parts: seq<string>)
    requires forall k :: 0 <= k < |parts| ==> ',' !in parts[k]
    ensures Count(Join(parts, ", "), ',') == if parts == [] then 0 else |parts| - 1
  {
    if parts == [] {
      assert Join(parts, ", ") == "";
    } else {
      JoinCount(parts, ", ", ',');
      assert Count(", ", ',') == 1;
    }
  }

  /** A rendering without parentheses in its names has exactly one pair for
      the arguments and one for the results, and lists each argument and
      each result type, comma-separated. */
  lemma FunctionStringCounts(f: Function)
    requires '(' !in f.name && ')' !in f.name && ',' !in f.name
    requires forall k :: 0 <= k < |f.argumentTypes| ==>
               '(' !in f.argumentTypes[k] && ')' !in f.argumentTypes[k] && ',' !in f.argumentTypes[k]
    requires forall k :: 0 <= k < |f.returnTypes| ==>
               '(' !in f.returnTypes[k] && ')' !in f.returnTypes[k] && ',' !in f.returnTypes[k]
    ensures HasPrefix(FunctionString(f), f.name + "(")
    ensures Count(FunctionString(f), '(') == 2
    ensures Count(FunctionString(f), ')') == 2
    ensures Count(FunctionString(f), ',') ==
              (if f.argumentTypes == [] then 0 else |f.argumentTypes| - 1)
              + (if f.returnTypes == [] then 0 else |f.returnTypes| - 1)
  {
    CountFunctionString(f, '(');
    CountFunctionString(f, ')');
    CountFunctionString(f, ',');
    CountAbsent(f.name, '(');
    CountAbsent(f.name, ')');
    CountAbsent(f.name, ',');
    JoinCountAbsent(f.argumentTypes, ", ", '(');
    JoinCountAbsent(f.argumentTypes, ", ", ')');
    JoinCountAbsent(f.returnTypes, ", ", '(');
    JoinCountAbsent(f.returnTypes, ", ", ')');
    CountAbsent(ArgTypesString(f), '(');
    CountAbsent(ArgTypesString(f), ')');
    CountAbsent(RetTypesString(f), '(');
    CountAbsent(RetTypesString(f), ')');
    JoinedCommas(f.argumentTypes);
    JoinedCommas(f.returnTypes);
    assert Count("(", '(') == 1 && Count(")", '(') == 0 && Count(")(", '(') == 1;
    assert Count("(", ')') == 0 && Count(")", ')') == 1 && Count(")(", ')') == 2 - 1;
    assert Count("(", ',') == 0 && Count(")", ',') == 0 && Count(")(", ',') == 0;
    var s := FunctionString(f);
    assert s == (f.name + "(") + (ArgTypesString(f) + ")(" + RetTypesString(f) + ")");
  }

  /** NewStruct: a plain struct with no super, no vtable and no functions. */
  function NewStruct(name: string): (s: Struct)
    ensures s.name == name && !s.isClass
    ensures s.super.None? && s.vtable.None? && s.functions == []
  {
    Struct(name, false, None, None, [])
  }

  /** A struct fresh from NewStruct renders as an empty plain struct. */
  lemma NewStructText(name: string)
    ensures StructText(NewStruct(name)) == "Struct " + name + " {\n}"
  {
  }

  function TypeName(s: Struct): string {
    if s.isClass then "Class" else "Struct"
  }

  /** The first line of Struct.String: kind, name, optional super. */
  function HeaderLine(s: Struct): string {
    TypeName(s) + " " + s.name + (if s.super.Some? then ": " + s.super.value else "") + " {\n"
  }

  function VtableLine(s: Struct): string {
    if s.vtable.Some? then "\t<vtable: " + s.vtable.value + ">\n" else ""
  }

  function FunctionLine(f: Function): string {
    "\t" + FunctionString(f) + ";\n"
  }

  /** One "\tf;\n" line per function, in order. */
  function FunctionLines(fs: seq<Function>): string
    decreases |fs|
  {
    if fs == [] then "" else FunctionLines(fs[..|fs| - 1]) + FunctionLine(fs[|fs| - 1])
  }

  /** What Struct.String writes. */
  function StructText(s: Struct): string {
    HeaderLine(s) + VtableLine(s) + FunctionLines(s.functions) + "}"
  }

  /** Struct.String, which appends to its description field by field and
      function by function. */
  method StructString(s: Struct) returns (desc: string)
    ensures desc == StructText(s)
  {
    var typeName := "Struct";
    if s.isClass {
      typeName := "Class";
    }
    assert typeName == TypeName(s);
    desc := typeName + " " + s.name;
    if s.super.Some? {
      desc := desc + ": " + s.super.value;
    }
    ghost var sup := if s.super.Some? then ": " + s.super.value else "";
    assert desc == TypeName(s) + " " + s.name + sup;
    desc := desc + " {\n";
    assert desc == HeaderLine(s);
    if s.vtable.Some? {
      desc := desc + "\t<vtable: " + s.vtable.value + ">\n";
    }
    assert desc == HeaderLine(s) + VtableLine(s);
    var lines := WriteFunctionLines(s.functions);
    desc := desc + lines + "}";
  }

  /** The loop of Struct.String: one line per function, in order. */
  method WriteFunctionLines(fs: seq<Function>) returns (r: string)
    ensures r == FunctionLines(fs)
  {
    r := "";
    for i := 0 to |fs|
      invariant r == FunctionLines(fs[..i])
    {
      assert fs[..i + 1][..i] == fs[..i];
      r := r + ("\t" + FunctionString(fs[i]) + ";\n");
    }
    assert fs[..|fs|] == fs;
  }

  /** Function lines keep the order of the functions. */
  lemma {:induction false} FunctionLinesAppend(a: seq<Function>, b: seq<Function>)
    ensures FunctionLines(a + b) == FunctionLines(a) + FunctionLines(b)
    decreases |b|
  {
    if b != [] {
      var init := b[..|b| - 1];
      var last := FunctionLine(b[|b| - 1]);
      DropLastOfAppend(a, b);
      assert FunctionLines(a + b) == FunctionLines(a + init) + last;
      FunctionLinesAppend(a, init);
      assert FunctionLines(b) == FunctionLines(init) + last;
    } else {
      assert a + b == a;
    }
  }

  /** Dropping the last element of a + b drops it from b. */
  lemma DropLastOfAppend<T>(a: seq<T>, b: seq<T>)
    requires b != []
    ensures (a + b)[..|a + b| - 1] == a + b[..|b| - 1]
    ensures (a + b)[|a + b| - 1] == b[|b| - 1]
  {
  }

  /** Each function takes one line of its own. */
  lemma {:induction false} FunctionLinesCount(fs: seq<Function>)
    requires forall k :: 0 <= k < |fs| ==> '\n' !in FunctionString(fs[k])
    ensures Count(FunctionLines(fs), '\n') == |fs|
    decreases |fs|
  {
    if fs != [] {
      var init := fs[..|fs| - 1];
      var line := FunctionString(fs[|fs| - 1]);
      assert forall k :: 0 <= k < |init| ==> init[k] == fs[k];
      FunctionLinesCount(init);
      assert FunctionLines(fs) == FunctionLines(init) + ("\t" + line + ";\n");
      CountAppend(FunctionLines(init), "\t" + line + ";\n", '\n');
      CountAppend("\t" + line, ";\n", '\n');
      CountAppend("\t", line, '\n');
      CountAbsent(line, '\n');
      assert Count("\t", '\n') == 0;
      assert Count(";\n", '\n') == 1;
    }
  }

  /** The text after the first line of Struct.String. */
  function Body(s: Struct): string {
    VtableLine(s) + FunctionLines(s.functions) + "}"
  }

  function SuperPart(s: Struct): string {
    if s.super.Some? then ": " + s.super.value else ""
  }

  lemma StructTextSplit(s: Struct)
    ensures StructText(s) == HeaderLine(s) + Body(s)
    ensures HeaderLine(s) == TypeName(s) + " " + s.name + SuperPart(s) + " {\n"
  {
  }

  /** Struct.String starts with "Class " exactly for classes, and with
      "Struct " otherwise. */
  lemma StructTextKind(s: Struct)
    ensures HasPrefix(StructText(s), "Class ") <==> s.isClass
    ensures !s.isClass ==> HasPrefix(StructText(s), "Struct ")
  {
    var p := TypeName(s) + " ";
    assert p[..|p|] == p;
    PrefixExtend(p, s.name, p);
    PrefixExtend(p + s.name, SuperPart(s), p);
    PrefixExtend(p + s.name + SuperPart(s), " {\n", p);
    assert HeaderLine(s) == p + s.name + SuperPart(s) + " {\n";
    PrefixExtend(HeaderLine(s), VtableLine(s), p);
    PrefixExtend(HeaderLine(s) + VtableLine(s), FunctionLines(s.functions), p);
    PrefixExtend(HeaderLine(s) + VtableLine(s) + FunctionLines(s.functions), "}", p);
    if !s.isClass {
      assert StructText(s)[0] == p[0] == 'S';
    }
  }

  /** The first line of Struct.String shows ": super" exactly when a super
      is set. */
  lemma StructTextSuper(s: Struct)
    ensures s.super.Some? ==> HasPrefix(StructText(s), TypeName(s) + " " + s.name + ": " + s.super.value + " {\n")
    ensures s.super.None? ==> HasPrefix(StructText(s), TypeName(s) + " " + s.name + " {\n")
  {
    StructTextSplit(s);
    PrefixOfAppend(HeaderLine(s), Body(s));
  }

  /** Struct.String ends with its function lines and "}". */
  lemma StructTextEnd(s: Struct)
    ensures HasSuffix(StructText(s), FunctionLines(s.functions) + "}")
  {
    var t := StructText(s);
    assert t == (HeaderLine(s) + VtableLine(s)) + (FunctionLines(s.functions) + "}");
    SuffixOfAppend(HeaderLine(s) + VtableLine(s), FunctionLines(s.functions) + "}");
  }

  /** After the first line of Struct.String comes the vtable line when a
      vtable is set, and the function lines straight away otherwise. */
  lemma StructTextVtable(s: Struct)
    ensures |HeaderLine(s)| <= |StructText(s)|
    ensures s.vtable.Some? ==>
              HasPrefix(StructText(s)[|HeaderLine(s)|..], "\t<vtable: " + s.vtable.value + ">\n")
    ensures s.vtable.None? ==> StructText(s)[|HeaderLine(s)|..] == FunctionLines(s.functions) + "}"
  {
    StructTextSplit(s);
    assert StructText(s)[|HeaderLine(s)|..] == Body(s);
    if s.vtable.Some? {
      PrefixOfAppend(VtableLine(s), FunctionLines(s.functions) + "}");
    }
  }

  lemma HeaderLineCount(s: Struct)
    requires '\n' !in s.name
    requires s.super.Some? ==> '\n' !in s.super.value
    ensures Count(HeaderLine(s), '\n') == 1
  {
    var sup := if s.super.Some? then ": " + s.super.value else "";
    var first := TypeName(s) + " " + s.name + sup;
    assert '\n' !in first;
    CountAbsent(first, '\n');
    assert Count(" {\n", '\n') == 1;
    CountAppend(first, " {\n", '\n');
    assert HeaderLine(s) == first + " {\n";
  }

  lemma VtableLineCount(s: Struct)
    requires s.vtable.Some? ==> '\n' !in s.vtable.value
    ensures Count(VtableLine(s), '\n') == if s.vtable.Some? then 1 else 0
  {
    if s.vtable.Some? {
      var w := "\t<vtable: " + s.vtable.value + ">";
      assert '\n' !in w;
      CountAbsent(w, '\n');
      assert VtableLine(s) == w + "\n";
      CountAppend(w, "\n", '\n');
      assert Count("\n", '\n') == 1;
    }
  }

  /** Struct.String takes one line for the header, one for the vtable when
      set, one per function, and a last one holding "}". */
  lemma StructTextLineCount(s: Struct)
    requires '\n' !in s.name
    requires s.super.Some? ==> '\n' !in s.super.value
    requires s.vtable.Some? ==> '\n' !in s.vtable.value
    requires forall k :: 0 <= k < |s.functions| ==> '\n' !in FunctionString(s.functions[k])
    ensures Count(StructText(s), '\n') == 1 + (if s.vtable.Some? then 1 else 0) + |s.functions|
  {
    HeaderLineCount(s);
    VtableLineCount(s);
    FunctionLinesCount(s.functions);
    var h := HeaderLine(s);
    var v := VtableLine(s);
    var lines := FunctionLines(s.functions);
    CountAbsent("}", '\n');
    CountAppend(h + v + lines, "}", '\n');
    CountAppend(h + v, lines, '\n');
    CountAppend(h, v, '\n');
  }

  // ---------------------------------------------------------------------------
  // Parse, first pass: one Struct per type declaration, marked by goop tags
  // ---------------------------------------------------------------------------

  /** The value of the goop key in a field's tag, without the literal's
      surrounding quotes; None when the field has no tag or the tag no goop
      key. Stripping the quotes panics on a literal shorter than two. */
  function GoopTag(f: Field): (r: Result<Option<string>, GoopPanic>)
    ensures f.tag.None? ==> r == Success(None)
    ensures r.Failure? <==> f.tag.Some? && |f.tag.value.value| < 2
    ensures r.Failure? ==> r.error == ShortTag
    ensures f.tag.Some? && 2 <= |f.tag.value.value| ==>
              r == Success(Lookup(f.tag.value.value[1..|f.tag.value.value| - 1], "goop"))
  {
    match f.tag
    case None => Success(None)
    case Some(lit) =>
      if |lit.value| < 2 then Failure(ShortTag)
      else Success(Lookup(lit.value[1..|lit.value| - 1], "goop"))
  }

  predicate TaggedSuper(f: Field) {
    GoopTag(f) == Success(Some("super"))
  }

  predicate TaggedVtable(f: Field) {
    GoopTag(f) == Success(Some("vtable"))
  }

  /** A field tagged goop:"super" or goop:"vtable". */
  predicate MarksClass(f: Field) {
    TaggedSuper(f) || TaggedVtable(f)
  }

  /** The panics one field can raise, whatever the struct it is applied to. */
  predicate FieldPanics(f: Field) {
    GoopTag(f).Failure? || (MarksClass(f) && !f.typ.Ident?)
  }

  /** One iteration of the field loop. */
  function ApplyField(s: Struct, f: Field): (r: Result<Struct, GoopPanic>)
    ensures r.Failure? <==> FieldPanics(f)
    ensures !MarksClass(f) && !FieldPanics(f) ==> r == Success(s)
    ensures TaggedSuper(f) && f.typ.Ident? ==>
              r == Success(s.(isClass := true, super := Some(f.typ.name)))
    ensures TaggedVtable(f) && f.typ.Ident? ==>
              r == Success(s.(isClass := true, vtable := Some(f.typ.name)))
  {
    match GoopTag(f)
    case Failure(p) => Failure(p)
    case Success(None) => Success(s)
    case Success(Some(v)) =>
      if v == "super" then
        if f.typ.Ident? then Success(s.(isClass := true, super := Some(f.typ.name))) else Failure(TaggedTypeNotIdent)
      else if v == "vtable" then
        if f.typ.Ident? then Success(s.(isClass := true, vtable := Some(f.typ.name))) else Failure(TaggedTypeNotIdent)
      else Success(s)
  }

  /** The field loop over a struct's fields, in order; it keeps the name and
      the functions. */
  function ApplyFields(s: Struct, fs: seq<Field>): (r: Result<Struct, GoopPanic>)
    ensures r.Success? ==> r.value.name == s.name && r.value.functions == s.functions
    decreases |fs|
  {
    if fs == [] then Success(s)
    else
      match ApplyFields(s, fs[..|fs| - 1])
      case Failure(p) => Failure(p)
      case Success(t) => ApplyField(t, fs[|fs| - 1])
  }

  /** The field loop panics exactly when some field does. */
  lemma {:induction false} ApplyFieldsPanics(s: Struct, fs: seq<Field>)
    ensures ApplyFields(s, fs).Failure? <==> exists f :: f in fs && FieldPanics(f)
    decreases |fs|
  {
    if fs != [] {
      var init := fs[..|fs| - 1];
      var last := fs[|fs| - 1];
      assert fs == init + [last];
      ApplyFieldsPanics(s, init);
      if ApplyFields(s, init).Success? {
        assert ApplyFields(s, fs) == ApplyField(ApplyFields(s, init).value, last);
      }
    }
  }

  /** One field marks the struct as a class, or sets its super or its
      vtable, exactly when it is tagged so. */
  lemma ApplyFieldStep(t: Struct, f: Field)
    requires ApplyField(t, f).Success?
    ensures ApplyField(t, f).value.isClass <==> t.isClass || MarksClass(f)
    ensures ApplyField(t, f).value.super.Some? <==> t.super.Some? || TaggedSuper(f)
    ensures ApplyField(t, f).value.vtable.Some? <==> t.vtable.Some? || TaggedVtable(f)
  {
  }

  /** The field loop marks a struct as a class exactly when some field is
      goop-tagged super or vtable. */
  lemma {:induction false} ApplyFieldsClass(s: Struct, fs: seq<Field>)
    requires ApplyFields(s, fs).Success?
    ensures ApplyFields(s, fs).value.isClass <==> s.isClass || exists f :: f in fs && MarksClass(f)
    decreases |fs|
  {
    if fs != [] {
      var init := fs[..|fs| - 1];
      var last := fs[|fs| - 1];
      assert forall f :: f in fs <==> f in init || f == last by {
        assert fs == init + [last];
      }
      ApplyFieldsClass(s, init);
      ApplyFieldStep(ApplyFields(s, init).value, last);
    }
  }

  /** The field loop sets a super exactly when some field is tagged super. */
  lemma {:induction false} ApplyFieldsSuper(s: Struct, fs: seq<Field>)
    requires ApplyFields(s, fs).Success?
    ensures ApplyFields(s, fs).value.super.Some? <==> s.super.Some? || exists f :: f in fs && TaggedSuper(f)
    decreases |fs|
  {
    if fs != [] {
      var init := fs[..|fs| - 1];
      var last := fs[|fs| - 1];
      assert forall f :: f in fs <==> f in init || f == last by {
        assert fs == init + [last];
      }
      ApplyFieldsSuper(s, init);
      ApplyFieldStep(ApplyFields(s, init).value, last);
    }
  }

  /** The field loop sets a vtable exactly when some field is tagged vtable. */
  lemma {:induction false} ApplyFieldsVtable(s: Struct, fs: seq<Field>)
    requires ApplyFields(s, fs).Success?
    ensures ApplyFields(s, fs).value.vtable.Some? <==> s.vtable.Some? || exists f :: f in fs && TaggedVtable(f)
    decreases |fs|
  {
    if fs != [] {
      var init := fs[..|fs| - 1];
      var last := fs[|fs| - 1];
      assert forall f :: f in fs <==> f in init || f == last by {
        assert fs == init + [last];
      }
      ApplyFieldsVtable(s, init);
      ApplyFieldStep(ApplyFields(s, init).value, last);
    }
  }

  /** Fields that carry no goop tag leave the struct as it is. */
  lemma {:induction false} ApplyFieldsUntagged(s: Struct, fs: seq<Field>)
    requires forall k :: 0 <= k < |fs| ==> GoopTag(fs[k]) == Success(None)
    ensures ApplyFields(s, fs) == Success(s)
    decreases |fs|
  {
    if fs != [] {
      ApplyFieldsUntagged(s, fs[..|fs| - 1]);
    }
  }

  /** The field loop of Parse for one struct. */
  method ReadTags(name: string, fields: seq<Field>) returns (r: Result<Struct, GoopPanic>)
    ensures r == ApplyFields(NewStruct(name), fields)
  {
    var curr := NewStruct(name);
    for i := 0 to |fields|
      invariant ApplyFields(NewStruct(name), fields[..i]) == Success(curr)
    {
      assert fields[..i + 1][..i] == fields[..i];
      var step := ApplyField(curr, fields[i]);
      if step.Failure? {
        ApplyFieldsStops(NewStruct(name), fields, i + 1);
        return Failure(step.error);
      }
      curr := step.value;
    }
    assert fields[..|fields|] == fields;
    return Success(curr);
  }

  /** Once the field loop has panicked it reports that panic. */
  lemma {:induction false} ApplyFieldsStops(s: Struct, fs: seq<Field>, i: nat)
    requires 0 < i <= |fs| && ApplyFields(s, fs[..i]).Failure?
    ensures ApplyFields(s, fs) == ApplyFields(s, fs[..i])
    decreases |fs| - i
  {
    if i < |fs| {
      assert fs[..i + 1][..i] == fs[..i];
      ApplyFieldsStops(s, fs, i + 1);
    } else {
      assert fs[..i] == fs;
    }
  }

  /** Structs recorded so far: each under its own name, with no functions. */
  predicate Declared(m: map<string, Struct>) {
    forall n :: n in m ==> m[n].name == n && m[n].functions == []
  }

  /** A GenDecl introduced by the type keyword. */
  predicate IsTypeDecl(d: Decl) {
    d.Gen? && d.gen.tok == TYPE
  }

  /** One iteration of the first declaration loop. */
  function RecordType(m: map<string, Struct>, d: Decl): (r: Result<map<string, Struct>, Stop>)
    ensures !IsTypeDecl(d) ==> r == Success(m)
    ensures r == Failure(Error(ManySpecs)) <==> IsTypeDecl(d) && |d.gen.specs| != 1
    ensures r.Success? && Declared(m) ==> Declared(r.value)
    ensures r != Failure(Error(MissingPackageName))
    ensures r.Success? && IsTypeDecl(d) && d.gen.specs[0].TypeSpec? ==> d.gen.specs[0].typ.StructType?
    ensures r.Success? && IsTypeDecl(d) && d.gen.specs[0].TypeSpec? && d.gen.specs[0].typ.StructType? ==>
              exists s :: r.value == m[d.gen.specs[0].name := s]
                          && ApplyFields(NewStruct(d.gen.specs[0].name), d.gen.specs[0].typ.fields) == Success(s)
  {
    if !IsTypeDecl(d) then Success(m)
    else if |d.gen.specs| != 1 then Failure(Error(ManySpecs))
    else
      match d.gen.specs[0]
      case TypeSpec(name, _, typ) =>
        if !typ.StructType? then Failure(Panic(NotAStruct(name)))
        else
          (match ApplyFields(NewStruct(name), typ.fields)
           case Failure(p) => Failure(Panic(p))
           case Success(s) => Success(m[name := s]))
      case _ => Success(m)
  }

  /** The first declaration loop, in order. */
  function CollectTypes(decls: seq<Decl>): (r: Result<map<string, Struct>, Stop>)
    ensures r.Success? ==> Declared(r.value)
    ensures r != Failure(Error(MissingPackageName))
    decreases |decls|
  {
    if decls == [] then Success(map[])
    else
      match CollectTypes(decls[..|decls| - 1])
      case Failure(e) => Failure(e)
      case Success(m) => RecordType(m, decls[|decls| - 1])
  }

  lemma {:induction false} CollectTypesStops(decls: seq<Decl>, i: nat)
    requires 0 < i <= |decls| && CollectTypes(decls[..i]).Failure?
    ensures CollectTypes(decls) == CollectTypes(decls[..i])
    decreases |decls| - i
  {
    if i < |decls| {
      assert decls[..i + 1][..i] == decls[..i];
      CollectTypesStops(decls, i + 1);
    } else {
      assert decls[..i] == decls;
    }
  }

  /** Parse returns the "many specs" error for the first type declaration
      without exactly one spec, once the declarations before it went through. */
  lemma ManySpecsReported(decls: seq<Decl>, i: nat)
    requires i < |decls| && CollectTypes(decls[..i]).Success?
    requires IsTypeDecl(decls[i]) && |decls[i].gen.specs| != 1
    ensures CollectTypes(decls) == Failure(Error(ManySpecs))
  {
    assert decls[..i + 1][..i] == decls[..i];
    CollectTypesStops(decls, i + 1);
  }

  /** The first loop of Parse. */
  method RecordTypes(decls: seq<Decl>) returns (r: Result<map<string, Struct>, Stop>)
    ensures r == CollectTypes(decls)
  {
    var structByName: map<string, Struct> := map[];
    for i := 0 to |decls|
      invariant CollectTypes(decls[..i]) == Success(structByName)
    {
      assert decls[..i + 1][..i] == decls[..i];
      var d := decls[i];
      if !d.Gen? || d.gen.tok != TYPE {
        continue;
      }
      if |d.gen.specs| != 1 {
        CollectTypesStops(decls, i + 1);
        return Failure(Error(ManySpecs));
      }
      if !d.gen.specs[0].TypeSpec? {
        continue;
      }
      var cls := d.gen.specs[0];
      if !cls.typ.StructType? {
        CollectTypesStops(decls, i + 1);
        return Failure(Panic(NotAStruct(cls.name)));
      }
      var curr := ReadTags(cls.name, cls.typ.fields);
      if curr.Failure? {
        CollectTypesStops(decls, i + 1);
        return Failure(Panic(curr.error));
      }
      structByName := structByName[cls.name := curr.value];
    }
    assert decls[..|decls|] == decls;
    return Success(structByName);
  }

  // ---------------------------------------------------------------------------
  // Parse, second pass: receiver functions appended to their struct
  // ---------------------------------------------------------------------------

  /** typeToString: a name, or the name under a pointer. */
  function TypeToString(f: Field): (r: Result<string, GoopPanic>)
    ensures r.Success? <==> f.typ.Ident? || (f.typ.StarExpr? && f.typ.x.Ident?)
    ensures f.typ.Ident? ==> r == Success(f.typ.name)
    ensures f.typ.StarExpr? && f.typ.x.Ident? ==> r == Success(f.typ.x.name)
  {
    match f.typ
    case Ident(n) => Success(n)
    case StarExpr(Ident(n)) => Success(n)
    case StarExpr(_) => Failure(StarOfNonIdent)
    case _ => Failure(UnknownType)
  }

  /** Map over a field list with typeToString: one type per field, in order,
      or the panic of the first field it cannot name. */
  function TypeStrings(fs: seq<Field>): (r: Result<seq<string>, GoopPanic>)
    ensures r.Success? <==> forall k :: 0 <= k < |fs| ==> TypeToString(fs[k]).Success?
    ensures r.Success? ==>
              |r.value| == |fs| && forall k :: 0 <= k < |fs| ==> r.value[k] == TypeToString(fs[k]).value
    ensures r.Failure? ==>
              exists k :: 0 <= k < |fs| && TypeToString(fs[k]) == Failure(r.error)
                          && forall l :: 0 <= l < k ==> TypeToString(fs[l]).Success?
  {
    if fs == [] then Success([])
    else
      match TypeToString(fs[0])
      case Failure(e) => Failure(e)
      case Success(t) =>
        match TypeStrings(fs[1..])
        case Failure(e) =>
          assert forall k :: 1 <= k < |fs| ==> fs[k] == fs[1..][k - 1];
          Failure(e)
        case Success(ts) =>
          assert forall k :: 1 <= k < |fs| ==> fs[k] == fs[1..][k - 1];
          Success([t] + ts)
  }

  /** A one-field list has the one type of its field. */
  lemma TypeStringsOne(f: Field)
    requires TypeToString(f).Success?
    ensures TypeStrings([f]) == Success([TypeToString(f).value])
  {
    var r := TypeStrings([f]);
    assert r.value == [TypeToString(f).value];
  }

  /** goop.go's Map, applied to a field list with typeToString. */
  method MapTypes(fs: seq<Field>) returns (r: Result<seq<string>, GoopPanic>)
    ensures r == TypeStrings(fs)
  {
    var values: seq<string> := [];
    for i := 0 to |fs|
      invariant |values| == i
      invariant forall k :: 0 <= k < i ==> TypeToString(fs[k]) == Success(values[k])
    {
      var t := TypeToString(fs[i]);
      if t.Failure? {
        return Failure(t.error);
      }
      values := values + [t.value];
    }
    var spec := TypeStrings(fs);
    assert forall k :: 0 <= k < |fs| ==> spec.value[k] == values[k];
    assert spec.value == values;
    return Success(values);
  }

  /** The receiver's struct name: the first receiver must be *T for a name T. */
  function ReceiverName(recv: seq<Field>): (r: Result<string, GoopPanic>)
    ensures r.Success? <==> |recv| > 0 && recv[0].typ.StarExpr? && recv[0].typ.x.Ident?
    ensures r.Success? ==> r.value == recv[0].typ.x.name
    ensures |recv| == 0 ==> r == Failure(EmptyReceiverList)
    ensures |recv| > 0 && !recv[0].typ.StarExpr? ==> r == Failure(ReceiverNotPointer)
  {
    if |recv| == 0 then Failure(EmptyReceiverList)
    else
      match recv[0].typ
      case StarExpr(Ident(n)) => Success(n)
      case StarExpr(_) => Failure(ReceiverNotIdent)
      case _ => Failure(ReceiverNotPointer)
  }

  /** The result types of a function as goop.go:165 reads them: the field
      list behind a nil result list is dereferenced, so a function that
      declares no results panics. */
  function ResultTypesAsWritten(results: Option<seq<Field>>): (r: Result<seq<string>, GoopPanic>)
    ensures results.None? ==> r == Failure(NilResults)
    ensures results.Some? ==> r == TypeStrings(results.value)
  {
    match results
    case None => Failure(NilResults)
    case Some(fs) => TypeStrings(fs)
  }

  /** The result types as evidently intended: a function without results
      has no return types. */
  function ResultTypes(results: Option<seq<Field>>): (r: Result<seq<string>, GoopPanic>)
    ensures results.None? ==> r == Success([])
    ensures results.Some? ==> r == TypeStrings(results.value)
    ensures r.Failure? ==> ResultTypesAsWritten(results) == r
  {
    match results
    case None => Success([])
    case Some(fs) => TypeStrings(fs)
  }

  /** The two readings of a result list that is missing: the code as
      written, which dereferences it, and the correction. */
  datatype Reading = AsWritten | Corrected

  /** The result types under a reading. */
  function ReadResults(reading: Reading, results: Option<seq<Field>>): Result<seq<string>, GoopPanic> {
    if reading == AsWritten then ResultTypesAsWritten(results) else ResultTypes(results)
  }

  /** A function declaration with a receiver, read as the receiver's struct
      name and the Function recorded for it; the result types are read
      before the parameter types. */
  function FunctionOf(d: FuncDecl, reading: Reading): (r: Result<(string, Function), GoopPanic>)
    requires d.recv.Some?
    ensures r.Success? <==>
              ReceiverName(d.recv.value).Success? && ReadResults(reading, d.typ.results).Success?
              && TypeStrings(d.typ.params).Success?
    ensures r.Success? ==>
              && r.value.0 == ReceiverName(d.recv.value).value
              && r.value.1 == Function(d.name, TypeStrings(d.typ.params).value, ReadResults(reading, d.typ.results).value)
    ensures ReceiverName(d.recv.value).Failure? ==> r == Failure(ReceiverName(d.recv.value).error)
  {
    match ReceiverName(d.recv.value)
    case Failure(p) => Failure(p)
    case Success(receiver) =>
      match ReadResults(reading, d.typ.results)
      case Failure(p) => Failure(p)
      case Success(rets) =>
        match TypeStrings(d.typ.params)
        case Failure(p) => Failure(p)
        case Success(params) => Success((receiver, Function(d.name, params, rets)))
  }

  predicate IsReceiverFunction(d: Decl) {
    d.Func? && d.func.recv.Some?
  }

  /** One iteration of the second declaration loop. */
  function RecordFunction(m: map<string, Struct>, d: Decl, reading: Reading): (r: Result<map<string, Struct>, GoopPanic>)
    ensures !IsReceiverFunction(d) ==> r == Success(m)
    ensures r.Success? ==> r.value.Keys == m.Keys && forall n :: n in m ==> r.value[n].name == m[n].name
    ensures IsReceiverFunction(d) && FunctionOf(d.func, reading).Failure? ==> r == Failure(FunctionOf(d.func, reading).error)
    ensures IsReceiverFunction(d) && FunctionOf(d.func, reading).Success? ==>
              var (receiver, f) := FunctionOf(d.func, reading).value;
              (receiver in m ==> r == Success(m[receiver := m[receiver].(functions := m[receiver].functions + [f])]))
              && (receiver !in m ==> r == Failure(UnknownReceiver(receiver)))
  {
    if !IsReceiverFunction(d) then Success(m)
    else
      match FunctionOf(d.func, reading)
      case Failure(p) => Failure(p)
      case Success((receiver, f)) =>
        if receiver !in m then Failure(UnknownReceiver(receiver))
        else Success(m[receiver := m[receiver].(functions := m[receiver].functions + [f])])
  }

  /** The second declaration loop, in order. */
  function CollectFunctions(m: map<string, Struct>, decls: seq<Decl>, reading: Reading): (r: Result<map<string, Struct>, GoopPanic>)
    ensures r.Success? ==> r.value.Keys == m.Keys && forall n :: n in m ==> r.value[n].name == m[n].name
    decreases |decls|
  {
    if decls == [] then Success(m)
    else
      match CollectFunctions(m, decls[..|decls| - 1], reading)
      case Failure(e) => Failure(e)
      case Success(m1) => RecordFunction(m1, decls[|decls| - 1], reading)
  }

  lemma {:induction false} CollectFunctionsStops(m: map<string, Struct>, decls: seq<Decl>, i: nat, reading: Reading)
    requires 0 < i <= |decls| && CollectFunctions(m, decls[..i], reading).Failure?
    ensures CollectFunctions(m, decls, reading) == CollectFunctions(m, decls[..i], reading)
    decreases |decls| - i
  {
    if i < |decls| {
      assert decls[..i + 1][..i] == decls[..i];
      CollectFunctionsStops(m, decls, i + 1, reading);
    } else {
      assert decls[..i] == decls;
    }
  }

  /** The receiver functions declared for struct `name`, in declaration order:
      an independent reading of what the second loop appends. */
  function FunctionsFor(decls: seq<Decl>, name: string, reading: Reading): seq<Function>
    decreases |decls|
  {
    if decls == [] then []
    else
      var d := decls[|decls| - 1];
      var rest := FunctionsFor(decls[..|decls| - 1], name, reading);
      if IsReceiverFunction(d) && FunctionOf(d.func, reading).Success? && FunctionOf(d.func, reading).value.0 == name
      then rest + [FunctionOf(d.func, reading).value.1]
      else rest
  }

  /** Each struct ends up with the functions it had, followed by its
      receiver functions in the order they are declared. */
  lemma {:induction false} DeclarationOrder(m: map<string, Struct>, decls: seq<Decl>, reading: Reading)
    requires CollectFunctions(m, decls, reading).Success?
    ensures forall n :: n in m ==>
              CollectFunctions(m, decls, reading).value[n] == m[n].(functions := m[n].functions + FunctionsFor(decls, n, reading))
    decreases |decls|
  {
    if decls == [] {
      forall n | n in m ensures m[n] == m[n].(functions := m[n].functions + FunctionsFor(decls, n, reading)) {
        assert m[n].functions + [] == m[n].functions;
      }
    } else {
      var init := decls[..|decls| - 1];
      var d := decls[|decls| - 1];
      DeclarationOrder(m, init, reading);
      var m1 := CollectFunctions(m, init, reading).value;
      forall n | n in m
        ensures CollectFunctions(m, decls, reading).value[n] == m[n].(functions := m[n].functions + FunctionsFor(decls, n, reading))
      {
        DeclarationOrderStep(m[n], m1, decls, n, reading);
      }
    }
  }

  /** The inductive step of DeclarationOrder for one struct. */
  lemma DeclarationOrderStep(s: Struct, m1: map<string, Struct>, decls: seq<Decl>, n: string, reading: Reading)
    requires decls != [] && n in m1
    requires m1[n] == s.(functions := s.functions + FunctionsFor(decls[..|decls| - 1], n, reading))
    requires RecordFunction(m1, decls[|decls| - 1], reading).Success?
    ensures RecordFunction(m1, decls[|decls| - 1], reading).value[n] == s.(functions := s.functions + FunctionsFor(decls, n, reading))
  {
    var d := decls[|decls| - 1];
    var before := FunctionsFor(decls[..|decls| - 1], n, reading);
    if IsReceiverFunction(d) && FunctionOf(d.func, reading).Success? && FunctionOf(d.func, reading).value.0 == n {
      var f := FunctionOf(d.func, reading).value.1;
      assert s.functions + before + [f] == s.functions + (before + [f]);
    }
  }

  // ---------------------------------------------------------------------------
  // Parse
  // ---------------------------------------------------------------------------

  /** What Parse computes for a parsed file: the structs by name, or where
      it stops. */
  function ParseSpec(file: File, reading: Reading): (r: Result<map<string, Struct>, Stop>)
    ensures r == Failure(Error(MissingPackageName)) <==> file.packageName.None?
    ensures r.Success? ==> forall n :: n in r.value ==> r.value[n].name == n
  {
    if file.packageName.None? then Failure(Error(MissingPackageName))
    else
      match CollectTypes(file.decls)
      case Failure(e) => Failure(e)
      case Success(m) =>
        match CollectFunctions(m, file.decls, reading)
        case Failure(p) => Failure(Panic(p))
        case Success(m1) => Success(m1)
  }

  /** A receiver function that declares no results. */
  predicate ResultlessReceiverFunction(d: Decl) {
    IsReceiverFunction(d) && d.func.typ.results.None?
  }

  /** The two readings of one receiver function agree except where the code
      as written panics on its missing results, and never where it has
      results. */
  lemma FunctionOfReadings(d: FuncDecl)
    requires d.recv.Some?
    ensures FunctionOf(d, AsWritten) != Failure(NilResults) ==> FunctionOf(d, AsWritten) == FunctionOf(d, Corrected)
    ensures FunctionOf(d, Corrected).Failure? ==> FunctionOf(d, AsWritten).Failure?
    ensures d.typ.results.Some? ==> FunctionOf(d, AsWritten) == FunctionOf(d, Corrected)
  {
  }

  /** The second loop under the two readings: the code as written stops
      with the nil-results panic or computes what the correction computes;
      the correction fails only where the code as written fails; and they
      agree on a declaration list in which every receiver function declares
      results. */
  lemma {:induction false} CollectFunctionsReadings(m: map<string, Struct>, decls: seq<Decl>)
    ensures CollectFunctions(m, decls, AsWritten) != Failure(NilResults) ==>
              CollectFunctions(m, decls, AsWritten) == CollectFunctions(m, decls, Corrected)
    ensures CollectFunctions(m, decls, Corrected).Failure? ==> CollectFunctions(m, decls, AsWritten).Failure?
    ensures (forall k :: 0 <= k < |decls| ==> !ResultlessReceiverFunction(decls[k])) ==>
              CollectFunctions(m, decls, AsWritten) == CollectFunctions(m, decls, Corrected)
    decreases |decls|
  {
    if decls != [] {
      var init := decls[..|decls| - 1];
      CollectFunctionsReadings(m, init);
      assert forall k :: 0 <= k < |init| ==> init[k] == decls[k];
      var d := decls[|decls| - 1];
      if IsReceiverFunction(d) {
        FunctionOfReadings(d.func);
      }
    }
  }

  /** ParseSpec under the two readings, as CollectFunctionsReadings states
      them for the second loop. */
  lemma ParseSpecReadings(file: File)
    ensures ParseSpec(file, AsWritten) != Failure(Panic(NilResults)) ==>
              ParseSpec(file, AsWritten) == ParseSpec(file, Corrected)
    ensures ParseSpec(file, Corrected).Failure? ==> ParseSpec(file, AsWritten).Failure?
    ensures (forall k :: 0 <= k < |file.decls| ==> !ResultlessReceiverFunction(file.decls[k])) ==>
              ParseSpec(file, AsWritten) == ParseSpec(file, Corrected)
  {
    if file.packageName.Some? && CollectTypes(file.decls).Success? {
      CollectFunctionsReadings(CollectTypes(file.decls).value, file.decls);
    }
  }

  /** The structs of a successful parse: exactly the structs of the map,
      each once, in some order. */
  predicate ListsValues(structs: seq<Struct>, m: map<string, Struct>) {
    && |structs| == |m|
    && (forall i :: 0 <= i < |structs| ==> structs[i].name in m && m[structs[i].name] == structs[i])
    && (forall n :: n in m ==> m[n] in structs)
    && (forall i, j :: 0 <= i < j < |structs| ==> structs[i].name != structs[j].name)
  }

  datatype Parsed = Parsed(packageName: string, structs: seq<Struct>)

  /** Parse over an already parsed file; the struct order is that in which
      ranging over the map visits it. Under AsWritten it is the code of
      goop.go:126-178 itself, which panics on a receiver function without
      results; under Corrected that function is recorded with no result
      types. */
  method Parse(file: File, reading: Reading) returns (r: Result<Parsed, Stop>)
    ensures r.Failure? <==> ParseSpec(file, reading).Failure?
    ensures r.Failure? ==> r.error == ParseSpec(file, reading).error
    ensures r.Success? ==> r.value.packageName == file.packageName.value
    ensures r.Success? ==> ListsValues(r.value.structs, ParseSpec(file, reading).value)
  {
    if file.packageName.None? {
      return Failure(Error(MissingPackageName));
    }
    var packageName := file.packageName.value;
    var types := RecordTypes(file.decls);
    if types.Failure? {
      assert ParseSpec(file, reading) == Failure(types.error);
      return Failure(types.error);
    }
    var structByName := RecordReceiverFunctions(types.value, file.decls, reading);
    if structByName.Failure? {
      assert ParseSpec(file, reading) == Failure(Panic(structByName.error));
      return Failure(Panic(structByName.error));
    }
    var m := structByName.value;
    assert ParseSpec(file, reading) == Success(m);
    var structs, keys := GeneratorUtils.MapItems(m);
    StructsListed(m, structs, keys);
    return Success(Parsed(packageName, structs));
  }

  lemma StructsListed(m: map<string, Struct>, structs: seq<Struct>, keys: seq<string>)
    requires forall n :: n in m ==> m[n].name == n
    requires GeneratorUtils.EnumeratesKeys(keys, m) && |structs| == |m|
    requires forall i :: 0 <= i < |structs| ==> keys[i] in m && structs[i] == m[keys[i]]
    requires forall n :: n in m ==> m[n] in structs
    ensures ListsValues(structs, m)
  {
    forall i, j | 0 <= i < j < |structs| ensures structs[i].name != structs[j].name {
      assert keys[i] != keys[j];
    }
  }

  /** The second loop of Parse. */
  method RecordReceiverFunctions(m: map<string, Struct>, decls: seq<Decl>, reading: Reading) returns (r: Result<map<string, Struct>, GoopPanic>)
    ensures r == CollectFunctions(m, decls, reading)
  {
    var structByName := m;
    for i := 0 to |decls|
      invariant CollectFunctions(m, decls[..i], reading) == Success(structByName)
    {
      assert decls[..i + 1][..i] == decls[..i];
      var d := decls[i];
      if !d.Func? || d.func.recv.None? {
        continue;
      }
      var receiver := ReceiverName(d.func.recv.value);
      if receiver.Failure? {
        CollectFunctionsStops(m, decls, i + 1, reading);
        return Failure(receiver.error);
      }
      var retTypes: seq<string> := [];
      if d.func.typ.results.None? && reading == AsWritten {
        CollectFunctionsStops(m, decls, i + 1, reading);
        return Failure(NilResults);
      }
      if d.func.typ.results.Some? {
        var rets := MapTypes(d.func.typ.results.value);
        if rets.Failure? {
          CollectFunctionsStops(m, decls, i + 1, reading);
          return Failure(rets.error);
        }
        retTypes := rets.value;
      }
      var paramTypes := MapTypes(d.func.typ.params);
      if paramTypes.Failure? {
        CollectFunctionsStops(m, decls, i + 1, reading);
        return Failure(paramTypes.error);
      }
      var name := receiver.value;
      if name !in structByName {
        CollectFunctionsStops(m, decls, i + 1, reading);
        return Failure(UnknownReceiver(name));
      }
      var s := structByName[name];
      structByName := structByName[name := s.(functions := s.functions + [Function(d.func.name, paramTypes.value, retTypes)])];
    }
    assert decls[..|decls|] == decls;
    return Success(structByName);
  }

  // ---------------------------------------------------------------------------
  // The Finding at goop.go:165
  // ---------------------------------------------------------------------------

  /** `func (a *A) Foo()`, a receiver function without results. */
  function ResultlessMethod(): FuncDecl {
    FuncDecl(None, Some([Field(["a"], StarExpr(Ident("A")), None)]), "Foo", FuncType(None, [], None))
  }

  /** As written, a receiver function without results makes Parse panic. */
  lemma ResultlessMethodPanicsAsWritten()
    ensures ReceiverName(ResultlessMethod().recv.value) == Success("A")
    ensures ResultTypesAsWritten(ResultlessMethod().typ.results) == Failure(NilResults)
  {
  }

  /** Corrected, every receiver function on a known struct whose parameter
      and result types are names (or pointers to names) is recorded, with
      no return types when it declares no results. */
  lemma ResultlessMethodRecorded(m: map<string, Struct>, d: FuncDecl)
    requires d.recv.Some? && ReceiverName(d.recv.value).Success? && ReceiverName(d.recv.value).value in m
    requires d.typ.results.None?
    requires forall k :: 0 <= k < |d.typ.params| ==> TypeToString(d.typ.params[k]).Success?
    ensures RecordFunction(m, Func(d), Corrected).Success?
    ensures RecordFunction(m, Func(d), Corrected).value[ReceiverName(d.recv.value).value].functions ==
              m[ReceiverName(d.recv.value).value].functions + [Function(d.name, TypeStrings(d.typ.params).value, [])]
  {
  }

  // ---------------------------------------------------------------------------
  // Write: the classes, each with its Impl functions renamed
  // ---------------------------------------------------------------------------

  /** A function with its Impl suffix removed. */
  function Renamed(f: Function): (g: Function)
    requires HasSuffix(f.name, "Impl")
    ensures g.name + "Impl" == f.name
    ensures g.argumentTypes == f.argumentTypes && g.returnTypes == f.returnTypes
  {
    Function(TrimSuffix(f.name, "Impl"), f.argumentTypes, f.returnTypes)
  }

  /** The Impl-suffixed functions, renamed, in order. */
  function ImplFunctions(fs: seq<Function>): seq<Function>
    decreases |fs|
  {
    if fs == [] then []
    else
      var f := fs[|fs| - 1];
      ImplFunctions(fs[..|fs| - 1]) + (if HasSuffix(f.name, "Impl") then [Renamed(f)] else [])
  }

  /** The copy Write makes of a class. */
  function ClassCopy(s: Struct): Struct {
    Struct(s.name, true, s.super, s.vtable, ImplFunctions(s.functions))
  }

  /** The copies of the classes, in order. */
  function Classes(structs: seq<Struct>): seq<Struct>
    decreases |structs|
  {
    if structs == [] then []
    else
      var s := structs[|structs| - 1];
      Classes(structs[..|structs| - 1]) + (if s.isClass then [ClassCopy(s)] else [])
  }

  /** The inner loop of Write. */
  method CopyClass(s: Struct) returns (cls: Struct)
    ensures cls == ClassCopy(s)
  {
    cls := NewStruct(s.name);
    cls := cls.(super := s.super, vtable := s.vtable, isClass := true);
    for i := 0 to |s.functions|
      invariant cls == ClassCopy(s.(functions := s.functions[..i]))
    {
      assert s.functions[..i + 1][..i] == s.functions[..i];
      var f := s.functions[i];
      if !HasSuffix(f.name, "Impl") {
        continue;
      }
      cls := cls.(functions := cls.functions + [Function(TrimSuffix(f.name, "Impl"), f.argumentTypes, f.returnTypes)]);
    }
    assert s.functions[..|s.functions|] == s.functions;
  }

  /** The filtering loop of Write, before the template is rendered. */
  method FilterClasses(structs: seq<Struct>) returns (filtered: seq<Struct>)
    ensures filtered == Classes(structs)
  {
    filtered := [];
    for i := 0 to |structs|
      invariant filtered == Classes(structs[..i])
    {
      assert structs[..i + 1][..i] == structs[..i];
      var s := structs[i];
      if !s.isClass {
        continue;
      }
      var cls := CopyClass(s);
      filtered := filtered + [cls];
    }
    assert structs[..|structs|] == structs;
  }

  /** Renaming keeps the order of the functions. */
  lemma {:induction false} ImplFunctionsAppend(a: seq<Function>, b: seq<Function>)
    ensures ImplFunctions(a + b) == ImplFunctions(a) + ImplFunctions(b)
    decreases |b|
  {
    if b == [] {
      assert a + b == a;
    } else {
      var init := b[..|b| - 1];
      assert (a + b)[..|a + b| - 1] == a + init;
      assert (a + b)[|a + b| - 1] == b[|b| - 1];
      ImplFunctionsAppend(a, init);
    }
  }

  /** Exactly the Impl functions are kept, each with the suffix removed. */
  lemma {:induction false} ImplFunctionsExactly(fs: seq<Function>)
    ensures forall g :: g in ImplFunctions(fs) <==> exists f :: f in fs && HasSuffix(f.name, "Impl") && g == Renamed(f)
    decreases |fs|
  {
    if fs != [] {
      var init := fs[..|fs| - 1];
      var last := fs[|fs| - 1];
      ImplFunctionsExactly(init);
      assert fs == init + [last];
      forall g ensures g in ImplFunctions(fs) <==> exists f :: f in fs && HasSuffix(f.name, "Impl") && g == Renamed(f) {
        if g in ImplFunctions(fs) && !(g in ImplFunctions(init)) {
          assert HasSuffix(last.name, "Impl") && g == Renamed(last);
        }
        if exists f :: f in fs && HasSuffix(f.name, "Impl") && g == Renamed(f) {
          var f :| f in fs && HasSuffix(f.name, "Impl") && g == Renamed(f);
          if f != last {
            assert f in init;
          }
        }
      }
    }
  }

  /** Filtering keeps the order of the structs. */
  lemma {:induction false} ClassesAppend(a: seq<Struct>, b: seq<Struct>)
    ensures Classes(a + b) == Classes(a) + Classes(b)
    decreases |b|
  {
    if b == [] {
      assert a + b == a;
    } else {
      var init := b[..|b| - 1];
      assert (a + b)[..|a + b| - 1] == a + init;
      assert (a + b)[|a + b| - 1] == b[|b| - 1];
      ClassesAppend(a, init);
    }
  }

  /** Exactly the classes are kept, each as its copy. */
  lemma {:induction false} ClassesExactly(structs: seq<Struct>)
    ensures forall t :: t in Classes(structs) <==> exists s :: s in structs && s.isClass && t == ClassCopy(s)
    decreases |structs|
  {
    if structs != [] {
      var init := structs[..|structs| - 1];
      var last := structs[|structs| - 1];
      ClassesExactly(init);
      assert structs == init + [last];
      forall t ensures t in Classes(structs) <==> exists s :: s in structs && s.isClass && t == ClassCopy(s) {
        if t in Classes(structs) && !(t in Classes(init)) {
          assert last.isClass && t == ClassCopy(last);
        }
        if exists s :: s in structs && s.isClass && t == ClassCopy(s) {
          var s :| s in structs && s.isClass && t == ClassCopy(s);
          if s != last {
            assert s in init;
          }
        }
      }
    }
  }

  // ---------------------------------------------------------------------------
  // The A struct of the Names example
  // ---------------------------------------------------------------------------

  /** `type A struct { aVtable `goop:"vtable"`; firstName string }` */
  function ExampleA(): Decl {
    Gen(GenDecl(None, TYPE, [TypeSpec("A", None, StructType([
      Field([], Ident("aVtable"), Some(BasicLit(STRING, "`goop:\"vtable\"`"))),
      Field(["firstName"], Ident("string"), None)]))]))
  }

  /** The tag `goop:"vtable"` has the goop value "vtable". */
  lemma ExampleVtableTag(f: Field)
    requires f.tag == Some(BasicLit(STRING, "`goop:\"vtable\"`"))
    ensures TaggedVtable(f)
  {
    var lit := "`goop:\"vtable\"`";
    assert lit[1..|lit| - 1] == "goop" + ":\"" + "vtable" + "\"";
    LookupSinglePair("goop", "vtable");
  }

  /** The field loop over A's fields: the tagged embedded field makes it a
      class with that vtable, the plain field changes nothing. */
  lemma ExampleAFields()
    ensures ApplyFields(NewStruct("A"), ExampleA().gen.specs[0].typ.fields)
            == Success(Struct("A", true, None, Some("aVtable"), []))
  {
    var fs := ExampleA().gen.specs[0].typ.fields;
    var ns := NewStruct("A");
    var a := Struct("A", true, None, Some("aVtable"), []);
    ExampleVtableTag(fs[0]);
    assert ApplyField(ns, fs[0]) == Success(a);
    assert fs[..1][..0] == [];
    assert ApplyFields(ns, fs[..1]) == Success(a);
    assert fs[1].tag.None?;
    assert ApplyField(a, fs[1]) == Success(a);
    assert fs[..2][..1] == fs[..1] && fs[..2] == fs;
  }

  /** A vtable-tagged embedded field makes A a class with that vtable. */
  lemma ExampleAIsClass()
    ensures RecordType(map[], ExampleA()) == Success(map["A" := Struct("A", true, None, Some("aVtable"), [])])
  {
    ExampleAFields();
  }

  /** Write keeps A's getNameImpl as getName and drops New and Foo. */
  lemma ExampleAWritten()
    ensures Classes([Struct("A", true, None, Some("aVtable"), [
              Function("New", ["string"], ["A"]),
              Function("getNameImpl", [], ["string"]),
              Function("Foo", [], [])])])
            == [Struct("A", true, None, Some("aVtable"), [Function("getName", [], ["string"])])]
  {
    var fs := [Function("New", ["string"], ["A"]), Function("getNameImpl", [], ["string"]), Function("Foo", [], [])];
    assert !HasSuffix("New", "Impl");
    assert !HasSuffix("Foo", "Impl");
    assert HasSuffix("getNameImpl", "Impl");
    assert TrimSuffix("getNameImpl", "Impl") == "getName";
    var g := Function("getName", [], ["string"]);
    assert Renamed(fs[1]) == g;
    assert fs[..1][..0] == [];
    assert ImplFunctions(fs[..1]) == [];
    assert fs[..2][..1] == fs[..1];
    assert ImplFunctions(fs[..2]) == [g];
    assert fs[..3][..2] == fs[..2] && fs[..3] == fs;
    assert ImplFunctions(fs) == [g];
  }

  /** The receiver `(a *A)`. */
  function ExampleReceiver(): seq<Field> {
    [Field(["a"], StarExpr(Ident("A")), None)]
  }

  /** examples/Names/APackage/AFile.go as parsed: struct A, then New,
      getNameImpl and Foo on *A; Foo declares no results. */
  function ExampleAFile(): File {
    File(Some("APackage"), [
      ExampleA(),
      Func(FuncDecl(None, Some(ExampleReceiver()), "New",
        FuncType(None, [Field(["firstName"], Ident("string"), None)], Some([Field([], StarExpr(Ident("A")), None)])))),
      Func(FuncDecl(None, Some(ExampleReceiver()), "getNameImpl",
        FuncType(None, [], Some([Field([], Ident("string"), None)])))),
      Func(ResultlessMethod())])
  }

  /** One more declaration of the first loop. */
  lemma CollectTypesStep(decls: seq<Decl>, i: nat, m: map<string, Struct>)
    requires i < |decls| && CollectTypes(decls[..i]) == Success(m)
    ensures CollectTypes(decls[..i + 1]) == RecordType(m, decls[i])
  {
    assert decls[..i + 1][..i] == decls[..i];
  }

  /** One more declaration of the second loop. */
  lemma CollectFunctionsStep(m: map<string, Struct>, decls: seq<Decl>, i: nat, reading: Reading, m1: map<string, Struct>)
    requires i < |decls| && CollectFunctions(m, decls[..i], reading) == Success(m1)
    ensures CollectFunctions(m, decls[..i + 1], reading) == RecordFunction(m1, decls[i], reading)
  {
    assert decls[..i + 1][..i] == decls[..i];
  }

  /** The first loop over AFile.go records A as a class with vtable aVtable. */
  lemma ExampleAFileTypes()
    ensures CollectTypes(ExampleAFile().decls) == Success(map["A" := Struct("A", true, None, Some("aVtable"), [])])
  {
    var ds := ExampleAFile().decls;
    var m := map["A" := Struct("A", true, None, Some("aVtable"), [])];
    ExampleAIsClass();
    assert RecordType(map[], ds[0]) == Success(m);
    CollectTypesOfFour(ds, m);
  }

  /** The first loop over four declarations of which only the first one
      declares a type. */
  lemma CollectTypesOfFour(ds: seq<Decl>, m: map<string, Struct>)
    requires |ds| == 4 && RecordType(map[], ds[0]) == Success(m)
    requires RecordType(m, ds[1]) == Success(m) && RecordType(m, ds[2]) == Success(m)
    requires RecordType(m, ds[3]) == Success(m)
    ensures CollectTypes(ds) == Success(m)
  {
    assert ds[..0] == [];
    CollectTypesStep(ds, 0, map[]);
    CollectTypesStep(ds, 1, m);
    CollectTypesStep(ds, 2, m);
    CollectTypesStep(ds, 3, m);
    assert ds[..4] == ds;
  }

  /** AFile.go's New goes into A's function list. */
  lemma AFileRecordsNew(reading: Reading)
    ensures RecordFunction(map["A" := Struct("A", true, None, Some("aVtable"), [])], ExampleAFile().decls[1], reading)
            == Success(map["A" := Struct("A", true, None, Some("aVtable"), [Function("New", ["string"], ["A"])])])
  {
    var d := ExampleAFile().decls[1];
    var a := Struct("A", true, None, Some("aVtable"), []);
    var fNew := Function("New", ["string"], ["A"]);
    TypeStringsOne(Field(["firstName"], Ident("string"), None));
    TypeStringsOne(Field([], StarExpr(Ident("A")), None));
    assert ReceiverName(ExampleReceiver()) == Success("A");
    assert FunctionOf(d.func, reading) == Success(("A", fNew));
    assert a.functions + [fNew] == [fNew];
    assert map["A" := a]["A" := a.(functions := [fNew])] == map["A" := a.(functions := [fNew])];
  }

  /** Then getNameImpl goes after it. */
  lemma AFileRecordsGetName(reading: Reading)
    ensures RecordFunction(map["A" := Struct("A", true, None, Some("aVtable"), [Function("New", ["string"], ["A"])])],
                           ExampleAFile().decls[2], reading)
            == Success(map["A" := Struct("A", true, None, Some("aVtable"), [
                 Function("New", ["string"], ["A"]), Function("getNameImpl", [], ["string"])])])
  {
    var d := ExampleAFile().decls[2];
    var fNew := Function("New", ["string"], ["A"]);
    var fGet := Function("getNameImpl", [], ["string"]);
    var a := Struct("A", true, None, Some("aVtable"), [fNew]);
    TypeStringsOne(Field([], Ident("string"), None));
    assert ReceiverName(ExampleReceiver()) == Success("A");
    assert FunctionOf(d.func, reading) == Success(("A", fGet));
    assert [fNew] + [fGet] == [fNew, fGet];
    assert map["A" := a]["A" := a.(functions := [fNew, fGet])] == map["A" := a.(functions := [fNew, fGet])];
  }

  /** Foo, which declares no results: the nil-results panic as written,
      a function without return types corrected. */
  lemma AFileRecordsFoo(reading: Reading)
    ensures RecordFunction(map["A" := Struct("A", true, None, Some("aVtable"), [
                             Function("New", ["string"], ["A"]), Function("getNameImpl", [], ["string"])])],
                           ExampleAFile().decls[3], reading)
            == if reading == AsWritten then Failure(NilResults)
               else Success(map["A" := Struct("A", true, None, Some("aVtable"), [
                      Function("New", ["string"], ["A"]),
                      Function("getNameImpl", [], ["string"]),
                      Function("Foo", [], [])])])
  {
    var d := ExampleAFile().decls[3];
    var fNew := Function("New", ["string"], ["A"]);
    var fGet := Function("getNameImpl", [], ["string"]);
    var fFoo := Function("Foo", [], []);
    var a := Struct("A", true, None, Some("aVtable"), [fNew, fGet]);
    if reading == AsWritten {
      assert FunctionOf(d.func, reading) == Failure(NilResults);
    } else {
      assert FunctionOf(d.func, reading) == Success(("A", fFoo));
      assert [fNew, fGet] + [fFoo] == [fNew, fGet, fFoo];
      assert map["A" := a]["A" := a.(functions := [fNew, fGet, fFoo])] == map["A" := a.(functions := [fNew, fGet, fFoo])];
    }
  }

  /** The second loop over AFile.go records New and getNameImpl, then meets
      Foo: as written it panics there, corrected it records Foo with no
      return types. */
  lemma ExampleAFileFunctions(reading: Reading)
    ensures CollectFunctions(map["A" := Struct("A", true, None, Some("aVtable"), [])], ExampleAFile().decls, reading)
            == if reading == AsWritten then Failure(NilResults)
               else Success(map["A" := Struct("A", true, None, Some("aVtable"), [
                      Function("New", ["string"], ["A"]),
                      Function("getNameImpl", [], ["string"]),
                      Function("Foo", [], [])])])
  {
    var ds := ExampleAFile().decls;
    var fNew := Function("New", ["string"], ["A"]);
    var fGet := Function("getNameImpl", [], ["string"]);
    var m0 := map["A" := Struct("A", true, None, Some("aVtable"), [])];
    var m1 := map["A" := Struct("A", true, None, Some("aVtable"), [fNew])];
    var m2 := map["A" := Struct("A", true, None, Some("aVtable"), [fNew, fGet])];
    AFileRecordsNew(reading);
    AFileRecordsGetName(reading);
    AFileRecordsFoo(reading);
    CollectFunctionsOfFour(m0, ds, reading, m1, m2);
  }

  /** The second loop over four declarations of which the first one is
      not a function. */
  lemma CollectFunctionsOfFour(m0: map<string, Struct>, ds: seq<Decl>, reading: Reading,
                               m1: map<string, Struct>, m2: map<string, Struct>)
    requires |ds| == 4 && !IsReceiverFunction(ds[0])
    requires RecordFunction(m0, ds[1], reading) == Success(m1)
    requires RecordFunction(m1, ds[2], reading) == Success(m2)
    ensures CollectFunctions(m0, ds, reading) == RecordFunction(m2, ds[3], reading)
  {
    assert ds[..0] == [];
    CollectFunctionsStep(m0, ds, 0, reading, m0);
    CollectFunctionsStep(m0, ds, 1, reading, m0);
    CollectFunctionsStep(m0, ds, 2, reading, m1);
    CollectFunctionsStep(m0, ds, 3, reading, m2);
    assert ds[..4] == ds;
  }

  /** As written, parsing AFile.go panics at goop.go:165 on Foo; corrected,
      it yields the class A with its three receiver functions in
      declaration order. */
  lemma ExampleAFileParsed()
    ensures ParseSpec(ExampleAFile(), AsWritten) == Failure(Panic(NilResults))
    ensures ParseSpec(ExampleAFile(), Corrected) ==
              Success(map["A" := Struct("A", true, None, Some("aVtable"), [
                Function("New", ["string"], ["A"]),
                Function("getNameImpl", [], ["string"]),
                Function("Foo", [], [])])])
  {
    ExampleAFileTypes();
    ExampleAFileFunctions(AsWritten);
    ExampleAFileFunctions(Corrected);
  }

  // ---------------------------------------------------------------------------
  // main: the output path
  // ---------------------------------------------------------------------------

  /** The input path, with ".go" appended when missing. */
  function NormalizePath(path: string): (r: string)
    ensures HasSuffix(r, ".go")
    ensures HasSuffix(path, ".go") ==> r == path
    ensures !HasSuffix(path, ".go") ==> r == path + ".go"
  {
    if HasSuffix(path, ".go") then path else path + ".go"
  }

  /** Normalising a normalised path changes nothing. */
  lemma NormalizePathIdempotent(path: string)
    ensures NormalizePath(NormalizePath(path)) == NormalizePath(path)
  {
  }

  /** The length of the directory part: everything up to the last '/'. */
  function DirLength(path: string): (i: nat)
    ensures i <= |path|
    ensures i == 0 || path[i - 1] == '/'
    ensures forall k :: i <= k < |path| ==> path[k] != '/'
    decreases |path|
  {
    if path == [] then 0
    else if path[|path| - 1] == '/' then |path|
    else DirLength(path[..|path| - 1])
  }

  /** filepath.Split: the directory (with its trailing '/') and the file name. */
  function Split(path: string): (r: (string, string))
    ensures r.0 + r.1 == path
    ensures '/' !in r.1
    ensures r.0 == [] || r.0[|r.0| - 1] == '/'
  {
    var i := DirLength(path);
    assert path[..i] + path[i..] == path;
    (path[..i], path[i..])
  }

  /** Appending a name without '/' leaves the directory part alone. */
  lemma {:induction false} DirLengthAppend(path: string, t: string)
    requires '/' !in t
    ensures DirLength(path + t) == DirLength(path)
    decreases |t|
  {
    if t != [] {
      var init := t[..|t| - 1];
      assert (path + t)[..|path + t| - 1] == path + init;
      assert (path + t)[|path + t| - 1] == t[|t| - 1];
      DirLengthAppend(path, init);
    } else {
      assert path + t == path;
    }
  }

  /** The output path of main: the normalised input without ".go", with
      "_goop.go" added to the file name. */
  function OutputPath(path: string): (r: string)
    ensures HasSuffix(r, "_goop.go")
    ensures |r| == |NormalizePath(path)| + 5
  {
    var (dir, file) := Split(TrimSuffix(NormalizePath(path), ".go"));
    SuffixOfAppend(dir + file, "_goop.go");
    dir + file + "_goop.go"
  }

  /** The output file is the normalised input with ".go" replaced by
      "_goop.go". */
  lemma OutputPathShape(path: string)
    ensures TrimSuffix(NormalizePath(path), ".go") + ".go" == NormalizePath(path)
    ensures OutputPath(path) == TrimSuffix(NormalizePath(path), ".go") + "_goop.go"
  {
    var base := TrimSuffix(NormalizePath(path), ".go");
    var i := DirLength(base);
    assert '/' !in "_goop.go";
    DirLengthAppend(base, "_goop.go");
    assert (base + "_goop.go")[..i] == base[..i];
  }

  /** The output file sits in the input's directory, and its name is the
      input's name without ".go" followed by "_goop.go". */
  lemma OutputPathDirectory(path: string)
    ensures Split(OutputPath(path)).0 == Split(NormalizePath(path)).0
    ensures Split(OutputPath(path)).1 == Split(TrimSuffix(NormalizePath(path), ".go")).1 + "_goop.go"
  {
    OutputPathShape(path);
    var base := TrimSuffix(NormalizePath(path), ".go");
    assert '/' !in ".go";
    assert '/' !in "_goop.go";
    DirLengthAppend(base, ".go");
    DirLengthAppend(base, "_goop.go");
    var i := DirLength(base);
    assert (base + "_goop.go")[..i] == base[..i];
    assert (base + ".go")[..i] == base[..i];
    assert (base + "_goop.go")[i..] == base[i..] + "_goop.go";
  }

  /** "x" and "x.go" name the same input and the same output. */
  lemma OutputPathWithoutExtension(path: string)
    requires !HasSuffix(path, ".go")
    ensures OutputPath(path) == OutputPath(path + ".go")
  {
    TrimSuffixOfAppended(path, ".go");
  }
}
