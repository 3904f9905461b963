/** package_parser/field_parser.go: a struct field, parameter or result
    declaration read off the syntax tree, and its rendering. */
module FieldParser {
  import opened Wrappers
  import opened GoStrings
  import opened GoAst

  /** Name is None for an unnamed field (an embedded field or an unnamed parameter). */
  datatype FieldDeclaration = FieldDeclaration(name: Option<string>, varType: string, tag: string)

  /** The panics of ParseFieldDeclaration, in the order they are checked. */
  datatype FieldPanic =
    | UnexpectedNameCount  // more than one name in one field
    | UnexpectedTagKind    // a tag literal that is not a string
    | StarOfNonIdent       // a pointer type whose base is not an identifier
    | UnknownFieldType     // any other type expression

  /** The type shapes ParseFieldDeclaration accepts: T and *T. */
  predicate SupportedFieldType(t: Expr) {
    t.Ident? || (t.StarExpr? && t.x.Ident?)
  }

  function ParseFieldDeclaration(decl: Field): (r: Result<FieldDeclaration, FieldPanic>)
    ensures r == Failure(UnexpectedNameCount) <==> |decl.names| > 1
    ensures r == Failure(UnexpectedTagKind) <==>
              |decl.names| <= 1 && decl.tag.Some? && decl.tag.value.kind != STRING
    ensures r == Failure(StarOfNonIdent) <==>
              |decl.names| <= 1 && (decl.tag.None? || decl.tag.value.kind == STRING)
              && decl.typ.StarExpr? && !decl.typ.x.Ident?
    ensures r == Failure(UnknownFieldType) <==>
              |decl.names| <= 1 && (decl.tag.None? || decl.tag.value.kind == STRING)
              && !decl.typ.Ident? && !decl.typ.StarExpr?
    ensures r.Success? <==>
              |decl.names| <= 1 && (decl.tag.None? || decl.tag.value.kind == STRING)
              && SupportedFieldType(decl.typ)
    ensures r.Success? ==>
              && r.value.name == (if |decl.names| == 1 then Some(decl.names[0]) else None)
              && r.value.tag == (if decl.tag.Some? then TrimChar(decl.tag.value.value, '`') else "")
              && r.value.varType == (if decl.typ.Ident? then decl.typ.name else "*" + decl.typ.x.name)
  {
    if |decl.names| > 1 then Failure(UnexpectedNameCount)
    else
      var name := if |decl.names| == 1 then Some(decl.names[0]) else None;
      if decl.tag.Some? && decl.tag.value.kind != STRING then Failure(UnexpectedTagKind)
      else
        var tag := if decl.tag.Some? then TrimChar(decl.tag.value.value, '`') else "";
        match decl.typ
        case Ident(n) => Success(FieldDeclaration(name, n, tag))
        case StarExpr(x) =>
          if x.Ident? then Success(FieldDeclaration(name, "*" + x.name, tag))
          else Failure(StarOfNonIdent)
        case _ => Failure(UnknownFieldType)
  }

  /** ParseFieldDeclaration applied to each field in order; the first panic
      stops the whole parse, as it does in the loops that call it. */
  function ParseFields(fs: seq<Field>): (r: Result<seq<FieldDeclaration>, FieldPanic>)
    ensures r.Success? <==> forall k :: 0 <= k < |fs| ==> ParseFieldDeclaration(fs[k]).Success?
    ensures r.Success? ==>
              |r.value| == |fs| && forall k :: 0 <= k < |fs| ==> Success(r.value[k]) == ParseFieldDeclaration(fs[k])
    ensures r.Failure? ==>
              exists k :: 0 <= k < |fs| && ParseFieldDeclaration(fs[k]) == Failure(r.error)
                          && forall l :: 0 <= l < k ==> ParseFieldDeclaration(fs[l]).Success?
  {
    if fs == [] then Success([])
    else
      match ParseFieldDeclaration(fs[0])
      case Failure(e) => Failure(e)
      case Success(d) =>
        var rest := fs[1..];
        assert forall k :: 1 <= k < |fs| ==> fs[k] == rest[k - 1];
        match ParseFields(rest)
        case Failure(e) =>
          var j :| 0 <= j < |rest| && ParseFieldDeclaration(rest[j]) == Failure(e)
                   && forall l :: 0 <= l < j ==> ParseFieldDeclaration(rest[l]).Success?;
          assert ParseFieldDeclaration(fs[j + 1]) == Failure(e);
          Failure(e)
        case Success(ds) =>
          Success([d] + ds)
  }

  /** FieldDeclaration.String: "name type", or just the type when unnamed. */
  function String(f: FieldDeclaration): (s: string)
    ensures HasSuffix(s, f.varType)
    ensures f.name.Some? ==> HasPrefix(s, f.name.value + " ")
    ensures |s| == |f.varType| + if f.name.Some? then |f.name.value| + 1 else 0
  {
    match f.name
    case Some(n) => n + " " + f.varType
    case None => f.varType
  }

  /** Splits a rendered field at its first space: the inverse of String. */
  function Unrender(s: string): (Option<string>, string) {
    if ' ' in s then
      var i := FirstSpace(s);
      (Some(s[..i]), s[i + 1..])
    else (None, s)
  }

  /** A field whose name and type hold no space is recovered from its rendering. */
  lemma StringRoundTrip(f: FieldDeclaration)
    requires ' ' !in f.varType
    requires f.name.Some? ==> ' ' !in f.name.value
    ensures Unrender(String(f)) == (f.name, f.varType)
  {
    match f.name
    case Some(n) =>
      FirstSpaceAfter(n, f.varType);
      var s := n + " " + f.varType;
      assert s[..|n|] == n;
      assert s[|n| + 1..] == f.varType;
    case None =>
  }

  /** A parsed field's type has no space when its identifiers have none. */
  lemma ParsedTypeHasNoSpace(decl: Field)
    requires ParseFieldDeclaration(decl).Success?
    requires decl.typ.Ident? ==> ' ' !in decl.typ.name
    requires decl.typ.StarExpr? ==> ' ' !in decl.typ.x.name
    ensures ' ' !in ParseFieldDeclaration(decl).value.varType
  {
    if decl.typ.StarExpr? {
      var t := "*" + decl.typ.x.name;
      forall k | 0 <= k < |t| ensures t[k] != ' ' {
        if k > 0 { assert t[k] == decl.typ.x.name[k - 1]; }
      }
    }
  }
}
