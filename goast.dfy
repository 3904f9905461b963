/** The handful of Go syntax-tree shapes (package go/ast) that the parsers
    switch on. A nil pointer in the tree is None; every expression shape the
    code does not distinguish is OtherExpr. A comment group is given by the
    text its Text() method returns. */
module GoAst {
  import opened Wrappers

  datatype Expr =
    | Ident(name: string)
    | StarExpr(x: Expr)
    | StructType(fields: seq<Field>)
    | InterfaceType
    | OtherExpr

  /** The kind of a basic literal (go/token). */
  datatype LitKind = INT | FLOAT | IMAG | CHAR | STRING

  /** A literal with its source text, quotes included. */
  datatype BasicLit = BasicLit(kind: LitKind, value: string)

  /** A struct field, parameter, result or receiver. */
  datatype Field = Field(names: seq<string>, typ: Expr, tag: Option<BasicLit>)

  datatype FuncType = FuncType(typeParams: Option<seq<Field>>, params: seq<Field>, results: Option<seq<Field>>)

  /** The text CommentGroup.Text() returns: empty, or ending in a line
      break, since it closes every comment line it keeps with one. */
  type CommentText = s: string | s == [] || s[|s| - 1] == '\n'

  datatype FuncDecl = FuncDecl(doc: Option<CommentText>, recv: Option<seq<Field>>, name: string, typ: FuncType)

  datatype ImportSpec = ImportSpec(name: Option<string>, path: BasicLit)

  datatype Spec =
    | TypeSpec(name: string, typeParams: Option<seq<Field>>, typ: Expr)
    | ImportSpecOf(spec: ImportSpec)
    | ValueSpec

  /** The keyword a general declaration starts with. */
  datatype DeclToken = IMPORT | CONST | TYPE | VAR

  datatype GenDecl = GenDecl(doc: Option<CommentText>, tok: DeclToken, specs: seq<Spec>)

  datatype Decl = Gen(gen: GenDecl) | Func(func: FuncDecl) | BadDecl

  /** A parsed source file: its package clause (None when missing) and its declarations. */
  datatype File = File(packageName: Option<string>, decls: seq<Decl>)

  /** CommentGroup.Text(), which is "" on a nil group. */
  function DocText(doc: Option<CommentText>): CommentText {
    match doc
    case None => ""
    case Some(t) => t
  }
}
