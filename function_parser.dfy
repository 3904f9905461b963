/** package_parser/function_parser.go: a function declaration read off the
    syntax tree, and its three renderings (Declaration, Signature, String). */
module FunctionParser {
  import opened Wrappers
  import opened GoStrings
  import opened GoAst
  import opened FieldParser

  datatype FunctionReceiver = FunctionReceiver(name: Option<string>, recvType: string, isRef: bool)

  /** returnTypes is None (a nil slice in Go) when nothing was ever appended to it. */
  datatype Function = Function(
    name: string,
    doc: Option<string>,
    argumentTypes: seq<FieldDeclaration>,
    returnTypes: Option<seq<FieldDeclaration>>,
    receiver: Option<FunctionReceiver>,
    body: string)

  /** The panics of ParseFunction, in the order they are checked. */
  datatype ParsePanic =
    | MultipleReceivers        // a receiver list with more than one entry
    | ReceiverIndexOutOfRange  // an empty receiver list, indexed at 0
    | ReceiverNameCount        // a receiver without exactly one name
    | StarReceiverNotIdent     // a pointer receiver whose base is not an identifier
    | FieldPanicked(cause: FieldPanic)

  const UnsupportedBody: string := "unsupported yet"

  /** A receiver whose type is T or *T; any other shape is reported and dropped. */
  predicate RecordedReceiverShape(t: Expr) {
    t.Ident? || t.StarExpr?
  }

  /** The receiver half of ParseFunction. */
  function ParseReceiver(recv: Option<seq<Field>>): (r: Result<Option<FunctionReceiver>, ParsePanic>)
    ensures recv.None? ==> r == Success(None)
    ensures recv.Some? && |recv.value| > 1 ==> r == Failure(MultipleReceivers)
    ensures recv.Some? && |recv.value| == 0 ==> r == Failure(ReceiverIndexOutOfRange)
    ensures recv.Some? && |recv.value| == 1 && |recv.value[0].names| != 1 ==>
              r == Failure(ReceiverNameCount)
    ensures recv.Some? && |recv.value| == 1 && |recv.value[0].names| == 1
            && recv.value[0].typ.StarExpr? && !recv.value[0].typ.x.Ident? ==>
              r == Failure(StarReceiverNotIdent)
    ensures recv.Some? && |recv.value| == 1 && |recv.value[0].names| == 1
            && !(recv.value[0].typ.StarExpr? && !recv.value[0].typ.x.Ident?) ==>
              && r.Success?
              && (r.value.Some? <==> RecordedReceiverShape(recv.value[0].typ))
              && (r.value.Some? ==>
                    && r.value.value.name == Some(recv.value[0].names[0])
                    && r.value.value.isRef == recv.value[0].typ.StarExpr?
                    && r.value.value.recvType ==
                         (if recv.value[0].typ.StarExpr? then recv.value[0].typ.x.name else recv.value[0].typ.name))
  {
    match recv
    case None => Success(None)
    case Some(list) =>
      if |list| > 1 then Failure(MultipleReceivers)
      else if |list| == 0 then Failure(ReceiverIndexOutOfRange)
      else if |list[0].names| != 1 then Failure(ReceiverNameCount)
      else
        var name := list[0].names[0];
        match list[0].typ
        case StarExpr(x) =>
          if x.Ident? then Success(Some(FunctionReceiver(Some(name), x.name, true)))
          else Failure(StarReceiverNotIdent)
        case Ident(n) => Success(Some(FunctionReceiver(Some(name), n, false)))
        case _ => Success(None)  // an unsupported receiver shape is only reported
  }

  /** One of ParseFunction's loops over a field list: each field parsed in
      turn, the first panic ending the parse. */
  method ParseFieldList(fs: seq<Field>) returns (r: Result<seq<FieldDeclaration>, FieldPanic>)
    ensures r == ParseFields(fs)
  {
    var out: seq<FieldDeclaration> := [];
    var i := 0;
    while i < |fs|
      invariant 0 <= i <= |fs| && |out| == i
      invariant forall k :: 0 <= k < i ==> ParseFieldDeclaration(fs[k]) == Success(out[k])
    {
      var p := ParseFieldDeclaration(fs[i]);
      if p.Failure? {
        return Failure(p.error);
      }
      out := out + [p.value];
      i := i + 1;
    }
    var spec := ParseFields(fs);
    assert forall k :: 0 <= k < |fs| ==> spec.value[k] == out[k];
    assert spec.value == out;
    return Success(out);
  }

  /** ParseFunction. The result slice stays nil (None) when the result list
      is absent or empty, since nothing is ever appended to it. */
  method ParseFunction(decl: FuncDecl) returns (r: Result<Function, ParsePanic>)
    ensures ParseReceiver(decl.recv).Failure? ==> r == Failure(ParseReceiver(decl.recv).error)
    ensures ParseReceiver(decl.recv).Success? && ParseFields(decl.typ.params).Failure? ==>
              r == Failure(FieldPanicked(ParseFields(decl.typ.params).error))
    ensures ParseReceiver(decl.recv).Success? && ParseFields(decl.typ.params).Success?
            && decl.typ.results.Some? && ParseFields(decl.typ.results.value).Failure? ==>
              r == Failure(FieldPanicked(ParseFields(decl.typ.results.value).error))
    ensures r.Success? <==>
              ParseReceiver(decl.recv).Success? && ParseFields(decl.typ.params).Success?
              && (decl.typ.results.None? || ParseFields(decl.typ.results.value).Success?)
    ensures r.Success? ==>
              && r.value.name == decl.name
              && r.value.body == UnsupportedBody
              && r.value.doc == (if decl.doc.Some? then Some(TrimSpace(decl.doc.value)) else None)
              && r.value.receiver == ParseReceiver(decl.recv).value
              && r.value.argumentTypes == ParseFields(decl.typ.params).value
              && (r.value.returnTypes.None? <==> decl.typ.results.None? || decl.typ.results.value == [])
              && (r.value.returnTypes.Some? ==> r.value.returnTypes.value == ParseFields(decl.typ.results.value).value)
  {
    var doc: Option<string> := None;
    if decl.doc.Some? {
      doc := Some(TrimSpace(decl.doc.value));
    }

    var receiver := ParseReceiver(decl.recv);
    if receiver.Failure? {
      return Failure(receiver.error);
    }

    var args := ParseFieldList(decl.typ.params);
    if args.Failure? {
      return Failure(FieldPanicked(args.error));
    }

    var rets: Option<seq<FieldDeclaration>> := None;
    if decl.typ.results.Some? {
      var parsed := ParseFieldList(decl.typ.results.value);
      if parsed.Failure? {
        return Failure(FieldPanicked(parsed.error));
      }
      if parsed.value != [] {
        rets := Some(parsed.value);
      }
    }

    return Success(Function(decl.name, doc, args.value, rets, receiver.value, UnsupportedBody));
  }

  /** utils.Map of FieldDeclaration.String over a field list. */
  function FieldStrings(fs: seq<FieldDeclaration>): (r: seq<string>)
    ensures |r| == |fs| && forall k :: 0 <= k < |fs| ==> r[k] == FieldParser.String(fs[k])
  {
    if fs == [] then [] else [FieldParser.String(fs[0])] + FieldStrings(fs[1..])
  }

  /** The comma-separated rendering of a field list. */
  function FieldList(fs: seq<FieldDeclaration>): string {
    Join(FieldStrings(fs), ", ")
  }

  /** FunctionReceiver.String: "name *Type", each part optional. */
  function ReceiverString(r: FunctionReceiver): (s: string)
    ensures HasSuffix(s, TypePart(r))
    ensures r.name.Some? ==> HasPrefix(s, r.name.value + " ")
    ensures |s| == |TypePart(r)| + if r.name.Some? then |r.name.value| + 1 else 0
  {
    var head := if r.name.Some? then r.name.value + " " else "";
    SuffixOfAppend(head, TypePart(r));
    PrefixOfAppend(head, TypePart(r));
    head + TypePart(r)
  }

  /** The " (results)" tail shared by Declaration and Signature: present iff
      the result slice is non-nil. */
  function ResultsPart(f: Function): string {
    if f.returnTypes.Some? then " (" + FieldList(f.returnTypes.value) + ")" else ""
  }

  /** The "(receiver) " head of Declaration: present iff there is a receiver. */
  function ReceiverPart(f: Function): string {
    if f.receiver.Some? then "(" + ReceiverString(f.receiver.value) + ") " else ""
  }

  /** Function.Signature: the function's type, parameters first; the
      results follow exactly when the result slice is non-nil. */
  function Signature(f: Function): (s: string)
    ensures HasPrefix(s, "func (" + FieldList(f.argumentTypes) + ")")
    ensures f.returnTypes.Some? <==> |s| > |"func (" + FieldList(f.argumentTypes) + ")"|
    ensures f.returnTypes.Some? ==> HasSuffix(s, " (" + FieldList(f.returnTypes.value) + ")")
  {
    "func (" + FieldList(f.argumentTypes) + ")" + ResultsPart(f)
  }

  /** Function.Declaration: the receiver in parentheses when there is one,
      then the name and the signature's parameter and result parts. */
  function Declaration(f: Function): (s: string)
    ensures f.receiver.Some? ==> HasPrefix(s, "(" + ReceiverString(f.receiver.value) + ") " + f.name + "(")
    ensures f.receiver.None? ==> HasPrefix(s, f.name + "(")
    ensures HasSuffix(s, ")" + ResultsPart(f))
  {
    var head := ReceiverPart(f) + f.name + "(";
    var params := FieldList(f.argumentTypes);
    var tail := ")" + ResultsPart(f);
    PrefixOfAppend(head, params + tail);
    SuffixOfAppend(head + params, tail);
    assert head + (params + tail) == head + params + tail;
    head + params + tail
  }

  /** Function.String: an optional doc comment line, then the declaration
      and the placeholder body. */
  function String(f: Function): string {
    DocPart(f) + ("func " + Declaration(f) + " {\n")
    + ("\t<" + f.body + ">\n}\n")
  }

  /** The declaration is the signature with "func " replaced by the
      receiver and the function's name. */
  lemma DeclarationFromSignature(f: Function)
    ensures |Signature(f)| >= 5 && Signature(f)[..5] == "func "
    ensures Declaration(f) == ReceiverPart(f) + f.name + Signature(f)[5..]
  {
    var params := FieldList(f.argumentTypes);
    var results := ResultsPart(f);
    var sig := Signature(f);
    assert sig == "func (" + params + ")" + results;
    var decl := Declaration(f);
    assert decl == ReceiverPart(f) + f.name + "(" + params + (")" + results);
    HeadReplaced(ReceiverPart(f) + f.name, params, results, sig, decl);
  }

  /** The string facts behind DeclarationFromSignature. */
  lemma HeadReplaced(head: string, params: string, results: string, sig: string, decl: string)
    requires sig == "func (" + params + ")" + results
    requires decl == head + "(" + params + (")" + results)
    ensures |sig| >= 5 && sig[..5] == "func "
    ensures decl == head + sig[5..]
  {
    assert sig[5..] == "(" + params + ")" + results;
  }

  /** The signature ends in " (results)" exactly when the result slice is
      non-nil, and the lengths add up accordingly. */
  lemma SignatureLength(f: Function)
    ensures f.returnTypes.None? ==> |Signature(f)| == 7 + |FieldList(f.argumentTypes)|
    ensures f.returnTypes.Some? ==>
              |Signature(f)| == 10 + |FieldList(f.argumentTypes)| + |FieldList(f.returnTypes.value)|
  {
  }

  /** The optional doc comment line of String. */
  function DocPart(f: Function): string {
    if f.doc.Some? then "// " + f.doc.value + "\n" else ""
  }

  /** The doc comment line keeps the line breaks of the trimmed text and
      adds one. */
  lemma DocPartCount(f: Function)
    ensures Count(DocPart(f), '\n') == if f.doc.Some? then Count(f.doc.value, '\n') + 1 else 0
  {
    if f.doc.Some? {
      CountAppend("// " + f.doc.value, "\n", '\n');
      CountAppend("// ", f.doc.value, '\n');
      CountAbsent("// ", '\n');
    }
  }

  lemma DeclarationLineCount(f: Function)
    requires '\n' !in Declaration(f)
    ensures Count("func " + Declaration(f) + " {\n", '\n') == 1
  {
    CountAppend("func " + Declaration(f), " {\n", '\n');
    CountAppend("func ", Declaration(f), '\n');
    CountAbsent(Declaration(f), '\n');
  }

  lemma BodyLineCount(body: string)
    requires '\n' !in body
    ensures Count("\t<" + body + ">\n}\n", '\n') == 2
  {
    CountAppend("\t<" + body, ">\n}\n", '\n');
    CountAppend("\t<", body, '\n');
    CountAbsent(body, '\n');
  }

  /** String has three line breaks besides those of its doc comment, which
      adds the line breaks of its text plus one. */
  lemma StringLineCount(f: Function)
    requires '\n' !in Declaration(f) && '\n' !in f.body
    ensures Count(String(f), '\n') == 3 + if f.doc.Some? then Count(f.doc.value, '\n') + 1 else 0
  {
    var mid := "func " + Declaration(f) + " {\n";
    var tail := "\t<" + f.body + ">\n}\n";
    DocPartCount(f);
    DeclarationLineCount(f);
    BodyLineCount(f.body);
    CountAppend(DocPart(f) + mid, tail, '\n');
    CountAppend(DocPart(f), mid, '\n');
  }

  /** Reads a rendered receiver back: an optional name up to the first space,
      then an optional '*', then the type. */
  function UnrenderReceiver(s: string): FunctionReceiver {
    var name := if ' ' in s then Some(s[..FirstSpace(s)]) else None;
    var rest := if ' ' in s then s[FirstSpace(s) + 1..] else s;
    if rest != [] && rest[0] == '*' then FunctionReceiver(name, rest[1..], true)
    else FunctionReceiver(name, rest, false)
  }

  /** The "*Type" part of a rendered receiver. */
  function TypePart(r: FunctionReceiver): string {
    (if r.isRef then "*" else "") + r.recvType
  }

  lemma TypePartHasNoSpace(r: FunctionReceiver)
    requires ' ' !in r.recvType
    ensures ' ' !in TypePart(r)
  {
    if r.isRef {
      var t := TypePart(r);
      forall k | 0 <= k < |t| ensures t[k] != ' ' {
        if k > 0 { assert t[k] == r.recvType[k - 1]; }
      }
    }
  }

  /** Reading back the type part of a rendered receiver. */
  lemma UnrenderTypePart(name: Option<string>, r: FunctionReceiver, rest: string)
    requires rest == TypePart(r)
    requires r.recvType == [] || r.recvType[0] != '*'
    ensures (if rest != [] && rest[0] == '*' then FunctionReceiver(name, rest[1..], true)
             else FunctionReceiver(name, rest, false)) == FunctionReceiver(name, r.recvType, r.isRef)
  {
    if r.isRef {
      assert rest[0] == '*' && rest[1..] == r.recvType;
    }
  }

  /** The rendered receiver is the "name " head, if any, then TypePart. */
  lemma UnrenderNamed(n: string, tail: string)
    requires ' ' !in n
    ensures UnrenderReceiver(n + " " + tail) ==
              if tail != [] && tail[0] == '*' then FunctionReceiver(Some(n), tail[1..], true)
              else FunctionReceiver(Some(n), tail, false)
  {
    var s := n + " " + tail;
    FirstSpaceAfter(n, tail);
    assert s[..|n|] == n;
    assert s[|n| + 1..] == tail;
  }

  /** A receiver whose identifiers hold no space, and whose type does not
      itself start with '*', is recovered from its rendering. */
  lemma ReceiverRoundTrip(r: FunctionReceiver)
    requires r.name.Some? ==> ' ' !in r.name.value
    requires ' ' !in r.recvType && (r.recvType == [] || r.recvType[0] != '*')
    ensures UnrenderReceiver(ReceiverString(r)) == r
  {
    var tail := TypePart(r);
    TypePartHasNoSpace(r);
    UnrenderTypePart(r.name, r, tail);
    if r.name.Some? {
      assert ReceiverString(r) == r.name.value + " " + tail;
      UnrenderNamed(r.name.value, tail);
    } else {
      assert ReceiverString(r) == tail;
    }
  }
}
