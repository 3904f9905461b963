/** go_generator/function_generator.go: a builder that collects a function's
    name, receiver, parameters, named results and body lines, and renders
    the function's source. */
module FunctionGenerator {
  import opened Wrappers
  import opened GoStrings
  import opened VariableDeclaration

  datatype GoFuncReceiver = GoFuncReceiver(name: string, receiverType: string, isRef: bool)

  const EmptyNameMessage: string := "Structs must be given names"

  /** The panic message of AddReturnType for an unnamed result. */
  function ReturnNameMessage(functionName: string): string {
    "function " + functionName + " return type must have a name"
  }

  /** utils.Map of goVarDecl.String over a declaration list. */
  function DeclStrings(vs: seq<GoVarDecl>): (r: seq<string>)
    ensures |r| == |vs| && forall k :: 0 <= k < |vs| ==> r[k] == VariableDeclaration.String(vs[k])
  {
    if vs == [] then [] else [VariableDeclaration.String(vs[0])] + DeclStrings(vs[1..])
  }

  /** "(name *Type) ", or nothing without a receiver. */
  function ReceiverPart(receiver: Option<GoFuncReceiver>): string {
    match receiver
    case None => ""
    case Some(r) => "(" + r.name + " " + (if r.isRef then "*" else "") + r.receiverType + ") "
  }

  /** The results part as Build computes it: the joined results, wrapped in
      parentheses when there are any, then a space when not empty. */
  function ResultsPart(retVals: seq<GoVarDecl>): string {
    var joined := Join(DeclStrings(retVals), ", ");
    var wrapped := if |retVals| > 0 then "(" + joined + ")" else joined;
    if wrapped != "" then wrapped + " " else wrapped
  }

  /** Everything Build writes before the body. */
  function Header(name: string, params: seq<GoVarDecl>, retVals: seq<GoVarDecl>,
                  receiver: Option<GoFuncReceiver>): string {
    "func " + ReceiverPart(receiver) + name + "(" + Join(DeclStrings(params), ", ") + ") "
    + ResultsPart(retVals) + "{\n"
  }

  /** GoFunctionBuilder.Build on the builder's fields. */
  function BuildText(name: string, params: seq<GoVarDecl>, retVals: seq<GoVarDecl>,
                     receiver: Option<GoFuncReceiver>, impl: string): string {
    Header(name, params, retVals, receiver) + impl + "}\n"
  }

  /** What AddImplLines appends to the body: each line on a line of its own,
      indented by one tab (a lone "\t" line when given no lines). */
  function ImplLines(lines: seq<string>): string {
    "\t" + Join(lines, "\n\t") + "\n"
  }

  class GoFunctionBuilder {
    var name: string
    var params: seq<GoVarDecl>
    var retVals: seq<GoVarDecl>
    var receiver: Option<GoFuncReceiver>
    var impl: string

    /** What the panics of the constructor and of AddReturnType guarantee:
        the function and each of its results have a name. */
    predicate Valid()
      reads this
    {
      name != "" && forall i :: 0 <= i < |retVals| ==> retVals[i].name != ""
    }

    constructor (name: string)
      requires name != ""
      ensures Valid()
      ensures this.name == name && params == [] && retVals == [] && receiver == None && impl == ""
    {
      this.name := name;
      params := [];
      retVals := [];
      receiver := None;
      impl := "";
    }

    /** NewGoFunctionBuilder, which panics on an empty name. */
    static method New(name: string) returns (r: Result<GoFunctionBuilder, string>)
      ensures r.Failure? <==> name == ""
      ensures r.Failure? ==> r.error == EmptyNameMessage
      ensures r.Success? ==>
                && fresh(r.value) && r.value.Valid()
                && r.value.name == name && r.value.params == [] && r.value.retVals == []
                && r.value.receiver == None && r.value.impl == ""
    {
      if name == "" {
        return Failure(EmptyNameMessage);
      }
      var b := new GoFunctionBuilder(name);
      return Success(b);
    }

    method AddParam(name: string, paramType: string) returns (b: GoFunctionBuilder)
      modifies this
      ensures b == this
      ensures params == old(params) + [GoVarDecl(name, paramType)]
      ensures this.name == old(this.name) && retVals == old(retVals)
      ensures receiver == old(receiver) && impl == old(impl)
      ensures Valid() == old(Valid())
    {
      params := params + [GoVarDecl(name, paramType)];
      return this;
    }

    method AddReturnType(name: string, retType: string) returns (r: Result<GoFunctionBuilder, string>)
      modifies this
      ensures name == "" ==> r == Failure(ReturnNameMessage(this.name)) && unchanged(this)
      ensures name != "" ==> r == Success(this) && retVals == old(retVals) + [GoVarDecl(name, retType)]
      ensures this.name == old(this.name) && params == old(params)
      ensures receiver == old(receiver) && impl == old(impl)
      ensures old(Valid()) ==> Valid()
    {
      if name == "" {
        return Failure(ReturnNameMessage(this.name));
      }
      retVals := retVals + [GoVarDecl(name, retType)];
      return Success(this);
    }

    method SetReceiver(name: string, receiverType: string, isRef: bool) returns (b: GoFunctionBuilder)
      modifies this
      ensures b == this
      ensures receiver == Some(GoFuncReceiver(name, receiverType, isRef))
      ensures this.name == old(this.name) && params == old(params)
      ensures retVals == old(retVals) && impl == old(impl)
      ensures Valid() == old(Valid())
    {
      receiver := Some(GoFuncReceiver(name, receiverType, isRef));
      return this;
    }

    /** Replaces the body by the given text and a final line break. */
    method SetImplRaw(impl: string) returns (b: GoFunctionBuilder)
      modifies this
      ensures b == this
      ensures this.impl == impl + "\n"
      ensures name == old(name) && params == old(params)
      ensures retVals == old(retVals) && receiver == old(receiver)
      ensures Valid() == old(Valid())
    {
      this.impl := impl + "\n";
      return this;
    }

    method AddImplLines(lines: seq<string>) returns (b: GoFunctionBuilder)
      modifies this
      ensures b == this
      ensures impl == old(impl) + ImplLines(lines)
      ensures name == old(name) && params == old(params)
      ensures retVals == old(retVals) && receiver == old(receiver)
      ensures Valid() == old(Valid())
    {
      impl := impl + ("\t" + Join(lines, "\n\t") + "\n");
      return this;
    }

    /** Build: the header, starting with "func ", the receiver and the
        name, then the body and the closing brace. */
    function Build(): (s: string)
      reads this
      ensures HasPrefix(s, "func " + ReceiverPart(receiver) + name + "(")
      ensures HasSuffix(s, impl + "}\n")
    {
      var head := "func " + ReceiverPart(receiver) + name + "(";
      var h := Header(name, params, retVals, receiver);
      var rest := Join(DeclStrings(params), ", ") + ") " + ResultsPart(retVals) + "{\n";
      assert h == head + rest;
      PrefixOfAppend(head, rest);
      PrefixExtend(h, impl + "}\n", head);
      SuffixOfAppend(h, impl + "}\n");
      assert BuildText(name, params, retVals, receiver, impl) == h + (impl + "}\n");
      BuildText(name, params, retVals, receiver, impl)
    }
  }

  /** The results part is "(r1 T1, ...) " when there are results and empty
      otherwise: "(" wraps exactly the non-empty lists. */
  lemma ResultsPartShape(retVals: seq<GoVarDecl>)
    ensures ResultsPart(retVals) ==
              if |retVals| > 0 then "(" + Join(DeclStrings(retVals), ", ") + ") " else ""
  {
  }

  /** The rendering starts with the header and ends with the body and a
      closing brace; the header does not depend on the body. */
  lemma BuildTextShape(name: string, params: seq<GoVarDecl>, retVals: seq<GoVarDecl>,
                       receiver: Option<GoFuncReceiver>, impl: string)
    ensures var t := BuildText(name, params, retVals, receiver, impl);
            var h := Header(name, params, retVals, receiver);
            && |t| == |h| + |impl| + 2
            && t[..|h|] == h && t[|h|..|h| + |impl|] == impl && t[|h| + |impl|..] == "}\n"
            && t[..5] == "func "
  {
    var t := BuildText(name, params, retVals, receiver, impl);
    var h := Header(name, params, retVals, receiver);
    assert t == h + impl + "}\n";
    assert h[..5] == "func ";
  }

  /** Adding a parameter extends the parameter list by ", name type",
      or makes it "name type" when it was empty. */
  lemma ParamsAppend(params: seq<GoVarDecl>, v: GoVarDecl)
    ensures Join(DeclStrings(params + [v]), ", ") ==
              if params == [] then VariableDeclaration.String(v)
              else Join(DeclStrings(params), ", ") + ", " + VariableDeclaration.String(v)
  {
    assert DeclStrings(params + [v]) == DeclStrings(params) + [VariableDeclaration.String(v)];
    JoinSnoc(DeclStrings(params), VariableDeclaration.String(v), ", ");
  }

  /** AddImplLines adds one line per given line, and one line when given none. */
  lemma ImplLinesCount(lines: seq<string>)
    requires forall k :: 0 <= k < |lines| ==> '\n' !in lines[k]
    ensures Count(ImplLines(lines), '\n') == if lines == [] then 1 else |lines|
  {
    var j := Join(lines, "\n\t");
    CountAppend("\t" + j, "\n", '\n');
    CountAppend("\t", j, '\n');
    assert Count("\n", '\n') == 1;
    assert Count("\t", '\n') == 0;
    if lines != [] {
      JoinCount(lines, "\n\t", '\n');
      assert Count("\n\t", '\n') == 1;
    }
  }

  /** The built function has two line breaks of its own, after the header and
      after the closing brace, when no name or type holds one. */
  lemma {:induction false} BuildTextLineCount(name: string, params: seq<GoVarDecl>, retVals: seq<GoVarDecl>,
                                              receiver: Option<GoFuncReceiver>, impl: string)
    requires '\n' !in "func " + ReceiverPart(receiver) + name + "(" + Join(DeclStrings(params), ", ") + ") "
                      + ResultsPart(retVals)
    ensures Count(BuildText(name, params, retVals, receiver, impl), '\n') == 2 + Count(impl, '\n')
  {
    var line := "func " + ReceiverPart(receiver) + name + "(" + Join(DeclStrings(params), ", ") + ") "
                + ResultsPart(retVals);
    assert BuildText(name, params, retVals, receiver, impl) == line + "{\n" + impl + "}\n";
    CountAbsent(line, '\n');
    CountAppend(line + "{\n" + impl, "}\n", '\n');
    CountAppend(line + "{\n", impl, '\n');
    CountAppend(line, "{\n", '\n');
    assert Count("{\n", '\n') == 1;
    assert Count("}\n", '\n') == 1;
  }
}
