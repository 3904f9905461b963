/** go_generator/struct_generator.go: a builder that collects a struct's
    fields and its methods, and renders the struct followed by each method. */
module StructGenerator {
  import opened Wrappers
  import opened GoStrings
  import opened VariableDeclaration
  import opened FunctionGenerator

  /** The line of one field. */
  function VarLine(v: GoVarDecl): string {
    "\t" + VariableDeclaration.String(v) + "\n"
  }

  /** One "\tname type\n" line per field, in order. */
  function VarLines(vars: seq<GoVarDecl>): string
    decreases |vars|
  {
    if vars == [] then ""
    else VarLines(vars[..|vars| - 1]) + VarLine(vars[|vars| - 1])
  }

  /** A method, after a blank line. */
  function FunctionBlock(f: GoFunctionBuilder): string
    reads f
  {
    "\n" + f.Build()
  }

  /** Each method after a blank line, in order. */
  function FunctionBlocks(functions: seq<GoFunctionBuilder>): string
    reads functions
    decreases |functions|
  {
    if functions == [] then ""
    else FunctionBlocks(functions[..|functions| - 1]) + FunctionBlock(functions[|functions| - 1])
  }

  /** The struct definition alone. */
  function Definition(name: string, vars: seq<GoVarDecl>): string {
    "type " + name + " struct {\n" + VarLines(vars) + "}\n"
  }

  class GoStructBuilder {
    var name: string
    var vars: seq<GoVarDecl>
    var functions: seq<GoFunctionBuilder>

    /** NewGoStructBuilder; unlike the function builder it accepts any name. */
    constructor (name: string)
      ensures this.name == name && vars == [] && functions == []
    {
      this.name := name;
      vars := [];
      functions := [];
    }

    method AddVar(name: string, varType: string) returns (b: GoStructBuilder)
      modifies this
      ensures b == this
      ensures vars == old(vars) + [GoVarDecl(name, varType)]
      ensures this.name == old(this.name) && functions == old(functions)
    {
      vars := vars + [GoVarDecl(name, varType)];
      return this;
    }

    /** Makes `fn` a method of this struct: its receiver becomes
        `receiverName` of this struct's type, and it is rendered after the
        struct. */
    method AddReceiverFunction(fn: GoFunctionBuilder, receiverName: string, isRefReceiver: bool)
      returns (b: GoStructBuilder)
      modifies this, fn
      ensures b == this
      ensures fn.receiver == Some(GoFuncReceiver(receiverName, name, isRefReceiver))
      ensures fn.name == old(fn.name) && fn.params == old(fn.params)
      ensures fn.retVals == old(fn.retVals) && fn.impl == old(fn.impl)
      ensures functions == old(functions) + [fn]
      ensures name == old(name) && vars == old(vars)
    {
      var _ := fn.SetReceiver(receiverName, name, isRefReceiver);
      functions := functions + [fn];
      return this;
    }

    /** What Build writes. */
    function Text(): string
      reads this, functions
    {
      Definition(name, vars) + FunctionBlocks(functions)
    }

    /** Build, which writes the fields and then the methods one by one. */
    method Build() returns (r: string)
      ensures r == Text()
    {
      var fields := WriteVars(vars);
      var methods := WriteFunctions(functions);
      r := "type " + name + " struct {\n" + fields + "}\n" + methods;
    }
  }

  /** Build's first loop: the field lines, one by one. */
  method WriteVars(vars: seq<GoVarDecl>) returns (r: string)
    ensures r == VarLines(vars)
  {
    r := "";
    for i := 0 to |vars|
      invariant r == VarLines(vars[..i])
    {
      VarLinesStep(vars, i);
      r := r + VarLine(vars[i]);
    }
    assert vars[..|vars|] == vars;
  }

  /** Build's second loop: the methods, one by one. */
  method WriteFunctions(functions: seq<GoFunctionBuilder>) returns (r: string)
    ensures r == FunctionBlocks(functions)
  {
    r := "";
    for i := 0 to |functions|
      invariant r == FunctionBlocks(functions[..i])
    {
      FunctionBlocksStep(functions, i);
      r := r + FunctionBlock(functions[i]);
    }
    assert functions[..|functions|] == functions;
  }

  lemma VarLinesStep(vars: seq<GoVarDecl>, i: nat)
    requires i < |vars|
    ensures VarLines(vars[..i + 1]) == VarLines(vars[..i]) + VarLine(vars[i])
  {
    assert vars[..i + 1][..i] == vars[..i];
  }

  lemma FunctionBlocksStep(functions: seq<GoFunctionBuilder>, i: nat)
    requires i < |functions|
    ensures FunctionBlocks(functions[..i + 1]) == FunctionBlocks(functions[..i]) + FunctionBlock(functions[i])
  {
    assert functions[..i + 1][..i] == functions[..i];
  }

  /** A struct without fields or methods renders as an empty definition. */
  lemma EmptyDefinition(name: string)
    ensures Definition(name, []) + FunctionBlocks([]) == "type " + name + " struct {\n}\n"
  {
  }

  /** Each field adds one line of its own to the definition, which otherwise
      takes two. */
  lemma {:induction false} DefinitionLineCount(name: string, vars: seq<GoVarDecl>)
    requires '\n' !in name
    requires forall k :: 0 <= k < |vars| ==> '\n' !in VariableDeclaration.String(vars[k])
    ensures Count(Definition(name, vars), '\n') == |vars| + 2
  {
    var head := "type " + name + " struct {";
    assert Definition(name, vars) == head + "\n" + VarLines(vars) + "}\n";
    CountAbsent(head, '\n');
    VarLinesCount(vars);
    CountAppend(head + "\n" + VarLines(vars), "}\n", '\n');
    CountAppend(head + "\n", VarLines(vars), '\n');
    CountAppend(head, "\n", '\n');
    assert Count("\n", '\n') == 1;
    assert Count("}\n", '\n') == 1;
  }

  lemma {:induction false} VarLinesCount(vars: seq<GoVarDecl>)
    requires forall k :: 0 <= k < |vars| ==> '\n' !in VariableDeclaration.String(vars[k])
    ensures Count(VarLines(vars), '\n') == |vars|
    decreases |vars|
  {
    if vars != [] {
      var init := vars[..|vars| - 1];
      var line := VariableDeclaration.String(vars[|vars| - 1]);
      assert forall k :: 0 <= k < |init| ==> init[k] == vars[k];
      VarLinesCount(init);
      assert VarLines(vars) == VarLines(init) + VarLine(vars[|vars| - 1]);
      CountAppend(VarLines(init), "\t" + line + "\n", '\n');
      CountAppend("\t" + line, "\n", '\n');
      CountAppend("\t", line, '\n');
      CountAbsent(line, '\n');
      assert Count("\n", '\n') == 1;
      assert Count("\t", '\n') == 0;
    }
  }

  /** Adding a field inserts its line just before the closing brace. */
  lemma AddVarSplicesLine(name: string, vars: seq<GoVarDecl>, v: GoVarDecl)
    ensures var before := Definition(name, vars);
            Definition(name, vars + [v]) ==
              before[..|before| - 2] + VarLine(v) + "}\n"
  {
    var before := Definition(name, vars);
    var stem := "type " + name + " struct {\n" + VarLines(vars);
    assert before == stem + "}\n";
    assert before[..|before| - 2] == stem;
    assert (vars + [v])[..|vars|] == vars;
  }
}
