/** go_generator/variable_declaration.go: a name and a type, rendered as a
    declaration. */
module VariableDeclaration {
  import opened GoStrings

  datatype GoVarDecl = GoVarDecl(name: string, declType: string)

  /** goVarDecl.String: "name type". */
  function String(v: GoVarDecl): (s: string)
    ensures HasPrefix(s, v.name + " ") && HasSuffix(s, v.declType)
    ensures |s| == |v.name| + 1 + |v.declType|
  {
    v.name + " " + v.declType
  }

  /** Splits a rendered declaration at its first space. */
  function Unrender(s: string): GoVarDecl {
    if ' ' in s then GoVarDecl(s[..FirstSpace(s)], s[FirstSpace(s) + 1..]) else GoVarDecl("", s)
  }

  /** A declaration whose name holds no space is recovered from its
      rendering; the type may hold spaces (a map or func type). */
  lemma StringRoundTrip(v: GoVarDecl)
    requires ' ' !in v.name
    ensures Unrender(String(v)) == v
  {
    var s := String(v);
    FirstSpaceAfter(v.name, v.declType);
    assert s[..|v.name|] == v.name;
    assert s[|v.name| + 1..] == v.declType;
  }
}
