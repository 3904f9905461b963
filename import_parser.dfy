/** package_parser/import_parser.go: an import spec and its rendering. */
module ImportParser {
  import opened Wrappers
  import opened GoStrings
  import opened GoAst

  /** The path keeps its quotes, exactly as the literal reads in the source. */
  datatype Import = Import(alias: Option<string>, path: string)

  function ParseImport(imp: ImportSpec): (r: Import)
    ensures r.path == imp.path.value
    ensures r.alias.Some? <==> imp.name.Some?
    ensures imp.name.Some? ==> r.alias.value == imp.name.value
  {
    match imp.name
    case Some(n) => Import(Some(n), imp.path.value)
    case None => Import(None, imp.path.value)
  }

  /** Import.String: "alias path", or just the path. */
  function String(i: Import): (s: string)
    ensures HasSuffix(s, i.path)
    ensures i.alias.Some? ==> HasPrefix(s, i.alias.value + " ")
    ensures |s| == |i.path| + if i.alias.Some? then |i.alias.value| + 1 else 0
  {
    match i.alias
    case Some(a) => a + " " + i.path
    case None => i.path
  }

  predicate IsQuote(c: char) {
    c == '"' || c == '`'
  }

  /** Reads a rendered import back: a line that starts with a quote is a bare
      path, otherwise the alias runs up to the first space. */
  function Unrender(s: string): Import {
    if s != [] && !IsQuote(s[0]) && ' ' in s then
      var i := FirstSpace(s);
      Import(Some(s[..i]), s[i + 1..])
    else Import(None, s)
  }

  /** An import whose path is a quoted literal and whose alias is an identifier
      (no space, no leading quote, not empty) is recovered from its rendering. */
  lemma {:induction false} StringRoundTrip(i: Import)
    requires i.path != [] && IsQuote(i.path[0])
    requires i.alias.Some? ==> i.alias.value != [] && !IsQuote(i.alias.value[0]) && ' ' !in i.alias.value
    ensures Unrender(String(i)) == i
  {
    match i.alias
    case Some(a) =>
      var s := a + " " + i.path;
      assert s[0] == a[0];
      FirstSpaceAfter(a, i.path);
      assert s[..|a|] == a;
      assert s[|a| + 1..] == i.path;
    case None =>
  }
}
