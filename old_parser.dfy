/** package_parser/old.go: an earlier copy of goop.go's Parse kept in the
    parser package. Its Function type, NewStruct and Struct.String are the
    same text as goop.go's and are the members of module Goop; so are the
    two declaration loops of its Parse, which differs from goop.go's only in
    collecting the map's values with maps.Values and slices.Collect. */
module OldParser {
  import opened Wrappers
  import opened GoAst
  import opened Goop
  import GeneratorUtils

  /** Parse: the first loop records one struct per type declaration, the
      second appends each receiver function to its struct, and the structs
      are collected from the map in the order ranging over it visits them.
      It computes what goop.go's Parse computes. */
  method Parse(file: File, reading: Reading) returns (r: Result<Parsed, Stop>)
    ensures r.Failure? <==> ParseSpec(file, reading).Failure?
    ensures r.Failure? ==> r.error == ParseSpec(file, reading).error
    ensures r.Success? ==> r.value.packageName == file.packageName.value
    ensures r.Success? ==> ListsValues(r.value.structs, ParseSpec(file, reading).value)
  {
    if file.packageName.None? {
      return Failure(Error(MissingPackageName));
    }
    var structByName := RecordTypes(file.decls);
    if structByName.Failure? {
      assert ParseSpec(file, reading) == Failure(structByName.error);
      return Failure(structByName.error);
    }
    var withFunctions := RecordReceiverFunctions(structByName.value, file.decls, reading);
    if withFunctions.Failure? {
      assert ParseSpec(file, reading) == Failure(Panic(withFunctions.error));
      return Failure(Panic(withFunctions.error));
    }
    assert ParseSpec(file, reading) == Success(withFunctions.value);
    var structs, keys := GeneratorUtils.MapItems(withFunctions.value);
    StructsListed(withFunctions.value, structs, keys);
    return Success(Parsed(file.packageName.value, structs));
  }
}
