# Goop, modelled in Dafny

Goop is a code generator that adds classes with virtual methods to Go. A
struct marks itself as a class with `goop`-tagged embedded fields:

- `goop:"vtable"` names the struct's own virtual table.
- `goop:"super"` names its parent class.

Methods whose names end in `Impl` are the implementations of virtual
methods. For every `.go` file named on its command line, Goop does three
things:

1. It parses the file and collects each type declaration as a struct,
   together with its receiver functions.
2. It keeps the classes and strips the `Impl` suffix from their virtual
   methods.
3. It writes `<file>_goop.go` next to the input.

The repository also has:

- a class registry (`class.go`) that resolves a method to the virtual table
  it belongs to, through overrides and the parent chain;
- a parser package that reads functions, fields, types and imports off the
  syntax tree and renders them back;
- a generator package that builds struct and function source text.

The model has one module per source file:

| module | source file |
|---|---|
| `Wrappers`, `GoStrings`, `GoAst` | shared definitions |
| `Classes` | `class.go` |
| `Goop` | `goop.go` |
| `OldParser` | `package_parser/old.go` |
| `FunctionParser` | `package_parser/function_parser.go` |
| `FieldParser` | `package_parser/field_parser.go` |
| `TypeParser` | `package_parser/type_parser.go` |
| `ImportParser` | `package_parser/import_parser.go` |
| `FunctionGenerator` | `go_generator/function_generator.go` |
| `StructGenerator` | `go_generator/struct_generator.go` |
| `VariableDeclaration` | `go_generator/variable_declaration.go` |
| `GeneratorUtils` | `go_generator/utils.go` |
| `Utils` | `utils/utils.go` |

The shared definitions are:

- `Wrappers`: the Option and Result types.
- `GoStrings`: the parts of Go's `strings` package and of
  `reflect.StructTag.Lookup` that the code uses.
- `GoAst`: the part of `go/ast` that the code reads.

Modelling conventions:

- Every Go panic the code can reach is a `Failure` of a `Result`.
- In `class.go`, the registry is the class `ClassesContainer`. It holds:
  - the name map;
  - a store of class records, whose index is a class identity;
  - a store of virtual tables, whose index is a table identity.

  Two pointers to the same `*VTable` are the same table index. The parent
  chain is proved acyclic through a ghost rank.

## Model

| member | source | states |
|---|---|---|
| Classes.IsVirtualMethod | class.go:177-179 | a method is virtual exactly when its name ends in "Impl" |
| Classes.MethodVirtualName | class.go:181-183 | a virtual method's name minus "Impl", plus "Impl", is its name; any other method keeps its name |
| Classes.FunctionToVFunc | class.go:170-175 | the table entry carries the virtual name and the function's signature |
| Classes.VirtualNameRoundTrip | class.go:177-183 | `base + "Impl"` is virtual and its virtual name is `base` |
| Classes.IsInitName | class.go:152-154 | "is" + the table name with its first letter upper-cased + "Init"; a panic (None) exactly for an empty table name |
| Classes.AddVirtualHas | class.go:139-150 | after AddVirtual, the table has the added virtual name, and it has any other name exactly when it had it before |
| Classes.ClassOrder | class.go:28-46 | the comparator gives -1, 0 or 1, and 0 only for equal names (roots first and parent first are RootsFirst and ParentFirst) |
| Classes.ClassOrderAntisymmetric | class.go:28-46 | on an acyclic store with distinct names, the sort comparator is antisymmetric and is 0 only for the same class |
| Classes.RootsFirst | class.go:29-35 | a class without a parent orders before every class with one |
| Classes.ParentFirst | class.go:37-43 | a parent orders before its direct child, in both argument orders |
| Classes.CircleStoreWellFormed | class.go:27-47 | the four-class example store is acyclic and has distinct names |
| Classes.ComparatorNotTransitive | class.go:27-47 | three classes whose comparator results form a cycle; sorted adjacently, a child can still precede its parent |
| Classes.FirstMatch | class.go:95-99 | the first override whose table has the name; None iff no override's table has it |
| Classes.Chain | class.go:101-105 | the parent chain from a class to a root: each entry's parent is the next, and the last has none |
| Classes.ChoiceNoneIff | class.go:94-110 | resolution gives nil iff no class on the parent chain has a matching override or a table of its own |
| Classes.ChainCons | class.go:101-105 | a class's chain is the class followed by its parent's chain |
| Classes.NoCandidateStep | class.go:94-110 | no candidate on a class's chain iff no candidate at the class and none on its parent's chain |
| Classes.ChoiceOnChain | class.go:94-110 | a resolved table belongs to a class on the chain, as an override or as its own table |
| Classes.ChoiceWithoutOverrides | class.go:101-109 | with no matching override on the chain, resolution is nil iff no chain class has a table, and otherwise it is the root-most table |
| Classes.ChoiceRootMost | class.go:101-109 | with no matching override on the chain, the resolved table is the chain's root-most own table |
| Classes.ChainStep | class.go:101-105 | the chain steps to the parent, and "no matching override" carries over to the parent's chain |
| Classes.NoCandidateNoTable | class.go:101-109 | no candidate on the chain implies no own table on the chain |
| Classes.RootMostInherited | class.go:101-105 | the parent's root-most table is also the child's |
| Classes.RootMostOwn | class.go:107-109 | a class's own table is root-most when no ancestor has a table |
| Classes.AddToExistingOverride | class.go:122-127 | an existing override of the table gets the method appended, and nothing else changes |
| Classes.AddToNewOverride | class.go:129-131 | with no override of the table, a new single-method override is appended |
| Classes.AddToOverridesDistinct | class.go:122-131 | overrides stay at most one per table, and the table has one afterwards |
| Classes.AfterRegister | class.go:116-132 | registration changes only the class's overrides or the registered table; the class's name, parent and own table stay |
| Classes.NamesResolveA | class.go:94-132 | in the Names example the store is linked and ranked, and A's getName resolves to aVtable and is added to it |
| Classes.NamesResolveB | class.go:94-132 | the store after A is linked and ranked, and B's getName resolves through its parent to aVtable and becomes an override of it |
| Classes.NamesResolveC | class.go:94-132 | the store after B is linked and ranked, and C's getName resolves to aVtable through B's override and becomes C's own override |
| Classes.OverridesReplaced | class.go:122-131 | replacing a class's overrides with distinct, in-range ones keeps the store well formed |
| Classes.ClassAdded | class.go:20-24 | adding a new class without parent or table keeps the store well formed |
| Classes.VTableSet | class.go:59-64 | giving a class a table keeps the store well formed |
| Classes.ClassesContainer.constructor | class.go:16-18 | an empty registry |
| Classes.ClassesContainer.GetClass | class.go:20-25 | a known name returns its class and changes nothing; an unknown one appends a fresh class and registers it |
| Classes.ClassesContainer.NewVTable | class.go:134-137 | a new empty table is appended |
| Classes.ClassesContainer.SetVTable | class.go:59-64 | the class's own table is set, and nothing else changes |
| Classes.ClassesContainer.SetSuper | class.go:59-64 | the class's parent is set, given a rank that keeps the chain acyclic |
| Classes.ClassesContainer.HasVTable | class.go:112-114 | true iff the class has a table of its own, which in a container whose classes link into its tables is one of those tables |
| Classes.ClassesContainer.HasMethod | class.go:139-146 | true iff the table holds an entry with that name |
| Classes.ClassesContainer.AddVirtual | class.go:148-150 | the entry is appended to the table, and nothing else changes |
| Classes.ClassesContainer.AddOverride | class.go:166-168 | the entry is appended to the class's k-th override, and nothing else changes |
| Classes.ClassesContainer.RegisterVirtual | class.go:116-132 | the class's own table gets the entry when it is the target; otherwise the override of the target gets it, or a new override is created |
| Classes.ClassesContainer.ChooseVTable | class.go:94-110 | the result is the resolution function Choice: overrides in order, then the parent, then the class's own table |
| Classes.ClassesContainer.GetClassesSorted | class.go:27-47 | every class exactly once, with each adjacent pair in comparator order |
| Classes.SortIds | class.go:28-46 | a permutation of the given classes with each adjacent pair in comparator order |
| Classes.InsertionSort | class.go:28-46 | sorts the array in place: a permutation, and adjacent pairs are in order |
| Classes.InsertOne | class.go:28-46 | one insertion step: the prefix ordered up to i becomes ordered up to i + 1, as a permutation |
| Classes.RegisteredValues | class.go:28 | the values of the name map are distinct class identities in the store |
| Goop.ArgTypesString | goop.go:40-42 | the argument types joined by ", ": empty for none, the type itself for one, and the lengths add up to the types plus one separator between neighbours |
| Goop.RetTypesString | goop.go:44-46 | the result types joined by ", ", with the same empty, single and length properties |
| Goop.FunctionString | goop.go:48-51 | "name(args)(results)" |
| Goop.CountFunctionString | goop.go:40-51 | the count of any character in the rendering is the sum of its counts in each part |
| Goop.JoinedCommas | goop.go:40-46 | joining n comma-free parts with ", " gives n - 1 commas |
| Goop.FunctionStringCounts | goop.go:40-51 | with plain names the rendering starts with "name(", has two parentheses of each kind, and its commas separate the arguments and the results |
| Goop.NewStruct | goop.go:61-63 | a plain struct with the name, no parent, no table and no functions |
| Goop.NewStructText | goop.go:61-85 | a new struct renders as "Struct name {\n}" |
| Goop.StructString | goop.go:65-85 | what the loop writes is the rendering StructText |
| Goop.WriteFunctionLines | goop.go:81-83 | one "\tname(args)(results);\n" line per function, in order |
| Goop.FunctionLinesAppend | goop.go:81-83 | the lines of two function lists are the lines of each, concatenated |
| Goop.FunctionLinesCount | goop.go:81-83 | one line break per function |
| Goop.StructTextSplit | goop.go:65-85 | the rendering is the header line "Kind name[: super] {\n" followed by the body |
| Goop.StructTextKind | goop.go:66-69 | it starts with "Class " iff the struct is a class, and otherwise with "Struct " |
| Goop.StructTextSuper | goop.go:71-76 | the header names the parent after ": " exactly when there is one |
| Goop.StructTextEnd | goop.go:81-84 | it ends with the function lines and "}" |
| Goop.StructTextVtable | goop.go:77-84 | the vtable line follows the header when there is a table; otherwise the function lines do |
| Goop.HeaderLineCount | goop.go:70-76 | the header is a single line |
| Goop.VtableLineCount | goop.go:77-79 | the vtable line is a single line, present only with a table |
| Goop.StructTextLineCount | goop.go:65-85 | header + optional vtable line + one line per function |
| Goop.GoopTag | goop.go:122-130 | no tag means nothing to do; a tag shorter than two bytes panics; otherwise it is the goop value looked up inside the quotes |
| Goop.ApplyField | goop.go:121-139 | a panic exactly for a short tag or a goop super or vtable tag on a non-identifier; super and vtable set the class flag and the name; anything else leaves the struct as it was |
| Goop.ApplyFields | goop.go:121-141 | the fields keep the struct's name and functions |
| Goop.ApplyFieldsPanics | goop.go:121-141 | the loop panics iff some field panics |
| Goop.ApplyFieldStep | goop.go:132-139 | one field: class, parent and table are set iff they were set before or the field marks them |
| Goop.ApplyFieldsClass | goop.go:121-141 | the struct is a class iff it was one or some field is a goop super or vtable tag |
| Goop.ApplyFieldsSuper | goop.go:133-135 | it has a parent iff it had one or some field is tagged super |
| Goop.ApplyFieldsVtable | goop.go:136-138 | it has a table iff it had one or some field is tagged vtable |
| Goop.ApplyFieldsUntagged | goop.go:122-130 | fields without a goop value leave the struct unchanged |
| Goop.ReadTags | goop.go:119-141 | the loop computes ApplyFields on a new struct |
| Goop.ApplyFieldsStops | goop.go:121-141 | a panic on a prefix of the fields is the panic of the whole loop |
| Goop.RecordType | goop.go:102-143 | a declaration that is not a type is skipped; "many specs" iff a type declaration without exactly one spec; a non-struct type spec panics; a struct is stored under its name |
| Goop.CollectTypes | goop.go:101-144 | every stored struct sits under its own name; never "missing package name" |
| Goop.CollectTypesStops | goop.go:102-144 | the first stop of a prefix is the stop of the whole loop |
| Goop.ManySpecsReported | goop.go:108-111 | a type declaration with several specs after a clean prefix returns the "many specs" error |
| Goop.RecordTypes | goop.go:101-144 | the loop computes CollectTypes |
| Goop.TypeToString | goop.go:155-164 | T and *T give T; any other type panics |
| Goop.TypeStrings | goop.go:155-166 | all types convert, or the first failing one's panic is returned |
| Goop.MapTypes | goop.go:25-32 | the loop computes TypeStrings |
| Goop.ReceiverName | goop.go:153 | the receiver's base name when it is *T; an empty list or a non-pointer receiver panics |
| Goop.ResultTypesAsWritten | goop.go:165 | nil results panic; otherwise the result types |
| Goop.ResultTypes | goop.go:165 | nil results give no result types; any other panic is the one the code as written raises |
| Goop.TypeStringsOne | goop.go:155-165 | a one-field list gives the one type of its field |
| Goop.FunctionOf | goop.go:153-174 | under either reading of a missing result list: succeeds iff the receiver, results and parameters all convert, and builds the recorded function from them |
| Goop.RecordFunction | goop.go:146-174 | skips non-receiver functions; appends the function to its receiver's struct; an unknown receiver panics; the keys and names stay |
| Goop.CollectFunctions | goop.go:146-175 | the map keeps its keys and struct names |
| Goop.CollectFunctionsStops | goop.go:146-175 | the first panic of a prefix is the panic of the whole loop |
| Goop.DeclarationOrder | goop.go:146-175 | each struct gets exactly its own receiver functions, appended in declaration order |
| Goop.FunctionOfReadings | goop.go:153-174 | the code as written and the correction agree on a receiver function except where the code as written panics on nil results; they always agree when results are declared |
| Goop.CollectFunctionsReadings | goop.go:146-175 | the second loop as written either stops with the nil-results panic or computes what the correction computes; the correction fails only where the code as written fails; they agree when every receiver function declares results |
| Goop.ParseSpec | goop.go:87-239 | under either reading: a missing package name is reported; every parsed struct sits under its own name |
| Goop.ParseSpecReadings | goop.go:87-239 | the parse as written either panics on nil results or gives what the corrected parse gives; the corrected parse fails only where the parse as written fails; they agree when every receiver function declares results |
| Goop.Parse | goop.go:87-239 | under the given reading (AsWritten is the code itself): fails iff the specification fails, with the same error; otherwise it returns the package name and the values of the struct map |
| Goop.StructsListed | goop.go:237 | ranging over the map lists each struct exactly once |
| Goop.RecordReceiverFunctions | goop.go:146-175 | the loop computes CollectFunctions under the given reading; as written it panics at the first receiver function without results |
| Goop.ResultlessMethodPanicsAsWritten | goop.go:165 | a receiver function without results, `func (a *A) Foo()`, panics as written |
| Goop.ResultlessMethodRecorded | goop.go:146-174 | with the correction, a result-less receiver function is recorded with no result types |
| Goop.Renamed | goop.go:292-296 | the name minus "Impl", with the same argument and result types |
| Goop.CopyClass | goop.go:283-297 | the copy is ClassCopy: same name, parent and table, a class, and only the Impl functions, renamed |
| Goop.FilterClasses | goop.go:276-300 | the loop computes Classes |
| Goop.ImplFunctionsAppend | goop.go:287-297 | filtering distributes over concatenation |
| Goop.ImplFunctionsExactly | goop.go:287-297 | a function is kept iff it comes from an Impl function, renamed |
| Goop.ClassesAppend | goop.go:276-300 | class filtering distributes over concatenation |
| Goop.ClassesExactly | goop.go:276-300 | a struct is output iff it is the copy of some class among the inputs |
| Goop.ExampleVtableTag | goop.go:126-138 | the tag `goop:"vtable"` marks a table |
| Goop.ExampleAFields | goop.go:121-141 | A's fields make it a class with table aVtable |
| Goop.ExampleAIsClass | goop.go:102-143 | A's declaration records that class |
| Goop.ExampleAWritten | goop.go:276-300 | written out, A keeps only getName, taken from getNameImpl |
| Goop.ExampleAFileTypes | goop.go:101-144 | the first loop over examples/Names/APackage/AFile.go records the class A with table aVtable |
| Goop.ExampleAFileFunctions | goop.go:146-175 | the second loop over that file records New and getNameImpl, then panics on Foo as written, or records Foo with no results when corrected |
| Goop.ExampleAFileParsed | goop.go:87-239 | parsing that file panics with the nil-results panic as written, and gives A with New, getNameImpl and Foo in order when corrected |
| Goop.NormalizePath | goop.go:318-320 | the path ends in ".go", and ".go" is added only when it was missing |
| Goop.NormalizePathIdempotent | goop.go:318-320 | normalizing twice is normalizing once |
| Goop.Split | goop.go:322 | directory + file is the path; the file has no '/'; the directory is empty or ends in '/' |
| Goop.OutputPath | goop.go:318-323 | the output path ends in "_goop.go" and is five characters longer than the normalised input |
| Goop.DirLengthAppend | goop.go:322 | appending a part without '/' leaves the directory unchanged |
| Goop.OutputPathShape | goop.go:318-323 | the output path is the input without ".go", plus "_goop.go" |
| Goop.OutputPathDirectory | goop.go:322-323 | the output sits in the input's directory and is named file + "_goop.go" |
| Goop.OutputPathWithoutExtension | goop.go:318-323 | "x" and "x.go" give the same output path |
| OldParser.Parse | package_parser/old.go:60-212 | under the given reading, computes what goop.go's Parse computes: the same errors and the same structs |
| FunctionParser.ParseReceiver | package_parser/function_parser.go:37-57 | no receiver is none; several panic; an empty list panics on its index; a name count other than one panics; *T with a non-identifier panics; T and *T are recorded; any other shape is dropped |
| FunctionParser.ParseFieldList | package_parser/function_parser.go:63-71 | the loop computes ParseFields |
| FunctionParser.ParseFunction | package_parser/function_parser.go:26-74 | receiver panics first, then parameter panics, then result panics; results stay nil without a result list; the doc is trimmed and kept; the body is "unsupported yet" |
| FunctionParser.FieldStrings | package_parser/function_parser.go:82-84 | each field rendered, in order |
| FunctionParser.ReceiverString | package_parser/function_parser.go:117-128 | the rendering ends with the type part ("*" when a reference, then the type), starts with "name " when named, and its length is the sum of those parts |
| FunctionParser.Signature | package_parser/function_parser.go:90-97 | starts with "func (params)"; something follows exactly when the result slice is non-nil, and then it ends with " (results)" |
| FunctionParser.Declaration | package_parser/function_parser.go:76-88 | starts with "(receiver) name(" when there is a receiver and with "name(" otherwise, and ends with ")" and the results part |
| FunctionParser.String | package_parser/function_parser.go:99-115 | the rendering is the declaration wrapped in a function body |
| FunctionParser.DeclarationFromSignature | package_parser/function_parser.go:76-97 | the declaration is the signature with "func " replaced by the receiver and the name |
| FunctionParser.SignatureLength | package_parser/function_parser.go:90-97 | the results part appears exactly when the result slice is non-nil |
| FunctionParser.DocPartCount | package_parser/function_parser.go:101-105 | the doc comment line has the line breaks of the trimmed doc plus one |
| FunctionParser.DeclarationLineCount | package_parser/function_parser.go:107-109 | the declaration line is one line |
| FunctionParser.BodyLineCount | package_parser/function_parser.go:111-113 | the body is two line breaks |
| FunctionParser.StringLineCount | package_parser/function_parser.go:99-115 | three line breaks, plus the doc's own line breaks and one more when there is a doc |
| FunctionParser.TypePartHasNoSpace | package_parser/function_parser.go:123-126 | the type part of a receiver has no space |
| FunctionParser.UnrenderTypePart | package_parser/function_parser.go:123-126 | the type part is read back as the type and the pointer flag |
| FunctionParser.UnrenderNamed | package_parser/function_parser.go:117-128 | a named rendering splits at its first space |
| FunctionParser.ReceiverRoundTrip | package_parser/function_parser.go:117-128 | a receiver with space-free parts is read back from its rendering |
| FieldParser.ParseFieldDeclaration | package_parser/field_parser.go:17-41 | panics for several names, a non-string tag, *X with X not an identifier, or another type, each iff its condition; otherwise the name, the tag without backquotes and T or *T |
| FieldParser.ParseFields | package_parser/function_parser.go:63-65 | all fields parse, in order, or the first panic is returned |
| FieldParser.String | package_parser/field_parser.go:43-49 | the rendering ends with the type, starts with "name " when named, and is as long as those parts |
| FieldParser.StringRoundTrip | package_parser/field_parser.go:43-49 | a field with space-free parts is read back from its rendering |
| FieldParser.ParsedTypeHasNoSpace | package_parser/field_parser.go:33-40 | a parsed type has no space when its identifier has none |
| GoStrings.TrimCharWrapped | package_parser/field_parser.go:30 | trimming backquotes from a backquoted tag gives the tag |
| GoStrings.LookupSinglePair | goop.go:127 | a tag of one `key:"value"` pair gives the value for its key |
| GoStrings.LookupSkipsPair | goop.go:127 | a pair with another key is skipped |
| GoStrings.NextPairOfPair | goop.go:127 | the scanner reads one `key:"value"` pair off the front of a tag |
| GoStrings.TrimSpaceIdempotent | package_parser/function_parser.go:33 | trimming the doc twice is trimming it once |
| TypeParser.DocOf | package_parser/type_parser.go:31-35 | the doc is kept exactly when its text is not empty, and a kept doc ends in a line break |
| TypeParser.ParseTypeDeclaration | package_parser/type_parser.go:22-56 | panics for a spec count other than one, a non-type spec, a type other than struct or interface, or a field panic, each iff its condition; structs keep their name, doc and parsed fields |
| TypeParser.StructString | package_parser/type_parser.go:66-83 | the loop writes the rendering StructText |
| TypeParser.WriteVariables | package_parser/type_parser.go:78-80 | one "\tfield\n" line per field |
| TypeParser.DocLineCount | package_parser/type_parser.go:68-72 | a doc comment has the line breaks of its text plus one; a non-empty doc, which ends in a line break, is followed by a blank line |
| TypeParser.DocLineExample | package_parser/type_parser.go:31-35 | the doc "Foo" (text "Foo\n") renders as "// Foo\n\n" |
| TypeParser.VariableLinesCount | package_parser/type_parser.go:78-80 | one line break per field |
| TypeParser.StructTextLineCount | package_parser/type_parser.go:66-83 | n fields give n + 1 line breaks (none when n = 0), plus the doc's line breaks and one more when there is a doc |
| TypeParser.ParsedStructRendersFields | package_parser/type_parser.go:22-83 | a parsed struct has as many fields as the declaration, and renders as "struct {}" iff it has none |
| TypeParser.InterfaceText | package_parser/type_parser.go:85-96 | the doc comment, then "type name interface {}" whatever the interface declares |
| TypeParser.ParsedInterfaceText | package_parser/type_parser.go:22-96 | a parsed interface renders as its kept doc comment and "type name interface {}" |
| ImportParser.ParseImport | package_parser/import_parser.go:13-19 | the path is the literal; the alias is there iff a name is |
| ImportParser.String | package_parser/import_parser.go:21-27 | the rendering ends with the path, starts with "alias " when there is an alias, and is as long as those parts |
| ImportParser.StringRoundTrip | package_parser/import_parser.go:21-27 | an import with a quoted path and an identifier alias is read back from its rendering |
| Utils.Map | utils/utils.go:8-15 | f applied to each element, in order |
| Utils.Capitalize | utils/utils.go:17-19 | the first letter upper-cased and the rest kept; an empty string panics |
| Utils.CapitalizeIdempotent | utils/utils.go:17-19 | capitalizing twice is capitalizing once |
| GeneratorUtils.MapItems | go_generator/utils.go:3-10 | each map value once, in the order ranging visits the keys |
| GeneratorUtils.Flatten | go_generator/utils.go:21-28 | the rows concatenated in order |
| GeneratorUtils.ConcatAppend | go_generator/utils.go:21-28 | flattening distributes over concatenation |
| GeneratorUtils.ConcatLength | go_generator/utils.go:21-28 | the length is the sum of the row lengths |
| GeneratorUtils.ConcatMembers | go_generator/utils.go:21-28 | an element is in the result iff it is in some row |
| VariableDeclaration.String | go_generator/variable_declaration.go:10-12 | "name " then the type, as long as both plus one |
| VariableDeclaration.StringRoundTrip | go_generator/variable_declaration.go:10-12 | a declaration whose name has no space is read back from its rendering |
| FunctionGenerator.DeclStrings | go_generator/function_generator.go:81-82 | each declaration rendered, in order |
| FunctionGenerator.GoFunctionBuilder.constructor | go_generator/function_generator.go:24-36 | a named builder with nothing else set |
| FunctionGenerator.GoFunctionBuilder.New | go_generator/function_generator.go:24-36 | an empty name panics with its message; otherwise a fresh, empty builder |
| FunctionGenerator.GoFunctionBuilder.AddParam | go_generator/function_generator.go:38-41 | the parameter is appended, and nothing else changes |
| FunctionGenerator.GoFunctionBuilder.AddReturnType | go_generator/function_generator.go:43-50 | an unnamed result panics with its message and changes nothing; a named one is appended |
| FunctionGenerator.GoFunctionBuilder.SetReceiver | go_generator/function_generator.go:52-59 | the receiver is set, and nothing else changes |
| FunctionGenerator.GoFunctionBuilder.SetImplRaw | go_generator/function_generator.go:61-64 | the body becomes the text plus a line break |
| FunctionGenerator.GoFunctionBuilder.AddImplLines | go_generator/function_generator.go:66-69 | the indented lines are appended to the body |
| FunctionGenerator.ResultsPartShape | go_generator/function_generator.go:82-88 | results appear in parentheses, followed by a space, exactly when there are any |
| FunctionGenerator.BuildTextShape | go_generator/function_generator.go:71-91 | the function is the header, then the body, then "}\n" |
| FunctionGenerator.GoFunctionBuilder.Build | go_generator/function_generator.go:71-91 | the built text starts with "func ", the receiver part and "name(", and ends with the body and "}\n" |
| FunctionGenerator.ParamsAppend | go_generator/function_generator.go:38-41 | one more parameter adds ", " and its declaration to the list |
| FunctionGenerator.ImplLinesCount | go_generator/function_generator.go:66-69 | n body lines add n line breaks (one when n = 0) |
| FunctionGenerator.BuildTextLineCount | go_generator/function_generator.go:71-91 | a built function has the body's line breaks plus two |
| StructGenerator.GoStructBuilder.constructor | go_generator/struct_generator.go:14-16 | a builder with the name and nothing else |
| StructGenerator.GoStructBuilder.AddVar | go_generator/struct_generator.go:18-21 | the field is appended, and nothing else changes |
| StructGenerator.GoStructBuilder.AddReceiverFunction | go_generator/struct_generator.go:23-27 | the function gets this struct as its receiver and is appended |
| StructGenerator.GoStructBuilder.Build | go_generator/struct_generator.go:29-43 | the definition, followed by each method after a blank line |
| StructGenerator.WriteVars | go_generator/struct_generator.go:31-33 | one "\tname type\n" line per field |
| StructGenerator.WriteFunctions | go_generator/struct_generator.go:36-40 | each method after a blank line, in order |
| StructGenerator.EmptyDefinition | go_generator/struct_generator.go:29-43 | a builder with nothing added gives "type name struct {\n}\n" |
| StructGenerator.DefinitionLineCount | go_generator/struct_generator.go:29-35 | the definition has one line per field plus two |
| StructGenerator.VarLinesCount | go_generator/struct_generator.go:31-33 | one line break per field |
| StructGenerator.AddVarSplicesLine | go_generator/struct_generator.go:18-35 | one more field splices its line in before the closing brace |

## Findings

| source | as written | input that shows it | evidently intended | confidence | as-written member | corrected member |
|---|---|---|---|---|---|---|
| goop.go:165 | `Map(&d.Type.Results.List, …)` dereferences `Results`, which is nil for a function without results | `func (a *A) Foo()` in examples/Names/APackage/AFile.go:19 | a receiver function without results is recorded with no result types, as package_parser/function_parser.go:67 does | high, not executed | Goop.ResultTypesAsWritten | Goop.ResultTypes |

`Goop.ResultlessMethodPanicsAsWritten` shows the panic on that input, and
`Goop.ResultlessMethodRecorded` shows the corrected function recording the
method. The second loop, `Goop.ParseSpec`, `Goop.Parse` and
`OldParser.Parse` take a `Reading`: `AsWritten` is the code itself and
`Corrected` is the intended behaviour. `Goop.ExampleAFileParsed` shows that
the whole of AFile.go panics as written and parses when corrected, and
`Goop.ParseSpecReadings` shows that the two readings differ only by that
panic. package_parser/old.go:138 has the same dereference.

## Left out

- Reading and parsing the input file (`parser.ParseFile`, goop.go:88-93,
  package_parser/old.go:61-66). The syntax tree of `GoAst` is the input
  instead.
- Code generation from the template (goop.go:242-274, 302-309). It goes
  through `codegen`, which is not part of this model. What the template is
  given, the filtered classes, is modelled by `Goop.FilterClasses`.
- Printing. This covers `fmt.Printf` in Parse and main, the
  unsupported-receiver and type-parameter messages in
  package_parser/function_parser.go:55 and :60, and the debug renderings
  `ClassesContainer.String` (class.go:49-57) and `Class.String`
  (class.go:66-92).
- main's loop over `os.Args` (goop.go:317). One path is modelled, by
  `Goop.OutputPath`. `filepath.Join` is modelled as concatenation, without
  `Clean` and without Windows separators.
- Classes.ClassesContainer.GetClassesSorted: Go's stable sort is an
  insertion sort for at most 20 elements, and that is what is modelled.
  The merge used for longer inputs is not modelled, and stability is not
  proved. The order of `maps.Values` is left arbitrary.
- Classes.ClassesContainer.SetVTable, SetSuper and NewVTable stand for
  assignments made by driver code that is not part of this model.
- StructGenerator.GoStructBuilder.AddReceiverFunction calls the lower-case
  `setReceiver`, which is not part of this model. It is modelled as the
  exported `SetReceiver`.
- Utils.Capitalize: upper-casing is ASCII only.
- GoStrings.UnquoteSimple: escape sequences inside a tag value are not
  decoded. A value containing a backslash reads as not found.
- package_parser/package_parser.go and package_parser/file_parser.go are
  not part of this model. The `Struct` type that package_parser/old.go uses
  is defined in neither.
- package_parser/old.go's `Function`, `NewStruct` and `Struct.String`
  (lines 15-58) are the same text as goop.go's and are modelled once, in
  `Goop`.
- goop.go's `MapItems` (16-23) is modelled by `GeneratorUtils.MapItems`,
  and its `Map` (25-32) by `Goop.MapTypes` and `Utils.Map`.
- Type parameters are only printed, so they are not modelled.
- Go pointers to `Struct` and `Function` values are modelled as the values
  themselves. The code never shares one of them between two places that
  update it.
- TypeParser.StructString, StructGenerator.GoStructBuilder.Build and
  Goop.StructString: the loop of each is a helper method of its own
  (WriteVariables, WriteVars and WriteFunctions, WriteFunctionLines).
