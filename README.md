# troto, modelled in Dafny

troto compiles TypeScript declarations into Protocol Buffers. It reads the
interfaces, classes, type aliases and enums of a TypeScript program. Each
declared type is lowered to a small intermediate tree of proto definitions
(messages, enums, services, fields, oneofs, rpcs, reserved ranges and
options). It then runs three passes over every output file:

- synthesised messages are moved into the file of their source type;
- every scope is given field numbers and put in order;
- placeholder references are linked to their definitions, adding imports.

The tree can be printed as `.proto` text, or converted to
`google.protobuf.FileDescriptorProto` messages. Those messages are sent to
code generator plugins, one request per plugin and package.

This project models that core, one Dafny module per source file:

| module | source file |
|---|---|
| `Base` | lib/proto/base.ts: literals, the options map, scopes and name resolution, the index allocator |
| `Types` | lib/proto/types.ts: the builtin and composite type expressions and how they print |
| `Udts` | lib/proto/udts.ts: definitions and field statements, `push`, writing `.proto` text, number allocation |
| `Registry` | lib/proto/ext/builtin.ts: the static registry of descriptor options |
| `Cvt` | lib/proto/cvt.ts: option coercion, option-name splitting, `convertOptions` |
| `Descriptors` | lib/proto/cvt.ts: the descriptor builders, from enums and services up to `createFdSet` |
| `Output` | lib/compiler/output.ts: the definition tables and `createType` of an output file |
| `Resolver` | lib/compiler/resolver.ts: `mapType`, `getTypeArgs`, `synthesizeMsg`, `seek` |
| `Utils` | lib/compiler/utils.ts: `printFlags`, the parent walk, `getQualifiedName`, `resolveSymbol` |
| `Compiler` | lib/compiler/compiler.ts: `parse` from the relocation on (relocation, normalisation, linking) |
| `Plugins` | lib/compiler/compiler.ts: the plugin parameter, the package grouping, requests and responses |
| `Ts` | the parts of the TypeScript checker the compiler reads, as an abstract value |
| `Sorting`, `Strings`, `Wrappers` | `Array.prototype.sort`, the string built-ins the source calls, and Option/Result |

Code that computes values is modelled as functions and lemmas. Objects whose
fields the source updates in place are classes:

- `Base.OptionsExpr` (a `Map`);
- `Base.IndexAllocator`;
- `Output.OutputFile`;
- `Resolver.Resolver`;
- `Compiler.Compiler`.

Each loop of the source is a method with a `while` loop. The method is
proved to compute what a specification function states, and the properties
the source promises are proved about that function.

Where the source throws, the model returns `Err`. The message is the one
the source throws, or, for a `TypeError` from reading a property of
`undefined`, the text JavaScript gives; the few messages of the model's own
are listed under "## Left out". The TypeScript checker is the value `Ts.Checker`: types, symbols,
their properties, parents, flags and declarations. JavaScript's `pascalCase`
and `TextEncoder` enter as function parameters.

## Model

| member | source | states |
|---|---|---|
| Strings.IndexOf | lib/proto/cvt.ts:196 | `-1` exactly when the character is absent; otherwise a position holding it with no earlier occurrence |
| Strings.IndexOfAt | lib/proto/cvt.ts:210 | a position holding the character, with none before it, is what `indexOf` gives |
| Strings.Split | lib/compiler/output.ts:89 | `split` on one character always gives at least one piece |
| Strings.SplitPieces | lib/proto/cvt.ts:202 | no piece of a split contains the separator |
| Strings.JoinSplit | lib/proto/cvt.ts:202 | splitting on a character and joining with it gives the text back |
| Strings.SplitJoin | lib/compiler/compiler.ts:409-413 | joining pieces free of the separator and splitting again gives the pieces back |
| Strings.SplitWithout | lib/compiler/output.ts:174-178 | a text without the separator splits into itself alone |
| Strings.ReplaceChar | lib/proto/base.ts:232 | `replaceAll` of one character: same length, each occurrence replaced, every other character kept |
| Strings.TrimStart | lib/compiler/output.ts:91-92 | a suffix of the text that starts with a non-space; everything removed is JavaScript white space: tab, vertical tab, form feed, the byte order mark, the line terminators and every Unicode space separator |
| Strings.TrimEnd | lib/compiler/output.ts:91-92 | a prefix of the text that ends with a non-space; everything removed is JavaScript white space, as for `TrimStart` |
| Strings.TrimsSpaceSeparators | lib/compiler/output.ts:91-92 | `trim` removes space separators beyond Latin-1, such as U+2000 and U+205F |
| Strings.DigitOf | lib/compiler/output.ts:97 | the digit value `parseInt` gives a character is at most 36 (36 for a non-digit) |
| Strings.NatToString | lib/proto/base.ts:47 | `toString(radix)` is non-empty and made of digits of that radix |
| Strings.PadStart | lib/proto/base.ts:47 | `padStart` reaches the width, keeps the text at its end, and fills the front with the pad character |
| Strings.DigitRun | lib/compiler/output.ts:97 | the digit prefix `parseInt` reads is within the text and all digits |
| Strings.ParseMagnitude | lib/compiler/output.ts:97 | the unsigned part `parseInt` reads is never negative |
| Strings.NoLeadingSpace | lib/compiler/output.ts:97 | a text that starts with a non-space is its own `trimStart` |
| Strings.ParseIntOfString | lib/compiler/output.ts:97-98 | `parseInt` reads back every integer that `toString` writes |
| Base.NumberKindFits | lib/proto/base.ts:19-25 | from the lowest 32-bit integer to the largest 64-bit one, a number literal gets the first of int32, uint32, int64 that holds it |
| Base.NegativeNumberKind | lib/proto/base.ts:23-25 | every negative number literal is int32, even one outside its range |
| Base.BigIntKindFits | lib/proto/base.ts:26-28 | a bigint in the 64-bit ranges is int64 when negative and uint64 otherwise, and fits |
| Base.StringLiteralText | lib/proto/base.ts:39-40 | strings are quoted without escaping: the text between the quotes is the string |
| Base.ByteTextShape | lib/proto/base.ts:45-50 | a printable byte is its own character; any other is `\x` and two or three octal digits |
| Base.EscapeByte | lib/proto/base.ts:46-50 | one byte of a bytes literal appended to the text as `encodeLiteral` writes it |
| Base.EncodeBytes | lib/proto/base.ts:42-52 | the loop over the bytes builds the quoted, escaped text |
| Base.Entries | lib/proto/base.ts:107 | one entry per name, in insertion order, each with its value |
| Base.SetOption | lib/proto/base.ts:87-89 | `map.set` keeps the map well formed: names distinct, each with one value |
| Base.AssignAll | lib/proto/base.ts:80-91 | `assign` keeps the map well formed: names distinct, each with one value |
| Base.AssignAllValue | lib/proto/base.ts:80-91 | after `assign` a name has the last value the pairs give it, otherwise its old value, otherwise none |
| Base.AssignAllKeys | lib/proto/base.ts:80-91 | after `assign` the old names keep their order and the new names follow in order of first appearance |
| Base.OptionsExpr.constructor | lib/proto/base.ts:66-77 | a new map filled from the pairs in order |
| Base.OptionsExpr.Assign | lib/proto/base.ts:80-91 | the map after setting every pair in order |
| Base.Short | lib/proto/base.ts:103-108 | empty exactly when the map is empty |
| Base.Long | lib/proto/base.ts:116-121 | one `option` line per entry |
| Base.LongLines | lib/proto/base.ts:116-121 | line i is the pad, `option `, key i, ` = `, then the value's literal and `;` |
| Base.ShortEntry | lib/proto/base.ts:94-99 | in `short()` a dotted name is parenthesised and any other name is written as it is |
| Base.QualifiedScopeNameJoins | lib/proto/base.ts:145-157 | the qualified scope name dot-joins the non-empty scope names from the root down |
| Base.ToHierarchy | lib/proto/base.ts:158-164 | one name per scope of the chain |
| Base.MismatchPrefix | lib/proto/base.ts:168-172 | below the first mismatch the two hierarchies agree |
| Base.SemiQualifiedSpec | lib/proto/base.ts:165-174 | the semi-qualified name is the own hierarchy from the first mismatch on, dot-joined, or the scope name when there is none |
| Base.SemiQualifiedSelf | lib/proto/base.ts:165-174 | seen from itself or from no scope, a scope's semi-qualified name is its own name |
| Base.ResolveNearest | lib/proto/base.ts:193-201 | `resolve` finds a definition exactly when the nearest scope naming it maps the name to it |
| Base.Range | lib/proto/base.ts:333-337 | the indices `lo..hi` that `mark` claims |
| Base.IndexAllocator.constructor | lib/proto/base.ts:327-329 | nothing taken, hint 1 |
| Base.IndexAllocator.Mark | lib/proto/base.ts:332-341 | claims the range, or fails at the first taken index with the indices before it claimed; the hint moves past the range only when it lies inside it |
| Base.IndexAllocator.Next | lib/proto/base.ts:344-349 | the lowest positive index not taken, which is then taken |
| Base.IndexAllocator.Reset | lib/proto/base.ts:352-355 | nothing taken, hint back to 1 |
| Base.LowestFree | lib/proto/base.ts:345-346 | free, at or above the start, with everything between them taken |
| Base.LowestFreeUnique | lib/proto/base.ts:345-346 | any free index with everything from the start below it taken is the lowest free one |
| Base.NextAfterMarks | lib/proto/base.ts:332-349 | after marking 2 and 5, three calls of `next` give 1, 3 and 4 |
| Types.BuiltinsTable | lib/proto/types.ts:43-74 | 15 entries; entry `i` has ordinal `i`; no name repeats; each kind is `TYPE_` and the upper-cased name |
| Types.FindBuiltin | lib/proto/types.ts:58-74 | the builtin found has that name; none exactly when no builtin has it |
| Types.KindIffNormal | lib/proto/types.ts:26-179 | a type expression has a kind exactly when it is normal |
| Types.ComparableKinds | lib/proto/types.ts:24-35 | only enums and the integral, bool and string builtins are comparable, and all of them have a kind |
| Types.ComplexHasNoKind | lib/proto/types.ts:76-88 | maps, streams, repeated, optional, oneof and rpc are neither comparable nor normal and have no kind |
| Types.InnerShape | lib/proto/types.ts:91-179 | a map's key and value are its two inner types; each wrapper has one inner type |
| Types.PrintOk | lib/proto/udts.ts:68-70 | printing fails exactly when it reaches a oneof or rpc |
| Types.PrintModeFree | lib/proto/types.ts:30-32 | builtins and named references print the same in every mode and placement |
| Types.OrdinalListed | lib/proto/types.ts:58-74 | every builtin is the list entry at its ordinal |
| Types.DefPrint | lib/proto/base.ts:308-313 | a definition printed semi-qualified in its own scope is its bare name; fully qualified it is the dot-joined names of its chain |
| Udts.NewField | lib/proto/udts.ts:155-159 | `number \|\| 0`: the number is 0 exactly when it is missing, NaN or 0; otherwise it is the one given |
| Udts.Push | lib/proto/base.ts:177-190 | refuses a name the scope has, with the source's message; otherwise appends the statement and records its name |
| Udts.PushRegistered | lib/proto/base.ts:177-190 | a scope built by `push` alone keeps its name table exact and its names unique |
| Udts.NewRoot | lib/proto/base.ts:230-233 | every backslash of the file name becomes a slash; no package, imports or body |
| Udts.WriteField | lib/proto/udts.ts:161-166 | a field that is neither a oneof nor an rpc is one line: type, name, `=`, number and short options |
| Udts.MemberLine | lib/proto/udts.ts:98 | a member line can be written exactly when the member's type prints |
| Udts.WriteOneof | lib/proto/udts.ts:94-101 | written exactly when every member's type prints: header, one line per option, one per member, closing brace |
| Udts.WriteRpc | lib/proto/udts.ts:132-139 | written exactly when both types print: one line without options, otherwise a block of option lines closed by `}` |
| Udts.WriteReserved | lib/proto/udts.ts:203-206 | all reserved values on one line |
| Udts.ReservedLine | lib/proto/udts.ts:203-206 | the line starts with `reserved ` and ends with `;`; a single value stands alone between them |
| Udts.Indent | lib/proto/base.ts:204-206 | every line prefixed by the pad, in order |
| Udts.WriteDef | lib/proto/udts.ts:8-9 | at least the header, the option lines and `}` around the body |
| Udts.WriteRootShape | lib/proto/base.ts:236-245 | header comment, syntax line, package line, one line per option, one per import in order, then the body |
| Udts.PlaceBodyAt | lib/proto/base.ts:177-188 | with distinct identities, a body's placement gives each definition in it, however deep, the chain of the scope it was pushed into |
| Udts.PlacementAt | lib/compiler/compiler.ts:271-283 | with distinct identities across the files, a definition's chain is its name, then the chain of its scope, up to the root named by the package: the chain the writer passes to its body |
| Udts.PushedAt | lib/proto/base.ts:177-188 | with distinct identities across the files, `push` alone places a definition of a file in the scope whose body holds it |
| Udts.ReachBodyAt | lib/compiler/compiler.ts:271-283 | a definition held in the type of a field of `d`, and reached by no other field of the body, is marked with `d`'s chain: `d`'s name, then `d`'s scopes |
| Udts.ReachedAt | lib/compiler/compiler.ts:271-283 | across the files, such a definition is marked with the chain of the definition whose field holds it |
| Udts.PlacementReached | lib/proto/udts.ts:140-143 | a definition that no file holds in a body, held by one field of `d` only (an unrelocated request or response message of an rpc of service `d`), has `d` as its parent: its chain is its name, `d`'s name, then `d`'s scopes |
| Udts.ValueItems | lib/proto/udts.ts:208-218 | a reserved value claims at most one range; a name claims none |
| Udts.ReservedItems | lib/proto/udts.ts:208-218 | a reserved statement's claims are all ranges |
| Udts.MarkAllSpec | lib/proto/udts.ts:168-218 | the mark pass succeeds exactly when no two claims overlap and none was taken; it then takes exactly all of them |
| Udts.Fill | lib/proto/udts.ts:183-185 | the sweep gives one item per item |
| Udts.FillSpec | lib/proto/udts.ts:183-185 | the sweep keeps claims and assigned numbers, gives each unassigned field a fresh positive index, and leaves no overlap |
| Udts.DisjointSlots | lib/proto/udts.ts:179-185 | after a successful mark, two distinct fields have different numbers, and no number is reserved |
| Udts.FillAppend | lib/proto/base.ts:358-364 | sweeping two item lists one after the other is sweeping their concatenation |
| Udts.SweepFieldErase | lib/proto/udts.ts:168-187 | the sweep changes nothing of a field but its numbers |
| Udts.AllocationTheorem | lib/proto/base.ts:367-371 | after a successful mark, the sweep changes only numbers, keeps every non-zero one, fills every zero with a fresh positive index, and marking again succeeds |
| Udts.MarkAllAppend | lib/proto/base.ts:358-364 | marking two lists one after the other is marking their concatenation |
| Udts.MarkItem | lib/proto/udts.ts:179-185 | one field or claim marked on the allocator, as the mark function says |
| Udts.AllocateField | lib/proto/udts.ts:168-187 | `allocate` of a field: the mark or sweep pass over it, as the spec functions say |
| Udts.AllocateMembers | lib/proto/udts.ts:170-173 | the oneof case: each member in turn |
| Udts.ReservedMarkStep | lib/proto/udts.ts:209-216 | one more reserved value goes on from what the earlier ones took |
| Udts.MarkValue | lib/proto/udts.ts:211-215 | a number or range is marked; a name is skipped |
| Udts.AllocateReserved | lib/proto/udts.ts:208-218 | the mark pass over each number and range in order; the sweep does nothing |
| Udts.AllocateStmt | lib/proto/base.ts:359-363 | `allocate` on a field statement; other statements are left alone |
| Udts.RunPass | lib/proto/base.ts:358-364 | the pass over the body in order, as the spec functions say |
| Udts.MarkSweep | lib/proto/base.ts:367-371 | the mark pass, then the sweep, then `reset`; a clash in the mark pass is an error |
| Registry.Find | lib/proto/cvt.ts:226 | an entry found has that name and is in the table; none exactly when no entry has it |
| Registry.FileKinds | lib/proto/ext/builtin.ts:2-23 | 20 file options: ten strings, nine bools, and `optimize_for`, the one enum, at 9 |
| Registry.OtherKinds | lib/proto/ext/builtin.ts:24-49 | message, enum, enum-value, service and oneof options are bools; `deprecated` is 33 for services, methods and oneofs; `idempotency_level` is an enum at 34 |
| Cvt.CoerceBytes | lib/proto/cvt.ts:24-33 | bytes pass through, a bool is one byte 1 or 0, a string is its UTF-8 encoding, anything else is refused |
| Cvt.CoerceStringText | lib/proto/cvt.ts:34-43 | a string keeps its text; bytes keep the escaped text between the quotes; integers and bools their text |
| Cvt.CoerceBoolNumeric | lib/proto/cvt.ts:44-70 | except for bytes and strings, the bool read is whether the number read is non-zero; for bytes a non-zero number implies true |
| Cvt.RegistryMatchesEncoders | lib/proto/cvt.ts:112-176 | every table of the static registry is, entry for entry, the encoder table of the same options message |
| Cvt.SplitPlainName | lib/proto/cvt.ts:196-209 | a name without parentheses splits on its dots, and joining the parts gives it back |
| Cvt.SplitAt | lib/proto/cvt.ts:196-218 | the parts of a name whose first `(` comes before its first `)` |
| Cvt.OpenedClosed | lib/proto/cvt.ts:210-219 | a closed segment is the text between the parentheses, then the parts of the rest |
| Cvt.SplitExtension | lib/proto/cvt.ts:194-221 | `a(x)rest` gives the parts of `a`, one extension part `x` with its dots, then the parts of the rest |
| Cvt.SplitKeepsEmptyPieces | lib/proto/cvt.ts:202 | `p.(x).q` gives `p`, an empty part, `(x)`, an empty part, `q` |
| Cvt.SplitUnclosed | lib/proto/cvt.ts:210-215 | without a `)` the extension part is everything after `(` but the last character |
| Cvt.UninterpretedOf | lib/proto/cvt.ts:232-251 | strings as strings, negative integers by magnitude as negative, others as positive, bools as identifiers, anything else no value |
| Cvt.ConvertOptions | lib/proto/cvt.ts:191-261 | every entry of the map, in order, written into the options message |
| Cvt.ConvertEntries | lib/proto/cvt.ts:225-256 | the loop over the entries computes the converted message |
| Cvt.ConvertedFields | lib/proto/cvt.ts:226-255 | each option lands at its registered field number, or at 999 when unregistered |
| Descriptors.ReservedCount | lib/proto/cvt.ts:279-293 | each reserved value adds one range or one name |
| Descriptors.ReservedCovered | lib/proto/cvt.ts:280-292 | a number `n` is reserved as `[n, n]`, a pair as its range, a name as a name |
| Descriptors.ReservedOnly | lib/proto/cvt.ts:279-293 | nothing but the statement's values is reserved |
| Descriptors.AddReserved | lib/proto/cvt.ts:443-457 | the loop over the values computes its ranges and names |
| Descriptors.CreateEnumDesc | lib/proto/cvt.ts:267-299 | the enum descriptor, as the spec function says |
| Descriptors.EnumBodySpec | lib/proto/cvt.ts:271-296 | an enum builds exactly when its body holds only values and reserved statements; then its values, name and options are the definition's |
| Descriptors.EnumValuesPointwise | lib/proto/cvt.ts:272-277 | one value per value statement: its name, its number as given (a string-valued member's string stays a string) and its options |
| Descriptors.MethodOf | lib/proto/cvt.ts:306-322 | a built method keeps the rpc's name |
| Descriptors.CreateServiceDesc | lib/proto/cvt.ts:300-328 | the service descriptor, as the spec function says |
| Descriptors.MethodStreaming | lib/proto/cvt.ts:309-320 | a side streams exactly when it is a stream, and its type name is the qualified name of what the stream carries |
| Descriptors.ServiceSpec | lib/proto/cvt.ts:304-326 | a service builds exactly when every statement is an rpc whose types print; it keeps name and options, one method per rpc in order |
| Descriptors.ServiceRefused | lib/proto/cvt.ts:323-325 | the first statement that is not an rpc is the refusal, when every rpc before it builds |
| Descriptors.AddFieldDesc | lib/proto/cvt.ts:330-413 | the field added to the message, as the spec function says |
| Descriptors.AddMembersDesc | lib/proto/cvt.ts:392-394 | the members of a oneof added one by one |
| Descriptors.QualifiedAt | lib/proto/cvt.ts:262-265 | compiling a list of files, a definition's type name is `.` and the qualified name of its place in the files, and a message's fields are added under that name |
| Descriptors.NestedTypeName | lib/proto/cvt.ts:262-265 | in package `p`, a field of type `N` nested in `M` names `.p.M.N` |
| Descriptors.ReachedTypeName | lib/proto/cvt.ts:262-265 | compiling a list of files, a message held by one field of `d` only and by no body is named `.` and the qualified name of its name, `d`'s name and `d`'s scopes |
| Descriptors.UnplacedRequestName | lib/proto/cvt.ts:304-321 | in package `p`, service `S` whose `rpc m` has request and response messages placed in no file gives the method the types `.p.S.mRequest` and `.p.S.mResponse` |
| Descriptors.PlainField | lib/proto/cvt.ts:336-345 | a plain field is added exactly when its unwrapped type has a kind, with its name, number, kind, label, optional flag, oneof index, options and default |
| Descriptors.RpcNotAField | lib/proto/cvt.ts:333-335 | an rpc is never a field |
| Descriptors.MapField | lib/proto/cvt.ts:347-383 | a map adds the entry message `pascal(name) + "Entry"` and a repeated message field naming it under the message's name |
| Descriptors.MemberStep | lib/proto/cvt.ts:393 | a single member adds one field, named, numbered and tagged, and no oneof declaration |
| Descriptors.AddMembersSpec | lib/proto/cvt.ts:392-394 | members are added one field each, in order, each tagged with the oneof's index |
| Descriptors.OneofField | lib/proto/cvt.ts:384-395 | a oneof appends one declaration, named after the field, at index equal to the number before it; each member becomes one field carrying that index |
| Descriptors.CreateDescProto | lib/proto/cvt.ts:437-483 | the message descriptor, as the spec function says |
| Descriptors.AddStmt | lib/proto/cvt.ts:441-472 | one statement of a message body added |
| Descriptors.BodyIntoName | lib/proto/cvt.ts:437-472 | a message keeps the definition's name; it is refused exactly when a service or enum value is at its top level, or an inner part is refused |
| Descriptors.AddFieldName | lib/proto/cvt.ts:330-413 | adding a field never renames the message nor changes its options |
| Descriptors.MessageReserved | lib/proto/cvt.ts:442-458 | a reserved statement adds its ranges and names and changes nothing else |
| Descriptors.ProtoName | lib/proto/cvt.ts:487 | a trailing `.ts` becomes `.proto`; any other name is kept |
| Descriptors.DepIndicesSpec | lib/proto/cvt.ts:489-500 | a position is listed exactly when the import there carries the flag, in ascending order |
| Descriptors.Paths | lib/proto/cvt.ts:491-492 | the dependency paths, one per import, in order |
| Descriptors.CreateFd | lib/proto/cvt.ts:485-524 | the file descriptor, as the spec function says |
| Descriptors.CreateHead | lib/proto/cvt.ts:486-501 | the file's name, package, dependencies, flags and options |
| Descriptors.AddDefinitions | lib/proto/cvt.ts:503-511 | the definitions added statement by statement |
| Descriptors.FileBodyKeepsHead | lib/proto/cvt.ts:503-511 | the body never changes name, package, dependencies, flags, options or syntax |
| Descriptors.FileShape | lib/proto/cvt.ts:485-524 | the file is named after the root with `.ts` turned into `.proto`, package defaults to empty, dependencies in import order, weak and public positions exact, syntax `proto3` |
| Descriptors.EachOkOrder | lib/proto/cvt.ts:527-529 | entry `i` is what the builder makes of element `i`; refused exactly when some element is |
| Descriptors.CreateFdSet | lib/proto/cvt.ts:525-531 | the descriptor set, as the spec function says |
| Descriptors.FdSetOrder | lib/proto/cvt.ts:525-531 | the set keeps the files' order and is refused exactly when some file is |
| Output.LookupFirst | lib/compiler/output.ts:19-34 | the first argument that finds a definition decides; with none, nothing is found |
| Output.NameRoundTrip | lib/compiler/output.ts:24-28 | with package `p`, the name `p.k` finds exactly what `defined` holds under `k` |
| Output.NameNeedsPackage | lib/compiler/output.ts:24-28 | a name finds something only with a non-empty package, as that package, a dot and a key |
| Output.DefineCases | lib/compiler/output.ts:35-57 | defining succeeds exactly when the name can be formed and neither name nor symbol names another definition |
| Output.DefineIdempotent | lib/compiler/output.ts:35-57 | defining the same definition again changes nothing |
| Output.DefineThenLookup | lib/compiler/output.ts:35-57 | after a definition, looking up its symbol finds it |
| Output.OptionOfPair | lib/compiler/output.ts:89-92 | a tag `k=v` without `=` in either part gives the trimmed key and the literal of the trimmed value |
| Output.QuotedOption | lib/compiler/output.ts:101-102 | a quoted value comes back as the text between the quotes |
| Output.IntOption | lib/compiler/output.ts:97-98 | an integer value comes back as that number |
| Output.OptionNeedsKey | lib/compiler/output.ts:89-90 | a tag with no `=`, or nothing before it, is ignored |
| Output.BoolOption | lib/compiler/output.ts:93-96 | `true` and `false` become booleans |
| Output.EnumMembers | lib/compiler/output.ts:119-128 | one value per union member, each the number or string literal that member gives |
| Output.Normalise | lib/compiler/output.ts:130-133 | never empty, and the first value is the number 0 |
| Output.SortedValues | lib/compiler/output.ts:130 | the sort is ordered by number, strings counting as equal to everything, and is a permutation and stable |
| Output.SmallestFirst | lib/compiler/output.ts:130-131 | the first sorted value is the smallest |
| Output.NormaliseAdds | lib/compiler/output.ts:131-133 | for numbers, `UNSPECIFIED = 0` is added exactly when no value is 0 or some value is negative; nothing else is added or lost |
| Output.NormaliseSorted | lib/compiler/output.ts:130-133 | for numbers without negative values the result is in ascending order |
| Output.NormaliseNegative | lib/compiler/output.ts:131-133 | with a negative value, `UNSPECIFIED = 0` goes in front and the values are out of order |
| Output.NormaliseTexts | lib/compiler/output.ts:130-133 | strings that read as NaN keep their declaration order, with `UNSPECIFIED = 0` in front |
| Output.StringEnum | lib/compiler/output.ts:119-133 | `enum E { A = "a", B = "b" }` gives `UNSPECIFIED = 0`, `A = a`, `B = b` |
| Output.EnumBody | lib/compiler/output.ts:134 | one value statement per value, without options |
| Output.MemberFieldShape | lib/compiler/output.ts:172-190 | the optional rewrite into a single-member oneof, and the number `name$idx` gives |
| Output.IndexedName | lib/compiler/output.ts:174-178 | a member `n$k` becomes field `n` numbered `k` |
| Output.MemberFieldAt | lib/compiler/output.ts:172-191 | the field's number is the one the member's `name$idx` gives |
| Output.MemberStep | lib/compiler/output.ts:171-193 | the member is pushed exactly when its name is new, and the body is then the pushed one |
| Output.RpcFieldAt | lib/compiler/output.ts:160-162 | the rpc is named after the member and numbered 0 |
| Output.RpcStep | lib/compiler/output.ts:155-163 | a member that is not callable changes nothing; a callable one is pushed exactly when its name is new |
| Output.MemberStepShape | lib/compiler/output.ts:192 | a pushed member keeps the scope's table exact and appends its field |
| Output.RpcStepShape | lib/compiler/output.ts:161 | a service member keeps the table exact and appends its rpc when callable |
| Output.RpcsShape | lib/compiler/output.ts:147-163 | a built service holds one field per callable member, by name and in order, numbered 0 |
| Output.MemberNumbers | lib/compiler/output.ts:172-178 | one number per member |
| Output.MembersShape | lib/compiler/output.ts:165-193 | a built message holds one field per member, in order, numbered as `name$idx` gives (0 without) |
| Output.PushIntoSpec | lib/compiler/output.ts:116 | a scope is found exactly when it is in the tree; placing fails only on a name it has, and adds exactly what is placed |
| Output.PlaceSpec | lib/compiler/output.ts:153 | placing into a scope of the file fails only on a name it has, and adds exactly what is placed |
| Output.EnumMembersStop | lib/compiler/output.ts:123-127 | once a member cannot be read, the rest are not looked at |
| Output.MembersStop | lib/compiler/output.ts:171-193 | once a push throws, the rest of the members are not looked at |
| Output.OutputFile.constructor | lib/compiler/output.ts:12-14 | an empty root whose name has backslashes turned into slashes, and empty tables |
| Output.OutputFile.GetDefinition | lib/compiler/output.ts:19-34 | the lookup, as the spec function says |
| Output.OutputFile.SetDefinition | lib/compiler/output.ts:35-57 | the tables after recording the definition, or the source's error |
| Output.OutputFile.EnumFields | lib/compiler/output.ts:118-128 | the enum's values, member by member |
| Output.OutputFile.Members | lib/compiler/output.ts:171-193 | the member loop of a message |
| Output.OutputFile.Rpcs | lib/compiler/output.ts:155-163 | the member loop of a service |
| Output.OutputFile.Build | lib/compiler/output.ts:111-194 | body and options of a new enum, service or message |
| Output.OutputFile.Declare | lib/compiler/output.ts:78-116 | the initial options, the resolved scope and name, and the new definition |
| Output.OutputFile.Make | lib/compiler/output.ts:112-194 | the definition registered, built and placed |
| Output.OutputFile.Register | lib/compiler/output.ts:113-116 | a fresh identity, the definition recorded, its name checked against its scope |
| Output.OutputFile.Finish | lib/compiler/output.ts:134-193 | the body built and the definition pushed into its scope |
| Output.OutputFile.CreateType | lib/compiler/output.ts:59-196 | `createType`, as the spec function says, with the cursor put back |
| Output.OutputFile.HandleDecl | lib/compiler/output.ts:197-199 | `createType` on the declared type of the statement |
| Resolver.Require | lib/compiler/resolver.ts:83 | `requires.add`: the type is required afterwards; a present type keeps its place, a new one goes last; nothing else changes |
| Resolver.SplitIndex | lib/compiler/resolver.ts:134-140 | a name without `$` keeps number 0; otherwise the name is the part before the first `$` |
| Resolver.WithAttrs | lib/compiler/resolver.ts:142 | the field keeps its name, type and number; without attributes it is unchanged |
| Resolver.MapTypeF | lib/compiler/resolver.ts:78-328 | the resolver state only grows: required types and artificial messages are appended, new messages get fresh identities; with no depth left the result is `Any`; the result is never a bare definition |
| Resolver.TryMap | lib/compiler/resolver.ts:79-322 | the rules in order; the resolver state only grows |
| Resolver.UnionRule | lib/compiler/resolver.ts:109-147 | the union rule; the resolver state only grows |
| Resolver.OneofMembers | lib/compiler/resolver.ts:145 | one field per member type when none throws; the resolver state only grows |
| Resolver.OneofMember | lib/compiler/resolver.ts:123-144 | the single-property rule; the resolver state only grows |
| Resolver.ProbeRules | lib/compiler/resolver.ts:154-248 | the sentinel-property rules; the resolver state only grows |
| Resolver.SpecialRule | lib/compiler/resolver.ts:252-301 | the special-name rules; the resolver state only grows |
| Resolver.CallRule | lib/compiler/resolver.ts:305-322 | the call-signature and symbol rules; the resolver state only grows |
| Resolver.MapAllF | lib/compiler/resolver.ts:24-26 | one result per type; the resolver state only grows |
| Resolver.Overwrite | lib/compiler/resolver.ts:34-36 | `result[i] = ...` on the front: the front's entries, then the rest of the result |
| Resolver.Padding | lib/compiler/resolver.ts:39-41 | the given number of `google.protobuf.Any` references |
| Resolver.TypeArgsF | lib/compiler/resolver.ts:20-43 | `getTypeArgs` gives exactly `n` results; the resolver state only grows |
| Resolver.CursorArgs | lib/compiler/resolver.ts:32-42 | exactly `n` results; the resolver state only grows |
| Resolver.ParamStep | lib/compiler/resolver.ts:66-73 | one parameter; the resolver state only grows |
| Resolver.Pushed | lib/compiler/resolver.ts:69 | pushing a parameter changes no resolver state |
| Resolver.ParamsF | lib/compiler/resolver.ts:66-73 | the parameter loop; the resolver state only grows |
| Resolver.BuildMsg | lib/compiler/resolver.ts:62-75 | the new message; the resolver state only grows, with the message appended under a fresh identity |
| Resolver.SynthF | lib/compiler/resolver.ts:51-76 | `synthesizeMsg`; the resolver state only grows |
| Resolver.ParamsStops | lib/compiler/resolver.ts:66-73 | once a parameter has thrown, the rest are never reached |
| Resolver.FieldNames | lib/compiler/resolver.ts:67 | one field name per parameter |
| Resolver.ParamsShape | lib/compiler/resolver.ts:62-75 | the loop succeeds exactly when the names are distinct; then one field per parameter, in order, numbered from 1 |
| Resolver.SynthBuilds | lib/compiler/resolver.ts:62-75 | with zero or several parameters a new message of the next identity, fields numbered from 1, appended to the artificial types |
| Resolver.SynthSingle | lib/compiler/resolver.ts:52-61 | a single parameter never maps to a message definition, so the test for one never holds: a stream parameter fails, any other is wrapped in a new message |
| Resolver.TypeArgsChecker | lib/compiler/resolver.ts:23-30 | with at least `n` checker arguments, the first `n` of them, mapped |
| Resolver.TypeArgsPadding | lib/compiler/resolver.ts:39-41 | every place left unfilled is a `google.protobuf.Any` reference |
| Resolver.EnumRule | lib/compiler/resolver.ts:81-90 | an enum maps to a reference to its declared type, which becomes required |
| Resolver.BasicRules | lib/compiler/resolver.ts:93-106 | the basic flags, after the enum rules and in this order |
| Resolver.FailureGivesAny | lib/compiler/resolver.ts:323-327 | every failure in the chain gives `google.protobuf.Any`, keeping the state reached |
| Resolver.BadOneofMember | lib/compiler/resolver.ts:125-131 | a oneof member type with other than one property makes the union `Any` |
| Resolver.TypedArrays | lib/compiler/resolver.ts:263-282 | the typed arrays of the special-name table, as written |
| Resolver.Resolver.constructor | lib/compiler/resolver.ts:12-14 | no cursor, nothing required, no artificial types, identities from the first given |
| Resolver.Resolver.FreshId | lib/compiler/output.ts:113 | the next identity, which is then used up; nothing else changes |
| Resolver.Resolver.MapType | lib/compiler/resolver.ts:78-328 | `mapType` at the current cursor, as the spec function says |
| Resolver.Resolver.SeekMap | lib/compiler/resolver.ts:329-338 | maps at the node when there is one and puts the cursor back |
| Resolver.Resolver.MapAll | lib/compiler/resolver.ts:24-26 | `mapType` on each type in turn |
| Resolver.Resolver.OverwriteAll | lib/compiler/resolver.ts:34-36 | `result[i] = mapType(ts[i])` for each `i` in turn |
| Resolver.Resolver.GetTypeArgs | lib/compiler/resolver.ts:20-43 | `getTypeArgs`, as the spec function says |
| Resolver.Resolver.FromCursor | lib/compiler/resolver.ts:32-42 | the part after the checker's arguments fell short |
| Resolver.Resolver.AddParam | lib/compiler/resolver.ts:67-72 | one parameter of `synthesizeMsg` |
| Resolver.Resolver.Params | lib/compiler/resolver.ts:66-73 | the parameter loop, stopping at the first push that throws |
| Resolver.Resolver.NewMessage | lib/compiler/resolver.ts:62-75 | the new message filled and appended to the artificial types |
| Resolver.Resolver.SynthesizeMsg | lib/compiler/resolver.ts:51-76 | `synthesizeMsg`, as the spec function says |
| Utils.BitsValue | lib/compiler/utils.ts:18-20 | below `2^n`, and 0 exactly when no bit is below `n` |
| Utils.HexText | lib/compiler/utils.ts:24 | never empty |
| Utils.FlagWords | lib/compiler/utils.ts:14-26 | the listed names in order, then `0x` and the hex of the leftover bits when there are any |
| Utils.PrintFlags | lib/compiler/utils.ts:14-27 | the loop over the table, as the spec function says |
| Utils.ListedWithin | lib/compiler/utils.ts:18-21 | bits are only ever cleared |
| Utils.ListedLeavesNoEntry | lib/compiler/utils.ts:16-22 | no leftover bit belongs to any numeric entry |
| Utils.ListedKeeps | lib/compiler/utils.ts:18-21 | bits no entry has are never cleared |
| Utils.ListedDisjoint | lib/compiler/utils.ts:16-22 | with entries sharing no bits, a name is listed exactly when its bits meet the flags |
| Utils.ParentSymbol | lib/compiler/utils.ts:36-43 | a parent is given only for a symbol whose parent is named and its name does not start with `"`, and then always |
| Utils.Ancestors | lib/compiler/utils.ts:62-65 | every symbol of the walk is a shown parent |
| Utils.AncestorSteps | lib/compiler/utils.ts:62-65 | each step of the walk moves to the next ancestor, and it stops after the last |
| Utils.PrefixLoop | lib/compiler/utils.ts:62-65 | the loop puts each ancestor's name in front |
| Utils.QualifiedLoop | lib/compiler/utils.ts:62-66 | the `while (parent)` loop of `getQualifiedName` |
| Utils.GetQualifiedName | lib/compiler/utils.ts:51-67 | `getQualifiedName`, as the spec function says |
| Utils.QualifiedSplits | lib/compiler/utils.ts:62-66 | without dots in the names, the qualified name splits back into the ancestors' names and the symbol's |
| Utils.QualifiedNameCases | lib/compiler/utils.ts:56-61 | a mismatched identifier names the parent or is refused; a matching one gives the dotted name |
| Utils.FirstScoped | lib/compiler/utils.ts:91-100 | no ancestor before it is a registered scope, and the one there is |
| Utils.ScopeLoop | lib/compiler/utils.ts:91-100 | the first loop of `resolveSymbol`: out to the nearest registered scope |
| Utils.ResolveLoops | lib/compiler/utils.ts:91-106 | both loops of `resolveSymbol` |
| Utils.ResolveSymbol | lib/compiler/utils.ts:72-108 | `resolveSymbol`, as the spec function says |
| Utils.ResolveUnscoped | lib/compiler/utils.ts:90-107 | with no registered scope, the symbol lands in the initial file under its ancestors' names |
| Utils.ResolveInParent | lib/compiler/utils.ts:91-98 | a symbol whose parent is a registered scope resolves into it under its own name |
| Ts.GetProperty | lib/compiler/resolver.ts:154 | a property found has that name; none exactly when the type has none of that name |
| Sorting.Insert | lib/compiler/compiler.ts:297 | insertion adds one element |
| Sorting.SortBy | lib/compiler/compiler.ts:297 | the sort keeps the length |
| Sorting.InsertSpec | lib/compiler/compiler.ts:297 | inserting keeps a sorted sequence sorted, adds exactly the element, and puts it after the others of its key |
| Sorting.SortSpec | lib/compiler/compiler.ts:297-309 | the sort is sorted, a permutation, and stable |
| Sorting.SortSorted | lib/compiler/compiler.ts:297-309 | a sorted sequence is its own sort |
| Compiler.Sources | lib/compiler/compiler.ts:245 | the source file of each unit, in order |
| Compiler.Target | lib/compiler/compiler.ts:247 | the first unit made from that source file, or none when no unit is |
| Compiler.RelocatedAppends | lib/compiler/compiler.ts:240-257 | relocation only appends the messages that belong in each file, in order of synthesis, and records their names |
| Compiler.RelocateOneSpec | lib/compiler/compiler.ts:247-250 | the file the message belongs in gets it pushed; every other file is unchanged |
| Compiler.SweepKeepsOthers | lib/proto/base.ts:358-364 | the sweep leaves every statement other than a field as it was, in place |
| Compiler.OrderedSpec | lib/compiler/compiler.ts:290-309 | it fails exactly when the mark pass finds a clash; otherwise the body is ordered, holds exactly the swept statements, and keeps the others' order |
| Compiler.NormStmtsOrdered | lib/compiler/compiler.ts:287-311 | after normalisation every listed definition of the tree is ordered |
| Compiler.NormaliseBody | lib/compiler/compiler.ts:288-310 | `markSweep` and the sort over one body, walking into nested definitions |
| Compiler.NormStmtsErr | lib/compiler/compiler.ts:291 | an error in a prefix is the error of the whole |
| Compiler.FindFirst | lib/compiler/compiler.ts:322-337 | the search finds what the first file that knows the key holds, and nothing when none does |
| Compiler.LinkedStmts | lib/proto/base.ts:396-408 | the walk keeps the number of statements |
| Compiler.LinkedRefSpec | lib/compiler/compiler.ts:320-348 | one replacement settles the placeholder; imports only grow |
| Compiler.LinkedTypeSpec | lib/compiler/compiler.ts:319-360 | afterwards no placeholder is left that the search finds; imports grow; a walk that replaced nothing changed nothing |
| Compiler.SettledTypeFixed | lib/compiler/compiler.ts:316-363 | a settled tree is a fixed point: walking it again changes nothing |
| Compiler.LinkPass | lib/compiler/compiler.ts:318-361 | one pass keeps the number of files |
| Compiler.PassSpec | lib/compiler/compiler.ts:318-361 | a pass settles every file and changes only bodies and imports; a pass reporting no change changed nothing |
| Compiler.PassFixed | lib/compiler/compiler.ts:362 | a pass over settled files changes nothing, so it ends the loop |
| Compiler.LinkTwice | lib/compiler/compiler.ts:316-363 | the second pass finds nothing to link |
| Compiler.FindDefinition | lib/compiler/compiler.ts:322-337 | the loop finds the first file whose `getDefinition` finds the key |
| Compiler.AddImport | lib/compiler/compiler.ts:330-333 | the import is pushed only when no import has the path |
| Compiler.LinkType | lib/compiler/compiler.ts:319-360 | a type walked and its placeholders replaced, as the spec function says |
| Compiler.LinkFields | lib/proto/udts.ts:80-82 | the fields of a oneof walked in order |
| Compiler.LinkStmts | lib/proto/base.ts:209-211 | every statement of a body walked in order |
| Compiler.LinkStmt | lib/proto/base.ts:396-408 | one statement walked |
| Compiler.LinkFiles | lib/compiler/compiler.ts:318-361 | the loop over the files computes one pass |
| Compiler.RelocatedErr | lib/compiler/compiler.ts:241-257 | an error in a prefix of the relocation is its result |
| Compiler.NormUnitsErr | lib/compiler/compiler.ts:287-312 | an error in a prefix of the normalisation is its result |
| Compiler.FieldsLastSame | lib/compiler/compiler.ts:297-309 | bodies that agree on the sort key are ordered together |
| Compiler.LinkedStmtsOrdered | lib/compiler/compiler.ts:346-348 | linking keeps every sort key, so an ordered tree stays ordered |
| Compiler.NormUnitsSpec | lib/compiler/compiler.ts:285-312 | normalisation changes only bodies, and the tables the linker reads stay as they were |
| Compiler.ParsedSpec | lib/compiler/compiler.ts:240-363 | after `parse` every file keeps its source and tables, every scope it registered is ordered, and no resolvable placeholder is left |
| Compiler.Compiler.constructor | lib/compiler/compiler.ts:68-185 | a compiler over the checker and the lowered files |
| Compiler.Compiler.Relocate | lib/compiler/compiler.ts:240-257 | the files after the relocation loop, or the error |
| Compiler.Compiler.Normalise | lib/compiler/compiler.ts:285-312 | the files after normalisation, with one allocator for all files, or the error |
| Compiler.Compiler.LinkOnce | lib/compiler/compiler.ts:317-361 | one pass of the linker |
| Compiler.Compiler.Link | lib/compiler/compiler.ts:316-363 | passes until one replaces nothing; every body ends settled and only bodies and imports change |
| Compiler.Compiler.Parse | lib/compiler/compiler.ts:240-363 | relocation, normalisation and linking, or the first error |
| Plugins.Pairs | lib/compiler/compiler.ts:410-411 | the `k=v` text of each option, in order |
| Plugins.ParameterRoundTrip | lib/compiler/compiler.ts:409-413 | reading the parameter back gives each key and its value's text, in order, when keys hold no `=` or `,` and values no `,` |
| Plugins.GroupAt | lib/compiler/compiler.ts:470 | where the group of a package is, if any |
| Plugins.GroupedSpec | lib/compiler/compiler.ts:463-476 | every file not skipped is in its package's group, in file order; one group per package and none empty |
| Plugins.AddToSpec | lib/compiler/compiler.ts:470-475 | adding the last file's name to the earlier groups gives the groups of all the files |
| Plugins.ByPackage | lib/compiler/compiler.ts:463-476 | the loop over the files computes the grouping |
| Plugins.FindGroup | lib/compiler/compiler.ts:470 | `byPackage.get(pkg)` |
| Plugins.GroupRequests | lib/compiler/compiler.ts:481-484 | one request per group, in group order |
| Plugins.RequestsAt | lib/compiler/compiler.ts:399-413 | request number `i` times the number of groups plus `j` is plugin `i`'s for group `j`, with the whole descriptor set, version 5.26.0 and the plugin's parameter |
| Plugins.RequestsLength | lib/compiler/compiler.ts:478-485 | one request per plugin and group |
| Plugins.PluginRequests | lib/compiler/compiler.ts:481-484 | the loop over the groups for one plugin |
| Plugins.RunPlugins | lib/compiler/compiler.ts:455-486 | nothing without plugins; otherwise the error of the descriptor set of the files, built with the files' own placement, or its requests grouped by package |
| Plugins.Writes | lib/compiler/compiler.ts:444-453 | one write per entry |
| Plugins.FirstInsertion | lib/compiler/compiler.ts:446-448 | an entry with an insertion point, and none before it; none at all when it finds nothing |
| Plugins.HandleResponse | lib/compiler/compiler.ts:440-453 | the loop over the entries computes the response's writes and outcome |
| Plugins.LastNameSpec | lib/compiler/compiler.ts:444-451 | an unnamed entry goes to the last name given before it, or `''` |
| Plugins.ResponseSpec | lib/compiler/compiler.ts:440-453 | an error writes nothing; otherwise writes stop at the first insertion point with an error, or cover every entry |

## Left out

- Floating point: non-integer numbers, `parseFloat`, `Number` conversion of options and double or float option values are not modelled.
- Base.EncodeLiteral: a number literal is written with every digit of the integer. JavaScript's `toString` writes a number of magnitude 1e21 or more in exponent form, and a number beyond 2^53 has already lost precision.
- `pascalCase` and `TextEncoder` are library code; they enter as function parameters.
- The protobuf runtime: option messages are kept as lists of numbered fields, and binary serialisation is not modelled.
- `extendOptions` and lib/cli.ts are not part of this model.
- The compiler's constructor: option parsing, tsconfig discovery, package naming and file options (compiler.ts:68-185). `Compiler.Compiler.constructor` takes the lowered files as given.
- `processChildren` and the walk over source files (compiler.ts:187-238): files enter `Compiler` as lowered values.
- The TypeScript checker and program are the abstract value `Ts.Checker`.
- `mapType` and `createType` carry a depth bound: `fuel` and `hops`. A deeper chain fails, where the source would recurse without end or overflow its stack.
- JavaScript's ordering of integer-like object keys is not modelled. Option entries keep insertion order.
- I/O: spawning plugins, stdin and stdout, `writeFile` paths, `mkdirSync`, `writeProto`, `run` and the request dump. A plugin's response enters as a value. The plugins run one after another (compiler.ts:455-486), so a response that throws stops the later plugins' requests; the model computes every request and handles each response on its own.
- Logging, and the `requires` check, which only logs (compiler.ts:259-269).
- Parent marking (compiler.ts:271-283) as a pass: in the value tree, a definition's position is its parent. `Udts.PlacementOf` reads each definition's enclosing chain off the files: where `push` put it, else the scope whose field's type first reaches it, which is the service for a request or response message that relocation put in no file. `Descriptors.Compiling` builds the descriptors with it. That the identities are distinct, which object identity gives the source, is a hypothesis of `Udts.PlacementAt`, and that only one field reaches an unplaced definition is a hypothesis of `Udts.PlacementReached`. The marking walk does not descend into the body of a message placed in no file, since that body is not in the files; such a body is not emitted either.
- Files are the values `Compiler.Unit`, not `OutputFile` objects.
- Sharing: objects reachable twice, and the `visited` set of `recursiveVisit`. The linker does not descend into a definition it has just placed.
- Compiler.LinkedType: a definition is not walked where it is referred to. The source's `recursiveVisit` walks the synthesised request message of an rpc through `RpcTypeExpr.visit` (udts.ts:140-143, base.ts:396-408), at the service's place in the walk and for the file being walked. The model walks that message where relocation appended it, at the end of the body of the file it was moved to. Three differences follow. (i) Import order: the message's imports are added after those of statements the source walks later, so `interface S { m(a: Foo): Bar }` with `Foo` from X and `Bar` from Y imports [X, Y] in the source and [Y, X] in the model. (ii) A message that relocation put in no file is never walked by the linker, so the source adds its imports and the model does not. Its descriptor type name is the source's (see `Udts.PlacementReached`). (iii) A method of the service declared in a later file adds the message's imports to that file in the model, and to the file that holds the service in the source.
- Compiler.LinkType, Compiler.LinkedStmts, Compiler.LinkedStmt, Compiler.LinkStmts, Compiler.LinkStmt: they walk as `Compiler.LinkedType` does, so the three differences given there hold for them.
- Compiler.LinkPass, Compiler.LinkFiles, Compiler.Compiler.LinkOnce, Compiler.Compiler.Link: they link every file as `Compiler.LinkedType` does, so the imports differ from the source's in the three ways given there.
- Output.CreateTypeF: a symbol whose `getDeclarations()` is an empty array makes output.ts:73 throw on `[0].getSourceFile()`. `Ts.SymbolInfo.declFile` cannot express that, so the model goes on as for a type declared in another file. The same holds for `Output.OutputFile.CreateType`.
- Utils.HexText: when no entry matched, the source prints `fl` as given, so a flag at bit 31 prints as `0x80000000` where the model prints `0x-80000000`. The checker's flags stay below bit 31.
- The body sort is modelled on sequences.
- Compiler.Compiler.Relocate: on an error the files are left as they were. The source would keep the pushes made before the error.
- Compiler.Compiler.Normalise: on an error the files are left as they were. The source would keep the scopes numbered before the error.
- Compiler.Compiler.Parse: on an error, the files are not specified. Its linking step differs from the source's in the three ways given under `Compiler.LinkedType`.
- Udts.MarkSweep: the error message does not carry the clashing index.
- Messages of the model's own, where the source has no throw of its own: "Definition scope not found" (a scope is an identity in the value tree, not an object), "Type chain too deep" (the `hops` bound), "Maximum call stack size exceeded" (a single stream parameter) and "Index is already taken" (see `Udts.MarkSweep`).
- The messages of "Unhandled type", "Oneof type must have exactly one member" and "Link name must be a string literal" leave out the checker's `typeToString` of the type; `mapType` catches them all.
- Output.EnumMember: a member type that is neither a number nor a string literal is refused ("Enum member is neither a number nor a string"); the source would record `undefined`. The checker gives no such enum member.
- Output.OutputFile.Build, Output.OutputFile.Make, Output.OutputFile.CreateType, Output.OutputFile.HandleDecl: an enum that mixes numbers and strings, or has a string that converts to a number, is refused ("Enum order depends on converting strings to numbers"). For such an enum the source's comparator `a.number - b.number` converts strings to numbers or returns NaN, so the order depends on that conversion or on the engine. Enums of numbers only, and enums of strings that read as NaN, are modelled. The same holds for `Output.BuildF`. Make, CreateType and HandleDecl build through Build.
- Cvt.ConvertOptions: a key naming a property every JavaScript object inherits (`constructor`, `toString`, `__proto__`, …) is kept as an uninterpreted option. The source finds the inherited property and calls it as an encoder, which drops the option or throws depending on the property.
- Resolver.SynthF: a single stream parameter makes `synthesizeMsg` call itself on the same arguments without end; the model returns an error there.
- Where the code disagrees with its own comments or the protobuf conventions, the model follows the code:
  - map entry key and value fields are `TYPE_INT32`;
  - `splitNameParts` keeps empty parts, and takes `slice(idx + 1, -1)` when `)` is missing;
  - `Uint64Array` maps to repeated `uint32`;
  - `synthesizeMsg` ignores `$` in parameter names;
  - errors in oneof members become `google.protobuf.Any`;
  - `@option` keeps only the second `=`-separated segment.
  - a byte of a bytes literal that is not printable is escaped as `\x` followed by its octal digits (`byte.toString(8)`), although the comment promises C escaping.
