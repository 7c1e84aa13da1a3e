/**
 * The static option registry of lib/proto/ext/builtin.ts: for each options
 * message of descriptor.proto it lists, the option names with their field
 * number and the kind of value they carry.
 */
module Registry {
  import opened Wrappers

  /** The `*Options` message of descriptor.proto an option belongs to. */
  datatype Owner =
    | FileOwner | MessageOwner | FieldOwner | EnumOwner | EnumValueOwner
    | ServiceOwner | MethodOwner | OneofOwner | ExtensionRangeOwner

  /** The kinds of option value the registry uses: `string`, `bool` and `enum`. */
  datatype WireKind = WString | WBool | WEnum

  /** One registered option: its name, the kind of its value and its field number. */
  datatype OptionSpec = OptionSpec(name: string, kind: WireKind, field: nat)

  /** The registry; it has no table for field options. */
  function Table(o: Owner): Option<seq<OptionSpec>>
  {
    match o
    case FileOwner => Some([
      OptionSpec("java_package", WString, 1),
      OptionSpec("java_outer_classname", WString, 8),
      OptionSpec("java_multiple_files", WBool, 10),
      OptionSpec("java_generate_equals_and_hash", WBool, 20),
      OptionSpec("java_string_check_utf8", WBool, 27),
      OptionSpec("optimize_for", WEnum, 9),
      OptionSpec("go_package", WString, 11),
      OptionSpec("cc_generic_services", WBool, 16),
      OptionSpec("java_generic_services", WBool, 17),
      OptionSpec("py_generic_services", WBool, 18),
      OptionSpec("php_generic_services", WBool, 42),
      OptionSpec("deprecated", WBool, 23),
      OptionSpec("cc_enable_arenas", WBool, 31),
      OptionSpec("objc_class_prefix", WString, 36),
      OptionSpec("csharp_namespace", WString, 37),
      OptionSpec("swift_prefix", WString, 39),
      OptionSpec("php_class_prefix", WString, 40),
      OptionSpec("php_namespace", WString, 41),
      OptionSpec("php_metadata_namespace", WString, 44),
      OptionSpec("ruby_package", WString, 45)])
    case MessageOwner => Some([
      OptionSpec("message_set_wire_format", WBool, 1),
      OptionSpec("no_standard_descriptor_accessor", WBool, 2),
      OptionSpec("deprecated", WBool, 3),
      OptionSpec("map_entry", WBool, 7)])
    case EnumOwner => Some([
      OptionSpec("allow_alias", WBool, 2),
      OptionSpec("deprecated", WBool, 3)])
    case EnumValueOwner => Some([OptionSpec("deprecated", WBool, 1)])
    case ServiceOwner => Some([OptionSpec("deprecated", WBool, 33)])
    case MethodOwner => Some([
      OptionSpec("deprecated", WBool, 33),
      OptionSpec("idempotency_level", WEnum, 34)])
    case OneofOwner => Some([OptionSpec("deprecated", WBool, 33)])
    case ExtensionRangeOwner => Some([])
    case FieldOwner => None
  }

  /** The first entry of a table with that name. */
  function Find(specs: seq<OptionSpec>, name: string): (r: Option<OptionSpec>)
    ensures r.Some? ==> r.value.name == name && exists i :: 0 <= i < |specs| && specs[i] == r.value
    ensures r.None? <==> forall i :: 0 <= i < |specs| ==> specs[i].name != name
  {
    if |specs| == 0 then None
    else if specs[0].name == name then Some(specs[0])
    else
      var r := Find(specs[1..], name);
      assert forall i :: 1 <= i < |specs| ==> specs[i] == specs[1..][i - 1];
      r
  }

  /** The field numbers of the entries of one kind. */
  function FieldsOfKind(specs: seq<OptionSpec>, k: WireKind): set<nat>
  {
    set i | 0 <= i < |specs| && specs[i].kind == k :: specs[i].field
  }

  /** The file table's entries, as the registry lists them. */
  function FileSpecs(): seq<OptionSpec>
  {
    if Table(FileOwner).Some? then Table(FileOwner).value else []
  }

  /** File options: ten strings, nine bools and `optimize_for`, the one enum, at 9. */
  lemma FileKinds()
    ensures |FileSpecs()| == 20
    ensures forall i :: 0 <= i < |FileSpecs()| ==>
      (FileSpecs()[i].kind == WString <==> FileSpecs()[i].field in {1, 8, 11, 36, 37, 39, 40, 41, 44, 45})
    ensures forall i :: 0 <= i < |FileSpecs()| ==>
      (FileSpecs()[i].kind == WBool <==> FileSpecs()[i].field in {10, 16, 17, 18, 20, 23, 27, 31, 42})
    ensures forall i :: 0 <= i < |FileSpecs()| ==>
      (FileSpecs()[i].kind == WEnum <==> FileSpecs()[i].name == "optimize_for" && FileSpecs()[i].field == 9)
  {
  }

  /** Message, enum and enum-value options carry only bools; service, method and oneof options `deprecated` at 33. */
  lemma OtherKinds()
    ensures forall o, i :: (o in {MessageOwner, EnumOwner, EnumValueOwner, ServiceOwner, OneofOwner} && Table(o).Some?
      && 0 <= i < |Table(o).value|) ==> Table(o).value[i].kind == WBool
    ensures forall o :: o in {ServiceOwner, MethodOwner, OneofOwner} ==>
      Table(o).Some? && Find(Table(o).value, "deprecated") == Some(OptionSpec("deprecated", WBool, 33))
    ensures Table(MethodOwner).Some? && Find(Table(MethodOwner).value, "idempotency_level") == Some(OptionSpec("idempotency_level", WEnum, 34))
    ensures Table(ExtensionRangeOwner) == Some([]) && Table(FieldOwner).None?
  {
  }
}
