/** Extraction from compiler descriptors builds the full names that loading relies on. */
module DescriptorExtraction {
  import opened Wrappers
  import opened Text
  import opened Sequences
  import opened DescriptorMetadata
  import opened DescriptorRows
  import opened DescriptorLoad
  import opened DescriptorNames
  import opened DescriptorSorted
  import opened DescriptorTables
  import opened DescriptorKeys
  import opened DescriptorRoundTrip

  datatype EnumDescriptor = EnumDescriptor(name: string, values: seq<ProtoEnumValue>)

  datatype MessageDescriptor = MessageDescriptor(
    name: string,
    fields: seq<ProtoField>,
    nested: seq<MessageDescriptor>,
    enums: seq<EnumDescriptor>)

  datatype FileDescriptor = FileDescriptor(
    path: string,
    packageName: string,
    syntax: string,
    imports: seq<ProtoImport>,
    services: seq<ProtoService>,
    messages: seq<MessageDescriptor>,
    enums: seq<EnumDescriptor>)

  function JoinProtoName(packageName: string, name: string): string {
    if packageName == "" then name else packageName + "." + name
  }

  function FullName(packageName: string, parentFullName: string, name: string): string {
    if parentFullName != "" then parentFullName + "." + name else JoinProtoName(packageName, name)
  }

  function ExtractedEnums(packageName: string, parentFullName: string, descriptors: seq<EnumDescriptor>): (r: seq<ProtoEnum>)
    ensures |r| == |descriptors|
  {
    if descriptors == [] then []
    else
      var last := descriptors[|descriptors| - 1];
      ExtractedEnums(packageName, parentFullName, descriptors[..|descriptors| - 1]) +
      [ProtoEnum(last.name, FullName(packageName, parentFullName, last.name), last.values)]
  }

  function ExtractedMessages(packageName: string, parentFullName: string, descriptors: seq<MessageDescriptor>): (r: seq<ProtoMessage>)
    ensures |r| == |descriptors|
    decreases descriptors, 0
  {
    if descriptors == [] then []
    else
      ExtractedMessages(packageName, parentFullName, descriptors[..|descriptors| - 1]) +
      [ExtractedMessage(packageName, parentFullName, descriptors[|descriptors| - 1])]
  }

  function ExtractedMessage(packageName: string, parentFullName: string, d: MessageDescriptor): ProtoMessage
    decreases d, 1
  {
    var fullName := FullName(packageName, parentFullName, d.name);
    ProtoMessage(d.name, fullName, d.fields, ExtractedMessages(packageName, fullName, d.nested),
                 ExtractedEnums(packageName, fullName, d.enums))
  }

  function ExtractedFile(d: FileDescriptor): ProtoFile {
    ProtoFile(d.path, d.packageName, d.syntax, d.imports, d.services, ExtractedMessages(d.packageName, "", d.messages),
              ExtractedEnums(d.packageName, "", d.enums))
  }

  // The extractors' loops

  method ExtractEnums(packageName: string, parentFullName: string, descriptors: seq<EnumDescriptor>) returns (enums: seq<ProtoEnum>)
    ensures enums == ExtractedEnums(packageName, parentFullName, descriptors)
  {
    enums := [];
    for i := 0 to |descriptors|
      invariant enums == ExtractedEnums(packageName, parentFullName, descriptors[..i])
    {
      var name := descriptors[i].name;
      var fullName := JoinProtoName(packageName, name);
      if parentFullName != "" {
        fullName := parentFullName + "." + name;
      }
      enums := enums + [ProtoEnum(name, fullName, descriptors[i].values)];
      assert descriptors[..i + 1][..i] == descriptors[..i];
    }
    assert descriptors[..|descriptors|] == descriptors;
  }

  method ExtractMessages(packageName: string, parentFullName: string, descriptors: seq<MessageDescriptor>)
    returns (messages: seq<ProtoMessage>)
    ensures messages == ExtractedMessages(packageName, parentFullName, descriptors)
    decreases descriptors
  {
    messages := [];
    for i := 0 to |descriptors|
      invariant messages == ExtractedMessages(packageName, parentFullName, descriptors[..i])
    {
      var d := descriptors[i];
      var fullName := JoinProtoName(packageName, d.name);
      if parentFullName != "" {
        fullName := parentFullName + "." + d.name;
      }
      var nested := ExtractMessages(packageName, fullName, d.nested);
      var enums := ExtractEnums(packageName, fullName, d.enums);
      messages := messages + [ProtoMessage(d.name, fullName, d.fields, nested, enums)];
      assert descriptors[..i + 1][..i] == descriptors[..i];
    }
    assert descriptors[..|descriptors|] == descriptors;
  }

  // Names

  predicate NamesPresent(descriptors: seq<MessageDescriptor>) {
    forall i | 0 <= i < |descriptors| :: descriptors[i].name != "" && NamesPresent(descriptors[i].nested)
  }

  predicate EnumNamesDotFree(descriptors: seq<EnumDescriptor>) {
    forall i | 0 <= i < |descriptors| :: DotFree(descriptors[i].name)
  }

  /** Every name is one identifier, and messages of one scope have different names. */
  predicate LegalNames(descriptors: seq<MessageDescriptor>) {
    && (forall i | 0 <= i < |descriptors| ::
          && DotFree(descriptors[i].name)
          && EnumNamesDotFree(descriptors[i].enums)
          && LegalNames(descriptors[i].nested))
    && (forall i, j | 0 <= i < j < |descriptors| :: descriptors[i].name != descriptors[j].name)
  }

  function ScopePrefix(packageName: string, parentFullName: string): string {
    if parentFullName != "" then parentFullName + "." else PackagePrefix(packageName)
  }

  lemma FullNameIsPrefixed(packageName: string, parentFullName: string, name: string)
    ensures FullName(packageName, parentFullName, name) == ScopePrefix(packageName, parentFullName) + name
    ensures name != "" ==> FullName(packageName, parentFullName, name) != ""
  {}

  lemma {:induction false} ExtractedAt(packageName: string, parentFullName: string, descriptors: seq<MessageDescriptor>, i: nat)
    requires i < |descriptors|
    ensures ExtractedMessages(packageName, parentFullName, descriptors)[i] ==
            ExtractedMessage(packageName, parentFullName, descriptors[i])
  {
    if i < |descriptors| - 1 { ExtractedAt(packageName, parentFullName, descriptors[..|descriptors| - 1], i); }
  }

  lemma {:induction false} ExtractedEnumAt(packageName: string, parentFullName: string, descriptors: seq<EnumDescriptor>, i: nat)
    requires i < |descriptors|
    ensures ExtractedEnums(packageName, parentFullName, descriptors)[i] ==
            ProtoEnum(descriptors[i].name, FullName(packageName, parentFullName, descriptors[i].name), descriptors[i].values)
  {
    if i < |descriptors| - 1 { ExtractedEnumAt(packageName, parentFullName, descriptors[..|descriptors| - 1], i); }
  }

  lemma EnumsNamed(packageName: string, parentFullName: string, descriptors: seq<EnumDescriptor>)
    ensures var enums := ExtractedEnums(packageName, parentFullName, descriptors);
            (forall e | e in enums :: EnumNamed(e, ScopePrefix(packageName, parentFullName))) <==>
            EnumNamesDotFree(descriptors)
  {
    var enums := ExtractedEnums(packageName, parentFullName, descriptors);
    forall i | 0 <= i < |enums|
      ensures enums[i] in enums
      ensures EnumNamed(enums[i], ScopePrefix(packageName, parentFullName)) <==> DotFree(descriptors[i].name)
    {
      ExtractedEnumAt(packageName, parentFullName, descriptors, i);
      FullNameIsPrefixed(packageName, parentFullName, descriptors[i].name);
    }
  }

  /** When no message name is empty, the extracted tree is well named exactly when every
      name is free of dots and the messages of each scope have different names. */
  lemma {:induction false} ExtractionIsWellNamed(packageName: string, parentFullName: string, descriptors: seq<MessageDescriptor>)
    requires NamesPresent(descriptors)
    ensures WellNamed(ExtractedMessages(packageName, parentFullName, descriptors), ScopePrefix(packageName, parentFullName)) <==>
            LegalNames(descriptors)
    decreases descriptors
  {
    var messages := ExtractedMessages(packageName, parentFullName, descriptors);
    var prefix := ScopePrefix(packageName, parentFullName);
    hide ExtractedMessages; hide ExtractedEnums;
    forall i | 0 <= i < |descriptors|
      ensures messages[i].name == descriptors[i].name && messages[i].fullName == prefix + descriptors[i].name
      ensures (forall e | e in messages[i].enums :: EnumNamed(e, messages[i].fullName + ".")) <==>
              EnumNamesDotFree(descriptors[i].enums)
      ensures WellNamed(messages[i].messages, messages[i].fullName + ".") <==> LegalNames(descriptors[i].nested)
    {
      ExtractedAt(packageName, parentFullName, descriptors, i);
      FullNameIsPrefixed(packageName, parentFullName, descriptors[i].name);
      ExtractionIsWellNamed(packageName, messages[i].fullName, descriptors[i].nested);
      EnumsNamed(packageName, messages[i].fullName, descriptors[i].enums);
    }
  }

  // Everything is extracted

  predicate ExtractsEnums(prefix: string, descriptors: seq<EnumDescriptor>, enums: seq<ProtoEnum>) {
    && |enums| == |descriptors|
    && forall i | 0 <= i < |descriptors| ::
         enums[i] == ProtoEnum(descriptors[i].name, prefix + descriptors[i].name, descriptors[i].values)
  }

  /** The messages are the descriptors, in order and at every depth, with their names, fields
      and enums, under the scope's prefix. */
  predicate Extracts(prefix: string, descriptors: seq<MessageDescriptor>, messages: seq<ProtoMessage>)
    decreases descriptors
  {
    && |messages| == |descriptors|
    && forall i | 0 <= i < |descriptors| ::
         && messages[i].name == descriptors[i].name
         && messages[i].fullName == prefix + descriptors[i].name
         && messages[i].fields == descriptors[i].fields
         && Extracts(messages[i].fullName + ".", descriptors[i].nested, messages[i].messages)
         && ExtractsEnums(messages[i].fullName + ".", descriptors[i].enums, messages[i].enums)
  }

  lemma EnumsExtracted(packageName: string, parentFullName: string, descriptors: seq<EnumDescriptor>)
    ensures ExtractsEnums(ScopePrefix(packageName, parentFullName), descriptors,
                          ExtractedEnums(packageName, parentFullName, descriptors))
  {
    hide ExtractedEnums;
    forall i | 0 <= i < |descriptors|
      ensures ExtractedEnums(packageName, parentFullName, descriptors)[i] ==
              ProtoEnum(descriptors[i].name, ScopePrefix(packageName, parentFullName) + descriptors[i].name, descriptors[i].values)
    {
      ExtractedEnumAt(packageName, parentFullName, descriptors, i);
      FullNameIsPrefixed(packageName, parentFullName, descriptors[i].name);
    }
  }

  lemma {:induction false} MessagesExtracted(packageName: string, parentFullName: string, descriptors: seq<MessageDescriptor>)
    requires NamesPresent(descriptors)
    ensures Extracts(ScopePrefix(packageName, parentFullName), descriptors,
                     ExtractedMessages(packageName, parentFullName, descriptors))
    decreases descriptors
  {
    hide ExtractedMessages; hide ExtractedEnums; hide ExtractsEnums;
    var messages := ExtractedMessages(packageName, parentFullName, descriptors);
    forall i | 0 <= i < |descriptors|
      ensures && messages[i].name == descriptors[i].name
              && messages[i].fullName == ScopePrefix(packageName, parentFullName) + descriptors[i].name
              && messages[i].fields == descriptors[i].fields
              && Extracts(messages[i].fullName + ".", descriptors[i].nested, messages[i].messages)
              && ExtractsEnums(messages[i].fullName + ".", descriptors[i].enums, messages[i].enums)
    {
      ExtractedAt(packageName, parentFullName, descriptors, i);
      FullNameIsPrefixed(packageName, parentFullName, descriptors[i].name);
      MessagesExtracted(packageName, messages[i].fullName, descriptors[i].nested);
      EnumsExtracted(packageName, messages[i].fullName, descriptors[i].enums);
    }
  }

  /** A file's extraction keeps everything the descriptor holds and names it below the package. */
  lemma FileExtracted(d: FileDescriptor)
    requires NamesPresent(d.messages)
    ensures var file := ExtractedFile(d);
            var prefix := if d.packageName == "" then "" else d.packageName + ".";
            && file.path == d.path && file.packageName == d.packageName && file.syntax == d.syntax
            && file.imports == d.imports && file.services == d.services
            && Extracts(prefix, d.messages, file.messages)
            && ExtractsEnums(prefix, d.enums, file.enums)
  {
    MessagesExtracted(d.packageName, "", d.messages);
    EnumsExtracted(d.packageName, "", d.enums);
    hide Extracts; hide ExtractsEnums; hide ExtractedMessages; hide ExtractedEnums;
  }

  predicate LegalFile(d: FileDescriptor) {
    NamesPresent(d.messages) && LegalNames(d.messages) && EnumNamesDotFree(d.enums)
  }

  /** From compiler output to database and back: whatever the nesting, the database takes the
      extracted metadata exactly when its keys differ, and then loading gives it back, every
      level in its load order. */
  lemma ExtractedMetadataRoundTrips(t: Tables, v: VersionId, descriptors: seq<FileDescriptor>)
    requires Sound(t) && descriptors != [] && forall d | d in descriptors :: LegalFile(d)
    ensures var files := Map(descriptors, ExtractedFile);
            && (Unique(Saved(t, v, files)) <==> Storable(files))
            && (Storable(files) ==> Sound(Saved(t, v, files)))
            && Buildable(Saved(t, v, files))
            && Load(Saved(t, v, files), v) == Success(Sorted(files))
  {
    var files := Map(descriptors, ExtractedFile);
    hide Map; hide ExtractedMessages; hide ExtractedEnums; hide WellNamed; hide LegalNames; hide Sound; hide Load; hide Saved;
    hide Unique; hide Storable;
    forall file | file in files
      ensures WellNamedFile(file)
    {
      var i :| 0 <= i < |files| && files[i] == file;
      var d := descriptors[i];
      assert d in descriptors;
      ExtractionIsWellNamed(d.packageName, "", d.messages);
      EnumsNamed(d.packageName, "", d.enums);
    }
    assert |files| == |descriptors| > 0;
    LoadAfterSave(t, v, files);
  }

  lemma RepeatedNumberIsRefused(t: Tables, v: VersionId, file: ProtoFile, e: ProtoEnum)
    requires Sound(t) && e in file.enums && |e.values| > 1 && e.values[0].number == e.values[1].number
    ensures !Unique(Saved(t, v, [file]))
  {
    hide Sound; hide Saved; hide Unique; hide MessagesIn; hide ServicesIn;
    assert e in FileEnums(file);
    assert FlatMap([file], FileEnums) == FlatMap([], FileEnums) + FileEnums(file);
    assert ValueNumber(e.values[0]) == ValueNumber(e.values[1]);
    SavedUnique(t, v, [file]);
  }

  /** The compiler accepts two names for one enum number under allow_alias; the database
      does not, whatever it holds. */
  lemma AliasedEnumIsRefused(t: Tables, v: VersionId, path: string)
    requires Sound(t)
    ensures var alias := EnumDescriptor("E", [ProtoEnumValue("A", 0), ProtoEnumValue("B", 0)]);
            var d := FileDescriptor(path, "p", "proto3", [], [], [], [alias]);
            && LegalFile(d)
            && !Unique(Saved(t, v, [ExtractedFile(d)]))
  {
    hide Sound; hide Saved; hide Unique; hide ExtractedEnums;
    var alias := EnumDescriptor("E", [ProtoEnumValue("A", 0), ProtoEnumValue("B", 0)]);
    var d := FileDescriptor(path, "p", "proto3", [], [], [], [alias]);
    ExtractedEnumAt("p", "", [alias], 0);
    var file := ExtractedFile(d);
    RepeatedNumberIsRefused(t, v, file, file.enums[0]);
  }
}
