/** The metadata a load promises: the saved metadata with every level in its load order.
    Attaching the loaded enums to the rebuilt forest gives it. */
module DescriptorSorted {
  import opened Text
  import opened Sequences
  import opened DescriptorMetadata
  import opened DescriptorLoad
  import opened DescriptorNames
  import opened DescriptorRebuild

  predicate EnumLe(a: ProtoEnum, b: ProtoEnum) { LessOrEqual(a.fullName, b.fullName) }

  predicate ServiceLe(a: ProtoService, b: ProtoService) { LessOrEqual(a.fullName, b.fullName) }

  predicate ProtoFileLe(a: ProtoFile, b: ProtoFile) { LessOrEqual(a.path, b.path) }

  function SortedEnum(e: ProtoEnum): ProtoEnum { e.(values := Sort(e.values, ValueLe)) }

  function SortedEnums(enums: seq<ProtoEnum>): seq<ProtoEnum> {
    Sort(Map(enums, SortedEnum), EnumLe)
  }

  function SortedService(s: ProtoService): ProtoService { s.(methods := Sort(s.methods, MethodLe)) }

  function SortedServices(services: seq<ProtoService>): seq<ProtoService> {
    Sort(Map(services, SortedService), ServiceLe)
  }

  function SortedMessage(m: ProtoMessage): ProtoMessage
    decreases m, 2
  {
    ProtoMessage(m.name, m.fullName, Sort(m.fields, FieldLe), SortedMessages(m.messages), SortedEnums(m.enums))
  }

  function SortedMessages(messages: seq<ProtoMessage>): seq<ProtoMessage>
    decreases messages, 1
  {
    Sort(SortedEach(messages), MessageLe)
  }

  function SortedEach(messages: seq<ProtoMessage>): (r: seq<ProtoMessage>)
    ensures |r| == |messages|
    decreases messages, 0
  {
    if messages == [] then [] else [SortedMessage(messages[0])] + SortedEach(messages[1..])
  }

  function SortedFile(file: ProtoFile): ProtoFile {
    ProtoFile(file.path, file.packageName, file.syntax, Sort(file.imports, ImportLe), SortedServices(file.services),
              SortedMessages(file.messages), SortedEnums(file.enums))
  }

  /** Every level of the metadata in its load order. */
  function Sorted(files: Metadata): Metadata {
    Sort(Map(files, SortedFile), ProtoFileLe)
  }

  function PackagePrefix(packageName: string): string {
    if packageName == "" then "" else packageName + "."
  }

  /** Full names are built from the package and the enclosing messages, and no name holds a
      dot, as in every file a protobuf compiler accepts. */
  predicate WellNamedFile(file: ProtoFile) {
    var prefix := PackagePrefix(file.packageName);
    && WellNamed(file.messages, prefix)
    && (forall e | e in file.enums :: EnumNamed(e, prefix))
  }

  lemma EnumOrder()
    ensures TotalPreorder(EnumLe)
  {
    forall a, b, c: ProtoEnum
      ensures EnumLe(a, b) || EnumLe(b, a)
      ensures EnumLe(a, b) && EnumLe(b, c) ==> EnumLe(a, c)
    {
      LessOrEqualTotal(a.fullName, b.fullName);
      if EnumLe(a, b) && EnumLe(b, c) { LessOrEqualTransitive(a.fullName, b.fullName, c.fullName); }
    }
  }

  // Selecting enums commutes with sorting them

  lemma {:induction false} SameOwner(m: ProtoMessage, e: ProtoEnum, sorted: ProtoEnum)
    requires e.name == sorted.name && e.fullName == sorted.fullName
    ensures Owns(m, e) == Owns(m, sorted)
    decreases m
  {
    forall i | 0 <= i < |m.messages|
      ensures Owns(m.messages[i], e) == Owns(m.messages[i], sorted)
    {
      SameOwner(m.messages[i], e, sorted);
    }
  }

  function Unowned(messages: seq<ProtoMessage>): ProtoEnum -> bool {
    (e: ProtoEnum) => !HasOwner(messages, e)
  }

  lemma SelectSorted(enums: seq<ProtoEnum>, keep: ProtoEnum -> bool)
    requires forall e | e in enums :: keep(e) == keep(SortedEnum(e))
    ensures Filter(SortedEnums(enums), keep) == SortedEnums(Filter(enums, keep))
  {
    EnumOrder();
    FilterSort(Map(enums, SortedEnum), EnumLe, keep);
    FilterMap(enums, SortedEnum, keep, keep);
  }

  lemma UnownedSorted(messages: seq<ProtoMessage>, e: ProtoEnum)
    ensures Unowned(messages)(e) == Unowned(messages)(SortedEnum(e))
  {
    forall i | 0 <= i < |messages|
      ensures Owns(messages[i], e) == Owns(messages[i], SortedEnum(e))
    {
      SameOwner(messages[i], e, SortedEnum(e));
    }
  }

  lemma SortedEnumsMembers(enums: seq<ProtoEnum>, e: ProtoEnum)
    requires e in SortedEnums(enums)
    ensures exists x :: x in enums && e == SortedEnum(x)
  {
    EnumOrder();
    SortMembers(Map(enums, SortedEnum), EnumLe);
    var i :| 0 <= i < |Map(enums, SortedEnum)| && Map(enums, SortedEnum)[i] == e;
    assert enums[i] in enums && e == SortedEnum(enums[i]);
  }

  // The enums a rebuilt forest owns

  lemma {:induction false} ExactIsSorted(all: seq<ProtoEnum>, messages: seq<ProtoMessage>)
    requires Exact(all, messages)
    ensures RebuiltForest(messages, SortedEnums(all)) == SortedMessages(messages)
    decreases messages
  {
    hide SortedEnums; hide Sort; hide OwnedEnums; hide SortedMessage;
    forall i | 0 <= i < |messages|
      ensures RebuiltEach(messages, SortedEnums(all))[i] == SortedEach(messages)[i]
    {
      RebuiltEachAt(messages, SortedEnums(all), i);
      SortedEachAt(messages, i);
      ExactIsSorted(all, messages[i].messages);
      ExactMessage(all, messages[i]);
    }
    assert RebuiltEach(messages, SortedEnums(all)) == SortedEach(messages);
  }

  lemma ExactMessage(all: seq<ProtoEnum>, m: ProtoMessage)
    requires OwnedEnums(all, m.fullName) == m.enums
    requires RebuiltForest(m.messages, SortedEnums(all)) == SortedMessages(m.messages)
    ensures Rebuilt(m, SortedEnums(all)) == SortedMessage(m)
  {
    SelectSorted(all, OwnedBy(m.fullName));
  }

  lemma {:induction false} SortedEachAt(messages: seq<ProtoMessage>, i: nat)
    requires i < |messages|
    ensures SortedEach(messages)[i] == SortedMessage(messages[i])
  {
    if i > 0 { SortedEachAt(messages[1..], i - 1); }
  }

  lemma FileEnumOutside(file: ProtoFile, e: ProtoEnum, scope: string)
    requires WellNamedFile(file) && e in file.enums && HasPrefix(scope, PackagePrefix(file.packageName))
    ensures !OwnedBy(scope)(e)
  {
    assert |e.fullName| == |PackagePrefix(file.packageName)| + |e.name|;
  }

  lemma FileScopesAreExact(file: ProtoFile)
    requires WellNamedFile(file)
    ensures Exact(FileEnums(file), file.messages)
  {
    var prefix := PackagePrefix(file.packageName);
    forall scope: string | HasPrefix(scope, prefix)
      ensures OwnedEnums(FileEnums(file), scope) == OwnedEnums(ForestEnums(file.messages), scope)
    {
      FilterConcat(ForestEnums(file.messages), file.enums, OwnedBy(scope));
      forall e | e in file.enums
        ensures !OwnedBy(scope)(e)
      {
        FileEnumOutside(file, e, scope);
      }
      FilterNone(file.enums, OwnedBy(scope));
    }
    EveryScopeIsExact(FileEnums(file), file.messages, prefix);
  }

  // The enums that stay with the file

  lemma FileEnumUnowned(file: ProtoFile, e: ProtoEnum)
    requires WellNamedFile(file) && e in file.enums
    ensures Unowned(file.messages)(e)
  {
    var prefix := PackagePrefix(file.packageName);
    if i :| 0 <= i < |file.messages| && Owns(file.messages[i], e) {
      OwnerMatches(file.messages[i], e);
      ScopeEnumMatchesNone(file.messages, prefix, e, i);
    }
  }

  lemma UnownedEnums(file: ProtoFile)
    requires WellNamedFile(file)
    ensures Filter(FileEnums(file), Unowned(file.messages)) == file.enums
  {
    var unowned := Unowned(file.messages);
    FilterConcat(ForestEnums(file.messages), file.enums, unowned);
    forall e | e in ForestEnums(file.messages)
      ensures !unowned(e)
    {
      ForestEnumHasOwner(file.messages, PackagePrefix(file.packageName), e);
    }
    FilterNone(ForestEnums(file.messages), unowned);
    forall e | e in file.enums
      ensures unowned(e)
    {
      FileEnumUnowned(file, e);
    }
    FilterAll(file.enums, unowned);
  }

  // Attaching one enum after another

  /** An enum the file may hold: declared in one of its messages, or in the file itself. */
  predicate Placed(messages: seq<ProtoMessage>, prefix: string, e: ProtoEnum) {
    DotFree(e.name) && (HasOwner(messages, e) || EnumNamed(e, prefix))
  }

  lemma {:induction false} AttachInTurn(messages: seq<ProtoMessage>, prefix: string, enums: seq<ProtoEnum>)
    requires WellNamed(messages, prefix)
    requires forall e | e in enums :: Placed(messages, prefix, e)
    ensures AttachAll(RebuiltForest(messages, []), enums) ==
            (RebuiltForest(messages, enums), Filter(enums, Unowned(messages)))
    decreases |enums|
  {
    hide WellNamed; hide RebuiltForest; hide Attach; hide Placed; hide Unowned;
    if enums != [] {
      var init, last := enums[..|enums| - 1], enums[|enums| - 1];
      AttachInTurn(messages, prefix, init);
      assert last in enums && init + [last] == enums;
      AttachNext(messages, prefix, init, last);
      var tree := RebuiltForest(messages, []);
      var before := AttachAll(tree, init);
      var after := Attach(before.0, last);
      assert AttachAll(tree, enums) == (after.0, if after.1 then before.1 else before.1 + [last]);
      assert after.0 == RebuiltForest(messages, enums);
      assert Filter(enums, Unowned(messages)) == if after.1 then before.1 else before.1 + [last];
    }
  }

  lemma AttachNext(messages: seq<ProtoMessage>, prefix: string, enums: seq<ProtoEnum>, e: ProtoEnum)
    requires WellNamed(messages, prefix) && Placed(messages, prefix, e)
    ensures Attach(RebuiltForest(messages, enums), e) == (RebuiltForest(messages, enums + [e]), !Unowned(messages)(e))
    ensures Filter(enums + [e], Unowned(messages)) ==
            Filter(enums, Unowned(messages)) + if Unowned(messages)(e) then [e] else []
  {
    FilterConcat(enums, [e], Unowned(messages));
    assert Filter([e], Unowned(messages)) == if Unowned(messages)(e) then [e] else [];
    hide Filter;
    if HasOwner(messages, e) {
      AttachRebuilt(messages, prefix, enums, e);
    } else {
      AttachUnowned(messages, prefix, enums, e);
    }
  }

  lemma AttachUnowned(messages: seq<ProtoMessage>, prefix: string, enums: seq<ProtoEnum>, e: ProtoEnum)
    requires WellNamed(messages, prefix) && EnumNamed(e, prefix) && !HasOwner(messages, e)
    ensures Attach(RebuiltForest(messages, enums), e) == (RebuiltForest(messages, enums + [e]), false)
  {
    forall i | 0 <= i < |messages|
      ensures !Matches(e)(messages[i])
      ensures RebuiltEach(messages, enums + [e])[i] == RebuiltEach(messages, enums)[i]
    {
      ScopeEnumMatchesNone(messages, prefix, e, i);
      NotOwnedUnchanged(messages[i], enums, e);
      RebuiltEachAt(messages, enums + [e], i);
      RebuiltEachAt(messages, enums, i);
    }
    assert RebuiltEach(messages, enums + [e]) == RebuiltEach(messages, enums);
    RebuiltForestAttach(messages, prefix, enums, e);
  }

  lemma EnumPlaced(file: ProtoFile, e: ProtoEnum)
    requires WellNamedFile(file) && e in FileEnums(file)
    ensures Placed(file.messages, PackagePrefix(file.packageName), SortedEnum(e))
  {
    var prefix := PackagePrefix(file.packageName);
    if e !in file.enums {
      ForestEnumHasOwner(file.messages, prefix, e);
      UnownedSorted(file.messages, e);
    }
  }

  /** Every enum finds its message, at any depth, and the file keeps exactly its own. */
  lemma EnumsReturn(file: ProtoFile)
    requires WellNamedFile(file)
    ensures AttachAll(RebuiltForest(file.messages, []), SortedEnums(FileEnums(file))) ==
            (SortedMessages(file.messages), SortedEnums(file.enums))
  {
    var prefix := PackagePrefix(file.packageName);
    var all := FileEnums(file);
    hide FileEnums; hide SortedEnums; hide SortedMessages; hide RebuiltForest; hide AttachAll; hide Placed; hide WellNamed;
    hide Unowned;
    forall e | e in SortedEnums(all)
      ensures Placed(file.messages, prefix, e)
    {
      SortedEnumsMembers(all, e);
      var x :| x in all && e == SortedEnum(x);
      EnumPlaced(file, x);
    }
    AttachInTurn(file.messages, prefix, SortedEnums(all));
    FileScopesAreExact(file);
    ExactIsSorted(all, file.messages);
    forall e | e in all
      ensures Unowned(file.messages)(e) == Unowned(file.messages)(SortedEnum(e))
    {
      UnownedSorted(file.messages, e);
    }
    SelectSorted(all, Unowned(file.messages));
    UnownedEnums(file);
  }
}
