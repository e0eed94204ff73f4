/** Metadata that is the same up to the order of each level. */
module DescriptorContents {
  import opened Text
  import opened Sequences
  import opened DescriptorMetadata
  import opened DescriptorLoad
  import opened DescriptorNames
  import opened DescriptorSorted

  predicate SameEnum(a: ProtoEnum, b: ProtoEnum) {
    a.name == b.name && a.fullName == b.fullName && multiset(a.values) == multiset(b.values)
  }

  /** b is a rearrangement of enums that are pairwise the same as those of a. */
  ghost predicate SameEnums(a: seq<ProtoEnum>, b: seq<ProtoEnum>) {
    exists images: seq<ProtoEnum> ::
      |images| == |a| && multiset(images) == multiset(b) && forall i | 0 <= i < |a| :: SameEnum(a[i], images[i])
  }

  predicate SameService(a: ProtoService, b: ProtoService) {
    a.name == b.name && a.fullName == b.fullName && multiset(a.methods) == multiset(b.methods)
  }

  ghost predicate SameServices(a: seq<ProtoService>, b: seq<ProtoService>) {
    exists images: seq<ProtoService> ::
      |images| == |a| && multiset(images) == multiset(b) && forall i | 0 <= i < |a| :: SameService(a[i], images[i])
  }

  ghost predicate SameMessage(a: ProtoMessage, b: ProtoMessage)
    decreases a, 1
  {
    && a.name == b.name && a.fullName == b.fullName
    && multiset(a.fields) == multiset(b.fields)
    && SameMessages(a.messages, b.messages)
    && SameEnums(a.enums, b.enums)
  }

  ghost predicate SameMessages(a: seq<ProtoMessage>, b: seq<ProtoMessage>)
    decreases a, 0
  {
    exists images: seq<ProtoMessage> ::
      |images| == |a| && multiset(images) == multiset(b) && forall i | 0 <= i < |a| :: SameMessage(a[i], images[i])
  }

  ghost predicate SameFile(a: ProtoFile, b: ProtoFile) {
    && a.path == b.path && a.packageName == b.packageName && a.syntax == b.syntax
    && multiset(a.imports) == multiset(b.imports)
    && SameServices(a.services, b.services)
    && SameMessages(a.messages, b.messages)
    && SameEnums(a.enums, b.enums)
  }

  ghost predicate SameFiles(a: Metadata, b: Metadata) {
    exists images: Metadata ::
      |images| == |a| && multiset(images) == multiset(b) && forall i | 0 <= i < |a| :: SameFile(a[i], images[i])
  }

  // Sorting every level gives the same metadata

  lemma {:induction false} SortContents<T>(s: seq<T>, le: (T, T) -> bool)
    ensures multiset(Sort(s, le)) == multiset(s)
  {
    if s != [] {
      SortContents(s[1..], le);
      InsertContents(s[0], Sort(s[1..], le), le);
      assert s == [s[0]] + s[1..];
    }
  }

  lemma SortedEnumsSame(enums: seq<ProtoEnum>)
    ensures SameEnums(enums, SortedEnums(enums))
  {
    hide Sort;
    var images := Map(enums, SortedEnum);
    SortContents(images, EnumLe);
    forall i | 0 <= i < |enums|
      ensures SameEnum(enums[i], images[i])
    {
      SortContents(enums[i].values, ValueLe);
    }
  }

  lemma SortedServicesSame(services: seq<ProtoService>)
    ensures SameServices(services, SortedServices(services))
  {
    hide Sort;
    var images := Map(services, SortedService);
    SortContents(images, ServiceLe);
    forall i | 0 <= i < |services|
      ensures SameService(services[i], images[i])
    {
      SortContents(services[i].methods, MethodLe);
    }
  }

  lemma {:induction false} SortedEachAt(messages: seq<ProtoMessage>, i: nat)
    requires i < |messages|
    ensures SortedEach(messages)[i] == SortedMessage(messages[i])
  {
    hide SortedMessage;
    if i > 0 { SortedEachAt(messages[1..], i - 1); }
  }

  lemma {:induction false} SortedMessagesSame(messages: seq<ProtoMessage>)
    ensures SameMessages(messages, SortedMessages(messages))
    decreases messages
  {
    hide Sort; hide SameEnums; hide SortedEnums; hide SortedEach;
    var images := SortedEach(messages);
    SortContents(images, MessageLe);
    forall i | 0 <= i < |messages|
      ensures SameMessage(messages[i], images[i])
    {
      SortedEachAt(messages, i);
      SortContents(messages[i].fields, FieldLe);
      SortedMessagesSame(messages[i].messages);
      SortedEnumsSame(messages[i].enums);
    }
  }

  lemma SortedFileSame(file: ProtoFile)
    ensures SameFile(file, SortedFile(file))
  {
    hide Sort; hide SameEnums; hide SameMessages; hide SameServices; hide SortedEnums; hide SortedMessages; hide SortedServices;
    SortContents(file.imports, ImportLe);
    SortedServicesSame(file.services);
    SortedMessagesSame(file.messages);
    SortedEnumsSame(file.enums);
  }

  /** What a load promises is the saved metadata, every level in some order. */
  lemma SortedSame(files: Metadata)
    ensures SameFiles(files, Sorted(files))
  {
    hide Sort; hide SameFile; hide SortedFile;
    var images := Map(files, SortedFile);
    SortContents(images, ProtoFileLe);
    forall i | 0 <= i < |files|
      ensures SameFile(files[i], images[i])
    {
      SortedFileSame(files[i]);
    }
  }
}
