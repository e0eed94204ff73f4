/** The summary's counters in terms of lists of what the metadata holds, and what these lists
    hold; and what the unique constraints ask of them. */
module DescriptorCounts {
  import opened Sequences
  import opened DescriptorMetadata
  import opened DescriptorRows
  import opened DescriptorTables
  import opened DescriptorKeys

  // The lists

  /** The list of a forest's messages holds those at any depth. */
  lemma {:induction false} ForestMessagesAre(messages: seq<ProtoMessage>, m: ProtoMessage)
    ensures m in ForestMessages(messages) <==> Within(m, messages)
    decreases messages
  {
    if messages != [] {
      var init, last := messages[..|messages| - 1], messages[|messages| - 1];
      ForestMessagesAre(init, m);
      ForestMessagesAre(last.messages, m);
      assert messages == init + [last];
      WithinSnoc(m, init, last);
      hide Within;
    }
  }

  /** The list of a forest's enums holds those of messages at any depth. */
  lemma {:induction false} ForestEnumsAre(messages: seq<ProtoMessage>, e: ProtoEnum)
    ensures e in ForestEnums(messages) <==> exists m :: Within(m, messages) && e in m.enums
    decreases messages
  {
    if messages != [] {
      var init, last := messages[..|messages| - 1], messages[|messages| - 1];
      ForestEnumsAre(init, e);
      ForestEnumsAre(last.messages, e);
      assert messages == init + [last];
      ForestSnoc(init, last);
      hide Within; hide ForestEnums;
      forall m: ProtoMessage
        ensures Within(m, messages) <==> Within(m, init) || m == last || Within(m, last.messages)
      {
        WithinSnoc(m, init, last);
      }
    }
  }

  function ImportsIn(f: ProtoFile): seq<ProtoImport> { f.imports }

  lemma {:induction false} FlatLength<T, U>(s: seq<T>, f: T -> seq<U>, size: T -> int)
    requires forall x | x in s :: size(x) == |f(x)|
    ensures |FlatMap(s, f)| == Sum(s, size)
  {
    if s != [] {
      var init, last := s[..|s| - 1], s[|s| - 1];
      FlatLength(init, f, size);
      assert s == init + [last] && last in s;
      SumConcat(init, [last], size);
      assert Sum([last], size) == size(last);
    }
  }

  function FieldCount(m: ProtoMessage): int { |m.fields| }

  lemma {:induction false} ForestCounts(messages: seq<ProtoMessage>)
    ensures MessageTotal(messages) == |ForestMessages(messages)|
    ensures FieldTotal(messages) == Sum(ForestMessages(messages), FieldCount)
    decreases messages
  {
    if messages != [] {
      var init, last := messages[..|messages| - 1], messages[|messages| - 1];
      ForestCounts(init);
      ForestCounts(last.messages);
      SumConcat(ForestMessages(init) + [last], ForestMessages(last.messages), FieldCount);
      SumConcat(ForestMessages(init), [last], FieldCount);
      assert Sum([last], FieldCount) == |last.fields|;
    }
  }

  lemma {:induction false} CountsMean(files: Metadata)
    ensures var c := Counts(files);
            && c.fileCount == |files|
            && c.importCount == |FlatMap(files, ImportsIn)|
            && c.serviceCount == |FlatMap(files, ServicesIn)|
            && c.methodCount == Sum(FlatMap(files, ServicesIn), MethodCount)
            && c.messageCount == |FlatMap(files, MessagesIn)|
            && c.fieldCount == Sum(FlatMap(files, MessagesIn), FieldCount)
            && c.enumCount == |FlatMap(files, FileEnums)|
            && c.enumValueCount == Sum(FlatMap(files, FileEnums), ValueCount)
  {
    if files != [] {
      var init, last := files[..|files| - 1], files[|files| - 1];
      CountsMean(init);
      ForestCounts(last.messages);
      hide MessageTotal; hide FieldTotal; hide FileEnums; hide ForestMessages; hide Sum;
      SumConcat(FlatMap(init, ServicesIn), last.services, MethodCount);
      SumConcat(FlatMap(init, MessagesIn), MessagesIn(last), FieldCount);
      SumConcat(FlatMap(init, FileEnums), FileEnums(last), ValueCount);
    }
  }

  /** Every counter is the length of a list: the files, the imports and services of the files,
      the methods of these services, the messages at any depth and their fields, the enums
      of files and messages and their values; packages are counted as a set. */
  lemma SummaryMeans(files: Metadata)
    ensures var s := SummaryOf(files);
            && s.fileCount == |files|
            && s.packageCount == |set file | file in files && file.packageName != "" :: file.packageName|
            && s.importCount == |FlatMap(files, ImportsIn)|
            && s.serviceCount == |FlatMap(files, ServicesIn)|
            && s.methodCount == |FlatMap(FlatMap(files, ServicesIn), MethodsOf)|
            && s.messageCount == |FlatMap(files, MessagesIn)|
            && s.fieldCount == |FlatMap(FlatMap(files, MessagesIn), FieldsOf)|
            && s.enumCount == |FlatMap(files, FileEnums)|
            && s.enumValueCount == |FlatMap(FlatMap(files, FileEnums), ValuesOf)|
  {
    CountsMean(files);
    FlatLength(FlatMap(files, ServicesIn), MethodsOf, MethodCount);
    FlatLength(FlatMap(files, MessagesIn), FieldsOf, FieldCount);
    FlatLength(FlatMap(files, FileEnums), ValuesOf, ValueCount);
    hide Counts; hide FlatMap; hide Sum;
  }

  /** What is in the lists. */
  lemma ListsMean(files: Metadata, s: ProtoService, m: ProtoMessage, e: ProtoEnum)
    ensures s in FlatMap(files, ServicesIn) <==> exists file :: file in files && s in file.services
    ensures m in FlatMap(files, MessagesIn) <==> exists file :: file in files && Within(m, file.messages)
    ensures e in FlatMap(files, FileEnums) <==>
            exists file :: file in files && (e in file.enums || exists n :: Within(n, file.messages) && e in n.enums)
  {
    FlatMapMembers(files, ServicesIn, s);
    FlatMapMembers(files, MessagesIn, m);
    FlatMapMembers(files, FileEnums, e);
    hide FlatMap; hide ForestMessages; hide ForestEnums; hide Within;
    forall file: ProtoFile
      ensures m in MessagesIn(file) <==> Within(m, file.messages)
      ensures e in FileEnums(file) <==> e in file.enums || exists n :: Within(n, file.messages) && e in n.enums
    {
      ForestMessagesAre(file.messages, m);
      ForestEnumsAre(file.messages, e);
    }
  }

  // The unique constraints

  /** Metadata that the database takes: no path twice; no two different services, messages or
      enums of one full name; no method name twice in a service, no number twice among the
      fields of a message at any depth or among the values of an enum. */
  lemma StorableMeans(files: Metadata)
    requires Storable(files)
    ensures forall i, j | 0 <= i < j < |files| :: files[i].path != files[j].path
    ensures forall s, s' | s in FlatMap(files, ServicesIn) && s' in FlatMap(files, ServicesIn) && s.fullName == s'.fullName :: s == s'
    ensures forall m, m' | m in FlatMap(files, MessagesIn) && m' in FlatMap(files, MessagesIn) && m.fullName == m'.fullName :: m == m'
    ensures forall e, e' | e in FlatMap(files, FileEnums) && e' in FlatMap(files, FileEnums) && e.fullName == e'.fullName :: e == e'
    ensures forall s | s in FlatMap(files, ServicesIn) ::
              forall i, j | 0 <= i < j < |s.methods| :: s.methods[i].name != s.methods[j].name
    ensures forall m | m in FlatMap(files, MessagesIn) ::
              forall i, j | 0 <= i < j < |m.fields| :: m.fields[i].number != m.fields[j].number
    ensures forall e | e in FlatMap(files, FileEnums) ::
              forall i, j | 0 <= i < j < |e.values| :: e.values[i].number != e.values[j].number
  {
    hide FlatMap; hide FileEnums; hide MessagesIn;
    SameNameSame(FlatMap(files, ServicesIn), ServiceName);
    SameNameSame(FlatMap(files, MessagesIn), MessageName);
    SameNameSame(FlatMap(files, FileEnums), EnumName);
    forall i, j | 0 <= i < j < |files|
      ensures files[i].path != files[j].path
    {
      assert PathOf(files[i]) != PathOf(files[j]);
    }
    forall s | s in FlatMap(files, ServicesIn)
      ensures forall i, j | 0 <= i < j < |s.methods| :: s.methods[i].name != s.methods[j].name
    {
      assert Distinct(s.methods, MethodName);
      assert forall i, j | 0 <= i < j < |s.methods| :: MethodName(s.methods[i]) != MethodName(s.methods[j]);
    }
    forall m | m in FlatMap(files, MessagesIn)
      ensures forall i, j | 0 <= i < j < |m.fields| :: m.fields[i].number != m.fields[j].number
    {
      assert Distinct(m.fields, FieldNumber);
      assert forall i, j | 0 <= i < j < |m.fields| :: FieldNumber(m.fields[i]) != FieldNumber(m.fields[j]);
    }
    forall e | e in FlatMap(files, FileEnums)
      ensures forall i, j | 0 <= i < j < |e.values| :: e.values[i].number != e.values[j].number
    {
      assert Distinct(e.values, ValueNumber);
      assert forall i, j | 0 <= i < j < |e.values| :: ValueNumber(e.values[i]) != ValueNumber(e.values[j]);
    }
  }

  lemma SameNameSame<T>(s: seq<T>, name: T -> string)
    requires Distinct(s, name)
    ensures forall x, y | x in s && y in s && name(x) == name(y) :: x == y
  {
    forall x, y | x in s && y in s && name(x) == name(y)
      ensures x == y
    {
      var i :| 0 <= i < |s| && s[i] == x;
      var j :| 0 <= j < |s| && s[j] == y;
      assert i == j;
    }
  }
}
