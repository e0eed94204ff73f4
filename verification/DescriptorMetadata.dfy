/** Descriptor metadata: files holding messages that nest to any depth, and its summary. */
module DescriptorMetadata {
  import opened Sequences

  datatype ProtoImport = ProtoImport(path: string, isPublic: bool, isWeak: bool)

  datatype ProtoMethod = ProtoMethod(
    name: string,
    inputType: string,
    outputType: string,
    clientStreaming: bool,
    serverStreaming: bool)

  datatype ProtoService = ProtoService(name: string, fullName: string, methods: seq<ProtoMethod>)

  datatype ProtoField = ProtoField(
    name: string,
    number: int,
    fieldType: string,
    typeName: string,
    fieldLabel: string,
    jsonName: string,
    oneofName: string,
    isRepeated: bool,
    isMap: bool)

  datatype ProtoEnumValue = ProtoEnumValue(name: string, number: int)

  datatype ProtoEnum = ProtoEnum(name: string, fullName: string, values: seq<ProtoEnumValue>)

  datatype ProtoMessage = ProtoMessage(
    name: string,
    fullName: string,
    fields: seq<ProtoField>,
    messages: seq<ProtoMessage>,
    enums: seq<ProtoEnum>)

  datatype ProtoFile = ProtoFile(
    path: string,
    packageName: string,
    syntax: string,
    imports: seq<ProtoImport>,
    services: seq<ProtoService>,
    messages: seq<ProtoMessage>,
    enums: seq<ProtoEnum>)

  type Metadata = seq<ProtoFile>

  datatype Summary = Summary(
    fileCount: nat,
    packageCount: nat,
    importCount: nat,
    serviceCount: nat,
    methodCount: nat,
    messageCount: nat,
    fieldCount: nat,
    enumCount: nat,
    enumValueCount: nat)

  /** The message is one of these, or nested in one of them at any depth. */
  predicate Within(m: ProtoMessage, messages: seq<ProtoMessage>)
    decreases messages
  {
    exists i | 0 <= i < |messages| :: m == messages[i] || Within(m, messages[i].messages)
  }

  lemma WithinSnoc(m: ProtoMessage, init: seq<ProtoMessage>, last: ProtoMessage)
    ensures Within(m, init + [last]) <==> Within(m, init) || m == last || Within(m, last.messages)
  {
    var all := init + [last];
    assert all[|init|] == last;
    if Within(m, all) {
      var i :| 0 <= i < |all| && (m == all[i] || Within(m, all[i].messages));
      if i < |init| { assert all[i] == init[i]; }
    }
    if Within(m, init) {
      var i :| 0 <= i < |init| && (m == init[i] || Within(m, init[i].messages));
      assert all[i] == init[i];
    }
  }

  // What is counted, as folds over the message forest

  function MessageTotal(messages: seq<ProtoMessage>): nat {
    if messages == [] then 0
    else
      var last := messages[|messages| - 1];
      MessageTotal(messages[..|messages| - 1]) + 1 + MessageTotal(last.messages)
  }

  function FieldTotal(messages: seq<ProtoMessage>): nat {
    if messages == [] then 0
    else
      var last := messages[|messages| - 1];
      FieldTotal(messages[..|messages| - 1]) + |last.fields| + FieldTotal(last.messages)
  }

  /** The enums of a forest, those of nested messages before the message's own. */
  function ForestEnums(messages: seq<ProtoMessage>): seq<ProtoEnum> {
    if messages == [] then []
    else
      var last := messages[|messages| - 1];
      ForestEnums(messages[..|messages| - 1]) + ForestEnums(last.messages) + last.enums
  }

  function FileEnums(file: ProtoFile): seq<ProtoEnum> {
    ForestEnums(file.messages) + file.enums
  }

  function ValueCount(e: ProtoEnum): int { |e.values| }

  function MethodCount(s: ProtoService): int { |s.methods| }

  /** What one file adds to each counter. */
  function FileSummary(file: ProtoFile): Summary {
    ValueTotalNat(FileEnums(file));
    MethodTotalNat(file.services);
    Summary(1, 0, |file.imports|, |file.services|, Sum(file.services, MethodCount),
            MessageTotal(file.messages), FieldTotal(file.messages),
            |FileEnums(file)|, Sum(FileEnums(file), ValueCount))
  }

  function Plus(a: Summary, b: Summary): Summary {
    Summary(a.fileCount + b.fileCount, a.packageCount + b.packageCount, a.importCount + b.importCount,
            a.serviceCount + b.serviceCount, a.methodCount + b.methodCount, a.messageCount + b.messageCount,
            a.fieldCount + b.fieldCount, a.enumCount + b.enumCount, a.enumValueCount + b.enumValueCount)
  }

  const ZERO := Summary(0, 0, 0, 0, 0, 0, 0, 0, 0)

  function Packages(files: Metadata): set<string> {
    set file | file in files && file.packageName != "" :: file.packageName
  }

  function Counts(files: Metadata): Summary {
    if files == [] then ZERO
    else Plus(Counts(files[..|files| - 1]), FileSummary(files[|files| - 1]))
  }

  /** What Summary computes. */
  function SummaryOf(files: Metadata): Summary {
    Counts(files).(packageCount := |Packages(files)|)
  }

  lemma ValueTotalNat(enums: seq<ProtoEnum>)
    ensures Sum(enums, ValueCount) >= 0
  {}

  lemma MethodTotalNat(services: seq<ProtoService>)
    ensures Sum(services, MethodCount) >= 0
  {}

  lemma ForestSnoc(messages: seq<ProtoMessage>, m: ProtoMessage)
    ensures MessageTotal(messages + [m]) == MessageTotal(messages) + 1 + MessageTotal(m.messages)
    ensures FieldTotal(messages + [m]) == FieldTotal(messages) + |m.fields| + FieldTotal(m.messages)
    ensures ForestEnums(messages + [m]) == ForestEnums(messages) + ForestEnums(m.messages) + m.enums
  {
    assert (messages + [m])[..|messages|] == messages;
  }

  /** The counters a Summary call fills. */
  class SummaryCounter {
    var summary: Summary

    constructor ()
      ensures summary == ZERO
    {
      summary := ZERO;
    }

    method AddEnumSummary(e: ProtoEnum)
      modifies this
      ensures summary == Plus(old(summary), ZERO.(enumCount := 1, enumValueCount := |e.values|))
    {
      summary := summary.(enumCount := summary.enumCount + 1,
                          enumValueCount := summary.enumValueCount + |e.values|);
    }

    method CountEnums(enums: seq<ProtoEnum>)
      modifies this
      ensures Sum(enums, ValueCount) >= 0
      ensures summary ==
              Plus(old(summary), ZERO.(enumCount := |enums|, enumValueCount := Sum(enums, ValueCount)))
    {
      ValueTotalNat(enums);
      for i := 0 to |enums|
        invariant Sum(enums[..i], ValueCount) >= 0
        invariant summary ==
                  Plus(old(summary), ZERO.(enumCount := i, enumValueCount := Sum(enums[..i], ValueCount)))
      {
        AddEnumSummary(enums[i]);
        assert enums[..i + 1] == enums[..i] + [enums[i]];
        SumConcat(enums[..i], [enums[i]], ValueCount);
      }
      assert enums[..|enums|] == enums;
    }

    /** Adds a message with everything nested in it. */
    method AddMessageSummary(m: ProtoMessage)
      modifies this
      ensures summary == Plus(old(summary), ForestSummary([m]))
      decreases m
    {
      summary := summary.(messageCount := summary.messageCount + 1,
                          fieldCount := summary.fieldCount + |m.fields|);
      label counted:
      for i := 0 to |m.messages|
        invariant summary == Plus(old@counted(summary), ForestSummary(m.messages[..i]))
      {
        AddMessageSummary(m.messages[i]);
        assert m.messages[..i + 1] == m.messages[..i] + [m.messages[i]];
        ForestSummaryConcat(m.messages[..i], m.messages[i]);
      }
      assert m.messages[..|m.messages|] == m.messages;
      CountEnums(m.enums);
      ForestSummarySingle(m);
    }
  }

  function ForestSummary(messages: seq<ProtoMessage>): Summary {
    ValueTotalNat(ForestEnums(messages));
    ZERO.(messageCount := MessageTotal(messages), fieldCount := FieldTotal(messages),
          enumCount := |ForestEnums(messages)|, enumValueCount := Sum(ForestEnums(messages), ValueCount))
  }

  lemma ForestSummarySingle(m: ProtoMessage)
    ensures Sum(m.enums, ValueCount) >= 0
    ensures ForestSummary([m]) ==
            Plus(ForestSummary(m.messages),
                 ZERO.(messageCount := 1, fieldCount := |m.fields|, enumCount := |m.enums|,
                       enumValueCount := Sum(m.enums, ValueCount)))
  {
    ValueTotalNat(m.enums);
    ForestSnoc([], m);
    assert [] + [m] == [m];
    assert ForestEnums([m]) == ForestEnums(m.messages) + m.enums;
    SumConcat(ForestEnums(m.messages), m.enums, ValueCount);
  }

  lemma ForestSummaryConcat(messages: seq<ProtoMessage>, m: ProtoMessage)
    ensures ForestSummary(messages + [m]) == Plus(ForestSummary(messages), ForestSummary([m]))
  {
    ForestSnoc(messages, m);
    ForestSummarySingle(m);
    SumConcat(ForestEnums(messages) + ForestEnums(m.messages), m.enums, ValueCount);
    SumConcat(ForestEnums(messages), ForestEnums(m.messages), ValueCount);
  }

  method CountMessages(counter: SummaryCounter, messages: seq<ProtoMessage>)
    modifies counter
    ensures counter.summary == Plus(old(counter.summary), ForestSummary(messages))
  {
    for i := 0 to |messages|
      invariant counter.summary == Plus(old(counter.summary), ForestSummary(messages[..i]))
    {
      counter.AddMessageSummary(messages[i]);
      assert messages[..i + 1] == messages[..i] + [messages[i]];
      ForestSummaryConcat(messages[..i], messages[i]);
    }
    assert messages[..|messages|] == messages;
  }

  method CountFile(counter: SummaryCounter, file: ProtoFile)
    modifies counter
    ensures counter.summary == Plus(old(counter.summary), FileSummary(file))
  {
    counter.summary := counter.summary.(fileCount := counter.summary.fileCount + 1,
                                        importCount := counter.summary.importCount + |file.imports|);
    CountServices(counter, file.services);
    CountMessages(counter, file.messages);
    counter.CountEnums(file.enums);
    SumConcat(ForestEnums(file.messages), file.enums, ValueCount);
  }

  lemma CountsNone()
    ensures Counts([]) == ZERO && Packages([]) == {}
  {}

  lemma CountsSnoc(files: Metadata, file: ProtoFile)
    ensures Counts(files + [file]) == Plus(Counts(files), FileSummary(file))
    ensures Packages(files + [file]) == Packages(files) + if file.packageName != "" then {file.packageName} else {}
  {
    assert (files + [file])[..|files|] == files;
  }

  /** Counts everything in the metadata, nested messages and enums included; the packages
      are counted without repetition and without the empty one. */
  method Summarize(files: Metadata) returns (summary: Summary)
    ensures summary == SummaryOf(files)
  {
    hide Counts; hide FileSummary; hide Packages;
    var counter := new SummaryCounter();
    CountsNone();
    var packages: set<string> := {};
    for i := 0 to |files|
      invariant counter.summary == Counts(files[..i])
      invariant packages == Packages(files[..i])
    {
      if files[i].packageName != "" {
        packages := packages + {files[i].packageName};
      }
      CountFile(counter, files[i]);
      assert files[..i + 1] == files[..i] + [files[i]];
      CountsSnoc(files[..i], files[i]);
    }
    assert files[..|files|] == files;
    summary := counter.summary.(packageCount := |packages|);
  }

  method CountServices(counter: SummaryCounter, services: seq<ProtoService>)
    modifies counter
    ensures Sum(services, MethodCount) >= 0
    ensures counter.summary ==
            Plus(old(counter.summary), ZERO.(serviceCount := |services|, methodCount := Sum(services, MethodCount)))
  {
    MethodTotalNat(services);
    for i := 0 to |services|
      invariant Sum(services[..i], MethodCount) >= 0
      invariant counter.summary ==
                Plus(old(counter.summary), ZERO.(serviceCount := i, methodCount := Sum(services[..i], MethodCount)))
    {
      counter.summary := counter.summary.(serviceCount := counter.summary.serviceCount + 1,
                                          methodCount := counter.summary.methodCount + |services[i].methods|);
      assert services[..i + 1] == services[..i] + [services[i]];
      SumConcat(services[..i], [services[i]], MethodCount);
    }
    assert services[..|services|] == services;
  }
}
