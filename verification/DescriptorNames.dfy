/** Names as extraction builds them, and the enum attachment they make correct. */
module DescriptorNames {
  import opened Wrappers
  import opened Text
  import opened Sequences
  import opened DescriptorMetadata
  import opened DescriptorRows
  import opened DescriptorLoad

  predicate MessageLe(a: ProtoMessage, b: ProtoMessage) { LessOrEqual(a.fullName, b.fullName) }

  lemma MessageOrder()
    ensures TotalPreorder(MessageLe)
  {
    forall a, b, c: ProtoMessage
      ensures MessageLe(a, b) || MessageLe(b, a)
      ensures MessageLe(a, b) && MessageLe(b, c) ==> MessageLe(a, c)
    {
      LessOrEqualTotal(a.fullName, b.fullName);
      if MessageLe(a, b) && MessageLe(b, c) { LessOrEqualTransitive(a.fullName, b.fullName, c.fullName); }
    }
  }

  /** Messages of one scope: full names are the scope's prefix and a dot-free name, names
      differ, and the same holds inside every message. */
  predicate WellNamed(messages: seq<ProtoMessage>, prefix: string) {
    && (forall i | 0 <= i < |messages| ::
          && messages[i].fullName == prefix + messages[i].name
          && DotFree(messages[i].name)
          && (forall e | e in messages[i].enums :: EnumNamed(e, messages[i].fullName + "."))
          && WellNamed(messages[i].messages, messages[i].fullName + "."))
    && (forall i, j | 0 <= i < j < |messages| :: messages[i].name != messages[j].name)
  }

  predicate EnumNamed(e: ProtoEnum, prefix: string) {
    e.fullName == prefix + e.name && DotFree(e.name)
  }

  /** The enum is declared directly in the scope with this full name. */
  function OwnedBy(scope: string): ProtoEnum -> bool {
    (e: ProtoEnum) => e.fullName == scope + "." + e.name
  }

  predicate Owns(m: ProtoMessage, e: ProtoEnum) {
    OwnedBy(m.fullName)(e) || HasOwner(m.messages, e)
  }

  predicate HasOwner(messages: seq<ProtoMessage>, e: ProtoEnum) {
    exists i | 0 <= i < |messages| :: Owns(messages[i], e)
  }

  /** The test the attachment makes at one message. */
  function Matches(e: ProtoEnum): ProtoMessage -> bool {
    (m: ProtoMessage) => HasPrefix(e.fullName, m.fullName + ".")
  }

  lemma {:induction false} OwnerMatches(m: ProtoMessage, e: ProtoEnum)
    requires WellNamed(m.messages, m.fullName + ".") && Owns(m, e)
    ensures Matches(e)(m)
  {
    if !OwnedBy(m.fullName)(e) {
      var i :| 0 <= i < |m.messages| && Owns(m.messages[i], e);
      OwnerMatches(m.messages[i], e);
      PrefixTransitive(e.fullName, m.messages[i].fullName + ".", m.fullName + ".");
    }
  }

  /** At most one message of a scope matches an enum. */
  lemma MatchIsUnique(messages: seq<ProtoMessage>, prefix: string, e: ProtoEnum, i: nat, j: nat)
    requires WellNamed(messages, prefix) && i < |messages| && j < |messages|
    requires Matches(e)(messages[i]) && Matches(e)(messages[j])
    ensures i == j
  {
    var a, b := messages[i].name, messages[j].name;
    assert messages[i].fullName + "." == prefix + (a + ".");
    assert messages[j].fullName + "." == prefix + (b + ".");
    var tail := e.fullName[|prefix|..];
    assert HasPrefix(e.fullName, prefix);
    assert e.fullName == prefix + tail;
    PrefixOfConcat(prefix, tail, a + ".");
    PrefixOfConcat(prefix, tail, b + ".");
    DottedHeadIsUnique(a, b, tail);
  }

  /** An enum of the enclosing scope matches none of its messages. */
  lemma ScopeEnumMatchesNone(messages: seq<ProtoMessage>, prefix: string, e: ProtoEnum, i: nat)
    requires WellNamed(messages, prefix) && EnumNamed(e, prefix) && i < |messages|
    ensures !Matches(e)(messages[i])
  {
    assert messages[i].fullName + "." == prefix + (messages[i].name + ".");
    PrefixOfConcat(prefix, e.name, messages[i].name + ".");
    DotFreeHasNoHead(messages[i].name, e.name);
  }

  lemma {:induction false} MatchCount(messages: seq<ProtoMessage>, prefix: string, e: ProtoEnum)
    requires WellNamed(messages, prefix)
    ensures |Filter(messages, Matches(e))| <= 1
    ensures |Filter(messages, Matches(e))| == 1 <==> exists i | 0 <= i < |messages| :: Matches(e)(messages[i])
  {
    if messages != [] {
      assert WellNamed(messages[1..], prefix) by { assert forall i | 0 <= i < |messages| - 1 :: messages[1..][i] == messages[i + 1]; }
      MatchCount(messages[1..], prefix, e);
      if Matches(e)(messages[0]) {
        forall m | m in messages[1..]
          ensures !Matches(e)(m)
        {
          var i :| 0 <= i < |messages[1..]| && messages[1..][i] == m;
          if Matches(e)(messages[i + 1]) { MatchIsUnique(messages, prefix, e, 0, i + 1); }
        }
        FilterNone(messages[1..], Matches(e));
      } else {
        assert (exists i | 0 <= i < |messages[1..]| :: Matches(e)(messages[1..][i])) <==>
               (exists i | 0 <= i < |messages| :: Matches(e)(messages[i])) by {
          if i :| 0 <= i < |messages| && Matches(e)(messages[i]) {
            assert messages[1..][i - 1] == messages[i];
          }
        }
      }
    }
  }

  // Attachment as a map

  /** What the attachment does to a message that matches. */
  function AttachTo(e: ProtoEnum): ProtoMessage -> ProtoMessage {
    (m: ProtoMessage) =>
      if !Matches(e)(m) then m
      else
        var inner := Attach(m.messages, e);
        if inner.1 then m.(messages := inner.0) else m.(enums := m.enums + [e])
  }

  lemma {:induction false} AttachIsMap(messages: seq<ProtoMessage>, e: ProtoEnum)
    requires |Filter(messages, Matches(e))| <= 1
    ensures Attach(messages, e).0 == Map(messages, AttachTo(e))
    ensures Attach(messages, e).1 <==> |Filter(messages, Matches(e))| == 1
  {
    if messages != [] {
      if Matches(e)(messages[0]) {
        FilterMembers(messages[1..], Matches(e));
        AttachToOthers(messages[1..], e);
        assert messages == [messages[0]] + messages[1..];
      } else {
        AttachIsMap(messages[1..], e);
      }
    }
  }

  lemma {:induction false} AttachToOthers(messages: seq<ProtoMessage>, e: ProtoEnum)
    requires |Filter(messages, Matches(e))| == 0
    ensures Map(messages, AttachTo(e)) == messages
  {
    if messages != [] { AttachToOthers(messages[1..], e); }
  }

  // The forest the load rebuilds, given the enums attached so far

  function OwnedEnums(enums: seq<ProtoEnum>, scope: string): seq<ProtoEnum> {
    Filter(enums, OwnedBy(scope))
  }

  function Rebuilt(m: ProtoMessage, enums: seq<ProtoEnum>): ProtoMessage
    decreases m, 2
  {
    ProtoMessage(m.name, m.fullName, Sort(m.fields, FieldLe), RebuiltForest(m.messages, enums),
                 OwnedEnums(enums, m.fullName))
  }

  function RebuiltForest(messages: seq<ProtoMessage>, enums: seq<ProtoEnum>): seq<ProtoMessage>
    decreases messages, 1
  {
    Sort(RebuiltEach(messages, enums), MessageLe)
  }

  function RebuiltEach(messages: seq<ProtoMessage>, enums: seq<ProtoEnum>): (r: seq<ProtoMessage>)
    ensures |r| == |messages|
    decreases messages, 0
  {
    if messages == [] then [] else [Rebuilt(messages[0], enums)] + RebuiltEach(messages[1..], enums)
  }

  lemma {:induction false} RebuiltEachAt(messages: seq<ProtoMessage>, enums: seq<ProtoEnum>, i: nat)
    requires i < |messages|
    ensures RebuiltEach(messages, enums)[i] == Rebuilt(messages[i], enums)
  {
    if i > 0 { RebuiltEachAt(messages[1..], enums, i - 1); }
  }

  /** Rebuilding changes neither names nor, therefore, what matches. */
  lemma {:induction false} RebuiltMatches(messages: seq<ProtoMessage>, enums: seq<ProtoEnum>, e: ProtoEnum)
    ensures |Filter(RebuiltEach(messages, enums), Matches(e))| == |Filter(messages, Matches(e))|
  {
    if messages != [] {
      RebuiltMatches(messages[1..], enums, e);
      FilterCons(Rebuilt(messages[0], enums), RebuiltEach(messages[1..], enums), Matches(e));
    }
  }

  lemma OwnedEnumsSnoc(enums: seq<ProtoEnum>, e: ProtoEnum, scope: string)
    ensures OwnedEnums(enums + [e], scope) == OwnedEnums(enums, scope) + if OwnedBy(scope)(e) then [e] else []
  {
    FilterConcat(enums, [e], OwnedBy(scope));
    assert Filter([e], OwnedBy(scope)) == if OwnedBy(scope)(e) then [e] else [];
  }

  lemma {:induction false} NotOwnedUnchanged(m: ProtoMessage, enums: seq<ProtoEnum>, e: ProtoEnum)
    requires !Owns(m, e)
    ensures Rebuilt(m, enums + [e]) == Rebuilt(m, enums)
    decreases m
  {
    OwnedEnumsSnoc(enums, e, m.fullName);
    forall i | 0 <= i < |m.messages|
      ensures RebuiltEach(m.messages, enums + [e])[i] == RebuiltEach(m.messages, enums)[i]
    {
      NotOwnedUnchanged(m.messages[i], enums, e);
      RebuiltEachAt(m.messages, enums + [e], i);
      RebuiltEachAt(m.messages, enums, i);
    }
    assert RebuiltEach(m.messages, enums + [e]) == RebuiltEach(m.messages, enums);
  }

  /** Attaching an enum that has an owner puts it into that owner, at any depth. */
  lemma {:induction false} AttachRebuilt(messages: seq<ProtoMessage>, prefix: string, enums: seq<ProtoEnum>, e: ProtoEnum)
    requires WellNamed(messages, prefix) && DotFree(e.name)
    requires HasOwner(messages, e)
    ensures Attach(RebuiltForest(messages, enums), e) == (RebuiltForest(messages, enums + [e]), true)
    decreases messages
  {
    var each := RebuiltEach(messages, enums);
    RebuiltForestAttach(messages, prefix, enums, e);
    var k :| 0 <= k < |messages| && Owns(messages[k], e);
    OwnerMatches(messages[k], e);
    forall i | 0 <= i < |messages|
      ensures AttachTo(e)(each[i]) == RebuiltEach(messages, enums + [e])[i]
    {
      RebuiltEachAt(messages, enums, i);
      RebuiltEachAt(messages, enums + [e], i);
      if i == k {
        AttachInside(messages[k], enums, e);
      } else {
        if Matches(e)(messages[i]) { MatchIsUnique(messages, prefix, e, i, k); }
        if Owns(messages[i], e) { OwnerMatches(messages[i], e); }
        NotOwnedUnchanged(messages[i], enums, e);
      }
    }
    assert Map(each, AttachTo(e)) == RebuiltEach(messages, enums + [e]);
  }

  /** On a rebuilt forest the attachment is a map followed by the ordering. */
  lemma RebuiltForestAttach(messages: seq<ProtoMessage>, prefix: string, enums: seq<ProtoEnum>, e: ProtoEnum)
    requires WellNamed(messages, prefix)
    ensures Attach(RebuiltForest(messages, enums), e).0 == Sort(Map(RebuiltEach(messages, enums), AttachTo(e)), MessageLe)
    ensures Attach(RebuiltForest(messages, enums), e).1 <==> exists i | 0 <= i < |messages| :: Matches(e)(messages[i])
  {
    var each := RebuiltEach(messages, enums);
    MatchCount(messages, prefix, e);
    RebuiltMatches(messages, enums, e);
    MatchesAfterSort(each, e);
    AttachThenSort(each, e);
    AttachIsMap(Sort(each, MessageLe), e);
    hide WellNamed; hide Filter; hide Sort; hide Attach; hide Map; hide RebuiltEach; hide Matches; hide MessageLe; hide AttachTo;
  }

  lemma AttachThenSort(messages: seq<ProtoMessage>, e: ProtoEnum)
    ensures Map(Sort(messages, MessageLe), AttachTo(e)) == Sort(Map(messages, AttachTo(e)), MessageLe)
  {
    MapSort(messages, AttachTo(e), MessageLe, MessageLe);
  }

  lemma MatchesAfterSort(messages: seq<ProtoMessage>, e: ProtoEnum)
    ensures |Filter(Sort(messages, MessageLe), Matches(e))| == |Filter(messages, Matches(e))|
  {
    MessageOrder();
    FilterSort(messages, MessageLe, Matches(e));
    SortMembers(Filter(messages, Matches(e)), MessageLe);
  }

  lemma {:induction false} AttachInside(m: ProtoMessage, enums: seq<ProtoEnum>, e: ProtoEnum)
    requires WellNamed(m.messages, m.fullName + ".") && DotFree(e.name) && Owns(m, e)
    ensures AttachTo(e)(Rebuilt(m, enums)) == Rebuilt(m, enums + [e])
    decreases m, 0
  {
    OwnerMatches(m, e);
    OwnedEnumsSnoc(enums, e, m.fullName);
    if HasOwner(m.messages, e) {
      AttachRebuilt(m.messages, m.fullName + ".", enums, e);
      var i :| 0 <= i < |m.messages| && Owns(m.messages[i], e);
      OwnerMatches(m.messages[i], e);
      if OwnedBy(m.fullName)(e) {
        ScopeEnumMatchesNone(m.messages, m.fullName + ".", e, i);
      }
    } else {
      assert EnumNamed(e, m.fullName + ".");
      forall i | 0 <= i < |m.messages|
        ensures !Matches(e)(m.messages[i])
      {
        ScopeEnumMatchesNone(m.messages, m.fullName + ".", e, i);
      }
      RebuiltForestAttach(m.messages, m.fullName + ".", enums, e);
      NestedUnchanged(m, enums, e);
    }
  }

  lemma NestedUnchanged(m: ProtoMessage, enums: seq<ProtoEnum>, e: ProtoEnum)
    requires !HasOwner(m.messages, e)
    ensures RebuiltForest(m.messages, enums + [e]) == RebuiltForest(m.messages, enums)
  {
    forall i | 0 <= i < |m.messages|
      ensures RebuiltEach(m.messages, enums + [e])[i] == RebuiltEach(m.messages, enums)[i]
    {
      NotOwnedUnchanged(m.messages[i], enums, e);
      RebuiltEachAt(m.messages, enums + [e], i);
      RebuiltEachAt(m.messages, enums, i);
    }
    assert RebuiltEach(m.messages, enums + [e]) == RebuiltEach(m.messages, enums);
  }
}
