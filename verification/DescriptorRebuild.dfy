/** The rebuilt message forest is the saved one, and every enum's owner is the message that
    declares it. */
module DescriptorRebuild {
  import opened Wrappers
  import opened Text
  import opened Sequences
  import opened DescriptorMetadata
  import opened DescriptorRows
  import opened DescriptorLoad
  import opened DescriptorNames

  // From parent links back to the forest

  function NodeParent(p: Option<Id>): Node -> bool { (n: Node) => n.parentId == p }

  /** The nodes of the messages directly in a forest. */
  function Tops(messages: seq<ProtoMessage>, p: Option<Id>, start: Id): (r: seq<Node>)
    ensures |r| == |messages|
  {
    if messages == [] then []
    else
      var init, last := messages[..|messages| - 1], messages[|messages| - 1];
      Tops(init, p, start) + [Node(start + MessageTotal(init), p, last)]
  }

  lemma {:induction false} TopsAt(messages: seq<ProtoMessage>, p: Option<Id>, start: Id, i: nat)
    requires i < |messages|
    ensures Tops(messages, p, start)[i] == Node(IdAt(messages, start, i), p, messages[i])
  {
    var init := messages[..|messages| - 1];
    if i < |init| {
      TopsAt(init, p, start, i);
      IdAtInit(messages, start, i);
    }
  }

  lemma {:induction false} NodeRange(messages: seq<ProtoMessage>, p: Option<Id>, start: Id)
    ensures forall n | n in Nodes(messages, p, start) ::
              && start <= n.id < start + MessageTotal(messages)
              && (n.parentId == p
                  || (n.parentId.Some? && start <= n.parentId.value < n.id))
    decreases messages
  {
    if messages != [] {
      var init, last := messages[..|messages| - 1], messages[|messages| - 1];
      NodeRange(init, p, start);
      var id := start + MessageTotal(init);
      NodeRange(last.messages, Some(id), id + 1);
    }
  }

  /** Node k has id start + k. */
  lemma {:induction false} NodesNumbered(messages: seq<ProtoMessage>, p: Option<Id>, start: Id, k: nat)
    requires k < MessageTotal(messages)
    ensures |Nodes(messages, p, start)| == |FieldGroups(messages)| == MessageTotal(messages)
    ensures Nodes(messages, p, start)[k].id == start + k
    ensures Nodes(messages, p, start)[k].message.fields == FieldGroups(messages)[k]
    decreases messages
  {
    NodeCount(messages, p, start);
    var init, last := messages[..|messages| - 1], messages[|messages| - 1];
    var id := start + MessageTotal(init);
    NodeCount(init, p, start);
    NodeCount(last.messages, Some(id), id + 1);
    if k < MessageTotal(init) {
      NodesNumbered(init, p, start, k);
    } else if k > MessageTotal(init) {
      NodesNumbered(last.messages, Some(id), id + 1, k - MessageTotal(init) - 1);
    }
  }

  lemma {:induction false} NodeCount(messages: seq<ProtoMessage>, p: Option<Id>, start: Id)
    ensures |Nodes(messages, p, start)| == |FieldGroups(messages)| == MessageTotal(messages)
    decreases messages
  {
    if messages != [] {
      var init, last := messages[..|messages| - 1], messages[|messages| - 1];
      var id := start + MessageTotal(init);
      NodeCount(init, p, start);
      NodeCount(last.messages, Some(id), id + 1);
    }
  }

  lemma SelectSnoc(messages: seq<ProtoMessage>, p: Option<Id>, start: Id, keep: Node -> bool)
    requires messages != []
    ensures var init, last := messages[..|messages| - 1], messages[|messages| - 1];
            var id := start + MessageTotal(init);
            Filter(Nodes(messages, p, start), keep) ==
            Filter(Nodes(init, p, start), keep) + (if keep(Node(id, p, last)) then [Node(id, p, last)] else [])
            + Filter(Nodes(last.messages, Some(id), id + 1), keep)
  {
    var init, last := messages[..|messages| - 1], messages[|messages| - 1];
    var id := start + MessageTotal(init);
    var node := Node(id, p, last);
    var nested := Nodes(last.messages, Some(id), id + 1);
    assert Nodes(messages, p, start) == Nodes(init, p, start) + [node] + nested;
    assert Filter([node], keep) == if keep(node) then [node] else [];
    hide Nodes; hide MessageTotal; hide Filter;
    FilterConcat(Nodes(init, p, start) + [node], nested, keep);
    FilterConcat(Nodes(init, p, start), [node], keep);
  }

  lemma SelectNone(p: Option<Id>, start: Id, keep: Node -> bool)
    ensures Filter(Nodes([], p, start), keep) == []
  {}

  /** Selecting by a forest's own parent gives the forest's top messages. */
  lemma {:induction false} SelectTops(messages: seq<ProtoMessage>, p: Option<Id>, start: Id)
    requires p.Some? ==> p.value < start
    ensures Filter(Nodes(messages, p, start), NodeParent(p)) == Tops(messages, p, start)
    decreases messages
  {
    hide Nodes; hide MessageTotal; hide Filter;
    if messages == [] {
      SelectNone(p, start, NodeParent(p));
    } else {
      var init, last := messages[..|messages| - 1], messages[|messages| - 1];
      var id := start + MessageTotal(init);
      SelectTops(init, p, start);
      NodeRange(last.messages, Some(id), id + 1);
      SelectSnoc(messages, p, start, NodeParent(p));
      FilterNone(Nodes(last.messages, Some(id), id + 1), NodeParent(p));
    }
  }

  lemma SelectInInit(messages: seq<ProtoMessage>, p: Option<Id>, start: Id, q: Id)
    requires messages != [] && (p.Some? ==> p.value < start)
    requires start <= q < start + MessageTotal(messages[..|messages| - 1])
    ensures Filter(Nodes(messages, p, start), NodeParent(Some(q))) ==
            Filter(Nodes(messages[..|messages| - 1], p, start), NodeParent(Some(q)))
  {
    hide Nodes; hide MessageTotal; hide Filter;
    var init, last := messages[..|messages| - 1], messages[|messages| - 1];
    var id := start + MessageTotal(init);
    SelectSnoc(messages, p, start, NodeParent(Some(q)));
    NodeRange(last.messages, Some(id), id + 1);
    FilterNone(Nodes(last.messages, Some(id), id + 1), NodeParent(Some(q)));
  }

  lemma SelectInLast(messages: seq<ProtoMessage>, p: Option<Id>, start: Id, q: Id)
    requires messages != [] && (p.Some? ==> p.value < start)
    requires start + MessageTotal(messages[..|messages| - 1]) <= q
    ensures var id := start + MessageTotal(messages[..|messages| - 1]);
            Filter(Nodes(messages, p, start), NodeParent(Some(q))) ==
            Filter(Nodes(messages[|messages| - 1].messages, Some(id), id + 1), NodeParent(Some(q)))
  {
    hide Nodes; hide MessageTotal; hide Filter;
    var init := messages[..|messages| - 1];
    SelectSnoc(messages, p, start, NodeParent(Some(q)));
    NodeRange(init, p, start);
    FilterNone(Nodes(init, p, start), NodeParent(Some(q)));
  }

  /** The id message i of a forest gets. */
  function IdAt(messages: seq<ProtoMessage>, start: Id, i: nat): Id
    requires i < |messages|
  {
    start + MessageTotal(messages[..i])
  }

  /** The last q that lies in message i's block. */
  function BlockEnd(messages: seq<ProtoMessage>, start: Id, i: nat): Id
    requires i < |messages|
  {
    IdAt(messages, start, i) + MessageTotal(messages[i].messages)
  }

  lemma IdAtInit(messages: seq<ProtoMessage>, start: Id, i: nat)
    requires i < |messages| - 1
    ensures IdAt(messages[..|messages| - 1], start, i) == IdAt(messages, start, i)
    ensures messages[..|messages| - 1][i] == messages[i]
  {
    assert messages[..|messages| - 1][..i] == messages[..i];
  }

  lemma {:induction false} BlockInside(messages: seq<ProtoMessage>, start: Id, i: nat)
    requires i < |messages|
    ensures start <= IdAt(messages, start, i) <= BlockEnd(messages, start, i) < start + MessageTotal(messages)
  {
    if i < |messages| - 1 {
      IdAtInit(messages, start, i);
      BlockInside(messages[..|messages| - 1], start, i);
    }
  }

  /** Selecting by a parent inside message i's block gives what its nested forest holds. */
  lemma {:induction false} SelectInside(messages: seq<ProtoMessage>, p: Option<Id>, start: Id, i: nat, q: Id)
    requires (p.Some? ==> p.value < start) && i < |messages|
    requires IdAt(messages, start, i) <= q <= BlockEnd(messages, start, i)
    ensures var id := IdAt(messages, start, i);
            Filter(Nodes(messages, p, start), NodeParent(Some(q))) ==
            Filter(Nodes(messages[i].messages, Some(id), id + 1), NodeParent(Some(q)))
    decreases messages
  {
    hide Nodes; hide MessageTotal; hide Filter;
    var init := messages[..|messages| - 1];
    if i < |init| {
      IdAtInit(messages, start, i);
      BlockInside(init, start, i);
      SelectInside(init, p, start, i, q);
      SelectInInit(messages, p, start, q);
    } else {
      SelectInLast(messages, p, start, q);
    }
  }

  function TreeRowOf(n: Node): TreeRow {
    TreeRow(n.id, n.parentId, ProtoMessage(n.message.name, n.message.fullName, Sort(n.message.fields, FieldLe), [], []))
  }

  /** What the forest's own nodes give for a parent. */
  function NodeChildren(messages: seq<ProtoMessage>, p: Option<Id>, start: Id, q: Option<Id>): seq<TreeRow> {
    Sort(Map(Filter(Nodes(messages, p, start), NodeParent(q)), TreeRowOf), TreeRowLe)
  }

  /** The rows hold this forest below p: selecting the children of p and of every id in the
      forest's block gives what the forest's own nodes give. */
  ghost predicate Holds(rows: seq<TreeRow>, messages: seq<ProtoMessage>, p: Option<Id>, start: Id) {
    && ChildrenOf(rows, p) == NodeChildren(messages, p, start, p)
    && forall q: Id | start <= q < start + MessageTotal(messages) ::
         ChildrenOf(rows, Some(q)) == NodeChildren(messages, p, start, Some(q))
  }

  lemma HoldsInside(rows: seq<TreeRow>, messages: seq<ProtoMessage>, p: Option<Id>, start: Id, i: nat)
    requires (p.Some? ==> p.value < start) && i < |messages| && Holds(rows, messages, p, start)
    ensures var id := IdAt(messages, start, i); Holds(rows, messages[i].messages, Some(id), id + 1)
  {
    hide Nodes; hide MessageTotal; hide Filter; hide Map; hide Sort; hide ChildrenOf; hide TreeRowOf; hide IdAt;
    hide NodeChildren;
    var id := IdAt(messages, start, i);
    BlockInside(messages, start, i);
    forall q: Id | id <= q <= BlockEnd(messages, start, i)
      ensures ChildrenOf(rows, Some(q)) == NodeChildren(messages[i].messages, Some(id), id + 1, Some(q))
    {
      ChildrenInside(messages, p, start, i, q);
    }
  }

  lemma ChildrenInside(messages: seq<ProtoMessage>, p: Option<Id>, start: Id, i: nat, q: Id)
    requires (p.Some? ==> p.value < start) && i < |messages|
    requires IdAt(messages, start, i) <= q <= BlockEnd(messages, start, i)
    ensures var id := IdAt(messages, start, i);
            NodeChildren(messages, p, start, Some(q)) == NodeChildren(messages[i].messages, Some(id), id + 1, Some(q))
  {
    hide Nodes; hide MessageTotal; hide Filter; hide Map; hide Sort;
    SelectInside(messages, p, start, i, q);
  }

  /** What the rebuild makes of one child row. */
  ghost function Built(rows: seq<TreeRow>, bound: Id): TreeRow -> ProtoMessage {
    (r: TreeRow) =>
      if ParentsFirst(rows, bound) && r.id < bound
      then r.message.(messages := BuildChildren(rows, Some(r.id), bound)) else r.message
  }

  lemma {:induction false} BuildEachIsMap(rows: seq<TreeRow>, kids: seq<TreeRow>, p: Option<Id>, bound: Id)
    requires ParentsFirst(rows, bound) && Depth(p) <= bound
    requires forall r | r in kids :: r in rows && r.parentId == p
    ensures BuildEach(rows, kids, p, bound) == Map(kids, Built(rows, bound))
  {
    hide BuildChildren;
    if kids != [] { BuildEachIsMap(rows, kids[1..], p, bound); }
  }

  lemma BuiltThenSort(rows: seq<TreeRow>, bound: Id, kids: seq<TreeRow>)
    ensures Map(Sort(kids, TreeRowLe), Built(rows, bound)) == Sort(Map(kids, Built(rows, bound)), MessageLe)
  {
    MapSort(kids, Built(rows, bound), TreeRowLe, MessageLe);
  }

  /** Rebuilding from rows that hold a forest gives the forest, ordered at every level. */
  lemma {:induction false} RebuildsForest(rows: seq<TreeRow>, bound: Id, messages: seq<ProtoMessage>, p: Option<Id>, start: Id)
    requires ParentsFirst(rows, bound) && Depth(p) <= bound
    requires (p.Some? ==> p.value < start) && start + MessageTotal(messages) <= bound
    requires Holds(rows, messages, p, start)
    ensures BuildChildren(rows, p, bound) == RebuiltForest(messages, [])
    decreases messages
  {
    SelectTops(messages, p, start);
    var kids := Map(Tops(messages, p, start), TreeRowOf);
    TreeRowOrder();
    SortTwice(kids, TreeRowLe);
    ChildrenSorted(rows, p);
    BuildEachIsMap(rows, Sort(kids, TreeRowLe), p, bound);
    BuiltThenSort(rows, bound, kids);
    forall i | 0 <= i < |messages|
      ensures Built(rows, bound)(kids[i]) == RebuiltEach(messages, [])[i]
    {
      RebuildsMessage(rows, bound, messages, p, start, i);
      RebuiltEachAt(messages, [], i);
    }
    assert Map(kids, Built(rows, bound)) == RebuiltEach(messages, []);
  }

  lemma OwnedEnumsNone(scope: string)
    ensures OwnedEnums([], scope) == []
  {}

  lemma {:induction false} RebuildsMessage(rows: seq<TreeRow>, bound: Id, messages: seq<ProtoMessage>, p: Option<Id>, start: Id,
                                           i: nat)
    requires ParentsFirst(rows, bound) && Depth(p) <= bound
    requires (p.Some? ==> p.value < start) && start + MessageTotal(messages) <= bound
    requires Holds(rows, messages, p, start) && i < |messages|
    ensures Built(rows, bound)(TreeRowOf(Tops(messages, p, start)[i])) == Rebuilt(messages[i], [])
    decreases messages, 0
  {
    hide Nodes; hide MessageTotal; hide Holds; hide Tops; hide RebuiltForest; hide BuildChildren; hide Sort;
    hide OwnedEnums; hide IdAt;
    var id := IdAt(messages, start, i);
    TopsAt(messages, p, start, i);
    BlockInside(messages, start, i);
    HoldsInside(rows, messages, p, start, i);
    RebuildsForest(rows, bound, messages[i].messages, Some(id), id + 1);
    OwnedEnumsNone(messages[i].fullName);
  }

  // Which enums a scope owns

  lemma {:induction false} ForestEnumHasOwner(messages: seq<ProtoMessage>, prefix: string, e: ProtoEnum)
    requires WellNamed(messages, prefix) && e in ForestEnums(messages)
    ensures HasOwner(messages, e) && DotFree(e.name)
    decreases messages
  {
    var init, last := messages[..|messages| - 1], messages[|messages| - 1];
    if e in ForestEnums(init) {
      ForestEnumHasOwner(init, prefix, e);
      var i :| 0 <= i < |init| && Owns(init[i], e);
      assert Owns(messages[i], e);
    } else if e in last.enums {
      assert OwnedBy(last.fullName)(e);
      assert Owns(messages[|messages| - 1], e);
    } else {
      ForestEnumHasOwner(last.messages, last.fullName + ".", e);
      assert Owns(messages[|messages| - 1], e);
    }
  }

  /** Enums of a message and below it are owned inside that message's scope. */
  lemma MessageEnumMatches(m: ProtoMessage, e: ProtoEnum)
    requires WellNamed(m.messages, m.fullName + ".")
    requires forall x | x in m.enums :: EnumNamed(x, m.fullName + ".")
    requires e in ForestEnums(m.messages) + m.enums
    ensures Matches(e)(m) && DotFree(e.name)
  {
    if e in m.enums {
      assert OwnedBy(m.fullName)(e);
    } else {
      ForestEnumHasOwner(m.messages, m.fullName + ".", e);
    }
    OwnerMatches(m, e);
  }

  /** The scope lies in message i of the forest: it is the message or below it. */
  predicate ScopeIn(scope: string, m: ProtoMessage) {
    HasPrefix(scope + ".", m.fullName + ".")
  }

  lemma OtherScopesOwnNothing(messages: seq<ProtoMessage>, prefix: string, i: nat, j: nat, scope: string)
    requires WellNamed(messages, prefix) && i < |messages| && j < |messages| && i != j
    requires ScopeIn(scope, messages[i])
    ensures Filter(ForestEnums(messages[j].messages) + messages[j].enums, OwnedBy(scope)) == []
  {
    var enums := ForestEnums(messages[j].messages) + messages[j].enums;
    forall e | e in enums
      ensures !OwnedBy(scope)(e)
    {
      MessageEnumMatches(messages[j], e);
      if OwnedBy(scope)(e) {
        assert HasPrefix(e.fullName, scope + ".");
        PrefixTransitive(e.fullName, scope + ".", messages[i].fullName + ".");
        MatchIsUnique(messages, prefix, e, i, j);
      }
    }
    FilterNone(enums, OwnedBy(scope));
  }

  /** Of a whole forest's enums, a scope inside message i owns only enums of message i. */
  lemma {:induction false} ScopeEnums(messages: seq<ProtoMessage>, prefix: string, whole: seq<ProtoMessage>, i: nat, scope: string)
    requires WellNamed(whole, prefix) && messages <= whole && i < |whole| && ScopeIn(scope, whole[i])
    ensures Filter(ForestEnums(messages), OwnedBy(scope)) ==
            if i < |messages| then Filter(ForestEnums(whole[i].messages) + whole[i].enums, OwnedBy(scope)) else []
  {
    if messages != [] {
      var k := |messages| - 1;
      var init, last := messages[..k], messages[k];
      ScopeEnums(init, prefix, whole, i, scope);
      assert ForestEnums(messages) == ForestEnums(init) + (ForestEnums(last.messages) + last.enums);
      FilterConcat(ForestEnums(init), ForestEnums(last.messages) + last.enums, OwnedBy(scope));
      if i != k {
        OtherScopesOwnNothing(whole, prefix, i, k, scope);
      }
    }
  }

  /** In the list of all enums of a file, every message of the forest owns exactly its own. */
  predicate Exact(all: seq<ProtoEnum>, messages: seq<ProtoMessage>) {
    forall i | 0 <= i < |messages| ::
      OwnedEnums(all, messages[i].fullName) == messages[i].enums && Exact(all, messages[i].messages)
  }

  lemma {:induction false} EveryScopeIsExact(all: seq<ProtoEnum>, messages: seq<ProtoMessage>, prefix: string)
    requires WellNamed(messages, prefix)
    requires forall scope: string | HasPrefix(scope, prefix) ::
               OwnedEnums(all, scope) == OwnedEnums(ForestEnums(messages), scope)
    ensures Exact(all, messages)
    decreases messages
  {
    forall i | 0 <= i < |messages|
      ensures OwnedEnums(all, messages[i].fullName) == messages[i].enums
      ensures Exact(all, messages[i].messages)
    {
      var m := messages[i];
      ScopeEnums(messages, prefix, messages, i, m.fullName);
      FilterConcat(ForestEnums(m.messages), m.enums, OwnedBy(m.fullName));
      NestedOwnNotScope(m);
      FilterAll(m.enums, OwnedBy(m.fullName));
      forall scope: string | HasPrefix(scope, m.fullName + ".")
        ensures OwnedEnums(all, scope) == OwnedEnums(ForestEnums(m.messages), scope)
      {
        PrefixTransitive(scope, m.fullName + ".", prefix);
        assert ScopeIn(scope, m) by { PrefixTransitive(scope + ".", scope, m.fullName + "."); }
        ScopeEnums(messages, prefix, messages, i, scope);
        FilterConcat(ForestEnums(m.messages), m.enums, OwnedBy(scope));
        OwnEnumsNotBelow(m, scope);
      }
      EveryScopeIsExact(all, m.messages, m.fullName + ".");
    }
  }

  lemma NestedOwnNotScope(m: ProtoMessage)
    requires WellNamed(m.messages, m.fullName + ".")
    ensures Filter(ForestEnums(m.messages), OwnedBy(m.fullName)) == []
  {
    forall e | e in ForestEnums(m.messages)
      ensures !OwnedBy(m.fullName)(e)
    {
      ForestEnumHasOwner(m.messages, m.fullName + ".", e);
      var i :| 0 <= i < |m.messages| && Owns(m.messages[i], e);
      OwnerMatches(m.messages[i], e);
      if OwnedBy(m.fullName)(e) {
        ScopeEnumMatchesNone(m.messages, m.fullName + ".", e, i);
      }
    }
    FilterNone(ForestEnums(m.messages), OwnedBy(m.fullName));
  }

  lemma OwnEnumsNotBelow(m: ProtoMessage, scope: string)
    requires forall e | e in m.enums :: EnumNamed(e, m.fullName + ".")
    requires HasPrefix(scope, m.fullName + ".")
    ensures Filter(m.enums, OwnedBy(scope)) == []
  {
    forall e | e in m.enums
      ensures !OwnedBy(scope)(e)
    {
      if OwnedBy(scope)(e) {
        LastDotIsUnique(m.fullName, e.name, scope, e.name);
      }
    }
    FilterNone(m.enums, OwnedBy(scope));
  }
}
