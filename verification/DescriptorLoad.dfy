/** Loading descriptor metadata: rows are selected and ordered, the message tree is rebuilt
    from the parent links, and each enum is put back into the message its full name names. */
module DescriptorLoad {
  import opened Wrappers
  import opened Text
  import opened Sequences
  import opened DescriptorMetadata
  import opened DescriptorRows

  datatype LoadError = NotFound

  // ORDER BY keys

  predicate FileLe(a: FileRow, b: FileRow) { LessOrEqual(a.path, b.path) }

  predicate ImportLe(a: ProtoImport, b: ProtoImport) { LessOrEqual(a.path, b.path) }

  predicate ServiceRowLe(a: ServiceRow, b: ServiceRow) { LessOrEqual(a.fullName, b.fullName) }

  predicate MethodLe(a: ProtoMethod, b: ProtoMethod) { LessOrEqual(a.name, b.name) }

  predicate MessageRowLe(a: MessageRow, b: MessageRow) { LessOrEqual(a.fullName, b.fullName) }

  predicate FieldLe(a: ProtoField, b: ProtoField) { a.number <= b.number }

  predicate EnumRowLe(a: EnumRow, b: EnumRow) { LessOrEqual(a.fullName, b.fullName) }

  predicate ValueLe(a: ProtoEnumValue, b: ProtoEnumValue) { a.number <= b.number }

  predicate TreeRowLe(a: TreeRow, b: TreeRow) { LessOrEqual(a.message.fullName, b.message.fullName) }

  // WHERE clauses

  function FileIn(v: VersionId): FileRow -> bool { (r: FileRow) => r.versionId == v }

  function ServiceIn(v: VersionId, f: Id): ServiceRow -> bool { (r: ServiceRow) => r.versionId == v && r.fileId == f }

  function MessageIn(v: VersionId, f: Id): MessageRow -> bool { (r: MessageRow) => r.versionId == v && r.fileId == f }

  function EnumIn(v: VersionId, f: Id): EnumRow -> bool { (r: EnumRow) => r.versionId == v && r.fileId == f }

  // Flat parts

  function LoadService(t: Tables): ServiceRow -> ProtoService {
    (r: ServiceRow) => ProtoService(r.name, r.fullName, Sort(ItemsOf(t.methods, r.id), MethodLe))
  }

  function LoadServices(t: Tables, v: VersionId, f: Id): seq<ProtoService> {
    Map(Sort(Filter(t.services, ServiceIn(v, f)), ServiceRowLe), LoadService(t))
  }

  function LoadEnum(t: Tables): EnumRow -> ProtoEnum {
    (r: EnumRow) => ProtoEnum(r.name, r.fullName, Sort(ItemsOf(t.values, r.id), ValueLe))
  }

  function LoadEnumList(t: Tables, v: VersionId, f: Id): seq<ProtoEnum> {
    Map(Sort(Filter(t.enums, EnumIn(v, f)), EnumRowLe), LoadEnum(t))
  }

  // The message tree

  /** A message row as loaded: with its fields, without what is nested in it. */
  datatype TreeRow = TreeRow(id: Id, parentId: Option<Id>, message: ProtoMessage)

  function LoadMessageRow(t: Tables): MessageRow -> TreeRow {
    (r: MessageRow) =>
      TreeRow(r.id, r.parentId, ProtoMessage(r.name, r.fullName, Sort(ItemsOf(t.fields, r.id), FieldLe), [], []))
  }

  function LoadMessageRows(t: Tables, v: VersionId, f: Id): seq<TreeRow> {
    Map(Sort(Filter(t.messages, MessageIn(v, f)), MessageRowLe), LoadMessageRow(t))
  }

  function HasParent(parentId: Option<Id>): TreeRow -> bool { (r: TreeRow) => r.parentId == parentId }

  function ChildrenOf(rows: seq<TreeRow>, parentId: Option<Id>): seq<TreeRow> {
    Filter(rows, HasParent(parentId))
  }

  /** Parent links are acyclic: a parent is inserted before its children, so its id was
      issued earlier. */
  predicate ParentsFirst(rows: seq<TreeRow>, bound: Id) {
    forall r | r in rows :: r.id < bound && (r.parentId.Some? ==> r.parentId.value < r.id)
  }

  function Depth(parentId: Option<Id>): nat {
    if parentId.None? then 0 else parentId.value + 1
  }

  lemma ChildrenSorted(rows: seq<TreeRow>, parentId: Option<Id>)
    ensures forall r | r in Sort(ChildrenOf(rows, parentId), TreeRowLe) :: r in rows && r.parentId == parentId
  {
    TreeRowOrder();
    SortMembers(ChildrenOf(rows, parentId), TreeRowLe);
    FilterMembers(rows, HasParent(parentId));
  }

  /** The rebuilt forest below a parent. The recursion ends because ids grow along it. */
  function BuildChildren(rows: seq<TreeRow>, parentId: Option<Id>, bound: Id): seq<ProtoMessage>
    requires ParentsFirst(rows, bound) && Depth(parentId) <= bound
    decreases bound - Depth(parentId), 1, 0
  {
    ChildrenSorted(rows, parentId);
    BuildEach(rows, Sort(ChildrenOf(rows, parentId), TreeRowLe), parentId, bound)
  }

  function BuildEach(rows: seq<TreeRow>, kids: seq<TreeRow>, parentId: Option<Id>, bound: Id): seq<ProtoMessage>
    requires ParentsFirst(rows, bound) && Depth(parentId) <= bound
    requires forall r | r in kids :: r in rows && r.parentId == parentId
    decreases bound - Depth(parentId), 0, |kids|
  {
    if kids == [] then []
    else
      [kids[0].message.(messages := BuildChildren(rows, Some(kids[0].id), bound))] +
      BuildEach(rows, kids[1..], parentId, bound)
  }

  // Putting enums back

  /** Goes down to the innermost message whose full name, followed by a dot, starts the
      enum's full name. */
  function Attach(messages: seq<ProtoMessage>, e: ProtoEnum): (r: (seq<ProtoMessage>, bool))
    ensures |r.0| == |messages|
    ensures !r.1 ==> r.0 == messages
  {
    if messages == [] then (messages, false)
    else if HasPrefix(e.fullName, messages[0].fullName + ".") then
      var inner := Attach(messages[0].messages, e);
      if inner.1 then ([messages[0].(messages := inner.0)] + messages[1..], true)
      else ([messages[0].(enums := messages[0].enums + [e])] + messages[1..], true)
    else
      var rest := Attach(messages[1..], e);
      ([messages[0]] + rest.0, rest.1)
  }

  /** Attaches every enum in turn; those of no message stay with the file. */
  function AttachAll(messages: seq<ProtoMessage>, enums: seq<ProtoEnum>): (seq<ProtoMessage>, seq<ProtoEnum>)
    decreases |enums|
  {
    if enums == [] then (messages, [])
    else
      var init, last := enums[..|enums| - 1], enums[|enums| - 1];
      var before := AttachAll(messages, init);
      var after := Attach(before.0, last);
      (after.0, if after.1 then before.1 else before.1 + [last])
  }

  // Files

  predicate Buildable(t: Tables) {
    forall r | r in t.messages :: r.id < t.nextMessage && (r.parentId.Some? ==> r.parentId.value < r.id)
  }

  lemma LoadedRowsBuildable(t: Tables, v: VersionId, f: Id)
    requires Buildable(t)
    ensures ParentsFirst(LoadMessageRows(t, v, f), t.nextMessage)
  {
    MessageRowOrder();
    var selected := Filter(t.messages, MessageIn(v, f));
    FilterMembers(t.messages, MessageIn(v, f));
    SortMembers(selected, MessageRowLe);
    var rows := LoadMessageRows(t, v, f);
    forall r | r in rows
      ensures r.id < t.nextMessage && (r.parentId.Some? ==> r.parentId.value < r.id)
    {
      var i :| 0 <= i < |rows| && rows[i] == r;
      assert Sort(selected, MessageRowLe)[i] in t.messages;
    }
  }

  function LoadFile(t: Tables, v: VersionId): FileRow -> ProtoFile
    requires Buildable(t)
  {
    (r: FileRow) =>
      LoadedRowsBuildable(t, v, r.id);
      var tree := BuildChildren(LoadMessageRows(t, v, r.id), None, t.nextMessage);
      var attached := AttachAll(tree, LoadEnumList(t, v, r.id));
      ProtoFile(r.path, r.packageName, r.syntax,
                Sort(ItemsOf(t.imports, r.id), ImportLe), LoadServices(t, v, r.id), attached.0, attached.1)
  }

  function Load(t: Tables, v: VersionId): Result<Metadata, LoadError>
    requires Buildable(t)
  {
    var rows := Sort(Filter(t.files, FileIn(v)), FileLe);
    if rows == [] then Failure(NotFound) else Success(Map(rows, LoadFile(t, v)))
  }

  // Every key is a total preorder

  lemma FileOrder()
    ensures TotalPreorder(FileLe)
  {
    forall a, b, c: FileRow
      ensures FileLe(a, b) || FileLe(b, a)
      ensures FileLe(a, b) && FileLe(b, c) ==> FileLe(a, c)
    {
      LessOrEqualTotal(a.path, b.path);
      if FileLe(a, b) && FileLe(b, c) { LessOrEqualTransitive(a.path, b.path, c.path); }
    }
  }

  lemma ImportOrder()
    ensures TotalPreorder(ImportLe)
  {
    forall a, b, c: ProtoImport
      ensures ImportLe(a, b) || ImportLe(b, a)
      ensures ImportLe(a, b) && ImportLe(b, c) ==> ImportLe(a, c)
    {
      LessOrEqualTotal(a.path, b.path);
      if ImportLe(a, b) && ImportLe(b, c) { LessOrEqualTransitive(a.path, b.path, c.path); }
    }
  }

  lemma ServiceRowOrder()
    ensures TotalPreorder(ServiceRowLe)
  {
    forall a, b, c: ServiceRow
      ensures ServiceRowLe(a, b) || ServiceRowLe(b, a)
      ensures ServiceRowLe(a, b) && ServiceRowLe(b, c) ==> ServiceRowLe(a, c)
    {
      LessOrEqualTotal(a.fullName, b.fullName);
      if ServiceRowLe(a, b) && ServiceRowLe(b, c) { LessOrEqualTransitive(a.fullName, b.fullName, c.fullName); }
    }
  }

  lemma MethodOrder()
    ensures TotalPreorder(MethodLe)
  {
    forall a, b, c: ProtoMethod
      ensures MethodLe(a, b) || MethodLe(b, a)
      ensures MethodLe(a, b) && MethodLe(b, c) ==> MethodLe(a, c)
    {
      LessOrEqualTotal(a.name, b.name);
      if MethodLe(a, b) && MethodLe(b, c) { LessOrEqualTransitive(a.name, b.name, c.name); }
    }
  }

  lemma EnumRowOrder()
    ensures TotalPreorder(EnumRowLe)
  {
    forall a, b, c: EnumRow
      ensures EnumRowLe(a, b) || EnumRowLe(b, a)
      ensures EnumRowLe(a, b) && EnumRowLe(b, c) ==> EnumRowLe(a, c)
    {
      LessOrEqualTotal(a.fullName, b.fullName);
      if EnumRowLe(a, b) && EnumRowLe(b, c) { LessOrEqualTransitive(a.fullName, b.fullName, c.fullName); }
    }
  }

  lemma MessageRowOrder()
    ensures TotalPreorder(MessageRowLe)
  {
    forall a, b, c: MessageRow
      ensures MessageRowLe(a, b) || MessageRowLe(b, a)
      ensures MessageRowLe(a, b) && MessageRowLe(b, c) ==> MessageRowLe(a, c)
    {
      LessOrEqualTotal(a.fullName, b.fullName);
      if MessageRowLe(a, b) && MessageRowLe(b, c) { LessOrEqualTransitive(a.fullName, b.fullName, c.fullName); }
    }
  }

  lemma TreeRowOrder()
    ensures TotalPreorder(TreeRowLe)
  {
    forall a, b, c: TreeRow
      ensures TreeRowLe(a, b) || TreeRowLe(b, a)
      ensures TreeRowLe(a, b) && TreeRowLe(b, c) ==> TreeRowLe(a, c)
    {
      LessOrEqualTotal(a.message.fullName, b.message.fullName);
      if TreeRowLe(a, b) && TreeRowLe(b, c) {
        LessOrEqualTransitive(a.message.fullName, b.message.fullName, c.message.fullName);
      }
    }
  }

  // The read path, as the repository runs it

  /** Appends the enum to the innermost matching message, in place in the forest. */
  method EnumBelongsToMessage(messages: seq<ProtoMessage>, e: ProtoEnum) returns (updated: seq<ProtoMessage>, found: bool)
    ensures (updated, found) == Attach(messages, e)
    decreases messages
  {
    updated := messages;
    for i := 0 to |messages|
      invariant updated == messages
      invariant forall j | 0 <= j < i :: !HasPrefix(e.fullName, messages[j].fullName + ".")
    {
      if HasPrefix(e.fullName, messages[i].fullName + ".") {
        var inner, attached := EnumBelongsToMessage(messages[i].messages, e);
        if attached {
          updated := updated[i := messages[i].(messages := inner)];
        } else {
          updated := updated[i := messages[i].(enums := messages[i].enums + [e])];
        }
        AttachSkips(messages, e, i);
        assert updated == messages[..i] + ([updated[i]] + messages[i..][1..]);
        return updated, true;
      }
    }
    AttachSkips(messages, e, |messages|);
    found := false;
  }

  lemma AttachSkipsOne(m: ProtoMessage, rest: seq<ProtoMessage>, e: ProtoEnum)
    requires !HasPrefix(e.fullName, m.fullName + ".")
    ensures Attach([m] + rest, e) == ([m] + Attach(rest, e).0, Attach(rest, e).1)
  {
    assert ([m] + rest)[1..] == rest;
  }

  lemma {:induction false} AttachSkips(messages: seq<ProtoMessage>, e: ProtoEnum, i: nat)
    requires i <= |messages|
    requires forall j | 0 <= j < i :: !HasPrefix(e.fullName, messages[j].fullName + ".")
    ensures Attach(messages, e) == (messages[..i] + Attach(messages[i..], e).0, Attach(messages[i..], e).1)
  {
    hide Attach; hide HasPrefix;
    if i == 0 {
      assert messages[0..] == messages && messages[..0] == [];
      assert [] + Attach(messages, e).0 == Attach(messages, e).0;
    } else {
      var rest := messages[1..];
      AttachSkips(rest, e, i - 1);
      AttachSkipsOne(messages[0], rest, e);
      assert messages == [messages[0]] + rest && rest[i - 1..] == messages[i..];
      var tail := Attach(messages[i..], e).0;
      assert messages[..i] + tail == [messages[0]] + (rest[..i - 1] + tail);
    }
  }

  /** The children map holds, for each parent, its rows in the order they were loaded. */
  ghost predicate GroupsChildren(children: map<Option<Id>, seq<TreeRow>>, rows: seq<TreeRow>) {
    forall p: Option<Id> :: ChildrenOf(rows, p) == if p in children then children[p] else []
  }

  /** No two rows have the same sort key. */
  ghost predicate NamesDiffer(rows: seq<TreeRow>) {
    forall x, y | x in rows && y in rows && TreeRowLe(x, y) && TreeRowLe(y, x) :: x == y
  }

  method BuildMessageTree(rows: seq<TreeRow>, ghost bound: Id) returns (messages: seq<ProtoMessage>)
    requires ParentsFirst(rows, bound) && NamesDiffer(rows)
    ensures messages == BuildChildren(rows, None, bound)
  {
    hide ParentsFirst; hide NamesDiffer; hide BuildChildren;
    var children: map<Option<Id>, seq<TreeRow>> := map[];
    for i := 0 to |rows|
      invariant GroupsChildren(children, rows[..i])
    {
      var row := rows[i];
      ghost var before := children;
      var kids := if row.parentId in children then children[row.parentId] else [];
      children := children[row.parentId := kids + [row]];
      assert rows[..i + 1] == rows[..i] + [row];
      forall p: Option<Id>
        ensures ChildrenOf(rows[..i + 1], p) == if p in children then children[p] else []
      {
        FilterConcat(rows[..i], [row], HasParent(p));
        assert ChildrenOf(rows[..i], p) == if p in before then before[p] else [];
        assert Filter([row], HasParent(p)) == if row.parentId == p then [row] else [];
      }
    }
    assert rows[..|rows|] == rows;
    messages := BuildMessageChildren(None, children, rows, bound);
  }

  lemma ChildrenOrdering(rows: seq<TreeRow>, parentId: Option<Id>, kids: seq<TreeRow>)
    requires NamesDiffer(rows)
    requires Ordered(kids, TreeRowLe) && multiset(kids) == multiset(ChildrenOf(rows, parentId))
    ensures kids == Sort(ChildrenOf(rows, parentId), TreeRowLe)
  {
    TreeRowOrder();
    FilterMembers(rows, HasParent(parentId));
    hide Sort; hide Filter; hide Ordered; hide TreeRowLe;
    OrderingIsSort(ChildrenOf(rows, parentId), kids, TreeRowLe);
  }

  method BuildMessageChildren(parentId: Option<Id>, children: map<Option<Id>, seq<TreeRow>>,
                              ghost rows: seq<TreeRow>, ghost bound: Id)
    returns (messages: seq<ProtoMessage>)
    requires ParentsFirst(rows, bound) && Depth(parentId) <= bound && NamesDiffer(rows)
    requires GroupsChildren(children, rows)
    ensures messages == BuildChildren(rows, parentId, bound)
    decreases bound - Depth(parentId), 1
  {
    ChildrenSorted(rows, parentId);
    hide Sort; hide ParentsFirst; hide NamesDiffer; hide BuildEach; hide Ordered;
    assert ChildrenOf(rows, parentId) == if parentId in children then children[parentId] else [];
    TreeRowOrder();
    var kids := OrderBy(if parentId in children then children[parentId] else [], TreeRowLe);
    ChildrenOrdering(rows, parentId, kids);
    messages := BuildSiblings(kids, parentId, children, rows, bound);
  }

  method BuildSiblings(kids: seq<TreeRow>, ghost parentId: Option<Id>, children: map<Option<Id>, seq<TreeRow>>,
                       ghost rows: seq<TreeRow>, ghost bound: Id)
    returns (messages: seq<ProtoMessage>)
    requires ParentsFirst(rows, bound) && Depth(parentId) <= bound && NamesDiffer(rows)
    requires GroupsChildren(children, rows)
    requires forall r | r in kids :: r in rows && r.parentId == parentId
    ensures messages == BuildEach(rows, kids, parentId, bound)
    decreases bound - Depth(parentId), 0
  {
    hide BuildChildren; hide BuildEach; hide ParentsFirst; hide GroupsChildren; hide NamesDiffer;
    messages := [];
    BuildEachLength(rows, kids, parentId, bound);
    for i := 0 to |kids|
      invariant messages == BuildEach(rows, kids, parentId, bound)[..i]
    {
      assert kids[i] in kids;
      ParentBelow(rows, kids[i], parentId, bound);
      var nested := BuildMessageChildren(Some(kids[i].id), children, rows, bound);
      BuildEachAt(rows, kids, parentId, bound, i);
      messages := messages + [kids[i].message.(messages := nested)];
    }
  }

  lemma ParentBelow(rows: seq<TreeRow>, r: TreeRow, parentId: Option<Id>, bound: Id)
    requires ParentsFirst(rows, bound) && r in rows && r.parentId == parentId
    ensures Depth(parentId) < Depth(Some(r.id)) <= bound
  {}

  lemma {:induction false} BuildEachLength(rows: seq<TreeRow>, kids: seq<TreeRow>, parentId: Option<Id>, bound: Id)
    requires ParentsFirst(rows, bound) && Depth(parentId) <= bound
    requires forall r | r in kids :: r in rows && r.parentId == parentId
    ensures |BuildEach(rows, kids, parentId, bound)| == |kids|
  {
    hide BuildChildren;
    if kids != [] { BuildEachLength(rows, kids[1..], parentId, bound); }
  }

  lemma {:induction false} BuildEachAt(rows: seq<TreeRow>, kids: seq<TreeRow>, parentId: Option<Id>, bound: Id, i: nat)
    requires ParentsFirst(rows, bound) && Depth(parentId) <= bound
    requires forall r | r in kids :: r in rows && r.parentId == parentId
    requires i < |kids| == |BuildEach(rows, kids, parentId, bound)|
    ensures BuildEach(rows, kids, parentId, bound)[i] ==
            kids[i].message.(messages := BuildChildren(rows, Some(kids[i].id), bound))
  {
    hide BuildChildren;
    if i > 0 { BuildEachAt(rows, kids[1..], parentId, bound, i - 1); }
  }

  method LoadProtoEnums(tree: seq<ProtoMessage>, enums: seq<ProtoEnum>)
    returns (messages: seq<ProtoMessage>, fileEnums: seq<ProtoEnum>)
    ensures (messages, fileEnums) == AttachAll(tree, enums)
  {
    messages, fileEnums := tree, [];
    for i := 0 to |enums|
      invariant (messages, fileEnums) == AttachAll(tree, enums[..i])
    {
      var found;
      messages, found := EnumBelongsToMessage(messages, enums[i]);
      if !found {
        fileEnums := fileEnums + [enums[i]];
      }
      assert enums[..i + 1][..i] == enums[..i];
    }
    assert enums[..|enums|] == enums;
  }
}
