/** The resolver's result in terms of the metadata's own fields and the provider rows. */
module DependencyMeaning {
  import opened Text
  import opened Sequences
  import opened DescriptorMetadata
  import opened DependencyReferences
  import opened DependencyIndex
  import opened DependencyTheorems

  // Which references the metadata makes

  predicate ImportsPath(files: Metadata, path: string) {
    exists file, i :: file in files && i in file.imports && i.path == path
  }

  /** Some field of a message, at any depth, names the type. */
  ghost predicate HasFieldOfType(files: Metadata, text: string) {
    exists file, m, f :: file in files && Within(m, file.messages) && f in m.fields && f.typeName == text
  }

  /** Some method takes or returns the type. */
  predicate HasMethodWithType(files: Metadata, text: string) {
    exists file, s, m ::
      file in files && s in file.services && m in s.methods && (m.inputType == text || m.outputType == text)
  }

  ghost predicate Refers(files: Metadata, r: Reference) {
    match r.source
    case Import => ImportsPath(files, r.text)
    case TypeReference => HasFieldOfType(files, r.text)
    case MethodReference => HasMethodWithType(files, r.text)
  }

  ghost predicate FieldIn(messages: seq<ProtoMessage>, text: string) {
    exists m, f :: Within(m, messages) && f in m.fields && f.typeName == text
  }

  lemma FieldInSnoc(init: seq<ProtoMessage>, last: ProtoMessage, text: string)
    ensures FieldIn(init + [last], text) <==>
            FieldIn(init, text) || (exists f :: f in last.fields && f.typeName == text) || FieldIn(last.messages, text)
  {
    hide Within;
    forall m: ProtoMessage
      ensures Within(m, init + [last]) <==> Within(m, init) || m == last || Within(m, last.messages)
    {
      WithinSnoc(m, init, last);
    }
  }

  lemma {:induction false} ForestRefers(messages: seq<ProtoMessage>, r: Reference)
    ensures r in ForestReferences(messages) <==> r.source == TypeReference && FieldIn(messages, r.text)
    decreases messages
  {
    hide FieldIn; hide Map; hide ForestReferences;
    if messages == [] {
      NoFieldIn(r.text);
    } else {
      var init, last := messages[..|messages| - 1], messages[|messages| - 1];
      assert messages == init + [last];
      ForestRefers(init, r);
      ForestRefers(last.messages, r);
      FieldInSnoc(init, last, r.text);
      MapMembers(last.fields, FieldReference, r);
      ForestReferencesLast(init, last);
    }
  }

  lemma NoFieldIn(text: string)
    ensures !FieldIn([], text) && ForestReferences([]) == []
  {}

  lemma ForestReferencesLast(init: seq<ProtoMessage>, last: ProtoMessage)
    ensures ForestReferences(init + [last]) ==
            ForestReferences(init) + (Map(last.fields, FieldReference) + ForestReferences(last.messages))
  {
    assert (init + [last])[..|init|] == init;
  }

  lemma MapMembers<T, U>(s: seq<T>, f: T -> U, y: U)
    ensures y in Map(s, f) <==> exists x :: x in s && f(x) == y
  {
    if y in Map(s, f) {
      var i :| 0 <= i < |s| && Map(s, f)[i] == y;
      assert s[i] in s;
    }
    if x :| x in s && f(x) == y {
      var i :| 0 <= i < |s| && s[i] == x;
      assert Map(s, f)[i] == y;
    }
  }

  lemma MethodRefers(services: seq<ProtoService>, r: Reference)
    ensures r in FlatMap(services, ServiceReferences) <==>
            r.source == MethodReference
            && exists s, m :: s in services && m in s.methods && (m.inputType == r.text || m.outputType == r.text)
  {
    hide FlatMap;
    FlatMapMembers(services, ServiceReferences, r);
    forall s: ProtoService
      ensures r in ServiceReferences(s) <==>
              r.source == MethodReference && exists m :: m in s.methods && (m.inputType == r.text || m.outputType == r.text)
    {
      FlatMapMembers(s.methods, MethodReferences, r);
    }
  }

  /** The references are exactly the imports, the types of the fields of messages at any depth,
      and the input and output types of the methods. */
  lemma ReferencesAreExact(files: Metadata, r: Reference)
    ensures r in References(files) <==> Refers(files, r)
  {
    hide FlatMap; hide ForestReferences; hide Map; hide Within; hide ServiceReferences;
    FlatMapMembers(files, FileReferences, r);
    forall file: ProtoFile
      ensures r in FileReferences(file) <==> Refers([file], r)
    {
      MapMembers(file.imports, ImportReference, r);
      ForestRefers(file.messages, r);
      MethodRefers(file.services, r);
      assert forall f: ProtoFile :: f in [file] <==> f == file;
    }
    RefersSomewhere(files, r);
  }

  lemma RefersSomewhere(files: Metadata, r: Reference)
    ensures Refers(files, r) <==> exists file :: file in files && Refers([file], r)
  {
    hide Within;
    assert forall file, f: ProtoFile :: f in [file] <==> f == file;
  }

  /** They are as many as imports, fields and two for each method. */
  lemma ReferencesAreCounted(files: Metadata)
    ensures |References(files)| == SummaryOf(files).importCount + SummaryOf(files).fieldCount + 2 * SummaryOf(files).methodCount
  {
    ReferencesCount(files);
  }

  lemma {:induction false} ReferencesCount(files: Metadata)
    ensures |References(files)| == Counts(files).importCount + Counts(files).fieldCount + 2 * Counts(files).methodCount
  {
    hide FileReferences; hide FileSummary;
    if files != [] {
      var init, last := files[..|files| - 1], files[|files| - 1];
      ReferencesCount(init);
      FileReferencesCount(last);
      assert files == init + [last];
      FlatMapSnoc(init, last, FileReferences);
    }
  }

  lemma FileReferencesCount(file: ProtoFile)
    ensures |FileReferences(file)| ==
            FileSummary(file).importCount + FileSummary(file).fieldCount + 2 * FileSummary(file).methodCount
  {
    ForestCount(file.messages);
    ServicesCount(file.services);
    hide ForestReferences; hide FlatMap; hide FieldTotal; hide MessageTotal; hide FileEnums; hide Sum;
  }

  lemma {:induction false} ForestCount(messages: seq<ProtoMessage>)
    ensures |ForestReferences(messages)| == FieldTotal(messages)
    decreases messages
  {
    if messages != [] {
      ForestCount(messages[..|messages| - 1]);
      ForestCount(messages[|messages| - 1].messages);
    }
  }

  lemma {:induction false} ServicesCount(services: seq<ProtoService>)
    ensures |FlatMap(services, ServiceReferences)| == 2 * Sum(services, MethodCount)
  {
    if services != [] {
      var init, last := services[..|services| - 1], services[|services| - 1];
      ServicesCount(init);
      MethodsCount(last.methods);
      assert services == init + [last];
      FlatMapSnoc(init, last, ServiceReferences);
      SumConcat(init, [last], MethodCount);
      assert Sum([last], MethodCount) == |last.methods|;
    }
  }

  lemma {:induction false} MethodsCount(methods: seq<ProtoMethod>)
    ensures |FlatMap(methods, MethodReferences)| == 2 * |methods|
  {
    if methods != [] {
      var init, last := methods[..|methods| - 1], methods[|methods| - 1];
      MethodsCount(init);
      assert methods == init + [last];
      FlatMapSnoc(init, last, MethodReferences);
    }
  }

  function Rank(s: Source): int {
    match s
    case Import => 0
    case TypeReference => 1
    case MethodReference => 2
  }

  lemma ForestSources(messages: seq<ProtoMessage>)
    ensures forall r | r in ForestReferences(messages) :: r.source == TypeReference
  {
    forall r | r in ForestReferences(messages)
      ensures r.source == TypeReference
    {
      ForestRefers(messages, r);
    }
  }

  /** In each file the imports come first, in their order, then field types, then methods. */
  lemma FileReferencesInOrder(file: ProtoFile)
    ensures |file.imports| <= |FileReferences(file)|
    ensures forall i | 0 <= i < |file.imports| :: FileReferences(file)[i] == Reference(Import, file.imports[i].path)
    ensures forall i, j | 0 <= i < j < |FileReferences(file)| ::
              Rank(FileReferences(file)[i].source) <= Rank(FileReferences(file)[j].source)
  {
    ForestSources(file.messages);
    forall r | r in FlatMap(file.services, ServiceReferences)
      ensures r.source == MethodReference
    {
      MethodRefers(file.services, r);
    }
    hide FlatMap; hide ForestReferences;
    var a, b, c := Map(file.imports, ImportReference), ForestReferences(file.messages), FlatMap(file.services, ServiceReferences);
    assert forall i | 0 <= i < |b| :: b[i] in b;
    assert forall i | 0 <= i < |c| :: c[i] in c;
  }

  // Names

  /** A symbol without surrounding space and without one leading dot. */
  function Plain(symbol: string): string {
    var t := TrimSpace(symbol);
    if t != "" && t[0] == '.' then t[1..] else t
  }

  lemma PlainIsNormalized(symbol: string)
    ensures NormalizeSymbol(symbol) == Plain(symbol)
  {
    hide TrimSpace;
    var t := TrimSpace(symbol);
    if t != "" && t[0] == '.' { assert t[..1] == "."; }
  }

  /** The package is what comes before the last dot; without a dot there is none. */
  lemma PackageMeans(symbol: string)
    ensures DotFree(Plain(symbol)) ==> PackageFromSymbol(symbol) == ""
    ensures forall p: string, n: string | p != "" && DotFree(n) && Plain(symbol) == p + "." + n :: PackageFromSymbol(symbol) == p
  {
    hide TrimSpace;
    PlainIsNormalized(symbol);
    hide Plain; hide NormalizeSymbol;
    var t := Plain(symbol);
    var i := LastDot(t);
    forall p: string, n: string | p != "" && DotFree(n) && t == p + "." + n
      ensures i == |p|
    {
      assert t[|p|] == '.';
      if i != -1 {
        assert t == t[..i] + "." + t[i + 1..];
        LastDotIsUnique(p, n, t[..i], t[i + 1..]);
      }
    }
    if DotFree(t) && i >= 0 { assert t[i] in t; }
  }

  /** The metadata declares the symbol as a service, a message at any depth, or an enum of a
      file or of a message at any depth. */
  ghost predicate OwnSymbol(files: Metadata, symbol: string) {
    exists file | file in files ::
      || (exists s | s in file.services :: Plain(s.fullName) == symbol)
      || (exists m | Within(m, file.messages) :: Plain(m.fullName) == symbol)
      || (exists e | e in file.enums :: Plain(e.fullName) == symbol)
      || (exists m, e | Within(m, file.messages) && e in m.enums :: Plain(e.fullName) == symbol)
  }

  lemma EnumDeclaresMeans(enums: seq<ProtoEnum>, symbol: string)
    ensures EnumDeclares(enums, symbol) <==> exists e | e in enums :: Plain(e.fullName) == symbol
  {
    hide Plain; hide NormalizeSymbol;
    forall e: ProtoEnum
      ensures NormalizeSymbol(e.fullName) == Plain(e.fullName)
    {
      PlainIsNormalized(e.fullName);
    }
  }

  lemma {:induction false} ForestDeclaresMeans(messages: seq<ProtoMessage>, symbol: string)
    ensures ForestDeclares(messages, symbol) <==>
            || (exists m | Within(m, messages) :: Plain(m.fullName) == symbol)
            || (exists m, e | Within(m, messages) && e in m.enums :: Plain(e.fullName) == symbol)
    decreases messages
  {
    hide Plain; hide NormalizeSymbol; hide EnumDeclares;
    forall i | 0 <= i < |messages|
      ensures MessageDeclares(messages[i], symbol) <==>
              || (exists m | m == messages[i] || Within(m, messages[i].messages) :: Plain(m.fullName) == symbol)
              || (exists m, e | (m == messages[i] || Within(m, messages[i].messages)) && e in m.enums :: Plain(e.fullName) == symbol)
    {
      ForestDeclaresMeans(messages[i].messages, symbol);
      EnumDeclaresMeans(messages[i].enums, symbol);
      PlainIsNormalized(messages[i].fullName);
    }
  }

  lemma OwnSymbolMeans(files: Metadata, symbol: string)
    ensures DeclaresSymbol(files, symbol) <==> OwnSymbol(files, symbol)
  {
    hide Plain; hide NormalizeSymbol; hide EnumDeclares; hide ForestDeclares; hide Within;
    forall file | file in files
      ensures FileDeclares(file, symbol) <==>
              || (exists s | s in file.services :: Plain(s.fullName) == symbol)
              || (exists m | Within(m, file.messages) :: Plain(m.fullName) == symbol)
              || (exists e | e in file.enums :: Plain(e.fullName) == symbol)
              || (exists m, e | Within(m, file.messages) && e in m.enums :: Plain(e.fullName) == symbol)
    {
      ForestDeclaresMeans(file.messages, symbol);
      EnumDeclaresMeans(file.enums, symbol);
      forall s: ProtoService
        ensures NormalizeSymbol(s.fullName) == Plain(s.fullName)
      {
        PlainIsNormalized(s.fullName);
      }
    }
  }

  // The provider rows

  /** A row counts when its version is the latest published one of another module. */
  lemma CatalogRowsMean(latest: seq<PublishedVersion>, consumerModuleId: string, files: seq<ProviderFile>,
                        symbols: seq<ProviderSymbol>, f: ProviderFile, s: ProviderSymbol)
    ensures f in ProviderFiles(latest, consumerModuleId, files) <==>
            f in files && exists v :: v in latest && v.moduleId != consumerModuleId && v.versionId == f.provider.versionId
    ensures s in ProviderSymbols(latest, consumerModuleId, symbols) <==>
            s in symbols && exists v :: v in latest && v.moduleId != consumerModuleId && v.versionId == s.provider.versionId
  {
    var ids := ProviderVersionIds(latest, consumerModuleId);
    FilterMembers(files, FileRowIn(ids));
    FilterMembers(symbols, SymbolRowIn(ids));
    hide Filter;
  }

  /** Exactly one file row has the path, and it is this provider's. */
  predicate OnlyFile(c: Catalog, path: string, provider: VersionRef) {
    exists k | 0 <= k < |c.files| ::
      && c.files[k].path == path && c.files[k].provider == provider
      && forall j | 0 <= j < |c.files| && c.files[j].path == path :: j == k
  }

  /** Exactly one symbol row has the name, and it is this provider's. */
  predicate OnlySymbol(c: Catalog, symbol: string, provider: VersionRef) {
    exists k | 0 <= k < |c.symbols| ::
      && Plain(c.symbols[k].fullName) == symbol && c.symbols[k].provider == provider
      && forall j | 0 <= j < |c.symbols| && Plain(c.symbols[j].fullName) == symbol :: j == k
  }

  predicate NoFile(c: Catalog, path: string) {
    forall k | 0 <= k < |c.files| :: c.files[k].path != path
  }

  predicate NoSymbol(c: Catalog, symbol: string) {
    forall k | 0 <= k < |c.symbols| :: Plain(c.symbols[k].fullName) != symbol
  }

  // What a reference must resolve to

  /** The import is neither a well-known file nor one of the consumer's own. */
  predicate ForeignPath(c: Catalog, path: string) {
    && !HasPrefix(TrimSpace(path), "google/protobuf/")
    && forall file | file in c.own :: file.path != path
  }

  ghost predicate ForeignSymbol(c: Catalog, symbol: string) {
    symbol != "" && !HasPrefix(Plain(symbol), "google.protobuf.") && !OwnSymbol(c.own, symbol)
  }

  lemma ImportAsks(c: Catalog, path: string)
    ensures Asks(c, Reference(Import, path)) <==> ForeignPath(c, path)
  {}

  lemma SymbolAsks(c: Catalog, r: Reference)
    requires r.source != Import
    ensures Asks(c, r) <==> ForeignSymbol(c, Plain(r.text))
  {
    PlainIsNormalized(r.text);
    PlainIsNormalized(Plain(r.text));
    OwnSymbolMeans(c.own, Plain(r.text));
    hide Plain; hide NormalizeSymbol; hide OwnSymbol; hide DeclaresSymbol;
  }

  lemma ImportProvided(c: Catalog, path: string, provider: VersionRef)
    requires Asks(c, Reference(Import, path))
    ensures var r := Reference(Import, path);
            && (Classify(c, r) == Provided(provider) <==> OnlyFile(c, path, provider))
            && (Classify(c, r) == Missing <==> NoFile(c, path))
  {
    var r := Reference(Import, path);
    ClassifyCountsRows(c, r);
    hide Classify; hide Asks;
    assert forall i: nat :: Provides(c, r, i) <==> i < |c.files| && c.files[i].path == path;
    if OnlyFile(c, path, provider) {
      var k :| 0 <= k < |c.files| && c.files[k].path == path && c.files[k].provider == provider
               && forall j | 0 <= j < |c.files| && c.files[j].path == path :: j == k;
      assert Provides(c, r, k);
    }
    if Classify(c, r) == Provided(provider) {
      var i: nat :| Provides(c, r, i) && (forall j: nat | Provides(c, r, j) :: j == i) && Classify(c, r) == Provided(RowProvider(c, r, i));
      assert forall j | 0 <= j < |c.files| && c.files[j].path == path :: Provides(c, r, j);
    }
    if NoFile(c, path) { assert forall i: nat :: !Provides(c, r, i); }
    if Classify(c, r) == Missing {
      forall k | 0 <= k < |c.files|
        ensures c.files[k].path != path
      {
        assert !Provides(c, r, k);
      }
    }
  }

  lemma SymbolProvided(c: Catalog, r: Reference, provider: VersionRef)
    requires r.source != Import && Asks(c, r)
    ensures Classify(c, r) == Provided(provider) <==> OnlySymbol(c, Plain(r.text), provider)
    ensures Classify(c, r) == Missing <==> NoSymbol(c, Plain(r.text))
  {
    ClassifyCountsRows(c, r);
    hide Classify; hide Asks; hide Plain; hide NormalizeSymbol;
    var symbol := Plain(r.text);
    PlainIsNormalized(r.text);
    forall i: nat
      ensures Provides(c, r, i) <==> i < |c.symbols| && Plain(c.symbols[i].fullName) == symbol
    {
      if i < |c.symbols| { PlainIsNormalized(c.symbols[i].fullName); }
    }
    if OnlySymbol(c, symbol, provider) {
      var k :| 0 <= k < |c.symbols| && Plain(c.symbols[k].fullName) == symbol && c.symbols[k].provider == provider
               && forall j | 0 <= j < |c.symbols| && Plain(c.symbols[j].fullName) == symbol :: j == k;
      assert Provides(c, r, k);
    }
    if Classify(c, r) == Provided(provider) {
      var i: nat :| Provides(c, r, i) && (forall j: nat | Provides(c, r, j) :: j == i) && Classify(c, r) == Provided(RowProvider(c, r, i));
      assert forall j | 0 <= j < |c.symbols| && Plain(c.symbols[j].fullName) == symbol :: Provides(c, r, j);
    }
    if NoSymbol(c, symbol) { assert forall i: nat :: !Provides(c, r, i); }
    if Classify(c, r) == Missing {
      forall k | 0 <= k < |c.symbols|
        ensures Plain(c.symbols[k].fullName) != symbol
      {
        assert !Provides(c, r, k);
      }
    }
  }

  /** The link of a reference names the consumer, and the path for an import, or the symbol and
      its package for a type. */
  lemma LinkMeans(c: Catalog, r: Reference, l: Link)
    ensures l in LinksOf(c)(r) <==>
            && Classify(c, r) == Provided(l.provider) && l.provider.moduleId != c.consumer.moduleId
            && l == if r.source == Import then Link(c.consumer, l.provider, Import, ByImportPath, r.text, "", "")
                    else Link(c.consumer, l.provider, r.source, BySymbol, "", PackageFromSymbol(Plain(r.text)), Plain(r.text))
  {
    hide Classify; hide Plain; hide NormalizeSymbol; hide PackageFromSymbol;
    PlainIsNormalized(r.text);
  }

  /** The dependencies by import: a link to a provider for a path exactly when some file
      imports the path, it is no well-known and no own file, and exactly one provider row,
      of another module, has it. */
  lemma ImportDependencies(c: Catalog, path: string, provider: VersionRef)
    requires Coherent(c)
    ensures Link(c.consumer, provider, Import, ByImportPath, path, "", "") in ExpectedLinks(c, References(c.own)) <==>
            && ImportsPath(c.own, path) && ForeignPath(c, path)
            && provider.moduleId != c.consumer.moduleId && OnlyFile(c, path, provider)
  {
    hide Coherent; hide ExpectedLinks; hide References; hide ImportsPath; hide ForeignPath; hide OnlyFile; hide LinksOf;
    hide Classify; hide Asks; hide Plain; hide PackageFromSymbol;
    var l := Link(c.consumer, provider, Import, ByImportPath, path, "", "");
    var r := Reference(Import, path);
    DependenciesAreExact(c, References(c.own), l);
    ReferencesAreExact(c.own, r);
    ImportAsks(c, path);
    LinkMeans(c, r, l);
    forall q: Reference | l in LinksOf(c)(q)
      ensures q == r
    {
      LinkMeans(c, q, l);
    }
    ProvidedAsks(c, r);
    if Asks(c, r) { ImportProvided(c, path, provider); }
  }

  lemma ProvidedAsks(c: Catalog, r: Reference)
    ensures Classify(c, r).Provided? || Classify(c, r).Missing? || Classify(c, r).Ambiguous? <==> Asks(c, r)
  {
    hide ProvidersOf; hide IsBlank; hide IsWellKnown; hide IsSelf;
  }

  /** Some field, or some method, according to the source, refers to the symbol. */
  ghost predicate RefersToSymbol(files: Metadata, source: Source, symbol: string) {
    exists text: string :: Plain(text) == symbol && Refers(files, Reference(source, text))
  }

  /** The dependencies by symbol: a link to a provider for a symbol exactly when some field, or
      some method, refers to it, it is not empty, well-known or declared by the consumer,
      and exactly one provider row, of another module, has it. */
  lemma SymbolDependencies(c: Catalog, source: Source, symbol: string, provider: VersionRef)
    requires Coherent(c) && source != Import
    ensures Link(c.consumer, provider, source, BySymbol, "", PackageFromSymbol(symbol), symbol)
              in ExpectedLinks(c, References(c.own)) <==>
            && RefersToSymbol(c.own, source, symbol) && ForeignSymbol(c, symbol)
            && provider.moduleId != c.consumer.moduleId && OnlySymbol(c, symbol, provider)
  {
    hide Coherent; hide ExpectedLinks; hide References; hide Refers; hide ForeignSymbol; hide OnlySymbol; hide LinksOf;
    hide Classify; hide Asks; hide Plain; hide PackageFromSymbol;
    var l := Link(c.consumer, provider, source, BySymbol, "", PackageFromSymbol(symbol), symbol);
    DependenciesAreExact(c, References(c.own), l);
    forall r: Reference
      ensures r in References(c.own) <==> Refers(c.own, r)
      ensures l in LinksOf(c)(r) <==>
              && r.source == source && Plain(r.text) == symbol && ForeignSymbol(c, symbol)
              && provider.moduleId != c.consumer.moduleId && OnlySymbol(c, symbol, provider)
    {
      ReferencesAreExact(c.own, r);
      LinkMeans(c, r, l);
      ProvidedAsks(c, r);
      if r.source != Import {
        SymbolAsks(c, r);
        if Asks(c, r) { SymbolProvided(c, r, provider); }
      }
    }
    if RefersToSymbol(c.own, source, symbol) {
      var text: string :| Plain(text) == symbol && Refers(c.own, Reference(source, text));
      assert Reference(source, text) in References(c.own) <==> Refers(c.own, Reference(source, text));
    }
    if r :| r in References(c.own) && l in LinksOf(c)(r) {
      assert Refers(c.own, Reference(source, r.text));
    }
  }

  /** No dependency has any other form. */
  lemma DependencyForms(c: Catalog, refs: seq<Reference>, l: Link)
    requires Coherent(c) && l in ExpectedLinks(c, refs)
    ensures || l == Link(c.consumer, l.provider, Import, ByImportPath, l.importPath, "", "")
            || (l.source != Import
                && l == Link(c.consumer, l.provider, l.source, BySymbol, "", PackageFromSymbol(l.referencedSymbol), l.referencedSymbol))
  {
    hide Coherent; hide ExpectedLinks; hide LinksOf; hide Classify; hide Plain; hide PackageFromSymbol;
    DependenciesAreExact(c, refs, l);
    var r :| r in refs && l in LinksOf(c)(r);
    LinkMeans(c, r, l);
  }

  // Unresolved references

  lemma GapMeans(c: Catalog, r: Reference, g: Gap)
    ensures g in GapsOf(c)(r) <==>
            && ((Classify(c, r) == Missing && g.reason == ProviderNotFound)
                || (Classify(c, r) == Ambiguous && g.reason == AmbiguousProvider))
            && g == if r.source == Import then Gap(c.consumer, Import, r.text, "", "", g.reason)
                    else Gap(c.consumer, r.source, "", PackageFromSymbol(Plain(r.text)), Plain(r.text), g.reason)
  {
    hide Classify; hide Plain; hide NormalizeSymbol; hide PackageFromSymbol;
    PlainIsNormalized(r.text);
  }

  /** The unresolved imports: those that no provider row has, or more than one. */
  lemma ImportGaps(c: Catalog, path: string, reason: UnresolvedReason)
    ensures Gap(c.consumer, Import, path, "", "", reason) in ExpectedGaps(c, References(c.own)) <==>
            && ImportsPath(c.own, path) && ForeignPath(c, path)
            && (if reason == ProviderNotFound then NoFile(c, path)
                else !NoFile(c, path) && forall provider: VersionRef :: !OnlyFile(c, path, provider))
  {
    hide References; hide ImportsPath; hide ForeignPath; hide OnlyFile; hide NoFile; hide GapsOf; hide FlatMap;
    hide Classify; hide Asks; hide Plain; hide PackageFromSymbol;
    var g, r := Gap(c.consumer, Import, path, "", "", reason), Reference(Import, path);
    FlatMapMembers(References(c.own), GapsOf(c), g);
    ReferencesAreExact(c.own, r);
    ImportAsks(c, path);
    GapMeans(c, r, g);
    forall q: Reference | g in GapsOf(c)(q)
      ensures q == r
    {
      GapMeans(c, q, g);
    }
    ProvidedAsks(c, r);
    if Asks(c, r) {
      forall provider: VersionRef
        ensures Classify(c, r) == Provided(provider) <==> OnlyFile(c, path, provider)
        ensures Classify(c, r) == Missing <==> NoFile(c, path)
      {
        ImportProvided(c, path, provider);
      }
      ImportProvided(c, path, c.consumer);
    }
  }

  /** None or several rows for a symbol that needs one. */
  ghost predicate SymbolGap(c: Catalog, symbol: string, reason: UnresolvedReason) {
    && ForeignSymbol(c, symbol)
    && if reason == ProviderNotFound then NoSymbol(c, symbol)
       else !NoSymbol(c, symbol) && forall provider: VersionRef :: !OnlySymbol(c, symbol, provider)
  }

  /** The unresolved types: those that no provider row has, or more than one. */
  lemma SymbolGaps(c: Catalog, source: Source, symbol: string, reason: UnresolvedReason)
    requires source != Import
    ensures Gap(c.consumer, source, "", PackageFromSymbol(symbol), symbol, reason) in ExpectedGaps(c, References(c.own)) <==>
            RefersToSymbol(c.own, source, symbol) && SymbolGap(c, symbol, reason)
  {
    hide References; hide Refers; hide SymbolGap; hide GapsOf; hide FlatMap;
    hide Classify; hide Asks; hide Plain; hide PackageFromSymbol;
    var g := Gap(c.consumer, source, "", PackageFromSymbol(symbol), symbol, reason);
    FlatMapMembers(References(c.own), GapsOf(c), g);
    forall r: Reference
      ensures r in References(c.own) <==> Refers(c.own, r)
      ensures g in GapsOf(c)(r) <==> r.source == source && Plain(r.text) == symbol && SymbolGap(c, symbol, reason)
    {
      ReferencesAreExact(c.own, r);
      GapMeans(c, r, g);
      if r.source == source && Plain(r.text) == symbol { ReferenceGap(c, r, reason); }
    }
    if RefersToSymbol(c.own, source, symbol) {
      var text: string :| Plain(text) == symbol && Refers(c.own, Reference(source, text));
      assert Reference(source, text) in References(c.own) <==> Refers(c.own, Reference(source, text));
    }
    if r :| r in References(c.own) && g in GapsOf(c)(r) {
      assert Refers(c.own, Reference(source, r.text));
    }
  }

  lemma ReferenceGap(c: Catalog, r: Reference, reason: UnresolvedReason)
    requires r.source != Import
    ensures SymbolGap(c, Plain(r.text), reason) <==>
            (Classify(c, r) == Missing && reason == ProviderNotFound) || (Classify(c, r) == Ambiguous && reason == AmbiguousProvider)
  {
    hide ForeignSymbol; hide OnlySymbol; hide NoSymbol; hide Classify; hide Asks; hide Plain;
    SymbolAsks(c, r);
    ProvidedAsks(c, r);
    if Asks(c, r) {
      forall provider: VersionRef
        ensures Classify(c, r) == Provided(provider) <==> OnlySymbol(c, Plain(r.text), provider)
        ensures Classify(c, r) == Missing <==> NoSymbol(c, Plain(r.text))
      {
        SymbolProvided(c, r, provider);
      }
      SymbolProvided(c, r, c.consumer);
    }
  }
}
