/** The references a module version makes, and what each of them is. */
module DependencyReferences {
  import opened Text
  import opened Sequences
  import opened DescriptorMetadata

  /** A module version, as dependency rows name it. */
  datatype VersionRef = VersionRef(moduleId: string, moduleName: string, versionId: string, version: string)

  datatype ProviderFile = ProviderFile(path: string, provider: VersionRef)

  datatype ProviderSymbol = ProviderSymbol(fullName: string, packageName: string, provider: VersionRef)

  datatype Source = Import | TypeReference | MethodReference

  datatype ResolutionReason = ByImportPath | BySymbol

  datatype UnresolvedReason = ProviderNotFound | AmbiguousProvider

  datatype Link = Link(
    consumer: VersionRef,
    provider: VersionRef,
    source: Source,
    reason: ResolutionReason,
    importPath: string,
    referencedPackage: string,
    referencedSymbol: string)

  datatype Gap = Gap(
    consumer: VersionRef,
    source: Source,
    importPath: string,
    referencedPackage: string,
    referencedSymbol: string,
    reason: UnresolvedReason)

  // Names

  function NormalizeSymbol(symbol: string): string {
    TrimPrefix(TrimSpace(symbol), ".")
  }

  predicate IsWellKnownProtoImport(path: string) {
    HasPrefix(TrimSpace(path), "google/protobuf/")
  }

  predicate IsWellKnownProtoSymbol(symbol: string) {
    HasPrefix(NormalizeSymbol(symbol), "google.protobuf.")
  }

  /** strings.LastIndex, with -1 for no dot. */
  function LastDot(s: string): (i: int)
    ensures -1 <= i < |s|
    ensures i == -1 ==> DotFree(s)
    ensures i >= 0 ==> s[i] == '.' && DotFree(s[i + 1..])
  {
    if s == "" then -1
    else if s[|s| - 1] == '.' then |s| - 1
    else
      var i := LastDot(s[..|s| - 1]);
      assert s[i + 1..] == s[..|s| - 1][i + 1..] + [s[|s| - 1]];
      i
  }

  function PackageFromSymbol(symbol: string): string {
    var normalized := NormalizeSymbol(symbol);
    var i := LastDot(normalized);
    if i <= 0 then "" else normalized[..i]
  }

  // References, in the order the metadata makes them

  datatype Reference = Reference(source: Source, text: string)

  function ImportReference(i: ProtoImport): Reference { Reference(Import, i.path) }

  function FieldReference(f: ProtoField): Reference { Reference(TypeReference, f.typeName) }

  function ForestReferences(messages: seq<ProtoMessage>): seq<Reference> {
    if messages == [] then []
    else
      var last := messages[|messages| - 1];
      ForestReferences(messages[..|messages| - 1]) + (Map(last.fields, FieldReference) + ForestReferences(last.messages))
  }

  function MethodReferences(m: ProtoMethod): seq<Reference> {
    [Reference(MethodReference, m.inputType), Reference(MethodReference, m.outputType)]
  }

  function ServiceReferences(s: ProtoService): seq<Reference> { FlatMap(s.methods, MethodReferences) }

  function FileReferences(file: ProtoFile): seq<Reference> {
    Map(file.imports, ImportReference) + ForestReferences(file.messages) + FlatMap(file.services, ServiceReferences)
  }

  function References(files: Metadata): seq<Reference> { FlatMap(files, FileReferences) }

  // The names the module version declares itself

  predicate EnumDeclares(enums: seq<ProtoEnum>, symbol: string) {
    exists e | e in enums :: NormalizeSymbol(e.fullName) == symbol
  }

  /** The message, or something declared in it at any depth, has this name. */
  predicate MessageDeclares(m: ProtoMessage, symbol: string)
    decreases m, 1
  {
    || NormalizeSymbol(m.fullName) == symbol
    || ForestDeclares(m.messages, symbol)
    || EnumDeclares(m.enums, symbol)
  }

  predicate ForestDeclares(messages: seq<ProtoMessage>, symbol: string)
    decreases messages, 0
  {
    exists i | 0 <= i < |messages| :: MessageDeclares(messages[i], symbol)
  }

  predicate FileDeclares(file: ProtoFile, symbol: string) {
    || (exists s | s in file.services :: NormalizeSymbol(s.fullName) == symbol)
    || ForestDeclares(file.messages, symbol)
    || EnumDeclares(file.enums, symbol)
  }

  predicate DeclaresFile(files: Metadata, path: string) {
    exists file | file in files :: file.path == path
  }

  predicate DeclaresSymbol(files: Metadata, symbol: string) {
    exists file | file in files :: FileDeclares(file, symbol)
  }

  // What a reference is

  /** Everything a resolution depends on: the consumer, its own files, and the files and
      symbols other modules provide. */
  datatype Catalog = Catalog(consumer: VersionRef, own: Metadata, files: seq<ProviderFile>, symbols: seq<ProviderSymbol>)

  datatype Class = Blank | WellKnown | Self | Missing | Ambiguous | Provided(provider: VersionRef)

  function FileAt(path: string): ProviderFile -> bool { (f: ProviderFile) => f.path == path }

  function SymbolNamed(symbol: string): ProviderSymbol -> bool {
    (s: ProviderSymbol) => NormalizeSymbol(s.fullName) == symbol
  }

  function FileProvider(f: ProviderFile): VersionRef { f.provider }

  function SymbolProvider(s: ProviderSymbol): VersionRef { s.provider }

  /** The providers a scan over all provider rows finds. */
  function ProvidersOf(c: Catalog, r: Reference): seq<VersionRef> {
    if r.source == Import then Map(Filter(c.files, FileAt(r.text)), FileProvider)
    else Map(Filter(c.symbols, SymbolNamed(NormalizeSymbol(r.text))), SymbolProvider)
  }

  predicate IsBlank(r: Reference) { r.source != Import && NormalizeSymbol(r.text) == "" }

  predicate IsWellKnown(r: Reference) {
    if r.source == Import then IsWellKnownProtoImport(r.text) else IsWellKnownProtoSymbol(NormalizeSymbol(r.text))
  }

  predicate IsSelf(c: Catalog, r: Reference) {
    if r.source == Import then DeclaresFile(c.own, r.text) else DeclaresSymbol(c.own, NormalizeSymbol(r.text))
  }

  function Classify(c: Catalog, r: Reference): Class {
    var providers := ProvidersOf(c, r);
    if IsBlank(r) then Blank
    else if IsWellKnown(r) then WellKnown
    else if IsSelf(c, r) then Self
    else if |providers| == 0 then Missing
    else if |providers| == 1 then Provided(providers[0])
    else Ambiguous
  }

  function ImportPathOf(r: Reference): string { if r.source == Import then r.text else "" }

  function SymbolOf(r: Reference): string { if r.source == Import then "" else NormalizeSymbol(r.text) }

  function PackageOf(r: Reference): string {
    if r.source == Import then "" else PackageFromSymbol(NormalizeSymbol(r.text))
  }

  function LinkTo(c: Catalog, r: Reference, provider: VersionRef): Link {
    Link(c.consumer, provider, r.source, if r.source == Import then ByImportPath else BySymbol,
         ImportPathOf(r), PackageOf(r), SymbolOf(r))
  }

  /** The links a reference gives rise to: one when exactly one row of another module
      provides it, none otherwise. */
  function LinksOf(c: Catalog): Reference -> seq<Link> {
    (r: Reference) =>
      match Classify(c, r)
      case Provided(provider) => if provider.moduleId == c.consumer.moduleId then [] else [LinkTo(c, r, provider)]
      case _ => []
  }

  function GapFor(c: Catalog, r: Reference, reason: UnresolvedReason): Gap {
    Gap(c.consumer, r.source, ImportPathOf(r), PackageOf(r), SymbolOf(r), reason)
  }

  function GapsOf(c: Catalog): Reference -> seq<Gap> {
    (r: Reference) =>
      match Classify(c, r)
      case Missing => [GapFor(c, r, ProviderNotFound)]
      case Ambiguous => [GapFor(c, r, AmbiguousProvider)]
      case _ => []
  }

  // Deduplication

  function SourceString(s: Source): string {
    match s
    case Import => "import"
    case TypeReference => "type_reference"
    case MethodReference => "method_reference"
  }

  const NUL := "\0"

  function DependencyKey(consumerVersionId: string, providerVersionId: string, source: Source, importPath: string,
                         referencedSymbol: string): string
  {
    consumerVersionId + NUL + providerVersionId + NUL + SourceString(source) + NUL + importPath + NUL + referencedSymbol
  }

  function KeyOf(l: Link): string {
    DependencyKey(l.consumer.versionId, l.provider.versionId, l.source, l.importPath, l.referencedSymbol)
  }

  function Keys(links: seq<Link>): set<string> { set l | l in links :: KeyOf(l) }

  /** The first link of each key, in order. */
  function FirstOfEachKey(links: seq<Link>): seq<Link> {
    if links == [] then []
    else
      var kept, last := FirstOfEachKey(links[..|links| - 1]), links[|links| - 1];
      if KeyOf(last) in Keys(kept) then kept else kept + [last]
  }

  /** What resolving a module version must produce. */
  function ExpectedLinks(c: Catalog, refs: seq<Reference>): seq<Link> { FirstOfEachKey(FlatMap(refs, LinksOf(c))) }

  function ExpectedGaps(c: Catalog, refs: seq<Reference>): seq<Gap> { FlatMap(refs, GapsOf(c)) }

  lemma KeysSnoc(links: seq<Link>, l: Link)
    ensures Keys(links + [l]) == Keys(links) + {KeyOf(l)}
  {
    assert (links + [l])[|links|] == l;
  }

  lemma FirstOfEachKeySnoc(links: seq<Link>, l: Link)
    ensures FirstOfEachKey(links + [l]) ==
            if KeyOf(l) in Keys(FirstOfEachKey(links)) then FirstOfEachKey(links) else FirstOfEachKey(links) + [l]
  {
    assert (links + [l])[..|links|] == links;
  }

  lemma AtMostOneLink(c: Catalog, r: Reference)
    ensures |LinksOf(c)(r)| <= 1
  {
    hide Classify;
  }

  /** One more reference adds what it gives rise to, unless its key was seen. */
  lemma ExpectedSnoc(c: Catalog, refs: seq<Reference>, r: Reference)
    ensures ExpectedGaps(c, refs + [r]) == ExpectedGaps(c, refs) + GapsOf(c)(r)
    ensures LinksOf(c)(r) == [] ==> ExpectedLinks(c, refs + [r]) == ExpectedLinks(c, refs)
    ensures LinksOf(c)(r) != [] ==>
              var l := LinksOf(c)(r)[0];
              ExpectedLinks(c, refs + [r]) ==
              if KeyOf(l) in Keys(ExpectedLinks(c, refs)) then ExpectedLinks(c, refs) else ExpectedLinks(c, refs) + [l]
  {
    hide Classify; hide FlatMap; hide Keys; hide KeyOf; hide FirstOfEachKey; hide LinksOf; hide GapsOf;
    FlatMapSnoc(refs, r, GapsOf(c));
    FlatMapSnoc(refs, r, LinksOf(c));
    AtMostOneLink(c, r);
    if LinksOf(c)(r) != [] {
      assert LinksOf(c)(r) == [LinksOf(c)(r)[0]];
      FirstOfEachKeySnoc(FlatMap(refs, LinksOf(c)), LinksOf(c)(r)[0]);
    } else {
      assert FlatMap(refs + [r], LinksOf(c)) == FlatMap(refs, LinksOf(c));
    }
  }
}
