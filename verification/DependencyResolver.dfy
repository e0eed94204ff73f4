/** The resolver: two passes over the metadata against the provider index. */
module DependencyResolver {
  import opened Wrappers
  import opened Text
  import opened Sequences
  import opened DescriptorMetadata
  import opened DependencyReferences
  import opened DependencyIndex

  type Time = int

  datatype Dependency = Dependency(id: nat, link: Link, createdAt: Time)

  datatype UnresolvedDependency = UnresolvedDependency(id: nat, gap: Gap, createdAt: Time)

  datatype Resolved = Resolved(dependencies: seq<Dependency>, unresolved: seq<UnresolvedDependency>)

  datatype ResolveError = IdGenerationFailed

  function LinkOf(d: Dependency): Link { d.link }

  function GapOf(u: UnresolvedDependency): Gap { u.gap }

  /** How many ids resolving these references takes. */
  function IdsNeeded(c: Catalog, refs: seq<Reference>): nat {
    |ExpectedLinks(c, refs)| + |ExpectedGaps(c, refs)|
  }

  lemma {:induction false} IdsNeededGrows(c: Catalog, refs: seq<Reference>, more: seq<Reference>)
    ensures IdsNeeded(c, refs) <= IdsNeeded(c, refs + more)
  {
    hide ExpectedLinks; hide ExpectedGaps;
    if more == [] {
      assert refs + more == refs;
    } else {
      var init, last := more[..|more| - 1], more[|more| - 1];
      IdsNeededGrows(c, refs, init);
      assert refs + more == (refs + init) + [last];
      ExpectedSnoc(c, refs + init, last);
    }
  }

  /** Ids are different and issued; every row has the time of the run. */
  predicate RowsInOrder(dependencies: seq<Dependency>, now: Time, issued: nat) {
    && (forall d | d in dependencies :: d.id < issued && d.createdAt == now)
    && (forall i, j | 0 <= i < j < |dependencies| :: dependencies[i].id < dependencies[j].id)
  }

  predicate GapsInOrder(unresolved: seq<UnresolvedDependency>, now: Time, issued: nat) {
    && (forall u | u in unresolved :: u.id < issued && u.createdAt == now)
    && (forall i, j | 0 <= i < j < |unresolved| :: unresolved[i].id < unresolved[j].id)
  }

  lemma LinksSnoc(dependencies: seq<Dependency>, d: Dependency)
    ensures Map(dependencies + [d], LinkOf) == Map(dependencies, LinkOf) + [d.link]
  {
    MapConcat(dependencies, [d], LinkOf);
    assert Map([d], LinkOf) == [d.link];
  }

  lemma GapsSnoc(unresolved: seq<UnresolvedDependency>, u: UnresolvedDependency)
    ensures Map(unresolved + [u], GapOf) == Map(unresolved, GapOf) + [u.gap]
  {
    MapConcat(unresolved, [u], GapOf);
    assert Map([u], GapOf) == [u.gap];
  }

  /** What one run of the resolver accumulates. */
  class Resolution {
    const consumer: VersionRef
    const now: Time
    const index: ProviderIndex
    const ownFiles: set<string>
    const ownSymbols: set<string>
    // the k-th request for an id fails
    const fails: nat -> bool
    ghost const catalog: Catalog

    var dependencies: seq<Dependency>
    var unresolved: seq<UnresolvedDependency>
    var seen: set<string>
    var issued: nat

    ghost predicate Answering() {
      && catalog.consumer == consumer
      && Answers(index, catalog.files, catalog.symbols)
      && (forall path: string :: path in ownFiles <==> DeclaresFile(catalog.own, path))
      && (forall symbol: string :: symbol in ownSymbols <==> DeclaresSymbol(catalog.own, symbol))
    }

    ghost predicate Accounted()
      reads this
    {
      && seen == Keys(Map(dependencies, LinkOf))
      && issued == |dependencies| + |unresolved|
      && (forall k: nat | k < issued :: !fails(k))
      && RowsInOrder(dependencies, now, issued)
      && GapsInOrder(unresolved, now, issued)
    }

    /** The references so far are resolved as they must be. */
    ghost predicate Done(refs: seq<Reference>)
      reads this
    {
      && Answering()
      && Accounted()
      && Map(dependencies, LinkOf) == ExpectedLinks(catalog, refs)
      && Map(unresolved, GapOf) == ExpectedGaps(catalog, refs)
    }

    /** An id needed for these references could not be had. */
    ghost predicate Starved(refs: seq<Reference>) {
      exists k: nat :: k < IdsNeeded(catalog, refs) && fails(k)
    }

    constructor (consumer: VersionRef, now: Time, index: ProviderIndex, ownFiles: set<string>, ownSymbols: set<string>,
                 fails: nat -> bool, ghost catalog: Catalog)
      requires catalog.consumer == consumer && Answers(index, catalog.files, catalog.symbols)
      requires forall path: string :: path in ownFiles <==> DeclaresFile(catalog.own, path)
      requires forall symbol: string :: symbol in ownSymbols <==> DeclaresSymbol(catalog.own, symbol)
      ensures this.catalog == catalog && this.fails == fails && this.now == now && Done([])
    {
      this.consumer, this.now, this.index, this.ownFiles, this.ownSymbols := consumer, now, index, ownFiles, ownSymbols;
      this.fails, this.catalog := fails, catalog;
      dependencies, unresolved, seen, issued := [], [], {}, 0;
    }

    method NewId() returns (id: Option<nat>)
      modifies this`issued
      ensures id.None? <==> fails(old(issued))
      ensures id.None? ==> issued == old(issued)
      ensures id.Some? ==> id.value == old(issued) && issued == old(issued) + 1
    {
      if fails(issued) {
        return None;
      }
      id := Some(issued);
      issued := issued + 1;
    }

    method AddDependency(provider: VersionRef, source: Source, reason: ResolutionReason, importPath: string,
                         referencedPackage: string, referencedSymbol: string)
      returns (ok: bool)
      requires Accounted()
      modifies this
      ensures unresolved == old(unresolved)
      ensures var l := Link(consumer, provider, source, reason, importPath, referencedPackage, referencedSymbol);
              var skipped := provider.moduleId == consumer.moduleId || KeyOf(l) in old(seen);
              && ok == (skipped || !fails(old(issued)))
              && (ok ==> Accounted())
              && (ok ==> Map(dependencies, LinkOf) == old(Map(dependencies, LinkOf)) + if skipped then [] else [l])
              && (skipped ==> issued == old(issued))
    {
      hide Keys; hide Map; hide DependencyKey;
      if provider.moduleId == consumer.moduleId {
        return true;
      }
      var key := DependencyKey(consumer.versionId, provider.versionId, source, importPath, referencedSymbol);
      if key in seen {
        return true;
      }
      seen := seen + {key};
      var id := NewId();
      if id.None? {
        return false;
      }
      var d := Dependency(id.value, Link(consumer, provider, source, reason, importPath, referencedPackage, referencedSymbol), now);
      LinksSnoc(dependencies, d);
      KeysSnoc(Map(dependencies, LinkOf), d.link);
      dependencies := dependencies + [d];
      return true;
    }

    method AddUnresolved(source: Source, importPath: string, referencedPackage: string, referencedSymbol: string,
                         reason: UnresolvedReason)
      returns (ok: bool)
      requires Accounted()
      modifies this
      ensures dependencies == old(dependencies)
      ensures ok == !fails(old(issued))
      ensures ok ==> Accounted()
      ensures ok ==> Map(unresolved, GapOf) ==
                     old(Map(unresolved, GapOf)) +
                     [Gap(consumer, source, importPath, referencedPackage, referencedSymbol, reason)]
    {
      var id := NewId();
      if id.None? {
        return false;
      }
      var u := UnresolvedDependency(id.value, Gap(consumer, source, importPath, referencedPackage, referencedSymbol, reason), now);
      GapsSnoc(unresolved, u);
      unresolved := unresolved + [u];
      return true;
    }

    method ResolveImport(i: ProtoImport, ghost refs: seq<Reference>) returns (ok: bool)
      requires Done(refs)
      modifies this
      ensures ok ==> Done(refs + [ImportReference(i)])
      ensures !ok ==> Starved(refs + [ImportReference(i)])
    {
      ghost var r := ImportReference(i);
      ExpectedSnoc(catalog, refs, r);
      hide ExpectedLinks; hide ExpectedGaps; hide IsWellKnownProtoImport; hide DeclaresFile; hide Keys; hide KeyOf;
      ghost var before := IdsNeeded(catalog, refs);
      if IsWellKnownProtoImport(i.path) {
        return true;
      }
      if i.path in ownFiles {
        return true;
      }
      var matches := Lookup(index.files, i.path);
      if |matches| == 0 {
        ok := AddUnresolved(Import, i.path, "", "", ProviderNotFound);
      } else if |matches| == 1 {
        ok := AddDependency(matches[0].provider, Import, ByImportPath, i.path, "", "");
      } else {
        ok := AddUnresolved(Import, i.path, "", "", AmbiguousProvider);
      }
    }

    method ResolveSymbolReference(source: Source, symbol: string, ghost refs: seq<Reference>) returns (ok: bool)
      requires Done(refs) && source != Import
      modifies this
      ensures ok ==> Done(refs + [Reference(source, symbol)])
      ensures !ok ==> Starved(refs + [Reference(source, symbol)])
    {
      ghost var r := Reference(source, symbol);
      ExpectedSnoc(catalog, refs, r);
      hide ExpectedLinks; hide ExpectedGaps; hide IsWellKnownProtoSymbol; hide DeclaresSymbol; hide Keys; hide KeyOf;
      hide NormalizeSymbol; hide PackageFromSymbol;
      var normalized := NormalizeSymbol(symbol);
      if normalized == "" || IsWellKnownProtoSymbol(normalized) {
        return true;
      }
      if normalized in ownSymbols {
        return true;
      }
      var matches := Lookup(index.symbols, normalized);
      var referencedPackage := PackageFromSymbol(normalized);
      if |matches| == 0 {
        ok := AddUnresolved(source, "", referencedPackage, normalized, ProviderNotFound);
      } else if |matches| == 1 {
        ok := AddDependency(matches[0].provider, source, BySymbol, "", referencedPackage, normalized);
      } else {
        ok := AddUnresolved(source, "", referencedPackage, normalized, AmbiguousProvider);
      }
    }

    lemma StarvedGrows(refs: seq<Reference>, more: seq<Reference>)
      requires Starved(refs)
      ensures Starved(refs + more)
    {
      IdsNeededGrows(catalog, refs, more);
    }

    method ResolveImports(imports: seq<ProtoImport>, ghost refs: seq<Reference>) returns (ok: bool)
      requires Done(refs)
      modifies this
      ensures ok ==> Done(refs + Map(imports, ImportReference))
      ensures !ok ==> Starved(refs + Map(imports, ImportReference))
    {
      hide Done; hide Starved; hide Map;
      ghost var all := Map(imports, ImportReference);
      assert refs + all[..0] == refs;
      for i := 0 to |imports|
        invariant Done(refs + all[..i])
      {
        ok := ResolveImport(imports[i], refs + all[..i]);
        assert refs + all[..i] + [all[i]] == refs + all[..i + 1];
        if !ok {
          StarvedGrows(refs + all[..i + 1], all[i + 1..]);
          assert refs + all[..i + 1] + all[i + 1..] == refs + all;
          return false;
        }
      }
      assert all[..|imports|] == all;
      ok := true;
    }

    method ResolveFields(fields: seq<ProtoField>, ghost refs: seq<Reference>) returns (ok: bool)
      requires Done(refs)
      modifies this
      ensures ok ==> Done(refs + Map(fields, FieldReference))
      ensures !ok ==> Starved(refs + Map(fields, FieldReference))
    {
      hide Done; hide Starved; hide Map; hide TrimSpace;
      ghost var all := Map(fields, FieldReference);
      assert refs + all[..0] == refs;
      for i := 0 to |fields|
        invariant Done(refs + all[..i])
      {
        assert refs + all[..i] + [all[i]] == refs + all[..i + 1];
        if TrimSpace(fields[i].typeName) == "" {
          BlankField(refs + all[..i], fields[i]);
          continue;
        }
        ok := ResolveSymbolReference(TypeReference, fields[i].typeName, refs + all[..i]);
        if !ok {
          StarvedGrows(refs + all[..i + 1], all[i + 1..]);
          assert refs + all[..i + 1] + all[i + 1..] == refs + all;
          return false;
        }
      }
      assert all[..|fields|] == all;
      ok := true;
    }

    /** Skipping a field without a type is the same as resolving it. */
    lemma BlankField(refs: seq<Reference>, f: ProtoField)
      requires Done(refs) && TrimSpace(f.typeName) == ""
      ensures Done(refs + [FieldReference(f)])
    {
      ExpectedSnoc(catalog, refs, FieldReference(f));
      hide ExpectedLinks; hide ExpectedGaps; hide DeclaresSymbol; hide ProvidersOf;
    }

    /** A message's field types, then those of everything nested in it. */
    method ResolveMessageReferences(m: ProtoMessage, ghost refs: seq<Reference>) returns (ok: bool)
      requires Done(refs)
      modifies this
      ensures ok ==> Done(refs + ForestReferences([m]))
      ensures !ok ==> Starved(refs + ForestReferences([m]))
      decreases m, 1
    {
      hide Done; hide Starved; hide Map; hide ForestReferences;
      ForestReferencesSnoc([], m);
      ghost var own := Map(m.fields, FieldReference);
      ok := ResolveFields(m.fields, refs);
      if !ok {
        StarvedGrows(refs + own, ForestReferences(m.messages));
        assert refs + own + ForestReferences(m.messages) == refs + ForestReferences([m]);
        return false;
      }
      ok := ResolveForest(m.messages, refs + own);
      assert refs + own + ForestReferences(m.messages) == refs + ForestReferences([m]);
    }

    method ResolveForest(messages: seq<ProtoMessage>, ghost refs: seq<Reference>) returns (ok: bool)
      requires Done(refs)
      modifies this
      ensures ok ==> Done(refs + ForestReferences(messages))
      ensures !ok ==> Starved(refs + ForestReferences(messages))
      decreases messages, 0
    {
      hide Done; hide Starved; hide Map; hide ForestReferences;
      NoForestReferences();
      assert refs + [] == refs;
      for i := 0 to |messages|
        invariant Done(refs + ForestReferences(messages[..i]))
      {
        assert messages[..i + 1] == messages[..i] + [messages[i]];
        ForestReferencesSnoc(messages[..i], messages[i]);
        ghost var before := refs + ForestReferences(messages[..i]);
        ok := ResolveMessageReferences(messages[i], before);
        assert before + ForestReferences([messages[i]]) == refs + ForestReferences(messages[..i + 1]);
        if !ok {
          ForestReferencesSplit(messages, i + 1);
          ghost var rest := ForestReferences(messages)[|ForestReferences(messages[..i + 1])|..];
          StarvedGrows(refs + ForestReferences(messages[..i + 1]), rest);
          assert refs + ForestReferences(messages[..i + 1]) + rest == refs + ForestReferences(messages);
          return false;
        }
      }
      assert messages[..|messages|] == messages;
      ok := true;
    }

    method ResolveMethods(methods: seq<ProtoMethod>, ghost refs: seq<Reference>) returns (ok: bool)
      requires Done(refs)
      modifies this
      ensures ok ==> Done(refs + FlatMap(methods, MethodReferences))
      ensures !ok ==> Starved(refs + FlatMap(methods, MethodReferences))
    {
      hide Done; hide Starved;
      assert refs + [] == refs;
      for i := 0 to |methods|
        invariant Done(refs + FlatMap(methods[..i], MethodReferences))
      {
        FlatMapSplit(methods, i, MethodReferences);
        ghost var rest := FlatMap(methods[i + 1..], MethodReferences);
        ok := ResolveMethod(methods[i], refs + FlatMap(methods[..i], MethodReferences), rest);
        assert refs + FlatMap(methods[..i], MethodReferences) + MethodReferences(methods[i]) ==
               refs + FlatMap(methods[..i + 1], MethodReferences);
        if !ok {
          assert refs + FlatMap(methods[..i], MethodReferences) + MethodReferences(methods[i]) + rest ==
                 refs + FlatMap(methods, MethodReferences);
          return false;
        }
      }
      assert methods[..|methods|] == methods;
      ok := true;
    }

    /** Input type, then output type. */
    method ResolveMethod(m: ProtoMethod, ghost refs: seq<Reference>, ghost rest: seq<Reference>) returns (ok: bool)
      requires Done(refs)
      modifies this
      ensures ok ==> Done(refs + MethodReferences(m))
      ensures !ok ==> Starved(refs + MethodReferences(m) + rest)
    {
      hide Done; hide Starved;
      ghost var input := Reference(MethodReference, m.inputType);
      ghost var output := Reference(MethodReference, m.outputType);
      assert MethodReferences(m) == [input] + [output];
      ok := ResolveSymbolReference(MethodReference, m.inputType, refs);
      if !ok {
        StarvedGrows(refs + [input], [output] + rest);
        assert refs + [input] + ([output] + rest) == refs + MethodReferences(m) + rest;
        return false;
      }
      ok := ResolveSymbolReference(MethodReference, m.outputType, refs + [input]);
      assert refs + [input] + [output] == refs + MethodReferences(m);
      if !ok {
        StarvedGrows(refs + MethodReferences(m), rest);
      }
    }

    method ResolveService(service: ProtoService, ghost refs: seq<Reference>) returns (ok: bool)
      requires Done(refs)
      modifies this
      ensures ok ==> Done(refs + ServiceReferences(service))
      ensures !ok ==> Starved(refs + ServiceReferences(service))
    {
      hide Done; hide Starved;
      ok := ResolveMethods(service.methods, refs);
    }

    method ResolveServices(services: seq<ProtoService>, ghost refs: seq<Reference>) returns (ok: bool)
      requires Done(refs)
      modifies this
      ensures ok ==> Done(refs + FlatMap(services, ServiceReferences))
      ensures !ok ==> Starved(refs + FlatMap(services, ServiceReferences))
    {
      hide Done; hide Starved; hide ServiceReferences;
      assert refs + [] == refs;
      for i := 0 to |services|
        invariant Done(refs + FlatMap(services[..i], ServiceReferences))
      {
        FlatMapSplit(services, i, ServiceReferences);
        ghost var before := refs + FlatMap(services[..i], ServiceReferences);
        ok := ResolveService(services[i], before);
        assert before + ServiceReferences(services[i]) == refs + FlatMap(services[..i + 1], ServiceReferences);
        if !ok {
          ghost var rest := FlatMap(services[i + 1..], ServiceReferences);
          StarvedGrows(before + ServiceReferences(services[i]), rest);
          assert before + ServiceReferences(services[i]) + rest == refs + FlatMap(services, ServiceReferences);
          return false;
        }
      }
      assert services[..|services|] == services;
      ok := true;
    }

    method ResolveFile(file: ProtoFile, ghost refs: seq<Reference>) returns (ok: bool)
      requires Done(refs)
      modifies this
      ensures ok ==> Done(refs + FileReferences(file))
      ensures !ok ==> Starved(refs + FileReferences(file))
    {
      hide Done; hide Starved; hide Map; hide ForestReferences; hide FlatMap;
      ghost var a := Map(file.imports, ImportReference);
      ghost var b := ForestReferences(file.messages);
      ghost var c := FlatMap(file.services, ServiceReferences);
      assert refs + a + (b + c) == refs + FileReferences(file);
      assert refs + a + b + c == refs + FileReferences(file);
      ok := ResolveImports(file.imports, refs);
      if !ok {
        StarvedGrows(refs + a, b + c);
        return false;
      }
      ok := ResolveForest(file.messages, refs + a);
      if !ok {
        StarvedGrows(refs + a + b, c);
        return false;
      }
      ok := ResolveServices(file.services, refs + a + b);
    }

    method ResolveFiles(files: Metadata) returns (ok: bool)
      requires Done([])
      modifies this
      ensures ok ==> Done(References(files))
      ensures !ok ==> Starved(References(files))
    {
      hide Done; hide Starved; hide FileReferences;
      for i := 0 to |files|
        invariant Done(References(files[..i]))
      {
        FlatMapSplit(files, i, FileReferences);
        ok := ResolveFile(files[i], References(files[..i]));
        if !ok {
          StarvedGrows(References(files[..i + 1]), References(files[i + 1..]));
          return false;
        }
      }
      assert files[..|files|] == files;
      ok := true;
    }
  }

  lemma ForestReferencesSnoc(messages: seq<ProtoMessage>, m: ProtoMessage)
    ensures ForestReferences([m]) == Map(m.fields, FieldReference) + ForestReferences(m.messages)
    ensures ForestReferences(messages + [m]) == ForestReferences(messages) + ForestReferences([m])
  {
    assert (messages + [m])[..|messages|] == messages;
    assert [m][..0] == [];
    assert ForestReferences([m]) == [] + (Map(m.fields, FieldReference) + ForestReferences(m.messages));
  }

  lemma NoForestReferences()
    ensures ForestReferences([]) == []
  {}

  lemma {:induction false} ForestReferencesSplit(messages: seq<ProtoMessage>, i: nat)
    requires i <= |messages|
    ensures ForestReferences(messages[..i]) <= ForestReferences(messages)
  {
    if i < |messages| {
      var init := messages[..|messages| - 1];
      ForestReferencesSplit(init, i);
      assert init[..i] == messages[..i];
    } else {
      assert messages[..i] == messages;
    }
  }

  /** Resolves every reference of the metadata, own names first. It fails exactly when an id
      it needs cannot be had; otherwise the dependencies and the unresolved references are
      the ones the classification demands, in the order the metadata refers to them. */
  method ResolveDependencies(consumer: VersionRef, metadata: Metadata, latest: seq<PublishedVersion>,
                             fileRows: seq<ProviderFile>, symbolRows: seq<ProviderSymbol>, fails: nat -> bool, now: Time)
    returns (r: Result<Resolved, ResolveError>)
    ensures var c := Catalog(consumer, metadata, ProviderFiles(latest, consumer.moduleId, fileRows),
                             ProviderSymbols(latest, consumer.moduleId, symbolRows));
            var refs := References(metadata);
            && (r.Success? <==> forall k: nat | k < IdsNeeded(c, refs) :: !fails(k))
            && (r.Success? ==>
                  && Map(r.value.dependencies, LinkOf) == ExpectedLinks(c, refs)
                  && Map(r.value.unresolved, GapOf) == ExpectedGaps(c, refs)
                  && RowsInOrder(r.value.dependencies, now, IdsNeeded(c, refs))
                  && GapsInOrder(r.value.unresolved, now, IdsNeeded(c, refs)))
  {
    hide Filter; hide References; hide ExpectedLinks; hide ExpectedGaps; hide DeclaresFile; hide DeclaresSymbol; hide Map;
    var index := BuildProviderIndex(latest, consumer.moduleId, fileRows, symbolRows);
    var paths, symbols := CollectOwnNames(metadata);
    ghost var c := Catalog(consumer, metadata, ProviderFiles(latest, consumer.moduleId, fileRows),
                           ProviderSymbols(latest, consumer.moduleId, symbolRows));
    var resolution := new Resolution(consumer, now, index, paths, symbols, fails, c);
    var ok := resolution.ResolveFiles(metadata);
    if !ok {
      return Failure(IdGenerationFailed);
    }
    r := Success(Resolved(resolution.dependencies, resolution.unresolved));
    assert |resolution.dependencies| + |resolution.unresolved| == IdsNeeded(c, References(metadata));
  }
}
