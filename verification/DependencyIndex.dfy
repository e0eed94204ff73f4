/** The provider index and the module's own names, as the resolver builds them. */
module DependencyIndex {
  import opened Text
  import opened Sequences
  import opened DescriptorMetadata
  import opened DependencyReferences

  // Own names

  function EnumSymbols(enums: seq<ProtoEnum>): set<string> {
    set e | e in enums :: NormalizeSymbol(e.fullName)
  }

  function ForestSymbols(messages: seq<ProtoMessage>): set<string> {
    if messages == [] then {}
    else
      var last := messages[|messages| - 1];
      ForestSymbols(messages[..|messages| - 1]) +
      {NormalizeSymbol(last.fullName)} + ForestSymbols(last.messages) + EnumSymbols(last.enums)
  }

  function ServiceSymbols(services: seq<ProtoService>): set<string> {
    set s | s in services :: NormalizeSymbol(s.fullName)
  }

  function FileSymbols(file: ProtoFile): set<string> {
    ServiceSymbols(file.services) + ForestSymbols(file.messages) + EnumSymbols(file.enums)
  }

  function OwnFiles(files: Metadata): set<string> { set file | file in files :: file.path }

  function OwnSymbols(files: Metadata): set<string> {
    if files == [] then {} else OwnSymbols(files[..|files| - 1]) + FileSymbols(files[|files| - 1])
  }

  lemma ForestDeclaresSnoc(messages: seq<ProtoMessage>, symbol: string)
    requires messages != []
    ensures ForestDeclares(messages, symbol) <==>
            ForestDeclares(messages[..|messages| - 1], symbol) || MessageDeclares(messages[|messages| - 1], symbol)
  {
    hide MessageDeclares;
    var init := messages[..|messages| - 1];
    if i :| 0 <= i < |messages| && MessageDeclares(messages[i], symbol) {
      assert i < |init| ==> init[i] == messages[i];
    }
    if i :| 0 <= i < |init| && MessageDeclares(init[i], symbol) {
      assert messages[i] == init[i];
    }
  }

  lemma EnumSymbolsDeclared(enums: seq<ProtoEnum>, symbol: string)
    ensures symbol in EnumSymbols(enums) <==> EnumDeclares(enums, symbol)
  {
    hide NormalizeSymbol;
  }

  lemma {:induction false} ForestSymbolsDeclared(messages: seq<ProtoMessage>, symbol: string)
    ensures symbol in ForestSymbols(messages) <==> ForestDeclares(messages, symbol)
    decreases messages
  {
    hide NormalizeSymbol; hide EnumSymbols; hide EnumDeclares; hide ForestDeclares;
    if messages == [] {
      NoneDeclared(symbol);
    } else {
      var init, last := messages[..|messages| - 1], messages[|messages| - 1];
      ForestDeclaresSnoc(messages, symbol);
      ForestSymbolsDeclared(init, symbol);
      ForestSymbolsDeclared(last.messages, symbol);
      EnumSymbolsDeclared(last.enums, symbol);
    }
  }

  lemma NoneDeclared(symbol: string)
    ensures !ForestDeclares([], symbol) && !DeclaresSymbol([], symbol)
  {}

  lemma FileSymbolsDeclared(file: ProtoFile, symbol: string)
    ensures symbol in FileSymbols(file) <==> FileDeclares(file, symbol)
  {
    hide NormalizeSymbol; hide EnumSymbols; hide EnumDeclares; hide ForestDeclares; hide ForestSymbols;
    ForestSymbolsDeclared(file.messages, symbol);
    EnumSymbolsDeclared(file.enums, symbol);
  }

  lemma {:induction false} OwnSymbolsDeclared(files: Metadata, symbol: string)
    ensures symbol in OwnSymbols(files) <==> DeclaresSymbol(files, symbol)
  {
    hide FileSymbols; hide FileDeclares;
    if files != [] {
      var init, last := files[..|files| - 1], files[|files| - 1];
      OwnSymbolsDeclared(init, symbol);
      FileSymbolsDeclared(last, symbol);
      assert files == init + [last];
    }
  }

  lemma OwnFilesDeclared(files: Metadata, path: string)
    ensures path in OwnFiles(files) <==> DeclaresFile(files, path)
  {}

  method AddEnumSymbols(symbols: set<string>, enums: seq<ProtoEnum>) returns (r: set<string>)
    ensures r == symbols + EnumSymbols(enums)
  {
    r := symbols;
    for i := 0 to |enums|
      invariant r == symbols + EnumSymbols(enums[..i])
    {
      r := r + {NormalizeSymbol(enums[i].fullName)};
      assert enums[..i + 1] == enums[..i] + [enums[i]];
    }
    assert enums[..|enums|] == enums;
  }

  lemma ForestSymbolsSnoc(messages: seq<ProtoMessage>, m: ProtoMessage)
    ensures ForestSymbols([]) == {}
    ensures ForestSymbols(messages + [m]) == ForestSymbols(messages) + ForestSymbols([m])
    ensures ForestSymbols([m]) == {NormalizeSymbol(m.fullName)} + ForestSymbols(m.messages) + EnumSymbols(m.enums)
  {
    assert (messages + [m])[..|messages|] == messages;
    assert [m][..0] == [];
  }

  method AddMessageSymbols(symbols: set<string>, m: ProtoMessage) returns (r: set<string>)
    ensures r == symbols + ForestSymbols([m])
    decreases m
  {
    hide ForestSymbols; hide EnumSymbols; hide NormalizeSymbol;
    ForestSymbolsSnoc([], m);
    r := symbols + {NormalizeSymbol(m.fullName)};
    for i := 0 to |m.messages|
      invariant r == symbols + {NormalizeSymbol(m.fullName)} + ForestSymbols(m.messages[..i])
    {
      r := AddMessageSymbols(r, m.messages[i]);
      assert m.messages[..i + 1] == m.messages[..i] + [m.messages[i]];
      ForestSymbolsSnoc(m.messages[..i], m.messages[i]);
    }
    assert m.messages[..|m.messages|] == m.messages;
    r := AddEnumSymbols(r, m.enums);
  }

  method AddServiceSymbols(symbols: set<string>, services: seq<ProtoService>) returns (r: set<string>)
    ensures r == symbols + ServiceSymbols(services)
  {
    r := symbols;
    for i := 0 to |services|
      invariant r == symbols + ServiceSymbols(services[..i])
    {
      r := r + {NormalizeSymbol(services[i].fullName)};
      assert services[..i + 1] == services[..i] + [services[i]];
    }
    assert services[..|services|] == services;
  }

  method AddForestSymbols(symbols: set<string>, messages: seq<ProtoMessage>) returns (r: set<string>)
    ensures r == symbols + ForestSymbols(messages)
  {
    r := symbols;
    for i := 0 to |messages|
      invariant r == symbols + ForestSymbols(messages[..i])
    {
      r := AddMessageSymbols(r, messages[i]);
      assert messages[..i + 1] == messages[..i] + [messages[i]];
      ForestSymbolsSnoc(messages[..i], messages[i]);
    }
    assert messages[..|messages|] == messages;
  }

  /** The first pass: every file's own names, before any reference is resolved. */
  method CollectOwnNames(files: Metadata) returns (paths: set<string>, symbols: set<string>)
    ensures forall path: string :: path in paths <==> DeclaresFile(files, path)
    ensures forall symbol: string :: symbol in symbols <==> DeclaresSymbol(files, symbol)
  {
    hide ForestSymbols; hide ServiceSymbols; hide EnumSymbols; hide DeclaresSymbol; hide DeclaresFile;
    hide NormalizeSymbol;
    paths, symbols := {}, {};
    for i := 0 to |files|
      invariant paths == OwnFiles(files[..i])
      invariant symbols == OwnSymbols(files[..i])
    {
      paths := paths + {files[i].path};
      symbols := AddServiceSymbols(symbols, files[i].services);
      symbols := AddForestSymbols(symbols, files[i].messages);
      symbols := AddEnumSymbols(symbols, files[i].enums);
      assert files[..i + 1] == files[..i] + [files[i]];
      assert files[..i + 1][..i] == files[..i];
    }
    assert files[..|files|] == files;
    forall symbol: string
      ensures symbol in symbols <==> DeclaresSymbol(files, symbol)
    {
      OwnSymbolsDeclared(files, symbol);
    }
    forall path: string
      ensures path in paths <==> DeclaresFile(files, path)
    {
      OwnFilesDeclared(files, path);
    }
  }

  // Provider rows

  datatype PublishedVersion = PublishedVersion(moduleId: string, versionId: string)

  function ProviderVersionIds(latest: seq<PublishedVersion>, consumerModuleId: string): set<string> {
    set v | v in latest && v.moduleId != consumerModuleId :: v.versionId
  }

  function FileRowIn(ids: set<string>): ProviderFile -> bool { (f: ProviderFile) => f.provider.versionId in ids }

  function SymbolRowIn(ids: set<string>): ProviderSymbol -> bool { (s: ProviderSymbol) => s.provider.versionId in ids }

  /** The catalog rows: what the latest published versions of other modules provide. */
  function ProviderFiles(latest: seq<PublishedVersion>, consumerModuleId: string, rows: seq<ProviderFile>): seq<ProviderFile> {
    Filter(rows, FileRowIn(ProviderVersionIds(latest, consumerModuleId)))
  }

  function ProviderSymbols(latest: seq<PublishedVersion>, consumerModuleId: string, rows: seq<ProviderSymbol>): seq<ProviderSymbol> {
    Filter(rows, SymbolRowIn(ProviderVersionIds(latest, consumerModuleId)))
  }

  datatype ProviderIndex = ProviderIndex(files: map<string, seq<ProviderFile>>, symbols: map<string, seq<ProviderSymbol>>)

  function Lookup<T>(m: map<string, seq<T>>, key: string): seq<T> {
    if key in m then m[key] else []
  }

  /** The maps answer every lookup as a scan over the rows would, in row order. */
  ghost predicate Answers(index: ProviderIndex, files: seq<ProviderFile>, symbols: seq<ProviderSymbol>) {
    && (forall path: string :: Lookup(index.files, path) == Filter(files, FileAt(path)))
    && (forall symbol: string :: Lookup(index.symbols, symbol) == Filter(symbols, SymbolNamed(symbol)))
  }

  method IndexFiles(files: seq<ProviderFile>) returns (m: map<string, seq<ProviderFile>>)
    ensures forall path: string :: Lookup(m, path) == Filter(files, FileAt(path))
  {
    m := map[];
    for i := 0 to |files|
      invariant forall path: string :: Lookup(m, path) == Filter(files[..i], FileAt(path))
    {
      var file := files[i];
      ghost var before := m;
      m := m[file.path := Lookup(m, file.path) + [file]];
      assert files[..i + 1] == files[..i] + [file];
      forall path: string
        ensures Lookup(m, path) == Filter(files[..i + 1], FileAt(path))
      {
        FilterSnoc(files[..i], file, FileAt(path));
        assert Lookup(before, path) == Filter(files[..i], FileAt(path));
      }
    }
    assert files[..|files|] == files;
  }

  method IndexSymbols(symbols: seq<ProviderSymbol>) returns (m: map<string, seq<ProviderSymbol>>)
    ensures forall symbol: string :: Lookup(m, symbol) == Filter(symbols, SymbolNamed(symbol))
  {
    m := map[];
    for i := 0 to |symbols|
      invariant forall symbol: string :: Lookup(m, symbol) == Filter(symbols[..i], SymbolNamed(symbol))
    {
      var row := symbols[i];
      ghost var before := m;
      var key := NormalizeSymbol(row.fullName);
      m := m[key := Lookup(m, key) + [row]];
      assert symbols[..i + 1] == symbols[..i] + [row];
      forall symbol: string
        ensures Lookup(m, symbol) == Filter(symbols[..i + 1], SymbolNamed(symbol))
      {
        FilterSnoc(symbols[..i], row, SymbolNamed(symbol));
        assert Lookup(before, symbol) == Filter(symbols[..i], SymbolNamed(symbol));
      }
    }
    assert symbols[..|symbols|] == symbols;
  }

  method BuildProviderIndex(latest: seq<PublishedVersion>, consumerModuleId: string,
                            files: seq<ProviderFile>, symbols: seq<ProviderSymbol>)
    returns (index: ProviderIndex)
    ensures Answers(index, ProviderFiles(latest, consumerModuleId, files), ProviderSymbols(latest, consumerModuleId, symbols))
  {
    var ids: set<string> := {};
    for i := 0 to |latest|
      invariant ids == ProviderVersionIds(latest[..i], consumerModuleId)
    {
      assert latest[..i + 1] == latest[..i] + [latest[i]];
      if latest[i].moduleId == consumerModuleId {
        continue;
      }
      ids := ids + {latest[i].versionId};
    }
    assert latest[..|latest|] == latest;
    var fileMap := IndexFiles(Filter(files, FileRowIn(ids)));
    var symbolMap := IndexSymbols(Filter(symbols, SymbolRowIn(ids)));
    index := ProviderIndex(fileMap, symbolMap);
  }
}
