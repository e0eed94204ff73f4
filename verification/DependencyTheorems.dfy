/** What the resolver's result means: an exact partition of the references, a deduplication
    that loses nothing, and independence of the file order. */
module DependencyTheorems {
  import opened Text
  import opened Sequences
  import opened DescriptorMetadata
  import opened DependencyReferences

  // The classification, in terms of the provider rows

  /** Row i provides what the reference asks for. */
  predicate ProvidesFile(c: Catalog, r: Reference, i: nat) {
    i < |c.files| && c.files[i].path == r.text
  }

  predicate ProvidesSymbol(c: Catalog, r: Reference, i: nat) {
    i < |c.symbols| && NormalizeSymbol(c.symbols[i].fullName) == NormalizeSymbol(r.text)
  }

  predicate Provides(c: Catalog, r: Reference, i: nat) {
    if r.source == Import then ProvidesFile(c, r, i) else ProvidesSymbol(c, r, i)
  }

  function RowProvider(c: Catalog, r: Reference, i: nat): VersionRef
    requires Provides(c, r, i)
  {
    if r.source == Import then c.files[i].provider else c.symbols[i].provider
  }

  predicate Asks(c: Catalog, r: Reference) {
    !IsBlank(r) && !IsWellKnown(r) && !IsSelf(c, r)
  }

  /** How many rows a filter keeps, and which one when it is the only one. */
  lemma {:induction false} FilterCounts<T>(s: seq<T>, keep: T -> bool)
    ensures |Filter(s, keep)| == 0 <==> forall i | 0 <= i < |s| :: !keep(s[i])
    ensures |Filter(s, keep)| <= 1 <==> forall i, j | 0 <= i < j < |s| :: !(keep(s[i]) && keep(s[j]))
    ensures |Filter(s, keep)| == 1 ==> exists i | 0 <= i < |s| :: keep(s[i]) && Filter(s, keep) == [s[i]]
  {
    if s != [] {
      var rest := s[1..];
      FilterCounts(rest, keep);
      assert forall i | 0 <= i < |rest| :: rest[i] == s[i + 1];
      assert forall i | 0 < i < |s| :: s[i] == rest[i - 1];
    }
  }

  lemma FilesCount(c: Catalog, r: Reference)
    requires r.source == Import
    ensures |ProvidersOf(c, r)| == 0 <==> forall i: nat :: !Provides(c, r, i)
    ensures |ProvidersOf(c, r)| <= 1 <==> forall i: nat, j: nat | i < j :: !(Provides(c, r, i) && Provides(c, r, j))
    ensures |ProvidersOf(c, r)| == 1 ==> exists i: nat :: Provides(c, r, i) && ProvidersOf(c, r)[0] == RowProvider(c, r, i)
  {
    hide Filter;
    FilterCounts(c.files, FileAt(r.text));
    var kept := Filter(c.files, FileAt(r.text));
    assert forall i | 0 <= i < |c.files| :: FileAt(r.text)(c.files[i]) == Provides(c, r, i);
    if |kept| == 1 {
      var i :| 0 <= i < |c.files| && FileAt(r.text)(c.files[i]) && kept == [c.files[i]];
      assert Provides(c, r, i) && ProvidersOf(c, r)[0] == RowProvider(c, r, i);
    }
  }

  lemma SymbolsCount(c: Catalog, r: Reference)
    requires r.source != Import
    ensures |ProvidersOf(c, r)| == 0 <==> forall i: nat :: !Provides(c, r, i)
    ensures |ProvidersOf(c, r)| <= 1 <==> forall i: nat, j: nat | i < j :: !(Provides(c, r, i) && Provides(c, r, j))
    ensures |ProvidersOf(c, r)| == 1 ==> exists i: nat :: Provides(c, r, i) && ProvidersOf(c, r)[0] == RowProvider(c, r, i)
  {
    hide Filter; hide NormalizeSymbol;
    var keep := SymbolNamed(NormalizeSymbol(r.text));
    FilterCounts(c.symbols, keep);
    var kept := Filter(c.symbols, keep);
    assert forall i | 0 <= i < |c.symbols| :: keep(c.symbols[i]) == Provides(c, r, i);
    if |kept| == 1 {
      var i :| 0 <= i < |c.symbols| && keep(c.symbols[i]) && kept == [c.symbols[i]];
      assert Provides(c, r, i) && ProvidersOf(c, r)[0] == RowProvider(c, r, i);
    }
  }

  /** A reference that asks for a provider is missing, uniquely provided or ambiguous
      according to how many rows of the catalog provide it: none, one, or two different
      ones. */
  lemma ClassifyCountsRows(c: Catalog, r: Reference)
    requires Asks(c, r)
    ensures Classify(c, r).Missing? <==> forall i: nat :: !Provides(c, r, i)
    ensures Classify(c, r).Ambiguous? <==> exists i: nat, j: nat | i < j :: Provides(c, r, i) && Provides(c, r, j)
    ensures Classify(c, r).Provided? <==>
              exists i: nat | Provides(c, r, i) ::
                && (forall j: nat | Provides(c, r, j) :: j == i)
                && Classify(c, r) == Provided(RowProvider(c, r, i))
  {
    if r.source == Import { FilesCount(c, r); } else { SymbolsCount(c, r); }
    hide ProvidersOf; hide Provides; hide RowProvider; hide IsBlank; hide IsWellKnown; hide IsSelf;
    if Classify(c, r).Provided? {
      var i: nat :| Provides(c, r, i) && ProvidersOf(c, r)[0] == RowProvider(c, r, i);
      assert forall j: nat | Provides(c, r, j) :: j == i;
      assert Classify(c, r) == Provided(RowProvider(c, r, i));
    }
  }

  // The result lists

  /** The unresolved list holds exactly the references that ask for a provider and do not
      have exactly one, each with its reason. */
  lemma UnresolvedIsExact(c: Catalog, refs: seq<Reference>, g: Gap)
    ensures g in ExpectedGaps(c, refs) <==>
            exists r | r in refs ::
              && Asks(c, r)
              && |ProvidersOf(c, r)| != 1
              && g == GapFor(c, r, if |ProvidersOf(c, r)| == 0 then ProviderNotFound else AmbiguousProvider)
  {
    FlatMapMembers(refs, GapsOf(c), g);
    hide ProvidersOf; hide IsBlank; hide IsWellKnown; hide IsSelf; hide FlatMap; hide GapFor;
  }

  /** The references that get an unresolved row, in order. */
  predicate NeedsGap(c: Catalog, r: Reference) {
    Asks(c, r) && |ProvidersOf(c, r)| != 1
  }

  function WithGap(c: Catalog): Reference -> bool { (r: Reference) => NeedsGap(c, r) }

  function GapRow(c: Catalog): Reference -> Gap {
    (r: Reference) => GapFor(c, r, if |ProvidersOf(c, r)| == 0 then ProviderNotFound else AmbiguousProvider)
  }

  /** ... and the list keeps their order and their repetitions. */
  lemma {:induction false} UnresolvedInOrder(c: Catalog, refs: seq<Reference>)
    ensures ExpectedGaps(c, refs) == Map(Filter(refs, WithGap(c)), GapRow(c))
  {
    hide ProvidersOf; hide IsBlank; hide IsWellKnown; hide IsSelf; hide GapFor;
    if refs != [] {
      var init, last := refs[..|refs| - 1], refs[|refs| - 1];
      UnresolvedInOrder(c, init);
      assert refs == init + [last];
      FilterConcat(init, [last], WithGap(c));
      assert Filter([last], WithGap(c)) == if NeedsGap(c, last) then [last] else [];
      MapConcat(Filter(init, WithGap(c)), Filter([last], WithGap(c)), GapRow(c));
    }
  }

  // Keys

  predicate NulFree(s: string) { '\0' !in s }

  /** Joining with NUL is injective when only the last part may hold one. */
  lemma DependencyKeyIsInjective(c1: string, p1: string, s1: Source, i1: string, r1: string,
                                 c2: string, p2: string, s2: Source, i2: string, r2: string)
    requires NulFree(c1) && NulFree(p1) && NulFree(i1) && NulFree(c2) && NulFree(p2) && NulFree(i2)
    ensures DependencyKey(c1, p1, s1, i1, r1) == DependencyKey(c2, p2, s2, i2, r2) <==>
            c1 == c2 && p1 == p2 && s1 == s2 && i1 == i2 && r1 == r2
  {
    if DependencyKey(c1, p1, s1, i1, r1) == DependencyKey(c2, p2, s2, i2, r2) {
      KeyParts(c1, p1, s1, i1, r1, c2, p2, s2, i2, r2);
      FirstSeparatorIsUnique('\0', i1, r1, i2, r2);
    }
  }

  /** The first three parts of a key are determined when the ids hold no NUL. */
  lemma KeyParts(c1: string, p1: string, s1: Source, i1: string, r1: string,
                 c2: string, p2: string, s2: Source, i2: string, r2: string)
    requires NulFree(c1) && NulFree(p1) && NulFree(c2) && NulFree(p2)
    requires DependencyKey(c1, p1, s1, i1, r1) == DependencyKey(c2, p2, s2, i2, r2)
    ensures c1 == c2 && p1 == p2 && s1 == s2 && i1 + NUL + r1 == i2 + NUL + r2
  {
    var last1, last2 := i1 + NUL + r1, i2 + NUL + r2;
    var tail1, tail2 := SourceString(s1) + NUL + last1, SourceString(s2) + NUL + last2;
    KeySplits(c1, p1, s1, i1, r1);
    KeySplits(c2, p2, s2, i2, r2);
    hide DependencyKey; hide SourceString;
    FirstSeparatorIsUnique('\0', c1, p1 + NUL + tail1, c2, p2 + NUL + tail2);
    FirstSeparatorIsUnique('\0', p1, tail1, p2, tail2);
    SourceStrings(s1, s2);
    FirstSeparatorIsUnique('\0', SourceString(s1), last1, SourceString(s2), last2);
  }

  lemma KeySplits(c: string, p: string, s: Source, i: string, r: string)
    ensures DependencyKey(c, p, s, i, r) == c + NUL + (p + NUL + (SourceString(s) + NUL + (i + NUL + r)))
  {
    hide SourceString;
    var source := SourceString(s);
    assert c + NUL + p + NUL + source + NUL + i + NUL + r == c + NUL + p + NUL + source + NUL + (i + NUL + r);
    assert c + NUL + p + NUL + source + NUL + (i + NUL + r) == c + NUL + p + NUL + (source + NUL + (i + NUL + r));
    assert c + NUL + p + NUL + (source + NUL + (i + NUL + r)) == c + NUL + (p + NUL + (source + NUL + (i + NUL + r)));
  }

  lemma SourceStrings(s1: Source, s2: Source)
    ensures NulFree(SourceString(s1)) && NulFree(SourceString(s2))
    ensures SourceString(s1) == SourceString(s2) ==> s1 == s2
  {
    assert "import"[0] == 'i' && "type_reference"[0] == 't' && "method_reference"[0] == 'm';
  }

  // Deduplication

  /** Version ids hold no NUL, and a version id names one version. */
  predicate Coherent(c: Catalog) {
    && NulFree(c.consumer.versionId)
    && (forall f | f in c.files :: NulFree(f.provider.versionId))
    && (forall s | s in c.symbols :: NulFree(s.provider.versionId))
    && (forall f, g | f in c.files && g in c.files && f.provider.versionId == g.provider.versionId ::
          f.provider == g.provider)
    && (forall s, t | s in c.symbols && t in c.symbols && s.provider.versionId == t.provider.versionId ::
          s.provider == t.provider)
  }

  lemma ProviderIsListed(c: Catalog, r: Reference, l: Link)
    requires l in LinksOf(c)(r)
    ensures l == LinkTo(c, r, l.provider) && l.provider.moduleId != c.consumer.moduleId
    ensures if r.source == Import then exists f :: f in c.files && f.provider == l.provider
            else exists s :: s in c.symbols && s.provider == l.provider
  {
    hide IsBlank; hide IsWellKnown; hide IsSelf;
    var providers := ProvidersOf(c, r);
    assert l.provider == providers[0];
    if r.source == Import {
      FilterMembers(c.files, FileAt(r.text));
      var f := Filter(c.files, FileAt(r.text))[0];
      assert f in c.files && f.provider == l.provider;
    } else {
      var keep := SymbolNamed(NormalizeSymbol(r.text));
      FilterMembers(c.symbols, keep);
      var s := Filter(c.symbols, keep)[0];
      assert s in c.symbols && s.provider == l.provider;
    }
  }

  /** Two links with the same key are the same link: reason follows from source, package
      from symbol, and the provider from its version id. */
  lemma SameKeySameLink(c: Catalog, r1: Reference, l1: Link, r2: Reference, l2: Link)
    requires Coherent(c) && l1 in LinksOf(c)(r1) && l2 in LinksOf(c)(r2)
    requires KeyOf(l1) == KeyOf(l2)
    ensures l1 == l2
  {
    ProviderIsListed(c, r1, l1);
    ProviderIsListed(c, r2, l2);
    hide LinksOf; hide DependencyKey; hide NormalizeSymbol; hide PackageFromSymbol;
    KeyParts(l1.consumer.versionId, l1.provider.versionId, l1.source, l1.importPath, l1.referencedSymbol,
             l2.consumer.versionId, l2.provider.versionId, l2.source, l2.importPath, l2.referencedSymbol);
    OneEmptyPart(l1.importPath, l1.referencedSymbol, l2.importPath, l2.referencedSymbol);
    assert l1.provider == l2.provider;
  }

  /** When the same one of path and symbol is empty on both sides, the joined tail
      determines both, whatever characters they hold. */
  lemma OneEmptyPart(i1: string, r1: string, i2: string, r2: string)
    requires i1 + NUL + r1 == i2 + NUL + r2 && (i1 == i2 == "" || r1 == r2 == "")
    ensures i1 == i2 && r1 == r2
  {
    if r1 == "" {
      assert i1 == (i1 + NUL + r1)[..|i1|] && i2 == (i2 + NUL + r2)[..|i2|];
    } else {
      assert r1 == (i1 + NUL + r1)[1..] && r2 == (i2 + NUL + r2)[1..];
    }
  }

  lemma {:induction false} FirstOfEachKeyIsPart(links: seq<Link>)
    ensures forall l | l in FirstOfEachKey(links) :: l in links
    ensures Keys(FirstOfEachKey(links)) == Keys(links)
    ensures forall i, j | 0 <= i < j < |FirstOfEachKey(links)| ::
              KeyOf(FirstOfEachKey(links)[i]) != KeyOf(FirstOfEachKey(links)[j])
  {
    hide KeyOf;
    if links != [] {
      var init, last := links[..|links| - 1], links[|links| - 1];
      FirstOfEachKeyIsPart(init);
      assert links == init + [last];
      KeysSnoc(init, last);
      KeysSnoc(FirstOfEachKey(init), last);
    }
  }

  /** The dependency list holds exactly the links of the references, each once: dropping
      repeated keys loses nothing. */
  lemma DependenciesAreExact(c: Catalog, refs: seq<Reference>, l: Link)
    requires Coherent(c)
    ensures l in ExpectedLinks(c, refs) <==> exists r :: r in refs && l in LinksOf(c)(r)
    ensures multiset(ExpectedLinks(c, refs))[l] <= 1
  {
    var links := FlatMap(refs, LinksOf(c));
    FirstOfEachKeyIsPart(links);
    FlatMapMembers(refs, LinksOf(c), l);
    OnceInSequence(ExpectedLinks(c, refs), l);
    if r :| r in refs && l in LinksOf(c)(r) {
      assert KeyOf(l) in Keys(links);
      var kept :| kept in ExpectedLinks(c, refs) && KeyOf(kept) == KeyOf(l);
      FlatMapMembers(refs, LinksOf(c), kept);
      var r' :| r' in refs && kept in LinksOf(c)(r');
      hide LinksOf; hide Coherent; hide KeyOf;
      SameKeySameLink(c, r, l, r', kept);
    }
  }

  lemma OnceInSequence(links: seq<Link>, l: Link)
    requires forall i, j | 0 <= i < j < |links| :: KeyOf(links[i]) != KeyOf(links[j])
    ensures multiset(links)[l] <= 1
    decreases |links|
  {
    hide KeyOf;
    if links != [] {
      var init, last := links[..|links| - 1], links[|links| - 1];
      OnceInSequence(init, l);
      assert links == init + [last];
      if last == l {
        assert l !in init;
      }
    }
  }

  /** The consumer never provides for itself. */
  lemma ConsumerIsNoProvider(c: Catalog, refs: seq<Reference>, l: Link)
    requires l in ExpectedLinks(c, refs)
    ensures l.provider.moduleId != c.consumer.moduleId && l.consumer == c.consumer
  {
    var links := FlatMap(refs, LinksOf(c));
    FirstOfEachKeyIsPart(links);
    FlatMapMembers(refs, LinksOf(c), l);
    var r :| r in refs && l in LinksOf(c)(r);
    ProviderIsListed(c, r, l);
  }

  /** The columns of the table's unique index. */
  function Edge(l: Link): (string, string, Source, string, string) {
    (l.consumer.versionId, l.provider.versionId, l.source, l.importPath, l.referencedSymbol)
  }

  /** The table takes every list the resolver produces: no link goes from a module to itself
      and no two have the same edge, whatever characters the ids hold. */
  lemma DependenciesFitTheTable(c: Catalog, refs: seq<Reference>)
    ensures forall l | l in ExpectedLinks(c, refs) :: l.consumer.moduleId != l.provider.moduleId
    ensures Sequences.Distinct(ExpectedLinks(c, refs), Edge)
  {
    var links := ExpectedLinks(c, refs);
    FirstOfEachKeyIsPart(FlatMap(refs, LinksOf(c)));
    hide FlatMap; hide FirstOfEachKey; hide DependencyKey;
    forall l | l in links
      ensures l.consumer.moduleId != l.provider.moduleId
    {
      ConsumerIsNoProvider(c, refs, l);
    }
    forall i, j | 0 <= i < j < |links|
      ensures Edge(links[i]) != Edge(links[j])
    {
      assert KeyOf(links[i]) != KeyOf(links[j]);
    }
  }

  // File order

  /** The own names do not depend on the order of the files, so no reference changes its
      class. */
  lemma ClassifyIgnoresOrder(c: Catalog, files: Metadata, r: Reference)
    requires multiset(files) == multiset(c.own)
    ensures Classify(c.(own := files), r) == Classify(c, r)
  {
    SameContents(files, c.own);
    hide ProvidersOf; hide FileDeclares; hide IsBlank; hide IsWellKnown; hide NormalizeSymbol;
    var moved := c.(own := files);
    assert DeclaresFile(files, r.text) == DeclaresFile(c.own, r.text);
    assert DeclaresSymbol(files, NormalizeSymbol(r.text)) == DeclaresSymbol(c.own, NormalizeSymbol(r.text));
    assert IsSelf(moved, r) == IsSelf(c, r);
    ProvidersIgnoreOwn(c, files, r);
  }

  lemma ProvidersIgnoreOwn(c: Catalog, files: Metadata, r: Reference)
    ensures ProvidersOf(c.(own := files), r) == ProvidersOf(c, r)
  {}

  lemma OrderDoesNotMatter(c: Catalog, files: Metadata)
    requires multiset(files) == multiset(c.own)
    ensures multiset(References(files)) == multiset(References(c.own))
    ensures forall r: Reference :: LinksOf(c.(own := files))(r) == LinksOf(c)(r) && GapsOf(c.(own := files))(r) == GapsOf(c)(r)
  {
    FlatMapPermutation(files, c.own, FileReferences);
    hide Classify; hide FileReferences;
    forall r: Reference
      ensures LinksOf(c.(own := files))(r) == LinksOf(c)(r) && GapsOf(c.(own := files))(r) == GapsOf(c)(r)
    {
      ClassifyIgnoresOrder(c, files, r);
    }
  }

  /** Permuting the metadata files changes neither the multiset of unresolved references nor
      the set of dependencies. */
  lemma PermutingFilesKeepsTheResult(c: Catalog, files: Metadata)
    requires Coherent(c) && multiset(files) == multiset(c.own)
    ensures var moved := c.(own := files);
            && multiset(ExpectedGaps(moved, References(files))) == multiset(ExpectedGaps(c, References(c.own)))
            && multiset(ExpectedLinks(moved, References(files))) == multiset(ExpectedLinks(c, References(c.own)))
  {
    var moved := c.(own := files);
    OrderDoesNotMatter(c, files);
    hide References; hide LinksOf; hide GapsOf;
    var before, after := References(c.own), References(files);
    SameContents(after, before);
    FlatMapPermutation(after, before, GapsOf(c));
    FlatMapSame(after, GapsOf(moved), GapsOf(c));
    hide ExpectedLinks;
    assert Coherent(moved);
    forall l: Link
      ensures multiset(ExpectedLinks(moved, after))[l] == multiset(ExpectedLinks(c, before))[l]
    {
      DependenciesAreExact(moved, after, l);
      DependenciesAreExact(c, before, l);
      assert (exists r :: r in after && l in LinksOf(moved)(r)) <==> (exists r :: r in before && l in LinksOf(c)(r));
      assert l in multiset(ExpectedLinks(moved, after)) <==> l in ExpectedLinks(moved, after);
      assert l in multiset(ExpectedLinks(c, before)) <==> l in ExpectedLinks(c, before);
    }
  }
}
