/** Object-store keys of published artifacts. */
module ArtifactKeys {
  import opened Text

  predicate IsNameChar(c: char) { 'a' <= c <= 'z' || '0' <= c <= '9' || c == '-' || c == '_' }

  /** What NewModuleName accepts, after trimming. */
  predicate IsModuleName(name: string) { name != "" && forall c | c in name :: IsNameChar(c) }

  predicate IsHex(c: char) { '0' <= c <= '9' || 'a' <= c <= 'f' }

  predicate IsChecksum(s: string) { |s| == 64 && forall c | c in s :: IsHex(c) }

  function Directory(moduleName: string, version: string): string {
    "modules/" + moduleName + "/versions/" + version
  }

  function SourceTail(checksum: string): string { "/source/sha256-" + TrimSpace(checksum) + ".tar.gz" }

  function ImageTail(checksum: string): string { "/buf-image/sha256-" + TrimSpace(checksum) + ".binpb" }

  function BuildSourceArchiveKey(moduleName: string, version: string, checksum: string): string {
    Directory(moduleName, version) + SourceTail(checksum)
  }

  function BuildBufImageKey(moduleName: string, version: string, checksum: string): string {
    Directory(moduleName, version) + ImageTail(checksum)
  }

  lemma ChecksumIsTrimmed(checksum: string)
    requires IsChecksum(checksum)
    ensures TrimSpace(checksum) == checksum
  {
    assert IsHex(checksum[0]) && IsHex(checksum[63]) by {
      assert checksum[0] in checksum && checksum[63] in checksum;
    }
    TrimSpaceTrims(checksum);
  }

  lemma DirectorySplits(m: string, v: string, t: string)
    ensures Directory(m, v) + t == "modules/" + (m + ['/'] + ("versions/" + (v + t)))
  {
    var middle := "/versions/";
    assert middle == ['/'] + "versions/";
    assert Directory(m, v) + t == "modules/" + (m + (middle + (v + t)));
    assert middle + (v + t) == ['/'] + ("versions/" + (v + t));
    assert m + (['/'] + ("versions/" + (v + t))) == m + ['/'] + ("versions/" + (v + t));
  }

  /** The version may hold any character, slashes included: the tail's length is fixed. */
  lemma DirectoryIsInjective(m1: string, v1: string, t1: string, m2: string, v2: string, t2: string)
    requires IsModuleName(m1) && IsModuleName(m2) && |t1| == |t2|
    requires Directory(m1, v1) + t1 == Directory(m2, v2) + t2
    ensures m1 == m2 && v1 == v2 && t1 == t2
  {
    assert '/' !in m1 && '/' !in m2;
    DirectorySplits(m1, v1, t1);
    DirectorySplits(m2, v2, t2);
    hide Directory; hide IsModuleName;
    var r1, r2 := "versions/" + (v1 + t1), "versions/" + (v2 + t2);
    SamePrefix("modules/", m1 + ['/'] + r1, m2 + ['/'] + r2);
    FirstSeparatorIsUnique('/', m1, r1, m2, r2);
    SamePrefix("versions/", v1 + t1, v2 + t2);
    SameLengthTail(v1, t1, v2, t2);
  }

  lemma TailsDiffer(c1: string, c2: string)
    requires IsChecksum(c1) && IsChecksum(c2)
    ensures SourceTail(c1) == SourceTail(c2) ==> c1 == c2
    ensures ImageTail(c1) == ImageTail(c2) ==> c1 == c2
    ensures |SourceTail(c1)| == |SourceTail(c2)| && |ImageTail(c1)| == |ImageTail(c2)|
  {
    ChecksumIsTrimmed(c1);
    ChecksumIsTrimmed(c2);
    assert SourceTail(c1)[15..79] == c1 && SourceTail(c2)[15..79] == c2;
    assert ImageTail(c1)[18..82] == c1 && ImageTail(c2)[18..82] == c2;
  }

  /** Source keys determine module, version and checksum. */
  lemma SourceKeyIsInjective(m1: string, v1: string, c1: string, m2: string, v2: string, c2: string)
    requires IsModuleName(m1) && IsModuleName(m2) && IsChecksum(c1) && IsChecksum(c2)
    ensures BuildSourceArchiveKey(m1, v1, c1) == BuildSourceArchiveKey(m2, v2, c2) <==> m1 == m2 && v1 == v2 && c1 == c2
  {
    TailsDiffer(c1, c2);
    hide SourceTail; hide Directory; hide IsModuleName;
    if BuildSourceArchiveKey(m1, v1, c1) == BuildSourceArchiveKey(m2, v2, c2) {
      DirectoryIsInjective(m1, v1, SourceTail(c1), m2, v2, SourceTail(c2));
    }
  }

  /** Image keys do, too. */
  lemma ImageKeyIsInjective(m1: string, v1: string, c1: string, m2: string, v2: string, c2: string)
    requires IsModuleName(m1) && IsModuleName(m2) && IsChecksum(c1) && IsChecksum(c2)
    ensures BuildBufImageKey(m1, v1, c1) == BuildBufImageKey(m2, v2, c2) <==> m1 == m2 && v1 == v2 && c1 == c2
  {
    TailsDiffer(c1, c2);
    hide ImageTail; hide Directory; hide IsModuleName;
    if BuildBufImageKey(m1, v1, c1) == BuildBufImageKey(m2, v2, c2) {
      DirectoryIsInjective(m1, v1, ImageTail(c1), m2, v2, ImageTail(c2));
    }
  }

  /** A source key is never an image key. */
  lemma SourceKeyIsNoImageKey(m1: string, v1: string, c1: string, m2: string, v2: string, c2: string)
    ensures BuildSourceArchiveKey(m1, v1, c1) != BuildBufImageKey(m2, v2, c2)
  {
    var a, b := BuildSourceArchiveKey(m1, v1, c1), BuildBufImageKey(m2, v2, c2);
    assert a[|a| - 1] == 'z';
    assert b[|b| - 1] == 'b';
  }

  /** The layout of the keys. */
  lemma KeyLayout(moduleName: string, version: string, checksum: string)
    requires IsChecksum(checksum)
    ensures BuildSourceArchiveKey(moduleName, version, checksum) ==
            "modules/" + moduleName + "/versions/" + version + "/source/sha256-" + checksum + ".tar.gz"
    ensures BuildBufImageKey(moduleName, version, checksum) ==
            "modules/" + moduleName + "/versions/" + version + "/buf-image/sha256-" + checksum + ".binpb"
  {
    ChecksumIsTrimmed(checksum);
    hide TrimSpace; hide IsChecksum;
    var directory := "modules/" + moduleName + "/versions/" + version;
    assert directory + ("/source/sha256-" + checksum + ".tar.gz") == directory + "/source/sha256-" + checksum + ".tar.gz";
    assert directory + ("/buf-image/sha256-" + checksum + ".binpb") == directory + "/buf-image/sha256-" + checksum + ".binpb";
  }
}
