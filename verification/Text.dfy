/** Strings: prefixes, dots, trimming and order. UTF-8 byte order, which Go's < uses, is
    code point order. */
module Text {
  predicate HasPrefix(s: string, prefix: string) {
    prefix <= s
  }

  predicate DotFree(s: string) {
    '.' !in s
  }

  lemma DotAt(a: string, s: string)
    ensures HasPrefix(s, a + ".") ==> |a| < |s| && s[|a|] == '.' && a == s[..|a|]
  {
    if HasPrefix(s, a + ".") {
      assert (a + ".")[|a|] == '.';
      assert (a + ".")[..|a|] == a;
    }
  }

  lemma NoDotBefore(a: string, b: string, s: string)
    requires DotFree(b) && HasPrefix(s, a + ".") && HasPrefix(s, b)
    ensures |b| <= |a|
  {
    assert forall i | 0 <= i < |b| :: s[i] == b[i] && b[i] in b;
    DotAt(a, s);
  }

  /** The dotted head of a string is unique: at most one dot-free name, followed by a dot,
      starts it. */
  lemma DottedHeadIsUnique(a: string, b: string, s: string)
    requires DotFree(a) && DotFree(b)
    requires HasPrefix(s, a + ".") && HasPrefix(s, b + ".")
    ensures a == b
  {
    DotAt(a, s);
    DotAt(b, s);
    NoDotBefore(a, b, s);
    NoDotBefore(b, a, s);
  }

  /** A dot-free name has no dotted head. */
  lemma DotFreeHasNoHead(a: string, s: string)
    requires DotFree(s)
    ensures !HasPrefix(s, a + ".")
  {
    DotAt(a, s);
  }

  lemma NoDotAfter(m: string, a: string, i: nat)
    requires DotFree(a) && i < |m + "." + a| && (m + "." + a)[i] == '.'
    ensures i <= |m|
  {
    var s := m + "." + a;
    assert forall j | |m| < j < |s| :: s[j] == a[j - |m| - 1] && a[j - |m| - 1] in a;
  }

  /** The last dot of a string splits it in only one way. */
  lemma LastDotIsUnique(m: string, a: string, n: string, b: string)
    requires DotFree(a) && DotFree(b) && m + "." + a == n + "." + b
    ensures m == n && a == b
  {
    var s := m + "." + a;
    assert s[|m|] == '.' && s[|n|] == '.';
    NoDotAfter(m, a, |n|);
    NoDotAfter(n, b, |m|);
    assert m == s[..|m|] && n == s[..|n|];
    assert a == s[|m| + 1..] && b == s[|n| + 1..];
  }

  /** What comes before the first separator, and what comes after it, is determined. */
  lemma FirstSeparatorIsUnique(c: char, a: string, x: string, b: string, y: string)
    requires c !in a && c !in b && a + [c] + x == b + [c] + y
    ensures a == b && x == y
  {
    var s := a + [c] + x;
    assert s[|a|] == c && s[|b|] == c;
    assert forall i | 0 <= i < |a| :: s[i] == a[i] && a[i] in a;
    assert forall i | 0 <= i < |b| :: s[i] == (b + [c] + y)[i] == b[i] && b[i] in b;
    assert |a| == |b|;
    assert a == s[..|a|] && b == s[..|b|];
    assert x == s[|a| + 1..] && y == s[|b| + 1..];
  }

  lemma SamePrefix(p: string, a: string, b: string)
    requires p + a == p + b
    ensures a == b
  {
    assert a == (p + a)[|p|..] && b == (p + b)[|p|..];
  }

  lemma SameLengthTail(a: string, s: string, b: string, t: string)
    requires a + s == b + t && |s| == |t|
    ensures a == b && s == t
  {
    assert |a| == |b|;
    assert a == (a + s)[..|a|] && b == (b + t)[..|b|];
    assert s == (a + s)[|a|..] && t == (b + t)[|b|..];
  }

  lemma PrefixOfConcat(p: string, a: string, b: string)
    ensures HasPrefix(p + a, p + b) <==> HasPrefix(a, b)
  {
    if HasPrefix(a, b) {
      assert a == b + a[|b|..];
      assert p + a == (p + b) + a[|b|..];
    }
    if HasPrefix(p + a, p + b) {
      assert (p + a)[|p|..] == a && (p + b)[|p|..] == b;
      assert b == a[..|b|];
    }
  }

  lemma PrefixTransitive(s: string, a: string, b: string)
    requires HasPrefix(s, a) && HasPrefix(a, b)
    ensures HasPrefix(s, b)
  {}

  // Order

  predicate LessOrEqual(a: string, b: string) {
    a == [] || (b != [] && (a[0] < b[0] || (a[0] == b[0] && LessOrEqual(a[1..], b[1..]))))
  }

  lemma {:induction false} LessOrEqualTotal(a: string, b: string)
    ensures LessOrEqual(a, b) || LessOrEqual(b, a)
    ensures LessOrEqual(a, b) && LessOrEqual(b, a) ==> a == b
  {
    if a != [] && b != [] {
      LessOrEqualTotal(a[1..], b[1..]);
      assert a == [a[0]] + a[1..] && b == [b[0]] + b[1..];
    }
  }

  lemma {:induction false} LessOrEqualTransitive(a: string, b: string, c: string)
    requires LessOrEqual(a, b) && LessOrEqual(b, c)
    ensures LessOrEqual(a, c)
  {
    if a != [] && a[0] == b[0] && b[0] == c[0] {
      LessOrEqualTransitive(a[1..], b[1..], c[1..]);
    }
  }

  // Trimming

  /** unicode.IsSpace */
  predicate IsSpace(c: char) {
    || '\t' <= c <= '\r'
    || c == ' '
    || c == '\U{85}' || c == '\U{A0}' || c == '\U{1680}'
    || '\U{2000}' <= c <= '\U{200A}'
    || c == '\U{2028}' || c == '\U{2029}' || c == '\U{202F}' || c == '\U{205F}' || c == '\U{3000}'
  }

  function TrimLeft(s: string): string {
    if s != [] && IsSpace(s[0]) then TrimLeft(s[1..]) else s
  }

  function TrimRight(s: string): string {
    if s != [] && IsSpace(s[|s| - 1]) then TrimRight(s[..|s| - 1]) else s
  }

  function TrimSpace(s: string): string {
    TrimRight(TrimLeft(s))
  }

  function TrimPrefix(s: string, prefix: string): string {
    if prefix <= s then s[|prefix|..] else s
  }

  predicate Trimmed(s: string) {
    s == [] || (!IsSpace(s[0]) && !IsSpace(s[|s| - 1]))
  }

  lemma {:induction false} TrimLeftStart(s: string)
    ensures TrimLeft(s) == [] || !IsSpace(TrimLeft(s)[0])
  {
    if s != [] && IsSpace(s[0]) { TrimLeftStart(s[1..]); }
  }

  lemma {:induction false} TrimRightEnds(s: string)
    ensures TrimRight(s) == [] || (!IsSpace(TrimRight(s)[|TrimRight(s)| - 1]) && TrimRight(s)[0] == s[0])
    ensures TrimRight(s) <= s
  {
    if s != [] && IsSpace(s[|s| - 1]) { TrimRightEnds(s[..|s| - 1]); }
  }

  /** Trimming leaves no surrounding space, and trimming again changes nothing. */
  lemma TrimSpaceTrims(s: string)
    ensures Trimmed(TrimSpace(s))
    ensures Trimmed(s) ==> TrimSpace(s) == s
  {
    TrimLeftStart(s);
    TrimRightEnds(TrimLeft(s));
  }

  predicate AllSpace(s: string) {
    forall c | c in s :: IsSpace(c)
  }

  lemma {:induction false} TrimLeftCuts(s: string) returns (i: nat)
    ensures i <= |s| && TrimLeft(s) == s[i..] && AllSpace(s[..i])
  {
    if s != [] && IsSpace(s[0]) {
      var rest := TrimLeftCuts(s[1..]);
      i := rest + 1;
      assert s[1..][rest..] == s[i..] && s[..i] == [s[0]] + s[1..][..rest];
    } else {
      i := 0;
    }
  }

  lemma {:induction false} TrimRightCuts(s: string) returns (j: nat)
    ensures j <= |s| && TrimRight(s) == s[..j] && AllSpace(s[j..])
  {
    if s != [] && IsSpace(s[|s| - 1]) {
      j := TrimRightCuts(s[..|s| - 1]);
      assert s[..|s| - 1][..j] == s[..j] && s[j..] == s[..|s| - 1][j..] + [s[|s| - 1]];
    } else {
      j := |s|;
    }
  }

  /** Trimming only takes spaces off the two ends. */
  lemma TrimSpaceCuts(s: string) returns (i: nat, j: nat)
    ensures i <= j <= |s| && TrimSpace(s) == s[i..j]
    ensures AllSpace(s[..i]) && AllSpace(s[j..])
  {
    i := TrimLeftCuts(s);
    var n := TrimRightCuts(s[i..]);
    j := i + n;
    assert s[i..][..n] == s[i..j] && s[i..][n..] == s[j..];
  }

  // Case

  /** strings.ToLower, on ASCII letters. */
  function ToLower(s: string): string {
    seq(|s|, i requires 0 <= i < |s| => if 'A' <= s[i] <= 'Z' then s[i] - 'A' + 'a' else s[i])
  }

  /** The same letter, in upper or lower case, or the same character. */
  predicate SameLetter(a: char, b: char) {
    a == b || ('A' <= a <= 'Z' && b as int == a as int + 32) || ('A' <= b <= 'Z' && a as int == b as int + 32)
  }

  /** Two texts have the same lower case exactly when they agree letter by letter, and lower
      case has no capital letter. */
  lemma ToLowerFolds(s: string, t: string)
    ensures ToLower(s) == ToLower(t) <==> |s| == |t| && forall i | 0 <= i < |s| :: SameLetter(s[i], t[i])
    ensures forall c | c in ToLower(s) :: !('A' <= c <= 'Z')
    ensures |ToLower(s)| == |s|
  {
    var a, b := ToLower(s), ToLower(t);
    forall i | 0 <= i < |s|
      ensures !('A' <= a[i] <= 'Z')
      ensures i < |t| ==> (a[i] == b[i] <==> SameLetter(s[i], t[i]))
    {}
    if |s| == |t| && forall i | 0 <= i < |s| :: SameLetter(s[i], t[i]) {
      assert a == b;
    }
    if a == b {
      assert |s| == |a| == |b| == |t|;
      forall i | 0 <= i < |s|
        ensures SameLetter(s[i], t[i])
      {
        assert a[i] == b[i];
      }
    }
  }

  // Order, by the characters

  /** In code point order: the first difference decides, and a prefix comes first. */
  predicate NotAfter(a: string, b: string) {
    exists k | 0 <= k <= |a| && k <= |b| ::
      a[..k] == b[..k] && (k == |a| || (k < |b| && a[k] < b[k]))
  }

  lemma {:induction false} LessOrEqualMeans(a: string, b: string)
    ensures LessOrEqual(a, b) <==> NotAfter(a, b)
  {
    if a == [] {
      assert a[..0] == b[..0];
    } else if b != [] {
      LessOrEqualMeans(a[1..], b[1..]);
      if LessOrEqual(a, b) {
        if a[0] < b[0] {
          assert a[..0] == b[..0];
        } else {
          var k :| 0 <= k <= |a[1..]| && k <= |b[1..]| && a[1..][..k] == b[1..][..k]
                   && (k == |a[1..]| || (k < |b[1..]| && a[1..][k] < b[1..][k]));
          assert a[..k + 1] == [a[0]] + a[1..][..k] && b[..k + 1] == [b[0]] + b[1..][..k];
        }
      }
      if NotAfter(a, b) {
        var k :| 0 <= k <= |a| && k <= |b| && a[..k] == b[..k] && (k == |a| || (k < |b| && a[k] < b[k]));
        if k > 0 {
          assert a[0] == a[..k][0] == b[..k][0] == b[0];
          assert a[1..][..k - 1] == a[..k][1..] == b[..k][1..] == b[1..][..k - 1];
          assert NotAfter(a[1..], b[1..]);
        }
      }
    }
  }
}
