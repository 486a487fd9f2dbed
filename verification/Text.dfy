/** Python's str.strip, string order and decimal printing, as far as the program uses them. */
module Text {

  predicate InRanges(c: char, ranges: seq<(char, char)>) {
    ranges != [] && (ranges[0].0 <= c <= ranges[0].1 || InRanges(c, ranges[1..]))
  }

  /** The characters of Python's str.isspace, as ranges. */
  const SPACES: seq<(char, char)> := [
    (' ', ' '), ('\t', '\r'), ('\U{1C}', '\U{1F}'), ('\U{85}', '\U{85}'), ('\U{A0}', '\U{A0}'),
    ('\U{1680}', '\U{1680}'), ('\U{2000}', '\U{200A}'), ('\U{2028}', '\U{2029}'), ('\U{202F}', '\U{202F}'),
    ('\U{205F}', '\U{205F}'), ('\U{3000}', '\U{3000}')]

  predicate IsSpace(c: char) { InRanges(c, SPACES) }

  lemma {:induction false} NotInRanges(c: char, ranges: seq<(char, char)>)
    requires forall i :: 0 <= i < |ranges| ==> c < ranges[i].0 || ranges[i].1 < c
    ensures !InRanges(c, ranges)
  {
    if ranges != [] {
      NotInRanges(c, ranges[1..]);
    }
  }

  /** Arabic and Persian letters are no spaces. */
  lemma LettersAreNoSpaces(c: char)
    requires '\U{600}' <= c <= '\U{6FF}'
    ensures !IsSpace(c)
  {
    NotInRanges(c, SPACES);
  }

  function SkipSpaces(s: string): (r: string)
    ensures |r| <= |s|
  {
    if s != "" && IsSpace(s[0]) then SkipSpaces(s[1..]) else s
  }

  function StripRight(s: string): string {
    if s != "" && IsSpace(s[|s| - 1]) then StripRight(s[..|s| - 1]) else s
  }

  function Strip(s: string): string { StripRight(SkipSpaces(s)) }

  function Digit(n: nat): char
    requires n < 10
  {
    '0' + n as char
  }

  function Decimal(n: nat): string {
    if n < 10 then [Digit(n)] else Decimal(n / 10) + [Digit(n % 10)]
  }

  /** str of an integer. */
  function Str(n: int): string { if n < 0 then "-" + Decimal(-n) else Decimal(n) }

  /** Lexicographic order by code points. */
  predicate Leq(a: string, b: string) {
    a == "" || (b != "" && (a[0] < b[0] || (a[0] == b[0] && Leq(a[1..], b[1..]))))
  }

  lemma {:induction false} LeqTotal(a: string, b: string)
    ensures Leq(a, b) || Leq(b, a)
  {
    if a != "" && b != "" && a[0] == b[0] {
      LeqTotal(a[1..], b[1..]);
    }
  }

  lemma {:induction false} LeqTransitive(a: string, b: string, c: string)
    requires Leq(a, b) && Leq(b, c)
    ensures Leq(a, c)
  {
    if a != "" && a[0] == b[0] && b[0] == c[0] {
      LeqTransitive(a[1..], b[1..], c[1..]);
    }
  }

  /** a comes strictly before b: it is a proper beginning of b, or smaller at the first place they differ. */
  ghost predicate Before(a: string, b: string) {
    exists k :: DifferFrom(a, b, k)
  }

  ghost predicate DifferFrom(a: string, b: string, k: nat) {
    && k <= |a| && k < |b| && a[..k] == b[..k]
    && (k == |a| || a[k] < b[k])
  }

  lemma {:induction false} LeqMeans(a: string, b: string)
    ensures Leq(a, b) <==> Before(a, b) || a == b
  {
    if a == "" {
      if b != "" {
        assert DifferFrom(a, b, 0);
      }
    } else if b != "" {
      if a[0] < b[0] {
        assert DifferFrom(a, b, 0);
      } else if a[0] == b[0] {
        LeqMeans(a[1..], b[1..]);
        assert a == [a[0]] + a[1..] && b == [b[0]] + b[1..];
        if k: nat :| DifferFrom(a[1..], b[1..], k) {
          assert a[..k + 1] == [a[0]] + a[1..][..k] && b[..k + 1] == [b[0]] + b[1..][..k];
          assert DifferFrom(a, b, k + 1);
        }
        if k: nat :| DifferFrom(a, b, k) {
          assert k > 0;
          assert a[1..][..k - 1] == a[..k][1..] && b[1..][..k - 1] == b[..k][1..];
          assert DifferFrom(a[1..], b[1..], k - 1);
        }
      } else {
        forall k: nat ensures !DifferFrom(a, b, k) {
          if k > 0 && k <= |a| && k < |b| {
            assert a[..k][0] == a[0] && b[..k][0] == b[0];
          }
        }
      }
    }
  }

  predicate AllSpaces(s: string) { forall i :: 0 <= i < |s| ==> IsSpace(s[i]) }

  /** Stripping takes away spaces at both ends, all of them and nothing else. */
  lemma StripMeans(s: string)
    ensures exists l: nat, r: nat ::
              && l <= r <= |s| && Strip(s) == s[l..r] && AllSpaces(s[..l]) && AllSpaces(s[r..])
              && (l < r ==> !IsSpace(s[l]) && !IsSpace(s[r - 1]))
  {
    var l := SkipMeans(s);
    var k := StripRightMeans(s[l..]);
    var r := l + k;
    assert s[l..][..k] == s[l..r] && s[l..][k..] == s[r..];
    assert k > 0 ==> s[l..][k - 1] == s[r - 1];
  }

  lemma {:induction false} SkipMeans(s: string) returns (l: nat)
    ensures l <= |s| && SkipSpaces(s) == s[l..] && AllSpaces(s[..l]) && (l < |s| ==> !IsSpace(s[l]))
  {
    if s != "" && IsSpace(s[0]) {
      var k := SkipMeans(s[1..]);
      l := k + 1;
      assert s[1..][k..] == s[l..];
      forall i | 0 <= i < l ensures IsSpace(s[..l][i]) {
        if i > 0 {
          assert s[1..][..k][i - 1] == s[i];
        }
      }
    } else {
      l := 0;
    }
  }

  lemma {:induction false} StripRightMeans(s: string) returns (r: nat)
    ensures r <= |s| && StripRight(s) == s[..r] && AllSpaces(s[r..]) && (r > 0 ==> !IsSpace(s[r - 1]))
  {
    if s != "" && IsSpace(s[|s| - 1]) {
      r := StripRightMeans(s[..|s| - 1]);
      assert s[..|s| - 1][..r] == s[..r];
      forall i | 0 <= i < |s| - r ensures IsSpace(s[r..][i]) {
        if r + i < |s| - 1 {
          assert s[..|s| - 1][r..][i] == s[r + i];
        }
      }
    } else {
      r := |s|;
      assert s[..r] == s;
    }
  }
}
