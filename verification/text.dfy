/** String helpers with the meaning Python gives them in the application:
    `s.split(c)[-1]`, `s.split(c)[0]`, `os.path.join(a, b)` on POSIX and `str(n)` for a
    natural number. */
module Text {

  /** `s.split(c)[-1]`: the text after the last `c`, or all of `s` when it has no `c`. */
  function AfterLast(s: string, c: char): string
  {
    if s == [] then []
    else if s[|s| - 1] == c then []
    else AfterLast(s[..|s| - 1], c) + [s[|s| - 1]]
  }

  /** The last piece is a suffix of `s` without `c`, preceded in `s` by a `c` unless it is all
      of `s`. */
  lemma {:induction false} AfterLastIsLastPiece(s: string, c: char)
    ensures var r := AfterLast(s, c);
      && |r| <= |s| && r == s[|s| - |r|..] && c !in r
      && (|r| < |s| ==> s[|s| - |r| - 1] == c)
  {
    if s != [] && s[|s| - 1] != c {
      var init := s[..|s| - 1];
      AfterLastIsLastPiece(init, c);
      SuffixOfInit(s, |init| - |AfterLast(init, c)|);
    }
  }

  /** A suffix of `s` is the same suffix of `s` less its last element, then that element. */
  lemma SuffixOfInit(s: string, j: nat)
    requires j < |s|
    ensures s[j..] == s[..|s| - 1][j..] + [s[|s| - 1]]
  {
  }

  /** `s.split(c)[0]`: the text before the first `c`, or all of `s` when it has no `c`. */
  function BeforeFirst(s: string, c: char): string
  {
    if s == [] then []
    else if s[0] == c then []
    else [s[0]] + BeforeFirst(s[1..], c)
  }

  /** The first piece is a prefix of `s` without `c`, followed in `s` by a `c` unless it is all
      of `s`. */
  lemma {:induction false} BeforeFirstIsFirstPiece(s: string, c: char)
    ensures var r := BeforeFirst(s, c);
      && |r| <= |s| && r == s[..|r|] && c !in r
      && (|r| < |s| ==> s[|r|] == c)
  {
    if s != [] && s[0] != c {
      BeforeFirstIsFirstPiece(s[1..], c);
    }
  }

  /** A string without `c` is its own last and first piece. */
  lemma {:induction false} NoSeparatorIsWhole(s: string, c: char)
    requires c !in s
    ensures AfterLast(s, c) == s && BeforeFirst(s, c) == s
  {
    AfterLastIsLastPiece(s, c);
    BeforeFirstIsFirstPiece(s, c);
  }

  /** The last piece of `a + b`, where `a` ends with the separator and `b` has none, is `b`. */
  lemma {:induction false} AfterLastOfSuffix(a: string, b: string, c: char)
    requires |a| > 0 && a[|a| - 1] == c && c !in b
    ensures AfterLast(a + b, c) == b
  {
    if b == [] {
      assert a + b == a;
    } else {
      var init := b[..|b| - 1];
      AfterLastOfSuffix(a, init, c);
      assert (a + b)[..|a + b| - 1] == a + init;
      assert init + [b[|b| - 1]] == b;
    }
  }

  /** The first piece of `a + b`, where `a` has no separator and `b` starts with one, is `a`. */
  lemma {:induction false} BeforeFirstOfPrefix(a: string, b: string, c: char)
    requires c !in a && |b| > 0 && b[0] == c
    ensures BeforeFirst(a + b, c) == a
  {
    if a != [] {
      BeforeFirstOfPrefix(a[1..], b, c);
      assert (a + b)[1..] == a[1..] + b;
      assert [a[0]] + a[1..] == a;
    }
  }

  /** `os.path.join(a, b)` with the POSIX separator. */
  function PathJoin(a: string, b: string): (r: string)
    ensures |b| > 0 && b[0] == '/' ==> r == b
    ensures !(|b| > 0 && b[0] == '/') ==> |r| >= |a| + |b| && r[..|a|] == a
    ensures |r| >= |b| && r[|r| - |b|..] == b
  {
    if |b| > 0 && b[0] == '/' then b
    else if a == [] || a[|a| - 1] == '/' then a + b
    else a + "/" + b
  }

  function DigitChar(d: nat): (c: char)
    requires d < 10
    ensures '0' <= c <= '9'
  {
    "0123456789"[d]
  }

  /** `str(n)` for a natural number: its decimal digits, most significant first. */
  function NatToString(n: nat): (r: string)
    ensures |r| >= 1
    ensures forall k :: 0 <= k < |r| ==> '0' <= r[k] <= '9'
  {
    if n < 10 then [DigitChar(n)] else NatToString(n / 10) + [DigitChar(n % 10)]
  }
}
