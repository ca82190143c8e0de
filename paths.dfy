/** Paths as the serial-stream data source takes them apart (parent directory,
    stem, extension), and the "new" mode search for an unused numbered sibling
    `{stem}_{n}{ext}`. */
module Paths {

  /** A filesystem path split into its parent directory, its stem and its
      extension (the extension keeps its leading dot, as `path::extension()` does). */
  datatype Path = Path(dir: string, stem: string, ext: string)

  /** The path's text: an abstraction of `path::string()` that always puts one
      separator between directory and file name (so it differs from the real
      rendering for a file directly under `/` or a path with no directory). */
  function PathString(p: Path): string {
    p.dir + "/" + p.stem + p.ext
  }

  /** The last component of the path, as `path::filename()` gives it. */
  function FileName(p: Path): string {
    p.stem + p.ext
  }

  predicate IsDigit(c: char) {
    '0' <= c <= '9'
  }

  predicate AllDigits(s: string) {
    forall i :: 0 <= i < |s| ==> IsDigit(s[i])
  }

  function DigitChar(d: nat): (c: char)
    requires d < 10
    ensures IsDigit(c) && c as int - '0' as int == d
  {
    ('0' as int + d) as char
  }

  /** The decimal text of `n`, as the format string `{}` writes an integer. */
  function Decimal(n: nat): (s: string)
    ensures |s| >= 1 && AllDigits(s)
    ensures n == 0 || s[0] != '0'
  {
    if n < 10 then [DigitChar(n)] else Decimal(n / 10) + [DigitChar(n % 10)]
  }

  /** The number a string of decimal digits denotes: the inverse of Decimal. */
  function DigitsValue(s: string): nat
    requires AllDigits(s)
  {
    if s == [] then 0 else DigitsValue(s[..|s| - 1]) * 10 + (s[|s| - 1] as int - '0' as int)
  }

  lemma {:induction false} DecimalRoundTrip(n: nat)
    ensures DigitsValue(Decimal(n)) == n
  {
    if n >= 10 {
      var s := Decimal(n);
      assert s[..|s| - 1] == Decimal(n / 10);
      DecimalRoundTrip(n / 10);
    }
  }

  /** The sibling `{stem}_{n}{ext}` of `p` in the same directory. */
  function Numbered(p: Path, n: nat): Path {
    Path(p.dir, p.stem + "_" + Decimal(n), p.ext)
  }

  /** Different counters give different sibling names. */
  lemma NumberedInjective(p: Path, a: nat, b: nat)
    requires Numbered(p, a) == Numbered(p, b)
    ensures a == b
  {
    var k := |p.stem| + 1;
    assert Numbered(p, a).stem[k..] == Decimal(a);
    assert Numbered(p, b).stem[k..] == Decimal(b);
    DecimalRoundTrip(a);
    DecimalRoundTrip(b);
  }

  /** The siblings numbered 0 .. m-1. */
  function NumberedBelow(p: Path, m: nat): set<Path> {
    if m == 0 then {} else NumberedBelow(p, m - 1) + {Numbered(p, m - 1)}
  }

  lemma {:induction false} NotNumberedBelow(p: Path, m: nat, k: nat)
    requires m <= k
    ensures Numbered(p, k) !in NumberedBelow(p, m)
  {
    if m > 0 {
      NotNumberedBelow(p, m - 1, k);
      if Numbered(p, m - 1) == Numbered(p, k) {
        NumberedInjective(p, m - 1, k);
        assert false;
      }
    }
  }

  lemma {:induction false} NumberedBelowSize(p: Path, m: nat)
    ensures |NumberedBelow(p, m)| == m
  {
    if m > 0 {
      NumberedBelowSize(p, m - 1);
      NotNumberedBelow(p, m - 1, m - 1);
    }
  }

  lemma {:induction false} NumberedBelowWithin(p: Path, existing: set<Path>, m: nat)
    requires forall k :: 0 <= k < m ==> Numbered(p, k) in existing
    ensures NumberedBelow(p, m) <= existing
  {
    if m > 0 {
      NumberedBelowWithin(p, existing, m - 1);
    }
  }

  lemma SubsetSize<T>(a: set<T>, b: set<T>)
    requires a <= b
    ensures |a| <= |b|
  {
    assert b == a + (b - a);
  }

  /** If siblings 0 .. m-1 all exist, there are at least m existing paths; so a
      finite set of existing paths leaves some counter free. */
  lemma ExistingBound(p: Path, existing: set<Path>, m: nat)
    requires forall k :: 0 <= k < m ==> Numbered(p, k) in existing
    ensures m <= |existing|
  {
    NumberedBelowSize(p, m);
    NumberedBelowWithin(p, existing, m);
    SubsetSize(NumberedBelow(p, m), existing);
  }

  /** `n` is the smallest counter whose sibling does not exist. */
  predicate IsFirstFree(p: Path, existing: set<Path>, n: nat) {
    Numbered(p, n) !in existing &&
    forall k :: 0 <= k < n ==> Numbered(p, k) in existing
  }

  lemma FirstFreeUnique(p: Path, existing: set<Path>, a: nat, b: nat)
    requires IsFirstFree(p, existing, a) && IsFirstFree(p, existing, b)
    ensures a == b
  {
  }

  /** The first free counter at or above `n`, given that all below `n` are taken. */
  function FirstFreeFrom(p: Path, existing: set<Path>, n: nat): (r: nat)
    requires forall k :: 0 <= k < n ==> Numbered(p, k) in existing
    ensures n <= r && IsFirstFree(p, existing, r)
    decreases |existing| - n
  {
    if Numbered(p, n) !in existing then n
    else
      ExistingBound(p, existing, n + 1);
      FirstFreeFrom(p, existing, n + 1)
  }

  /** The counter the "new" mode search settles on. */
  function FirstFree(p: Path, existing: set<Path>): (r: nat)
    ensures IsFirstFree(p, existing, r)
  {
    FirstFreeFrom(p, existing, 0)
  }

  /** The do-while search of "new" mode: try `{stem}_{n}{ext}` for n = 0, 1, ...
      (the counter is post-incremented) until a path that does not exist. */
  method NextFreePath(p: Path, existing: set<Path>) returns (q: Path)
    ensures q == Numbered(p, FirstFree(p, existing))
    ensures q !in existing && q.dir == p.dir && q.ext == p.ext
  {
    var newFileId: nat := 0;
    q := Numbered(p, newFileId);
    newFileId := newFileId + 1;
    while q in existing
      invariant 1 <= newFileId && q == Numbered(p, newFileId - 1)
      invariant forall k :: 0 <= k < newFileId - 1 ==> Numbered(p, k) in existing
      decreases |existing| + 1 - newFileId
    {
      ExistingBound(p, existing, newFileId);
      q := Numbered(p, newFileId);
      newFileId := newFileId + 1;
    }
    FirstFreeUnique(p, existing, newFileId - 1, FirstFree(p, existing));
  }

  /** With `foo.txt`, `foo_0.txt` and `foo_1.txt` present, the search picks `foo_2.txt`. */
  lemma ThirdSiblingExample()
    ensures var p := Path("/data", "foo", ".txt");
            var existing := {p, Path("/data", "foo_0", ".txt"), Path("/data", "foo_1", ".txt")};
            Numbered(p, FirstFree(p, existing)) == Path("/data", "foo_2", ".txt")
  {
    var p := Path("/data", "foo", ".txt");
    var existing := {p, Path("/data", "foo_0", ".txt"), Path("/data", "foo_1", ".txt")};
    assert Decimal(0) == "0" && Decimal(1) == "1" && Decimal(2) == "2";
    assert Numbered(p, 0) == Path("/data", "foo_0", ".txt");
    assert Numbered(p, 1) == Path("/data", "foo_1", ".txt");
    assert Numbered(p, 2) == Path("/data", "foo_2", ".txt");
    assert IsFirstFree(p, existing, 2);
    FirstFreeUnique(p, existing, 2, FirstFree(p, existing));
  }
}
