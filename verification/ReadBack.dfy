/** What verification.cc writes, what it reads back, and how it compares the two. */
module ReadBack {
  import opened Decimal

  const WORD: nat := 0x1_0000_0000_0000_0000
  const NUL: char := 0 as char

  const HEAD := "zstore1:"
  const MIDDLE := ":pattern:"

  /** `count * 0xDEADBEEF` in 64 bits. */
  function Scrambled(count: nat): nat { count * 0xDEADBEEF % WORD }

  /** The text of write number `count`. */
  function Pattern(count: nat): string {
    HEAD + ToString(count) + MIDDLE + ToString(Scrambled(count))
  }

  function Zeros(n: nat): (s: string)
    ensures |s| == n && forall i | 0 <= i < n :: s[i] == NUL
  {
    if n == 0 then [] else Zeros(n - 1) + [NUL]
  }

  /** A zeroed buffer of `size` characters after `snprintf(buf, size, "%s", text)`. */
  function Buffer(text: string, size: nat): (b: string)
    requires size > 0
    ensures |b| == size
  {
    if |text| < size then text + Zeros(size - |text|) else text[..size - 1] + [NUL]
  }

  /** The string a buffer holds: everything before its first NUL. */
  function CString(b: string): string {
    if b == [] || b[0] == NUL then [] else [b[0]] + CString(b[1..])
  }

  function CompareLength(expected: string): nat { if |expected| < 50 then |expected| else 50 }

  /** `s.substr(0, n)`. */
  function Substr(s: string, n: nat): string { if |s| < n then s else s[..n] }

  /** The comparison of `task_complete`. */
  predicate Matches(read: string, expected: string) {
    Substr(read, CompareLength(expected)) == Substr(expected, CompareLength(expected))
  }

  /** Only the first 50 characters count, and all of them: no more, no fewer. */
  lemma ComparesFifty(read: string, expected: string)
    ensures Matches(read, expected)
            <==> forall i | 0 <= i < |expected| && i < 50 :: i < |read| && read[i] == expected[i]
  {
    if Matches(read, expected) {
      MatchesAgree(read, expected);
    }
    if forall i | 0 <= i < |expected| && i < 50 :: i < |read| && read[i] == expected[i] {
      AgreeingMatch(read, expected);
    }
  }

  lemma MatchesAgree(read: string, expected: string)
    requires Matches(read, expected)
    ensures forall i | 0 <= i < |expected| && i < 50 :: i < |read| && read[i] == expected[i]
  {
    var n := CompareLength(expected);
    forall i | 0 <= i < n ensures i < |read| && read[i] == expected[i] {
      assert Substr(read, n)[i] == Substr(expected, n)[i];
    }
  }

  lemma AgreeingMatch(read: string, expected: string)
    requires forall i | 0 <= i < |expected| && i < 50 :: i < |read| && read[i] == expected[i]
    ensures Matches(read, expected)
  {
    var n := CompareLength(expected);
    if n > 0 {
      var last := expected[n - 1];
      assert n - 1 < |read|;
    }
    assert Substr(read, n) == Substr(expected, n);
  }

  // ---- A buffer holds the text it was given, up to its size

  predicate Printable(s: string) { NUL !in s }

  lemma {:induction false} CStringOf(s: string, rest: string)
    requires Printable(s) && (rest == [] || rest[0] == NUL)
    ensures CString(s + rest) == s
  {
    if s == [] {
      assert s + rest == rest;
    } else {
      assert (s + rest)[1..] == s[1..] + rest;
      CStringOf(s[1..], rest);
    }
  }

  lemma BufferHolds(text: string, size: nat)
    requires size > 0 && Printable(text)
    ensures CString(Buffer(text, size)) == Substr(text, size - 1)
  {
    if |text| < size {
      CStringOf(text, Zeros(size - |text|));
      assert Substr(text, size - 1) == text;
    } else {
      CStringOf(text[..size - 1], [NUL]);
    }
  }

  /** Reading back one's own write passes exactly when the compared part fits the buffer with its NUL. */
  lemma OwnPatternMatches(text: string, size: nat)
    requires size > 0 && Printable(text)
    ensures Matches(CString(Buffer(text, size)), text) <==> CompareLength(text) < size
  {
    BufferHolds(text, size);
    var n := CompareLength(text);
    var read := Substr(text, size - 1);
    if n < size {
      assert Substr(read, n) == text[..n];
    } else {
      assert |Substr(read, n)| < n;
    }
  }

  lemma PatternPrintable(count: nat)
    ensures Printable(Pattern(count))
  {
    forall c | c in Pattern(count) ensures c != NUL {
      assert c in HEAD || c in ToString(count) || c in MIDDLE || c in ToString(Scrambled(count));
    }
  }

  // ---- The comparison tells any two writes apart

  lemma {:induction false} NumeralLength(n: nat, w: nat)
    requires w > 0 && n < Pow10(w)
    ensures |ToString(n)| <= w
  {
    if n >= 10 {
      NumeralLength(n / 10, w - 1);
    }
  }

  lemma WordNumeral(n: nat)
    requires n < WORD
    ensures |ToString(n)| <= 20
  {
    assert Pow10(5) == 100_000;
    assert Pow10(10) == 10_000_000_000;
    assert Pow10(15) == 1_000_000_000_000_000;
    assert Pow10(20) == 100_000_000_000_000_000_000;
    NumeralLength(n, 20);
  }

  /** Two numerals, each followed by something else, that agree up to the end of the second. */
  lemma SameNumeral(a: string, b: string, x: string, y: string)
    requires AllDigits(a) && AllDigits(b) && x != [] && y != [] && !IsDigit(x[0]) && !IsDigit(y[0])
    requires |b| + 1 <= |a + x| && (a + x)[..|b| + 1] == (b + y)[..|b| + 1]
    ensures a == b
  {
    var n := |b| + 1;
    assert forall i | 0 <= i < n :: (a + x)[..n][i] == (b + y)[..n][i];
    assert forall i | 0 <= i < n :: (a + x)[i] == (b + y)[i];
    assert (a + x)[|a|] == x[0] && (b + y)[|b|] == y[0];
    assert |a| == |b|;
    assert forall i | 0 <= i < |b| :: a[i] == (a + x)[i] && b[i] == (b + y)[i];
  }

  /** What a write's text is after its head. */
  function Tail(count: nat): string { MIDDLE + ToString(Scrambled(count)) }

  lemma PatternParts(count: nat)
    ensures Pattern(count)[8..] == ToString(count) + Tail(count) && |Pattern(count)| > 8 + |ToString(count)| + 1
  {
    Parts(HEAD, ToString(count), MIDDLE, ToString(Scrambled(count)));
  }

  lemma Parts(h: string, n: string, m: string, x: string)
    ensures (h + n + m + x)[|h|..] == n + (m + x)
  {
  }

  /** Equal prefixes have equal parts. */
  lemma SamePart(p: string, q: string, n: nat, i: nat, m: nat)
    requires n <= |p| && n <= |q| && p[..n] == q[..n] && i + m <= n
    ensures p[i..][..m] == q[i..][..m]
  {
    assert p[i..][..m] == p[..n][i..i + m] && q[i..][..m] == q[..n][i..i + m];
  }

  lemma PrefixNumeral(a: nat, b: nat, n: nat)
    requires n <= |Pattern(a)| && n <= |Pattern(b)| && Pattern(a)[..n] == Pattern(b)[..n]
    requires 8 + |ToString(b)| + 1 <= n
    ensures a == b
  {
    PatternParts(a);
    PatternParts(b);
    SamePart(Pattern(a), Pattern(b), n, 8, |ToString(b)| + 1);
    SameNumeral(ToString(a), ToString(b), Tail(a), Tail(b));
    ToStringRoundTrip(a);
    ToStringRoundTrip(b);
  }

  /** Whatever part of another write's text is read back, the comparison refuses it. */
  lemma Discriminating(a: nat, b: nat, size: nat)
    requires a < WORD && b < WORD && size > 0
    ensures Matches(CString(Buffer(Pattern(a), size)), Pattern(b)) ==> a == b
  {
    var n := CompareLength(Pattern(b));
    PatternPrintable(a);
    BufferHolds(Pattern(a), size);
    WordNumeral(b);
    PatternParts(b);
    var read := Substr(Pattern(a), size - 1);
    if Matches(read, Pattern(b)) {
      assert |Substr(read, n)| == n;
      assert Substr(read, n) == Pattern(a)[..n];
      PrefixNumeral(a, b, n);
    }
  }

  /** ... so a read that finds some write's buffer passes exactly when it is the expected write, and fits. */
  lemma MatchesExactly(a: nat, b: nat, size: nat)
    requires a < WORD && b < WORD && size > 0
    ensures Matches(CString(Buffer(Pattern(a), size)), Pattern(b)) <==> a == b && CompareLength(Pattern(b)) < size
  {
    Discriminating(a, b, size);
    PatternPrintable(b);
    OwnPatternMatches(Pattern(b), size);
  }

  // ---- The address that comes back

  /** The first block of a zone. */
  function ZoneStart(zone: nat): nat { zone * 0x80000 }

  /** The completion keeps the low 32 bits of the address the device picked. */
  function Cdw0(lba: nat): (r: nat)
    ensures r < 0x1_0000_0000 && (lba - r) % 0x1_0000_0000 == 0
  {
    lba % 0x1_0000_0000
  }

  /** In a zone of 0x80000 blocks that is the address itself exactly for the first 8192 zones. */
  lemma AddressExact(zone: nat, lba: nat)
    requires ZoneStart(zone) <= lba < ZoneStart(zone + 1)
    ensures Cdw0(lba) == lba <==> zone < 8192
  {
  }

  // ---- Buffers as sectors

  /** The whole sectors of a buffer. */
  function Split(b: string, sectorSize: nat): seq<string>
    requires sectorSize > 0
  {
    if |b| < sectorSize then [] else [b[..sectorSize]] + Split(b[sectorSize..], sectorSize)
  }

  function Join(sectors: seq<string>): string {
    if sectors == [] then [] else sectors[0] + Join(sectors[1..])
  }

  /** The size of `n` sectors. */
  function Bytes(n: nat, sectorSize: nat): nat {
    if n == 0 then 0 else sectorSize + Bytes(n - 1, sectorSize)
  }

  lemma {:induction false} BytesIsProduct(n: nat, sectorSize: nat)
    ensures Bytes(n, sectorSize) == n * sectorSize
  {
    if n > 0 {
      BytesIsProduct(n - 1, sectorSize);
      assert n * sectorSize == (n - 1) * sectorSize + sectorSize;
    }
  }

  lemma {:induction false} SplitJoin(b: string, sectorSize: nat, n: nat)
    requires sectorSize > 0 && |b| == Bytes(n, sectorSize)
    ensures |Split(b, sectorSize)| == n && Join(Split(b, sectorSize)) == b
  {
    if n > 0 {
      SplitJoin(b[sectorSize..], sectorSize, n - 1);
      assert b == b[..sectorSize] + b[sectorSize..];
    }
  }
}
