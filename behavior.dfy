/** The section pacing profile of `internal/runtime/behavior.go` (`DeriveSectionBehavior`): a
    fixed byte layout of the run seed, user name, section index and optional secret is
    hashed, and fixed 4-byte big-endian windows of the 64-byte digest are mapped into the
    ranges of the profile's fields. SHA-512 is the parameter `hash`; the float fields are
    exact reals. */
module Behavior {

  type Byte = x: int | 0 <= x < 256

  /** A SHA-512 digest. */
  type Digest = s: seq<Byte> | |s| == 64 witness seq(64, _ => 0)

  /** Go's `int` on a 64-bit platform. */
  type Int64 = x: int | -0x8000_0000_0000_0000 <= x < 0x8000_0000_0000_0000

  const Two32: int := 0x1_0000_0000
  const Two64: int := 0x1_0000_0000_0000_0000

  /** `math.MaxUint32`. */
  const MaxUint32: int := 0xFFFF_FFFF

  /** `time.Millisecond`, in nanoseconds. */
  const Millisecond: int := 1_000_000

  /** The bytes of an ASCII label. */
  function Ascii(s: string): (r: seq<Byte>)
    requires forall i :: 0 <= i < |s| ==> s[i] as int < 128
    ensures |r| == |s| && forall i :: 0 <= i < |s| ==> r[i] == s[i] as int
  {
    seq(|s|, i requires 0 <= i < |s| => s[i] as int)
  }

  /** `uint64(sectionIndex)`: two's complement. */
  function Uint64(n: Int64): (r: nat)
    ensures r < Two64
    ensures n >= 0 ==> r == n
    ensures n < 0 ==> r == n + Two64
  {
    n % Two64
  }

  /** The `k` low bytes of `n`, most significant first; with `k == 8` this is
      `binary.BigEndian.PutUint64`. */
  function BigEndianBytes(n: nat, k: nat): (r: seq<Byte>)
    ensures |r| == k
  {
    if k == 0 then [] else BigEndianBytes(n / 256, k - 1) + [n % 256]
  }

  function BE64(n: nat): (r: seq<Byte>)
    requires n < Two64
    ensures |r| == 8
  {
    BigEndianBytes(n, 8)
  }

  function Pow256(k: nat): (r: nat)
    ensures r >= 1
  {
    if k == 0 then 1 else 256 * Pow256(k - 1)
  }

  lemma Pow256Values()
    ensures Pow256(4) == Two32 && Pow256(8) == Two64
  {
    assert Pow256(1) == 256;
    assert Pow256(2) == 65536;
    assert Pow256(3) == 16777216;
    assert Pow256(4) == 4294967296;
    assert Pow256(5) == 1099511627776;
    assert Pow256(6) == 281474976710656;
    assert Pow256(7) == 72057594037927936;
  }

  /** The big-endian value of a byte string (`binary.BigEndian.Uint32` for four bytes). */
  function BigEndian(b: seq<Byte>): nat
  {
    if b == [] then 0 else BigEndian(b[..|b| - 1]) * 256 + b[|b| - 1]
  }

  lemma {:induction false} BigEndianBound(b: seq<Byte>)
    ensures BigEndian(b) < Pow256(|b|)
  {
    if b != [] {
      BigEndianBound(b[..|b| - 1]);
    }
  }

  /** Reading back the bytes written gives the number. */
  lemma {:induction false} BigEndianRoundTrip(n: nat, k: nat)
    requires n < Pow256(k)
    ensures BigEndian(BigEndianBytes(n, k)) == n
  {
    if k > 0 {
      var b := BigEndianBytes(n, k);
      assert b[..|b| - 1] == BigEndianBytes(n / 256, k - 1);
      BigEndianRoundTrip(n / 256, k - 1);
    }
  }

  lemma BE64RoundTrip(n: nat)
    requires n < Two64
    ensures BigEndian(BE64(n)) == n
  {
    Pow256Values();
    BigEndianRoundTrip(n, 8);
  }

  /** The hash input: the run seed, "|user:", the user name, "|section:", the section index
      as eight big-endian bytes, and "|secret:" with the secret only when there is one.
      `username` is the user name's UTF-8 bytes. */
  function Preimage(runSeed: seq<Byte>, username: seq<Byte>, sectionIndex: Int64, secret: seq<Byte>): seq<Byte>
  {
    runSeed + Ascii("|user:") + username + Ascii("|section:") + BE64(Uint64(sectionIndex))
    + (if |secret| > 0 then Ascii("|secret:") + secret else [])
  }

  /** Where the section bytes sit in the preimage. */
  lemma SectionBytesAt(runSeed: seq<Byte>, username: seq<Byte>, sectionIndex: Int64, secret: seq<Byte>)
    ensures var p := Preimage(runSeed, username, sectionIndex, secret); var o := |runSeed| + 6 + |username| + 9;
      && |p| == o + 8 + (if |secret| > 0 then 8 + |secret| else 0)
      && p[..|runSeed|] == runSeed
      && p[o..o + 8] == BE64(Uint64(sectionIndex))
      && p[o + 8..] == (if |secret| > 0 then Ascii("|secret:") + secret else [])
  {
    var head := runSeed + Ascii("|user:") + username + Ascii("|section:");
    var tail := if |secret| > 0 then Ascii("|secret:") + secret else [];
    var p := Preimage(runSeed, username, sectionIndex, secret);
    assert p == head + BE64(Uint64(sectionIndex)) + tail;
  }

  /** Distinct sections of one run and user hash distinct inputs. */
  lemma SectionsDiffer(runSeed: seq<Byte>, username: seq<Byte>, i: Int64, j: Int64, secret: seq<Byte>)
    requires i != j
    ensures Preimage(runSeed, username, i, secret) != Preimage(runSeed, username, j, secret)
  {
    SectionBytesAt(runSeed, username, i, secret);
    SectionBytesAt(runSeed, username, j, secret);
    BE64RoundTrip(Uint64(i));
    BE64RoundTrip(Uint64(j));
  }

  /** Without a secret the preimage ends with the section bytes; a non-empty secret is
      appended after its label. */
  lemma SecretOptional(runSeed: seq<Byte>, username: seq<Byte>, sectionIndex: Int64, secret: seq<Byte>)
    ensures |Preimage(runSeed, username, sectionIndex, [])| == |runSeed| + 6 + |username| + 9 + 8
    ensures |secret| > 0 ==>
      Preimage(runSeed, username, sectionIndex, secret) == Preimage(runSeed, username, sectionIndex, []) + Ascii("|secret:") + secret
  {
    SectionBytesAt(runSeed, username, sectionIndex, []);
  }

  /** The byte offsets of the windows read for the six fields, in field order. */
  const Windows: seq<nat> := [0, 4, 8, 12, 16, 20]

  /** The six windows are pairwise disjoint and lie inside the digest. */
  lemma WindowsDisjoint()
    ensures forall k :: 0 <= k < |Windows| ==> Windows[k] + 4 <= 64
    ensures forall k, l :: 0 <= k < l < |Windows| ==> Windows[k] + 4 <= Windows[l]
  {
  }

  /** `binary.BigEndian.Uint32` of the window at `offset`. */
  function Window(sum: Digest, offset: nat): (r: nat)
    requires offset + 4 <= 64
    ensures r < Two32
  {
    BigEndianBound(sum[offset..offset + 4]);
    Pow256Values();
    BigEndian(sum[offset..offset + 4])
  }

  /** `takeUint`: the window modulo `max`, and 0 when `max` is 0. */
  function TakeUint(sum: Digest, offset: nat, max: nat): (r: nat)
    requires offset + 4 <= 64 && max < Two32
    ensures max == 0 ==> r == 0
    ensures max > 0 ==> r < max && r == Window(sum, offset) % max
  {
    if max == 0 then 0 else Window(sum, offset) % max
  }

  /** `takeFloat01`: the window as a fraction of `math.MaxUint32`. */
  function TakeFloat01(sum: Digest, offset: nat): (r: real)
    requires offset + 4 <= 64
    ensures 0.0 <= r <= 1.0
  {
    Window(sum, offset) as real / MaxUint32 as real
  }

  /** `SectionBehavior`; durations are in nanoseconds. */
  datatype SectionBehavior = SectionBehavior(
    baseDelay: int, jitterFactor: real, burstEvery: int, burstExtra: int, fakeRequestProb: real, pageShuffleWidth: int)

  /** The profile read from a digest, one field per window. */
  function Profile(sum: Digest): SectionBehavior
  {
    SectionBehavior(
      (300 + TakeUint(sum, Windows[0], 900)) * Millisecond,
      0.2 + TakeFloat01(sum, Windows[1]) * 0.4,
      15 + TakeUint(sum, Windows[2], 45),
      (2000 + TakeUint(sum, Windows[3], 5000)) * Millisecond,
      TakeFloat01(sum, Windows[4]) * 0.15,
      1 + TakeUint(sum, Windows[5], 4))
  }

  /** `DeriveSectionBehavior`: the profile of the digest of the preimage, whatever the digest,
      within the documented ranges. */
  function DeriveSectionBehavior(
    runSeed: seq<Byte>, username: seq<Byte>, sectionIndex: Int64, secret: seq<Byte>, hash: seq<Byte> -> Digest): (b: SectionBehavior)
    ensures 300 * Millisecond <= b.baseDelay <= 1199 * Millisecond && b.baseDelay % Millisecond == 0
    ensures 0.2 <= b.jitterFactor <= 0.6
    ensures 15 <= b.burstEvery <= 59
    ensures 2000 * Millisecond <= b.burstExtra <= 6999 * Millisecond && b.burstExtra % Millisecond == 0
    ensures 0.0 <= b.fakeRequestProb <= 0.15
    ensures 1 <= b.pageShuffleWidth <= 4
  {
    var sum := hash(Preimage(runSeed, username, sectionIndex, secret));
    ProfileRanges(sum);
    Profile(sum)
  }

  /** Every profile lies in the documented ranges. */
  lemma ProfileRanges(sum: Digest)
    ensures var b := Profile(sum);
      && 300 * Millisecond <= b.baseDelay <= 1199 * Millisecond && b.baseDelay % Millisecond == 0
      && 0.2 <= b.jitterFactor <= 0.6
      && 15 <= b.burstEvery <= 59
      && 2000 * Millisecond <= b.burstExtra <= 6999 * Millisecond && b.burstExtra % Millisecond == 0
      && 0.0 <= b.fakeRequestProb <= 0.15
      && 1 <= b.pageShuffleWidth <= 4
  {
    var b := Profile(sum);
    Scaled(TakeFloat01(sum, Windows[1]), 0.4);
    Scaled(TakeFloat01(sum, Windows[4]), 0.15);
    assert b.jitterFactor == 0.2 + TakeFloat01(sum, Windows[1]) * 0.4;
    assert b.fakeRequestProb == TakeFloat01(sum, Windows[4]) * 0.15;
    MillisecondSteps(TakeUint(sum, Windows[0], 900), 300);
    MillisecondSteps(TakeUint(sum, Windows[3], 5000), 2000);
  }

  /** A fraction in [0, 1] scaled by a non-negative factor stays within [0, factor]. */
  lemma Scaled(f: real, k: real)
    requires 0.0 <= f <= 1.0 && 0.0 <= k
    ensures 0.0 <= f * k <= k
  {
  }

  lemma MillisecondSteps(n: nat, base: nat)
    ensures (base + n) * Millisecond % Millisecond == 0
    ensures (base + n) * Millisecond == base * Millisecond + n * Millisecond
  {
  }

  /** Each field reads its own window only: digests that agree on a field's window give that
      field the same value, whatever the other bytes are. */
  lemma FieldsReadOwnWindows(d1: Digest, d2: Digest)
    ensures d1[0..4] == d2[0..4] ==> Profile(d1).baseDelay == Profile(d2).baseDelay
    ensures d1[4..8] == d2[4..8] ==> Profile(d1).jitterFactor == Profile(d2).jitterFactor
    ensures d1[8..12] == d2[8..12] ==> Profile(d1).burstEvery == Profile(d2).burstEvery
    ensures d1[12..16] == d2[12..16] ==> Profile(d1).burstExtra == Profile(d2).burstExtra
    ensures d1[16..20] == d2[16..20] ==> Profile(d1).fakeRequestProb == Profile(d2).fakeRequestProb
    ensures d1[20..24] == d2[20..24] ==> Profile(d1).pageShuffleWidth == Profile(d2).pageShuffleWidth
  {
  }
}
