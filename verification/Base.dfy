/** Bytes, object identifiers, byte order and the small arithmetic the other modules share.
    A Go string and a Go byte slice are both a sequence of `Byte`. */
module Base {
  datatype Option<+T> = None | Some(value: T) {
    function GetOr(other: T): T {
      if Some? then value else other
    }
  }

  type Byte = c: char | c as int < 256
  type Bytes = seq<Byte>

  const OID_LEN := 20
  type OID = b: Bytes | |b| == OID_LEN witness seq(20, _ => '\0')

  /** The content hash `BlobOID`: any function of a kind and the data. Nothing says it is injective. */
  type Hash = (Bytes, Bytes) -> OID

  /** A chunk kind: the four bytes of the little-endian 32-bit `Kind`. */
  type Kind = b: Bytes | |b| == 4 witness "null"

  const UINT32 := 0x1_0000_0000

  /** The conversion `byte(n)`, which keeps the low eight bits. */
  function Chr(n: nat): Byte {
    (n % 256) as char
  }

  function BE16(n: nat): (b: Bytes)
    ensures |b| == 2
  {
    [Chr(n / 256), Chr(n)]
  }

  function UnBE16(hi: Byte, lo: Byte): nat {
    hi as int * 256 + lo as int
  }

  function LE32(n: nat): (b: Bytes)
    ensures |b| == 4
  {
    [Chr(n), Chr(n / 0x100), Chr(n / 0x1_0000), Chr(n / 0x100_0000)]
  }

  function UnLE32(b: Bytes): (n: nat)
    requires |b| == 4
    ensures n < UINT32
  {
    b[0] as int + b[1] as int * 0x100 + b[2] as int * 0x1_0000 + b[3] as int * 0x100_0000
  }

  /** The high byte comes first. */
  lemma BE16Bytes(n: nat)
    requires n < 0x1_0000
    ensures BE16(n) == [(n / 256) as char, (n % 256) as char]
    ensures UnBE16((n / 256) as char, (n % 256) as char) == n
  {
  }

  /** The low byte comes first. */
  lemma LE32Bytes(n: nat)
    requires n < UINT32
    ensures var b := LE32(n);
      && b[0] as int == n % 0x100 && b[1] as int == n / 0x100 % 0x100
      && b[2] as int == n / 0x1_0000 % 0x100 && b[3] as int == n / 0x100_0000
  {
  }

  lemma BE16RoundTrip(n: nat)
    ensures UnBE16(BE16(n)[0], BE16(n)[1]) == n % 0x1_0000
  {
    hide Less;
    Digits256(n);
  }

  lemma Digits256(n: nat)
    ensures n / 256 % 256 * 256 + n % 256 == n % 0x1_0000
  {
    var q, low := n / 256, n % 256;
    Mod16(n, q / 256, 256 * (q % 256) + low);
  }

  lemma Mod16(n: int, q: int, low: int)
    requires 0 <= low < 0x1_0000 && n == 0x1_0000 * q + low
    ensures n % 0x1_0000 == low
  {
  }

  lemma BE16OfUn(hi: Byte, lo: Byte)
    ensures BE16(UnBE16(hi, lo)) == [hi, lo]
  {
    Shift8(lo as int, hi as int);
  }

  lemma LE32RoundTrip(n: nat)
    ensures UnLE32(LE32(n)) == n % UINT32
  {
    DivTwice(n);
    var n1, n2, n3 := n / 0x100, n / 0x1_0000, n / 0x100_0000;
    var n4 := n3 / 0x100;
    var low := n % 0x100 + n1 % 0x100 * 0x100 + n2 % 0x100 * 0x1_0000 + n3 % 0x100 * 0x100_0000;
    assert n == n % 0x100 + 0x100 * n1 && n1 == n1 % 0x100 + 0x100 * n2;
    assert n2 == n2 % 0x100 + 0x100 * n3 && n3 == n3 % 0x100 + 0x100 * n4;
    assert n == low + UINT32 * n4;
    LowPart(low, n4);
  }

  lemma DivTwice(n: nat)
    ensures n / 0x1_0000 == n / 0x100 / 0x100 && n / 0x100_0000 == n / 0x1_0000 / 0x100
  {
  }

  lemma LowPart(low: nat, high: nat)
    requires low < UINT32
    ensures (low + UINT32 * high) % UINT32 == low
  {
  }

  lemma Shift8(low: nat, high: nat)
    requires low < 0x100
    ensures (low + 0x100 * high) / 0x100 == high && (low + 0x100 * high) % 0x100 == low
  {
  }

  /** `bytes.Compare(a, b) < 0`, which is also the order of `sort.Strings`. */
  predicate Less(a: Bytes, b: Bytes) {
    b != [] && (a == [] || a[0] < b[0] || (a[0] == b[0] && Less(a[1..], b[1..])))
  }

  /** The strings agree up to here, and then the first ends or has the smaller byte. */
  predicate LessFrom(a: Bytes, b: Bytes, i: nat) {
    && i <= |a| && i < |b| && a[..i] == b[..i]
    && (i == |a| || a[i] < b[i])
  }

  /** The order is that of the first difference, and a prefix comes before what it begins. */
  lemma {:induction false} LessExactly(a: Bytes, b: Bytes)
    ensures Less(a, b) <==> exists i: nat :: LessFrom(a, b, i)
  {
    if b == [] || a == [] || a[0] != b[0] {
      if Less(a, b) {
        assert LessFrom(a, b, 0);
      }
      if i: nat :| LessFrom(a, b, i) {
        assert i > 0 ==> a[..i][0] == b[..i][0];
      }
    } else {
      LessExactly(a[1..], b[1..]);
      if i: nat :| LessFrom(a[1..], b[1..], i) {
        assert a[..i + 1] == [a[0]] + a[1..][..i] && b[..i + 1] == [b[0]] + b[1..][..i];
        assert LessFrom(a, b, i + 1);
      }
      if i: nat :| LessFrom(a, b, i) {
        assert i > 0;
        assert a[1..][..i - 1] == a[..i][1..] && b[1..][..i - 1] == b[..i][1..];
        assert LessFrom(a[1..], b[1..], i - 1);
      }
    }
  }

  lemma {:induction false} LessTotal(a: Bytes, b: Bytes)
    ensures Less(a, b) || a == b || Less(b, a)
  {
    if a != [] && b != [] && a[0] == b[0] {
      LessTotal(a[1..], b[1..]);
      assert a == [a[0]] + a[1..] && b == [b[0]] + b[1..];
    }
  }

  lemma {:induction false} LessTransitive(a: Bytes, b: Bytes, c: Bytes)
    requires Less(a, b) && Less(b, c)
    ensures Less(a, c)
  {
    if a != [] && a[0] == b[0] && b[0] == c[0] {
      LessTransitive(a[1..], b[1..], c[1..]);
    }
  }

  lemma {:induction false} LessIrreflexive(a: Bytes)
    ensures !Less(a, a)
  {
    if a != [] {
      LessIrreflexive(a[1..]);
    }
  }

  function Pow(k: nat, e: nat): nat {
    if e == 0 then 1 else k * Pow(k, e - 1)
  }

  lemma MulMono(k: nat, a: nat, b: nat)
    requires a <= b
    ensures k * a <= k * b
  {
  }

  lemma {:induction false} PowPositive(k: nat, e: nat)
    requires k >= 1
    ensures Pow(k, e) >= 1
  {
    if e > 0 {
      PowPositive(k, e - 1);
      MulMono(k, 1, Pow(k, e - 1));
    }
  }

  /** ceil(n / k). */
  function Ceil(n: nat, k: nat): nat
    requires k >= 1
  {
    (n + k - 1) / k
  }

  lemma Assoc(a: Bytes, b: Bytes, c: Bytes)
    ensures a + b + c == a + (b + c)
  {
  }

  function Concat(parts: seq<Bytes>): Bytes {
    if parts == [] then [] else parts[0] + Concat(parts[1..])
  }

  lemma {:induction false} ConcatAppend(a: seq<Bytes>, b: seq<Bytes>)
    ensures Concat(a + b) == Concat(a) + Concat(b)
  {
    if a == [] {
      assert a + b == b;
    } else {
      ConcatAppend(a[1..], b);
      assert (a + b)[1..] == a[1..] + b;
      Assoc(a[0], Concat(a[1..]), Concat(b));
    }
  }

  /** An arbitrary answer of the environment: whether a call into the file system or the database fails. */
  method EnvFails() returns (failed: bool) {
    failed := *;
  }
}
