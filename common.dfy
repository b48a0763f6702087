/** Vocabulary shared by every part of the model: bytes and fixed-width
    integers, the error and result types that stand for Go's `error` returns,
    the little-endian and hexadecimal codecs, UTF-8 encoding of identifiers,
    and the oracles the model is parameterised by (SHA-256 and float64
    parsing). */
module Common {

  newtype byte = x: int | 0 <= x < 256

  type u32 = x: nat | x < 0x1_0000_0000
  type u64 = x: nat | x < 0x1_0000_0000_0000_0000

  const MaxInt64: int := 0x7FFF_FFFF_FFFF_FFFF
  const MinInt64: int := -0x8000_0000_0000_0000

  datatype Option<+T> = None | Some(value: T)

  /** The failures the Go code reports; Go's message texts and `%w` wrapping
      are reduced to these kinds. */
  datatype Error =
    | ModelNotFound(modelId: string)
    | ObjectNotFound(objectId: string)
    | BlockNotFound
    | NoSuchFile(name: string)
    | CollectionNotFound
    | IoFailure
    | Cancelled
    | ReadChunkFailed(chunk: nat)
    | WriteChunkFailed(chunk: nat)
    | UnsupportedFormat
    | InvalidLine(reason: string)
    | BadNumber(text: string)
    | NotEnoughValues
    | FaceTooSmall
    | IndexOutOfBounds(index: int, max: nat)
    | SpecifiedBeforeMaterial(keyword: string)
    | InvalidValue(what: string, cause: Error)
    | InvalidFbx
    | UnsupportedFbxVersion(version: nat)
    | Panic
    | Diverges
    | ConnectFailed
    | MaxBackoffReached

  /** A value or an error, for Go's `(T, error)` returns. */
  datatype Result<+T> = Ok(value: T) | Err(error: Error)

  /** Go's bare `error` return: `nil` is `Pass`. */
  datatype Outcome = Pass | Fail(error: Error)

  // ---------------------------------------------------------------------
  // Little-endian integers (encoding/binary.LittleEndian)
  // ---------------------------------------------------------------------

  function Pow256(n: nat): (r: nat)
    ensures r > 0
  {
    if n == 0 then 1 else 256 * Pow256(n - 1)
  }

  lemma Pow256Widths()
    ensures Pow256(4) == 0x1_0000_0000
    ensures Pow256(8) == 0x1_0000_0000_0000_0000
  {
    assert Pow256(1) == 256;
    assert Pow256(2) == 0x1_0000;
    assert Pow256(3) == 0x100_0000;
    assert Pow256(4) == 0x1_0000_0000;
    assert Pow256(5) == 0x100_0000_0000;
    assert Pow256(6) == 0x1_0000_0000_0000;
    assert Pow256(7) == 0x100_0000_0000_0000;
  }

  /** The unsigned value of a little-endian byte string. */
  function LeValue(s: seq<byte>): (r: nat)
    ensures r < Pow256(|s|)
  {
    if s == [] then 0 else s[0] as nat + 256 * LeValue(s[1..])
  }

  /** The n-byte little-endian encoding of x. */
  function LeBytes(x: nat, n: nat): (r: seq<byte>)
    requires x < Pow256(n)
    ensures |r| == n
  {
    if n == 0 then [] else [(x % 256) as byte] + LeBytes(x / 256, n - 1)
  }

  lemma {:induction false} LeValueOfBytes(x: nat, n: nat)
    requires x < Pow256(n)
    ensures LeValue(LeBytes(x, n)) == x
  {
    if n > 0 {
      LeValueOfBytes(x / 256, n - 1);
      assert LeBytes(x, n)[1..] == LeBytes(x / 256, n - 1);
    }
  }

  lemma {:induction false} LeBytesOfValue(s: seq<byte>)
    ensures LeBytes(LeValue(s), |s|) == s
  {
    if s != [] {
      LeBytesOfValue(s[1..]);
      assert LeValue(s) % 256 == s[0] as nat;
      assert LeValue(s) / 256 == LeValue(s[1..]);
    }
  }

  /** binary.LittleEndian.Uint32(s[at:at+4]) */
  function LeU32(s: seq<byte>, at: nat): (r: u32)
    requires at + 4 <= |s|
  {
    Pow256Widths();
    LeValue(s[at..at + 4])
  }

  /** binary.LittleEndian.Uint64(s[at:at+8]) */
  function LeU64(s: seq<byte>, at: nat): (r: u64)
    requires at + 8 <= |s|
  {
    Pow256Widths();
    LeValue(s[at..at + 8])
  }

  /** binary.LittleEndian.PutUint64 into a fresh 8-byte buffer. */
  function PutU64(x: u64): (r: seq<byte>)
    ensures |r| == 8
  {
    Pow256Widths();
    LeBytes(x, 8)
  }

  lemma PutU64RoundTrip(x: u64)
    ensures LeU64(PutU64(x), 0) == x
  {
    Pow256Widths();
    LeValueOfBytes(x, 8);
    assert PutU64(x)[0..8] == PutU64(x);
  }

  // ---------------------------------------------------------------------
  // Lower-case hexadecimal (fmt "%x", hex.EncodeToString)
  // ---------------------------------------------------------------------

  predicate IsHexDigit(c: char) {
    '0' <= c <= '9' || 'a' <= c <= 'f'
  }

  function HexDigit(d: nat): (c: char)
    requires d < 16
    ensures IsHexDigit(c)
  {
    if d < 10 then (48 + d) as char else (87 + d) as char
  }

  function HexDigitValue(c: char): (d: nat)
    requires IsHexDigit(c)
    ensures d < 16
  {
    if c <= '9' then c as int - 48 else c as int - 87
  }

  /** Two lower-case hex digits per byte, high nibble first. */
  function Hex(s: seq<byte>): (r: string)
    ensures |r| == 2 * |s|
    ensures forall i :: 0 <= i < |r| ==> IsHexDigit(r[i])
  {
    if s == [] then "" else [HexDigit(s[0] as int / 16), HexDigit(s[0] as int % 16)] + Hex(s[1..])
  }

  /** The decoder partner of Hex. */
  function Unhex(r: string): seq<byte>
    requires |r| % 2 == 0
    requires forall i :: 0 <= i < |r| ==> IsHexDigit(r[i])
  {
    if r == "" then [] else [(16 * HexDigitValue(r[0]) + HexDigitValue(r[1])) as byte] + Unhex(r[2..])
  }

  lemma {:induction false} UnhexHex(s: seq<byte>)
    ensures Unhex(Hex(s)) == s
  {
    if s != [] {
      var r := Hex(s);
      assert r[2..] == Hex(s[1..]);
      UnhexHex(s[1..]);
    }
  }

  lemma HexInjective(a: seq<byte>, b: seq<byte>)
    requires Hex(a) == Hex(b)
    ensures a == b
  {
    UnhexHex(a);
    UnhexHex(b);
  }

  // ---------------------------------------------------------------------
  // Oracles
  // ---------------------------------------------------------------------

  /** A SHA-256 digest. */
  type Digest = s: seq<byte> | |s| == 32 witness seq(32, i => 0 as byte)

  /** SHA-256 is not computed: the model is parameterised by the hash function. */
  type Hasher = seq<byte> -> Digest

  /** hex.EncodeToString(sha256.Sum256(data)), also fmt "%x" of a digest. */
  function HexDigest(sha: Hasher, data: seq<byte>): (r: string)
    ensures |r| == 64
    ensures forall i :: 0 <= i < |r| ==> IsHexDigit(r[i])
  {
    Hex(sha(data))
  }

  /** Two hex digests are equal exactly when the digests are: the hex text
      loses nothing, so equal names come only from equal data or from a
      collision of the hash itself. */
  lemma HexDigestEqual(sha: Hasher, a: seq<byte>, b: seq<byte>)
    ensures HexDigest(sha, a) == HexDigest(sha, b) <==> sha(a) == sha(b)
  {
    if HexDigest(sha, a) == HexDigest(sha, b) {
      HexInjective(sha(a), sha(b));
    }
  }

  /** A float64 is carried as its IEEE-754 bit pattern and never computed on. */
  type Float = u64

  /** The bit pattern of +0.0, Go's zero value for float64. */
  const FloatZero: Float := 0

  /** strconv.ParseFloat(s, 64) as a partial function, and the one
      subtraction the importers perform (`1.0 - v`). */
  datatype FloatOps = FloatOps(parse: string -> Option<Float>, oneMinus: Float -> Float)

  // ---------------------------------------------------------------------
  // UTF-8 ([]byte(s) of a Go string)
  // ---------------------------------------------------------------------

  function Utf8Char(c: char): (r: seq<byte>)
    ensures 1 <= |r| <= 4
  {
    var n := c as int;
    if n < 0x80 then [n as byte]
    else if n < 0x800 then [(0xC0 + n / 0x40) as byte, (0x80 + n % 0x40) as byte]
    else if n < 0x1_0000 then
      [(0xE0 + n / 0x1000) as byte, (0x80 + n / 0x40 % 0x40) as byte, (0x80 + n % 0x40) as byte]
    else
      [(0xF0 + n / 0x4_0000) as byte, (0x80 + n / 0x1000 % 0x40) as byte,
       (0x80 + n / 0x40 % 0x40) as byte, (0x80 + n % 0x40) as byte]
  }

  function Utf8(s: string): seq<byte> {
    if s == "" then [] else Utf8Char(s[0]) + Utf8(s[1..])
  }

  // ---------------------------------------------------------------------
  // Sequences of chunks
  // ---------------------------------------------------------------------

  function Flatten<T>(parts: seq<seq<T>>): seq<T> {
    if parts == [] then [] else parts[0] + Flatten(parts[1..])
  }

  function TotalLength<T>(parts: seq<seq<T>>): nat {
    if parts == [] then 0 else |parts[0]| + TotalLength(parts[1..])
  }

  lemma {:induction false} FlattenLength<T>(parts: seq<seq<T>>)
    ensures |Flatten(parts)| == TotalLength(parts)
  {
    if parts != [] {
      FlattenLength(parts[1..]);
    }
  }

  lemma {:induction false} FlattenAppend<T>(parts: seq<seq<T>>, last: seq<T>)
    ensures Flatten(parts + [last]) == Flatten(parts) + last
    ensures TotalLength(parts + [last]) == TotalLength(parts) + |last|
  {
    if parts == [] {
      assert parts + [last] == [last];
    } else {
      assert (parts + [last])[1..] == parts[1..] + [last];
      FlattenAppend(parts[1..], last);
    }
  }

  predicate NoDuplicates<T(==)>(s: seq<T>) {
    forall i, j :: 0 <= i < j < |s| ==> s[i] != s[j]
  }
}
