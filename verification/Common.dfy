/** Vocabulary shared by every model: optional values, bytes, and the saturating
    and checked arithmetic of unsigned 64-bit machine words. */
module Common {

  datatype Option<+T> = None | Some(value: T)

  datatype Result<+T, +E> = Ok(value: T) | Err(error: E)

  newtype Byte = x: int | 0 <= x < 256

  type Bytes = seq<Byte>

  const U64_MAX: nat := 0xFFFF_FFFF_FFFF_FFFF

  /** The bytes a transfer moves at a time. */
  const CHUNK: nat := 0x10_0000

  function Min(a: nat, b: nat): nat {
    if a <= b then a else b
  }

  function Max(a: nat, b: nat): nat {
    if a >= b then a else b
  }

  /** `a.saturating_add(b)` on 64-bit words. */
  function SatAdd(a: nat, b: nat): nat {
    Min(a + b, U64_MAX)
  }

  /** `a.saturating_sub(b)`. */
  function SatSub(a: nat, b: nat): nat {
    if a >= b then a - b else 0
  }

  /** `a.checked_add(b)` on 64-bit words. */
  function CheckedAdd(a: nat, b: nat): Option<nat> {
    if a + b <= U64_MAX then Some(a + b) else None
  }

  function Zeros(n: nat): Bytes {
    seq(n, _ => 0 as Byte)
  }

  /** The element at `i`, or nothing past the end. */
  function At<T>(s: seq<T>, i: nat): Option<T> {
    if i < |s| then Some(s[i]) else None
  }

  /** `s` with `bytes` written over it from `off` on; a gap past the end reads as zeros. */
  function Overwrite(s: Bytes, off: nat, bytes: Bytes): Bytes {
    var base := if |s| < off then s + Zeros(off - |s|) else s;
    if |base| <= off + |bytes| then base[..off] + bytes else base[..off] + bytes + base[off + |bytes|..]
  }

  lemma SliceOfSlice<T>(s: seq<T>, a: nat, b: nat, c: nat, d: nat)
    requires a <= b <= |s| && c <= d <= b - a
    ensures s[a..b][c..d] == s[a + c..a + d]
  {
    forall i | 0 <= i < d - c ensures s[a..b][c..d][i] == s[a + c..a + d][i] {}
  }

  lemma SliceJoin<T>(s: seq<T>, a: nat, b: nat, c: nat)
    requires a <= b <= c <= |s|
    ensures s[a..b] + s[b..c] == s[a..c]
  {
  }

  ghost predicate NoDup<T(!new)>(s: seq<T>) {
    forall i, j :: 0 <= i < j < |s| ==> s[i] != s[j]
  }

  /** `n` in decimal digits. */
  function Decimal(n: nat): (s: string)
    ensures |s| > 0
  {
    var digit := ['0' + (n % 10) as char];
    if n < 10 then digit else Decimal(n / 10) + digit
  }

  lemma SubsetSize<T>(a: set<T>, b: set<T>)
    requires a <= b
    ensures |a| <= |b|
  {
    assert b == a + (b - a);
  }
}
