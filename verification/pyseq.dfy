/** The few Python list operations the desk engine relies on: byte values,
    slices with Python's clamping and negative-index rules, and the
    mod-256 sum used as the protocol checksum; also the terminator byte
    both directions of the desk protocol share. */
module PySeq {

  /** A value of a Python `bytes` object or of a list element that
      `bytearray` accepts. */
  type Byte = x: int | 0 <= x < 256

  /** The byte that ends every frame of the desk protocol, in both
      directions. */
  const Terminator: Byte := 126

  datatype Option<+T> = None | Some(value: T)

  /** Python's normalisation of one slice bound against a list of length
      `n`: a negative bound counts from the end, and the result is clamped
      to `[0, n]`. */
  function Bound(k: int, n: nat): (b: nat)
    ensures b <= n
    ensures 0 <= k <= n ==> b == k
  {
    if k < 0 then (if n + k < 0 then 0 else n + k)
    else if k > n then n
    else k
  }

  /** `s[lo:hi]` in Python. */
  function Slice<T>(s: seq<T>, lo: int, hi: int): (r: seq<T>)
    ensures |r| <= |s|
    ensures 0 <= lo <= hi <= |s| ==> r == s[lo..hi]
    ensures 0 <= lo <= |s| < hi ==> r == s[lo..]
    ensures 0 <= hi <= lo ==> r == []
  {
    var a := Bound(lo, |s|);
    var b := Bound(hi, |s|);
    if a < b then s[a..b] else []
  }

  /** `sum(s)` in Python. */
  function Sum(s: seq<int>): int
  {
    if |s| == 0 then 0 else s[0] + Sum(s[1..])
  }

  /** Sums of the short lists the protocol checksums. */
  lemma SumShort(s: seq<int>)
    ensures |s| == 1 ==> Sum(s) == s[0]
    ensures |s| == 2 ==> Sum(s) == s[0] + s[1]
    ensures |s| == 4 ==> Sum(s) == s[0] + s[1] + s[2] + s[3]
    ensures |s| == 5 ==> Sum(s) == s[0] + s[1] + s[2] + s[3] + s[4]
    ensures |s| == 6 ==> Sum(s) == s[0] + s[1] + s[2] + s[3] + s[4] + s[5]
  {
    if 1 <= |s| {
      assert Sum(s) == s[0] + Sum(s[1..]);
      if 2 <= |s| {
        assert s[1..][1..] == s[2..];
        if 3 <= |s| {
          assert s[2..][1..] == s[3..];
          if 4 <= |s| {
            assert s[3..][1..] == s[4..];
            if 5 <= |s| {
              assert s[4..][1..] == s[5..];
              if 6 <= |s| {
                assert s[5..][1..] == s[6..];
              }
            }
          }
        }
      }
    }
  }

  /** The protocol checksum: the sum of the covered bytes, modulo 256.
      Python's `%` and Dafny's agree here because the divisor is positive. */
  function Checksum(s: seq<int>): Byte
  {
    Sum(s) % 256
  }

  /** Every element is a value `bytearray` accepts. */
  predicate AllBytes(s: seq<int>)
  {
    forall k :: 0 <= k < |s| ==> 0 <= s[k] < 256
  }
}
