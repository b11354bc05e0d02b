/** NUL-terminated byte strings and the C library's `strncpy`, on byte
    sequences. A C string is passed as the bytes of its buffer; the string
    ends at the first NUL byte, or at the end of the sequence if there is none. */
module CString {

  /** `n` zero bytes. */
  function Zeros(n: nat): (z: seq<bv8>)
    ensures |z| == n
    ensures forall i :: 0 <= i < n ==> z[i] == 0
  {
    seq(n, _ => 0)
  }

  /** `strlen`: the number of bytes before the first NUL (or all of them). */
  function Length(s: seq<bv8>): (k: nat)
    ensures k <= |s|
    ensures forall i :: 0 <= i < k ==> s[i] != 0
    ensures k < |s| ==> s[k] == 0
  {
    if |s| == 0 || s[0] == 0 then 0 else 1 + Length(s[1..])
  }

  /** The length is the only position that ends a NUL-free prefix. */
  lemma {:induction false} LengthUnique(s: seq<bv8>, k: nat)
    requires k <= |s|
    requires forall i :: 0 <= i < k ==> s[i] != 0
    requires k < |s| ==> s[k] == 0
    ensures Length(s) == k
  {
    if k > 0 {
      LengthUnique(s[1..], k - 1);
    }
  }

  /** `strncpy(dst, src, n)`: the `n` bytes written to `dst`. Bytes of `src`
      are copied up to its first NUL; once the NUL is reached, the rest of
      `dst` is filled with zero bytes. When `src` has `n` or more bytes before
      its NUL, exactly `n` of them are copied and no NUL is written. */
  function StrNCpy(src: seq<bv8>, n: nat): (dst: seq<bv8>)
    ensures |dst| == n
    ensures forall i :: 0 <= i < n ==> dst[i] == if i < Length(src) then src[i] else 0
    decreases n
  {
    if n == 0 then []
    else if |src| == 0 || src[0] == 0 then [0] + StrNCpy([], n - 1)
    else [src[0]] + StrNCpy(src[1..], n - 1)
  }

  /** The string held in a fixed-width field, as a reader of the field takes
      it: the bytes before the first NUL, or the whole field if it has none. */
  function Read(field: seq<bv8>): (s: seq<bv8>)
    ensures |s| <= |field| && s == field[..|s|]
    ensures 0 !in s
    ensures |s| < |field| ==> field[|s|] == 0
  {
    field[..Length(field)]
  }

  /** `strncpy` writes a terminating NUL exactly when the string is shorter
      than the field. */
  lemma {:induction false} StrNCpyTerminated(src: seq<bv8>, n: nat)
    ensures 0 in StrNCpy(src, n) <==> Length(src) < n
  {
    var dst := StrNCpy(src, n);
    if Length(src) < n {
      assert dst[Length(src)] == 0;
    } else {
      forall i | 0 <= i < n ensures dst[i] != 0 {
        assert dst[i] == src[i];
      }
    }
  }

  /** Reading back a field written by `strncpy` gives the string, cut to the
      field width. */
  lemma {:induction false} ReadStrNCpy(src: seq<bv8>, n: nat)
    ensures Read(StrNCpy(src, n)) == src[..if Length(src) < n then Length(src) else n]
  {
    var dst := StrNCpy(src, n);
    var k := if Length(src) < n then Length(src) else n;
    LengthUnique(dst, k);
    assert dst[..k] == src[..k];
  }

  /** A name that fits is stored in full and read back unchanged. */
  lemma {:induction false} ReadStrNCpyFits(src: seq<bv8>, n: nat)
    requires 0 !in src && |src| < n
    ensures Read(StrNCpy(src, n)) == src
  {
    LengthUnique(src, |src|);
    ReadStrNCpy(src, n);
  }
}
