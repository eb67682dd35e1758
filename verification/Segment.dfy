// A segment of a blob: packages/bam-sdk/src/blob/extract.ts and extract_segment_bytes of
// apps/bam-coprocessor/lib/src/lib.rs. A field element is 32 bytes whose first is padding (EIP-4844).
module Segment {
  import opened Wrappers
  import opened Bytes

  const BYTES_PER_FIELD_ELEMENT: nat := 32
  const USABLE_BYTES_PER_FIELD_ELEMENT: nat := 31
  const FIELD_ELEMENTS_PER_BLOB: nat := 4096
  const U16: nat := 0x1_0000

  /** The usable bytes of the field elements from `a` up to `b`. */
  function Usable(blob: bytes, a: nat, b: nat): (r: bytes)
    requires a <= b && b * BYTES_PER_FIELD_ELEMENT <= |blob|
    ensures |r| == (b - a) * USABLE_BYTES_PER_FIELD_ELEMENT
    decreases b - a
  {
    if a == b then []
    else Usable(blob, a, b - 1) + blob[(b - 1) * BYTES_PER_FIELD_ELEMENT + 1..b * BYTES_PER_FIELD_ELEMENT]
  }

  /** Byte `k` of a segment is byte `k % 31 + 1` of its field element `k / 31`. */
  lemma {:induction false} UsableAt(blob: bytes, a: nat, b: nat, k: nat)
    requires a <= b && b * BYTES_PER_FIELD_ELEMENT <= |blob| && k < (b - a) * USABLE_BYTES_PER_FIELD_ELEMENT
    ensures (a + k / 31) * 32 + 1 + k % 31 < |blob|
    ensures Usable(blob, a, b)[k] == blob[(a + k / 31) * 32 + 1 + k % 31]
    decreases b - a
  {
    if k < (b - 1 - a) * 31 {
      UsableAt(blob, a, b - 1, k);
    } else {
      assert k / 31 == b - 1 - a && k % 31 == k - (b - 1 - a) * 31;
    }
  }

  /** A segment is the segments it is cut into. */
  lemma {:induction false} SegmentSplits(blob: bytes, a: nat, b: nat, c: nat)
    requires a <= b <= c && c * BYTES_PER_FIELD_ELEMENT <= |blob|
    ensures Usable(blob, a, c) == Usable(blob, a, b) + Usable(blob, b, c)
    decreases c - b
  {
    if b == c {
      assert Usable(blob, a, b) + [] == Usable(blob, a, b);
    } else {
      SegmentSplits(blob, a, b, c - 1);
      var last := blob[(c - 1) * BYTES_PER_FIELD_ELEMENT + 1..c * BYTES_PER_FIELD_ELEMENT];
      assert Usable(blob, a, c) == Usable(blob, a, c - 1) + last;
      assert Usable(blob, b, c) == Usable(blob, b, c - 1) + last;
    }
  }

  /** A segment is decided by bytes 1 to 31 of its own field elements. */
  lemma {:induction false} SegmentIsLocal(x: bytes, y: bytes, a: nat, b: nat)
    requires a <= b && b * BYTES_PER_FIELD_ELEMENT <= |x| && b * BYTES_PER_FIELD_ELEMENT <= |y|
    ensures Usable(x, a, b) == Usable(y, a, b)
            <==> (forall i | a * 32 <= i < b * 32 && i % 32 != 0 :: x[i] == y[i])
  {
    if Usable(x, a, b) == Usable(y, a, b) {
      forall i | a * 32 <= i < b * 32 && i % 32 != 0 ensures x[i] == y[i] {
        var k := (i / 32 - a) * 31 + (i % 32 - 1);
        Locate(a, b, i, k);
        UsableAt(x, a, b, k);
        UsableAt(y, a, b, k);
      }
    }
    if forall i | a * 32 <= i < b * 32 && i % 32 != 0 :: x[i] == y[i] {
      forall k | 0 <= k < (b - a) * 31 ensures Usable(x, a, b)[k] == Usable(y, a, b)[k] {
        UsableAt(x, a, b, k);
        UsableAt(y, a, b, k);
        Source(a, b, k);
      }
    }
  }

  lemma {:induction false} Source(a: nat, b: nat, k: nat)
    requires a <= b && k < (b - a) * 31
    ensures var i := (a + k / 31) * 32 + 1 + k % 31;
            a * 32 <= i < b * 32 && i % 32 != 0
  {
    var i := (a + k / 31) * 32 + 1 + k % 31;
    assert i % 32 == 1 + k % 31;
  }

  lemma {:induction false} Locate(a: nat, b: nat, i: nat, k: int)
    requires a * 32 <= i < b * 32 && i % 32 != 0 && k == (i / 32 - a) * 31 + (i % 32 - 1)
    ensures 0 <= k < (b - a) * 31 && k / 31 == i / 32 - a && k % 31 == i % 32 - 1
    ensures (a + k / 31) * 32 + 1 + k % 31 == i
  {
  }

  // ----- the two extractors -----

  datatype RangeError =
    | NegativeStart
    | EndPastBlob
    | EmptyOrInverted
    | ShortBlob

  predicate InRange(blob: bytes, startFE: int, endFE: int) {
    0 <= startFE < endFE <= FIELD_ELEMENTS_PER_BLOB && endFE * BYTES_PER_FIELD_ELEMENT <= |blob|
  }

  /** The TypeScript extractor, writing into a buffer of the final size. */
  method ExtractSegmentBytes(blob: bytes, startFE: int, endFE: int) returns (r: Result<bytes, RangeError>)
    ensures r.Ok? <==> InRange(blob, startFE, endFE)
    ensures r.Ok? ==> r.value == Usable(blob, startFE, endFE)
    ensures r.Err? ==> (r.error.NegativeStart? <==> startFE < 0)
    ensures r.Err? && startFE >= 0 ==> (r.error.EndPastBlob? <==> endFE > FIELD_ELEMENTS_PER_BLOB)
    ensures r.Err? && 0 <= startFE && endFE <= FIELD_ELEMENTS_PER_BLOB ==> (r.error.EmptyOrInverted? <==> startFE >= endFE)
  {
    if startFE < 0 {
      return Err(NegativeStart);
    }
    if endFE > FIELD_ELEMENTS_PER_BLOB {
      return Err(EndPastBlob);
    }
    if startFE >= endFE {
      return Err(EmptyOrInverted);
    }
    var requiredBytes := endFE * BYTES_PER_FIELD_ELEMENT;
    if |blob| < requiredBytes {
      return Err(ShortBlob);
    }
    var result := new byte[(endFE - startFE) * USABLE_BYTES_PER_FIELD_ELEMENT];
    var dst := 0;
    for fe := startFE to endFE
      invariant dst == (fe - startFE) * USABLE_BYTES_PER_FIELD_ELEMENT
      invariant result[..dst] == Usable(blob, startFE, fe)
    {
      var feOffset := fe * BYTES_PER_FIELD_ELEMENT;
      Blit(result, dst, blob[feOffset + 1..feOffset + 1 + USABLE_BYTES_PER_FIELD_ELEMENT]);
      dst := dst + USABLE_BYTES_PER_FIELD_ELEMENT;
    }
    assert result[..] == result[..dst];
    r := Ok(result[..]);
  }

  /** Copies bytes into the result. */
  method Blit(result: array<byte>, dst: nat, src: bytes)
    requires dst + |src| <= result.Length
    modifies result
    ensures result[..dst + |src|] == old(result[..dst]) + src
  {
    for i := 0 to |src|
      invariant result[..dst + i] == old(result[..dst]) + src[..i]
    {
      result[dst + i] := src[i];
    }
    assert src[..|src|] == src;
  }

  /** The Rust extractor, appending to a vector; its bounds are 16-bit and it has no limit of 4096. */
  method ExtractSegmentBytesRust(blob: bytes, startFE: nat, endFE: nat) returns (r: Result<bytes, RangeError>)
    requires startFE < U16 && endFE < U16
    ensures r.Ok? <==> startFE < endFE && endFE * BYTES_PER_FIELD_ELEMENT <= |blob|
    ensures r.Ok? ==> r.value == Usable(blob, startFE, endFE)
    ensures r.Err? ==> r.error == if endFE <= startFE then EmptyOrInverted else ShortBlob
  {
    if endFE <= startFE {
      return Err(EmptyOrInverted);
    }
    var endByte := endFE * 32;
    if |blob| < endByte {
      return Err(ShortBlob);
    }
    var result: bytes := [];
    for fe := startFE to endFE
      invariant result == Usable(blob, startFE, fe)
    {
      var offset := fe * 32 + 1;
      result := result + blob[offset..offset + 31];
    }
    r := Ok(result);
  }
}
