/** Which blobs a generated pack holds: their sizes and the suffixes that tell them apart. */
module PackPlan {
  import opened Prelude
  import opened PackFormat
  import opened PackEntry

  /** The requested totals. Nothing is assumed about them; the generator validates them. */
  datatype Request = Request(objectCount: int, packBytes: int, blobBytes: int, trackedBytes: int)

  function SecondBytes(q: Request): int {
    q.trackedBytes - q.blobBytes
  }

  predicate TrackedFit(q: Request) {
    q.blobBytes >= SUFFIX_BYTES && SecondBytes(q) >= SUFFIX_BYTES && q.packBytes >= q.trackedBytes
  }

  /** Content beyond the two tracked blobs. */
  function Extra(q: Request): int {
    q.packBytes - q.trackedBytes
  }

  /** How many steps of `b` it takes to cover `e`. */
  function Steps(e: nat, b: nat): nat
    requires b > 0
  {
    e / b + if e % b > 0 then 1 else 0
  }

  /** How many blobs carry the requested content; the others are minimal. */
  function LargeCount(q: Request): nat
    requires TrackedFit(q)
  {
    2 + Steps(Extra(q), q.blobBytes)
  }

  /** The requests the generator carries out. The object count must also fit the four bytes
      the pack header has for it. */
  predicate Accepted(q: Request) {
    && TrackedFit(q)
    && (Extra(q) % q.blobBytes == 0 || Extra(q) % q.blobBytes >= SUFFIX_BYTES)
    && LargeCount(q) <= q.objectCount < 0x1_0000_0000
  }

  /** The validation at the head of the generator. */
  method Validate(q: Request) returns (largeCount: Option<nat>)
    ensures largeCount.Some? <==> Accepted(q)
    ensures largeCount.Some? ==> largeCount.value == LargeCount(q)
  {
    var second := q.trackedBytes - q.blobBytes;
    if q.blobBytes < SUFFIX_BYTES || second < SUFFIX_BYTES || q.packBytes < q.trackedBytes {
      return None;
    }
    var remaining := q.packBytes - q.trackedBytes;
    var extraObjects, tail := remaining / q.blobBytes, remaining % q.blobBytes;
    if tail > 0 {
      extraObjects := extraObjects + 1;
      if tail < SUFFIX_BYTES {
        return None;
      }
    }
    if q.objectCount < 2 + extraObjects || q.objectCount >= 0x1_0000_0000 {
      return None;
    }
    return Some(2 + extraObjects);
  }

  function Min(a: int, b: int): int {
    if a <= b then a else b
  }

  /** The size of the blob with the given sequence number. */
  function Size(q: Request, sequence: nat): int
    requires TrackedFit(q)
  {
    if sequence == 0 then q.blobBytes
    else if sequence == 1 then SecondBytes(q)
    else if sequence < LargeCount(q) then Min(q.blobBytes, Extra(q) - (sequence - 2) * q.blobBytes)
    else SUFFIX_BYTES
  }

  function TotalSize(q: Request, n: nat): int
    requires TrackedFit(q)
  {
    if n == 0 then 0 else TotalSize(q, n - 1) + Size(q, n - 1)
  }

  lemma StepsCover(e: nat, b: nat, k: nat)
    requires b > 0
    ensures k < Steps(e, b) ==> k * b < e
    ensures k == Steps(e, b) ==> k * b >= e
  {
    var quotient, tail := e / b, e % b;
    assert e == quotient * b + tail;
    if k <= quotient {
      MulMonotone(k, quotient, b);
    }
    if k < quotient {
      MulMonotone(k + 1, quotient, b);
      assert (k + 1) * b == k * b + b;
    }
    if k == quotient + 1 {
      assert k * b == quotient * b + b;
    }
  }

  lemma MulMonotone(a: nat, c: nat, b: nat)
    requires a <= c
    ensures a * b <= c * b
  {
    assert c * b == a * b + (c - a) * b;
  }

  lemma TotalOfTracked(q: Request)
    requires TrackedFit(q)
    ensures TotalSize(q, 2) == q.trackedBytes
  {
    assert TotalSize(q, 0) == 0;
    assert TotalSize(q, 1) == q.blobBytes;
  }

  lemma {:induction false} TotalSoFar(q: Request, k: nat)
    requires TrackedFit(q) && k <= Steps(Extra(q), q.blobBytes)
    ensures TotalSize(q, 2 + k) == q.trackedBytes + Min(Extra(q), k * q.blobBytes)
  {
    if k == 0 {
      TotalOfTracked(q);
    } else {
      TotalSoFar(q, k - 1);
      StepsCover(Extra(q), q.blobBytes, k - 1);
      assert k * q.blobBytes == (k - 1) * q.blobBytes + q.blobBytes;
      assert TotalSize(q, 2 + k) == TotalSize(q, 1 + k) + Size(q, 1 + k);
    }
  }

  /** The large blobs together hold exactly the requested pack content. */
  lemma LargeBlobsHoldPackBytes(q: Request)
    requires TrackedFit(q)
    ensures TotalSize(q, LargeCount(q)) == q.packBytes
  {
    TotalSoFar(q, Steps(Extra(q), q.blobBytes));
    StepsCover(Extra(q), q.blobBytes, Steps(Extra(q), q.blobBytes));
  }

  /** What is left for step k: a whole blob, or the remainder in the last step. */
  lemma LeftOver(e: nat, b: nat, k: nat)
    requires b > 0 && k < Steps(e, b)
    ensures e - k * b >= b || (e % b > 0 && e - k * b == e % b)
  {
    var quotient, tail := e / b, e % b;
    assert e == quotient * b + tail;
    if k < quotient {
      MulMonotone(k + 1, quotient, b);
      assert (k + 1) * b == k * b + b;
    }
  }

  /** Every blob of an accepted request has room for its suffix. */
  lemma SizesHoldSuffix(q: Request, sequence: nat)
    requires Accepted(q)
    ensures Size(q, sequence) >= SUFFIX_BYTES
  {
    if 2 <= sequence < LargeCount(q) {
      LeftOver(Extra(q), q.blobBytes, sequence - 2);
    }
  }

  // ---------------------------------------------------------------------------------
  // Suffixes: sixteen hexadecimal digits of the sequence number
  // ---------------------------------------------------------------------------------

  function HexDigit(d: nat): Byte
    requires d < 16
  {
    if d < 10 then 48 + d else 87 + d
  }

  function Hex(n: nat, width: nat): (s: seq<Byte>)
    ensures |s| == width
  {
    if width == 0 then [] else Hex(n / 16, width - 1) + [HexDigit(n % 16)]
  }

  function Power16(k: nat): nat {
    if k == 0 then 1 else 16 * Power16(k - 1)
  }

  lemma {:induction false} HexDistinct(a: nat, b: nat, width: nat)
    requires a < Power16(width) && b < Power16(width) && a != b
    ensures Hex(a, width) != Hex(b, width)
  {
    if width > 0 {
      if a / 16 == b / 16 {
        assert Hex(a, width)[width - 1] != Hex(b, width)[width - 1];
      } else {
        HexDistinct(a / 16, b / 16, width - 1);
        assert Hex(a, width)[..width - 1] == Hex(a / 16, width - 1);
        assert Hex(b, width)[..width - 1] == Hex(b / 16, width - 1);
      }
    }
  }

  function Suffix(sequence: nat): (s: seq<Byte>)
    ensures |s| == SUFFIX_BYTES
  {
    Hex(sequence, SUFFIX_BYTES)
  }

  function BlobOf(q: Request, sequence: nat): seq<Byte>
    requires Accepted(q)
  {
    SizesHoldSuffix(q, sequence);
    Payload(Size(q, sequence), Suffix(sequence))
  }

  lemma PowerSixteen()
    ensures Power16(16) == 0x1_0000_0000_0000_0000
  {
    assert Power16(4) == 65536;
    assert Power16(8) == 16 * Power16(7) == 256 * Power16(6) == 4096 * Power16(5) == 65536 * Power16(4);
    assert Power16(12) == 16 * Power16(11) == 256 * Power16(10) == 4096 * Power16(9) == 65536 * Power16(8);
    assert Power16(16) == 16 * Power16(15) == 256 * Power16(14) == 4096 * Power16(13) == 65536 * Power16(12);
  }

  /** No two objects of a pack have the same content, so no two can share an identity. */
  lemma BlobsDistinct(q: Request, i: nat, j: nat)
    requires Accepted(q) && i < j < q.objectCount
    ensures BlobOf(q, i) != BlobOf(q, j)
  {
    PowerSixteen();
    HexDistinct(i, j, 16);
    var a, b := BlobOf(q, i), BlobOf(q, j);
    assert a[|a| - 16..] == Suffix(i);
    assert b[|b| - 16..] == Suffix(j);
  }
}
