/** The byte formats a Git pack is made of, read the way the standards describe them:
    gitformat-pack for entry headers, RFC 1950 for the zlib wrapper and Adler-32, and
    section 3.2.4 of RFC 1951 for stored blocks. */
module PackFormat {
  import opened Prelude

  function Zeros(n: nat): (s: seq<Byte>)
    ensures |s| == n && forall i | 0 <= i < n :: s[i] == 0
  {
    seq(n, _ => 0)
  }

  // ---------------------------------------------------------------------------------
  // Fixed-width integers
  // ---------------------------------------------------------------------------------

  /** `width` bytes, most significant first. */
  function BigEndian(n: nat, width: nat): (s: seq<Byte>)
    ensures |s| == width
  {
    if width == 0 then [] else BigEndian(n / 256, width - 1) + [n % 256]
  }

  function ReadBigEndian(s: seq<Byte>): nat {
    if s == [] then 0 else 256 * ReadBigEndian(s[..|s| - 1]) + s[|s| - 1]
  }

  /** Two bytes, least significant first. */
  function Word(low: Byte, high: Byte): nat {
    var l: int, h: int := low, high;
    l + 256 * h
  }

  function Power256(k: nat): nat {
    if k == 0 then 1 else 256 * Power256(k - 1)
  }

  lemma {:induction false} BigEndianReads(n: nat, width: nat)
    requires n < Power256(width)
    ensures ReadBigEndian(BigEndian(n, width)) == n
  {
    if width > 0 {
      BigEndianReads(n / 256, width - 1);
      assert BigEndian(n, width)[..width - 1] == BigEndian(n / 256, width - 1);
    }
  }

  // ---------------------------------------------------------------------------------
  // gitformat-pack: the type and size of an entry
  // ---------------------------------------------------------------------------------

  const OBJ_BLOB := 3

  datatype Header = Header(kind: nat, size: nat, rest: seq<Byte>)

  /** Seven bits per byte, least significant first, with a continuation bit. */
  function ReadSize(s: seq<Byte>): Option<(nat, seq<Byte>)> {
    if s == [] then None
    else if s[0] < 128 then Some((s[0], s[1..]))
    else
      match ReadSize(s[1..])
      case None => None
      case Some((high, rest)) => Some((s[0] - 128 + 128 * high, rest))
  }

  function ReadHeader(s: seq<Byte>): Option<Header> {
    if s == [] then None
    else
      var kind, low := s[0] / 16 % 8, s[0] % 16;
      if s[0] < 128 then Some(Header(kind, low, s[1..]))
      else
        match ReadSize(s[1..])
        case None => None
        case Some((high, rest)) => Some(Header(kind, low + 16 * high, rest))
  }

  // ---------------------------------------------------------------------------------
  // RFC 1951, section 3.2.4: a run of stored blocks
  // ---------------------------------------------------------------------------------

  /** The data of each block, up to and including the first block marked final. */
  datatype Inflated = Inflated(blocks: seq<seq<Byte>>, rest: seq<Byte>)

  function ReadStored(s: seq<Byte>): Option<Inflated>
    decreases |s|
  {
    if |s| < 5 || s[0] / 2 % 4 != 0 then None
    else
      var len, complement := Word(s[1], s[2]), Word(s[3], s[4]);
      if len + complement != 65535 || |s| < 5 + len then None
      else if s[0] % 2 == 1 then Some(Inflated([s[5..5 + len]], s[5 + len..]))
      else
        match ReadStored(s[5 + len..])
        case None => None
        case Some(tail) => Some(Inflated([s[5..5 + len]] + tail.blocks, tail.rest))
  }

  // ---------------------------------------------------------------------------------
  // RFC 1950: the zlib wrapper
  // ---------------------------------------------------------------------------------

  /** One byte of Adler-32, from the running value `zlib.adler32` keeps. */
  function AdlerByte(v: nat, x: Byte): nat {
    var a := (v % 65536 + x) % 65521;
    var b := (v / 65536 + a) % 65521;
    b * 65536 + a
  }

  function Adler(v: nat, s: seq<Byte>): nat {
    if s == [] then v else AdlerByte(Adler(v, s[..|s| - 1]), s[|s| - 1])
  }

  lemma {:induction false} AdlerConcat(v: nat, s: seq<Byte>, t: seq<Byte>)
    ensures Adler(v, s + t) == Adler(Adler(v, s), t)
    decreases |t|
  {
    if t == [] {
      assert s + t == s;
    } else {
      assert (s + t)[..|s + t| - 1] == s + t[..|t| - 1];
      AdlerConcat(v, s, t[..|t| - 1]);
    }
  }

  lemma AdlerFits(v: nat, s: seq<Byte>)
    requires v < 0x1_0000_0000
    ensures Adler(v, s) < 0x1_0000_0000
  {
  }

  /** A deflate header with a valid check value and no preset dictionary. */
  predicate IsZlibHead(info: Byte, flags: Byte) {
    info % 16 == 8 && info / 16 <= 7 && Word(flags, info) % 31 == 0 && flags / 32 % 2 == 0
  }

  /** Stored blocks and the Adler-32 of their contents. */
  function ReadChecked(s: seq<Byte>): Option<Inflated> {
    match ReadStored(s)
    case None => None
    case Some(r) =>
      if |r.rest| < 4 || ReadBigEndian(r.rest[..4]) != Adler(1, Flatten(r.blocks)) then None
      else Some(Inflated(r.blocks, r.rest[4..]))
  }

  /** A zlib stream of stored blocks. */
  function ReadZlib(s: seq<Byte>): Option<Inflated> {
    if |s| < 2 || !IsZlibHead(s[0], s[1]) then None else ReadChecked(s[2..])
  }

  /** One pack entry: its type, its blocks, and what follows it. */
  datatype Entry = Entry(kind: nat, blocks: seq<seq<Byte>>, rest: seq<Byte>)

  function ReadEntry(s: seq<Byte>): Option<Entry> {
    match ReadHeader(s)
    case None => None
    case Some(h) =>
      match ReadZlib(h.rest)
      case None => None
      case Some(r) => if |Flatten(r.blocks)| != h.size then None else Some(Entry(h.kind, r.blocks, r.rest))
  }
}
