/**
 * The IDX file format of the MNIST database, as the LinearAlgebraDemo app reads it: a header
 * (two bytes that are skipped, a data-type byte, a rank byte, then `rank` big-endian 32-bit
 * sizes, the first of them the item count), followed by the items, each the product of the
 * remaining sizes long. An image file and a label file are read side by side, one item of
 * each per record, until either runs short.
 */
module IDX {
  import opened Wrappers

  newtype Byte = b: int | 0 <= b < 256

  /** 2^32: every size in a header is below this. */
  const UInt32Limit: nat := 0x1_0000_0000

  // ---------------------------------------------------------------------------
  // Headers

  /** The data-type byte of the header. */
  datatype IDXDataType = Unsigned | Signed | Short | Int | Float | Double

  function RawValue(t: IDXDataType): Byte
  {
    match t
    case Unsigned => 0x08
    case Signed => 0x09
    case Short => 0x0B
    case Int => 0x0C
    case Float => 0x0D
    case Double => 0x0E
  }

  /** IDXDataType(rawValue:): the case with that raw value, if there is one. */
  function FromRawValue(b: Byte): (r: Option<IDXDataType>)
    ensures r.Some? ==> RawValue(r.value) == b
  {
    if b == 0x08 then Some(Unsigned)
    else if b == 0x09 then Some(Signed)
    else if b == 0x0B then Some(Short)
    else if b == 0x0C then Some(Int)
    else if b == 0x0D then Some(Float)
    else if b == 0x0E then Some(Double)
    else None
  }

  /** Every case is read back from its raw value, and exactly six bytes name a case. */
  lemma RawValueRoundTrip(t: IDXDataType, b: Byte)
    ensures FromRawValue(RawValue(t)) == Some(t)
    ensures FromRawValue(b).Some? <==> b == 0x08 || b == 0x09 || 0x0B <= b <= 0x0E
  {
  }

  datatype IDXError = MissingHeader

  datatype IDXHeader = IDXHeader(count: nat, countPerItem: nat, dimensions: Byte, dataType: IDXDataType, counts: seq<nat>)

  datatype IDXRecord = IDXRecord(imageBytes: seq<Byte>, labelBytes: seq<Byte>)

  // ---------------------------------------------------------------------------
  // Big-endian 32-bit numbers

  /**
   * Four bytes, most significant first, as one unsigned 32-bit number. The source's
   * byte1 << 24 | byte2 << 16 | byte3 << 8 | byte4 on UInt32 is this sum: each byte is
   * below 256, so no shifted bit is lost and the four fields do not overlap.
   */
  function BigEndian(b: seq<Byte>): (n: nat)
    requires |b| == 4
    ensures n < UInt32Limit
  {
    AppendDigitBound(0, b[0] as nat, 1);
    AppendDigitBound(b[0] as nat, b[1] as nat, 0x100);
    AppendDigitBound(b[0] as nat * 0x100 + b[1] as nat, b[2] as nat, 0x1_0000);
    AppendDigitBound((b[0] as nat * 0x100 + b[1] as nat) * 0x100 + b[2] as nat, b[3] as nat, 0x100_0000);
    ((b[0] as nat * 0x100 + b[1] as nat) * 0x100 + b[2] as nat) * 0x100 + b[3] as nat
  }

  /** The four bytes, most significant first, of a 32-bit number, as an IDX writer stores it. */
  function EncodeUInt32(n: nat): (b: seq<Byte>)
    requires n < UInt32Limit
    ensures |b| == 4
  {
    var n1 := n / 0x100;
    var n2 := n1 / 0x100;
    [(n2 / 0x100) as Byte, (n2 % 0x100) as Byte, (n1 % 0x100) as Byte, (n % 0x100) as Byte]
  }

  lemma AppendDigitBound(x: nat, d: nat, m: nat)
    requires x < m && d < 0x100
    ensures x * 0x100 + d < m * 0x100
  {
  }

  lemma SplitDigit(x: nat)
    ensures x == (x / 0x100) * 0x100 + x % 0x100
  {
  }

  lemma JoinDigit(x: nat, d: nat)
    requires d < 0x100
    ensures (x * 0x100 + d) / 0x100 == x && (x * 0x100 + d) % 0x100 == d
  {
  }

  /** Reading back the bytes written for n gives n. */
  lemma DecodeEncode(n: nat)
    requires n < UInt32Limit
    ensures BigEndian(EncodeUInt32(n)) == n
  {
    var n1 := n / 0x100;
    var n2 := n1 / 0x100;
    SplitDigit(n);
    SplitDigit(n1);
    SplitDigit(n2);
    assert n2 / 0x100 < 0x100;
  }

  /** Every four bytes are the encoding of the number they are read as. */
  lemma EncodeDecode(b: seq<Byte>)
    requires |b| == 4
    ensures EncodeUInt32(BigEndian(b)) == b
  {
    var x2 := b[0] as nat * 0x100 + b[1] as nat;
    var x1 := x2 * 0x100 + b[2] as nat;
    JoinDigit(x1, b[3] as nat);
    JoinDigit(x2, b[2] as nat);
    JoinDigit(b[0] as nat, b[1] as nat);
  }

  // ---------------------------------------------------------------------------
  // What each read does to the bytes that remain

  /** readUInt32: four bytes read as one number, or missingHeader once the bytes run out. */
  function ReadUInt32Spec(s: seq<Byte>): (Result<nat, IDXError>, seq<Byte>)
  {
    if |s| < 4 then (Failure(MissingHeader), []) else (Success(BigEndian(s[..4])), s[4..])
  }

  /** A number written as four bytes is read back, and exactly those bytes are consumed. */
  lemma ReadUInt32RoundTrip(n: nat, rest: seq<Byte>)
    requires n < UInt32Limit
    ensures ReadUInt32Spec(EncodeUInt32(n) + rest) == (Success(n), rest)
  {
    var s := EncodeUInt32(n) + rest;
    assert s[..4] == EncodeUInt32(n) && s[4..] == rest;
    DecodeEncode(n);
  }

  /** readBytes(n): the next n bytes in order, or nil once the bytes run out. */
  function ReadBytesSpec(s: seq<Byte>, n: nat): (Option<seq<Byte>>, seq<Byte>)
  {
    if n <= |s| then (Some(s[..n]), s[n..]) else (None, [])
  }

  /** What is read and what remains make up the bytes there were, in order. */
  lemma ReadBytesSplits(s: seq<Byte>, n: nat)
    ensures var r := ReadBytesSpec(s, n);
      (r.0.Some? <==> n <= |s|) && (r.0.Some? ==> |r.0.value| == n && s == r.0.value + r.1)
  {
    if n <= |s| {
      assert s == s[..n] + s[n..];
    }
  }

  /** The k sizes stored from the start of s, four bytes each. */
  function Sizes(s: seq<Byte>, k: nat): (sizes: seq<nat>)
    requires 4 * k <= |s|
    ensures |sizes| == k
  {
    seq(k, i requires 0 <= i < k => BigEndian(s[4 * i..4 * i + 4]))
  }

  /** The product of the sizes, multiplied in the order they are read. */
  function Product(xs: seq<nat>): nat
  {
    if |xs| == 0 then 1 else Product(xs[..|xs| - 1]) * xs[|xs| - 1]
  }

  /**
   * The one header the decoder cannot handle: a valid type byte, rank 0 and a whole item
   * count, after which the range 1..<0 of the size loop traps. A rank-0 header cut short
   * before its count ends is rejected by the count read, and every other input is decoded
   * or rejected.
   */
  ghost predicate RankNonZero(s: seq<Byte>)
  {
    (|s| >= 8 && FromRawValue(s[2]).Some?) ==> s[3] != 0
  }

  /**
   * readHeader: two bytes skipped whatever they are, the type byte, the rank byte, the item
   * count, then rank - 1 sizes; countPerItem is their product and counts is the rank followed
   * by them. Every failure is missingHeader. A truncated header leaves nothing unread; a bad
   * type byte leaves the bytes after it.
   */
  function ParseHeader(s: seq<Byte>): (Result<IDXHeader, IDXError>, seq<Byte>)
    requires RankNonZero(s)
  {
    if |s| < 3 then (Failure(MissingHeader), [])
    else if FromRawValue(s[2]).None? then (Failure(MissingHeader), s[3..])
    else if |s| < 8 || |s| < 4 + 4 * (s[3] as nat) then (Failure(MissingHeader), [])
    else
      var rank := s[3];
      var sizes := Sizes(s[8..], rank as nat - 1);
      (Success(IDXHeader(BigEndian(s[4..8]), Product(sizes), rank, FromRawValue(s[2]).value, [rank as nat] + sizes)),
       s[4 + 4 * (rank as nat)..])
  }

  /** A decoded header: its counts start with the rank and hold rank entries, and 4 + 4 * rank bytes were read. */
  lemma HeaderShape(s: seq<Byte>)
    requires RankNonZero(s) && ParseHeader(s).0.Success?
    ensures var h, rest := ParseHeader(s).0, ParseHeader(s).1;
      && 4 + 4 * (h.value.dimensions as nat) <= |s| && rest == s[4 + 4 * (h.value.dimensions as nat)..]
      && |h.value.counts| == h.value.dimensions as nat && h.value.counts[0] == h.value.dimensions as nat
      && h.value.countPerItem == Product(h.value.counts[1..])
      && RawValue(h.value.dataType) == s[2]
      && (h.value.dimensions == 1 ==> h.value.countPerItem == 1)
  {
    var h := ParseHeader(s).0.value;
    assert h.counts[1..] == Sizes(s[8..], h.dimensions as nat - 1);
  }

  /** A header fails exactly when the bytes run out, or when the type byte names no type. */
  lemma HeaderFailure(s: seq<Byte>)
    requires RankNonZero(s)
    ensures ParseHeader(s).0.Failure? <==> |s| < 8 || FromRawValue(s[2]).None? || |s| < 4 + 4 * (s[3] as nat)
  {
  }

  /** A rank-0 header cut short inside its item count is admitted and rejected with missingHeader. */
  lemma RankZeroShortHeader()
    ensures RankNonZero([0, 0, 0x08, 0])
    ensures ParseHeader([0, 0, 0x08, 0]) == (Failure(MissingHeader), [])
  {
  }

  // ---------------------------------------------------------------------------
  // Writing headers, for the round trip

  function EncodeSizes(sizes: seq<nat>): (s: seq<Byte>)
    requires forall i :: 0 <= i < |sizes| ==> sizes[i] < UInt32Limit
    ensures |s| == 4 * |sizes|
  {
    if |sizes| == 0 then [] else EncodeSizes(sizes[..|sizes| - 1]) + EncodeUInt32(sizes[|sizes| - 1])
  }

  /** The header an IDX writer emits: two magic bytes, type, rank, item count, then the sizes. */
  function EncodeHeader(magic: seq<Byte>, t: IDXDataType, count: nat, sizes: seq<nat>): (s: seq<Byte>)
    requires |magic| == 2 && |sizes| < 255 && count < UInt32Limit
    requires forall i :: 0 <= i < |sizes| ==> sizes[i] < UInt32Limit
    ensures |s| == 8 + 4 * |sizes|
  {
    magic + [RawValue(t), (|sizes| + 1) as Byte] + EncodeUInt32(count) + EncodeSizes(sizes)
  }

  /** A four-byte chunk inside a is the same chunk of a + b. */
  lemma ChunkOfPrefix(a: seq<Byte>, b: seq<Byte>, i: nat)
    requires 4 * i + 4 <= |a|
    ensures (a + b)[4 * i..4 * i + 4] == a[4 * i..4 * i + 4]
  {
  }

  /** The chunk right after a is the start of b. */
  lemma ChunkAfterPrefix(a: seq<Byte>, b: seq<Byte>)
    requires 4 <= |b|
    ensures (a + b)[|a|..|a| + 4] == b[..4]
  {
  }

  /** Sizes written one after the other are read back, whatever follows them. */
  lemma {:induction false} SizesOfEncoded(sizes: seq<nat>, rest: seq<Byte>)
    requires forall i :: 0 <= i < |sizes| ==> sizes[i] < UInt32Limit
    ensures 4 * |sizes| <= |EncodeSizes(sizes) + rest|
    ensures Sizes(EncodeSizes(sizes) + rest, |sizes|) == sizes
  {
    if |sizes| > 0 {
      var n := |sizes| - 1;
      var init, last := sizes[..n], sizes[n];
      var front, code := EncodeSizes(init), EncodeUInt32(last);
      var s := front + (code + rest);
      assert EncodeSizes(sizes) + rest == s;
      SizesOfEncoded(init, code + rest);
      SizesSnoc(s, n);
      assert s[4 * n..][..4] == code;
      DecodeEncode(last);
      assert sizes == init + [last];
    }
  }

  /** The fields of m + p + c + tail, for two magic bytes m, two bytes p and four bytes c. */
  lemma FieldsAt(m: seq<Byte>, p: seq<Byte>, c: seq<Byte>, tail: seq<Byte>)
    requires |m| == 2 && |p| == 2 && |c| == 4
    ensures var s := m + p + c + tail;
      s[2] == p[0] && s[3] == p[1] && s[4..8] == c && s[8..] == tail
  {
    var s := m + p + c + tail;
    assert s[4..8] == c;
    assert s[8..] == tail;
  }

  /** Where each field of a written header sits. */
  lemma EncodedHeaderLayout(magic: seq<Byte>, t: IDXDataType, count: nat, sizes: seq<nat>, rest: seq<Byte>)
    requires |magic| == 2 && |sizes| < 255 && count < UInt32Limit
    requires forall i :: 0 <= i < |sizes| ==> sizes[i] < UInt32Limit
    ensures var s := EncodeHeader(magic, t, count, sizes) + rest;
      && |s| == 8 + 4 * |sizes| + |rest|
      && s[2] == RawValue(t) && s[3] as nat == |sizes| + 1
      && s[4..8] == EncodeUInt32(count) && s[8..] == EncodeSizes(sizes) + rest
      && s[8 + 4 * |sizes|..] == rest
  {
    var p, c, e := [RawValue(t), (|sizes| + 1) as Byte], EncodeUInt32(count), EncodeSizes(sizes);
    var tail := e + rest;
    assert EncodeHeader(magic, t, count, sizes) + rest == magic + p + c + tail;
    FieldsAt(magic, p, c, tail);
    assert tail[|e|..] == rest;
  }

  /**
   * Decoding a written header gives back its type, item count, rank and sizes, with the
   * product of the sizes as the item size, and leaves exactly the bytes after it.
   */
  lemma ParseEncodedHeader(magic: seq<Byte>, t: IDXDataType, count: nat, sizes: seq<nat>, rest: seq<Byte>)
    requires |magic| == 2 && |sizes| < 255 && count < UInt32Limit
    requires forall i :: 0 <= i < |sizes| ==> sizes[i] < UInt32Limit
    ensures RankNonZero(EncodeHeader(magic, t, count, sizes) + rest)
    ensures ParseHeader(EncodeHeader(magic, t, count, sizes) + rest)
         == (Success(IDXHeader(count, Product(sizes), (|sizes| + 1) as Byte, t, [|sizes| + 1] + sizes)), rest)
  {
    var s := EncodeHeader(magic, t, count, sizes) + rest;
    EncodedHeaderLayout(magic, t, count, sizes, rest);
    RawValueRoundTrip(t, 0);
    DecodeEncode(count);
    SizesOfEncoded(sizes, rest);
    ParseLaidOutHeader(s, t, count, sizes, rest);
  }

  /** ParseHeader on bytes whose fields are known. */
  lemma ParseLaidOutHeader(s: seq<Byte>, t: IDXDataType, count: nat, sizes: seq<nat>, rest: seq<Byte>)
    requires |sizes| < 255 && |s| == 8 + 4 * |sizes| + |rest|
    requires FromRawValue(s[2]) == Some(t) && s[3] as nat == |sizes| + 1
    requires BigEndian(s[4..8]) == count && Sizes(s[8..], |sizes|) == sizes && s[8 + 4 * |sizes|..] == rest
    ensures RankNonZero(s)
    ensures ParseHeader(s) == (Success(IDXHeader(count, Product(sizes), (|sizes| + 1) as Byte, t, [|sizes| + 1] + sizes)), rest)
  {
  }

  // ---------------------------------------------------------------------------
  // Records

  /**
   * AsyncIterator.next(): an image item, then a label item; nil as soon as either read comes
   * up short. The image item is read first, so it is gone even when the label read fails.
   */
  function NextSpec(images: seq<Byte>, labels: seq<Byte>, p: nat, q: nat): (Option<IDXRecord>, seq<Byte>, seq<Byte>)
  {
    var image := ReadBytesSpec(images, p);
    if image.0.None? then (None, image.1, labels)
    else
      var labelItem := ReadBytesSpec(labels, q);
      if labelItem.0.None? then (None, image.1, labelItem.1)
      else (Some(IDXRecord(image.0.value, labelItem.0.value)), image.1, labelItem.1)
  }

  /** The records the iterator yields before its first nil, for items of p and q bytes. */
  function Records(images: seq<Byte>, labels: seq<Byte>, p: nat, q: nat): seq<IDXRecord>
    requires p > 0 || q > 0
    decreases |images| + |labels|
  {
    if p <= |images| && q <= |labels| then
      [IDXRecord(images[..p], labels[..q])] + Records(images[p..], labels[q..], p, q)
    else []
  }

  /** next() yields the first of the records, and what it leaves yields the rest. */
  lemma NextIsFirstRecord(images: seq<Byte>, labels: seq<Byte>, p: nat, q: nat)
    requires p > 0 || q > 0
    ensures var n := NextSpec(images, labels, p, q);
      && (n.0.None? <==> Records(images, labels, p, q) == [])
      && (n.0.Some? ==> Records(images, labels, p, q) == [n.0.value] + Records(n.1, n.2, p, q))
      && (n.0.Some? ==> |n.1| + |n.2| < |images| + |labels|)
  {
  }

  function Min(a: nat, b: nat): nat
  {
    if a <= b then a else b
  }

  /** Records are yielded until either file runs short: min(|images| / p, |labels| / q) of them. */
  lemma {:induction false} RecordCount(images: seq<Byte>, labels: seq<Byte>, p: nat, q: nat)
    requires p > 0 && q > 0
    decreases |images|
    ensures |Records(images, labels, p, q)| == Min(|images| / p, |labels| / q)
  {
    if p <= |images| && q <= |labels| {
      RecordCount(images[p..], labels[q..], p, q);
      DivStep(|images|, p);
      DivStep(|labels|, q);
    } else if |images| < p {
      DivSmall(|images|, p);
    } else {
      DivSmall(|labels|, q);
    }
  }

  /** With empty image items, records are yielded until the labels run short: |labels| / q of them. */
  lemma {:induction false} RecordCountEmptyImages(images: seq<Byte>, labels: seq<Byte>, q: nat)
    requires q > 0
    decreases |labels|
    ensures |Records(images, labels, 0, q)| == |labels| / q
  {
    if q <= |labels| {
      assert images[0..] == images;
      RecordCountEmptyImages(images, labels[q..], q);
      DivStep(|labels|, q);
    } else {
      DivSmall(|labels|, q);
    }
  }

  /** With empty label items, records are yielded until the images run short: |images| / p of them. */
  lemma {:induction false} RecordCountEmptyLabels(images: seq<Byte>, labels: seq<Byte>, p: nat)
    requires p > 0
    decreases |images|
    ensures |Records(images, labels, p, 0)| == |images| / p
  {
    if p <= |images| {
      assert labels[0..] == labels;
      RecordCountEmptyLabels(images[p..], labels, p);
      DivStep(|images|, p);
    } else {
      DivSmall(|images|, p);
    }
  }

  lemma DivStep(n: nat, p: nat)
    requires 0 < p <= n
    ensures (n - p) / p + 1 == n / p
  {
    var k, r := (n - p) / p, (n - p) % p;
    assert n == (k + 1) * p + r;
    DivUnique(n, p, k + 1, r);
  }

  lemma DivUnique(n: nat, p: nat, k: nat, r: nat)
    requires 0 <= r < p && n == k * p + r
    ensures n / p == k
  {
    var k', r' := n / p, n % p;
    if k' > k {
      MulMonotone(k + 1, k', p);
      MulStep(k, p);
    } else if k' < k {
      MulMonotone(k' + 1, k, p);
      MulStep(k', p);
    }
  }

  lemma MulMonotone(a: nat, b: nat, p: nat)
    requires a <= b
    ensures a * p <= b * p
  {
  }

  lemma DivSmall(n: nat, p: nat)
    requires n < p
    ensures n / p == 0
  {
  }

  lemma MulStep(k: nat, p: nat)
    ensures k * p + p == (k + 1) * p
  {
  }

  /** Where item k - 1 ends, item k starts. */
  lemma PreviousItem(k: nat, p: nat)
    requires k > 0
    ensures (k - 1) * p + p == k * p
  {
    MulStep(k - 1, p);
  }

  /** Record k holds image bytes [k * p, k * p + p) and label bytes [k * q, k * q + q). */
  lemma {:induction false} RecordAt(images: seq<Byte>, labels: seq<Byte>, p: nat, q: nat, k: nat)
    requires p > 0 || q > 0
    requires k < |Records(images, labels, p, q)|
    ensures k * p + p <= |images| && k * q + q <= |labels|
    ensures Records(images, labels, p, q)[k] == IDXRecord(images[k * p..k * p + p], labels[k * q..k * q + q])
  {
    var later := Records(images[p..], labels[q..], p, q);
    assert Records(images, labels, p, q) == [IDXRecord(images[..p], labels[..q])] + later;
    if k > 0 {
      RecordAt(images[p..], labels[q..], p, q, k - 1);
      PreviousItem(k, p);
      PreviousItem(k, q);
      var i, j := (k - 1) * p, (k - 1) * q;
      assert images[p..][i..i + p] == images[k * p..k * p + p];
      assert labels[q..][j..j + q] == labels[k * q..k * q + q];
    }
  }

  // ---------------------------------------------------------------------------
  // The streams and the decoder

  /** A file's bytes and how many of them next() has handed out. */
  class ByteStream {
    const bytes: seq<Byte>
    var position: nat

    ghost predicate Valid()
      reads this
    {
      position <= |bytes|
    }

    /** The bytes next() has yet to hand out. */
    ghost function Remaining(): seq<Byte>
      reads this
      requires Valid()
    {
      bytes[position..]
    }

    constructor (bytes: seq<Byte>)
      ensures Valid() && Remaining() == bytes
    {
      this.bytes := bytes;
      position := 0;
    }

    /** next(): the next byte and one step on, or nil with no step once the bytes have run out. */
    method Next() returns (r: Option<Byte>)
      requires Valid()
      modifies this
      ensures Valid()
      ensures old(Remaining()) == [] ==> r == None && Remaining() == []
      ensures old(Remaining()) != [] ==> r == Some(old(Remaining())[0]) && Remaining() == old(Remaining())[1..]
    {
      if position == |bytes| {
        return None;
      }
      r := Some(bytes[position]);
      position := position + 1;
    }
  }

  /** readUInt32(from:): four next() calls; the first that comes up empty throws missingHeader. */
  method ReadUInt32(bytes: ByteStream) returns (r: Result<nat, IDXError>)
    requires bytes.Valid()
    modifies bytes
    ensures bytes.Valid() && (r, bytes.Remaining()) == ReadUInt32Spec(old(bytes.Remaining()))
  {
    ghost var s := bytes.Remaining();
    var byte1 := bytes.Next();
    if byte1.None? {
      return Failure(MissingHeader);
    }
    var byte2 := bytes.Next();
    if byte2.None? {
      return Failure(MissingHeader);
    }
    var byte3 := bytes.Next();
    if byte3.None? {
      return Failure(MissingHeader);
    }
    var byte4 := bytes.Next();
    if byte4.None? {
      return Failure(MissingHeader);
    }
    assert s[..4] == [byte1.value, byte2.value, byte3.value, byte4.value];
    r := Success(BigEndian([byte1.value, byte2.value, byte3.value, byte4.value]));
  }

  /** readBytes(_:from:): count next() calls appended in order; nil as soon as one is empty. */
  method ReadBytes(count: nat, bytes: ByteStream) returns (r: Option<seq<Byte>>)
    requires bytes.Valid()
    modifies bytes
    ensures bytes.Valid() && (r, bytes.Remaining()) == ReadBytesSpec(old(bytes.Remaining()), count)
  {
    ghost var s := bytes.Remaining();
    var result: seq<Byte> := [];
    var i: nat := 0;
    while i < count
      invariant bytes.Valid() && i <= count && i <= |s|
      invariant result == s[..i] && bytes.Remaining() == s[i..]
    {
      var byte := bytes.Next();
      if byte.None? {
        return None;
      }
      assert s[..i + 1] == s[..i] + [byte.value];
      result := result + [byte.value];
      i := i + 1;
    }
    return Some(result);
  }

  /** Sizes(t, k + 1) is Sizes(t, k) and the next four bytes. */
  lemma SizesSnoc(t: seq<Byte>, k: nat)
    requires 4 * k + 4 <= |t|
    ensures Sizes(t, k + 1) == Sizes(t, k) + [BigEndian(t[4 * k..][..4])]
  {
    assert t[4 * k..][..4] == t[4 * k..4 * k + 4];
  }

  /**
   * readHeader(for:): the type and rank bytes, the item count, then the rank - 1 sizes,
   * multiplied into countPerItem and listed after the rank in counts.
   */
  method ReadHeader(bytes: ByteStream) returns (r: Result<IDXHeader, IDXError>)
    requires bytes.Valid() && RankNonZero(bytes.Remaining())
    modifies bytes
    ensures bytes.Valid() && (r, bytes.Remaining()) == ParseHeader(old(bytes.Remaining()))
  {
    ghost var s := bytes.Remaining();
    var typeAndRank := ReadTypeAndRank(bytes);
    if typeAndRank.Failure? {
      return Failure(typeAndRank.error);
    }
    var dataType, dimension := typeAndRank.value.0, typeAndRank.value.1;
    var count := ReadUInt32(bytes);
    if count.Failure? {
      return Failure(count.error);
    }
    assert s[4..8] == s[4..][..4] && bytes.Remaining() == s[8..];
    var counts, countPerItem := ReadSizes(bytes, dimension as nat - 1);
    if counts.Failure? {
      return Failure(counts.error);
    }
    return Success(IDXHeader(count.value, countPerItem, dimension, dataType, [dimension as nat] + counts.value));
  }

  /**
   * The first four next() calls of readHeader(for:): two bytes dropped whatever they are,
   * the type byte, which must name a type, and the rank byte.
   */
  method ReadTypeAndRank(bytes: ByteStream) returns (r: Result<(IDXDataType, Byte), IDXError>)
    requires bytes.Valid()
    modifies bytes
    ensures bytes.Valid()
    ensures var s := old(bytes.Remaining());
      && (|s| < 3 ==> r == Failure(MissingHeader) && bytes.Remaining() == [])
      && (|s| >= 3 && FromRawValue(s[2]).None? ==> r == Failure(MissingHeader) && bytes.Remaining() == s[3..])
      && (|s| == 3 && FromRawValue(s[2]).Some? ==> r == Failure(MissingHeader) && bytes.Remaining() == [])
      && (|s| >= 4 && FromRawValue(s[2]).Some? ==> r == Success((FromRawValue(s[2]).value, s[3])) && bytes.Remaining() == s[4..])
  {
    var skipped := bytes.Next();
    skipped := bytes.Next();
    var byte := bytes.Next();
    if byte.None? {
      return Failure(MissingHeader);
    }
    var dataType := FromRawValue(byte.value);
    if dataType.None? {
      return Failure(MissingHeader);
    }
    var dimension := bytes.Next();
    if dimension.None? {
      return Failure(MissingHeader);
    }
    return Success((dataType.value, dimension.value));
  }

  /**
   * The size loop of readHeader(for:): n sizes, each multiplied into countPerItem and
   * appended to counts; missingHeader, with nothing left, when the bytes run out.
   */
  method ReadSizes(bytes: ByteStream, n: nat) returns (r: Result<seq<nat>, IDXError>, countPerItem: nat)
    requires bytes.Valid()
    modifies bytes
    ensures bytes.Valid()
    ensures 4 * n <= |old(bytes.Remaining())| ==>
      && r == Success(Sizes(old(bytes.Remaining()), n)) && countPerItem == Product(r.value)
      && bytes.Remaining() == old(bytes.Remaining())[4 * n..]
    ensures 4 * n > |old(bytes.Remaining())| ==> r == Failure(MissingHeader) && bytes.Remaining() == []
  {
    ghost var t := bytes.Remaining();
    var counts: seq<nat> := [];
    countPerItem := 1;
    var i: nat := 0;
    while i < n
      invariant bytes.Valid() && i <= n
      invariant 4 * i <= |t| && bytes.Remaining() == t[4 * i..]
      invariant counts == Sizes(t, i) && countPerItem == Product(counts)
    {
      var size := ReadUInt32(bytes);
      if size.Failure? {
        return Failure(MissingHeader), countPerItem;
      }
      SizesSnoc(t, i);
      assert (counts + [size.value])[..|counts|] == counts;
      countPerItem := countPerItem * size.value;
      counts := counts + [size.value];
      i := i + 1;
    }
    return Success(counts), countPerItem;
  }

  /** IDXSequence.AsyncIterator: the two byte iterators and the two headers read from them. */
  class RecordIterator {
    const imagesBytes: ByteStream
    const labelsBytes: ByteStream
    const imagesHeader: IDXHeader
    const labelsHeader: IDXHeader
    var current: nat

    ghost predicate Valid()
      reads this, imagesBytes, labelsBytes
    {
      imagesBytes != labelsBytes && imagesBytes.Valid() && labelsBytes.Valid()
    }

    constructor (imagesBytes: ByteStream, labelsBytes: ByteStream, imagesHeader: IDXHeader, labelsHeader: IDXHeader)
      ensures this.imagesBytes == imagesBytes && this.labelsBytes == labelsBytes
      ensures this.imagesHeader == imagesHeader && this.labelsHeader == labelsHeader && current == 0
    {
      this.imagesBytes, this.labelsBytes := imagesBytes, labelsBytes;
      this.imagesHeader, this.labelsHeader := imagesHeader, labelsHeader;
      current := 0;
    }

    /** next(): one image item, then one label item; nil when either read comes up short. */
    method Next() returns (r: Option<IDXRecord>)
      requires Valid()
      modifies imagesBytes, labelsBytes
      ensures Valid()
      ensures (r, imagesBytes.Remaining(), labelsBytes.Remaining())
           == NextSpec(old(imagesBytes.Remaining()), old(labelsBytes.Remaining()), imagesHeader.countPerItem, labelsHeader.countPerItem)
    {
      var imageBytes := ReadBytes(imagesHeader.countPerItem, imagesBytes);
      if imageBytes.None? {
        return None;
      }
      var labelBytes := ReadBytes(labelsHeader.countPerItem, labelsBytes);
      if labelBytes.None? {
        return None;
      }
      return Some(IDXRecord(imageBytes.value, labelBytes.value));
    }
  }

  /**
   * IDXSequence(images:labels:) and makeAsyncIterator(): the image header, then the label
   * header, each read from its own file; the iterator starts where the headers end.
   */
  method Open(images: seq<Byte>, labels: seq<Byte>) returns (r: Result<RecordIterator, IDXError>)
    requires RankNonZero(images) && (ParseHeader(images).0.Success? ==> RankNonZero(labels))
    ensures r.Failure? <==> ParseHeader(images).0.Failure? || ParseHeader(labels).0.Failure?
    ensures r.Success? ==>
      && fresh(r.value) && fresh(r.value.imagesBytes) && fresh(r.value.labelsBytes) && r.value.Valid()
      && r.value.imagesHeader == ParseHeader(images).0.value && r.value.imagesBytes.Remaining() == ParseHeader(images).1
      && r.value.labelsHeader == ParseHeader(labels).0.value && r.value.labelsBytes.Remaining() == ParseHeader(labels).1
  {
    var imagesBytes := new ByteStream(images);
    var labelsBytes := new ByteStream(labels);
    var imagesHeader := ReadHeader(imagesBytes);
    if imagesHeader.Failure? {
      return Failure(imagesHeader.error);
    }
    var labelsHeader := ReadHeader(labelsBytes);
    if labelsHeader.Failure? {
      return Failure(labelsHeader.error);
    }
    var it := new RecordIterator(imagesBytes, labelsBytes, imagesHeader.value, labelsHeader.value);
    return Success(it);
  }

  /** Calling next() until it returns nil: exactly the records Records describes. */
  method ReadAll(it: RecordIterator) returns (records: seq<IDXRecord>)
    requires it.Valid() && (it.imagesHeader.countPerItem > 0 || it.labelsHeader.countPerItem > 0)
    modifies it.imagesBytes, it.labelsBytes
    ensures it.Valid()
    ensures records == Records(old(it.imagesBytes.Remaining()), old(it.labelsBytes.Remaining()),
                               it.imagesHeader.countPerItem, it.labelsHeader.countPerItem)
  {
    var p, q := it.imagesHeader.countPerItem, it.labelsHeader.countPerItem;
    var images, labels := it.imagesBytes, it.labelsBytes;
    ghost var all := Records(images.Remaining(), labels.Remaining(), p, q);
    records := [];
    while true
      invariant it.Valid()
      invariant records + Records(images.Remaining(), labels.Remaining(), p, q) == all
      decreases |images.Remaining()| + |labels.Remaining()|
    {
      ghost var before := NextSpec(images.Remaining(), labels.Remaining(), p, q);
      NextIsFirstRecord(images.Remaining(), labels.Remaining(), p, q);
      var r := it.Next();
      if r.None? {
        return;
      }
      RecordsAppend(records, r.value, Records(before.1, before.2, p, q));
      records := records + [r.value];
    }
  }

  lemma RecordsAppend(done: seq<IDXRecord>, r: IDXRecord, rest: seq<IDXRecord>)
    ensures done + ([r] + rest) == (done + [r]) + rest
  {
  }

  /** What a pair of files decodes to: both headers, then the records of their payloads. */
  ghost predicate Decodable(images: seq<Byte>, labels: seq<Byte>)
  {
    && RankNonZero(images)
    && (ParseHeader(images).0.Success? ==> RankNonZero(labels))
    && (ParseHeader(images).0.Success? && ParseHeader(labels).0.Success? ==>
          ParseHeader(images).0.value.countPerItem > 0 || ParseHeader(labels).0.value.countPerItem > 0)
  }

  function DecodeFiles(images: seq<Byte>, labels: seq<Byte>): Result<seq<IDXRecord>, IDXError>
    requires Decodable(images, labels)
  {
    var imagesHeader := ParseHeader(images);
    if imagesHeader.0.Failure? then Failure(imagesHeader.0.error)
    else
      var labelsHeader := ParseHeader(labels);
      if labelsHeader.0.Failure? then Failure(labelsHeader.0.error)
      else Success(Records(imagesHeader.1, labelsHeader.1, imagesHeader.0.value.countPerItem, labelsHeader.0.value.countPerItem))
  }

  /** Opening both files and draining the iterator, as a training pass over the data does. */
  method ReadDataset(images: seq<Byte>, labels: seq<Byte>) returns (r: Result<seq<IDXRecord>, IDXError>)
    requires Decodable(images, labels)
    ensures r == DecodeFiles(images, labels)
  {
    var it := Open(images, labels);
    if it.Failure? {
      assert it.error == MissingHeader;
      return Failure(MissingHeader);
    }
    var records := ReadAll(it.value);
    return Success(records);
  }

  /**
   * Two written files decode to the records of their payloads, cut into items of the two
   * sizes' products; RecordCount and RecordAt say how many there are and what each holds.
   */
  lemma EncodedFilesDecode(images: seq<Byte>, labels: seq<Byte>,
                           imagesMagic: seq<Byte>, imagesType: IDXDataType, imageCount: nat, imageSizes: seq<nat>, imagePayload: seq<Byte>,
                           labelsMagic: seq<Byte>, labelsType: IDXDataType, labelCount: nat, labelSizes: seq<nat>, labelPayload: seq<Byte>)
    requires |imagesMagic| == 2 && |imageSizes| < 255 && imageCount < UInt32Limit
    requires forall i :: 0 <= i < |imageSizes| ==> imageSizes[i] < UInt32Limit
    requires |labelsMagic| == 2 && |labelSizes| < 255 && labelCount < UInt32Limit
    requires forall i :: 0 <= i < |labelSizes| ==> labelSizes[i] < UInt32Limit
    requires Product(imageSizes) > 0 && Product(labelSizes) > 0
    requires images == EncodeHeader(imagesMagic, imagesType, imageCount, imageSizes) + imagePayload
    requires labels == EncodeHeader(labelsMagic, labelsType, labelCount, labelSizes) + labelPayload
    ensures Decodable(images, labels)
    ensures DecodeFiles(images, labels) == Success(Records(imagePayload, labelPayload, Product(imageSizes), Product(labelSizes)))
  {
    ParseEncodedHeader(imagesMagic, imagesType, imageCount, imageSizes, imagePayload);
    ParseEncodedHeader(labelsMagic, labelsType, labelCount, labelSizes, labelPayload);
  }
}
