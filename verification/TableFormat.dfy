/**
 The format of a table file (table/format.h, table/format.cc): handles of blocks, blocks
 with a type and a checksum behind them, and the footer.
 */
module TableFormat {
  import opened Keys
  import opened Coding
  import C = Crc32c

  type Bytes = seq<Byte>

  // format.h:24
  datatype Handle = Handle(offset: nat, size: nat)

  const MAX_HANDLE := 20
  const FOOTER := 48
  const TRAILER := 5

  const NO_COMPRESSION: Byte := 0
  const SNAPPY: Byte := 1

  // What is wrong with a file or a block (table.cc:42, format.cc:27 to format.cc:135).
  datatype Error = TooShort | BadMagic | BadHandle | TruncatedRead | ChecksumMismatch | CorruptCompressed | BadType

  datatype Result<+T> = Ok(value: T) | Corruption(error: Error)

  predicate Fits(h: Handle) {
    h.offset < TWO64 && h.size < TWO64
  }

  // format.cc:15, in words of 64 bits.
  function EncodeHandle(h: Handle): (r: Bytes) {
    EncodeVarint(h.offset % TWO64) + EncodeVarint(h.size % TWO64)
  }

  lemma SmallHandle(h: Handle)
    ensures |EncodeHandle(h)| <= MAX_HANDLE
  {
    VarintLengths(h.offset % TWO64);
    VarintLengths(h.size % TWO64);
  }

  // format.cc:23
  function DecodeHandle(input: Bytes): Option<(Handle, Bytes)> {
    var offset := DecodeVarint64(input);
    if offset.None? then None
    else
      var size := DecodeVarint64(offset.value.1);
      if size.None? then None else Some((Handle(offset.value.0, size.value.0), size.value.1))
  }

  lemma HandleRoundTrip(h: Handle, rest: Bytes)
    requires Fits(h)
    ensures DecodeHandle(EncodeHandle(h) + rest) == Some((h, rest))
  {
    hide EncodeVarint, DecodeVarint64;
    assert EncodeHandle(h) + rest == EncodeVarint(h.offset) + (EncodeVarint(h.size) + rest);
    Varint64RoundTrip(h.offset, EncodeVarint(h.size) + rest);
    Varint64RoundTrip(h.size, rest);
  }

  /* ---- stored blocks ---- */

  function Crc(contents: Bytes, kind: Byte): (crc: nat)
    ensures crc < TWO32
  {
    C.Value(contents + [kind])
  }

  // table_builder.cc:184
  function Trailer(contents: Bytes, kind: Byte): (r: Bytes)
    ensures |r| == TRAILER
  {
    [kind] + EncodeFixed32(C.Mask(Crc(contents, kind)))
  }

  // table_builder.cc:177: a block goes to the end of the file, its type and checksum behind it.
  method WriteRawBlock(file: Bytes, contents: Bytes, kind: Byte) returns (r: Bytes, handle: Handle)
    ensures r == file + contents + Trailer(contents, kind) && handle == Handle(|file|, |contents|)
    ensures kind == NO_COMPRESSION ==> Stored(r, handle, contents)
  {
    handle := Handle(|file|, |contents|);
    r := file + contents;
    var crc := C.ExtendValue(C.Value(contents), [kind]);
    C.ValueExtends(contents, [kind]);
    hide C.Value, C.ExtendValue, C.Mask, EncodeFixed32;
    r := r + ([kind] + EncodeFixed32(C.Mask(crc)));
    assert r[|file|..|file| + |contents| + TRAILER] == contents + Trailer(contents, kind);
  }

  // The file has as many bytes as the handle asks for.
  predicate Whole(file: Bytes, h: Handle) {
    h.offset + h.size + TRAILER <= |file|
  }

  // They, with the trailer.
  function RawBlock(file: Bytes, h: Handle): (r: Bytes)
    requires Whole(file, h)
    ensures |r| == h.size + TRAILER
  {
    file[h.offset..h.offset + h.size + TRAILER]
  }

  function KindAt(file: Bytes, h: Handle): Byte
    requires Whole(file, h)
  {
    RawBlock(file, h)[h.size]
  }

  predicate ChecksumHolds(file: Bytes, h: Handle)
    requires Whole(file, h)
  {
    var data := RawBlock(file, h);
    C.Value(data[..h.size + 1]) == C.Unmask(DecodeFixed32(data[h.size + 1..]))
  }

  // A block as it is found in a file.
  ghost predicate Stored(file: Bytes, h: Handle, contents: Bytes) {
    h.size == |contents| && Whole(file, h) && RawBlock(file, h) == contents + Trailer(contents, NO_COMPRESSION)
  }

  lemma StoredKept(file: Bytes, more: Bytes, h: Handle, contents: Bytes)
    requires Stored(file, h, contents)
    ensures Stored(file + more, h, contents)
  {
    hide Trailer;
    assert RawBlock(file + more, h) == RawBlock(file, h);
  }

  // format.cc:64. Built without Snappy, so that a compressed block cannot be read.
  method ReadBlock(file: Bytes, handle: Handle, verifyChecksums: bool) returns (r: Result<Bytes>)
    ensures forall contents :: Stored(file, handle, contents) ==> r == Ok(contents)
    ensures verifyChecksums && r.Ok? ==> Stored(file, handle, r.value)
    ensures r.Ok? ==> Whole(file, handle) && r.value == RawBlock(file, handle)[..handle.size]
    ensures Whole(file, handle) && !verifyChecksums ==> (r.Ok? <==> KindAt(file, handle) == NO_COMPRESSION)
    ensures r == Corruption(TruncatedRead) <==> !Whole(file, handle)
    ensures r == Corruption(ChecksumMismatch) <==> Whole(file, handle) && verifyChecksums && !ChecksumHolds(file, handle)
    ensures r.Corruption? ==> r.error in {TruncatedRead, ChecksumMismatch, CorruptCompressed, BadType}
    ensures r == Corruption(CorruptCompressed) ==> KindAt(file, handle) == SNAPPY
    ensures r == Corruption(BadType) ==> KindAt(file, handle) != NO_COMPRESSION && KindAt(file, handle) != SNAPPY
  {
    hide C.Value, C.Unmask, DecodeFixed32, Stored, RawBlock, Trailer;
    var n := handle.size;
    StoredIff(file, handle);
    if handle.offset + n + TRAILER > |file| {
      return Corruption(TruncatedRead);
    }
    var data := RawBlock(file, handle);
    if verifyChecksums {
      var crc := C.Unmask(DecodeFixed32(data[n + 1..]));
      var actual := C.Value(data[..n + 1]);
      if actual != crc {
        return Corruption(ChecksumMismatch);
      }
    }
    if data[n] == NO_COMPRESSION {
      r := Ok(data[..n]);
    } else if data[n] == SNAPPY {
      r := Corruption(CorruptCompressed);
    } else {
      r := Corruption(BadType);
    }
  }

  ghost predicate IsStored(file: Bytes, h: Handle, contents: Bytes)
    requires Whole(file, h)
  {
    contents == RawBlock(file, h)[..h.size] && KindAt(file, h) == NO_COMPRESSION && ChecksumHolds(file, h)
  }

  // A block is stored exactly when its type and its checksum are right.
  lemma StoredIff(file: Bytes, h: Handle)
    ensures forall contents :: Stored(file, h, contents) <==> Whole(file, h) && IsStored(file, h, contents)
  {
    forall contents: Bytes
      ensures Stored(file, h, contents) <==> Whole(file, h) && IsStored(file, h, contents)
    {
      if Whole(file, h) {
        StoredOne(file, h, contents);
      }
    }
  }

  lemma StoredOne(file: Bytes, h: Handle, contents: Bytes)
    requires Whole(file, h)
    ensures Stored(file, h, contents) <==> IsStored(file, h, contents)
  {
    hide RawBlock, C.Value, C.Unmask, DecodeFixed32, Trailer;
    var data := RawBlock(file, h);
    JoinStored(data, h.size);
    if Stored(file, h, contents) {
      TrailerParts(data, contents);
    }
  }

  // Bytes whose checksum holds are a stored block.
  lemma JoinStored(data: Bytes, n: nat)
    requires |data| == n + TRAILER
    ensures C.Value(data[..n + 1]) == C.Unmask(DecodeFixed32(data[n + 1..])) && data[n] == NO_COMPRESSION ==>
      data == data[..n] + Trailer(data[..n], NO_COMPRESSION)
  {
    var contents, kind, masked := data[..n], data[n], data[n + 1..];
    Fixed32Bytes(masked);
    C.MaskUnmask(DecodeFixed32(masked));
    hide C.Value, C.Mask, C.Unmask, EncodeFixed32, DecodeFixed32;
    SplitData(data, n);
  }

  lemma SplitData<T>(data: seq<T>, n: nat)
    requires n < |data|
    ensures data[..n + 1] == data[..n] + [data[n]] && data == data[..n] + ([data[n]] + data[n + 1..])
  {
  }

  ghost predicate StoredBytes(data: Bytes, contents: Bytes) {
    && |data| == |contents| + TRAILER && data[..|contents|] == contents && data[|contents|] == NO_COMPRESSION
    && C.Unmask(DecodeFixed32(data[|contents| + 1..])) == C.Value(data[..|contents| + 1])
  }

  lemma Parts<T>(a: seq<T>, x: T, m: seq<T>)
    ensures var s := a + ([x] + m);
      s[..|a|] == a && s[|a|] == x && s[..|a| + 1] == a + [x] && s[|a| + 1..] == m
  {
  }

  lemma TrailerParts(data: Bytes, contents: Bytes)
    requires data == contents + Trailer(contents, NO_COMPRESSION)
    ensures StoredBytes(data, contents)
  {
    var crc := Crc(contents, NO_COMPRESSION);
    var masked := EncodeFixed32(C.Mask(crc));
    hide C.Value, C.Mask, C.Unmask, EncodeFixed32, DecodeFixed32;
    Parts(contents, NO_COMPRESSION, masked);
    assert masked == masked + [];
    Fixed32RoundTrip(C.Mask(crc), []);
    C.UnmaskMask(crc);
  }

  /* ---- the footer ---- */

  // The magic number 0xdb4775248b80fb57, low half first.
  const MAGIC_LOW := 0x8b80_fb57
  const MAGIC_HIGH := 0xdb47_7524

  datatype Footer = Footer(metaindex: Handle, index: Handle)

  // format.cc:31: the handles are filled up to their longest form.
  function EncodeFooter(f: Footer): Bytes {
    var handles := EncodeHandle(f.metaindex) + EncodeHandle(f.index);
    var padding := if |handles| < 2 * MAX_HANDLE then seq(2 * MAX_HANDLE - |handles|, i => 0) else [];
    handles + padding + EncodeFixed32(MAGIC_LOW) + EncodeFixed32(MAGIC_HIGH)
  }

  predicate HasMagic(input: Bytes)
    requires |input| >= FOOTER
  {
    DecodeFixed32(input[FOOTER - 8..]) == MAGIC_LOW && DecodeFixed32(input[FOOTER - 4..]) == MAGIC_HIGH
  }

  // format.cc:42
  function DecodeFooter(input: Bytes): Option<Footer>
    requires |input| >= FOOTER
  {
    if !HasMagic(input) then None
    else
      var metaindex := DecodeHandle(input);
      if metaindex.None? then None
      else
        var index := DecodeHandle(metaindex.value.1);
        if index.None? then None else Some(Footer(metaindex.value.0, index.value.0))
  }

  lemma FooterParts<T>(m: seq<T>, i: seq<T>, p: seq<T>, low: seq<T>, high: seq<T>)
    ensures var all := m + i + p + low + high;
      all == m + (i + (p + low + high)) && all[|m + i + p|..] == low + high && all[|m + i + p + low|..] == high
  {
  }

  lemma FooterRoundTrip(f: Footer)
    requires Fits(f.metaindex) && Fits(f.index)
    ensures |EncodeFooter(f)| == FOOTER && DecodeFooter(EncodeFooter(f)) == Some(f)
  {
    SmallHandle(f.metaindex);
    SmallHandle(f.index);
    var m, i := EncodeHandle(f.metaindex), EncodeHandle(f.index);
    var padding: Bytes := seq(2 * MAX_HANDLE - |m + i|, i => 0);
    var low, high := EncodeFixed32(MAGIC_LOW), EncodeFixed32(MAGIC_HIGH);
    var rest := padding + low + high;
    var all := EncodeFooter(f);
    hide EncodeFixed32, DecodeFixed32, EncodeHandle, DecodeHandle;
    FooterParts(m, i, padding, low, high);
    HandleRoundTrip(f.metaindex, i + rest);
    HandleRoundTrip(f.index, rest);
    Fixed32RoundTrip(MAGIC_LOW, high);
    Fixed32RoundTrip(MAGIC_HIGH, []);
    assert high == high + [];
  }

  // format.h:77
  const MAGIC := 0xdb47_7524_8b80_fb57

  lemma WordIs(b: Bytes, n: nat)
    requires |b| >= 4 && n < TWO32
    ensures DecodeFixed32(b) == n <==> b[..4] == EncodeFixed32(n)
  {
    hide EncodeFixed32, DecodeFixed32;
    var word, rest := b[..4], b[4..];
    assert b == word + rest;
    Fixed32Bytes(word);
    Fixed32RoundTrip(DecodeFixed32(word), rest);
    Fixed32RoundTrip(n, rest);
  }

  // The magic number is the last eight bytes.
  lemma MagicIs(input: Bytes)
    requires |input| == FOOTER
    ensures HasMagic(input) <==> input[FOOTER - 8..] == EncodeFixed64(MAGIC)
  {
    hide EncodeFixed32, DecodeFixed32;
    var b := input[FOOTER - 8..];
    WordIs(b, MAGIC_LOW);
    WordIs(input[FOOTER - 4..], MAGIC_HIGH);
    assert input[FOOTER - 4..] == b[4..] && b == b[..4] + b[4..];
    assert b[4..][..4] == b[4..];
    assert MAGIC % TWO32 == MAGIC_LOW && MAGIC / TWO32 == MAGIC_HIGH;
    assert EncodeFixed64(MAGIC)[..4] == EncodeFixed32(MAGIC_LOW) && EncodeFixed64(MAGIC)[4..] == EncodeFixed32(MAGIC_HIGH);
  }

  // b is a handle: two varints.
  ghost predicate IsHandle(b: Bytes, h: Handle) {
    exists x: Bytes, y: Bytes :: IsVarint64(x, h.offset) && IsVarint64(y, h.size) && b == x + y
  }

  lemma HandleFront(p: Bytes) returns (b: Bytes)
    requires DecodeHandle(p).Some?
    ensures IsHandle(b, DecodeHandle(p).value.0) && p == b + DecodeHandle(p).value.1
  {
    hide DecodeVarint;
    var x := VarintFront(p, 10, TWO64);
    var tail := DecodeVarint64(p).value.1;
    var y := VarintFront(tail, 10, TWO64);
    b := x + y;
    assert x + (y + DecodeHandle(p).value.1) == b + DecodeHandle(p).value.1;
    assert IsVarint64(x, DecodeHandle(p).value.0.offset) && IsVarint64(y, DecodeHandle(p).value.0.size);
  }

  lemma HandleBehind(b: Bytes, h: Handle, rest: Bytes)
    requires IsHandle(b, h)
    ensures DecodeHandle(b + rest) == Some((h, rest))
  {
    hide DecodeVarint;
    var x: Bytes, y: Bytes :| IsVarint64(x, h.offset) && IsVarint64(y, h.size) && b == x + y;
    assert b + rest == x + (y + rest);
    VarintBehind(x, 10, TWO64, h.offset, y + rest);
    VarintBehind(y, 10, TWO64, h.size, rest);
  }

  ghost predicate HandlesAt(input: Bytes, f: Footer) {
    exists x: Bytes, y: Bytes, rest: Bytes :: IsHandle(x, f.metaindex) && IsHandle(y, f.index) && input == x + (y + rest)
  }

  // A footer is read if and only if its last eight bytes are the magic number and it starts
  // with two handles.
  lemma FooterIff(input: Bytes, f: Footer)
    requires |input| == FOOTER
    ensures DecodeFooter(input) == Some(f) <==> input[FOOTER - 8..] == EncodeFixed64(MAGIC) && HandlesAt(input, f)
  {
    hide HasMagic, DecodeHandle, IsHandle, EncodeFixed64;
    MagicIs(input);
    if DecodeFooter(input) == Some(f) {
      var x := HandleFront(input);
      var tail := DecodeHandle(input).value.1;
      var y := HandleFront(tail);
      assert input == x + (y + DecodeHandle(tail).value.1);
    }
    if HandlesAt(input, f) {
      var x: Bytes, y: Bytes, rest: Bytes :| IsHandle(x, f.metaindex) && IsHandle(y, f.index) && input == x + (y + rest);
      HandleBehind(x, f.metaindex, y + rest);
      HandleBehind(y, f.index, rest);
    }
  }
}
