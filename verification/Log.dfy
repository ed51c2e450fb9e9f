/**
 The write-ahead log (db/log_writer.cc, db/log_reader.cc): records cut into fragments that
 never cross a 32 KB block, each with a checksum, a length and a type. Reading back a log,
 whole or cut off anywhere by a crash, gives the complete records in order and no report
 of corruption.
 */
module Log {
  import opened Keys
  import opened Coding
  import C = Crc32c

  // log_format.h:27 and log_format.h:30
  const BLOCK := 32768
  const HEADER := 7

  const ZERO := 0
  const FULL := 1
  const FIRST := 2
  const MIDDLE := 3
  const LAST := 4

  /* ---- physical records ---- */

  datatype Chunk = Chunk(kind: Byte, payload: seq<Byte>)

  // log_writer.cc:87: checksum, length and type.
  function Header(c: Chunk): (r: seq<Byte>)
    requires |c.payload| < 0x1_0000
    ensures |r| == HEADER
  {
    EncodeFixed32(C.Mask(C.Value([c.kind] + c.payload))) + [|c.payload| % 0x100, |c.payload| / 0x100 % 0x100, c.kind]
  }

  function Encode(c: Chunk): (r: seq<Byte>)
    requires |c.payload| < 0x1_0000
    ensures |r| == HEADER + |c.payload|
  {
    Header(c) + c.payload
  }

  /* ---- the writer ---- */

  // Bytes left in the block that are too few for a header are filled with zeros.
  function Pad(offset: nat): nat
    requires offset <= BLOCK
  {
    if BLOCK - offset < HEADER then BLOCK - offset else 0
  }

  function Start(offset: nat): (r: nat)
    requires offset <= BLOCK
    ensures r + HEADER <= BLOCK
  {
    if BLOCK - offset < HEADER then 0 else offset
  }

  function FragmentLength(offset: nat, left: nat): (n: nat)
    requires offset <= BLOCK
    ensures n <= left && Start(offset) + HEADER + n <= BLOCK
    ensures n < left ==> Start(offset) + HEADER + n == BLOCK
  {
    var avail := BLOCK - Start(offset) - HEADER;
    if left < avail then left else avail
  }

  function KindOf(begin: bool, end: bool): Byte {
    if begin && end then FULL else if begin then FIRST else if end then LAST else MIDDLE
  }

  // The fragments of a record that starts at an offset in a block.
  function Split(offset: nat, begin: bool, data: seq<Byte>): seq<Chunk>
    requires offset <= BLOCK
    decreases |data|, BLOCK - offset
  {
    var n := FragmentLength(offset, |data|);
    var chunk := Chunk(KindOf(begin, n == |data|), data[..n]);
    if n == |data| then [chunk] else [chunk] + Split(BLOCK, false, data[n..])
  }

  // Where the next fragment would start after one of n bytes.
  function After(offset: nat, n: nat): nat
    requires offset <= BLOCK
  {
    Start(offset) + HEADER + n
  }

  ghost predicate Fits(offset: nat, chunks: seq<Chunk>)
    decreases |chunks|
  {
    offset <= BLOCK && (chunks != [] ==> After(offset, |chunks[0].payload|) <= BLOCK && chunks[0].kind != ZERO
                                         && Fits(After(offset, |chunks[0].payload|), chunks[1..]))
  }

  ghost function End(offset: nat, chunks: seq<Chunk>): nat
    requires Fits(offset, chunks)
    decreases |chunks|
  {
    if chunks == [] then offset else End(After(offset, |chunks[0].payload|), chunks[1..])
  }

  ghost function Layout(offset: nat, chunks: seq<Chunk>): seq<Byte>
    requires Fits(offset, chunks)
    decreases |chunks|
  {
    if chunks == [] then []
    else Zeros(Pad(offset)) + Encode(chunks[0]) + Layout(After(offset, |chunks[0].payload|), chunks[1..])
  }

  // The bytes a layout takes.
  ghost function Size(offset: nat, chunks: seq<Chunk>): nat
    requires Fits(offset, chunks)
    decreases |chunks|
  {
    if chunks == [] then 0
    else Pad(offset) + HEADER + |chunks[0].payload| + Size(After(offset, |chunks[0].payload|), chunks[1..])
  }

  lemma {:induction false} LayoutSize(offset: nat, chunks: seq<Chunk>)
    requires Fits(offset, chunks)
    ensures |Layout(offset, chunks)| == Size(offset, chunks)
    decreases |chunks|
  {
    if chunks != [] {
      LayoutSize(After(offset, |chunks[0].payload|), chunks[1..]);
    }
  }

  lemma {:induction false} SizeAppend(offset: nat, a: seq<Chunk>, b: seq<Chunk>)
    requires Fits(offset, a) && Fits(End(offset, a), b) && Fits(offset, a + b)
    ensures Size(offset, a + b) == Size(offset, a) + Size(End(offset, a), b)
    decreases |a|
  {
    if a == [] {
      assert a + b == b;
    } else {
      assert (a + b)[1..] == a[1..] + b && (a + b)[0] == a[0];
      SizeAppend(After(offset, |a[0].payload|), a[1..], b);
    }
  }

  function Zeros(n: nat): (r: seq<Byte>)
    ensures |r| == n
  {
    if n == 0 then [] else Zeros(n - 1) + [0]
  }

  lemma {:induction false} SplitFits(offset: nat, begin: bool, data: seq<Byte>)
    requires offset <= BLOCK
    ensures Fits(offset, Split(offset, begin, data))
    decreases |data|, BLOCK - offset
  {
    var n := FragmentLength(offset, |data|);
    if n < |data| {
      SplitFits(BLOCK, false, data[n..]);
    }
  }

  lemma {:induction false} FitsAppend(offset: nat, a: seq<Chunk>, b: seq<Chunk>)
    requires Fits(offset, a) && Fits(End(offset, a), b)
    ensures Fits(offset, a + b) && End(offset, a + b) == End(End(offset, a), b)
    decreases |a|
  {
    if a == [] {
      assert a + b == b;
    } else {
      FitsAppend(After(offset, |a[0].payload|), a[1..], b);
      assert (a + b)[1..] == a[1..] + b && (a + b)[0] == a[0];
    }
  }

  lemma Join<T>(a: seq<T>, b: seq<T>, c: seq<T>)
    ensures a + b + c == a + (b + c)
  {
  }

  lemma {:induction false} LayoutAppend(offset: nat, a: seq<Chunk>, b: seq<Chunk>)
    requires Fits(offset, a) && Fits(End(offset, a), b) && Fits(offset, a + b)
    ensures Layout(offset, a + b) == Layout(offset, a) + Layout(End(offset, a), b)
    decreases |a|
  {
    if a == [] {
      assert a + b == b;
    } else {
      var next := After(offset, |a[0].payload|);
      assert (a + b)[1..] == a[1..] + b && (a + b)[0] == a[0];
      LayoutAppend(next, a[1..], b);
      Join(Zeros(Pad(offset)) + Encode(a[0]), Layout(next, a[1..]), Layout(End(offset, a), b));
    }
  }

  // The first fragment and the fragments that follow it.
  ghost function Following(offset: nat, data: seq<Byte>): seq<Chunk>
    requires offset <= BLOCK
  {
    var n := FragmentLength(offset, |data|);
    if n == |data| then [] else Split(BLOCK, false, data[n..])
  }

  lemma SplitStep(offset: nat, begin: bool, data: seq<Byte>)
    requires offset <= BLOCK
    ensures var n := FragmentLength(offset, |data|);
            var c := Chunk(KindOf(begin, n == |data|), data[..n]);
            && Split(offset, begin, data) == [c] + Following(offset, data)
            && Fits(offset, Split(offset, begin, data)) && Fits(After(offset, n), Following(offset, data))
            && End(offset, Split(offset, begin, data)) == End(After(offset, n), Following(offset, data))
            && Layout(offset, Split(offset, begin, data)) == Zeros(Pad(offset)) + Encode(c) + Layout(After(offset, n), Following(offset, data))
  {
    SplitFits(offset, begin, data);
    var n := FragmentLength(offset, |data|);
    assert Split(offset, begin, data)[1..] == Following(offset, data);
  }

  class Writer {
    var dest: seq<Byte>
    var blockOffset: nat
    // The records written so far.
    ghost var records: seq<seq<Byte>>

    ghost predicate Valid()
      reads this
    {
      dest == LogOf(records) && blockOffset == End(0, Chunks(0, records))
    }

    constructor ()
      ensures Valid() && records == []
    {
      dest, blockOffset, records := [], 0, [];
    }

    // log_writer.cc:82
    method EmitPhysicalRecord(c: Chunk)
      requires blockOffset + HEADER + |c.payload| <= BLOCK
      modifies `dest, `blockOffset
      ensures dest == old(dest) + Encode(c) && blockOffset == old(blockOffset) + HEADER + |c.payload|
    {
      Join(dest, Header(c), c.payload);
      dest := dest + Header(c);
      dest := dest + c.payload;
      blockOffset := blockOffset + HEADER + |c.payload|;
    }

    // log_writer.cc:46
    method FillTrailer()
      requires blockOffset <= BLOCK
      modifies `dest, `blockOffset
      ensures dest == old(dest) + Zeros(Pad(old(blockOffset))) && blockOffset == Start(old(blockOffset))
    {
      var leftover := BLOCK - blockOffset;
      if leftover < HEADER {
        dest := dest + Zeros(leftover);
        blockOffset := 0;
      }
    }

    // log_writer.cc:44: one round of the loop.
    method EmitFragment(begin: bool, left: seq<Byte>) returns (n: nat)
      requires blockOffset <= BLOCK
      modifies `dest, `blockOffset
      ensures n == FragmentLength(old(blockOffset), |left|) && blockOffset == After(old(blockOffset), n) <= BLOCK
      ensures dest == old(dest) + (Zeros(Pad(old(blockOffset))) + Encode(Chunk(KindOf(begin, n == |left|), left[..n])))
    {
      FillTrailer();
      var avail := BLOCK - blockOffset - HEADER;
      n := if |left| < avail then |left| else avail;
      var c := Chunk(KindOf(begin, n == |left|), left[..n]);
      EmitPhysicalRecord(c);
      Join(old(dest), Zeros(Pad(old(blockOffset))), Encode(c));
    }

    // log_writer.cc:34: the file is the log of the records given so far, and one more.
    method AddRecord(data: seq<Byte>)
      requires Valid()
      modifies this
      ensures Valid() && records == old(records) + [data]
    {
      AddRecordExtends(records, data);
      EmitFragments(data);
      records := records + [data];
    }

    // log_writer.cc:43
    method EmitFragments(data: seq<Byte>)
      requires blockOffset <= BLOCK
      modifies `dest, `blockOffset
      ensures Fits(old(blockOffset), Split(old(blockOffset), true, data))
      ensures dest == old(dest) + Layout(old(blockOffset), Split(old(blockOffset), true, data))
      ensures blockOffset == End(old(blockOffset), Split(old(blockOffset), true, data)) <= BLOCK
    {
      ghost var all := Split(blockOffset, true, data);
      ghost var rest := all;
      SplitFits(blockOffset, true, data);
      hide Split, Fits, Layout, End, Encode, Zeros, FragmentLength, Pad, KindOf;
      var left, begin, go := data, true, true;
      while go
        invariant blockOffset <= BLOCK && Fits(blockOffset, rest)
        invariant rest == if go then Split(blockOffset, begin, left) else []
        invariant old(dest) + Layout(old(blockOffset), all) == dest + Layout(blockOffset, rest)
        invariant End(old(blockOffset), all) == End(blockOffset, rest)
        decreases go, |left|, BLOCK - blockOffset
      {
        SplitStep(blockOffset, begin, left);
        ghost var before, next := dest, Following(blockOffset, left);
        ghost var piece := Zeros(Pad(blockOffset)) + Encode(Split(blockOffset, begin, left)[0]);
        var n := EmitFragment(begin, left);
        assert dest == before + piece;
        Join(before, piece, Layout(blockOffset, next));
        left, begin, rest := left[n..], false, next;
        go := left != [];
      }
      NoChunks(blockOffset);
      AppendNothing(dest);
    }
  }

  /* ---- the reader ---- */

  // log_reader.h: two more outcomes next to the record types.
  const EOF := 5
  const BAD := 6

  // rest is the part of the file not read yet; drops counts the reports of corruption.
  datatype State = State(buffer: seq<Byte>, rest: seq<Byte>, eof: bool, drops: nat) {
    function Remaining(): seq<Byte> {
      buffer + rest
    }

    function Report(): State {
      this.(drops := drops + 1)
    }
  }

  datatype Physical = Physical(state: State, kind: nat, payload: seq<Byte>)

  // log_reader.cc:192: the next block, or what is left of the file.
  function Refill(s: State): (r: State)
    ensures |r.rest| <= |s.rest| && (|r.rest| < |s.rest| || r.eof)
    ensures |r.buffer| + |r.rest| == |s.rest|
  {
    var n := if |s.rest| < BLOCK then |s.rest| else BLOCK;
    State(s.rest[..n], s.rest[n..], n < BLOCK, s.drops)
  }

  // log_reader.cc:245
  predicate ChecksumHolds(buffer: seq<Byte>, length: nat)
    requires HEADER + length <= |buffer|
  {
    C.Unmask(DecodeFixed32(buffer)) == C.Value(buffer[6..HEADER + length])
  }

  // log_reader.cc:216: the record at the head of the buffer.
  function Parse(s: State): (r: Physical)
    requires |s.buffer| >= HEADER
    ensures |r.state.buffer| < |s.buffer| && r.state.rest == s.rest
  {
    var length := s.buffer[4] as nat + 0x100 * s.buffer[5] as nat;
    var kind := s.buffer[6];
    if HEADER + length > |s.buffer| then
      var cleared := s.(buffer := []);
      if !s.eof then Physical(cleared.Report(), BAD, []) else Physical(cleared, EOF, [])
    else if kind == ZERO && length == 0 then Physical(s.(buffer := []), BAD, [])
    else if !ChecksumHolds(s.buffer, length) then
      Physical(s.(buffer := []).Report(), BAD, [])
    else
      Physical(s.(buffer := s.buffer[HEADER + length..]), kind, s.buffer[HEADER..HEADER + length])
  }

  // log_reader.cc:189
  function ReadPhysical(s: State): (r: Physical)
    ensures r.kind != EOF ==> |r.state.buffer| + |r.state.rest| < |s.buffer| + |s.rest|
    ensures |r.state.buffer| + |r.state.rest| <= |s.buffer| + |s.rest|
    decreases |s.rest|, if s.eof then 0 else 1
  {
    if |s.buffer| >= HEADER then Parse(s)
    else if !s.eof then ReadPhysical(Refill(s))
    else Physical(s.(buffer := []), EOF, [])
  }

  datatype Logical = Logical(state: State, record: Option<seq<Byte>>)

  // What a physical record does to the record in the making.
  datatype Step = Done(result: Logical) | Go(state: State, inFragment: bool, scratch: seq<Byte>)

  // log_reader.cc:91
  function Take(p: Physical, inFragment: bool, scratch: seq<Byte>): (r: Step)
    ensures r.Go? ==> p.kind != EOF && r.state.buffer == p.state.buffer && r.state.rest == p.state.rest
    ensures r.Done? ==> r.result.state.buffer == p.state.buffer && r.result.state.rest == p.state.rest
    ensures r.Done? && r.result.record.Some? ==> p.kind != EOF
  {
    var partial := if inFragment && scratch != [] then p.state.Report() else p.state;
    if p.kind == FULL then Done(Logical(partial, Some(p.payload)))
    else if p.kind == FIRST then Go(partial, true, p.payload)
    else if p.kind == MIDDLE then
      if inFragment then Go(p.state, true, scratch + p.payload) else Go(p.state.Report(), false, scratch)
    else if p.kind == LAST then
      if inFragment then Done(Logical(p.state, Some(scratch + p.payload))) else Go(p.state.Report(), false, scratch)
    else if p.kind == EOF then Done(Logical(p.state, None))
    else if p.kind == BAD then
      if inFragment then Go(p.state.Report(), false, []) else Go(p.state, false, scratch)
    else Go(p.state.Report(), false, [])
  }

  // log_reader.cc:71, with the record so far.
  function ReadLogical(s: State, inFragment: bool, scratch: seq<Byte>): (r: Logical)
    ensures r.record.Some? ==> |r.state.buffer| + |r.state.rest| < |s.buffer| + |s.rest|
    decreases |s.buffer| + |s.rest|
  {
    match Take(ReadPhysical(s), inFragment, scratch)
    case Done(r) => r
    case Go(s', inFragment', scratch') => ReadLogical(s', inFragment', scratch')
  }

  // Records until there are no more, after those in hand.
  function ReadRecords(s: State, records: seq<seq<Byte>>): (State, seq<seq<Byte>>)
    decreases |s.buffer| + |s.rest|
  {
    var next := ReadLogical(s, false, []);
    if next.record.None? then (next.state, records) else ReadRecords(next.state, records + [next.record.value])
  }

  function Opened(file: seq<Byte>): State {
    State([], file, false, 0)
  }

  class Reader {
    var buffer: seq<Byte>
    var rest: seq<Byte>
    var eof: bool
    var drops: nat

    ghost function Abs(): State
      reads this
    {
      State(buffer, rest, eof, drops)
    }

    constructor (file: seq<Byte>)
      ensures Abs() == Opened(file)
    {
      buffer, rest, eof, drops := [], file, false, 0;
    }

    // log_reader.cc:216
    method ParseHeader() returns (kind: nat, result: seq<Byte>)
      requires |buffer| >= HEADER
      modifies this
      ensures Physical(Abs(), kind, result) == Parse(old(Abs()))
    {
      hide ChecksumHolds;
      var length: nat := buffer[4] as nat + 0x100 * buffer[5] as nat;
      kind, result := buffer[6], [];
      if HEADER + length > |buffer| {
        kind, buffer, drops := if eof then EOF else BAD, [], if eof then drops else drops + 1;
      } else if kind == ZERO && length == 0 {
        kind, buffer := BAD, [];
      } else if !ChecksumHolds(buffer, length) {
        kind, buffer, drops := BAD, [], drops + 1;
      } else {
        result, buffer := buffer[HEADER..HEADER + length], buffer[HEADER + length..];
      }
    }

    // log_reader.cc:189
    method ReadPhysicalRecord() returns (kind: nat, result: seq<Byte>)
      modifies this
      ensures Physical(Abs(), kind, result) == ReadPhysical(old(Abs()))
    {
      while |buffer| < HEADER
        invariant ReadPhysical(Abs()) == ReadPhysical(old(Abs()))
        decreases |rest|, if eof then 0 else 1
      {
        if !eof {
          var n := if |rest| < BLOCK then |rest| else BLOCK;
          buffer, rest, eof := rest[..n], rest[n..], n < BLOCK;
        } else {
          buffer := [];
          return EOF, [];
        }
      }
      kind, result := ParseHeader();
    }

    // log_reader.cc:91
    method TakeFragment(kind: nat, fragment: seq<Byte>, inFragment: bool, scratch: seq<Byte>)
      returns (done: bool, record: Option<seq<Byte>>, inFragment': bool, scratch': seq<Byte>)
      modifies `drops
      ensures Take(Physical(old(Abs()), kind, fragment), inFragment, scratch)
              == if done then Done(Logical(Abs(), record)) else Go(Abs(), inFragment', scratch')
    {
      done, record, inFragment', scratch' := false, None, inFragment, scratch;
      if kind == FULL {
        if inFragment && scratch != [] {
          drops := drops + 1;
        }
        done, record := true, Some(fragment);
      } else if kind == FIRST {
        if inFragment && scratch != [] {
          drops := drops + 1;
        }
        inFragment', scratch' := true, fragment;
      } else if kind == MIDDLE {
        if !inFragment {
          drops := drops + 1;
        } else {
          scratch' := scratch + fragment;
        }
      } else if kind == LAST {
        if !inFragment {
          drops := drops + 1;
        } else {
          done, record := true, Some(scratch + fragment);
        }
      } else if kind == EOF {
        done := true;
      } else if kind == BAD {
        if inFragment {
          drops, inFragment', scratch' := drops + 1, false, [];
        }
      } else {
        drops, inFragment', scratch' := drops + 1, false, [];
      }
    }

    // log_reader.cc:56
    method ReadRecord() returns (record: Option<seq<Byte>>)
      modifies this
      ensures Logical(Abs(), record) == ReadLogical(old(Abs()), false, [])
    {
      var inFragment, scratch := false, [];
      var done := false;
      record := None;
      while !done
        invariant ReadLogical(old(Abs()), false, []) == if done then Logical(Abs(), record) else ReadLogical(Abs(), inFragment, scratch)
        decreases !done, |buffer| + |rest|
      {
        var kind, fragment := ReadPhysicalRecord();
        done, record, inFragment, scratch := TakeFragment(kind, fragment, inFragment, scratch);
      }
    }
  }

  /* ---- reports only add up ---- */

  lemma {:induction false} PhysicalDrops(s: State)
    ensures s.drops <= ReadPhysical(s).state.drops
    decreases |s.rest|, if s.eof then 0 else 1
  {
    hide ChecksumHolds;
    if |s.buffer| < HEADER && !s.eof {
      PhysicalDrops(Refill(s));
    }
  }

  lemma TakeDrops(p: Physical, inFragment: bool, scratch: seq<Byte>)
    ensures var t := Take(p, inFragment, scratch);
            p.state.drops <= if t.Go? then t.state.drops else t.result.state.drops
  {
  }

  lemma {:induction false} LogicalDrops(s: State, inFragment: bool, scratch: seq<Byte>)
    ensures s.drops <= ReadLogical(s, inFragment, scratch).state.drops
    decreases |s.buffer| + |s.rest|
  {
    hide ReadPhysical, Take;
    PhysicalDrops(s);
    TakeDrops(ReadPhysical(s), inFragment, scratch);
    match Take(ReadPhysical(s), inFragment, scratch)
    case Done(r) =>
    case Go(s', inFragment', scratch') => LogicalDrops(s', inFragment', scratch');
  }

  lemma {:induction false} RecordsDrops(s: State, records: seq<seq<Byte>>)
    ensures s.drops <= ReadRecords(s, records).0.drops && records <= ReadRecords(s, records).1
    decreases |s.buffer| + |s.rest|
  {
    hide ReadLogical;
    LogicalDrops(s, false, []);
    var next := ReadLogical(s, false, []);
    if next.record.Some? {
      RecordsDrops(next.state, records + [next.record.value]);
    }
  }

  /* ---- reading what was written ---- */

  // The reader stands at an offset in a block, and what remains of the file is a part,
  // from the front, of the layout of the chunks to come.
  ghost predicate At(s: State, offset: nat, chunks: seq<Chunk>) {
    && Fits(offset, chunks) && s.Remaining() <= Layout(offset, chunks)
    && |s.buffer| == (if |s.Remaining()| < BLOCK - offset then |s.Remaining()| else BLOCK - offset)
    && (s.eof <==> |s.Remaining()| < BLOCK - offset)
  }

  ghost function Need(offset: nat, c: Chunk): nat
    requires offset <= BLOCK
  {
    Pad(offset) + HEADER + |c.payload|
  }

  // A chunk is read exactly if all of it is there; otherwise the file ends here.
  ghost predicate ChunkRead(s: State, offset: nat, chunks: seq<Chunk>, p: Physical)
    requires Fits(offset, chunks)
  {
    && p.state.drops == s.drops
    && if chunks != [] && Need(offset, chunks[0]) <= |s.Remaining()| then
         && p.kind == chunks[0].kind && p.payload == chunks[0].payload
         && At(p.state, After(offset, |chunks[0].payload|), chunks[1..])
         && |p.state.Remaining()| == |s.Remaining()| - Need(offset, chunks[0])
       else p.kind == EOF
  }

  lemma ChecksumParses(crc: nat, buffer: seq<Byte>)
    requires crc < TWO32 && |buffer| >= 4 && buffer[..4] == EncodeFixed32(C.Mask(crc))
    ensures C.Unmask(DecodeFixed32(buffer)) == crc
  {
    hide C.Mask, C.Unmask, DecodeFixed32, EncodeFixed32;
    assert buffer == EncodeFixed32(C.Mask(crc)) + buffer[4..];
    Fixed32RoundTrip(C.Mask(crc), buffer[4..]);
    C.UnmaskMask(crc);
  }

  lemma HeaderParses(c: Chunk, buffer: seq<Byte>)
    requires |c.payload| < 0x1_0000 && |buffer| >= HEADER && buffer[..HEADER] == Header(c)
    ensures buffer[4] as nat + 0x100 * buffer[5] as nat == |c.payload| && buffer[6] == c.kind
    ensures C.Unmask(DecodeFixed32(buffer)) == C.Value([c.kind] + c.payload)
  {
    hide C.Value, C.Mask, C.Unmask, DecodeFixed32, EncodeFixed32;
    var h := Header(c);
    assert buffer[..4] == h[..4] && buffer[4] == h[4] && buffer[5] == h[5] && buffer[6] == h[6];
    ChecksumParses(C.Value([c.kind] + c.payload), buffer);
  }

  lemma PrefixParts<T>(p: seq<T>, a: seq<T>, b: seq<T>)
    requires p <= a + b
    ensures |p| >= |a| ==> p[..|a|] == a && p[|a|..] <= b
    ensures |p| < |a| ==> p <= a
  {
  }

  lemma Slices<T>(b: seq<T>, h: seq<T>, p: seq<T>, r: seq<T>)
    requires |h| > 0 && b == h + p + r
    ensures b[..|h|] == h && b[|h|..|h| + |p|] == p && b[|h| + |p|..] == r
    ensures b[|h| - 1..|h| + |p|] == [h[|h| - 1]] + p
  {
  }

  // The whole chunk is in the buffer.
  lemma WholeChunk(s: State, c: Chunk, rest: seq<Byte>)
    requires |c.payload| < 0x1_0000 && c.kind != ZERO && s.buffer == Encode(c) + rest
    ensures Parse(s) == Physical(s.(buffer := rest), c.kind, c.payload)
  {
    Slices(s.buffer, Header(c), c.payload, rest);
    HeaderParses(c, s.buffer);
  }

  // Only a part of it is, and the file ends there.
  lemma PartOfChunk(s: State, c: Chunk)
    requires |c.payload| < 0x1_0000 && |s.buffer| >= HEADER && s.buffer <= Encode(c) && s.buffer != Encode(c) && s.eof
    ensures Parse(s) == Physical(s.(buffer := []), EOF, [])
  {
    assert s.buffer[..HEADER] == Header(c);
    HeaderParses(c, s.buffer);
  }

  lemma FirstOfLayout(offset: nat, chunks: seq<Chunk>)
    requires Fits(offset, chunks) && chunks != [] && Pad(offset) == 0
    ensures Layout(offset, chunks) == Encode(chunks[0]) + Layout(After(offset, |chunks[0].payload|), chunks[1..])
  {
    assert Zeros(0) + Encode(chunks[0]) == Encode(chunks[0]);
  }

  lemma TakeOff<T>(a: seq<T>, b: seq<T>, n: nat)
    requires n <= |a|
    ensures a[n..] + b == (a + b)[n..] && a[..n] == (a + b)[..n]
  {
  }

  lemma TakeWhole<T>(buffer: seq<T>, rest: seq<T>, first: seq<T>, more: seq<T>)
    requires buffer + rest <= first + more && |first| <= |buffer|
    ensures buffer == first + buffer[|first|..] && buffer[|first|..] + rest <= more
  {
    PrefixParts(buffer + rest, first, more);
    TakeOff(buffer, rest, |first|);
  }

  // With the first chunk out of the buffer, the reader stands at the next one.
  lemma PastChunk(s: State, offset: nat, chunks: seq<Chunk>) returns (rest: seq<Byte>)
    requires At(s, offset, chunks) && chunks != [] && offset + HEADER <= BLOCK
    requires |Encode(chunks[0])| <= |s.buffer|
    ensures s.buffer == Encode(chunks[0]) + rest && At(s.(buffer := rest), After(offset, |chunks[0].payload|), chunks[1..])
    ensures |rest + s.rest| == |s.Remaining()| - Need(offset, chunks[0])
  {
    var enc, more := Encode(chunks[0]), Layout(After(offset, |chunks[0].payload|), chunks[1..]);
    FirstOfLayout(offset, chunks);
    hide Encode, Layout;
    TakeWhole(s.buffer, s.rest, enc, more);
    rest := s.buffer[|enc|..];
  }

  // The file ends within the first chunk.
  lemma EndsInChunk(s: State, offset: nat, chunks: seq<Chunk>)
    requires At(s, offset, chunks) && chunks != [] && offset + HEADER <= BLOCK && |s.buffer| < |Encode(chunks[0])|
    ensures s.eof && s.buffer <= Encode(chunks[0]) && |s.Remaining()| < Need(offset, chunks[0])
  {
    var enc, more := Encode(chunks[0]), Layout(After(offset, |chunks[0].payload|), chunks[1..]);
    FirstOfLayout(offset, chunks);
    PrefixParts(s.Remaining(), enc, more);
    TakeOff(s.buffer, s.rest, |s.buffer|);
  }

  // Away from the trailer, with a header in the buffer.
  lemma ParseChunk(s: State, offset: nat, chunks: seq<Chunk>)
    requires At(s, offset, chunks) && offset + HEADER <= BLOCK && |s.buffer| >= HEADER
    ensures ChunkRead(s, offset, chunks, Parse(s))
  {
    assert chunks != [];
    if |Encode(chunks[0])| <= |s.buffer| {
      var rest := PastChunk(s, offset, chunks);
      WholeChunk(s, chunks[0], rest);
    } else {
      EndsInChunk(s, offset, chunks);
      PartOfChunk(s, chunks[0]);
    }
  }

  // At the end of a block the zeros are skipped and the next block is fetched.
  lemma NextBlock(s: State, offset: nat, chunks: seq<Chunk>)
    requires At(s, offset, chunks) && BLOCK - offset < HEADER && !s.eof
    ensures At(Refill(s), 0, chunks) && Refill(s).drops == s.drops
    ensures |Refill(s).Remaining()| == |s.Remaining()| - Pad(offset)
    ensures chunks != [] ==> After(offset, |chunks[0].payload|) == After(0, |chunks[0].payload|)
  {
    var r := Refill(s);
    assert r.Remaining() == s.rest;
    if chunks != [] {
      PaddedLayout(offset, chunks);
      PrefixParts(s.Remaining(), Zeros(Pad(offset)), Layout(0, chunks));
      TakeOff(s.buffer, s.rest, Pad(offset));
      assert s.Remaining()[Pad(offset)..] == s.rest;
    }
  }

  lemma PaddedLayout(offset: nat, chunks: seq<Chunk>)
    requires Fits(offset, chunks) && BLOCK - offset < HEADER && chunks != []
    ensures Fits(0, chunks) && Layout(offset, chunks) == Zeros(Pad(offset)) + Layout(0, chunks)
  {
    FirstOfLayout(0, chunks);
    Join(Zeros(Pad(offset)), Encode(chunks[0]), Layout(After(0, |chunks[0].payload|), chunks[1..]));
  }

  lemma ReadsChunk(s: State, offset: nat, chunks: seq<Chunk>)
    requires At(s, offset, chunks)
    ensures ChunkRead(s, offset, chunks, ReadPhysical(s))
  {
    if |s.buffer| >= HEADER || s.eof {
      ReadsInBlock(s, offset, chunks);
    } else {
      hide Layout, Parse, Encode;
      NextBlock(s, offset, chunks);
      ReadsInBlock(Refill(s), 0, chunks);
      assert ReadPhysical(s) == ReadPhysical(Refill(s));
    }
  }

  // There is no further block to go to.
  lemma ReadsInBlock(s: State, offset: nat, chunks: seq<Chunk>)
    requires At(s, offset, chunks) && (|s.buffer| >= HEADER || s.eof || offset == 0)
    requires |s.buffer| >= HEADER ==> offset + HEADER <= BLOCK
    ensures ChunkRead(s, offset, chunks, ReadPhysical(s))
  {
    if |s.buffer| >= HEADER {
      ParseChunk(s, offset, chunks);
    } else {
      hide Layout, Encode, Parse;
      assert s.eof;
    }
  }

  // A record is read exactly if all of it is there; otherwise there are no more records.
  ghost predicate RecordRead(s: State, size: nat, end: nat, more: seq<Chunk>, record: seq<Byte>, r: Logical) {
    && r.state.drops == s.drops
    && if size <= |s.Remaining()| then
         r.record == Some(record) && At(r.state, end, more) && |r.state.Remaining()| == |s.Remaining()| - size
       else r.record == None
  }

  lemma TakesChunk(p: Physical, begin: bool, end: bool, scratch: seq<Byte>)
    requires p.kind == KindOf(begin, end) && (begin ==> scratch == [])
    ensures Take(p, !begin, scratch) == if end then Done(Logical(p.state, Some(scratch + p.payload))) else Go(p.state, true, scratch + p.payload)
  {
    assert begin ==> scratch + p.payload == p.payload;
  }

  lemma TakesEof(p: Physical, inFragment: bool, scratch: seq<Byte>)
    requires p.kind == EOF
    ensures Take(p, inFragment, scratch) == Done(Logical(p.state, None))
  {
  }

  lemma NoChunks(offset: nat)
    requires offset <= BLOCK
    ensures Fits(offset, []) && Size(offset, []) == 0 && End(offset, []) == offset
    ensures Chunks(offset, []) == [] && SizeOf(offset, []) == 0
  {
  }

  // The first fragment of a record and what is left to read after it.
  lemma SplitHead(offset: nat, begin: bool, data: seq<Byte>)
    requires offset <= BLOCK
    ensures var n := FragmentLength(offset, |data|);
            var c := Chunk(KindOf(begin, n == |data|), data[..n]);
            && Split(offset, begin, data) == [c] + Following(offset, data)
            && Fits(offset, Split(offset, begin, data)) && Fits(After(offset, n), Following(offset, data))
            && Size(offset, Split(offset, begin, data)) == Need(offset, c) + Size(After(offset, n), Following(offset, data))
            && End(offset, Split(offset, begin, data)) == End(After(offset, n), Following(offset, data))
  {
    SplitFits(offset, begin, data);
    assert Split(offset, begin, data)[1..] == Following(offset, data);
  }

  // Reading the first of some chunks.
  lemma ReadsHead(s: State, offset: nat, c: Chunk, rest: seq<Chunk>)
    requires At(s, offset, [c] + rest)
    ensures var p := ReadPhysical(s);
            && p.state.drops == s.drops
            && if Need(offset, c) <= |s.Remaining()| then
                 && p.kind == c.kind && p.payload == c.payload && At(p.state, After(offset, |c.payload|), rest)
                 && |p.state.Remaining()| == |s.Remaining()| - Need(offset, c)
               else p.kind == EOF
  {
    ReadsChunk(s, offset, [c] + rest);
    assert ([c] + rest)[1..] == rest;
  }

  lemma {:induction false} ReadsRecord(s: State, offset: nat, begin: bool, data: seq<Byte>, more: seq<Chunk>, scratch: seq<Byte>)
    requires offset <= BLOCK && At(s, offset, Split(offset, begin, data) + more)
    requires begin ==> scratch == []
    ensures Fits(offset, Split(offset, begin, data))
    ensures RecordRead(s, Size(offset, Split(offset, begin, data)), End(offset, Split(offset, begin, data)), more, scratch + data,
                       ReadLogical(s, !begin, scratch))
    decreases |data|, BLOCK - offset
  {
    hide At, ReadPhysical, Layout, Size, Fits, End, Split, Take;
    var n := FragmentLength(offset, |data|);
    var c := Chunk(KindOf(begin, n == |data|), data[..n]);
    var next := Following(offset, data);
    SplitHead(offset, begin, data);
    Join([c], next, more);
    ReadsHead(s, offset, c, next + more);
    var p := ReadPhysical(s);
    if Need(offset, c) <= |s.Remaining()| {
      TakesChunk(p, begin, n == |data|, scratch);
      if n == |data| {
        NoChunks(After(offset, n));
        assert data[..n] == data && next + more == more;
      } else {
        ReadsRecord(p.state, BLOCK, false, data[n..], more, scratch + data[..n]);
        assert scratch + data[..n] + data[n..] == scratch + data;
      }
    } else {
      TakesEof(p, !begin, scratch);
    }
  }

  /* ---- a whole log ---- */

  // The chunks of records written one after another.
  ghost function Chunks(offset: nat, records: seq<seq<Byte>>): (r: seq<Chunk>)
    requires offset <= BLOCK
    ensures Fits(offset, r)
    decreases |records|
  {
    if records == [] then []
    else
      var first := Split(offset, true, records[0]);
      SplitFits(offset, true, records[0]);
      EndInBlock(offset, first);
      var rest := Chunks(End(offset, first), records[1..]);
      FitsAppend(offset, first, rest);
      first + rest
  }

  lemma {:induction false} EndInBlock(offset: nat, chunks: seq<Chunk>)
    requires Fits(offset, chunks)
    ensures End(offset, chunks) <= BLOCK
    decreases |chunks|
  {
    if chunks != [] {
      EndInBlock(After(offset, |chunks[0].payload|), chunks[1..]);
    }
  }

  ghost function LogOf(records: seq<seq<Byte>>): seq<Byte> {
    Layout(0, Chunks(0, records))
  }

  // Another record goes to the end of the log.
  lemma {:induction false} ChunksPush(offset: nat, records: seq<seq<Byte>>, data: seq<Byte>)
    requires offset <= BLOCK
    ensures End(offset, Chunks(offset, records)) <= BLOCK
    ensures Chunks(offset, records + [data]) == Chunks(offset, records) + Split(End(offset, Chunks(offset, records)), true, data)
    decreases |records|
  {
    EndInBlock(offset, Chunks(offset, records));
    if records == [] {
      assert (records + [data])[1..] == [];
      assert Split(offset, true, data) + [] == Split(offset, true, data);
    } else {
      var first := Split(offset, true, records[0]);
      SplitFits(offset, true, records[0]);
      EndInBlock(offset, first);
      var next := End(offset, first);
      ChunksPush(next, records[1..], data);
      assert (records + [data])[1..] == records[1..] + [data] && (records + [data])[0] == records[0];
      FitsAppend(offset, first, Chunks(next, records[1..]));
      Join(first, Chunks(next, records[1..]), Split(End(offset, Chunks(offset, records)), true, data));
    }
  }

  // What a writer has produced is the log of the records given to it.
  lemma AddRecordExtends(records: seq<seq<Byte>>, data: seq<Byte>)
    ensures var o := End(0, Chunks(0, records));
            && o <= BLOCK && Fits(o, Split(o, true, data))
            && LogOf(records + [data]) == LogOf(records) + Layout(o, Split(o, true, data))
            && End(0, Chunks(0, records + [data])) == End(o, Split(o, true, data))
  {
    var o := End(0, Chunks(0, records));
    ChunksPush(0, records, data);
    SplitFits(o, true, data);
    FitsAppend(0, Chunks(0, records), Split(o, true, data));
    LayoutAppend(0, Chunks(0, records), Split(o, true, data));
  }

  ghost function SizeOf(offset: nat, records: seq<seq<Byte>>): nat
    requires offset <= BLOCK
  {
    Size(offset, Chunks(offset, records))
  }

  lemma ChunksCons(offset: nat, record: seq<Byte>, rest: seq<seq<Byte>>) returns (next: nat)
    requires offset <= BLOCK
    ensures Fits(offset, Split(offset, true, record)) && next == End(offset, Split(offset, true, record)) <= BLOCK
    ensures Chunks(offset, [record] + rest) == Split(offset, true, record) + Chunks(next, rest)
    ensures SizeOf(offset, [record] + rest) == Size(offset, Split(offset, true, record)) + SizeOf(next, rest)
  {
    var first := Split(offset, true, record);
    SplitFits(offset, true, record);
    EndInBlock(offset, first);
    next := End(offset, first);
    assert ([record] + rest)[1..] == rest;
    FitsAppend(offset, first, Chunks(next, rest));
    SizeAppend(offset, first, Chunks(next, rest));
  }

  // Reading from the start of the records to come, any part of their log.
  lemma {:induction false} ReadsRecords(s: State, offset: nat, records: seq<seq<Byte>>, sofar: seq<seq<Byte>>) returns (k: nat)
    requires offset <= BLOCK && At(s, offset, Chunks(offset, records))
    ensures k <= |records| && ReadRecords(s, sofar).1 == sofar + records[..k] && ReadRecords(s, sofar).0.drops == s.drops
    ensures SizeOf(offset, records[..k]) <= |s.Remaining()|
    ensures k < |records| ==> |s.Remaining()| < SizeOf(offset, records[..k + 1])
    decreases |records|
  {
    hide At, ReadPhysical, Layout, Size, Fits, End, Split, Chunks, SizeOf;
    NoChunks(offset);
    if records == [] {
      k := 0;
      ReadsChunk(s, offset, []);
      assert sofar + [] == sofar;
    } else {
      var record, rest := records[0], records[1..];
      assert records == [record] + rest;
      var next := ChunksCons(offset, record, rest);
      ReadsRecord(s, offset, true, record, Chunks(next, rest), []);
      assert [] + record == record;
      var r := ReadLogical(s, false, []);
      if r.record.None? {
        k := 0;
        assert records[..1] == [record] + [] && sofar + records[..0] == sofar;
        var _ := ChunksCons(offset, record, []);
      } else {
        var m := ReadsRecords(r.state, next, rest, sofar + [record]);
        k := m + 1;
        Counted(offset, records, m);
        if m < |rest| {
          Counted(offset, records, m + 1);
        }
        assert sofar + [record] + rest[..m] == sofar + records[..k];
      }
    }
  }

  lemma Counted(offset: nat, records: seq<seq<Byte>>, m: nat)
    requires offset <= BLOCK && records != [] && m < |records|
    ensures Fits(offset, Split(offset, true, records[0])) && End(offset, Split(offset, true, records[0])) <= BLOCK
    ensures SizeOf(offset, records[..m + 1])
            == Size(offset, Split(offset, true, records[0])) + SizeOf(End(offset, Split(offset, true, records[0])), records[1..][..m])
  {
    assert records[..m + 1] == [records[0]] + records[1..][..m];
    var _ := ChunksCons(offset, records[0], records[1..][..m]);
  }

  lemma SameSplit(data: seq<Byte>)
    ensures Split(0, true, data) == Split(BLOCK, true, data) != []
  {
  }

  lemma SameChunks(chunks: seq<Chunk>)
    requires Fits(0, chunks) && chunks != []
    ensures Fits(BLOCK, chunks) && End(BLOCK, chunks) == End(0, chunks) && Layout(BLOCK, chunks) == Layout(0, chunks)
  {
    hide Encode, Zeros;
    var n, rest := |chunks[0].payload|, chunks[1..];
    assert Pad(0) == 0 && Pad(BLOCK) == 0;
    var next := After(0, n);
    assert After(BLOCK, n) == next;
    assert Fits(next, rest);
    assert Fits(BLOCK, chunks);
    assert End(BLOCK, chunks) == End(next, rest);
    FirstOfLayout(0, chunks);
    FirstOfLayout(BLOCK, chunks);
  }

  // A log starts the way it would right after a full block.
  lemma SameStart(records: seq<seq<Byte>>)
    ensures Chunks(0, records) == Chunks(BLOCK, records)
    ensures Layout(0, Chunks(0, records)) == Layout(BLOCK, Chunks(BLOCK, records))
  {
    if records != [] {
      SameSplit(records[0]);
      SplitFits(0, true, records[0]);
      SameChunks(Split(0, true, records[0]));
      SameChunks(Chunks(0, records));
    }
  }

  lemma {:induction false} LogGrows(records: seq<seq<Byte>>, m: nat)
    requires m <= |records|
    ensures LogOf(records[..m]) <= LogOf(records)
    decreases |records| - m
  {
    hide Chunks, Layout, Split, Fits, End, LogOf;
    if m == |records| {
      assert records[..m] == records;
    } else {
      LogGrows(records, m + 1);
      AddRecordExtends(records[..m], records[m]);
      assert records[..m] + [records[m]] == records[..m + 1];
    }
  }

  // After a crash the file is some part, from the front, of the log: reading gives the
  // records that are complete in it, all of them, and reports nothing.
  lemma CrashPrefix(file: seq<Byte>, records: seq<seq<Byte>>) returns (k: nat)
    requires file <= LogOf(records)
    ensures k <= |records| && ReadRecords(Opened(file), []).1 == records[..k] && ReadRecords(Opened(file), []).0.drops == 0
    ensures |LogOf(records[..k])| <= |file| && (k < |records| ==> |file| < |LogOf(records[..k + 1])|)
  {
    SameStart(records);
    var s := Opened(file);
    assert s.Remaining() == file;
    k := ReadsRecords(s, BLOCK, records, []);
    SameStart(records[..k]);
    LayoutSize(BLOCK, Chunks(BLOCK, records[..k]));
    if k < |records| {
      SameStart(records[..k + 1]);
      LayoutSize(BLOCK, Chunks(BLOCK, records[..k + 1]));
    }
  }

  // Reading back a whole log gives all its records.
  lemma RoundTrip(records: seq<seq<Byte>>)
    ensures ReadRecords(Opened(LogOf(records)), []).1 == records && ReadRecords(Opened(LogOf(records)), []).0.drops == 0
  {
    var k := CrashPrefix(LogOf(records), records);
    if k < |records| {
      LogGrows(records, k + 1);
    }
    assert records[..|records|] == records;
  }
}
