/**
 What a log reader (db/log_reader.cc) hands on, whatever bytes it reads: only what carries
 the checksum stored before it. What it passes over because of damage, it reports.
 */
module LogIntegrity {
  import opened Coding
  import opened Log
  import C = Crc32c

  /* ---- physical records ---- */

  // A chunk is at a place in some bytes, checksum, length, type and payload.
  ghost predicate Found(bytes: seq<Byte>, at: nat, c: Chunk) {
    && |c.payload| < 0x1_0000 && at + HEADER + |c.payload| <= |bytes|
    && bytes[at..at + HEADER + |c.payload|] == Encode(c)
  }

  lemma HeaderIs(b: seq<Byte>, c: Chunk)
    requires |b| >= HEADER && |c.payload| < 0x1_0000
    requires b[4] as nat + 0x100 * b[5] as nat == |c.payload| && b[6] == c.kind
    requires C.Unmask(DecodeFixed32(b)) == C.Value([c.kind] + c.payload)
    ensures b[..HEADER] == Header(c)
  {
    hide C.Value, C.Mask, C.Unmask, DecodeFixed32, EncodeFixed32;
    WordIs(b);
    C.MaskUnmask(DecodeFixed32(b));
    SevenBytes(b);
    TwoBytes(b[4], b[5]);
  }

  lemma WordIs(b: seq<Byte>)
    requires |b| >= 4
    ensures EncodeFixed32(DecodeFixed32(b)) == b[..4]
  {
    Fixed32Bytes(b[..4]);
    hide EncodeFixed32;
    assert DecodeFixed32(b[..4]) == DecodeFixed32(b);
  }

  lemma SevenBytes<T>(b: seq<T>)
    requires |b| >= HEADER
    ensures b[..HEADER] == b[..4] + [b[4], b[5], b[6]]
  {
  }

  lemma TwoBytes(low: Byte, high: Byte)
    ensures var n := low as nat + 0x100 * high as nat; n % 0x100 == low && n / 0x100 % 0x100 == high
  {
  }

  lemma Glue<T>(b: seq<T>, h: nat, n: nat)
    requires h + n <= |b| && h > 0
    ensures b == b[..h] + b[h..h + n] + b[h + n..] && b[h - 1..h + n] == [b[h - 1]] + b[h..h + n]
  {
  }

  // What is parsed is exactly a chunk with its checksum, and what follows it.
  lemma ParsesWhole(s: State)
    requires |s.buffer| >= HEADER && Parse(s).kind != BAD && Parse(s).kind != EOF
    ensures var p := Parse(s);
            && p.kind < 0x100 && |p.payload| < 0x1_0000
            && s.buffer == Encode(Chunk(p.kind, p.payload)) + p.state.buffer && p.state.rest == s.rest
  {
    hide C.Value, C.Unmask, DecodeFixed32, Header;
    var p := Parse(s);
    Glue(s.buffer, HEADER, |p.payload|);
    HeaderIs(s.buffer, Chunk(p.kind, p.payload));
  }

  // A chunk whose type or payload is no longer what its checksum was made of is refused, and
  // what is left of the block is dropped with a report.
  lemma DamageRefused(s: State, c: Chunk, kind: Byte, payload: seq<Byte>, rest: seq<Byte>)
    requires |payload| == |c.payload| < 0x1_0000 && (kind != ZERO || payload != [])
    requires s.buffer == Header(c)[..HEADER - 1] + [kind] + payload + rest
    requires C.Value([kind] + payload) != C.Value([c.kind] + c.payload)
    ensures Parse(s) == Physical(s.(buffer := []).Report(), BAD, [])
  {
    hide C.Value, C.Mask, C.Unmask, DecodeFixed32, EncodeFixed32;
    var h := Header(c);
    assert s.buffer[..4] == h[..4] && s.buffer[4] == h[4] && s.buffer[5] == h[5] && s.buffer[6] == kind;
    ChecksumParses(C.Value([c.kind] + c.payload), s.buffer);
    assert s.buffer[6..HEADER + |payload|] == [kind] + payload;
  }

  // A length that runs past the block is damage, unless the file ends there.
  lemma PastTheBlock(s: State)
    requires |s.buffer| >= HEADER && HEADER + s.buffer[4] as nat + 0x100 * s.buffer[5] as nat > |s.buffer|
    ensures Parse(s).payload == [] && Parse(s).state.Remaining() == s.rest
    ensures if s.eof then Parse(s).kind == EOF && Parse(s).state.drops == s.drops
            else Parse(s).kind == BAD && Parse(s).state.drops == s.drops + 1
  {
  }

  // A block of zeros that was never written to is no record and no damage.
  lemma ZerosSkipped(s: State)
    requires |s.buffer| >= HEADER && s.buffer == Zeros(|s.buffer|)
    ensures Parse(s) == Physical(s.(buffer := []), BAD, [])
  {
    ZerosAre(|s.buffer|);
    hide Zeros;
  }

  lemma {:induction false} ZerosAre(n: nat)
    ensures forall i :: 0 <= i < n ==> Zeros(n)[i] == 0
  {
    if n > 0 {
      ZerosAre(n - 1);
    }
  }

  ghost predicate Suffix(a: seq<Byte>, b: seq<Byte>) {
    |a| <= |b| && b[|b| - |a|..] == a
  }

  lemma SuffixTrans(a: seq<Byte>, b: seq<Byte>, c: seq<Byte>)
    requires Suffix(a, b) && Suffix(b, c)
    ensures Suffix(a, c)
  {
  }

  lemma DropSuffix(a: seq<Byte>, n: nat, b: seq<Byte>)
    requires n <= |a|
    ensures Suffix(a[n..] + b, a + b) && Suffix(b, a + b)
  {
  }

  // A physical record that is handed on is found in the file, and reading goes on behind it.
  lemma {:induction false} PhysicalWhole(s: State) returns (at: nat)
    ensures var p := ReadPhysical(s);
            && Suffix(p.state.Remaining(), s.Remaining())
            && (p.kind != BAD && p.kind != EOF ==>
                  && p.kind < 0x100 && Found(s.Remaining(), at, Chunk(p.kind, p.payload))
                  && at + HEADER + |p.payload| + |p.state.Remaining()| == |s.Remaining()|)
    decreases |s.rest|, if s.eof then 0 else 1
  {
    hide Encode, ChecksumHolds;
    at := 0;
    if |s.buffer| >= HEADER {
      var p := Parse(s);
      ParseSuffix(s);
      if p.kind != BAD && p.kind != EOF {
        ParsesWhole(s);
        Join(Encode(Chunk(p.kind, p.payload)), p.state.buffer, s.rest);
      }
    } else if !s.eof {
      var r := Refill(s);
      at := PhysicalWhole(r);
      RefillSuffix(s);
      SuffixTrans(ReadPhysical(s).state.Remaining(), r.Remaining(), s.Remaining());
      if ReadPhysical(s).kind != BAD && ReadPhysical(s).kind != EOF {
        FoundBehind(s.Remaining(), r.Remaining(), at, Chunk(ReadPhysical(s).kind, ReadPhysical(s).payload));
        at := |s.Remaining()| - |r.Remaining()| + at;
      }
    } else {
      DropSuffix(s.buffer, |s.buffer|, s.rest);
    }
  }

  lemma ParseSuffix(s: State)
    requires |s.buffer| >= HEADER
    ensures Suffix(Parse(s).state.Remaining(), s.Remaining())
  {
    hide ChecksumHolds;
    var n := |s.buffer| - |Parse(s).state.buffer|;
    assert Parse(s).state.buffer == s.buffer[n..];
    DropSuffix(s.buffer, n, s.rest);
  }

  lemma RefillSuffix(s: State)
    ensures Suffix(Refill(s).Remaining(), s.Remaining())
  {
    assert Refill(s).Remaining() == s.rest;
  }

  lemma FoundBehind(file: seq<Byte>, rest: seq<Byte>, at: nat, c: Chunk)
    requires Suffix(rest, file) && Found(rest, at, c)
    ensures Found(file, |file| - |rest| + at, c)
  {
    hide Encode;
    var n := |file| - |rest|;
    assert file[n + at..n + at + HEADER + |c.payload|] == rest[at..at + HEADER + |c.payload|];
  }

  /* ---- records ---- */

  function Payloads(chunks: seq<Chunk>): seq<Byte> {
    if chunks == [] then [] else Payloads(chunks[..|chunks| - 1]) + chunks[|chunks| - 1].payload
  }

  // The chunks are in the file one behind another, all before its end.
  ghost predicate Placed(file: seq<Byte>, chunks: seq<Chunk>, places: seq<nat>, end: nat) {
    && |places| == |chunks|
    && (forall i :: 0 <= i < |chunks| ==> Found(file, places[i], chunks[i]) && places[i] + HEADER + |chunks[i].payload| <= end)
    && forall i, j :: 0 <= i < j < |chunks| ==> places[i] + HEADER + |chunks[i].payload| <= places[j]
  }

  // A first chunk and some in the middle.
  ghost predicate Begun(chunks: seq<Chunk>) {
    chunks != [] && chunks[0].kind == FIRST && forall i :: 1 <= i < |chunks| ==> chunks[i].kind == MIDDLE
  }

  // All the chunks of one record.
  ghost predicate Complete(chunks: seq<Chunk>) {
    if |chunks| == 1 then chunks[0].kind == FULL
    else |chunks| > 1 && Begun(chunks[..|chunks| - 1]) && chunks[|chunks| - 1].kind == LAST
  }

  // A record is in a file, in one piece or several, each with its checksum.
  ghost predicate WholeIn(file: seq<Byte>, record: seq<Byte>) {
    exists chunks, places :: Complete(chunks) && Placed(file, chunks, places, |file|) && record == Payloads(chunks)
  }

  lemma PlacedPush(file: seq<Byte>, chunks: seq<Chunk>, places: seq<nat>, end: nat, c: Chunk, at: nat, end': nat)
    requires Placed(file, chunks, places, end) && Found(file, at, c) && end <= at && at + HEADER + |c.payload| <= end'
    ensures Placed(file, chunks + [c], places + [at], end')
    ensures Payloads(chunks + [c]) == Payloads(chunks) + c.payload
  {
    hide Found;
    assert (chunks + [c])[..|chunks|] == chunks;
  }

  lemma BegunPush(chunks: seq<Chunk>, c: Chunk)
    requires Begun(chunks)
    ensures c.kind == MIDDLE ==> Begun(chunks + [c])
    ensures c.kind == LAST ==> Complete(chunks + [c])
  {
    assert (chunks + [c])[..|chunks|] == chunks;
  }

  // The record in the making is made of chunks that were found.
  ghost predicate InHand(file: seq<Byte>, inFragment: bool, scratch: seq<Byte>, chunks: seq<Chunk>, places: seq<nat>, end: nat) {
    inFragment ==> Begun(chunks) && Placed(file, chunks, places, end) && scratch == Payloads(chunks)
  }

  lemma OneChunk(file: seq<Byte>, c: Chunk, at: nat, end: nat)
    requires Found(file, at, c) && at + HEADER + |c.payload| <= end
    ensures Placed(file, [c], [at], end) && Payloads([c]) == c.payload
    ensures c.kind == FIRST ==> Begun([c])
    ensures c.kind == FULL ==> Complete([c])
  {
    hide Found;
    assert [c][..0] == [];
  }

  // What one physical record does to the record in the making.
  lemma TakesWhole(file: seq<Byte>, s: State, inFragment: bool, scratch: seq<Byte>, chunks: seq<Chunk>, places: seq<nat>)
    returns (chunks': seq<Chunk>, places': seq<nat>)
    requires Suffix(s.Remaining(), file) && InHand(file, inFragment, scratch, chunks, places, |file| - |s.Remaining()|)
    ensures Suffix(ReadPhysical(s).state.Remaining(), file)
    ensures match Take(ReadPhysical(s), inFragment, scratch)
            case Done(r) => r.record.Some? ==>
              Complete(chunks') && Placed(file, chunks', places', |file| - |ReadPhysical(s).state.Remaining()|) && r.record.value == Payloads(chunks')
            case Go(s', inFragment', scratch') =>
              s'.Remaining() == ReadPhysical(s).state.Remaining() && InHand(file, inFragment', scratch', chunks', places', |file| - |s'.Remaining()|)
  {
    hide Found, ReadPhysical, Complete, Begun, Payloads, Placed;
    var p := ReadPhysical(s);
    var at := PhysicalWhole(s);
    SuffixTrans(p.state.Remaining(), s.Remaining(), file);
    chunks', places' := chunks, places;
    if p.kind != BAD && p.kind != EOF {
      var c, place, end := Chunk(p.kind, p.payload), |file| - |s.Remaining()| + at, |file| - |p.state.Remaining()|;
      FoundBehind(file, s.Remaining(), at, c);
      if p.kind == FULL || p.kind == FIRST {
        OneChunk(file, c, place, end);
        chunks', places' := [c], [place];
      } else if inFragment && (p.kind == MIDDLE || p.kind == LAST) {
        PlacedPush(file, chunks, places, |file| - |s.Remaining()|, c, place, end);
        BegunPush(chunks, c);
        chunks', places' := chunks + [c], places + [place];
      }
    }
  }

  lemma {:induction false} ReadsWhole(file: seq<Byte>, s: State, inFragment: bool, scratch: seq<Byte>, chunks: seq<Chunk>, places: seq<nat>)
    requires Suffix(s.Remaining(), file) && InHand(file, inFragment, scratch, chunks, places, |file| - |s.Remaining()|)
    ensures var r := ReadLogical(s, inFragment, scratch);
            Suffix(r.state.Remaining(), file) && (r.record.Some? ==> WholeIn(file, r.record.value))
    decreases |s.buffer| + |s.rest|
  {
    hide ReadPhysical, InHand, Complete, Payloads, Placed, Suffix;
    var chunks', places' := TakesWhole(file, s, inFragment, scratch, chunks, places);
    match Take(ReadPhysical(s), inFragment, scratch)
    case Done(r) =>
      if r.record.Some? {
        EndsBefore(file, chunks', places', r.state);
      }
    case Go(s', inFragment', scratch') =>
      ReadsWhole(file, s', inFragment', scratch', chunks', places');
  }

  // Whatever the bytes, every record read from them is in them, with its checksums.
  lemma RecordsAreWhole(file: seq<Byte>)
    ensures forall r :: r in ReadRecords(Opened(file), []).1 ==> WholeIn(file, r)
  {
    hide ReadRecords, WholeIn;
    assert Opened(file).Remaining() == file;
    RecordsWhole(file, Opened(file), []);
  }

  lemma {:induction false} RecordsWhole(file: seq<Byte>, s: State, records: seq<seq<Byte>>)
    requires Suffix(s.Remaining(), file) && forall r :: r in records ==> WholeIn(file, r)
    ensures forall r :: r in ReadRecords(s, records).1 ==> WholeIn(file, r)
    decreases |s.buffer| + |s.rest|
  {
    hide ReadLogical, WholeIn, Suffix;
    ReadsWhole(file, s, false, [], [], []);
    var next := ReadLogical(s, false, []);
    if next.record.Some? {
      RecordsWhole(file, next.state, records + [next.record.value]);
    }
  }

  /* ---- reports ---- */

  // A chunk out of place: one that starts a record inside another, one that goes on with
  // none, damage inside a record, and a type that is none.
  ghost predicate OutOfPlace(kind: nat, inFragment: bool, scratch: seq<Byte>) {
    || (kind in {FULL as nat, FIRST as nat} && inFragment && scratch != [])
    || (kind in {MIDDLE as nat, LAST as nat} && !inFragment)
    || (kind == BAD && inFragment)
    || kind !in {FULL as nat, FIRST as nat, MIDDLE as nat, LAST as nat, BAD, EOF}
  }

  lemma OutOfPlaceIsReported(s: State, inFragment: bool, scratch: seq<Byte>)
    requires OutOfPlace(ReadPhysical(s).kind, inFragment, scratch)
    ensures ReadLogical(s, inFragment, scratch).state.drops > ReadPhysical(s).state.drops >= s.drops
  {
    hide ReadPhysical;
    PhysicalDrops(s);
    match Take(ReadPhysical(s), inFragment, scratch)
    case Done(r) =>
    case Go(s', inFragment', scratch') => LogicalDrops(s', inFragment', scratch');
  }

  // So is a damaged chunk.
  lemma DamageIsReported(s: State, c: Chunk, kind: Byte, payload: seq<Byte>, rest: seq<Byte>, inFragment: bool, scratch: seq<Byte>)
    requires |payload| == |c.payload| < 0x1_0000 && (kind != ZERO || payload != [])
    requires s.buffer == Header(c)[..HEADER - 1] + [kind] + payload + rest
    requires C.Value([kind] + payload) != C.Value([c.kind] + c.payload)
    ensures ReadLogical(s, inFragment, scratch).state.drops > s.drops
  {
    DamageRefused(s, c, kind, payload, rest);
    hide Parse, Header, C.Value;
    assert ReadPhysical(s) == Parse(s);
    TakeDrops(ReadPhysical(s), inFragment, scratch);
    match Take(ReadPhysical(s), inFragment, scratch)
    case Done(r) =>
    case Go(s', inFragment', scratch') => LogicalDrops(s', inFragment', scratch');
  }

  lemma EndsBefore(file: seq<Byte>, chunks: seq<Chunk>, places: seq<nat>, s: State)
    requires Suffix(s.Remaining(), file) && Placed(file, chunks, places, |file| - |s.Remaining()|)
    ensures Placed(file, chunks, places, |file|)
  {
    hide Found;
  }
}
