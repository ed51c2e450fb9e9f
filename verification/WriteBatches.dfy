/**
 Write batches (db/write_batch.cc): a sequence number, a count, and the operations one
 after another. A batch is what a log record holds.
 */
module WriteBatches {
  import opened Keys
  import opened Coding

  datatype BatchOp = PutOp(key: seq<Byte>, value: seq<Byte>) | DeleteOp(key: seq<Byte>)

  // write_batch.cc:27
  const HEADER := 12

  // The count is an int.
  const TWO31 := 0x8000_0000

  // The lengths of an operation's strings fit in their words.
  predicate Small(op: BatchOp) {
    |op.key| < TWO32 && (op.PutOp? ==> |op.value| < TWO32)
  }

  ghost predicate AllSmall(ops: seq<BatchOp>) {
    forall i :: 0 <= i < |ops| ==> Small(ops[i])
  }

  function EncodeOp(op: BatchOp): (r: seq<Byte>)
    ensures r != []
  {
    match op
    case PutOp(key, value) => [TYPE_VALUE] + (EncodePrefixed(key) + EncodePrefixed(value))
    case DeleteOp(key) => [TYPE_DELETION] + EncodePrefixed(key)
  }

  function EncodeOps(ops: seq<BatchOp>): seq<Byte> {
    if ops == [] then [] else EncodeOp(ops[0]) + EncodeOps(ops[1..])
  }

  function Contents(first: nat, ops: seq<BatchOp>): (r: seq<Byte>)
    requires first < TWO64 && |ops| < TWO32
    ensures |r| >= HEADER
  {
    EncodeFixed64(first) + EncodeFixed32(|ops|) + EncodeOps(ops)
  }

  function Sequence(rep: seq<Byte>): (n: nat)
    requires |rep| >= HEADER
    ensures n < TWO64
  {
    DecodeFixed64(rep)
  }

  // write_batch.cc:82: a word read as an int.
  function Count(rep: seq<Byte>): int
    requires |rep| >= HEADER
  {
    var n := DecodeFixed32(rep[8..]);
    if n < TWO31 then n else n - TWO32
  }

  /* ---- reading ---- */

  datatype Decoded = Decoded(op: BatchOp, rest: seq<Byte>) | Bad(message: string)

  // write_batch.cc:53: one operation, and what follows it.
  function DecodeOp(input: seq<Byte>): (r: Decoded)
    requires input != []
    ensures r.Decoded? ==> |r.rest| < |input|
  {
    var tag, rest := input[0], input[1..];
    if tag == TYPE_VALUE then
      var key := DecodePrefixed(rest);
      if key.None? then Bad("bad WriteBatch Put")
      else
        PrefixedShrinks(rest);
        var value := DecodePrefixed(key.value.1);
        if value.None? then Bad("bad WriteBatch Put")
        else
          PrefixedShrinks(key.value.1);
          Decoded(PutOp(key.value.0, value.value.0), value.value.1)
    else if tag == TYPE_DELETION then
      var key := DecodePrefixed(rest);
      if key.None? then Bad("bad WriteBatch Delete")
      else
        PrefixedShrinks(rest);
        Decoded(DeleteOp(key.value.0), key.value.1)
    else Bad("unknown WriteBatch tag")
  }

  lemma PrefixedShrinks(p: seq<Byte>)
    ensures DecodePrefixed(p).Some? ==> |DecodePrefixed(p).value.1| <= |p|
  {
    hide ReadVarint;
  }

  // The operations handed on before the end or an error, and the error or "".
  datatype Scan = Scan(ops: seq<BatchOp>, error: string)

  function ScanOps(input: seq<Byte>): Scan
    decreases |input|
  {
    if input == [] then Scan([], "")
    else
      match DecodeOp(input)
      case Bad(message) => Scan([], message)
      case Decoded(op, rest) => var more := ScanOps(rest); Scan([op] + more.ops, more.error)
  }

  // write_batch.cc:42
  function Iterated(rep: seq<Byte>): Scan {
    if |rep| < HEADER then Scan([], "malformed WriteBatch (too small)")
    else
      var r := ScanOps(rep[HEADER..]);
      if r.error == "" && |r.ops| != Count(rep) then Scan(r.ops, "WriteBatch has wrong count") else r
  }

  lemma OpRoundTrip(op: BatchOp, rest: seq<Byte>)
    requires Small(op)
    ensures DecodeOp(EncodeOp(op) + rest) == Decoded(op, rest)
  {
    hide EncodePrefixed, DecodePrefixed;
    var key := EncodePrefixed(op.key);
    if op.PutOp? {
      var value := EncodePrefixed(op.value);
      Tagged([TYPE_VALUE], key + value, rest);
      Joined(key, value, rest);
      PrefixedRoundTrip(op.key, value + rest);
      PrefixedRoundTrip(op.value, rest);
    } else {
      Tagged([TYPE_DELETION], key, rest);
      PrefixedRoundTrip(op.key, rest);
    }
  }

  lemma Tagged<T>(tag: seq<T>, body: seq<T>, rest: seq<T>)
    requires |tag| == 1
    ensures var all := tag + body + rest; all[0] == tag[0] && all[1..] == body + rest
  {
  }

  lemma {:induction false} ScanRoundTrip(ops: seq<BatchOp>)
    requires AllSmall(ops)
    ensures ScanOps(EncodeOps(ops)) == Scan(ops, "")
  {
    hide DecodeOp, EncodeOp;
    if ops != [] {
      OpRoundTrip(ops[0], EncodeOps(ops[1..]));
      ScanRoundTrip(ops[1..]);
      assert [ops[0]] + ops[1..] == ops;
    }
  }

  // Where the header's words are.
  lemma HeaderParts(first: nat, ops: seq<BatchOp>)
    requires first < TWO64 && |ops| < TWO32
    ensures var rep := Contents(first, ops);
            && rep[..8] == EncodeFixed64(first) && rep[8..HEADER] == EncodeFixed32(|ops|) && rep[HEADER..] == EncodeOps(ops)
            && rep[8..] == EncodeFixed32(|ops|) + EncodeOps(ops) && rep == EncodeFixed64(first) + rep[8..]
  {
    hide EncodeFixed64, EncodeFixed32, EncodeOps;
  }

  lemma HeaderReads(first: nat, ops: seq<BatchOp>)
    requires first < TWO64 && |ops| < TWO32
    ensures Sequence(Contents(first, ops)) == first
    ensures Count(Contents(first, ops)) == if |ops| < TWO31 then |ops| else |ops| - TWO32
  {
    hide EncodeFixed64, EncodeFixed32, DecodeFixed64, DecodeFixed32, EncodeOps, Contents;
    HeaderParts(first, ops);
    Fixed64RoundTrip(first, Contents(first, ops)[8..]);
    Fixed32RoundTrip(|ops|, EncodeOps(ops));
  }

  // A batch reads back as what was put in, exactly when its count is an int.
  lemma RoundTrip(first: nat, ops: seq<BatchOp>)
    requires first < TWO64 && |ops| < TWO32 && AllSmall(ops)
    ensures Iterated(Contents(first, ops)).ops == ops
    ensures Iterated(Contents(first, ops)).error == "" <==> |ops| < TWO31
  {
    hide Contents, Count, EncodeOps, ScanOps;
    HeaderParts(first, ops);
    HeaderReads(first, ops);
    ScanRoundTrip(ops);
  }

  /* ---- cut batches ---- */

  lemma {:induction false} VarintCut(v: nat, n: nat, bytes: nat)
    requires n < |EncodeVarint(v)|
    ensures ReadVarint(EncodeVarint(v)[..n], bytes).None?
  {
    if n > 0 && bytes > 0 && v >= 128 {
      VarintCut(v / 128, n - 1, bytes - 1);
      assert EncodeVarint(v)[..n][1..] == EncodeVarint(v / 128)[..n - 1];
    }
  }

  lemma PrefixedCut(s: seq<Byte>, n: nat)
    requires |s| < TWO32 && n < |EncodePrefixed(s)|
    ensures DecodePrefixed(EncodePrefixed(s)[..n]).None?
  {
    hide EncodeVarint, ReadVarint;
    var head := EncodeVarint(|s|);
    if n < |head| {
      VarintCut(|s|, n, 5);
      assert EncodePrefixed(s)[..n] == head[..n];
    } else {
      assert EncodePrefixed(s)[..n] == head + s[..n - |head|];
      Varint32RoundTrip(|s|, s[..n - |head|]);
    }
  }

  lemma OpCut(op: BatchOp, n: nat)
    requires Small(op) && 0 < n < |EncodeOp(op)|
    ensures DecodeOp(EncodeOp(op)[..n]).Bad? && DecodeOp(EncodeOp(op)[..n]).message != ""
  {
    hide EncodePrefixed, DecodePrefixed;
    var cut, key := EncodeOp(op)[..n], EncodePrefixed(op.key);
    if n - 1 < |key| {
      assert cut[1..] == key[..n - 1];
      PrefixedCut(op.key, n - 1);
    } else {
      var value := EncodePrefixed(op.value)[..n - 1 - |key|];
      assert cut[1..] == key + value;
      PrefixedRoundTrip(op.key, value);
      PrefixedCut(op.value, n - 1 - |key|);
    }
  }

  lemma {:induction false} ScanCut(ops: seq<BatchOp>, n: nat)
    requires AllSmall(ops) && n < |EncodeOps(ops)|
    ensures var r := ScanOps(EncodeOps(ops)[..n]); r.ops <= ops && (r.error == "" ==> |r.ops| < |ops|)
  {
    hide DecodeOp, EncodeOp, Small;
    var head := EncodeOp(ops[0]);
    if n == 0 {
      assert EncodeOps(ops)[..n] == [];
    } else if n < |head| {
      OpCut(ops[0], n);
      assert EncodeOps(ops)[..n] == head[..n];
    } else {
      var more := EncodeOps(ops[1..])[..n - |head|];
      CutBehind(head, EncodeOps(ops[1..]), n);
      OpRoundTrip(ops[0], more);
      ScanCut(ops[1..], n - |head|);
      assert [ops[0]] + ops[1..] == ops;
    }
  }

  lemma CutBehind<T>(a: seq<T>, b: seq<T>, n: nat)
    requires |a| <= n <= |a + b|
    ensures (a + b)[..n] == a + b[..n - |a|]
  {
  }

  // A batch cut short anywhere is refused; what was handed on before is its front part.
  lemma CutRefused(first: nat, ops: seq<BatchOp>, n: nat)
    requires first < TWO64 && |ops| < TWO31 && AllSmall(ops) && n < |Contents(first, ops)|
    ensures Iterated(Contents(first, ops)[..n]).error != "" && Iterated(Contents(first, ops)[..n]).ops <= ops
  {
    hide Contents, EncodeOps, ScanOps, DecodeFixed32, EncodeFixed32, EncodeFixed64, AllSmall;
    var rep := Contents(first, ops);
    if n >= HEADER {
      HeaderParts(first, ops);
      HeaderReads(first, ops);
      ScanCut(ops, n - HEADER);
      CutParts(rep, n);
      SameWord(rep[..n][8..], rep[8..]);
    }
  }

  lemma CutParts<T>(rep: seq<T>, n: nat)
    requires HEADER <= n <= |rep|
    ensures rep[..n][HEADER..] == rep[HEADER..][..n - HEADER] && rep[..n][8..] <= rep[8..]
  {
  }

  lemma SameWord(a: seq<Byte>, b: seq<Byte>)
    requires |a| >= 4 && a <= b
    ensures DecodeFixed32(a) == DecodeFixed32(b)
  {
  }

  /* ---- building ---- */

  lemma {:induction false} EncodeAppend(a: seq<BatchOp>, b: seq<BatchOp>)
    ensures EncodeOps(a + b) == EncodeOps(a) + EncodeOps(b)
  {
    hide EncodeOp;
    if a == [] {
      assert a + b == b;
    } else {
      EncodeAppend(a[1..], b);
      assert (a + b)[1..] == a[1..] + b;
      Joined(EncodeOp(a[0]), EncodeOps(a[1..]), EncodeOps(b));
    }
  }

  lemma EncodeOne(op: BatchOp)
    ensures EncodeOps([op]) == EncodeOp(op)
  {
    assert EncodeOps([op]) == EncodeOp(op) + EncodeOps([]);
  }

  // More operations after those there are, and their number in the count.
  lemma ContentsAppend(first: nat, a: seq<BatchOp>, b: seq<BatchOp>)
    requires first < TWO64 && |a| + |b| < TWO32
    ensures var rep := Contents(first, a);
            rep[..8] + EncodeFixed32(|a| + |b|) + rep[HEADER..] + EncodeOps(b) == Contents(first, a + b)
  {
    hide EncodeFixed64, EncodeFixed32, EncodeOps;
    assert Contents(first, a + b) == EncodeFixed64(first) + EncodeFixed32(|a| + |b|) + EncodeOps(a + b);
    hide Contents;
    HeaderParts(first, a);
    EncodeAppend(a, b);
    Joined(EncodeFixed64(first) + EncodeFixed32(|a| + |b|), EncodeOps(a), EncodeOps(b));
  }

  lemma Joined<T>(a: seq<T>, b: seq<T>, c: seq<T>)
    ensures a + b + c == a + (b + c)
  {
  }

  class WriteBatch {
    var rep: seq<Byte>
    ghost var first: nat
    ghost var ops: seq<BatchOp>

    ghost predicate Valid()
      reads this
    {
      first < TWO64 && |ops| < TWO31 && AllSmall(ops) && rep == Contents(first, ops)
    }

    constructor ()
      ensures Valid() && first == 0 && ops == []
    {
      rep, first, ops := seq(HEADER, _ => 0), 0, [];
      new;
      assert rep == EncodeFixed64(0) + EncodeFixed32(0) + [];
    }

    // write_batch.cc:139: whatever a log record holds.
    constructor SetContents(contents: seq<Byte>)
      ensures rep == contents
    {
      rep := contents;
    }

    // write_batch.cc:35
    method Clear()
      modifies this
      ensures Valid() && first == 0 && ops == []
    {
      rep, first, ops := seq(HEADER, _ => 0), 0, [];
      assert rep == EncodeFixed64(0) + EncodeFixed32(0) + [];
    }

    // write_batch.cc:86
    method SetCount(n: nat)
      requires |rep| >= HEADER && n < TWO32
      modifies `rep
      ensures rep == old(rep)[..8] + EncodeFixed32(n) + old(rep)[HEADER..]
    {
      rep := rep[..8] + EncodeFixed32(n) + rep[HEADER..];
    }

    // write_batch.cc:98
    method Put(key: seq<Byte>, value: seq<Byte>)
      requires Valid() && |ops| + 1 < TWO31 && |key| < TWO32 && |value| < TWO32
      modifies this
      ensures Valid() && first == old(first) && ops == old(ops) + [PutOp(key, value)]
    {
      hide Contents, EncodeFixed32, EncodePrefixed;
      HeaderReads(first, ops);
      ContentsAppend(first, ops, [PutOp(key, value)]);
      EncodeOne(PutOp(key, value));
      SetCount(Count(rep) + 1);
      ghost var before := rep;
      rep := rep + [TYPE_VALUE];
      rep := rep + EncodePrefixed(key);
      rep := rep + EncodePrefixed(value);
      assert rep == before + EncodeOp(PutOp(key, value));
      ops := ops + [PutOp(key, value)];
    }

    // write_batch.cc:105
    method Delete(key: seq<Byte>)
      requires Valid() && |ops| + 1 < TWO31 && |key| < TWO32
      modifies this
      ensures Valid() && first == old(first) && ops == old(ops) + [DeleteOp(key)]
    {
      hide Contents, EncodeFixed32, EncodePrefixed;
      HeaderReads(first, ops);
      ContentsAppend(first, ops, [DeleteOp(key)]);
      EncodeOne(DeleteOp(key));
      SetCount(Count(rep) + 1);
      ghost var before := rep;
      rep := rep + [TYPE_DELETION];
      rep := rep + EncodePrefixed(key);
      assert rep == before + EncodeOp(DeleteOp(key));
      ops := ops + [DeleteOp(key)];
    }

    // write_batch.cc:144
    method Append(source: WriteBatch)
      requires Valid() && source.Valid() && |ops| + |source.ops| < TWO31
      modifies this
      ensures Valid() && first == old(first) && ops == old(ops + source.ops)
    {
      hide Contents, EncodeFixed32, EncodeOps;
      HeaderReads(first, ops);
      HeaderReads(source.first, source.ops);
      HeaderParts(source.first, source.ops);
      ContentsAppend(first, ops, source.ops);
      SetCount(Count(rep) + Count(source.rep));
      assert source.rep[HEADER..] == EncodeOps(source.ops);
      rep := rep + source.rep[HEADER..];
      ops := ops + source.ops;
    }

    // write_batch.cc:94
    method SetSequence(n: nat)
      requires Valid() && n < TWO64
      modifies this
      ensures Valid() && first == n && ops == old(ops)
    {
      HeaderParts(first, ops);
      HeaderParts(n, ops);
      hide Contents, EncodeFixed64, EncodeFixed32, EncodeOps;
      rep := EncodeFixed64(n) + rep[8..];
      first := n;
    }

    // write_batch.cc:42: the operations handed on, and the message.
    method Iterate() returns (handed: seq<BatchOp>, error: string)
      ensures Scan(handed, error) == Iterated(rep)
    {
      handed := [];
      if |rep| < HEADER {
        return handed, "malformed WriteBatch (too small)";
      }
      var input := rep[HEADER..];
      while input != []
        invariant ScanOps(rep[HEADER..]) == Scan(handed + ScanOps(input).ops, ScanOps(input).error)
        decreases |input|
      {
        match DecodeOp(input)
        case Bad(message) =>
          return handed, message;
        case Decoded(op, rest) =>
          AppendCons(handed, op, ScanOps(rest).ops);
          handed, input := handed + [op], rest;
      }
      AppendNothing(handed);
      error := if |handed| != Count(rep) then "WriteBatch has wrong count" else "";
    }
  }
}
