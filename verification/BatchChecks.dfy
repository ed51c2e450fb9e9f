/**
 Which bytes are a write batch (db/write_batch.cc:42), said of the bytes alone: a header, and
 after it as many operations as it counts, each a tag and its strings, with nothing else.
 Iterating any other bytes gives an error.
 */
module BatchChecks {
  import opened Keys
  import opened Coding
  import opened WriteBatches

  // b is an operation: its tag, and its strings after their lengths.
  ghost predicate IsOp(b: seq<Byte>, op: BatchOp) {
    match op
    case PutOp(key, value) => exists k: seq<Byte>, v: seq<Byte> :: IsPrefixed(k, key) && IsPrefixed(v, value) && b == [TYPE_VALUE] + (k + v)
    case DeleteOp(key) => exists k: seq<Byte> :: IsPrefixed(k, key) && b == [TYPE_DELETION] + k
  }

  // b is operations one after another.
  ghost predicate AreOps(b: seq<Byte>, ops: seq<BatchOp>)
    decreases |ops|
  {
    if ops == [] then b == []
    else exists x, y :: IsOp(x, ops[0]) && AreOps(y, ops[1..]) && b == x + y
  }

  lemma ConsParts<T>(head: T, a: seq<T>, rest: seq<T>)
    ensures var all := [head] + a + rest; all != [] && all[0] == head && all[1..] == a + rest
  {
  }

  lemma SplitHead<T>(p: seq<T>, a: seq<T>, rest: seq<T>)
    requires p != [] && p[1..] == a + rest
    ensures p == [p[0]] + a + rest
  {
    assert p == [p[0]] + p[1..];
  }

  lemma OpFront(input: seq<Byte>) returns (b: seq<Byte>)
    requires input != [] && DecodeOp(input).Decoded?
    ensures IsOp(b, DecodeOp(input).op) && input == b + DecodeOp(input).rest
  {
    hide DecodePrefixed, IsPrefixed;
    var rest := DecodeOp(input).rest;
    var k := PrefixedFront(input[1..]);
    if input[0] == TYPE_VALUE {
      var tail := DecodePrefixed(input[1..]).value.1;
      var v := PrefixedFront(tail);
      b := [TYPE_VALUE] + (k + v);
      Joined(k, v, rest);
      SplitHead(input, k + v, rest);
    } else {
      b := [TYPE_DELETION] + k;
      SplitHead(input, k, rest);
    }
  }

  lemma OpBehind(b: seq<Byte>, op: BatchOp, rest: seq<Byte>)
    requires IsOp(b, op)
    ensures b + rest != [] && DecodeOp(b + rest) == Decoded(op, rest)
  {
    hide DecodePrefixed, IsPrefixed;
    match op
    case PutOp(key, value) =>
      var k: seq<Byte>, v: seq<Byte> :| IsPrefixed(k, key) && IsPrefixed(v, value) && b == [TYPE_VALUE] + (k + v);
      ConsParts(TYPE_VALUE, k + v, rest);
      Joined(k, v, rest);
      PrefixedBehind(k, key, v + rest);
      PrefixedBehind(v, value, rest);
    case DeleteOp(key) =>
      var k: seq<Byte> :| IsPrefixed(k, key) && b == [TYPE_DELETION] + k;
      ConsParts(TYPE_DELETION, k, rest);
      PrefixedBehind(k, key, rest);
  }

  lemma {:induction false} ScanGivesOps(input: seq<Byte>)
    requires ScanOps(input).error == ""
    ensures AreOps(input, ScanOps(input).ops)
    decreases |input|
  {
    hide DecodeOp, IsOp;
    if input != [] {
      NoEmptyMessage(input);
      var x := OpFront(input);
      var rest := DecodeOp(input).rest;
      ScanGivesOps(rest);
      var ops := ScanOps(input).ops;
      assert ops[1..] == ScanOps(rest).ops;
      assert IsOp(x, ops[0]) && AreOps(rest, ops[1..]) && input == x + rest;
    }
  }

  lemma NoEmptyMessage(input: seq<Byte>)
    requires input != []
    ensures DecodeOp(input).Bad? ==> DecodeOp(input).message != ""
  {
    hide DecodePrefixed;
  }

  lemma {:induction false} OpsScan(b: seq<Byte>, ops: seq<BatchOp>)
    requires AreOps(b, ops)
    ensures ScanOps(b) == Scan(ops, "")
    decreases |ops|
  {
    hide DecodeOp, IsOp;
    if ops != [] {
      var x, y :| IsOp(x, ops[0]) && AreOps(y, ops[1..]) && b == x + y;
      OpBehind(x, ops[0], y);
      OpsScan(y, ops[1..]);
      assert [ops[0]] + ops[1..] == ops;
    }
  }

  // Bytes iterate as some operations without an error if and only if those operations are
  // what stands behind the header, to the end, and the header counts them.
  lemma AcceptedIff(rep: seq<Byte>, ops: seq<BatchOp>)
    ensures Iterated(rep) == Scan(ops, "") <==>
      |rep| >= HEADER && AreOps(rep[HEADER..], ops) && Count(rep) == |ops|
  {
    hide ScanOps, AreOps, Count;
    if |rep| >= HEADER {
      var body := rep[HEADER..];
      if ScanOps(body).error == "" {
        ScanGivesOps(body);
      }
      if AreOps(body, ops) {
        OpsScan(body, ops);
      }
    }
  }

  // An unknown tag stops a batch where it stands.
  lemma {:induction false} UnknownTag(ops: seq<BatchOp>, tag: Byte, rest: seq<Byte>)
    requires AllSmall(ops) && tag != TYPE_VALUE && tag != TYPE_DELETION
    ensures ScanOps(EncodeOps(ops) + [tag] + rest) == Scan(ops, "unknown WriteBatch tag")
  {
    if ops == [] {
      assert (EncodeOps(ops) + [tag] + rest)[0] == tag;
    } else {
      hide DecodeOp, EncodeOp;
      var more := EncodeOps(ops[1..]) + [tag] + rest;
      assert EncodeOps(ops) + [tag] + rest == EncodeOp(ops[0]) + more;
      OpRoundTrip(ops[0], more);
      UnknownTag(ops[1..], tag, rest);
      assert [ops[0]] + ops[1..] == ops;
    }
  }
}
