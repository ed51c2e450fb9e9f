/**
 Compaction and meaning: which reads the two drop rules of the merge loop leave alone.
 */
module Preservation {
  import opened Keys
  import opened FlatMap
  import opened Tables
  import opened CompactionWork

  ghost function Members(es: seq<Entry>): set<Entry> {
    set e | e in es
  }

  // The store's entries once the inputs are replaced by what the merge loop kept.
  ghost function Compacted(S: set<Entry>, v: Version, level: nat, input: seq<Entry>, snapshot: nat): set<Entry> {
    S - Members(input) + Members(Kept(v, level, input, |input|, snapshot))
  }

  // A deletion marker that the oldest snapshot sees is dropped as obsolete while an older
  // value for its key sits in a file outside the inputs.
  ghost predicate Resurrects(S: set<Entry>, v: Version, level: nat, input: seq<Entry>, snapshot: nat) {
    exists m :: m in input && m.kind.Deletion? && IsNewest(S, m.key, snapshot, m)
                && BaseLevel(v, level, m.key)
                && Get(S - Members(input), m.key, snapshot).Some?
  }

  ghost predicate SameReads(S: set<Entry>, S': set<Entry>, snapshot: nat) {
    forall k, s :: snapshot <= s ==> Get(S', k, s) == Get(S, k, s)
  }

  ghost predicate MergeInput(S: set<Entry>, input: seq<Entry>) {
    UniqueSeq(S) && Sorted(input) && Members(input) <= S
  }

  lemma CompactedSubset(S: set<Entry>, v: Version, level: nat, input: seq<Entry>, snapshot: nat)
    requires MergeInput(S, input)
    ensures Compacted(S, v, level, input, snapshot) <= S
  {
    KeptSorted(v, level, input, |input|, snapshot);
    assert input[..|input|] == input;
  }

  // Older input entries of a key are hidden once one of its entries is at the snapshot.
  lemma OlderInputsGone(S: set<Entry>, v: Version, level: nat, input: seq<Entry>, snapshot: nat, n: Entry, y: Entry)
    requires MergeInput(S, input) && n in input && y in input
    requires n.key == y.key && y.sn < n.sn <= snapshot
    ensures y !in Compacted(S, v, level, input, snapshot)
  {
    var i :| 0 <= i < |input| && input[i] == n;
    var j :| 0 <= j < |input| && input[j] == y;
    assert i == j - 1 || Before(input[i], input[j - 1]);
    assert Before(input[j - 1], input[j]);
    KeptMember(v, level, input, |input|, snapshot, j);
  }

  lemma DroppedAtSnapshot(S: set<Entry>, v: Version, level: nat, input: seq<Entry>, snapshot: nat, s: nat, n: Entry)
    requires MergeInput(S, input) && snapshot <= s
    requires IsNewest(S, n.key, s, n) && n !in Compacted(S, v, level, input, snapshot)
    ensures n in input && Obsolete(v, level, n, snapshot) && IsNewest(S, n.key, snapshot, n)
  {
    var i :| 0 <= i < |input| && input[i] == n;
    KeptMember(v, level, input, |input|, snapshot, i);
    assert i > 0 ==> Before(input[i - 1], input[i]) && input[i - 1] in Members(input);
  }

  lemma ReadPreserved(S: set<Entry>, v: Version, level: nat, input: seq<Entry>, snapshot: nat, k: UserKey, s: nat)
    requires MergeInput(S, input) && snapshot <= s
    requires !Resurrects(S, v, level, input, snapshot)
    ensures Get(Compacted(S, v, level, input, snapshot), k, s) == Get(S, k, s)
  {
    var S' := Compacted(S, v, level, input, snapshot);
    CompactedSubset(S, v, level, input, snapshot);
    var r, r' := Lookup(S, k, s), Lookup(S', k, s);
    if r.Some? {
      var n := r.value;
      if n in S' {
        LookupIs(S', k, s, n);
      } else {
        DroppedAtSnapshot(S, v, level, input, snapshot, s, n);
        assert Get(S - Members(input), k, snapshot).None?;
        if r'.Some? {
          var y := r'.value;
          if y in input {
            OlderInputsGone(S, v, level, input, snapshot, n, y);
          }
          assert IsNewest(S - Members(input), k, snapshot, y);
          LookupIs(S - Members(input), k, snapshot, y);
        }
      }
    }
  }

  lemma ReadResurrected(S: set<Entry>, v: Version, level: nat, input: seq<Entry>, snapshot: nat) returns (k: UserKey)
    requires MergeInput(S, input) && Resurrects(S, v, level, input, snapshot)
    ensures Get(S, k, snapshot) == None && Get(Compacted(S, v, level, input, snapshot), k, snapshot).Some?
  {
    var S' := Compacted(S, v, level, input, snapshot);
    CompactedSubset(S, v, level, input, snapshot);
    var m :| m in input && m.kind.Deletion? && IsNewest(S, m.key, snapshot, m)
             && BaseLevel(v, level, m.key) && Get(S - Members(input), m.key, snapshot).Some?;
    k := m.key;
    LookupIs(S, k, snapshot, m);
    var i :| 0 <= i < |input| && input[i] == m;
    KeptMember(v, level, input, |input|, snapshot, i);
    var x := Lookup(S - Members(input), k, snapshot).value;
    forall y | y in S' && Matches(y, k, snapshot)
      ensures y.sn <= x.sn
    {
      if y in input && y != m {
        OlderInputsGone(S, v, level, input, snapshot, m, y);
      }
    }
    LookupIs(S', k, snapshot, x);
  }

  // Every read at or above the oldest snapshot survives a compaction exactly when no
  // deletion marker is dropped over an older value outside the inputs.
  lemma CompactionPreservesReadsIff(S: set<Entry>, v: Version, level: nat, input: seq<Entry>, snapshot: nat)
    requires MergeInput(S, input)
    ensures SameReads(S, Compacted(S, v, level, input, snapshot), snapshot) <==> !Resurrects(S, v, level, input, snapshot)
  {
    if Resurrects(S, v, level, input, snapshot) {
      var k := ReadResurrected(S, v, level, input, snapshot);
    } else {
      forall k, s | snapshot <= s
        ensures Get(Compacted(S, v, level, input, snapshot), k, s) == Get(S, k, s)
      {
        ReadPreserved(S, v, level, input, snapshot, k, s);
      }
    }
  }
}
