/**
 Where a compaction ends one output file and begins the next (db/db_impl.cc:918 and
 db/db_impl.cc:990): when the file is big enough, or when going on would make it overlap too
 many bytes two levels down.
 */
module OutputCutting {
  import opened Keys
  import opened Tables
  import opened Selection

  // sizeOf is the table builder's estimate of a file's size.
  datatype Rule = Rule(grandparents: seq<File>, maxFileSize: nat, sizeOf: seq<Entry> -> nat)

  // How many files end before a key.
  function EndingBefore(files: seq<File>, key: InternalKey): (n: nat)
    ensures n <= |files|
    ensures forall i :: 0 <= i < n ==> Less(Largest(files[i]), key)
    ensures n < |files| ==> !Less(Largest(files[n]), key)
  {
    if files == [] || !Less(Largest(files[0]), key) then 0 else 1 + EndingBefore(files[1..], key)
  }

  lemma EndingIs(files: seq<File>, key: InternalKey, n: nat)
    requires n <= |files| && (forall i :: 0 <= i < n ==> Less(Largest(files[i]), key))
    requires n < |files| ==> !Less(Largest(files[n]), key)
    ensures n == EndingBefore(files, key)
  {
  }

  // The bytes of the files that end between two keys.
  function BytesBetween(files: seq<File>, lo: InternalKey, hi: InternalKey): nat {
    var a, b := EndingBefore(files, lo), EndingBefore(files, hi);
    if a <= b then TotalFileSize(files[a..b]) else 0
  }

  // An output that holds both entries would overlap too much.
  ghost predicate TooMuch(r: Rule, input: seq<Entry>, s: nat, u: nat)
    requires s < |input| && u < |input|
  {
    BytesBetween(r.grandparents, input[s].Ik(), input[u].Ik()) > MaxGrandParentOverlapBytes(r.maxFileSize)
  }

  function Since(stops: seq<nat>, k: nat): nat
    requires k <= |stops|
  {
    if k == 0 then 0 else stops[k - 1]
  }

  ghost predicate IsStop(r: Rule, input: seq<Entry>, stops: seq<nat>, n: nat, k: nat)
    requires k < |stops| && n <= |input|
  {
    Since(stops, k) < stops[k] < n && TooMuch(r, input, Since(stops, k), stops[k])
  }

  // Entry u comes after k stops, and does not make another.
  ghost predicate GoesOn(r: Rule, input: seq<Entry>, stops: seq<nat>, n: nat, k: nat, u: nat)
    requires k <= |stops| && n <= |input|
  {
    Since(stops, k) <= u < (if k < |stops| then stops[k] else n) && u < n ==> !TooMuch(r, input, Since(stops, k), u)
  }

  // The places among the first n entries where output stops: each is the first that is too
  // much since the one before.
  ghost predicate StopsAre(r: Rule, input: seq<Entry>, stops: seq<nat>, n: nat)
    requires n <= |input|
  {
    && (forall k :: 0 <= k < |stops| ==> IsStop(r, input, stops, n, k))
    && forall k, u :: 0 <= k <= |stops| && 0 <= u ==> GoesOn(r, input, stops, n, k, u)
  }

  // There is one such list of places.
  lemma {:induction false} StopsUnique(r: Rule, input: seq<Entry>, a: seq<nat>, b: seq<nat>, n: nat)
    requires n <= |input| && StopsAre(r, input, a, n) && StopsAre(r, input, b, n)
    ensures a == b
  {
    hide StopsAre;
    SamePrefix(r, input, a, b, n, |a|);
    SamePrefix(r, input, b, a, n, |b|);
    assert a[..|a|] == a && b[..|b|] == b;
  }

  lemma {:induction false} SamePrefix(r: Rule, input: seq<Entry>, a: seq<nat>, b: seq<nat>, n: nat, k: nat)
    requires n <= |input| && StopsAre(r, input, a, n) && StopsAre(r, input, b, n) && k <= |a|
    ensures k <= |b| && a[..k] == b[..k]
  {
    hide TooMuch;
    if k > 0 {
      SamePrefix(r, input, a, b, n, k - 1);
      assert a[..k - 1] == b[..k - 1] && Since(a, k - 1) == Since(b, k - 1);
      assert IsStop(r, input, a, n, k - 1) && GoesOn(r, input, b, n, k - 1, a[k - 1]);
      if k <= |b| {
        assert IsStop(r, input, b, n, k - 1) && GoesOn(r, input, a, n, k - 1, b[k - 1]);
      }
    }
  }

  /* ---- the files ---- */

  // No file goes on after it is big enough.
  ghost predicate StaysSmall(r: Rule, es: seq<Entry>) {
    forall p :: 0 < p < |es| ==> r.sizeOf(es[..p]) < r.maxFileSize
  }

  // A stop does not lie inside.
  ghost predicate AvoidsStop(input: seq<Entry>, es: seq<Entry>, t: nat)
    requires t < |input|
  {
    es != [] ==> Before(es[|es| - 1], input[t]) || !Before(es[0], input[t])
  }

  // A stop lies between the end of one and the start of the next.
  ghost predicate Divided(input: seq<Entry>, es: seq<Entry>, next: seq<Entry>, t: nat)
    requires t < |input| && es != []
  {
    Before(es[|es| - 1], input[t]) && (next != [] ==> !Before(next[0], input[t]))
  }

  ghost predicate InRange(input: seq<Entry>, stops: seq<nat>) {
    forall k :: 0 <= k < |stops| ==> stops[k] < |input|
  }

  // Why a file ends where the next begins.
  ghost predicate EndsFor(r: Rule, input: seq<Entry>, stops: seq<nat>, es: seq<Entry>, next: seq<Entry>)
    requires es != [] && InRange(input, stops)
  {
    r.sizeOf(es) >= r.maxFileSize || exists k :: 0 <= k < |stops| && Divided(input, es, next, stops[k])
  }

  ghost predicate FileCut(r: Rule, input: seq<Entry>, stops: seq<nat>, f: File)
    requires InRange(input, stops)
  {
    && f.size == r.sizeOf(f.entries) && StaysSmall(r, f.entries)
    && forall k :: 0 <= k < |stops| ==> AvoidsStop(input, f.entries, stops[k])
  }

  ghost predicate FilesCut(r: Rule, input: seq<Entry>, stops: seq<nat>, files: seq<File>)
    requires InRange(input, stops)
  {
    && (forall i :: 0 <= i < |files| ==> FileCut(r, input, stops, files[i]))
    && forall i, j :: 0 <= i && j == i + 1 < |files| ==> EndsFor(r, input, stops, files[i].entries, files[j].entries)
  }

  // The files of a compaction of some input are cut where they must be and nowhere else.
  ghost predicate CutAsDue(r: Rule, input: seq<Entry>, files: seq<File>) {
    exists stops :: StopsAre(r, input, stops, |input|) && InRange(input, stops) && FilesCut(r, input, stops, files)
  }

  /* ---- while the files are being written ---- */

  // The entries of the file that is open.
  ghost predicate OpenCut(r: Rule, input: seq<Entry>, stops: seq<nat>, builder: seq<Entry>)
    requires InRange(input, stops)
  {
    && (forall p :: 0 < p <= |builder| ==> r.sizeOf(builder[..p]) < r.maxFileSize)
    && (builder != [] ==> forall k :: 0 <= k < |stops| ==> !Before(builder[0], input[stops[k]]))
  }

  ghost predicate Writing(r: Rule, input: seq<Entry>, stops: seq<nat>, files: seq<File>, builder: seq<Entry>)
    requires InRange(input, stops)
  {
    && FilesCut(r, input, stops, files) && OpenCut(r, input, stops, builder)
    && (files != [] ==> EndsFor(r, input, stops, files[|files| - 1].entries, builder))
  }

  // Everything written comes before entry i.
  ghost predicate Behind(input: seq<Entry>, i: nat, files: seq<File>, builder: seq<Entry>)
    requires i < |input|
  {
    && (forall f :: f in files ==> Before(f.entries[|f.entries| - 1], input[i]))
    && (builder != [] ==> Before(builder[|builder| - 1], input[i]))
  }

  lemma NothingStops(r: Rule, input: seq<Entry>)
    ensures StopsAre(r, input, [], 0) && InRange(input, []) && Writing(r, input, [], [], [])
  {
  }

  // An entry that does not stop the output.
  lemma NoStopHere(r: Rule, input: seq<Entry>, stops: seq<nat>, i: nat)
    requires i < |input| && StopsAre(r, input, stops, i)
    requires Since(stops, |stops|) <= i && !TooMuch(r, input, Since(stops, |stops|), i)
    ensures StopsAre(r, input, stops, i + 1)
  {
    hide TooMuch;
    var n := i + 1;
    forall k | 0 <= k < |stops|
      ensures IsStop(r, input, stops, n, k)
    {
      assert IsStop(r, input, stops, i, k);
    }
    forall k, u | 0 <= k <= |stops| && 0 <= u
      ensures GoesOn(r, input, stops, n, k, u)
    {
      assert GoesOn(r, input, stops, i, k, u);
      if k < |stops| {
        assert IsStop(r, input, stops, i, k);
      }
    }
  }

  lemma StopHere(r: Rule, input: seq<Entry>, stops: seq<nat>, i: nat)
    requires i < |input| && StopsAre(r, input, stops, i) && Since(stops, |stops|) < i
    requires TooMuch(r, input, Since(stops, |stops|), i) && !TooMuch(r, input, i, i)
    ensures StopsAre(r, input, stops + [i], i + 1)
  {
    hide TooMuch;
    var more, n := stops + [i], i + 1;
    forall k | 0 <= k < |more|
      ensures IsStop(r, input, more, n, k)
    {
      if k < |stops| {
        assert IsStop(r, input, stops, i, k);
      } else if k > 0 {
        assert IsStop(r, input, stops, i, k - 1);
      }
    }
    forall k, u | 0 <= k <= |more| && 0 <= u
      ensures GoesOn(r, input, more, n, k, u)
    {
      if k <= |stops| {
        assert GoesOn(r, input, stops, i, k, u);
        if k < |stops| {
          assert IsStop(r, input, stops, i, k);
        }
      }
    }
  }

  lemma NothingBetween(r: Rule, input: seq<Entry>, i: nat)
    requires i < |input|
    ensures !TooMuch(r, input, i, i)
  {
    var n := EndingBefore(r.grandparents, input[i].Ik());
    assert r.grandparents[n..n] == [];
  }

  // A stop at entry i leaves what is written cut as it must be, once the open file is closed.
  lemma StopCloses(r: Rule, input: seq<Entry>, stops: seq<nat>, i: nat, files: seq<File>, builder: seq<Entry>, f: File)
    requires i < |input| && InRange(input, stops) && Writing(r, input, stops, files, builder) && Behind(input, i, files, builder)
    requires builder != [] ==> f.entries == builder && f.size == r.sizeOf(builder)
    ensures InRange(input, stops + [i])
    ensures Writing(r, input, stops + [i], if builder == [] then files else files + [f], [])
  {
    hide StopsAre;
    var more := stops + [i];
    var all := if builder == [] then files else files + [f];
    forall g: File | g in all
      ensures FileCut(r, input, more, g)
    {
      if g in files {
        var m :| 0 <= m < |files| && files[m] == g;
        assert FileCut(r, input, stops, files[m]);
      }
    }
    forall m, n | 0 <= m && n == m + 1 < |all|
      ensures EndsFor(r, input, more, all[m].entries, all[n].entries)
    {
      MoreStops(r, input, stops, i, all[m].entries, all[n].entries);
    }
    if all != [] {
      assert Divided(input, all[|all| - 1].entries, [], more[|stops|]);
    }
  }

  lemma MoreStops(r: Rule, input: seq<Entry>, stops: seq<nat>, i: nat, es: seq<Entry>, next: seq<Entry>)
    requires i < |input| && es != [] && InRange(input, stops) && EndsFor(r, input, stops, es, next)
    ensures InRange(input, stops + [i]) && EndsFor(r, input, stops + [i], es, next)
  {
    var more := stops + [i];
    if r.sizeOf(es) < r.maxFileSize {
      var k :| 0 <= k < |stops| && Divided(input, es, next, stops[k]);
      assert Divided(input, es, next, more[k]);
    }
  }

  // An entry behind all stops goes on in the open file.
  lemma EntryAdded(r: Rule, input: seq<Entry>, stops: seq<nat>, files: seq<File>, builder: seq<Entry>, e: Entry)
    requires InRange(input, stops) && Writing(r, input, stops, files, builder)
    requires forall k :: 0 <= k < |stops| ==> !Before(e, input[stops[k]])
    ensures var more := builder + [e];
            if r.sizeOf(more) < r.maxFileSize then Writing(r, input, stops, files, more)
            else FilesCut(r, input, stops, files) && StaysSmall(r, more) && (files != [] ==> EndsFor(r, input, stops, files[|files| - 1].entries, more))
                 && forall k :: 0 <= k < |stops| ==> AvoidsStop(input, more, stops[k])
  {
    hide FilesCut;
    var more := builder + [e];
    forall p | 0 < p <= |builder|
      ensures r.sizeOf(more[..p]) < r.maxFileSize
    {
      assert more[..p] == builder[..p];
    }
    assert more[..|more|] == more;
    if files != [] {
      var es := files[|files| - 1].entries;
      if r.sizeOf(es) < r.maxFileSize {
        var k :| 0 <= k < |stops| && Divided(input, es, builder, stops[k]);
        assert Divided(input, es, more, stops[k]);
      }
    }
  }

  // Closing a file that is big enough.
  lemma FullCloses(r: Rule, input: seq<Entry>, stops: seq<nat>, files: seq<File>, f: File)
    requires InRange(input, stops) && FilesCut(r, input, stops, files) && StaysSmall(r, f.entries)
    requires files != [] ==> EndsFor(r, input, stops, files[|files| - 1].entries, f.entries)
    requires forall k :: 0 <= k < |stops| ==> AvoidsStop(input, f.entries, stops[k])
    requires f.size == r.sizeOf(f.entries)
    ensures FilesCut(r, input, stops, files + [f])
    ensures f.size >= r.maxFileSize ==> Writing(r, input, stops, files + [f], [])
  {
    hide StaysSmall, AvoidsStop, EndsFor;
    var all := files + [f];
    forall m, n | 0 <= m && n == m + 1 < |all|
      ensures EndsFor(r, input, stops, all[m].entries, all[n].entries)
    {
    }
    if f.size >= r.maxFileSize {
      BigEnough(r, input, stops, f.entries);
    }
  }

  lemma BigEnough(r: Rule, input: seq<Entry>, stops: seq<nat>, es: seq<Entry>)
    requires es != [] && InRange(input, stops) && r.sizeOf(es) >= r.maxFileSize
    ensures EndsFor(r, input, stops, es, [])
  {
  }

  // What is open at the end becomes the last file.
  lemma LastCloses(r: Rule, input: seq<Entry>, stops: seq<nat>, files: seq<File>, builder: seq<Entry>, f: File)
    requires InRange(input, stops) && Writing(r, input, stops, files, builder)
    requires builder != [] ==> f.entries == builder && f.size == r.sizeOf(builder)
    ensures FilesCut(r, input, stops, if builder == [] then files else files + [f])
  {
    if builder != [] {
      FullCloses(r, input, stops, files, f);
    }
  }
}
