/**
 The database iterator (db/db_iter.cc): a bidirectional cursor over the live (key, value)
 pairs of the flat map at a sequence number, built on a merging iterator that also shows
 deleted, overwritten and too-new entries.
 */
module DbIter {
  import opened Keys
  import opened FlatMap
  import opened Merging
  import opened Preservation

  /* ---- positions that show ---- */

  predicate Visible(es: seq<Entry>, s: nat, i: nat)
    requires i < |es|
  {
    es[i].sn <= s
  }

  // The newest visible entry of its key, and not a deletion.
  ghost predicate IsLive(es: seq<Entry>, s: nat, i: nat)
    requires i < |es|
  {
    Visible(es, s, i) && es[i].kind.Put? && forall j :: 0 <= j < i && es[j].key == es[i].key ==> !Visible(es, s, j)
  }

  lemma KeysInOrder(es: seq<Entry>, i: nat, j: nat)
    requires Sorted(es) && i <= j < |es|
    ensures es[i].key <= es[j].key
  {
    assert i == j || Before(es[i], es[j]);
  }

  lemma LiveIsGet(es: seq<Entry>, s: nat, i: nat)
    requires Sorted(es) && UniqueSeq(Members(es)) && i < |es| && IsLive(es, s, i)
    ensures Get(Members(es), es[i].key, s) == Some(es[i].kind.value)
  {
    forall x | x in Members(es) && Matches(x, es[i].key, s)
      ensures x.sn <= es[i].sn
    {
      var j :| 0 <= j < |es| && es[j] == x;
      assert i < j ==> Before(es[i], es[j]);
    }
    LookupIs(Members(es), es[i].key, s, es[i]);
  }

  lemma GetIsLive(es: seq<Entry>, s: nat, k: UserKey) returns (i: nat)
    requires Sorted(es) && UniqueSeq(Members(es)) && Get(Members(es), k, s).Some?
    ensures i < |es| && IsLive(es, s, i) && es[i].key == k
  {
    var e := Lookup(Members(es), k, s).value;
    i :| i < |es| && es[i] == e;
    forall j | 0 <= j < i && es[j].key == k
      ensures !Visible(es, s, j)
    {
      assert Before(es[j], es[i]) && es[j] in Members(es);
    }
  }

  /* ---- where a cursor over the flat map lands ---- */

  type Pair = (UserKey, string)

  // The first live pair among the keys that satisfy P.
  ghost predicate FirstWhere(S: set<Entry>, s: nat, P: UserKey -> bool, r: Option<Pair>) {
    && (r.Some? ==> P(r.value.0) && Get(S, r.value.0, s) == Some(r.value.1))
    && forall k :: P(k) && (r.Some? ==> k < r.value.0) ==> Get(S, k, s) == None
  }

  // The last live pair among the keys that satisfy P.
  ghost predicate LastWhere(S: set<Entry>, s: nat, P: UserKey -> bool, r: Option<Pair>) {
    && (r.Some? ==> P(r.value.0) && Get(S, r.value.0, s) == Some(r.value.1))
    && forall k :: P(k) && (r.Some? ==> r.value.0 < k) ==> Get(S, k, s) == None
  }

  function Any(): UserKey -> bool { k => true }

  function FromOn(k0: UserKey): UserKey -> bool { k => k >= k0 }

  function Above(k0: UserKey): UserKey -> bool { k => k > k0 }

  function Below(k0: UserKey): UserKey -> bool { k => k < k0 }

  // Each landing place is unique.
  lemma LandingUnique(S: set<Entry>, s: nat, P: UserKey -> bool, r: Option<Pair>, q: Option<Pair>)
    ensures FirstWhere(S, s, P, r) && FirstWhere(S, s, P, q) ==> r == q
    ensures LastWhere(S, s, P, r) && LastWhere(S, s, P, q) ==> r == q
  {
  }

  // Stepping forward and back again returns to the same pair, and the other way around.
  lemma StepsInvert(S: set<Entry>, s: nat, r: Option<Pair>, next: Option<Pair>, back: Option<Pair>)
    requires r.Some? && Get(S, r.value.0, s) == Some(r.value.1) && next.Some?
    ensures FirstWhere(S, s, Above(r.value.0), next) && LastWhere(S, s, Below(next.value.0), back) ==> back == r
    ensures LastWhere(S, s, Below(r.value.0), next) && FirstWhere(S, s, Above(next.value.0), back) ==> back == r
  {
  }

  ghost function PairAt(es: seq<Entry>, i: nat): Pair
    requires i < |es| && es[i].kind.Put?
  {
    (es[i].key, es[i].kind.value)
  }

  // From the least acceptable position to the first acceptable pair.
  lemma FirstPosition(es: seq<Entry>, s: nat, P: UserKey -> bool, r: Option<nat>)
    requires Sorted(es) && UniqueSeq(Members(es))
    requires r.Some? ==> r.value < |es| && IsLive(es, s, r.value) && P(es[r.value].key)
    requires forall j :: 0 <= j < (if r.Some? then r.value else |es|) && IsLive(es, s, j) ==> !P(es[j].key)
    ensures FirstWhere(Members(es), s, P, if r.Some? then Some(PairAt(es, r.value)) else None)
  {
    if r.Some? {
      LiveIsGet(es, s, r.value);
    }
    forall k | P(k) && (r.Some? ==> k < es[r.value].key)
      ensures Get(Members(es), k, s) == None
    {
      if Get(Members(es), k, s).Some? {
        var j := GetIsLive(es, s, k);
        if r.Some? && r.value <= j {
          KeysInOrder(es, r.value, j);
        }
      }
    }
  }

  lemma LastPosition(es: seq<Entry>, s: nat, P: UserKey -> bool, r: Option<nat>)
    requires Sorted(es) && UniqueSeq(Members(es))
    requires r.Some? ==> r.value < |es| && IsLive(es, s, r.value) && P(es[r.value].key)
    requires forall j :: (if r.Some? then r.value + 1 else 0) <= j < |es| && IsLive(es, s, j) ==> !P(es[j].key)
    ensures LastWhere(Members(es), s, P, if r.Some? then Some(PairAt(es, r.value)) else None)
  {
    if r.Some? {
      LiveIsGet(es, s, r.value);
    }
    forall k | P(k) && (r.Some? ==> es[r.value].key < k)
      ensures Get(Members(es), k, s) == None
    {
      if Get(Members(es), k, s).Some? {
        var j := GetIsLive(es, s, k);
        if r.Some? && j <= r.value {
          KeysInOrder(es, j, r.value);
        }
      }
    }
  }

  /* ---- the forward scan ---- */

  // A live entry past the keys to skip.
  ghost predicate Acceptable(es: seq<Entry>, s: nat, skip: Option<UserKey>, j: nat)
    requires j < |es|
  {
    IsLive(es, s, j) && (skip.Some? ==> skip.value < es[j].key)
  }

  ghost predicate NoneAcceptable(es: seq<Entry>, s: nat, skip: Option<UserKey>, lo: int, hi: int) {
    forall j :: 0 <= j < |es| && lo <= j < hi ==> !Acceptable(es, s, skip, j)
  }

  // Keys with a visible entry before position p are skipped from p on.
  ghost predicate SeenAreSkipped(es: seq<Entry>, s: nat, skip: Option<UserKey>, p: int) {
    forall i, j :: 0 <= i < p <= j < |es| && es[i].key == es[j].key && Visible(es, s, i) ==> skip.Some? && es[j].key <= skip.value
  }

  // Nothing visible from p on is below the keys to skip.
  ghost predicate SkipFits(es: seq<Entry>, s: nat, skip: Option<UserKey>, p: int) {
    skip.Some? ==> forall j :: 0 <= j < |es| && p <= j && Visible(es, s, j) ==> skip.value <= es[j].key
  }

  // The scan has come from lo, skipping skip0, to p, skipping skip.
  ghost predicate Scanned(es: seq<Entry>, s: nat, skip0: Option<UserKey>, lo: int, skip: Option<UserKey>, p: int) {
    && (skip0.Some? ==> skip.Some? && skip0.value <= skip.value)
    && NoneAcceptable(es, s, skip0, lo, p) && SeenAreSkipped(es, s, skip, p) && SkipFits(es, s, skip0, p)
    && (skip.Some? ==> forall j :: 0 <= j < |es| && p <= j && es[j].key <= skip.value ==> !Acceptable(es, s, skip0, j))
  }

  // What one round of the scan does to the keys to skip; None when it stops.
  function ScanStep(e: Entry, s: nat, skip: Option<UserKey>): Option<Option<UserKey>> {
    if e.sn > s then Some(skip)
    else if e.kind.Deletion? then Some(Some(e.key))
    else if skip.Some? && e.key <= skip.value then Some(skip)
    else None
  }

  lemma ScanGoesOn(es: seq<Entry>, s: nat, skip0: Option<UserKey>, lo: int, skip: Option<UserKey>, p: int)
    requires Sorted(es) && 0 <= lo <= p < |es| && Scanned(es, s, skip0, lo, skip, p)
    requires ScanStep(es[p], s, skip).Some?
    ensures Scanned(es, s, skip0, lo, ScanStep(es[p], s, skip).value, p + 1)
  {
    var skip' := ScanStep(es[p], s, skip).value;
    assert !Acceptable(es, s, skip0, p);
    forall i, j | 0 <= i < p + 1 <= j < |es| && es[i].key == es[j].key && Visible(es, s, i)
      ensures skip'.Some? && es[j].key <= skip'.value
    {
      KeysInOrder(es, i, p);
      KeysInOrder(es, p, j);
    }
    if skip' != skip {
      forall j | 0 <= j < |es| && p + 1 <= j && es[j].key <= es[p].key
        ensures !Acceptable(es, s, skip0, j)
      {
        KeysInOrder(es, p, j);
        assert Visible(es, s, p);
      }
    }
  }

  lemma ScanStops(es: seq<Entry>, s: nat, skip0: Option<UserKey>, lo: int, skip: Option<UserKey>, p: int)
    requires Sorted(es) && 0 <= lo <= p < |es| && Scanned(es, s, skip0, lo, skip, p)
    requires ScanStep(es[p], s, skip).None?
    ensures Acceptable(es, s, skip0, p)
  {
  }

  // The scan from lo, where what lies before lo is none of P's, lands on the first pair of P.
  lemma ScanLands(es: seq<Entry>, s: nat, P: UserKey -> bool, skip: Option<UserKey>, lo: nat, r: Option<nat>)
    requires Sorted(es) && UniqueSeq(Members(es))
    requires forall j :: 0 <= j < |es| && j < lo && IsLive(es, s, j) ==> !P(es[j].key)
    requires forall j :: 0 <= j < |es| && lo <= j && IsLive(es, s, j) ==> (P(es[j].key) <==> Acceptable(es, s, skip, j))
    requires r.Some? ==> lo <= r.value < |es| && Acceptable(es, s, skip, r.value)
    requires NoneAcceptable(es, s, skip, lo, if r.Some? then r.value else |es|)
    ensures FirstWhere(Members(es), s, P, if r.Some? then Some(PairAt(es, r.value)) else None)
  {
    FirstPosition(es, s, P, r);
  }

  // Everything before the sought position is too new or of a smaller key.
  lemma SoughtSeen(es: seq<Entry>, s: nat, target: UserKey)
    requires Sorted(es)
    ensures var p := LowerBound(es, SeekKey(target, s));
            && SeenAreSkipped(es, s, None, p)
            && (forall j :: 0 <= j < p && IsLive(es, s, j) ==> es[j].key < target)
            && (forall j :: p <= j < |es| ==> target <= es[j].key)
  {
    var p := LowerBound(es, SeekKey(target, s));
    forall j | 0 <= j < |es|
      ensures j < p ==> es[j].key < target || (es[j].key == target && !Visible(es, s, j))
      ensures p <= j ==> target <= es[j].key
    {
      if p <= j {
        KeysInOrder(es, p, j);
      }
    }
  }

  // From a live entry, or from a little before it with nothing visible in between.
  lemma AheadOf(es: seq<Entry>, s: nat, here: nat, lo: nat)
    requires Sorted(es) && lo <= here < |es| && forall j :: lo <= j < here ==> !Visible(es, s, j)
    ensures SeenAreSkipped(es, s, Some(es[here].key), lo) && SkipFits(es, s, Some(es[here].key), lo)
    ensures forall j :: 0 <= j < lo ==> es[j].key <= es[here].key
  {
    forall j | 0 <= j < |es|
      ensures j <= here ==> es[j].key <= es[here].key
      ensures here <= j ==> es[here].key <= es[j].key
    {
      if j <= here {
        KeysInOrder(es, j, here);
      } else {
        KeysInOrder(es, here, j);
      }
    }
  }

  lemma BehindOf(es: seq<Entry>, here: nat)
    requires Sorted(es) && here < |es|
    ensures forall j :: here <= j < |es| ==> es[here].key <= es[j].key
  {
    forall j | here <= j < |es|
      ensures es[here].key <= es[j].key
    {
      KeysInOrder(es, here, j);
    }
  }

  ghost predicate AllFrom(es: seq<Entry>, key: UserKey, p: int) {
    forall j :: 0 <= j < |es| && p <= j ==> key <= es[j].key
  }

  lemma AllFromHere(es: seq<Entry>, key: UserKey, p: nat)
    requires p < |es| && AllFrom(es, key, p + 1) && key <= es[p].key
    ensures AllFrom(es, key, p)
  {
  }

  // Exactly the entries up to position p have smaller keys.
  ghost predicate SplitAt(es: seq<Entry>, key: UserKey, p: int) {
    -1 <= p < |es| && forall j :: 0 <= j < |es| ==> (es[j].key < key <==> j <= p)
  }

  lemma SplitHere(es: seq<Entry>, key: UserKey, p: int)
    requires Sorted(es) && -1 <= p < |es| && AllFrom(es, key, p + 1) && (p >= 0 ==> es[p].key < key)
    ensures SplitAt(es, key, p)
  {
    forall j | 0 <= j <= p
      ensures es[j].key < key
    {
      KeysInOrder(es, j, p);
    }
  }

  /* ---- the backward scan ---- */

  // The scan has come from hi down to i with candidate c, or none (-1): nothing else it
  // passed is live, and nothing between i and the candidate is visible.
  ghost predicate BackScanned(es: seq<Entry>, s: nat, hi: int, c: int, i: int) {
    && -1 <= i <= hi < |es| && -1 <= c <= hi
    && (c >= 0 ==> i < c && Visible(es, s, c) && es[c].kind.Put? && forall j :: 0 <= j < c && i < j ==> !Visible(es, s, j))
    && forall j :: 0 <= j <= hi && i < j && j != c ==> !IsLive(es, s, j)
  }

  // A smaller visible key, with a candidate in hand, ends the scan.
  predicate BackStops(e: Entry, s: nat, c: int, key: Option<UserKey>) {
    e.sn <= s && c >= 0 && key.Some? && e.key < key.value
  }

  lemma BackGoesOn(es: seq<Entry>, s: nat, hi: int, c: int, i: int)
    requires Sorted(es) && i >= 0 && BackScanned(es, s, hi, c, i)
    requires !BackStops(es[i], s, c, if c >= 0 then Some(es[c].key) else None)
    ensures BackScanned(es, s, hi, if !Visible(es, s, i) then c else if es[i].kind.Put? then i else -1, i - 1)
  {
    if c >= 0 {
      KeysInOrder(es, i, c);
      assert Visible(es, s, i) ==> !IsLive(es, s, c);
    }
  }

  lemma BackFound(es: seq<Entry>, s: nat, hi: int, c: int, i: int)
    requires Sorted(es) && BackScanned(es, s, hi, c, i) && c >= 0
    requires i >= 0 ==> BackStops(es[i], s, c, Some(es[c].key))
    ensures IsLive(es, s, c)
  {
    forall j | 0 <= j < c && es[j].key == es[c].key
      ensures !Visible(es, s, j)
    {
      if j <= i {
        KeysInOrder(es, j, i);
      }
    }
  }

  /* ---- the iterator ---- */

  class DBIter {
    const iter: MergingIterator
    const sequence: nat
    // The key, and the value, that a reverse iterator yields; cleared when unused.
    var savedKey: Option<UserKey>
    var savedValue: string
    var direction: Direction
    var valid: bool
    // The position of the yielded entry in the merged sequence.
    ghost var at: int

    ghost function Repr(): set<object> {
      {this} + iter.Repr()
    }

    ghost function Source(): seq<Entry> {
      iter.merged
    }

    ghost predicate Ready()
      reads Repr()
    {
      this !in iter.Repr() && iter.Valid() && UniqueSeq(Members(Source()))
    }

    // Forward, the inner iterator stands on the yielded entry. Reverse, it stands before
    // it, with nothing visible in between.
    ghost predicate AtEntry()
      requires Ready()
      reads Repr()
    {
      && 0 <= at < |Source()| && IsLive(Source(), sequence, at)
      && (direction.Forward? ==> iter.pos == at)
      && (direction.Reverse? ==>
            && savedKey == Some(Source()[at].key) && savedValue == Source()[at].kind.value
            && iter.pos < at && (forall j :: iter.pos < j < at ==> !Visible(Source(), sequence, j))
            && (iter.pos >= 0 ==> Source()[iter.pos].key < Source()[at].key))
    }

    ghost predicate Valid()
      reads Repr()
    {
      Ready() && (valid ==> AtEntry())
    }

    constructor (iter: MergingIterator, sequence: nat)
      requires iter.Valid() && UniqueSeq(Members(iter.merged))
      ensures Valid() && !valid && this.iter == iter && this.sequence == sequence
    {
      this.iter, this.sequence := iter, sequence;
      savedKey, savedValue, direction, valid, at := None, "", Forward, false, -1;
    }

    // db_iter.cc:64
    function Key(): (k: UserKey)
      requires Valid() && valid
      reads Repr()
      ensures k == Source()[at].key
    {
      if direction.Forward? then iter.Current().key else savedKey.value
    }

    // db_iter.cc:68
    function Value(): (v: string)
      requires Valid() && valid
      reads Repr()
      ensures v == Source()[at].kind.value
    {
      if direction.Forward? then iter.Current().kind.value else savedValue
    }

    // What a caller sees.
    ghost function Yield(): Option<Pair>
      requires Valid()
      reads Repr()
    {
      if valid then Some((Key(), Value())) else None
    }

    // db_iter.cc:172: the loop of FindNextUserEntry.
    method ScanForward(skip0: Option<UserKey>) returns (found: bool)
      requires Ready() && iter.pos >= 0
      requires SeenAreSkipped(Source(), sequence, skip0, iter.pos) && SkipFits(Source(), sequence, skip0, iter.pos)
      modifies iter.Repr()
      ensures Ready() && (found ==> old(iter.pos) <= iter.pos < |Source()| && Acceptable(Source(), sequence, skip0, iter.pos))
      ensures NoneAcceptable(Source(), sequence, skip0, old(iter.pos), if found then iter.pos else |Source()|)
    {
      iter.Facts();
      ghost var lo, p := iter.pos, iter.pos;
      var skip := skip0;
      found := false;
      while iter.current.Some?
        invariant Ready() && lo <= p <= |Source()| && Scanned(Source(), sequence, skip0, lo, skip, p)
        invariant iter.current.Some? <==> p < |Source()|
        invariant p < |Source()| ==> iter.pos == p
        decreases |Source()| - p
      {
        var step := ScanStep(iter.Current(), sequence, skip);
        if step.None? {
          ScanStops(Source(), sequence, skip0, lo, skip, p);
          found := true;
          break;
        }
        ScanGoesOn(Source(), sequence, skip0, lo, skip, p);
        skip, p := step.value, p + 1;
        iter.Next();
      }
    }

    // db_iter.cc:168: the first acceptable entry from here on. The keys to skip travel in
    // the saved key, which is cleared on the way out; None is the call that skips nothing.
    method FindNextUserEntry(skip0: Option<UserKey>)
      requires Ready() && direction.Forward? && iter.pos >= 0
      requires SeenAreSkipped(Source(), sequence, skip0, iter.pos) && SkipFits(Source(), sequence, skip0, iter.pos)
      modifies Repr()
      ensures Valid() && direction.Forward? && (valid ==> old(iter.pos) <= at < |Source()| && Acceptable(Source(), sequence, skip0, at))
      ensures NoneAcceptable(Source(), sequence, skip0, old(iter.pos), if valid then at else |Source()|)
    {
      var found := ScanForward(skip0);
      valid, savedKey, at := found, None, iter.pos;
    }

    // db_iter.cc:232: the loop of FindPrevUserEntry. The newest value seen for the key in
    // hand is kept aside; a deletion clears it.
    method ScanBack() returns (saved: Option<Entry>, ghost c: int)
      requires Ready()
      modifies iter.Repr()
      ensures Ready() && BackScanned(Source(), sequence, old(iter.pos), c, iter.pos)
      ensures saved == if c >= 0 then Some(Source()[c]) else None
      ensures saved.None? ==> iter.pos == -1
      ensures c >= 0 && iter.pos >= 0 ==> BackStops(Source()[iter.pos], sequence, c, Some(Source()[c].key))
    {
      ghost var hi := iter.pos;
      saved, c := None, -1;
      iter.Facts();
      while iter.current.Some?
        invariant Ready() && BackScanned(Source(), sequence, hi, c, iter.pos)
        invariant iter.current.Some? <==> iter.pos >= 0
        invariant saved == if c >= 0 then Some(Source()[c]) else None
        decreases iter.pos
      {
        var e := iter.Current();
        if e.sn <= sequence && saved.Some? && e.key < saved.value.key {
          break;
        }
        BackGoesOn(Source(), sequence, hi, c, iter.pos);
        if e.sn <= sequence {
          saved := if e.kind.Deletion? then None else Some(e);
          c := if e.kind.Deletion? then -1 else iter.pos;
        }
        iter.Prev();
      }
    }

    // db_iter.cc:227: the last live entry from here back.
    method FindPrevUserEntry()
      requires Ready() && direction.Reverse?
      modifies Repr()
      ensures Valid() && (valid ==> direction.Reverse? && at <= old(iter.pos))
      ensures forall j :: 0 <= j <= old(iter.pos) && (valid ==> at < j) ==> !IsLive(Source(), sequence, j)
    {
      var saved; ghost var c;
      saved, c := ScanBack();
      if saved.None? {
        valid, savedKey, savedValue, direction := false, None, "", Forward;
      } else {
        BackFound(Source(), sequence, old(iter.pos), c, iter.pos);
        valid, savedKey, savedValue, at := true, Some(saved.value.key), saved.value.kind.value, c;
      }
    }

    // db_iter.cc:144: a reverse iterator first moves past what lies before its entry.
    method TurnForward()
      requires Valid() && valid
      modifies Repr()
      ensures Ready() && direction.Forward? && savedKey == Some(Source()[old(at)].key) && 0 <= iter.pos <= old(at)
      ensures forall j :: iter.pos <= j < old(at) ==> !Visible(Source(), sequence, j)
    {
      iter.Facts();
      if direction.Reverse? {
        direction := Forward;
        // The yielded entry is still ahead, so the inner iterator cannot run off.
        if iter.current.None? {
          iter.SeekToFirst();
        } else {
          iter.Next();
        }
      } else {
        savedKey := Some(iter.Current().key);
      }
    }

    // db_iter.cc:141
    method Next()
      requires Valid() && valid
      modifies Repr()
      ensures Valid() && FirstWhere(Members(Source()), sequence, Above(old(Key())), Yield())
    {
      ghost var here := at;
      iter.Facts();
      TurnForward();
      ghost var lo := iter.pos;
      AheadOf(Source(), sequence, here, lo);
      FindNextUserEntry(savedKey);
      ScanLands(Source(), sequence, Above(Source()[here].key), Some(Source()[here].key), lo, if valid then Some(at) else None);
    }

    // db_iter.cc:269
    method Seek(target: UserKey)
      requires Valid()
      modifies Repr()
      ensures Valid() && FirstWhere(Members(Source()), sequence, FromOn(target), Yield())
    {
      iter.Facts();
      direction, savedKey, savedValue := Forward, None, "";
      iter.Seek(SeekKey(target, sequence));
      SoughtSeen(Source(), sequence, target);
      if iter.current.Some? {
        FindNextUserEntry(None);
      } else {
        valid := false;
      }
      ScanLands(Source(), sequence, FromOn(target), None, LowerBound(Source(), SeekKey(target, sequence)), if valid then Some(at) else None);
    }

    // db_iter.cc:283
    method SeekToFirst()
      requires Valid()
      modifies Repr()
      ensures Valid() && FirstWhere(Members(Source()), sequence, Any(), Yield())
    {
      iter.Facts();
      direction, savedValue := Forward, "";
      iter.SeekToFirst();
      if iter.current.Some? {
        FindNextUserEntry(None);
      } else {
        valid := false;
      }
      ScanLands(Source(), sequence, Any(), None, 0, if valid then Some(at) else None);
    }

    // db_iter.cc:294
    method SeekToLast()
      requires Valid()
      modifies Repr()
      ensures Valid() && LastWhere(Members(Source()), sequence, Any(), Yield())
    {
      iter.Facts();
      direction, savedValue := Reverse, "";
      iter.SeekToLast();
      FindPrevUserEntry();
      LastPosition(Source(), sequence, Any(), if valid then Some(at) else None);
    }

    // db_iter.cc:208: back to the last entry of a smaller key.
    method SkipKeyBack(key: UserKey)
      requires Ready() && iter.current.Some? && AllFrom(Source(), key, iter.pos)
      modifies iter.Repr()
      ensures Ready() && -1 <= iter.pos < |Source()| && (iter.current.None? <==> iter.pos == -1)
      ensures AllFrom(Source(), key, iter.pos + 1) && (iter.pos >= 0 ==> Source()[iter.pos].key < key)
    {
      iter.Facts();
      while true
        invariant Ready() && 0 <= iter.pos < |Source()| && iter.current.Some? && AllFrom(Source(), key, iter.pos)
        decreases iter.pos
      {
        iter.Prev();
        assert AllFrom(Source(), key, iter.pos + 1);
        if iter.current.None? {
          return;
        }
        var k := iter.Current().key;
        if k < key {
          return;
        }
        AllFromHere(Source(), key, iter.pos);
      }
    }

    // db_iter.cc:203: a forward iterator first moves back before all entries of its key.
    method TurnBack() returns (off: bool)
      requires Valid() && valid && direction.Forward?
      modifies Repr()
      ensures Ready() && SplitAt(Source(), old(Source()[at].key), iter.pos) && (off <==> iter.pos == -1)
      ensures if off then !valid else direction.Reverse?
    {
      iter.Facts();
      var key := iter.Current().key;
      BehindOf(Source(), at);
      SkipKeyBack(key);
      SplitHere(Source(), key, iter.pos);
      if iter.current.None? {
        off, valid, savedKey, savedValue := true, false, None, "";
      } else {
        off, savedKey, direction := false, Some(key), Reverse;
      }
    }

    // db_iter.cc:200
    method Prev()
      requires Valid() && valid
      modifies Repr()
      ensures Valid() && LastWhere(Members(Source()), sequence, Below(old(Key())), Yield())
    {
      iter.Facts();
      ghost var here := at;
      var off := false;
      BehindOf(Source(), here);
      if direction.Forward? {
        off := TurnBack();
      }
      if !off {
        FindPrevUserEntry();
      }
      LastPosition(Source(), sequence, Below(Source()[here].key), if valid then Some(at) else None);
    }
  }
}
