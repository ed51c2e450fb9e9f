/**
 What recovery of a manifest (VersionSet::Recover in db/version_set.cc) refuses: a log with a
 report, a record that is no edit, and the manifest of another comparator.
 */
module ManifestChecks {
  import opened Keys
  import opened Coding
  import opened Manifest
  import opened VersionEdits
  import opened Builder
  import Log

  // A record that is an edit, of a store with this comparator or of none that it names.
  ghost predicate Acceptable(record: Bytes, name: Bytes) {
    var d := Decode(record, Cleared([]));
    d.1.None? && (d.0.comparator.None? || d.0.comparator == Some(name))
  }

  // Loading succeeds exactly when the log reads without a report and every record of it is
  // such an edit; and then these are the edits.
  lemma {:induction false} LoadIff(s: Log.State, name: Bytes, sofar: seq<Bytes>, es: seq<Edit>)
    ensures var l, all := Load(s, name, es), Log.ReadRecords(s, sofar);
            && sofar <= all.1
            && (l.error.None? <==> all.0.drops == 0 && forall i :: |sofar| <= i < |all.1| ==> Acceptable(all.1[i], name))
            && (l.error.None? ==>
                  && |l.edits| == |es| + |all.1| - |sofar|
                  && forall i :: |sofar| <= i < |all.1| ==> l.edits[|es| + i - |sofar|] == Decode(all.1[i], Cleared([])).0)
            && es <= l.edits
    decreases |s.buffer| + |s.rest|
  {
    hide Decode, Log.ReadLogical;
    var next := Log.ReadLogical(s, false, []);
    Log.RecordsDrops(s, sofar);
    Log.LogicalDrops(s, false, []);
    if next.record.Some? {
      var record, more := next.record.value, sofar + [next.record.value];
      Log.RecordsDrops(next.state, more);
      assert Log.ReadRecords(next.state, more).1[|sofar|] == more[|sofar|] == record;
      if next.state.drops == 0 && Acceptable(record, name) {
        LoadIff(next.state, name, more, es + [Decode(record, Cleared([])).0]);
      }
    }
  }

  // Also when it fails, no edit of another comparator is among those that were applied.
  lemma {:induction false} LoadNamed(s: Log.State, name: Bytes, es: seq<Edit>)
    requires forall e :: e in es ==> e.comparator.None? || e.comparator == Some(name)
    ensures forall e :: e in Load(s, name, es).edits ==> e.comparator.None? || e.comparator == Some(name)
    decreases |s.buffer| + |s.rest|
  {
    hide Decode, Log.ReadLogical;
    var next := Log.ReadLogical(s, false, []);
    if next.state.drops == 0 && next.record.Some? {
      var a := Accept(next.record.value, name, es);
      if a.error.None? {
        LoadNamed(next.state, name, a.edits);
      }
    }
  }

  /* ---- the manifest of another comparator ---- */

  lemma FirstRecord(file: Bytes, records: seq<Bytes>)
    requires records != [] && file <= Log.LogOf(records) && |Log.LogOf(records[..1])| <= |file|
    ensures var next := Log.ReadLogical(Log.Opened(file), false, []);
            next.record == Some(records[0]) && next.state.drops == 0
  {
    hide Log.LogOf, Log.ReadLogical;
    var k := Log.CrashPrefix(file, records);
    assert records[..0 + 1] == records[..1];
    var s := Log.Opened(file);
    var next := Log.ReadLogical(s, false, []);
    Log.LogicalDrops(s, false, []);
    if next.record.Some? {
      Log.RecordsDrops(next.state, [next.record.value]);
      assert [] + [next.record.value] == [next.record.value];
      assert records[..k][0] == records[0];
    }
  }

  // Of a manifest that a version set of another name wrote nothing is loaded.
  lemma ForeignLoad(key: Meta -> FileKey, name: Bytes, other: Bytes, file: Bytes, records: seq<Bytes>, es: seq<Edit>, states: seq<Logged>)
    requires Written(key, name, records, es, states) && es != [] && other != name
    requires file <= Log.LogOf(records) && |Log.LogOf(records[..1])| <= |file|
    ensures Load(Log.Opened(file), other, []) == Loading([], Some("does not match existing comparator"))
  {
    hide Log.LogOf, Log.ReadLogical, Encode, Fields, Decode, AddedOnce, EditFits, LevelsKnown;
    FirstRecord(file, records);
    assert GoodEdit(es[0], name) && records[0] == Encode(Fields(es[0]));
    EditRoundTrip(es[0], []);
  }

  // A version set of another name refuses it, wherever it is cut off behind its first
  // record, and stays as it was.
  method ReopenAs(db: VersionSet, name: Bytes, rank: Bytes -> UserKey, file: Bytes) returns (again: VersionSet, status: Option<string>)
    requires db.Valid() && db.descriptor != null && file <= db.descriptor.dest && |name| < TWO32 && name != db.name
    requires |Log.LogOf(db.descriptor.records[..1])| <= |file|
    ensures fresh(again) && status == Some("does not match existing comparator")
    ensures again.descriptor == null && again.current == Nothing() && again.compactPointer == NoPointers()
    ensures again.nextFileNumber == 2 && again.lastSequence == again.logNumber == again.prevLogNumber == 0
  {
    hide Log.LogOf, Load, Written, PointedBy;
    again := new VersionSet(name, rank);
    ForeignLoad(db.key, db.name, name, file, db.descriptor.records, db.edits, db.states);
    NothingYet(again.key, again.compactPointer);
    NothingAdded(again.key);
    status := again.Recover(file);
  }

  lemma NothingAdded(key: Meta -> FileKey)
    ensures AddedOnce(key, [])
  {
  }
}
