/**
 * The scrollable list of saved hands: one frame per record, placed in rows in record order.
 * Importing replaces the whole list; exporting gives back each frame's record for saving.
 */
module Viewer {
  import opened Wrappers
  import opened Frames
  import TilePngs

  /** The error the first record that cannot be shown raises, if any. */
  function FirstRecordError(records: seq<Record>, images: TilePngs.ImgTable): (r: Option<FrameError>)
    ensures r.None? <==> forall i :: 0 <= i < |records| ==> RecordError(records[i], images).None?
  {
    if records == [] then None
    else
      var p := records[..|records| - 1];
      var e := FirstRecordError(p, images);
      assert forall i :: 0 <= i < |p| ==> p[i] == records[i];
      if e.Some? then e else RecordError(records[|records| - 1], images)
  }

  /** When records before index k all load and record k does not, the import fails with record k's error. */
  lemma {:induction false} FirstRecordErrorAt(records: seq<Record>, images: TilePngs.ImgTable, k: nat)
    requires k < |records|
    requires forall i :: 0 <= i < k ==> RecordError(records[i], images).None?
    requires RecordError(records[k], images).Some?
    ensures FirstRecordError(records, images) == RecordError(records[k], images)
  {
    var p := records[..|records| - 1];
    if k < |records| - 1 {
      assert forall i :: 0 <= i < |p| ==> p[i] == records[i];
      FirstRecordErrorAt(p, images, k);
    } else {
      assert forall i :: 0 <= i < |p| ==> p[i] == records[i];
    }
  }

  /** What saving a list of loaded records writes: each record as its frame exports it. */
  function ExportAll(records: seq<Record>): (r: seq<Record>)
    requires forall i :: 0 <= i < |records| ==> FieldNames <= records[i].Keys
    ensures |r| == |records|
    ensures forall i :: 0 <= i < |r| ==> r[i] == Exported(records[i])
  {
    seq(|records|, i requires 0 <= i < |records| => Exported(records[i]))
  }

  /** Saving, reloading and saving again writes the same list as the first save. */
  lemma ExportAllIdempotent(records: seq<Record>)
    requires forall i :: 0 <= i < |records| ==> FieldNames <= records[i].Keys
    ensures forall i :: 0 <= i < |records| ==> FieldNames <= ExportAll(records)[i].Keys
    ensures ExportAll(ExportAll(records)) == ExportAll(records)
  {
    forall i | 0 <= i < |records|
      ensures FieldNames <= ExportAll(records)[i].Keys
      ensures Exported(ExportAll(records)[i]) == ExportAll(records)[i]
    {
      ExportedFields(records[i]);
      ExportedIdempotent(records[i]);
    }
  }

  /** A saved list loads back without error whenever the list it was saved from did. */
  lemma ExportAllReloads(records: seq<Record>, images: TilePngs.ImgTable)
    requires FirstRecordError(records, images).None?
    ensures forall i :: 0 <= i < |records| ==> FieldNames <= records[i].Keys
    ensures FirstRecordError(ExportAll(records), images).None?
  {
    forall i | 0 <= i < |records|
      ensures FieldNames <= records[i].Keys
      ensures RecordError(Exported(records[i]), images).None?
    {
      ExportedReloads(records[i], images);
    }
  }

  /** Frame `f` was built from record `data`: it holds the record's fields and lays its hand out. */
  ghost predicate BuiltFrom(f: HandFrame, data: Record, tiles: TilePngs.ImgTable)
    reads f
  {
    f.record == data && f.images == tiles && f.Loaded() && f.Laid()
  }

  /**
   * The comprehension of `import_hands`: one frame per record, in order; the first record
   * that cannot be shown raises, and no list is produced.
   */
  method BuildFrames(handData: seq<Record>, tiles: TilePngs.ImgTable) returns (frames: seq<HandFrame>, err: Option<FrameError>)
    ensures err == FirstRecordError(handData, tiles)
    ensures err.None? ==> |frames| == |handData|
    ensures err.None? ==> forall i :: 0 <= i < |handData| ==>
      fresh(frames[i]) && BuiltFrom(frames[i], handData[i], tiles)
  {
    frames := [];
    for i := 0 to |handData|
      invariant |frames| == i
      invariant forall k :: 0 <= k < i ==> RecordError(handData[k], tiles).None?
      invariant forall k :: 0 <= k < i ==> fresh(frames[k])
      invariant forall k :: 0 <= k < i ==> BuiltFrom(frames[k], handData[k], tiles)
    {
      var e := RecordError(handData[i], tiles);
      if e.Some? {
        FirstRecordErrorAt(handData, tiles, i);
        return [], e;
      }
      var frame := new HandFrame(handData[i], tiles);
      assert BuiltFrom(frame, handData[i], tiles);
      frames := frames + [frame];
    }
    err := None;
  }

  /** The hand viewer: the loaded frames and where the grid shows them. */
  class HandViewer {
    /** The frames of the loaded hands, in display order. */
    var loadedHands: seq<HandFrame>
    /** Grid placement of the frames: row -> frame. */
    var rows: map<nat, HandFrame>

    /** Every loaded frame holds its record, and every placed frame sits in the row of its index. */
    ghost predicate Valid()
      reads this
    {
      (forall i :: 0 <= i < |loadedHands| ==> loadedHands[i].Loaded()) &&
      (forall r :: r in rows ==> r < |loadedHands| && rows[r] == loadedHands[r])
    }

    /** A fresh viewer shows no hands. */
    constructor ()
      ensures Valid()
      ensures loadedHands == [] && rows == map[]
      ensures ExportHands() == []
    {
      loadedHands := [];
      rows := map[];
    }

    /**
     * `import_hands`: destroy the frames shown so far, build one frame per record, and place
     * frame i in row i. Building stops at the first record that cannot be shown; the frames
     * loaded before stay in the list, though none is shown any more.
     */
    method ImportHands(handData: seq<Record>, tiles: TilePngs.ImgTable) returns (err: Option<FrameError>)
      requires Valid()
      modifies this
      ensures Valid()
      ensures err == FirstRecordError(handData, tiles)
      ensures err.None? ==> |loadedHands| == |handData|
      ensures err.None? ==> forall i :: 0 <= i < |handData| ==>
        fresh(loadedHands[i]) && BuiltFrom(loadedHands[i], handData[i], tiles)
      ensures err.None? ==> forall r: nat :: r in rows <==> r < |loadedHands|
      ensures err.None? ==> forall r :: r in rows ==> rows[r] == loadedHands[r]
      ensures err.None? ==> forall i :: 0 <= i < |handData| ==> FieldNames <= handData[i].Keys
      ensures err.None? ==> ExportHands() == ExportAll(handData)
      ensures err.Some? ==> loadedHands == old(loadedHands) && rows == map[]
    {
      // Wipe out the existing frames
      if |loadedHands| > 0 {
        rows := map[];
      }
      assert rows.Keys == {};
      assert rows == map[];
      // Load in the frames
      var frames;
      frames, err := BuildFrames(handData, tiles);
      if err.Some? {
        return;
      }
      loadedHands := frames;
      // Arrange them in the inner frame
      ArrangeRows();
      assert Valid();
      ExportMatches(handData);
    }

    /** The placement loop of `import_hands`: frame i of the list goes to row i of the empty grid. */
    method ArrangeRows()
      requires rows == map[]
      modifies this`rows
      ensures forall r: nat :: r in rows <==> r < |loadedHands|
      ensures forall r :: r in rows ==> rows[r] == loadedHands[r]
    {
      for i := 0 to |loadedHands|
        invariant forall k: nat :: k in rows <==> k < i
        invariant forall k :: k in rows ==> rows[k] == loadedHands[k]
      {
        rows := rows[i := loadedHands[i]];
      }
    }

    /** Right after a successful import, exporting gives each record as its frame saves it. */
    lemma ExportMatches(handData: seq<Record>)
      requires Valid()
      requires |loadedHands| == |handData|
      requires forall i :: 0 <= i < |handData| ==> loadedHands[i].record == handData[i]
      ensures forall i :: 0 <= i < |handData| ==> FieldNames <= handData[i].Keys
      ensures ExportHands() == ExportAll(handData)
    {
      assert forall i :: 0 <= i < |handData| ==> loadedHands[i].Loaded();
    }

    /** `export_hands`: the record of every loaded frame, in display order. */
    function ExportHands(): (r: seq<Record>)
      reads this
      requires Valid()
      ensures |r| == |loadedHands|
      ensures forall i :: 0 <= i < |r| ==> r[i] == Exported(loadedHands[i].record)
    {
      var hands := loadedHands;
      seq(|hands|, i requires 0 <= i < |hands| && hands[i].Loaded() => hands[i].GetData())
    }
  }
}
