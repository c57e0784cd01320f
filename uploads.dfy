/**
  What the reader callbacks of one upload batch do to the in-memory list.

  Every callback of a batch builds its new list from the same `images` snapshot,
  the one current when the file input fired; `BatchAsWritten` follows that, and
  `BatchAppended` is the intended behaviour, where each completion appends to
  the list as it stands.
 */
module Uploads {
  import opened GalleryStore

  /**
    The list one reader callback installs: the snapshot plus a record for the
    decoded data URI, or None (nothing installed, nothing saved) when the reader
    result is not a string.
   */
  function AppendToSnapshot(snapshot: seq<Image>, result: Option<string>, id: ImageId): (r: Option<seq<Image>>)
    ensures r.Some? <==> result.Some?
    ensures r.Some? ==> |r.value| == |snapshot| + 1 && r.value[..|snapshot|] == snapshot
    ensures r.Some? ==> r.value[|snapshot|] == Image(id, result.value)
  {
    match result
    case Some(src) => Some(snapshot + [Image(id, src)])
    case None => None
  }

  /**
    The list after the callbacks of one batch have run, in completion order
    `recs`, starting from `current`: each installs `snapshot + [rec]`.
   */
  function BatchAsWritten(current: seq<Image>, snapshot: seq<Image>, recs: seq<Image>): (r: seq<Image>)
    ensures recs == [] ==> r == current
    ensures recs != [] ==> |r| == |snapshot| + 1 && r[..|snapshot|] == snapshot
    decreases |recs|
  {
    if recs == [] then current else BatchAsWritten(snapshot + [recs[0]], snapshot, recs[1..])
  }

  /** However many files complete, only the last one to complete is left in the list. */
  lemma {:induction false} BatchAsWrittenKeepsLast(current: seq<Image>, snapshot: seq<Image>, recs: seq<Image>)
    requires recs != []
    ensures BatchAsWritten(current, snapshot, recs) == snapshot + [recs[|recs| - 1]]
    decreases |recs|
  {
    if |recs| > 1 {
      BatchAsWrittenKeepsLast(snapshot + [recs[0]], snapshot, recs[1..]);
    }
  }

  /**
    Two files picked together: the first to complete is lost from the list and
    from the payload of the last save, and so from storage when that save
    succeeds.
   */
  lemma TwoFileBatchLosesFirst(snapshot: seq<Image>, r1: Image, r2: Image)
    requires r1 != r2 && r1 !in snapshot
    ensures r1 !in BatchAsWritten(snapshot, snapshot, [r1, r2])
    ensures |BatchAsWritten(snapshot, snapshot, [r1, r2])| == |snapshot| + 1
    ensures r1 !in UserImages(BatchAsWritten(snapshot, snapshot, [r1, r2]))
  {
    BatchAsWrittenKeepsLast(snapshot, snapshot, [r1, r2]);
  }

  /** The intended batch: each completion appends its record to the current list. */
  function BatchAppended(current: seq<Image>, recs: seq<Image>): (r: seq<Image>)
    ensures |r| == |current| + |recs| && r[..|current|] == current
    decreases |recs|
  {
    if recs == [] then current else BatchAppended(current + [recs[0]], recs[1..])
  }

  /** The intended batch keeps every record, in completion order, after the old list. */
  lemma {:induction false} BatchAppendedKeepsAll(current: seq<Image>, recs: seq<Image>)
    ensures BatchAppended(current, recs) == current + recs
    decreases |recs|
  {
    if recs != [] {
      BatchAppendedKeepsAll(current + [recs[0]], recs[1..]);
      assert current + [recs[0]] + recs[1..] == current + recs;
    }
  }
}
