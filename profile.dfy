/**
  The gallery state of the profile page component: the record list, the window
  start index and the browser-storage entry under the `gallery-images` key,
  with the handlers that overwrite them.
 */
module Profile {
  import opened GalleryStore
  import opened Paging
  import Uploads

  class ProfileLayout {
    /** The in-memory list (`images`). */
    var images: seq<Image>
    /** The window start (`currentIndex`). */
    var currentIndex: nat
    /** The storage entry under `gallery-images`; None when the key is absent. */
    var stored: Option<StoredValue>

    /** The paging invariant: the index stays within what the buttons can reach. */
    predicate Valid()
      reads this
    {
      InRange(currentIndex, |images|)
    }

    /** First render: empty list, index 0, storage as the browser holds it. */
    constructor (initial: Option<StoredValue>)
      ensures images == [] && currentIndex == 0 && stored == initial
      ensures Valid()
    {
      images := [];
      currentIndex := 0;
      stored := initial;
    }

    /**
      `loadImages`, run once at mount: the samples followed by the stored user
      records, or the samples alone when nothing usable is stored.
     */
    method LoadImages()
      modifies this`images
      ensures images == Loaded(stored)
      ensures images[..|SampleImages|] == SampleImages
      ensures currentIndex == 0 ==> Valid()
    {
      images := Loaded(stored);
    }

    /**
      `saveImages`: writes the user records of `newImages`. `writeOk` is false
      when the storage write throws (quota exceeded); the error is swallowed and
      the stored entry stays as it was.
     */
    method SaveImages(newImages: seq<Image>, writeOk: bool)
      modifies this`stored
      ensures writeOk ==> stored == Some(Records(UserImages(newImages)))
      ensures writeOk ==> Loaded(stored) == SampleImages + UserImages(newImages)
      ensures !writeOk ==> stored == old(stored)
    {
      if writeOk {
        stored := Some(Serialized(newImages));
      }
    }

    /**
      The reader callback of `handleImageUpload` for one file, closing over the
      list `snapshot` current when the file input fired. A string result installs
      `snapshot` plus the new record and then saves; a failed save keeps the new
      list in memory. Any other result changes nothing.
     */
    method OnReaderLoad(snapshot: seq<Image>, result: Option<string>, id: ImageId, writeOk: bool)
      modifies this`images, this`stored
      ensures result.None? ==> images == old(images) && stored == old(stored)
      ensures result.Some? ==> images == snapshot + [Image(id, result.value)]
      ensures result.Some? && writeOk ==> stored == Some(Records(UserImages(images)))
      ensures result.Some? && !writeOk ==> stored == old(stored)
      ensures old(Valid()) && |snapshot| >= |old(images)| ==> Valid()
    {
      var next := Uploads.AppendToSnapshot(snapshot, result, id);
      if next.Some? {
        images := next.value;
        SaveImages(next.value, writeOk);
      }
    }

    /**
      The reader callback as intended: the record is appended to the list as it
      stands when the callback runs, so no completion of a batch is lost.
     */
    method AppendUpload(result: Option<string>, id: ImageId, writeOk: bool)
      modifies this`images, this`stored
      ensures result.None? ==> images == old(images) && stored == old(stored)
      ensures result.Some? ==> images == old(images) + [Image(id, result.value)]
      ensures result.Some? && writeOk ==> stored == Some(Records(UserImages(images)))
      ensures result.Some? && !writeOk ==> stored == old(stored)
      ensures old(Valid()) ==> Valid()
    {
      OnReaderLoad(images, result, id, writeOk);
    }

    /** `handlePrevious`: one step back unless already at the start. */
    method HandlePrevious()
      modifies this`currentIndex
      ensures currentIndex == Previous(old(currentIndex))
      ensures old(Valid()) ==> Valid()
    {
      currentIndex := Previous(currentIndex);
    }

    /** `handleNext`: one step forward unless the last full window is already shown. */
    method HandleNext()
      modifies this`currentIndex
      ensures currentIndex == Next(old(currentIndex), |images|)
      ensures old(Valid()) ==> Valid()
    {
      currentIndex := Next(currentIndex, |images|);
    }

    /** `visibleImages`: the records on screen. */
    function VisibleImages(): (w: seq<Image>)
      reads this
      ensures |w| == if currentIndex < |images| then Min(PageSize, |images| - currentIndex) else 0
      ensures Valid() && |images| >= PageSize ==> w == images[currentIndex..currentIndex + PageSize]
      ensures Valid() ==> |w| == Min(PageSize, |images|)
      ensures forall k :: 0 <= k < |w| ==> w[k] == images[currentIndex + k]
    {
      Window(images, currentIndex)
    }

    /** The previous button's `disabled`; true exactly when a click would change nothing. */
    predicate PreviousButtonDisabled()
      reads this
      ensures PreviousButtonDisabled() <==> Previous(currentIndex) == currentIndex
    {
      currentIndex == 0
    }

    /** The next button's `disabled`; true exactly when a click would change nothing. */
    predicate NextButtonDisabled()
      reads this
      ensures NextButtonDisabled() <==> Next(currentIndex, |images|) == currentIndex
    {
      currentIndex >= MaxIndex(|images|)
    }
  }

  /**
    Mount with nothing stored, press next, upload two files one after the other
    (each callback over the list as it stands), then press next twice: the window ends on the last sample and both uploads,
    and storage holds just the uploads.
   */
  method MountUploadAndPage(r1: Image, r2: Image)
    requires NoSamples([r1, r2])
  {
    var page := new ProfileLayout(None);
    page.LoadImages();
    assert page.images == SampleImages;
    page.HandleNext();
    assert page.currentIndex == 0;
    page.OnReaderLoad(page.images, Some(r1.src), r1.id, true);
    page.OnReaderLoad(page.images, Some(r2.src), r2.id, true);
    var listed := page.images;
    assert listed == SampleImages + [r1, r2];
    RoundTrip([r1, r2]);
    assert page.stored == Some(Records([r1, r2]));
    page.HandleNext();
    page.HandleNext();
    page.HandleNext();
    assert page.currentIndex == 2;
    assert page.images == listed;
    var shown := page.VisibleImages();
    assert |shown| == 3;
    assert shown[0] == listed[2] == SampleImages[2];
    assert shown[1] == listed[3] == r1;
    assert shown[2] == listed[4] == r2;
  }

  /**
    Two files picked together over the list `page.images`, both saves
    succeeding: the record that completes first is gone from the list and from
    storage.
   */
  method TwoFileBatchBothSaved(page: ProfileLayout, r1: Image, r2: Image)
    requires r1 != r2 && r1 !in page.images
    modifies page
    ensures page.images == old(page.images) + [r2] && r1 !in page.images
    ensures page.stored == Some(Records(UserImages(old(page.images) + [r2])))
    ensures r1 !in page.stored.value.images
  {
    var snapshot := page.images;
    page.OnReaderLoad(snapshot, Some(r1.src), r1.id, true);
    page.OnReaderLoad(snapshot, Some(r2.src), r2.id, true);
  }

  /**
    The same batch when the later save fails: the first record is gone from the
    list but storage still holds it, so a reload brings it back.
   */
  method TwoFileBatchLaterSaveFails(page: ProfileLayout, r1: Image, r2: Image)
    requires r1 != r2 && r1 !in page.images && !IsSample(r1)
    modifies page
    ensures page.images == old(page.images) + [r2] && r1 !in page.images
    ensures page.stored == Some(Records(UserImages(old(page.images) + [r1])))
    ensures r1 in page.stored.value.images && r1 in Loaded(page.stored)
  {
    var snapshot := page.images;
    page.OnReaderLoad(snapshot, Some(r1.src), r1.id, true);
    page.OnReaderLoad(snapshot, Some(r2.src), r2.id, false);
    assert r1 in snapshot + [r1];
  }

  /**
    An upload whose save fails stays visible for the session but is gone after
    a reload, which rebuilds the list from what storage still holds.
   */
  method FailedSaveThenReload(r: Image)
  {
    var page := new ProfileLayout(None);
    page.LoadImages();
    page.AppendUpload(Some(r.src), r.id, false);
    assert |page.images| == |SampleImages| + 1;
    assert page.images[|SampleImages|] == r;
    var reloaded := new ProfileLayout(page.stored);
    reloaded.LoadImages();
    assert reloaded.images == SampleImages;
  }

  /**
    A stale snapshot breaks the paging invariant. A first batch of two files
    closes over the samples; one of its files completes, a second batch closes
    over that longer list and completes, and the user pages forward twice. The
    first batch's other file then installs its older, shorter snapshot: the
    index is past the last full window and only two records are shown.
   */
  method StaleSnapshotBreaksPaging(a: Image, b: Image, c: Image) returns (page: ProfileLayout)
    ensures |page.images| == |SampleImages| + 1 && page.currentIndex == 2
    ensures !page.Valid()
    ensures |page.VisibleImages()| == 2
  {
    page := new ProfileLayout(None);
    page.LoadImages();
    var batch1 := page.images;
    page.OnReaderLoad(batch1, Some(a.src), a.id, true);
    var batch2 := page.images;
    page.OnReaderLoad(batch2, Some(c.src), c.id, true);
    page.HandleNext();
    page.HandleNext();
    page.OnReaderLoad(batch1, Some(b.src), b.id, true);
  }
}
