/**
  The gallery's records, the fixed sample images, the sample/user partition that
  decides what is persisted, and the list rebuilt from the stored value at mount.
 */
module GalleryStore {

  datatype Option<T> = None | Some(value: T)

  /** A JavaScript number; the model never computes with it. */
  type ImageId = real

  /** One gallery entry: a static asset path or a data URI in `src`. */
  datatype Image = Image(id: ImageId, src: string)

  /** The three built-in images, always first in the in-memory list. */
  const SampleImages: seq<Image> :=
    [Image(1.0, "/sample1.jpg"), Image(2.0, "/sample2.jpg"), Image(3.0, "/sample3.jpg")]

  /** A record counts as a sample exactly when its `src` equals some sample's `src`. */
  predicate IsSample(img: Image)
    ensures IsSample(img) <==> img.src in {"/sample1.jpg", "/sample2.jpg", "/sample3.jpg"}
  {
    exists s :: s in SampleImages && s.src == img.src
  }

  /** No record of `images` has a sample `src`. */
  predicate NoSamples(images: seq<Image>) {
    forall k :: 0 <= k < |images| ==> !IsSample(images[k])
  }

  /** `r` is `s` with some elements removed, the rest in their original order. */
  ghost predicate SubsequenceOf<T>(r: seq<T>, s: seq<T>)
    decreases |s|
  {
    if r == [] then true
    else if s == [] then false
    else if r[0] == s[0] then SubsequenceOf(r[1..], s[1..])
    else SubsequenceOf(r, s[1..])
  }

  /**
    The records `saveImages` persists: the input without the records whose `src`
    is a sample's.
   */
  function UserImages(images: seq<Image>): (r: seq<Image>)
    ensures |r| <= |images|
    ensures NoSamples(r)
    ensures forall img :: img in r <==> img in images && !IsSample(img)
    ensures SubsequenceOf(r, images)
  {
    if images == [] then []
    else if IsSample(images[0]) then
      var rest := UserImages(images[1..]);
      assert rest == [] || rest[0] != images[0] by {
        if rest != [] { assert rest[0] in rest; }
      }
      rest
    else
      var rest := UserImages(images[1..]);
      assert ([images[0]] + rest)[1..] == rest;
      [images[0]] + rest
  }

  /** Filtering distributes over concatenation, so order is kept piece by piece. */
  lemma {:induction false} UserImagesAppend(a: seq<Image>, b: seq<Image>)
    ensures UserImages(a + b) == UserImages(a) + UserImages(b)
    decreases |a|
  {
    if a == [] {
      assert a + b == b;
    } else {
      assert (a + b)[0] == a[0];
      assert (a + b)[1..] == a[1..] + b;
      UserImagesAppend(a[1..], b);
    }
  }

  /** A list with no sample records is persisted unchanged, and only such a list is. */
  lemma {:induction false} UserImagesIdentity(images: seq<Image>)
    ensures UserImages(images) == images <==> NoSamples(images)
    decreases |images|
  {
    if images != [] {
      UserImagesIdentity(images[1..]);
      if UserImages(images) == images {
        assert forall k :: 0 <= k < |images| ==> images[k] in UserImages(images);
      }
    }
  }

  /** Partitioning twice gives the same user records as partitioning once. */
  lemma UserImagesIdempotent(images: seq<Image>)
    ensures UserImages(UserImages(images)) == UserImages(images)
  {
    UserImagesIdentity(UserImages(images));
  }

  /** None of the samples is ever persisted. */
  lemma SamplesNotPersisted()
    ensures UserImages(SampleImages) == []
  {
    assert IsSample(SampleImages[0]) && IsSample(SampleImages[1]) && IsSample(SampleImages[2]);
    assert SampleImages[1..][1..] == [SampleImages[2]];
  }

  /**
    What the `gallery-images` key holds, as the mount-time load reads it.
    `EmptyText` is the empty string (falsy); `Records` is text that parses to an
    array of records; `Unreadable` covers every read that throws (the parse, the
    spread of a non-array, or the storage access itself).
   */
  datatype StoredValue = EmptyText | Records(images: seq<Image>) | Unreadable

  /** The value `saveImages` writes: the user records of the list, serialized. */
  function Serialized(images: seq<Image>): (v: StoredValue)
    ensures v.Records? && NoSamples(v.images) && SubsequenceOf(v.images, images)
    ensures forall img :: img in images && !IsSample(img) ==> img in v.images
  {
    Records(UserImages(images))
  }

  /** The list installed at mount for the stored value `stored` (None: key absent). */
  function Loaded(stored: Option<StoredValue>): (r: seq<Image>)
    ensures |r| >= |SampleImages| && r[..|SampleImages|] == SampleImages
    ensures stored.Some? && stored.value.Records? ==> r[|SampleImages|..] == stored.value.images
    ensures !(stored.Some? && stored.value.Records?) ==> r == SampleImages
  {
    match stored
    case Some(Records(userImages)) => SampleImages + userImages
    case _ => SampleImages
  }

  /** Saving a list and loading again gives the samples followed by its user records. */
  lemma ReloadAfterSave(images: seq<Image>)
    ensures Loaded(Some(Serialized(images))) == SampleImages + UserImages(images)
  {
  }

  /** Whatever follows the samples in a list, only it can be persisted. */
  lemma UserImagesAfterSamples(u: seq<Image>)
    ensures UserImages(SampleImages + u) == UserImages(u)
  {
    SamplesNotPersisted();
    UserImagesAppend(SampleImages, u);
  }

  /** Saving what was loaded persists the stored user list minus any sample records in it. */
  lemma SaveAfterLoad(stored: Option<StoredValue>)
    ensures stored.Some? && stored.value.Records? ==>
      UserImages(Loaded(stored)) == UserImages(stored.value.images)
    ensures !(stored.Some? && stored.value.Records?) ==> UserImages(Loaded(stored)) == []
  {
    if stored.Some? && stored.value.Records? {
      UserImagesAfterSamples(stored.value.images);
    } else {
      SamplesNotPersisted();
    }
  }

  /**
    Round trip: when no user record has a sample `src`, saving `SampleImages + u`
    persists exactly `u`, and reloading rebuilds the same list.
   */
  lemma RoundTrip(u: seq<Image>)
    requires NoSamples(u)
    ensures Serialized(SampleImages + u) == Records(u)
    ensures Loaded(Some(Serialized(SampleImages + u))) == SampleImages + u
  {
    UserImagesAfterSamples(u);
    UserImagesIdentity(u);
  }
}
