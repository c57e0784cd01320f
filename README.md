# Profile gallery state, in Dafny

A model of the gallery state kept by the `ProfileLayout` page component. The
component has three parts:

- **The persisted list.** At mount, the in-memory list is the three fixed sample
  images followed by the user records stored under the browser-storage key
  `gallery-images`. If nothing usable is stored, the list is the samples alone.
  Saving writes back only the records whose `src` is not a sample's `src`.
- **Uploads.** Each file's reader callback installs the list it closed over,
  plus one new record, and then saves that list. A failed save is swallowed.
  The in-memory list is not rolled back.
- **Paging.** A start index `currentIndex` selects a window of three records.
  The previous button moves the index back one step and the next button moves it
  forward one step. Each button is disabled exactly when its handler would
  change nothing.

Files:

- `gallery_store.dfy` (module `GalleryStore`): records, samples, the sample/user
  partition (`UserImages`), the stored value, the mount-time list (`Loaded`),
  and the save/load round trip.
- `paging.dfy` (module `Paging`): the index bound `MaxIndex`, the two index
  updates, the JavaScript `slice`, the window, and the range invariant.
- `uploads.dfy` (module `Uploads`): one callback's append to its snapshot, and
  what a multi-file batch leaves behind (see Findings).
- `profile.dfy` (module `Profile`): the class `ProfileLayout`. Its fields are
  `images`, `currentIndex` and `stored`, and its methods overwrite them as the
  component's handlers do. `Valid()` is the paging invariant
  `currentIndex <= max(0, |images| - 3)`. The two button guards are predicates
  of the class. Client methods walk through scenarios: mount, upload and page;
  a failed save followed by a reload; and a two-file batch, with the later save
  succeeding or failing.

Storage is modelled as `Option<StoredValue>`, where `None` means the key is
absent. `StoredValue` has three cases:

- `EmptyText`: the empty string, which the load treats as nothing stored.
- `Records(u)`: text that parses to an array of records.
- `Unreadable`: any read that throws. This covers a parse error, the spread of
  a parsed value that is not iterable (null, a number, a boolean, an object),
  and the storage access itself.

The save writes `Records(UserImages(list))`. A storage write that throws is the
parameter `writeOk == false`. The record id (a JavaScript number) is an opaque
`real` parameter.

In two places the code does less than the gallery is meant to do, and the model
follows the code:

- Next is not a clamp `min(index + 1, max(0, len - 3))`. The code never
  moves the index down. It leaves an index above `max(0, len - 3)` where it is.
  `Paging.Next` and `ProfileLayout.HandleNext` model the code.
- Not every file of a multi-file upload is appended. The code keeps only one
  (see Findings).

## Model

| member | source | states |
|---|---|---|
| GalleryStore.IsSample | app/page.tsx:48 | A record is a sample exactly when its `src` is one of `/sample1.jpg`, `/sample2.jpg`, `/sample3.jpg`. |
| GalleryStore.UserImages | app/page.tsx:47-49 | The persisted list holds exactly the input records whose `src` is not a sample's. It has no sample records, keeps the input's order (it is a subsequence) and is no longer than the input. |
| GalleryStore.UserImagesAppend | app/page.tsx:47-49 | Filtering a concatenation gives the concatenation of the filtered parts. So the user records keep their relative order. |
| GalleryStore.UserImagesIdentity | app/page.tsx:47-49 | A list is persisted unchanged if and only if none of its records has a sample `src`. |
| GalleryStore.UserImagesIdempotent | app/page.tsx:47-49 | Filtering twice gives the same result as filtering once. |
| GalleryStore.SamplesNotPersisted | app/page.tsx:16-20 | Filtering the three samples leaves nothing, so no sample is ever written to storage. |
| GalleryStore.Serialized | app/page.tsx:47-50 | The value a save writes is a record list. It has no sample records, keeps the list's order, and holds every non-sample record of the list. |
| GalleryStore.Loaded | app/page.tsx:29-42 | The mount-time list always starts with the three samples in order. If the stored value parses to a record list U, the samples are followed by U in stored order. If the key is absent, empty or unreadable, the list is the samples alone. |
| GalleryStore.ReloadAfterSave | app/page.tsx:31-34 | Reloading after a save gives the samples followed by the saved list's user records. |
| GalleryStore.UserImagesAfterSamples | app/page.tsx:34 | The samples at the head of a loaded list add nothing to what a save persists. |
| GalleryStore.SaveAfterLoad | app/page.tsx:44-50 | Saving the list just loaded persists the stored user list, minus any records with a sample `src`. If nothing usable was stored, it persists an empty list. |
| GalleryStore.RoundTrip | app/page.tsx:29-54 | If no record of U has a sample `src`, saving `samples ++ U` persists exactly U, and reloading rebuilds `samples ++ U`. |
| Paging.MaxIndex | app/page.tsx:82 | `max(0, len - 3)` is the start of the last full window when `len >= 3`, and 0 otherwise. |
| Paging.Previous | app/page.tsx:76-78 | The index moves back by at most one step. It stays the same exactly when it is 0. |
| Paging.Next | app/page.tsx:80-84 | The index moves forward by at most one step. It stays the same exactly when it is at or beyond `max(0, len - 3)`. From an in-range index it never goes past that bound. |
| Paging.Slice | app/page.tsx:86 | JavaScript `slice` with non-negative bounds. The result's length is the clamped range length, and its elements are the source elements starting at `begin`. |
| Paging.Window | app/page.tsx:86 | The window is the contiguous run starting at the index, of length `min(3, len - index)`. It is empty when the index is at or past the end. |
| Paging.FullWindow | app/page.tsx:86 | From an in-range index on a list of at least three records, the window is exactly three records, `s[index..index+3]`. |
| Paging.WindowShowsAvailable | app/page.tsx:86 | From an in-range index, the window shows `min(3, len)` records. |
| Paging.HandlersKeepRange | app/page.tsx:76-84 | Both handlers keep an in-range index in range. |
| Paging.GrowthKeepsRange | app/page.tsx:64-68 | A list that only grows keeps an in-range index in range. |
| Paging.NextSaturates | app/page.tsx:80-84 | From an in-range index, n clicks on next reach `min(index + n, max(0, len - 3))`. |
| Uploads.AppendToSnapshot | app/page.tsx:62-67 | A string reader result gives the snapshot followed by `{id, src}`. The length grows by one, the prefix is the unchanged snapshot and the new record's `src` is the decoded string. Any other result installs nothing. |
| Uploads.BatchAsWritten | app/page.tsx:59-69 | A batch whose callbacks all closed over one snapshot ends with the snapshot plus exactly one record, however many files completed. An empty batch changes nothing. |
| Uploads.BatchAsWrittenKeepsLast | app/page.tsx:59-69 | However many files of a batch complete, the list ends as the shared snapshot plus only the record that completed last. |
| Uploads.TwoFileBatchLosesFirst | app/page.tsx:59-69 | With two files in a batch, the record that completes first is in neither the final list nor the payload of the last save. |
| Uploads.BatchAppended | app/page.tsx:59-69 | Corrected batch: the list grows by one record per completion, and the old list stays as its prefix. |
| Uploads.BatchAppendedKeepsAll | app/page.tsx:59-69 | Corrected behaviour: appending each completion to the current list keeps every record, after the old list and in completion order. |
| Profile.ProfileLayout.constructor | app/page.tsx:12-14 | The first render has an empty list and index 0, so the paging invariant holds. |
| Profile.ProfileLayout.LoadImages | app/page.tsx:29-42 | `images` becomes `Loaded(stored)`, which starts with the samples. The index is untouched, so from index 0 the invariant holds. |
| Profile.ProfileLayout.SaveImages | app/page.tsx:44-54 | On a successful write, storage holds the user records of the list, and a reload gives the samples followed by them. A failed write leaves storage as it was. |
| Profile.ProfileLayout.OnReaderLoad | app/page.tsx:61-70 | A string result installs `snapshot ++ [{id, src}]` whether or not the save succeeds, and a successful save stores its user records. Any other result changes nothing. The paging invariant is kept when the snapshot is at least as long as the current list. |
| Profile.ProfileLayout.AppendUpload | app/page.tsx:61-70 | Corrected callback: it appends to the current list, saves as above, and always keeps the paging invariant. |
| Profile.ProfileLayout.HandlePrevious | app/page.tsx:76-78 | The index decreases by one when it is positive, and is unchanged at 0. The invariant is kept. |
| Profile.ProfileLayout.HandleNext | app/page.tsx:80-84 | The index increases by one only below `max(0, len - 3)`, and is otherwise unchanged. The invariant is kept. |
| Profile.ProfileLayout.VisibleImages | app/page.tsx:86 | The visible records are the run starting at `currentIndex`. Under the invariant there are `min(3, len)` of them, and exactly `images[currentIndex..currentIndex+3]` when `len >= 3`. |
| Profile.ProfileLayout.PreviousButtonDisabled | app/page.tsx:195 | The previous button is disabled if and only if a click leaves the index unchanged. |
| Profile.ProfileLayout.NextButtonDisabled | app/page.tsx:214 | The next button is disabled if and only if a click leaves the index unchanged. |
| Profile.TwoFileBatchBothSaved | app/page.tsx:59-69 | Two callbacks over one snapshot S, both saves succeeding: the list is S ++ [r2], and storage holds the user records of S ++ [r2], without r1. |
| Profile.TwoFileBatchLaterSaveFails | app/page.tsx:59-69 | The same batch when the later save throws: r1 is gone from the list, but storage holds the user records of S ++ [r1], so a reload shows r1 again. |
| Profile.StaleSnapshotBreaksPaging | app/page.tsx:61-68 | A callback from an older batch that completes after a newer batch and two clicks on next installs a shorter list: the index is then past `max(0, len - 3)` (the invariant fails) and only two records are visible. |

## Left out

- Rendering is not modelled. This covers the JSX markup, styling, icons, the image component and the placeholder grid shown for an empty list. None of it affects state.
- The tab selection (`activeTab`, `tabs`) is not modelled. It is a single string with no derived logic.
- Browser storage access and JSON text are abstracted to `StoredValue`. A parsed payload is not validated, and one that spreads without throwing but is not an array of records (for example a JSON string) is not modelled. A `getItem` that throws is folded into `Unreadable`, because it takes the same catch branch.
- `FileReader` decoding and the order in which a batch's callbacks complete are left out. Each callback is one synchronous step. The completion order is the `recs` parameter of the batch functions.
- Id generation from the clock plus a random fraction is left out. The id is a parameter, and its uniqueness is not modelled.
- Console logging is left out.
- React state-hook mechanics (re-render, closure capture) are left out. The hooks are replaced by the fields of `ProfileLayout`. The captured `images` of an upload callback is the explicit `snapshot` parameter.

## Findings

| source | as written | input that shows it | evidently intended | confidence | as-written member | corrected member |
|---|---|---|---|---|---|---|
| app/page.tsx:59-69 | The file input accepts `multiple` files. Every reader callback of the batch builds `[...images, rec]` from the same `images` snapshot, taken when the input fired. | Two files picked together over list S, completing with records r1 then r2. The list ends as S ++ [r2], so r1 is lost from memory, and from storage when the later save succeeds. If the later save fails, storage still holds r1 and a reload brings it back. | Each completion appends to the list as it then stands, ending with S ++ [r1, r2]. | not executed; high | Uploads.TwoFileBatchLosesFirst | Uploads.BatchAppendedKeepsAll |
| app/page.tsx:61-68 | A reader callback installs `[...images, rec]` from the list it closed over, even when the list has since grown. | Mount over the three samples; batch 1 (files a, b) and batch 2 (file c) are picked; a completes, then c, over the list with a; next is pressed twice (index 2 of 5); b completes. The list is the samples plus b (4 records), the index 2 is past `max(0, 4 - 3) = 1`, and the window shows 2 records. | Each completion appends to the current list, so the list never shrinks and the index stays within `max(0, len - 3)`. | not executed; high | Profile.StaleSnapshotBreaksPaging | Profile.ProfileLayout.AppendUpload |

The second row is the same stale snapshot seen from the paging index.
`ProfileLayout.OnReaderLoad` keeps the invariant only when the snapshot is at
least as long as the current list; `ProfileLayout.AppendUpload` keeps it always.
