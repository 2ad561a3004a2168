# Augmentation selection and existence filter, modelled in Dafny

This project models the dictionary logic of a small dataset-preparation tool for a
basketball video-classification dataset. It has two scripts.

- `augment_videos.py`, function `augmentVideo`. It loads an annotation dictionary
  (video identifier to action code) and a label dictionary (action code to label name).
  It counts how often each label *name* occurs, so two codes that share a name are
  counted together. It keeps the names counted at most 2000 times. For every video
  whose name was kept, it adds four keys to a fresh dictionary: `<id>_rotate_30`,
  `<id>_rotate_330`, `<id>_translate_32_0` and `<id>_translate_-32_0`. Each new key
  maps to the video's action code. It also calls `rotateVideo`/`translateVideo` once
  per variant. Those calls write `output_dir + <key> + ".mp4"`.
- `filteration.py`, function `filter_annotation_by_folder`. It keeps the annotation
  entries whose file `<folder>/<id>.mp4` exists.

Modules, one per concern:

- `Wrappers` (`wrappers.dfy`): `Option` and `Result`.
- `Annotations` (`annotations.dfy`): `Entry`, a dictionary's items in iteration order.
  Also `Ids`, `DistinctIds`, `AsMap` (the dictionary the items denote) and the `Error`
  datatype for the two ways a run aborts.
- `Decimal` (`decimal.dfy`): Python's `str()` of an integer and `int()` of a numeral,
  with the round trip between them.
- `LabelCounts` (`label_counts.dfy`): the counting loop, the sort by count and the
  threshold filter (lines 28-37).
- `VideoTransforms` (`video_transforms.dfy`): the output names of `rotateVideo` and
  `translateVideo`, the rotation's early return, and the key suffixes.
- `AugmentVideos` (`augment_videos.dfy`): `keystoint`, the driver loop, and `augmentVideo`
  as a whole.
- `Filteration` (`filteration.dfy`): the existence filter.

How the source's state becomes Dafny state:

- A Python dictionary that the code iterates becomes a `seq<Entry>` of its items in order;
  its keys are distinct.
- `count_dict` becomes a `Tally`: a `map<string, int>` plus the insertion order of its
  keys. It is built by a `while` loop in `CountLabels`.
- `augmented_annotation` is a `map<string, int>` filled by the `for` loop in
  `SynthesizeAugmented`. Beside it the loop records `written`, the output paths the
  transform calls create, and `processed`, the progress counter `i`.
- Each loop is tied to a recursive specification function: `TallyOf`, `Synthesized` or
  `Produced`. The properties are lemmas about those functions.
- The file system becomes data:
  - `Storage.openable` is the set of source paths that `cv2.VideoCapture` can open.
  - The filter's `existing` is the set of paths for which `os.path.exists` holds.
  - `os.path.join` is a function parameter `join`, so the filter's lemmas hold for every
    join.

`translateVideo` has no open check. It creates its writer at augment_videos.py:107, and
its loop `while (video.isOpened())` (line 110) ends at once on a capture that did not
open. The model therefore records the translation outputs whether or not the source
opens. `rotateVideo` returns before creating its writer when the capture does not open
(lines 127-129), so its outputs are recorded only for sources that open.

## Model

| member | source | states |
|---|---|---|
| `LabelCounts.CountLabels` | augment_videos.py:28-33 | The counting loop fails with `UnknownAction(code)` exactly when some action code has no label, and the code is the one of the first such item. On success the keys are exactly the label names that occur. Each count is the number of items with that name, and is at least 1; by `OccurrencesCountKeys` that is also the number of dictionary keys whose code resolves to that name. The counts sum to the number of items, and the key order is the order of first occurrence. |
| `LabelCounts.TallyOfCounts` | augment_videos.py:28-33 | The incrementally built table has an entry for exactly the occurring names. Each entry counts that name's items and is at least 1. |
| `LabelCounts.TallyOfTotal` | augment_videos.py:28-33 | Every item adds exactly one to the sum of the counts, so the counts sum to the number of items. |
| `LabelCounts.TallyOfOrder` | augment_videos.py:28-33 | The table's keys are inserted in order of each name's first occurrence. |
| `LabelCounts.FirstSeenOrder` | augment_videos.py:28-33 | The insertion order is the order of first occurrence: every item carrying a later name of the list comes after some item carrying an earlier one. |
| `LabelCounts.TallyOf` | augment_videos.py:28-33 | The table after any prefix of the items: its key order lists exactly its keys, and every count is at least 1. |
| `LabelCounts.OccurrencesCountKeys` | augment_videos.py:29-33 | Counting items by name equals counting the keys `k` of the annotation dictionary with `labels_dict[annotation_dict[k]] == n`. |
| `LabelCounts.Occurrences` | augment_videos.py:30-33 | A name's count is positive exactly when the name occurs, and it never exceeds the number of items. |
| `LabelCounts.FirstSeen` | augment_videos.py:30-33 | The insertion order lists every occurring name exactly once. |
| `LabelCounts.Items` | augment_videos.py:35 | `count_dict.items()` lists, in insertion order, each key paired with its count, and nothing else. |
| `LabelCounts.InsertByCount` | augment_videos.py:35 | Inserting an item into a count-sorted list keeps it sorted, and adds exactly that item to its multiset. |
| `LabelCounts.SortByCount` | augment_videos.py:35 | `sorted(count_dict.items(), key=count)` is ascending by count and a permutation of the items. |
| `LabelCounts.KeepAtMost` | augment_videos.py:37 | A name is in `filtered_actions` exactly when some item has that name and a count of at most the threshold. |
| `LabelCounts.SelectionIff` | augment_videos.py:35-37 | After sorting and filtering, a name is kept exactly when it is counted and its count is at most the threshold. The bound is inclusive, and sorting changes no membership. |
| `LabelCounts.FilteredActions` | augment_videos.py:35-37 | `filtered_actions` never lists more names than were counted. Which names it lists is given by `SelectionIff`. |
| `LabelCounts.CountedSelection` | augment_videos.py:28-37 | With the table the counting loop builds, the set of kept names is exactly the names occurring at most `threshold` times (`SelectedNames`). |
| `Decimal.IntToString` | augment_videos.py:107 | `str(i)` is a literal `int()` accepts, and starts with a minus sign exactly when `i` is negative. Its value is given by `IntToStringRoundTrip`. |
| `Decimal.ParseInt` | augment_videos.py:161 | `int()` of a literal is at most 0 when the literal starts with a minus sign, and at least 0 otherwise. |
| `Decimal.NatToString` | augment_videos.py:107 | `str(n)` is a non-empty digit string. It starts with `0` exactly when `n == 0`, and `str(0)` is `"0"`, so there is never a leading zero. |
| `Decimal.ParseDigits` | augment_videos.py:161 | The value `int()` gives a string of ASCII digits, leading zeros allowed. By `ParseNatToString` it inverts `NatToString`. |
| `Decimal.ParseNatToString` | augment_videos.py:161 | Reading back the digits of `str(n)` gives `n`. |
| `Decimal.IntToStringRoundTrip` | augment_videos.py:161 | `int(str(i)) == i` for every integer, negative ones included. |
| `AugmentVideos.KeysToInt` | augment_videos.py:160-161 | `keystoint` succeeds exactly when every key is an integer literal. Otherwise it fails with the first key that is not. |
| `AugmentVideos.KeysToIntEntries` | augment_videos.py:24-25 | The converted map has one key per code denoted by a key of the file. Each code maps to the name of the last item with that code. |
| `AugmentVideos.KeysToIntReadsDumpedKeys` | augment_videos.py:24-25 | A label file whose keys are `str(code)` for distinct codes is read back as exactly the map from those codes to their names. |
| `VideoTransforms.RotateVideo` | augment_videos.py:123-137 | A writer is created exactly when the capture opens. Otherwise the call returns early and writes nothing. The file name starts with `output_dir + video_id + "_rotate_"` and ends with `.mp4`. |
| `VideoTransforms.TranslateVideo` | augment_videos.py:100-108 | A writer is always created, because there is no open check. Its file name starts with `output_dir + video_id + "_translate_"` and ends with `.mp4`. |
| `VideoTransforms.OutputNamesMatchKeys` | augment_videos.py:57-68 | Each of the four calls writes `output_dir + key + ".mp4"` for the key added beside it: for example, translate `(32, 0)` writes `<id>_translate_32_0.mp4`. The rotations write nothing when the capture does not open. |
| `VideoTransforms.AugmentedKey` | augment_videos.py:57-67 | Variant `j`'s key is `video_id + Suffixes[j]`. By `AugmentedKeyInjective` it determines both its video and its variant. |
| `VideoTransforms.AugmentedKeyInjective` | augment_videos.py:57-67 | No suffix ends another, so an augmented key determines both its video and its variant. |
| `AugmentVideos.SourcePath` | augment_videos.py:53 | The source path starts with `data_dir + video_id` and ends with `.mp4`, with nothing else between them. |
| `AugmentVideos.AddVariants` | augment_videos.py:57-67 | The four insertions for one video keep every earlier key and add at most four. By `AddVariantsKeys` the new keys are exactly the four suffixed keys, each mapped to the video's code, and every other entry is unchanged. |
| `AugmentVideos.VideoOutputs` | augment_videos.py:58-68 | One video's four transform calls write four files when its source opens and two when it does not. `VideoOutputPaths` gives their names. |
| `AugmentVideos.Synthesized` | augment_videos.py:52-68 | The driver adds at most four keys per video it walks. |
| `AugmentVideos.Produced` | augment_videos.py:52-68 | The driver's transform calls write at most four files per video it walks. |
| `AugmentVideos.SynthesizedKeys` | augment_videos.py:46-68 | The result starts empty and ends with exactly the keys `id + suffix`, for each chosen video and each of the four suffixes. No original key is copied in. |
| `AugmentVideos.SynthesizedValues` | augment_videos.py:57-67 | Each of a chosen video's four keys maps to that video's action code. |
| `AugmentVideos.SynthesizedSize` | augment_videos.py:54-68 | Exactly four entries are added for each chosen video, so the result has `4 * (number of chosen videos)` keys. |
| `AugmentVideos.KeysEndWithSuffix` | augment_videos.py:57-67 | Every key of the result ends with one of `_rotate_30`, `_rotate_330`, `_translate_32_0` and `_translate_-32_0`. |
| `AugmentVideos.NothingChosen` | augment_videos.py:54 | When no video's label name is chosen, the driver adds no key and calls no transform. |
| `AugmentVideos.VideoOutputPaths` | augment_videos.py:58-68 | One chosen video's calls write the output names of its four keys. The two rotation names are left out when the source does not open. |
| `AugmentVideos.ProducedPaths` | augment_videos.py:127-137 | The files written are exactly the output names `output_dir + id + suffix + ".mp4"` of the chosen videos, except the rotations of sources that do not open. |
| `AugmentVideos.WrittenFilesNameKeys` | augment_videos.py:107 | Every file written is named `output_dir + k + ".mp4"` for a key `k` of the synthesized annotation. |
| `AugmentVideos.SynthesizeAugmented` | augment_videos.py:46-71 | The driver loop's dictionary is `Synthesized` and its written files are `Produced`, both for the names in `filtered_actions`. The progress counter ends at the number of videos. |
| `AugmentVideos.AugmentVideo` | augment_videos.py:9-75 | A malformed label key aborts with that key, and a code with no label aborts with the first such code. Otherwise the run's annotation and files are `Synthesized` and `Produced` for the names seen at most 2000 times, and every video is counted once. |
| `AugmentVideos.MergedNamesExample` | augment_videos.py:28-37 | Two codes that share the name "dribble" are counted together. With a threshold of 1 nothing is selected, and the result is empty. |
| `Annotations.AsMap` | augment_videos.py:19-21 | The dictionary an item list denotes has exactly the items' identifiers as keys. The values are given by `AsMapOfDistinct`. |
| `Annotations.AsMapOfDistinct` | augment_videos.py:19-21 | In a dictionary's item list, every item's value is what its key maps to. |
| `Filteration.VideoFile` | filteration.py:5 | The path the filter tests: `os.path.join(video_folder, video_name + ".mp4")`, with the join as a parameter. `FilterAnnotationByFolder` and `FilterKeys` state which entries it keeps. |
| `Filteration.FilterAnnotationByFolder` | filteration.py:4-6 | An entry is kept exactly when it is an entry of the input and `join(folder, id + ".mp4")` exists. The result is never longer than the input, and every kept entry keeps its value. |
| `Filteration.FilterKeys` | filteration.py:5 | A key is kept exactly when it is a key of the input and its joined file path exists. So the result's keys are a subset of the input's keys. |
| `Filteration.FilterDistinct` | filteration.py:5 | Filtering a dictionary yields a dictionary, with no repeated key. |
| `Filteration.FilterAsMap` | filteration.py:5 | As a dictionary, the result is the input restricted to the keys whose file exists, with the original values. |
| `Filteration.FilterIdempotent` | filteration.py:4-6 | Filtering the result again against the same existing paths returns it unchanged. |
| `Filteration.FilterKeepsAll` | filteration.py:5 | When every video file exists, the result equals the input. |
| `Filteration.FilterKeepsNone` | filteration.py:5 | When no file exists, the result is empty. |
| `Filteration.OnlyPresentVideoKept` | filteration.py:4-6 | With only `dataset/examples/v1.mp4` present, `{"v1": 0, "v2": 1}` filters to `{"v1": 0}`. |

## Left out

- JSON loading and dumping (the `json.load` calls at augment_videos.py:20, 24 and filteration.py:14; the dumps at augment_videos.py:74-75 and filteration.py:21-22) are I/O. The `keystoint` hook passed at line 24 is modelled by `KeysToInt`. The loaded dictionaries are inputs and the dumped dictionary is the result `Augmentation.annotation`. Annotation values are taken to be integers.
- The order of keys in the dumped `augmented_annotation` is not modelled: the result is a `map`. The driver walks the videos in order, and `Produced` keeps the call order.
- Python's `int()` is modelled on an optional sign followed by ASCII digits. Surrounding whitespace, underscores and non-ASCII digits, which `int()` also accepts, are left out.
- `AugmentVideos.KeysToInt`: the second conversion at augment_videos.py:25 applies `int()` to keys that are already integers. It is the identity and is not modelled separately.
- All OpenCV work in `rotateVideo`/`translateVideo` is left out: capture, metadata, the codec, `getRotationMatrix2D`, `warpAffine` and the frame loops. It is a foreign library on floating-point pixel data. Each call is reduced to the path it creates a writer on. Whether the capture opens is given by `Storage.openable`.
- `VideoTransforms.TranslateVideo`: a writer requested on a capture that did not open has size 0x0 and fps 0. Whether OpenCV then creates a file is outside the model. The path still counts among the written paths.
- The error message `rotateVideo` prints (line 128), the `tqdm` progress bar and its percentage text (lines 47, 71), the unused `vidaug` import and the commented-out augmentor (lines 5, 40-44) are left out. They are cosmetic or dead.
- The commented-out duplicate `rotateVideo` (lines 77-98) is dead code.
- The default arguments `data_dir='dataset/examples/'` and `output_dir='dataset/augmented-examples/'` (augment_videos.py:9), and `translate=(0,0)` (line 100), are not modelled. The directories are the inputs `Storage.dataDir` and `Storage.outputDir`, and every call passes its offset explicitly.
- `Storage.openable` does not change during the run. A file the driver writes is never taken to become an openable source for a later video, which could matter when `output_dir` equals `data_dir`.
- `os.path.exists` and `os.path.join` are replaced by a set of existing paths and a join parameter. The set does not change during the call.
- The module-level code of filteration.py (lines 9-24) and the `__main__` block of augment_videos.py (lines 163-167) are pure I/O on fixed paths.
- `LabelCounts.SortByCount`: Python's `sorted` is stable. The model sorts stably, but only sortedness and permutation are proved, because only membership in `filtered_actions` is used later.
