# DeepBloom, modelled in Dafny

DeepBloom is a learned membership filter. A trained scorer answers most queries. A Bloom filter,
used as a backstop, holds the positives that the scorer would wrongly reject. The model covers four
parts of the repository:

- the hybrid filter controller `DeepBloom` (lib/DeepBloom.py). It calibrates a threshold on held-out
  negatives, collects the false negatives, fills the backstop, and answers `check` in two stages;
- the test scorer `AlmostPerfectModel` (lib/AlmostPerfectModel.py);
- the dataset cleaning of data/generate_dataset.py;
- the character encoding and the save/load parameter list of `CNNModel` (lib/CNNModel.py).

Files: `wrappers.dfy` (Option, Result), `sequences.dfy` (filter, map, set-of, no-duplicates and their
lemmas), `calibration.dfy` (threshold selection), `backstop.dfy` (the Bloom filter interface),
`deep_bloom.dfy` (the controller), `almost_perfect_model.dfy`, `generate_dataset.dfy`, `cnn_model.dfy`.

Headline result: `DeepBloom.Check` returns true for every positive the filter was built from. This
holds for any trained scorer, because `predict` is a function, and for any hashing of the backstop,
because the backstop reports every added item.

Modelling choices:

- The negatives are split two ways (lib/DeepBloom.py:39), and the calibration index is
  `ceil(len(s2)*(1 - fp_rate/2))` (lib/DeepBloom.py:48). That index equals
  `len(s2) - floor(len(s2)*fp_rate/2)`, so reading it raises IndexError whenever
  `len(s2)*fp_rate/2 < 1`. The comment at lib/DeepBloom.py:46-47 asks only that at most
  `len(s2)*fp_rate/2` scores lie above the threshold, which the maximum score would also satisfy
  in that case; the model follows the code.
- A model's `fit` is a `Trainer`. It maps the training items and labels to a deterministic
  `predict` function. Scores and `fp_rate` are exact reals, so `math.ceil` is an exact ceiling.
- `split_negatives` and `shuffle_for_training` are not modelled. Their results are passed to the
  constructor, which requires that they are a split of the negatives without reuse and a
  permutation of the labelled training pairs.
- The numbered list of the calibration scores is read with Python's indexing. `PyIndex` lets a
  negative `fp_index` (a rate above 2) count from the end, and any other out-of-range index raises
  IndexError. When lib/DeepBloom.py:51 raises, the constructed object keeps `threshold == None` and has no
  backstop. No `Check` can be asked of it.
- `list.sort()` is modelled by a functional insertion sort, proved sorted and a permutation.
- The `BloomFilter` class is not modelled. It is modelled by its interface: the set of added
  items, plus an uninterpreted `collision` that says which other items happen to test positive.
- `mmh3.hash`, `str.lower` and the contents of each category's `domains` file are uninterpreted
  function parameters.

## Model

| member | source | states |
|---|---|---|
| `DeepBloomFilter.DeepBloom.constructor` | lib/DeepBloom.py:8-13 | Trains the model on the shuffled set. Sets the threshold to the calibrated order statistic. If that index is in range, the object is built (`Valid`) from `data.positives`, and its backstop has capacity = number of false negatives and rate = fp_rate/2. Otherwise there is no backstop. |
| `DeepBloomFilter.DeepBloom.Fit` | lib/DeepBloom.py:37-51 | `predict` becomes the model fitted on the shuffled training set. `ok` holds exactly when `sorted(predictions of s2)[fp_index]` exists. The threshold is that element, or is left unchanged when the indexing raises. |
| `DeepBloomFilter.DeepBloom.CreateBloomFilter` | lib/DeepBloom.py:21-33 | A fresh backstop with capacity `len(false_negatives)` and rate `fp_rate/2`. Its added items are exactly the false negatives. Scorer and threshold are unchanged. |
| `DeepBloomFilter.DeepBloom.Check` | lib/DeepBloom.py:15-19 | True for every positive the filter was built from. True without the backstop when the score is above the threshold. Otherwise exactly the backstop's answer. |
| `DeepBloomFilter.Predictions` | lib/DeepBloom.py:49 | One score per calibration item, the model's score of that item. |
| `DeepBloomFilter.FalseNegatives` | lib/DeepBloom.py:22-25 | The positives with `predict(p) <= threshold`, in order: an item is in the list exactly when it is a positive scoring at or below the threshold. |
| `DeepBloomFilter.FalseNegativesExact` | lib/DeepBloom.py:22-25 | The false negatives hold every occurrence of a positive scoring `<=` threshold and nothing else (multiplicity and membership, both directions). |
| `DeepBloomFilter.NoFalseNegatives` | lib/DeepBloom.py:21-33 | Every positive either scores above the threshold or is among the items added to the backstop. |
| `Calibration.FpIndex` | lib/DeepBloom.py:48 | `fp_index` is the least integer not below `len(s2) - len(s2)*fp_rate/2`. |
| `Calibration.Sort` | lib/DeepBloom.py:50 | `predictions.sort()`: the result has as many scores as the input (order and permutation are in `SortSpec`). |
| `Calibration.Threshold` | lib/DeepBloom.py:48-51 | `sorted(predictions)[fp_index]` with Python indexing, None for the IndexError; defined exactly when `-len(s2) <= fp_index < len(s2)`. |
| `Calibration.Ceil` | lib/DeepBloom.py:48 | `math.ceil`: the least integer not below its argument. |
| `Calibration.PyIndex` | lib/DeepBloom.py:51 | Python list indexing: defined exactly for `-len <= i < len`, and a negative index counts from the end. |
| `Calibration.SortSpec` | lib/DeepBloom.py:50 | The sorted scores are ascending, a permutation of the scores, and of the same length. |
| `Calibration.ThresholdDefinedIff` | lib/DeepBloom.py:48-51 | The threshold exists exactly when `1 <= len(s2)*fp_rate/2 < 2*len(s2)+1`. |
| `Calibration.ThresholdDefinedForRate` | lib/DeepBloom.py:48-51 | For `0 <= fp_rate <= 2`, the threshold exists exactly when `len(s2)*fp_rate/2 >= 1`. |
| `Calibration.EmptyCalibrationFails` | lib/DeepBloom.py:48-51 | An empty calibration slice always raises IndexError. |
| `Calibration.CalibrationBound` | lib/DeepBloom.py:46-51 | Fewer than `len(s2)*fp_rate/2` calibration scores lie strictly above the threshold. If `fp_index >= 0`, at most `len(s2)-1-fp_index` do. |
| `Calibration.ThresholdIsCalibrationScore` | lib/DeepBloom.py:49-51 | The threshold is the score of some calibration item. |
| `Backstop.BloomFilter.constructor` | lib/DeepBloom.py:27-31 | An empty filter with the declared capacity, rate and hashing. |
| `Backstop.BloomFilter.Add` | lib/DeepBloom.py:32-33 | The added set grows by exactly the item. |
| `Backstop.BloomFilter.Check` | lib/DeepBloom.py:19 | True for every added item (no false negatives). For any other item, the hashing's collision verdict. |
| `AlmostPerfect.Numerator` | lib/AlmostPerfectModel.py:5-27 | The discrete score `n` lies in `[0, 1000)`. It is in the upper half for table members and for non-members with `hash % 1000 < fp_rate*1000`, and in the lower half otherwise. `n % 500 == hash % 500`. |
| `AlmostPerfect.LabelledPositives` | lib/AlmostPerfectModel.py:15-18 | The items `X[i]` with `y[i] == 1`: every such item is included, and nothing outside `X`. |
| `AlmostPerfect.AlmostPerfectModel.constructor` | lib/AlmostPerfectModel.py:11-13 | An empty table, with the given rate and hash. |
| `AlmostPerfect.AlmostPerfectModel.Fit` | lib/AlmostPerfectModel.py:15-18 | Succeeds exactly when `len(y) >= len(X)`. The table becomes its old contents plus exactly the `X[i]` labelled 1 among the items reached before any IndexError. |
| `AlmostPerfect.AlmostPerfectModel.Predict` | lib/AlmostPerfectModel.py:20-27 | A multiple of 1/1000 in `[0, 1)`. In `[0.5, 1)` for members. For non-members, in `[0.5, 1)` exactly when `hash % 1000 < fp_rate*1000`, else in `[0, 0.5)`. |
| `DatasetGeneration.NegativeCategories` | data/generate_dataset.py:19 | A category is negative exactly when it was found and is not a positive category. |
| `Sequences.DistinctIffSetSize` | data/generate_dataset.py:28 | `len(set(s)) == len(s)` exactly when `s` has no repeated element. |
| `DatasetGeneration.Gather` | data/generate_dataset.py:30-39 | Each category's URLs go to the positives or the negatives; together the two lists hold every URL of every category, with multiplicity. |
| `DatasetGeneration.GatherUrls` | data/generate_dataset.py:30-39 | The reading loop's result, category by category. |
| `DatasetGeneration.GatherSplits` | data/generate_dataset.py:28-39 | With distinct categories, the positives are the URLs of the positive categories and the negatives those of the negative ones. |
| `DatasetGeneration.Allowed` | data/generate_dataset.py:48-51 | A URL is allowed exactly when none of the disallowed characters occurs in it. |
| `DatasetGeneration.UrlAllowed` | data/generate_dataset.py:48-51 | True exactly when the URL contains none of the ten disallowed characters. |
| `DatasetGeneration.RemoveDisallowed` | data/generate_dataset.py:46-64 | The allowed URLs, in their original order. |
| `DatasetGeneration.RemoveDisallowedExact` | data/generate_dataset.py:46-64 | Every occurrence of an allowed URL is kept, and nothing else (both directions). |
| `DatasetGeneration.Clean` | data/generate_dataset.py:46-81 | Filter, lowercase, then `set`: the cleaned set has no more elements than the URL list. |
| `DatasetGeneration.CleanMembership` | data/generate_dataset.py:46-81 | A cleaned URL is exactly the lowercase image of some allowed URL. Filtering precedes lowercasing. |
| `DatasetGeneration.RemoveCrossDuplicates` | data/generate_dataset.py:86-90 | The negatives lose exactly the positives, the positives are untouched, and `count == len(positives & negatives)`. |
| `DatasetGeneration.ToShuffledList` | data/generate_dataset.py:93-97 | Every element of the set once, with no repeats, in an arbitrary order. |
| `DatasetGeneration.GenerateDataset` | data/generate_dataset.py:22-103 | Fails exactly when the assertion on repeated categories (data/generate_dataset.py:28) does. On success, the positives are the cleaned positive URLs and the negatives are the cleaned negative URLs minus the positives. Both are repeat-free, `count` is the size of the overlap, and the assertion that no URL is in both lists (data/generate_dataset.py:103) holds. |
| `CnnModel.Offset` | lib/CNNModel.py:118 | `offset + min(len(text), maxlen) == maxlen`. |
| `CnnModel.Encoding` | lib/CNNModel.py:117-123 | The reference row has length `maxlen`. |
| `CnnModel.EncodeText` | lib/CNNModel.py:116-125 | The row has length `maxlen`. Slots before the offset are 0. For `t < min(len, maxlen)`, slot `t+offset` holds the character's index, or 0 if the character is unknown. Later characters are dropped, and every write is in bounds. |
| `CnnModel.EncodeTexts` | lib/CNNModel.py:131-138 | Raises KeyError exactly when some text has an unknown character among its first `maxlen`. Otherwise row `i` is the single-text encoding of `texts[i]`. |
| `CnnModel.CNNModel.constructor` | lib/CNNModel.py:12-27 | Stores the fourteen configuration values. |
| `CnnModel.CNNModel.Save` | lib/CNNModel.py:142-145 | The thirteen fields of lib/CNNModel.py:144-145, in that order: the contract fixes the length 13 and the positions of `maxlen` (3) and `dense_only` (12); `kernel_size` is not among them. |
| `CnnModel.CNNModel.Load` | lib/CNNModel.py:147-161 | Field `k` becomes `info[k]` when present, and is otherwise unchanged. Succeeds exactly when `len(info) >= 13`. `kernel_size` is untouched. |
| `CnnModel.CNNModel.LoadSaved` | lib/CNNModel.py:142-161 | Loading what another model saved restores its thirteen fields in order and leaves `kernel_size` as it was. |

## Left out

- The `BloomFilter` class and its sizing, hashing and bit array are not part of this model. They are abstracted by the added set and an uninterpreted collision verdict. The invalid-parameter check that its constructor may perform is not modelled either.
- `utils` (`split_negatives`, `shuffle_for_training`, `string_digest`) is not part of this model. Their results or roles are parameters of the constructor.
- DeepBloomFilter.DeepBloom.constructor: when lib/DeepBloom.py:51 raises IndexError the Python constructor produces no object. The model produces an object with `threshold == None` and no backstop, and `Check` requires the built state.
- Calibration.Sort: `list.sort()` is a library routine that sorts in place. It is modelled as a function on the sequence of scores, not as an array algorithm.
- Floating point: scores, `fp_rate` and `fp_rate/2` are exact reals, and the ceiling at lib/DeepBloom.py:48 is exact.
- The Keras network: building and training it (lib/CNNModel.py:29-112), the call `self.model.predict` (lib/CNNModel.py:126-127, 139-140), `model.save` and `load_model` (lib/CNNModel.py:143, 162). The encoders return the rows they would pass to the network.
- CnnModel.CNNModel.constructor: the default argument values of lib/CNNModel.py:12 (`lr=0.001`, `maxlen=50`, ..., `kernel_size=3`) are not modelled; every value is passed explicitly.
- CnnModel.EncodeText: the `print` of an unknown character is not modelled.
- Randomness: `random.seed` and `random.shuffle` are modelled as an arbitrary order (`ToShuffledList`), and the shuffle for training as any label-carrying permutation.
- File system, JSON and prints in data/generate_dataset.py: the category walk (lines 9-17), the file-existence assertion (line 26), reading the files (lines 33-35, modelled by `domains`), the prints, and writing the JSON file (lines 105-106).
- `mmh3.hash` and `str.lower` are uninterpreted. Hashes are unbounded integers, which is harmless because only their non-negative remainders are used.
- AlmostPerfect.AlmostPerfectModel.Fit: labels are integers; a label that equals 1 only as another Python type (`1.0`, `True`) is not distinguished.
