# Question encoder and result selection of the prediction backend

The backend answers `POST /predict` with a class and a confidence for the
user's question. Its logic lives in two functions of `backend/app.py`:

- `preprocess_input` splits the question on runs of whitespace
  (`str.split()`), maps every token through the vocabulary `word_index`
  (unknown tokens become 0), and hands the one resulting row to Keras'
  `pad_sequences` with `maxlen=100` and `padding="post"`. The result is a
  batch of one row of exactly 100 indices.
- `run_model` feeds that batch to the classifier and reports
  `np.argmax` and `np.max` of the first prediction row.

This project models both as Dafny functions and proves what they promise:

- `pystr.dfy` (module `PyStr`) is Python's `str.split()` with Python's
  whitespace set. It proves that tokens are non-empty and hold no
  whitespace, that a run of whitespace of any length separates tokens,
  that leading and trailing whitespace give no tokens, and that splitting
  inverts `" ".join`.
- `keraspad.dfy` (module `KerasPad`) is the part of `pad_sequences` the
  call uses. It relies on one assumption about the library: only `padding`
  is passed, so truncation follows the Keras default `truncating="pre"`.
  An over-long row keeps its LAST `maxlen` entries.
- `numpyreduce.dfy` (module `NumpyReduce`) holds `np.argmax` (first index
  of the maximum) and `np.max` over one row.
- `app.dfy` (module `App`) holds `preprocess_input`, the selection in
  `run_model` and `run_model` itself. The vocabulary is a parameter,
  because it is loaded once and never changed. `model.predict` is a
  function parameter, because the classifier is opaque.
- `errors.dfy` (module `Errors`) turns the exceptions that can escape
  into a `Result`.

Two facts about the code are worth stating plainly:

- No cap is applied to stored indices: every index stored in `word_index`
  passes through unchanged (`PreprocessIndicesFromVocabulary`).
- `truncating` is left at its Keras default `"pre"`, so an over-long row
  keeps its last `max_length` indices (`PreprocessKeepsLastTokens`).

Edge cases taken from the code and the libraries it calls:

- `pad_sequences` skips an empty row, so blank text encodes to all zeros.
- With `maxlen=0`, Python's slice `s[-0:]` is the whole row. numpy
  broadcasts a one-entry row into the width-zero output, so one token gives
  an empty row. Copying a row of two or more entries raises. `PreprocessInput` reports
  this as `BroadcastError`. `run_model` always passes 100, so it never
  hits this case.
- `np.argmax` on an empty prediction raises, and so does taking row 0 of a
  prediction with no rows. Both are reported as `EmptyPrediction`.

## Model

| member | source | states |
|---|---|---|
| PyStr.Split | backend/app.py:43 | every token `text.split()` returns is non-empty and free of whitespace |
| PyStr.Word | backend/app.py:43 | the next token is the longest whitespace-free prefix: it stops exactly at the first whitespace character or at the end of the text |
| PyStr.SplitAtSpace | backend/app.py:43 | one whitespace character separates the tokens of the text before it from the tokens of the text after it |
| PyStr.SplitAtSpaceRun | backend/app.py:43 | a whitespace run of any non-zero length separates tokens exactly as one character does |
| PyStr.SplitDropsLeadingSpace | backend/app.py:43 | leading whitespace yields no token |
| PyStr.SplitDropsTrailingSpace | backend/app.py:43 | trailing whitespace yields no token |
| PyStr.SplitEmptyIffAllSpace | backend/app.py:43 | the text has no tokens if and only if it is empty or all whitespace |
| PyStr.SplitOfToken | backend/app.py:43 | a single whitespace-free non-empty word splits to just itself |
| PyStr.SplitJoin | backend/app.py:43 | splitting inverts joining with single spaces, for any list of valid tokens |
| PyStr.ConcatSplit | backend/app.py:43 | no character is lost except whitespace: the tokens concatenated equal the text with its whitespace removed |
| App.IndexOf | backend/app.py:46 | `word_index.get(word, 0)`: the stored index when the word is in the vocabulary, 0 otherwise; stated for every position of a token list by `App.LookupMapsEachToken` |
| App.Lookup | backend/app.py:46 | the list comprehension over the tokens; its length, order and per-token values are stated by `App.LookupMapsEachToken`, and its behaviour on suffixes by `App.LookupSuffix` |
| App.LookupMapsEachToken | backend/app.py:46 | the lookup has one entry per token, in order: the stored index when the token is in `word_index`, 0 otherwise |
| App.LookupSuffix | backend/app.py:46 | the lookup of the last tokens is the last part of the lookup of all tokens |
| KerasPad.KeepLast | backend/app.py:49 | `s[-maxlen:]` is a suffix of the row, of length `min(len, maxlen)`; with `maxlen` 0 it is the whole row |
| KerasPad.PadRow | backend/app.py:49 | a padded row succeeds exactly when the row has at most one entry or `maxlen > 0`; it is then `maxlen` long, holds a short row followed by zeros, and holds the last `maxlen` entries of a long row |
| KerasPad.PadSequences | backend/app.py:49 | the batch succeeds exactly when every row pads; it then has one padded row per input row, in order |
| App.PreprocessInput | backend/app.py:37-53 | the encoding fails only for `max_length` 0 with two or more tokens; otherwise it is one row of exactly `max_length` entries |
| App.PreprocessPadsAfterTokens | backend/app.py:43-49 | with at most `max_length` tokens, the first positions hold the tokens' indices in order and every later position is 0 |
| App.PreprocessKeepsLastTokens | backend/app.py:43-49 | with more than `max_length` tokens, the row is the lookup of the last `max_length` tokens |
| App.PreprocessBlankText | backend/app.py:43-49 | empty or whitespace-only text encodes to a row of `max_length` zeros |
| App.PreprocessIndicesFromVocabulary | backend/app.py:46-49 | every entry of the row is 0 or a value stored in `word_index`; no vocabulary-size cap is applied |
| NumpyReduce.ArgMax | backend/app.py:68 | `np.argmax` returns an index in range where the row is maximal and strictly above every earlier entry, so the lowest index wins ties |
| NumpyReduce.Max | backend/app.py:69 | `np.max` is an element of the row and no entry exceeds it |
| NumpyReduce.FirstMaxUnique | backend/app.py:68 | the first-maximum property determines the index uniquely |
| NumpyReduce.MaxAtArgMax | backend/app.py:68-69 | the confidence `np.max` reports is the score at the predicted class |
| App.SelectPrediction | backend/app.py:68-69 | the selection succeeds exactly when row 0 exists and is non-empty; the predicted class is the first index of the largest score and the confidence is the score there |
| App.RunModel | backend/app.py:56-74 | encoding with the default length always succeeds and gives the classifier one row of 100 indices; the result fails only on an empty prediction and otherwise reports the first argmax of row 0 and its score |

## Left out

- Flask routing, JSON parsing and the 400/500 error responses
  (`backend/app.py:77-98`): HTTP plumbing.
- Loading `FNCwithLSTM.h5` and `word_index.json` (`backend/app.py:13-34`):
  file I/O. The vocabulary is a parameter of type `map<string, int>`.
- `model.predict` (`backend/app.py:65`): an opaque TensorFlow call. It is a
  function parameter from a batch of rows to a batch of score rows.
- The `print` logging in the `except` blocks: I/O. Each exception is
  re-raised unchanged, so the model just returns the error.
- Floating-point scores: scores are `real`. NaN and rounding are not
  modelled, so `np.argmax`'s NaN behaviour is not captured.
- The classifier's output as a numpy array: it is a sequence of rows, and
  only row 0 is read. A numpy array cannot be ragged. The model does not
  state that the other rows have row 0's width.
- numpy raises `IndexError` for zero rows and `ValueError` for an empty
  row. The model does not tell these apart: both are `EmptyPrediction`.
- KerasPad.PadRow: does not model `pad_sequences`' cast to its default
  `dtype="int32"`. Indices are unbounded integers, so a stored index outside
  the 32-bit range is not narrowed or rejected.
- A negative `max_length` and a `max_length` of `None`: `max_length` is a
  `nat`. The only caller passes the default of 100.
- A question that is not a string (the JSON field can hold any value):
  the model takes a string.
- The front-end scripts and the mock backend under `frontend/`: DOM
  handling, `fetch` calls and a random mock classifier, with nothing to
  state.
