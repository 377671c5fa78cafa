/** The prediction path of the backend: `preprocess_input` turns the user's
    question into a batch of one fixed-length row of vocabulary indices, the
    classifier scores it, and `run_model` reports the best class and its
    score. The vocabulary (`word_index`) is loaded once at start-up and never
    changed, so it is a parameter here; the classifier (`model.predict`) is an
    opaque function parameter. */
module App {
  import opened Errors
  import PyStr
  import KerasPad
  import NumpyReduce

  /** Default `max_length` of `preprocess_input`, the only value
      `run_model` uses. */
  const MaxLength: nat := 100

  /** The vocabulary: token to index. */
  type WordIndex = map<string, int>

  /** `word_index.get(word, 0)` */
  function IndexOf(wordIndex: WordIndex, word: string): int {
    if word in wordIndex then wordIndex[word] else 0
  }

  /** The list comprehension `[word_index.get(word, 0) for word in tokens]`. */
  function Lookup(tokens: seq<string>, wordIndex: WordIndex): seq<int> {
    seq(|tokens|, i requires 0 <= i < |tokens| => IndexOf(wordIndex, tokens[i]))
  }

  /** Each token maps, in order, to its stored index or, when it has none,
      to 0; nothing is capped or remapped. */
  lemma LookupMapsEachToken(tokens: seq<string>, wordIndex: WordIndex)
    ensures |Lookup(tokens, wordIndex)| == |tokens|
    ensures forall i :: 0 <= i < |tokens| && tokens[i] in wordIndex ==>
      Lookup(tokens, wordIndex)[i] == wordIndex[tokens[i]]
    ensures forall i :: 0 <= i < |tokens| && tokens[i] !in wordIndex ==>
      Lookup(tokens, wordIndex)[i] == 0
  {
  }

  /** Looking up a run of tokens is looking up each part: the lookup of the
      last tokens is the last part of the lookup. */
  lemma {:induction false} LookupSuffix(tokens: seq<string>, wordIndex: WordIndex, n: nat)
    requires n <= |tokens|
    ensures Lookup(tokens, wordIndex)[n..] == Lookup(tokens[n..], wordIndex)
  {
    var whole, tail := Lookup(tokens, wordIndex), Lookup(tokens[n..], wordIndex);
    assert |whole[n..]| == |tail|;
    forall i | 0 <= i < |tail| ensures whole[n..][i] == tail[i] {
      assert tokens[n..][i] == tokens[n + i];
    }
  }

  /** `preprocess_input(text, word_index, max_length)`: split on whitespace,
      look every token up, and pad or truncate the single row to
      `maxLength`. */
  function PreprocessInput(text: string, wordIndex: WordIndex, maxLength: nat): (r: Result<seq<seq<int>>>)
    ensures r.Ok? <==> (maxLength > 0 || |PyStr.Split(text)| <= 1)
    ensures r.Ok? ==> |r.value| == 1 && |r.value[0]| == maxLength
  {
    var tokens := PyStr.Split(text);
    var sequences := [Lookup(tokens, wordIndex)];
    KerasPad.PadSequences(sequences, maxLength)
  }

  /** Post padding: with at most `maxLength` tokens, the row starts with
      their indices in order and is 0 everywhere after. */
  lemma PreprocessPadsAfterTokens(text: string, wordIndex: WordIndex, maxLength: nat)
    requires |PyStr.Split(text)| <= maxLength
    ensures var tokens := PyStr.Split(text);
      var r := PreprocessInput(text, wordIndex, maxLength);
      && r.Ok?
      && (forall i :: 0 <= i < |tokens| ==> r.value[0][i] == IndexOf(wordIndex, tokens[i]))
      && (forall i :: |tokens| <= i < maxLength ==> r.value[0][i] == 0)
  {
    var tokens := PyStr.Split(text);
    var ids := Lookup(tokens, wordIndex);
    var row := KerasPad.PadRow(ids, maxLength).value;
    forall i | 0 <= i < |tokens| ensures row[i] == IndexOf(wordIndex, tokens[i]) {
      assert row[..|ids|][i] == ids[i];
    }
  }

  /** Pre truncation: with more than `maxLength` tokens, the row holds the
      indices of the LAST `maxLength` tokens, in order. */
  lemma PreprocessKeepsLastTokens(text: string, wordIndex: WordIndex, maxLength: nat)
    requires 0 < maxLength < |PyStr.Split(text)|
    ensures var tokens := PyStr.Split(text);
      var r := PreprocessInput(text, wordIndex, maxLength);
      r.Ok? && r.value[0] == Lookup(tokens[|tokens| - maxLength..], wordIndex)
  {
    var tokens := PyStr.Split(text);
    LookupSuffix(tokens, wordIndex, |tokens| - maxLength);
  }

  /** Empty or whitespace-only text encodes to a row of zeros. */
  lemma PreprocessBlankText(text: string, wordIndex: WordIndex, maxLength: nat)
    requires PyStr.AllSpace(text)
    ensures PreprocessInput(text, wordIndex, maxLength) == Ok([KerasPad.Zeros(maxLength)])
  {
    PyStr.SplitEmptyIffAllSpace(text);
    var r := PreprocessInput(text, wordIndex, maxLength);
    assert Lookup([], wordIndex) == [];
    assert r.value[0] == KerasPad.PadRow([], maxLength).value == KerasPad.Zeros(maxLength);
    assert r.value == [KerasPad.Zeros(maxLength)];
  }

  /** Every index in the row is 0 or an index stored in the vocabulary. */
  lemma PreprocessIndicesFromVocabulary(text: string, wordIndex: WordIndex, maxLength: nat)
    ensures var r := PreprocessInput(text, wordIndex, maxLength);
      r.Ok? ==> forall i :: 0 <= i < maxLength ==> r.value[0][i] == 0 || r.value[0][i] in wordIndex.Values
  {
    var tokens := PyStr.Split(text);
    var ids := Lookup(tokens, wordIndex);
    var r := PreprocessInput(text, wordIndex, maxLength);
    if r.Ok? {
      var row := r.value[0];
      forall i | 0 <= i < maxLength ensures row[i] == 0 || row[i] in wordIndex.Values {
        if |ids| <= maxLength {
          if i < |ids| {
            assert row[..|ids|][i] == ids[i];
            if tokens[i] in wordIndex {
              assert wordIndex[tokens[i]] in wordIndex.Values;
            }
          }
        } else {
          var k := |ids| - maxLength + i;
          assert row[i] == ids[k];
          if tokens[k] in wordIndex {
            assert wordIndex[tokens[k]] in wordIndex.Values;
          }
        }
      }
    }
  }

  /** What `run_model` returns: `predicted_class` and `confidence`. */
  datatype Prediction = Prediction(predictedClass: nat, confidence: real)

  /** `np.argmax(prediction, axis=-1)[0]` and `np.max(prediction, axis=-1)[0]`:
      the first index of the largest score in row 0, and that score. An empty
      prediction makes numpy raise. */
  function SelectPrediction(prediction: seq<seq<real>>): (r: Result<Prediction>)
    ensures r.Ok? <==> |prediction| > 0 && |prediction[0]| > 0
    ensures r.Ok? ==>
      && NumpyReduce.IsFirstMax(prediction[0], r.value.predictedClass)
      && r.value.confidence == prediction[0][r.value.predictedClass]
  {
    if |prediction| == 0 || |prediction[0]| == 0 then Err(EmptyPrediction)
    else
      var row := prediction[0];
      NumpyReduce.MaxAtArgMax(row);
      Ok(Prediction(NumpyReduce.ArgMax(row), NumpyReduce.Max(row)))
  }

  /** `run_model(input_text)`: encode with the default length, score with the
      classifier, select. */
  function RunModel(inputText: string, wordIndex: WordIndex, predict: seq<seq<int>> -> seq<seq<real>>): (r: Result<Prediction>)
    ensures PreprocessInput(inputText, wordIndex, MaxLength).Ok?
    ensures var batch := PreprocessInput(inputText, wordIndex, MaxLength).value;
      var prediction := predict(batch);
      && |batch| == 1 && |batch[0]| == MaxLength
      && (r.Ok? <==> |prediction| > 0 && |prediction[0]| > 0)
      && (r.Ok? ==> NumpyReduce.IsFirstMax(prediction[0], r.value.predictedClass))
      && (r.Ok? ==> r.value.confidence == prediction[0][r.value.predictedClass])
  {
    match PreprocessInput(inputText, wordIndex, MaxLength)
    case Err(e) => Err(e)
    case Ok(inputData) => SelectPrediction(predict(inputData))
  }
}
