# Vietnamese address NER: label decoding, modelled in Dafny

The repository recognises Vietnamese address parts (street, ward, district,
province or city) with a token-classification network. The network itself,
the tokenizer and the web layer are outside this model. The model covers the
pure logic around the network:

- **Grouped sub-word decoder** (`faskapi/ner_model.py`), module
  `GroupedDecoder`. The last loop of `ONNXNERModel.predict` drops the special
  tokens `[CLS]`, `[SEP]` and `[PAD]` and reads each predicted id through
  `id2label`, with `O` for an unknown id. `extract_entities` then folds the
  `(token, label)` pairs into four lists keyed `STREET`, `WARD`, `DISTRICT`
  and `PROVINCE`. A `##` continuation piece is glued on without a space. An
  `I-` label of another type than the open entity is ignored.
- **Offset-preserving whole-word decoder** (`app/onnx_predictor.py`), module
  `SpanDecoder`. `_decode_predictions` walks `text.split()` alongside the
  predicted ids and emits `{entity, text, start, end}` records with offsets
  counted in words. `predict` guards it with an empty-text check.
- **Training-side alignment** (`scripts/train_and_convert.py`), module
  `Training`. `tokenize_and_align_labels` spreads word tags over sub-word
  positions, with `-100` for positions the loss ignores. `compute_metrics`
  filters out those positions and counts matching predictions.

Supporting modules:

- `Text` models Python's `str.isspace`, `strip()`, `split()` and `" ".join`.
- `Labels` holds the label table lookup, the `B-`/`I-` tests and the two
  hard-coded tables.
- `Wrappers` holds `Option`.

Modelling choices:

- Python's `None` for the open entity type is written `""`. Both are falsy.
  The source only ever reads that variable through a truthiness test, or
  after one has passed.
- A `KeyError` raised by `entities[current_type]` for an unknown type is part
  of the result (`Outcome.KeyError`), not a precondition. `extract_entities`
  only raises when an entity of such a type is actually saved.
- The `IndexError` that `label[word_idx]` would raise is excluded by a
  precondition (`Training.WordIdsInRange`). A word id indexes the words of
  its sentence, and the dataset gives one tag per word, so the index is in
  range. `Training.AlignBatch` also requires at least as many `word_ids`
  lists as tag lists: the loop runs over the tag lists and fetches the
  encoding of each, which exists for every sentence of the batch.
- Each loop is a fold over the prefix of its input (`GroupedDecoder.Run`,
  `SpanDecoder.Scan`). Its loop invariant is a separate predicate
  (`Consistent`, `Tracks`) preserved step by step.

Behaviour of the decoders worth noting:

- An `I-` label of another type than the open entity is ignored by
  `extract_entities`, and the entity stays open. In `_decode_predictions`
  it extends the open entity like any other `I-` label.
- `extract_entities` raises `KeyError` when it saves an entity whose `B-`
  type is not one of its four keys.
- `_decode_predictions` closes the last open entity at `len(predictions)`,
  which can lie past the last word (see Findings).
- `extract_entities` saves an entity only when its text is non-empty as well
  as its type set.

## Model

| member | source | states |
|---|---|---|
| Labels.LabelOf | faskapi/ner_model.py:130 | `id2label.get(id, "O")`: the label is `O` or one of the table's values; `FilterSpecialUnknownId` and `DecodeUnknownId` state that a missing id reads as `O` |
| GroupedDecoder.FilterSpecial | faskapi/ner_model.py:127-133 | no special token survives; every label is `O` or a value of the table; at most min(#tokens, #ids) pairs |
| GroupedDecoder.FilterSpecialConcat | faskapi/ner_model.py:127-131 | filtering a concatenation is concatenating the filtered parts, so input order is kept |
| GroupedDecoder.FilterSpecialKeepsOrdinaryTokens | faskapi/ner_model.py:127-131 | without special tokens every pair survives in place, with `id2label.get(id, "O")` as its label |
| GroupedDecoder.FilterSpecialUnknownId | faskapi/ner_model.py:130 | an id missing from the table reads exactly as if it were mapped to `O` |
| GroupedDecoder.PieceText | faskapi/ner_model.py:165-168 | the text a `B-` piece opens with, its `##` marker dropped; its effect is stated by `BeginClosesOpenEntity` and `ContinuationPieceJoins` |
| GroupedDecoder.Extend | faskapi/ner_model.py:174-178 | how an `I-` piece is appended to the open text; stated by `InsideOfSameTypeExtends`, `ContinuationPieceJoins` and `WordByWordEntity` |
| GroupedDecoder.Flush | faskapi/ner_model.py:159-161 | saving the open entity before a new one or an `O`; stated by `FlushKeeps` |
| GroupedDecoder.Feed | faskapi/ner_model.py:157-185 | one loop iteration; its cases are stated by `FeedKeeps`, `BeginClosesOpenEntity`, `InsideOfSameTypeExtends`, `MismatchedInsideIgnored` and `OutsideClosesOpenEntity` |
| GroupedDecoder.Run | faskapi/ner_model.py:154-185 | the loop over the whole stream; stated by `RunConsistent`, `RunWithoutBegin` and the worked streams below |
| GroupedDecoder.Groups.Append | faskapi/ner_model.py:161 | appending under one of the four keys extends that list only and adds one string; any other key is the `KeyError` |
| GroupedDecoder.FlushKeeps | faskapi/ner_model.py:160-161 | saving the open entity adds one stripped string exactly when it has text and a type, and fails only for a type outside the four keys |
| GroupedDecoder.FeedKeeps | faskapi/ner_model.py:157-185 | one loop step keeps the invariant: saved strings plus the open entity never outnumber the `B-` labels seen, every saved string is stripped, and the open type came from a `B-` label |
| GroupedDecoder.RunConsistent | faskapi/ner_model.py:154-185 | the invariant holds after the whole stream |
| GroupedDecoder.ExtractEntities | faskapi/ner_model.py:135-191 | the result holds no more strings than there are `B-` labels, all stripped; a `KeyError` names a non-empty type outside the four keys that a `B-` label carried; with only known `B-` types the call never raises |
| GroupedDecoder.ExtractFromModelOutput | faskapi/ner_model.py:127-191 | a table whose `B-` labels all name known types never makes decoding raise |
| GroupedDecoder.FallbackTableTypesKnown | faskapi/ner_model.py:60-70 | the fallback table names only the four known types |
| GroupedDecoder.ExtractWithoutBeginIsEmpty | faskapi/ner_model.py:147-189 | with no `B-` label in the stream all four lists come back empty |
| GroupedDecoder.ExtractWithoutBeginLabelsIsEmpty | faskapi/ner_model.py:127-189 | a table without `B-` labels yields four empty lists whatever the model predicts |
| GroupedDecoder.BeginClosesOpenEntity | faskapi/ner_model.py:158-169 | a `B-` label saves the open entity, stripped, under its own type, leaves the other lists alone and opens the new piece |
| GroupedDecoder.InsideOfSameTypeExtends | faskapi/ner_model.py:171-179 | an `I-` label of the open type appends a `##` piece without marker or space, and any other piece after one space |
| GroupedDecoder.MismatchedInsideIgnored | faskapi/ner_model.py:171-179 | an `I-` label of another type changes nothing, and a later `I-` of the right type still extends the entity |
| GroupedDecoder.OutsideClosesOpenEntity | faskapi/ner_model.py:180-185 | an `O`, or an `I-` with nothing open, saves the open entity if it has text and leaves nothing open |
| GroupedDecoder.TrailingEntitySaved | faskapi/ner_model.py:187-189 | the entity still open at the end is saved, stripped |
| GroupedDecoder.AdjacentBeginsStaySeparate | faskapi/ner_model.py:158-169 | two consecutive `B-T` words give two strings `[a, b]`, never one merged string |
| GroupedDecoder.ContinuationPieceJoins | faskapi/ner_model.py:163-179 | `B-T a` followed by `I-T ##p` gives the single string `a + p` |
| GroupedDecoder.WordByWordEntity | faskapi/ner_model.py:163-189 | `B-T a`, `I-T b`, `I-T c` at the end of the stream give the single string `"a b c"` |
| GroupedDecoder.ContinuationPieceJoinsWithoutSpace | faskapi/ner_model.py:166-179 | `("Nguyễn", B-STREET), ("##Huệ", I-STREET)` gives `{"STREET": ["NguyễnHuệ"]}` and nothing else |
| Text.Strip | app/onnx_predictor.py:88 | the result is a contiguous slice of the input with only whitespace cut away on each side, has no whitespace at either end, is empty exactly for all-whitespace input, and leaves stripped text unchanged |
| Text.Split | app/onnx_predictor.py:144 | every piece is a non-empty run of non-whitespace characters |
| Text.SplitOfEmpty | app/onnx_predictor.py:144 | `"".split()` is the empty list |
| Text.SplitSkipsLeadingSpace | app/onnx_predictor.py:144 | leading whitespace does not change the split |
| Text.SplitTakesFirstWord | app/onnx_predictor.py:144 | a word followed by whitespace or the end of the text is the first piece, and the rest is split on its own |
| Text.Join | app/onnx_predictor.py:157 | `" ".join(current_text)`; stated by `SplitJoinRoundTrip`, and the records' text is stated through it by `ClosedKeeps` and `DecodeWordsAtBound` |
| Text.SplitEmptyIff | app/onnx_predictor.py:144 | `split()` is empty exactly when the text is all whitespace |
| Text.SplitJoinRoundTrip | app/onnx_predictor.py:144-157 | splitting the words joined by single spaces gives the words back |
| SpanDecoder.Closed | app/onnx_predictor.py:153-160 | the record the open entity becomes when closed at an index; stated by `ClosedKeeps` and `ClosedLaterKeeps` |
| SpanDecoder.Advance | app/onnx_predictor.py:149-178 | one loop iteration; stated by `AdvanceKeeps`, `InsideExtendsRegardlessOfType`, `OrphanInsideActsAsOutside` and `AdjacentBeginsGiveTwoSpans` |
| SpanDecoder.Scan | app/onnx_predictor.py:146-178 | the loop over the first `i` words; stated by `ScanTracks`, `ScanSameLabels` and `ScanWithoutBegin` |
| SpanDecoder.AdvanceKeeps | app/onnx_predictor.py:152-178 | one loop step keeps the invariant: the open entity's words are `words[i - len(current_text):i]`, and the records so far are well formed, ordered and end before it |
| SpanDecoder.ScanTracks | app/onnx_predictor.py:146-178 | the invariant holds at every index of the loop |
| SpanDecoder.ClosedKeeps | app/onnx_predictor.py:153-160 | a record closed inside the loop has `start < end <= len(words)` and text `" ".join(words[start:end])`, after all earlier records |
| SpanDecoder.DecodeWords | app/onnx_predictor.py:143-189 | records are ordered and non-overlapping, name a type and cover a non-empty range within `len(predictions)`; with no more ids than words every record is well formed |
| SpanDecoder.DecodePredictions | app/onnx_predictor.py:132-189 | the same over `text.split()` |
| SpanDecoder.DecodeWordsAtBound | app/onnx_predictor.py:143-189 | with the trailing record closed at the loop bound, every record is well formed and they are ordered |
| SpanDecoder.DecodePredictionsAtBound | app/onnx_predictor.py:132-189 | the same over `text.split()` |
| SpanDecoder.Predict | app/onnx_predictor.py:88-89 | empty or whitespace-only text gives no records |
| SpanDecoder.PredictGuardAgrees | app/onnx_predictor.py:88-89 | the guard agrees with the decoder, which gives no records for text without words anyway |
| SpanDecoder.DecodeReadsOnlyWordPrefix | app/onnx_predictor.py:149 | predictions beyond `len(words)` matter only through how many there are |
| SpanDecoder.DecodeUnknownId | app/onnx_predictor.py:150 | an id missing from the table reads exactly as if it were mapped to `O` |
| SpanDecoder.DecodeWithoutBeginIsEmpty | app/onnx_predictor.py:149-181 | with no `B-` label among the ids read, no record is emitted |
| SpanDecoder.DecodeBlankTextIsEmpty | app/onnx_predictor.py:144-181 | text without words gives no records, whatever the predictions |
| SpanDecoder.InsideExtendsRegardlessOfType | app/onnx_predictor.py:164-167 | any `I-` label extends an open entity by the current word, whatever type it names |
| SpanDecoder.OrphanInsideActsAsOutside | app/onnx_predictor.py:164-178 | an `I-` label with nothing open acts exactly like `O` |
| SpanDecoder.AdjacentBeginsGiveTwoSpans | app/onnx_predictor.py:152-163 | two `B-` labels in a row emit the first word as a one-word record of its own |
| SpanDecoder.AtBoundAgreesWhenPredictionsFit | app/onnx_predictor.py:181-187 | with no more ids than words, the trailing offsets as written equal the ones at the loop bound |
| SpanDecoder.AsWrittenDiffersOnlyInTrailingOffsets | app/onnx_predictor.py:181-187 | the decoder as written and the corrected one give equally many records, equal and well formed except the trailing one; the trailing record has the same type and text in both, ends at `len(predictions)` as written and at the loop bound when corrected, and the two results are equal exactly when there are no more ids than words |
| SpanDecoder.BeginInsideScan | app/onnx_predictor.py:152-167 | `B-T`, `I-T` at the start leave one entity of type `T` open over the first two words |
| SpanDecoder.DistrictExample | app/onnx_predictor.py:132-189 | `"Quận 7"` with ids 3, 4 gives one record `DISTRICT "Quận 7"` over words 0 to 2 |
| SpanDecoder.TrailingOffsetsOverrun | app/onnx_predictor.py:181-187 | with ids 3, 4, 0 on `"Quận 7"` the record claims words 1 to 3 of a two-word text; closed at the loop bound it claims 0 to 2 |
| Training.AlignLabels | scripts/train_and_convert.py:67-79 | one label per `word_ids` entry, and each equals the position-wise rule `AlignedLabel`: `-100` without a word, the word's tag where a word starts, and on later pieces the tag or `-100` per `label_all_tokens` |
| Training.AlignBatch | scripts/train_and_convert.py:64-79 | one aligned list per sentence, each following the same rule |
| Training.AlignedLabelIsWordTag | scripts/train_and_convert.py:71-76 | a label other than `-100` is always the tag of the word at that position, and a position without a word is `-100` |
| Training.LabelAllTokensIgnoresOnlySpecial | scripts/train_and_convert.py:54-76 | with the default `label_all_tokens=True`, exactly the positions without a word get `-100` |
| Training.FirstPieceOnlyLabelsWordStarts | scripts/train_and_convert.py:70-77 | with `label_all_tokens=False`, exactly the first piece of each run of one word is labelled |
| Training.FirstPieceOnlyLabelsEachWordOnce | scripts/train_and_convert.py:70-77 | with `label_all_tokens=False` and contiguous word pieces, no word is labelled twice |
| Training.KeptPositions | scripts/train_and_convert.py:91-98 | the positions `zip` reaches with a label other than `-100`, all of them, in increasing order |
| Training.ScoredListsAligned | scripts/train_and_convert.py:91-98 | the filtered prediction and label lists are equally long, pair up position by position, and hold no `-100` label |
| Training.ScoredPredictions | scripts/train_and_convert.py:91-94 | `true_predictions` for one sentence; stated by `KeptAtPositions` and `ScoredListsAligned` |
| Training.ScoredLabels | scripts/train_and_convert.py:95-98 | `true_labels` for one sentence; stated by `KeptAtPositions` and `ScoredListsAligned` |
| Training.MatchCount | scripts/train_and_convert.py:101-104 | the number of matches never exceeds the number of pairs `zip` yields |
| Training.MatchCountFullIff | scripts/train_and_convert.py:101-104 | the matches reach the number of pairs exactly when every pair matches |
| Training.Correct | scripts/train_and_convert.py:101-104 | `correct`; stated by `CorrectAtMostTotal` and `CorrectEqualsTotalIff` |
| Training.Total | scripts/train_and_convert.py:105 | `total`; `CorrectAtMostTotal` states it counts the labels other than `-100` at the positions `zip` reaches, and `CorrectEqualsTotalIff` relates it to `correct` |
| Training.CorrectAtMostTotal | scripts/train_and_convert.py:101-105 | `correct <= total`, and `total` is the number of labels other than `-100` at the positions `zip` reaches |
| Training.SentenceMatchesIff | scripts/train_and_convert.py:91-104 | within one sentence, all scored predictions are right exactly when the matches reach the scored-label count |
| Training.CorrectEqualsTotalIff | scripts/train_and_convert.py:91-105 | `correct == total` exactly when every scored prediction equals its label |
| Training.Accuracy | scripts/train_and_convert.py:107-109 | the accuracy lies between 0 and 1, is 0 when nothing is scored, and is 1 exactly when every scored prediction is right |

## Left out

- Tokenization, the ONNX Runtime session and `np.argmax` over the logits. They are foreign calls and floating point. The decoders take the token strings and the predicted ids as inputs.
- Loading `id2label` from `config.json` (file I/O). The table is a parameter, and the fallback and predictor tables are constants.
- The placeholder dummy-input path of `ONNXPredictor.predict`, used when no tokenizer loads. It is inference glue that ends in the same decoder.
- The FastAPI applications and schemas, the `get_model` singleton, the download scripts, training and ONNX export. They are transport, process state, network access and library calls.
- `Training.Accuracy`: computed over exact rationals. It does not model the rounding of Python's float division.
- `Training.AlignBatch`: the batch tokenizer's padding to 128 positions and truncation happen before `word_ids` is read. They are taken as given in the `word_ids` input.
- `SpanDecoder.Predict`: its result is stated only for blank text. For other text, `PredictGuardAgrees` relates it to `DecodePredictions`.
- `Text.Strip` and `Text.Split`: Python's whitespace is the `str.isspace` set. The model has no Unicode normalisation and no other character database lookups.

## Findings

| source | as written | input that shows it | evidently intended | confidence | as-written member | corrected member |
|---|---|---|---|---|---|---|
| app/onnx_predictor.py:181-187 | the entity still open after the loop is given `start = len(predictions) - len(current_text)` and `end = len(predictions)` | text `"Quận 7"` with predicted ids `[3, 4, 0]`: the record says words 1 to 3 of a two-word text, while its text is words 0 to 2 | close the trailing entity at the index where the loop stopped, `min(len(predictions), len(words))`, as the in-loop records are closed at `i` | medium, not executed | SpanDecoder.TrailingOffsetsOverrun, SpanDecoder.AsWrittenDiffersOnlyInTrailingOffsets | SpanDecoder.DecodePredictionsAtBound |

`SpanDecoder.Predict` keeps the decoder as written. `DecodePredictionsAtBound`
is proved to give only well-formed records. `AsWrittenDiffersOnlyInTrailingOffsets`
compares the two on all inputs: they differ only in the offsets of the
trailing record, and agree exactly when there are no more ids than words
(`AtBoundAgreesWhenPredictionsFit` states the agreement on its own).
