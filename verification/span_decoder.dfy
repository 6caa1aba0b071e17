/** The offset-preserving whole-word decoder of `ONNXPredictor`:
    `_decode_predictions`, which walks the whitespace-split words of the text
    alongside the predicted label ids and emits `{entity, text, start, end}`
    records with offsets counted in words, and the empty-text guard of
    `predict` in front of it. */
module SpanDecoder {
  import opened Text
  import opened Labels

  /** One emitted record; `start` and `end` are word indices, `end`
      exclusive. */
  datatype Span = Span(entity: string, text: string, start: int, end: int)

  /** The loop state: the records emitted so far, `current_entity` (with
      `""` for Python's `None`, both falsy and only ever tested for truth)
      and `current_text`, the words of the open entity. */
  datatype Cursor = Cursor(spans: seq<Span>, kind: string, current: seq<string>)

  const Start: Cursor := Cursor([], "", [])

  /** The record the open entity becomes when it is closed at index `i`, if
      one is open. */
  function Closed(c: Cursor, i: int): seq<Span>
  {
    if c.kind != "" then [Span(c.kind, Join(" ", c.current), i - |c.current|, i)] else []
  }

  /** One iteration of the loop, at index `i` with label `tag`. */
  function Advance(c: Cursor, words: seq<string>, i: nat, tag: string): Cursor
  {
    if IsBegin(tag) then
      Cursor(c.spans + Closed(c, i), TypeOf(tag), if i < |words| then [words[i]] else [])
    else if IsInside(tag) && c.kind != "" then
      Cursor(c.spans, c.kind, if i < |words| then c.current + [words[i]] else c.current)
    else
      Cursor(c.spans + Closed(c, i), "", [])
  }

  /** A record that names a type and covers a non-empty run of words, its
      text being exactly those words joined by single spaces. */
  predicate WellFormed(s: Span, words: seq<string>)
  {
    s.entity != "" && 0 <= s.start < s.end <= |words| && s.text == Join(" ", words[s.start..s.end])
  }

  /** Records that do not overlap and come in increasing word order. */
  predicate Ordered(spans: seq<Span>)
  {
    forall k :: 0 <= k < |spans| - 1 ==> spans[k].end <= spans[k + 1].start
  }

  /** What holds of the loop state after the first `i` words: the open
      entity's words are the `|current|` words just before `i`, so it started
      at `i - |current|`; an open entity holds at least one word; every
      record emitted so far is well formed, and they are ordered and all end
      before the open entity starts. */
  ghost predicate Tracks(c: Cursor, words: seq<string>, i: nat)
  {
    && i <= |words|
    && |c.current| <= i && c.current == words[i - |c.current|..i]
    && (c.kind != "" ==> |c.current| >= 1)
    && (forall k :: 0 <= k < |c.spans| ==> WellFormed(c.spans[k], words) && c.spans[k].end <= i - |c.current|)
    && Ordered(c.spans)
  }

  lemma ClosedKeeps(c: Cursor, words: seq<string>, i: nat)
    requires Tracks(c, words, i)
    ensures var spans := c.spans + Closed(c, i);
      && (forall k :: 0 <= k < |spans| ==> WellFormed(spans[k], words) && spans[k].end <= i)
      && Ordered(spans)
  {
    var spans := c.spans + Closed(c, i);
    if c.kind != "" {
      var s := Span(c.kind, Join(" ", c.current), i - |c.current|, i);
      assert spans == c.spans + [s];
      assert WellFormed(s, words);
      forall k | 0 <= k < |spans| - 1
        ensures spans[k].end <= spans[k + 1].start
      {
        if k + 1 < |c.spans| {
          assert spans[k] == c.spans[k] && spans[k + 1] == c.spans[k + 1];
        } else {
          assert spans[k] == c.spans[k] && spans[k + 1] == s;
        }
      }
    } else {
      assert spans == c.spans;
    }
  }

  lemma AdvanceKeeps(c: Cursor, words: seq<string>, i: nat, tag: string)
    requires Tracks(c, words, i) && i < |words|
    ensures Tracks(Advance(c, words, i, tag), words, i + 1)
  {
    var c' := Advance(c, words, i, tag);
    if IsBegin(tag) || !(IsInside(tag) && c.kind != "") {
      ClosedKeeps(c, words, i);
      assert words[i + 1 - |c'.current|..i + 1] == c'.current;
    } else {
      assert words[i - |c.current|..i + 1] == c.current + [words[i]];
    }
  }

  /** The loop state after the first `i` words. */
  function Scan(words: seq<string>, predictions: seq<int>, id2label: LabelMap, i: nat): Cursor
    requires i <= |words| && i <= |predictions|
  {
    if i == 0 then Start
    else Advance(Scan(words, predictions, id2label, i - 1), words, i - 1, LabelOf(id2label, predictions[i - 1]))
  }

  /** The loop keeps its invariant at every index. */
  lemma {:induction false} ScanTracks(words: seq<string>, predictions: seq<int>, id2label: LabelMap, i: nat)
    requires i <= |words| && i <= |predictions|
    ensures Tracks(Scan(words, predictions, id2label, i), words, i)
  {
    if i > 0 {
      ScanTracks(words, predictions, id2label, i - 1);
      AdvanceKeeps(Scan(words, predictions, id2label, i - 1), words, i - 1, LabelOf(id2label, predictions[i - 1]));
    }
  }

  /** How many predictions the loop reads: `predictions[:len(words)]`. */
  function Bound(words: seq<string>, predictions: seq<int>): nat
  {
    if |predictions| < |words| then |predictions| else |words|
  }

  /** Closing the open entity at any index `at` from the loop position on
      keeps the records ordered, non-empty and within `at`. */
  lemma ClosedLaterKeeps(c: Cursor, words: seq<string>, n: nat, at: int)
    requires Tracks(c, words, n) && n <= at
    ensures var spans := c.spans + Closed(c, at);
      && Ordered(spans)
      && (forall k :: 0 <= k < |spans| ==> spans[k].entity != "" && 0 <= spans[k].start < spans[k].end <= at)
  {
    var spans := c.spans + Closed(c, at);
    if c.kind != "" {
      var s := Span(c.kind, Join(" ", c.current), at - |c.current|, at);
      assert spans == c.spans + [s];
      forall k | 0 <= k < |spans| - 1
        ensures spans[k].end <= spans[k + 1].start
      {
        if k + 1 < |c.spans| {
          assert spans[k] == c.spans[k] && spans[k + 1] == c.spans[k + 1];
        } else {
          assert spans[k] == c.spans[k] && spans[k + 1] == s;
        }
      }
    } else {
      assert spans == c.spans;
    }
  }

  /** `_decode_predictions` as written, on the words of the text: the entity
      still open after the loop is closed at `len(predictions)`, not at the
      index where the loop stopped. Records are ordered, name a type and
      cover a non-empty range within `len(predictions)`; when there are no
      more predictions than words every record is well formed. */
  function DecodeWords(words: seq<string>, predictions: seq<int>, id2label: LabelMap): (r: seq<Span>)
    ensures Ordered(r)
    ensures forall k :: 0 <= k < |r| ==> r[k].entity != "" && 0 <= r[k].start < r[k].end <= |predictions|
    ensures |predictions| <= |words| ==> forall k :: 0 <= k < |r| ==> WellFormed(r[k], words)
  {
    var n := Bound(words, predictions);
    var c := Scan(words, predictions, id2label, n);
    ScanTracks(words, predictions, id2label, n);
    ClosedLaterKeeps(c, words, n, |predictions|);
    ClosedKeeps(c, words, n);
    c.spans + Closed(c, |predictions|)
  }

  /** The same loop with the trailing entity closed where the loop stopped:
      every record is well formed and they are ordered. */
  function DecodeWordsAtBound(words: seq<string>, predictions: seq<int>, id2label: LabelMap): (r: seq<Span>)
    ensures Ordered(r)
    ensures forall k :: 0 <= k < |r| ==> WellFormed(r[k], words)
  {
    var n := Bound(words, predictions);
    var c := Scan(words, predictions, id2label, n);
    ScanTracks(words, predictions, id2label, n);
    ClosedKeeps(c, words, n);
    c.spans + Closed(c, n)
  }

  /** `_decode_predictions(text, predictions)`: decoding over `text.split()`. */
  function DecodePredictions(text: string, predictions: seq<int>, id2label: LabelMap): (r: seq<Span>)
    ensures Ordered(r)
    ensures forall k :: 0 <= k < |r| ==> r[k].entity != "" && 0 <= r[k].start < r[k].end <= |predictions|
    ensures |predictions| <= |Split(text)| ==> forall k :: 0 <= k < |r| ==> WellFormed(r[k], Split(text))
  {
    DecodeWords(Split(text), predictions, id2label)
  }

  /** The decoder with the trailing defect corrected, over `text.split()`. */
  function DecodePredictionsAtBound(text: string, predictions: seq<int>, id2label: LabelMap): (r: seq<Span>)
    ensures Ordered(r)
    ensures forall k :: 0 <= k < |r| ==> WellFormed(r[k], Split(text))
  {
    DecodeWordsAtBound(Split(text), predictions, id2label)
  }

  /** `predict` once the network has produced the label ids: empty or
      whitespace-only text gives no records. */
  function Predict(text: string, predictions: seq<int>, id2label: LabelMap): (r: seq<Span>)
    ensures AllSpace(text) ==> r == []
  {
    if text == "" || Strip(text) == "" then [] else DecodePredictions(text, predictions, id2label)
  }

  /** The empty-text guard changes nothing: text with no words already
      decodes to no records. */
  lemma PredictGuardAgrees(text: string, predictions: seq<int>, id2label: LabelMap)
    ensures Predict(text, predictions, id2label) == DecodePredictions(text, predictions, id2label)
  {
    if text == "" || Strip(text) == "" {
      SplitEmptyIff(text);
    }
  }

  /** Scanning depends on the predictions only through the labels they read
      as, position by position. */
  lemma {:induction false} ScanSameLabels(words: seq<string>, p1: seq<int>, m1: LabelMap, p2: seq<int>, m2: LabelMap, i: nat)
    requires i <= |words| && i <= |p1| && i <= |p2|
    requires forall k :: 0 <= k < i ==> LabelOf(m1, p1[k]) == LabelOf(m2, p2[k])
    ensures Scan(words, p1, m1, i) == Scan(words, p2, m2, i)
  {
    if i > 0 {
      ScanSameLabels(words, p1, m1, p2, m2, i - 1);
    }
  }

  /** Only the first `len(text.split())` predictions are read; the rest
      matter only through how many there are. */
  lemma DecodeReadsOnlyWordPrefix(text: string, p1: seq<int>, p2: seq<int>, id2label: LabelMap)
    requires |p1| == |p2|
    requires forall k :: 0 <= k < Bound(Split(text), p1) ==> p1[k] == p2[k]
    ensures DecodePredictions(text, p1, id2label) == DecodePredictions(text, p2, id2label)
  {
    var words := Split(text);
    var n := Bound(words, p1);
    ScanSameLabels(words, p1, id2label, p2, id2label, n);
    var c := Scan(words, p1, id2label, n);
    assert Scan(words, p2, id2label, Bound(words, p2)) == c;
  }

  /** An id the table lacks is read exactly as if the table mapped it to `O`. */
  lemma DecodeUnknownId(text: string, predictions: seq<int>, id2label: LabelMap, id: int)
    requires id !in id2label
    ensures DecodePredictions(text, predictions, id2label) == DecodePredictions(text, predictions, id2label[id := Outside])
  {
    var words := Split(text);
    var n := Bound(words, predictions);
    ScanSameLabels(words, predictions, id2label, predictions, id2label[id := Outside], n);
    var c := Scan(words, predictions, id2label, n);
    assert Scan(words, predictions, id2label[id := Outside], n) == c;
  }

  lemma {:induction false} ScanWithoutBegin(words: seq<string>, predictions: seq<int>, id2label: LabelMap, i: nat)
    requires i <= |words| && i <= |predictions|
    requires forall k :: 0 <= k < i ==> !IsBegin(LabelOf(id2label, predictions[k]))
    ensures Scan(words, predictions, id2label, i) == Start
  {
    if i > 0 {
      ScanWithoutBegin(words, predictions, id2label, i - 1);
      var tag := LabelOf(id2label, predictions[i - 1]);
      assert !IsBegin(tag);
      assert Advance(Start, words, i - 1, tag) == Start;
    }
  }

  /** With no `B-` label among the predictions read, no record is emitted. */
  lemma DecodeWithoutBeginIsEmpty(text: string, predictions: seq<int>, id2label: LabelMap)
    requires forall k :: 0 <= k < Bound(Split(text), predictions) ==> !IsBegin(LabelOf(id2label, predictions[k]))
    ensures DecodePredictions(text, predictions, id2label) == []
  {
    ScanWithoutBegin(Split(text), predictions, id2label, Bound(Split(text), predictions));
  }

  /** Text with no words decodes to no records, whatever the predictions. */
  lemma DecodeBlankTextIsEmpty(text: string, predictions: seq<int>, id2label: LabelMap)
    requires AllSpace(text)
    ensures DecodePredictions(text, predictions, id2label) == []
  {
    SplitEmptyIff(text);
  }

  /** Any `I-` label extends an open entity by the current word, whatever
      type it names. */
  lemma InsideExtendsRegardlessOfType(words: seq<string>, predictions: seq<int>, id2label: LabelMap, i: nat)
    requires i < |words| && i < |predictions|
    requires Scan(words, predictions, id2label, i).kind != ""
    requires IsInside(LabelOf(id2label, predictions[i]))
    ensures var c := Scan(words, predictions, id2label, i);
      Scan(words, predictions, id2label, i + 1) == Cursor(c.spans, c.kind, c.current + [words[i]])
  {
  }

  /** An `I-` label with no entity open behaves exactly like `O`. */
  lemma OrphanInsideActsAsOutside(words: seq<string>, predictions: seq<int>, id2label: LabelMap, i: nat)
    requires i < |words| && i < |predictions|
    requires Scan(words, predictions, id2label, i).kind == ""
    requires IsInside(LabelOf(id2label, predictions[i]))
    ensures Scan(words, predictions, id2label, i + 1) == Advance(Scan(words, predictions, id2label, i), words, i, Outside)
  {
  }

  /** Two `B-` labels in a row give two records: the first word becomes a
      one-word record of its own as soon as the second `B-` arrives. */
  lemma AdjacentBeginsGiveTwoSpans(words: seq<string>, predictions: seq<int>, id2label: LabelMap, i: nat)
    requires i + 1 < |words| && i + 1 < |predictions|
    requires IsBegin(LabelOf(id2label, predictions[i])) && IsBegin(LabelOf(id2label, predictions[i + 1]))
    requires TypeOf(LabelOf(id2label, predictions[i])) != ""
    ensures var before := Scan(words, predictions, id2label, i);
      var after := Scan(words, predictions, id2label, i + 2);
      && after.spans == before.spans + Closed(before, i) + [Span(TypeOf(LabelOf(id2label, predictions[i])), words[i], i, i + 1)]
      && after.kind == TypeOf(LabelOf(id2label, predictions[i + 1]))
      && after.current == [words[i + 1]]
  {
    var mid := Scan(words, predictions, id2label, i + 1);
    assert mid.current == [words[i]];
  }

  /** When there are no more predictions than words, the trailing record's
      offsets as written agree with the ones at the loop bound. */
  lemma AtBoundAgreesWhenPredictionsFit(text: string, predictions: seq<int>, id2label: LabelMap)
    requires |predictions| <= |Split(text)|
    ensures DecodePredictions(text, predictions, id2label) == DecodePredictionsAtBound(text, predictions, id2label)
  {
  }

  /** An entity is still open when the loop stops. */
  predicate OpenAtEnd(words: seq<string>, predictions: seq<int>, id2label: LabelMap)
  {
    Scan(words, predictions, id2label, Bound(words, predictions)).kind != ""
  }

  /** The decoder as written and the corrected one differ only in the
      offsets of the trailing record. Every other record is the same in both
      and well formed. The trailing record, when an entity is still open after
      the loop, has the same type and text in both: the corrected one ends at
      the loop bound, the one as written is shifted to end at
      `len(predictions)`. So the two agree exactly when there are no more
      ids than words. */
  lemma AsWrittenDiffersOnlyInTrailingOffsets(words: seq<string>, predictions: seq<int>, id2label: LabelMap)
    ensures var w := DecodeWords(words, predictions, id2label);
      var b := DecodeWordsAtBound(words, predictions, id2label);
      && |w| == |b|
      && (forall k :: 0 <= k < |w| && (k < |w| - 1 || !OpenAtEnd(words, predictions, id2label)) ==>
            w[k] == b[k] && WellFormed(w[k], words))
      && (OpenAtEnd(words, predictions, id2label) ==>
            && |b| > 0
            && b[|b| - 1].end == Bound(words, predictions)
            && w[|w| - 1] == b[|b| - 1].(start := b[|b| - 1].start + |predictions| - Bound(words, predictions), end := |predictions|)
            && (w == b <==> |predictions| <= |words|))
  {
    var n := Bound(words, predictions);
    var c := Scan(words, predictions, id2label, n);
    ScanTracks(words, predictions, id2label, n);
    var w := DecodeWords(words, predictions, id2label);
    var b := DecodeWordsAtBound(words, predictions, id2label);
    assert w == c.spans + Closed(c, |predictions|);
    assert b == c.spans + Closed(c, n);
    if c.kind != "" {
      assert w[|w| - 1] == Span(c.kind, Join(" ", c.current), |predictions| - |c.current|, |predictions|);
      assert b[|b| - 1] == Span(c.kind, Join(" ", c.current), n - |c.current|, n);
      if w == b {
        assert w[|w| - 1].end == b[|b| - 1].end;
      }
    }
  }

  lemma DistrictSevenWords()
    ensures Split("Quận 7") == ["Quận", "7"]
  {
    var ws := ["Quận", "7"];
    assert IsWord(ws[0]) && IsWord(ws[1]);
    SplitJoinRoundTrip(ws);
    assert ws[1..] == ["7"];
    assert Join(" ", ws[1..]) == "7";
    assert Join(" ", ws) == "Quận" + " " + "7";
    assert "Quận" + " " + "7" == "Quận 7";
  }

  /** One step of the loop, once the label the id reads as is known. */
  lemma ScanStep(words: seq<string>, predictions: seq<int>, id2label: LabelMap, i: nat, tag: string)
    requires i < |words| && i < |predictions| && LabelOf(id2label, predictions[i]) == tag
    ensures Scan(words, predictions, id2label, i + 1) == Advance(Scan(words, predictions, id2label, i), words, i, tag)
  {
  }

  /** A `B-` label followed by an `I-` label of the same type at the start
      of the text leaves one entity open over the first two words. */
  lemma BeginInsideScan(words: seq<string>, predictions: seq<int>, id2label: LabelMap, kind: string)
    requires |words| >= 2 && |predictions| >= 2 && kind != ""
    requires LabelOf(id2label, predictions[0]) == "B-" + kind
    requires LabelOf(id2label, predictions[1]) == "I-" + kind
    ensures Scan(words, predictions, id2label, 2) == Cursor([], kind, [words[0], words[1]])
  {
    TagsOfKind(kind);
    ScanStep(words, predictions, id2label, 0, "B-" + kind);
    assert Scan(words, predictions, id2label, 1) == Cursor([], kind, [words[0]]);
    ScanStep(words, predictions, id2label, 1, "I-" + kind);
  }

  lemma DistrictLabels()
    ensures LabelOf(PredictorId2Label, 3) == "B-" + "DISTRICT"
    ensures LabelOf(PredictorId2Label, 4) == "I-" + "DISTRICT"
  {
    assert "B-" + "DISTRICT" == "B-DISTRICT" && "I-" + "DISTRICT" == "I-DISTRICT";
  }

  lemma DistrictScan(ps: seq<int>)
    requires |ps| >= 2 && ps[0] == 3 && ps[1] == 4
    ensures Scan(["Quận", "7"], ps, PredictorId2Label, 2) == Cursor([], "DISTRICT", ["Quận", "7"])
  {
    DistrictLabels();
    BeginInsideScan(["Quận", "7"], ps, PredictorId2Label, "DISTRICT");
  }

  lemma JoinDistrictSeven()
    ensures Join(" ", ["Quận", "7"]) == "Quận 7"
  {
    var ws := ["Quận", "7"];
    assert ws[1..] == ["7"];
    assert Join(" ", ws[1..]) == "7";
  }

  /** The worked example: "Quận 7" labelled B-DISTRICT, I-DISTRICT is one
      district record over both words. */
  lemma DistrictExample()
    ensures DecodePredictions("Quận 7", [3, 4], PredictorId2Label) == [Span("DISTRICT", "Quận 7", 0, 2)]
  {
    DistrictSevenWords();
    DistrictScan([3, 4]);
    JoinDistrictSeven();
    var c := Scan(["Quận", "7"], [3, 4], PredictorId2Label, 2);
    assert Closed(c, 2) == [Span("DISTRICT", "Quận 7", 0, 2)];
    assert DecodeWords(["Quận", "7"], [3, 4], PredictorId2Label) == c.spans + Closed(c, 2);
  }

  /** The trailing-offset defect: with one prediction more than there are
      words, the last record claims words 1 to 3 of a two-word text although
      its text is words 0 to 2; closed at the loop bound it is right. */
  lemma TrailingOffsetsOverrun()
    ensures DecodePredictions("Quận 7", [3, 4, 0], PredictorId2Label) == [Span("DISTRICT", "Quận 7", 1, 3)]
    ensures |Split("Quận 7")| == 2
    ensures DecodePredictionsAtBound("Quận 7", [3, 4, 0], PredictorId2Label) == [Span("DISTRICT", "Quận 7", 0, 2)]
  {
    DistrictSevenWords();
    DistrictScan([3, 4, 0]);
    JoinDistrictSeven();
    var words := ["Quận", "7"];
    assert Bound(words, [3, 4, 0]) == 2;
    var c := Scan(words, [3, 4, 0], PredictorId2Label, 2);
    assert Closed(c, 3) == [Span("DISTRICT", "Quận 7", 1, 3)];
    assert Closed(c, 2) == [Span("DISTRICT", "Quận 7", 0, 2)];
    assert DecodeWords(words, [3, 4, 0], PredictorId2Label) == c.spans + Closed(c, 3);
    assert DecodeWordsAtBound(words, [3, 4, 0], PredictorId2Label) == c.spans + Closed(c, 2);
  }
}
