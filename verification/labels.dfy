/** The BIO label vocabulary shared by both decoders: a label-id table, the
    `.get(id, "O")` lookup, and the `B-` / `I-` prefix tests with the
    `label[2:]` type extraction. */
module Labels {
  import opened Text

  /** A label-id to label-string table, as `id2label` holds it. */
  type LabelMap = map<int, string>

  const Outside: string := "O"

  /** `id2label.get(id, "O")`: an id missing from the table reads as `O`. */
  function LabelOf(id2label: LabelMap, id: int): (r: string)
    ensures r == Outside || r in id2label.Values
  {
    if id in id2label then id2label[id] else Outside
  }

  /** `label.startswith("B-")` */
  predicate IsBegin(tag: string)
  {
    StartsWith(tag, "B-")
  }

  /** `label.startswith("I-")` */
  predicate IsInside(tag: string)
  {
    StartsWith(tag, "I-")
  }

  /** `label[2:]`, the entity type after a `B-` or `I-` prefix. */
  function TypeOf(tag: string): string
    requires IsBegin(tag) || IsInside(tag)
  {
    tag[2..]
  }

  /** The `B-` and `I-` labels built from a type read back as that type. */
  lemma TagsOfKind(kind: string)
    ensures IsBegin("B-" + kind) && !IsInside("B-" + kind) && TypeOf("B-" + kind) == kind
    ensures !IsBegin("I-" + kind) && IsInside("I-" + kind) && TypeOf("I-" + kind) == kind
  {
    assert ("B-" + kind)[..2] == "B-" && ("B-" + kind)[2..] == kind;
    assert ("I-" + kind)[..2] == "I-" && ("I-" + kind)[2..] == kind;
  }

  /** The table the grouped decoder falls back to when the model directory
      has no `config.json`. */
  const FallbackId2Label: LabelMap := map[
    0 := "O",
    1 := "B-STREET", 2 := "I-STREET",
    3 := "B-WARD", 4 := "I-WARD",
    5 := "B-DISTRICT", 6 := "I-DISTRICT",
    7 := "B-PROVINCE", 8 := "I-PROVINCE"
  ]

  /** The table hard-coded in the offset-preserving predictor. */
  const PredictorId2Label: LabelMap := map[
    0 := "O",
    1 := "B-CITY", 2 := "I-CITY",
    3 := "B-DISTRICT", 4 := "I-DISTRICT",
    5 := "B-WARD", 6 := "I-WARD",
    7 := "B-STREET", 8 := "I-STREET"
  ]
}
