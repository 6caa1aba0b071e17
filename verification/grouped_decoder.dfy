/** The grouped sub-word decoder of `ONNXNERModel`: the special-token filter
    at the end of `predict`, and `extract_entities`, which folds the
    (token, label) pairs into four lists of entity strings, gluing `##`
    continuation pieces to the text before them. */
module GroupedDecoder {
  import opened Wrappers
  import opened Text
  import opened Labels

  /** Tokenizer markers `predict` never passes on. */
  const SpecialTokens: set<string> := {"[CLS]", "[SEP]", "[PAD]"}

  /** The keys of the result dictionary. */
  const EntityTypes: set<string> := {"STREET", "WARD", "DISTRICT", "PROVINCE"}

  /** The prefix the tokenizer puts on a piece that continues the previous one. */
  const ContinuationMarker: string := "##"

  /** One (token, label) pair as `predict` returns it. */
  datatype LabelUnit = LabelUnit(token: string, tag: string)

  /** The loop at the end of `predict`: walks tokens and predicted ids in
      step (stopping at the shorter), drops special tokens, and reads each id
      through the table with `O` for an unknown id. */
  function FilterSpecial(tokens: seq<string>, predictions: seq<int>, id2label: LabelMap): (r: seq<LabelUnit>)
    ensures |r| <= |tokens| && |r| <= |predictions|
    ensures forall k :: 0 <= k < |r| ==> r[k].token !in SpecialTokens
    ensures forall k :: 0 <= k < |r| ==> r[k].tag == Outside || r[k].tag in id2label.Values
    decreases |tokens|
  {
    if |tokens| == 0 || |predictions| == 0 then []
    else
      var rest := FilterSpecial(tokens[1..], predictions[1..], id2label);
      if tokens[0] in SpecialTokens then rest
      else [LabelUnit(tokens[0], LabelOf(id2label, predictions[0]))] + rest
  }

  /** Filtering works position by position, so it keeps the order of the
      input: filtering a concatenation is concatenating the filtered parts. */
  lemma {:induction false} FilterSpecialConcat(t1: seq<string>, p1: seq<int>, t2: seq<string>, p2: seq<int>, id2label: LabelMap)
    requires |t1| == |p1|
    ensures FilterSpecial(t1 + t2, p1 + p2, id2label) == FilterSpecial(t1, p1, id2label) + FilterSpecial(t2, p2, id2label)
    decreases |t1|
  {
    if |t1| == 0 {
      assert t1 + t2 == t2;
      assert p1 + p2 == p2;
    } else {
      assert (t1 + t2)[1..] == t1[1..] + t2;
      assert (p1 + p2)[1..] == p1[1..] + p2;
      FilterSpecialConcat(t1[1..], p1[1..], t2, p2, id2label);
    }
  }

  /** When none of the paired tokens is special, every pair survives, in
      place, with its id read through the table. */
  lemma {:induction false} FilterSpecialKeepsOrdinaryTokens(tokens: seq<string>, predictions: seq<int>, id2label: LabelMap)
    requires forall k :: 0 <= k < |tokens| && k < |predictions| ==> tokens[k] !in SpecialTokens
    ensures var r := FilterSpecial(tokens, predictions, id2label);
      && (|r| == |tokens| || |r| == |predictions|)
      && forall k :: 0 <= k < |r| ==> r[k] == LabelUnit(tokens[k], LabelOf(id2label, predictions[k]))
    decreases |tokens|
  {
    if |tokens| == 0 || |predictions| == 0 {
    } else {
      FilterSpecialKeepsOrdinaryTokens(tokens[1..], predictions[1..], id2label);
    }
  }

  /** An id the table lacks is read exactly as if the table mapped it to `O`. */
  lemma {:induction false} FilterSpecialUnknownId(tokens: seq<string>, predictions: seq<int>, id2label: LabelMap, id: int)
    requires id !in id2label
    ensures FilterSpecial(tokens, predictions, id2label) == FilterSpecial(tokens, predictions, id2label[id := Outside])
    decreases |tokens|
  {
    if |tokens| == 0 || |predictions| == 0 {
    } else {
      FilterSpecialUnknownId(tokens[1..], predictions[1..], id2label, id);
    }
  }

  predicate AllStripped(xs: seq<string>)
  {
    forall k :: 0 <= k < |xs| ==> IsStripped(xs[k])
  }

  /** The result dictionary of `extract_entities`, one list per key. */
  datatype Groups = Groups(street: seq<string>, ward: seq<string>, district: seq<string>, province: seq<string>)
  {
    function Get(kind: string): seq<string>
      requires kind in EntityTypes
    {
      if kind == "STREET" then street
      else if kind == "WARD" then ward
      else if kind == "DISTRICT" then district
      else province
    }

    /** How many strings the dictionary holds in all. */
    function Count(): nat
    {
      |street| + |ward| + |district| + |province|
    }

    predicate Stripped()
    {
      AllStripped(street) && AllStripped(ward) && AllStripped(district) && AllStripped(province)
    }

    /** `entities[kind].append(s)`; `None` is the `KeyError` a kind outside
        the four keys raises. */
    function Append(kind: string, s: string): (r: Option<Groups>)
      ensures r.Some? <==> kind in EntityTypes
      ensures r.Some? ==> r.value.Get(kind) == Get(kind) + [s]
      ensures r.Some? ==> forall other :: other in EntityTypes && other != kind ==> r.value.Get(other) == Get(other)
      ensures r.Some? ==> r.value.Count() == Count() + 1
    {
      if kind == "STREET" then Some(this.(street := street + [s]))
      else if kind == "WARD" then Some(this.(ward := ward + [s]))
      else if kind == "DISTRICT" then Some(this.(district := district + [s]))
      else if kind == "PROVINCE" then Some(this.(province := province + [s]))
      else None
    }
  }

  const NoEntities: Groups := Groups([], [], [], [])

  /** The two loop variables `current_entity` and `current_type`. Python's
      `None` for the type is written `""`: both are falsy, and the type is
      only ever compared after a truthiness test has passed. */
  datatype Building = Building(text: string, kind: string)
  {
    /** `current_entity and current_type`: there is something to save. */
    predicate Pending()
    {
      text != "" && kind != ""
    }
  }

  const Idle: Building := Building("", "")

  /** The state of the loop, or the `KeyError` that ended it. */
  datatype Progress = Running(groups: Groups, open: Building) | Raised(kind: string)

  /** What `extract_entities` returns or raises. */
  datatype Outcome = Entities(groups: Groups) | KeyError(kind: string)

  /** The text a piece contributes when it opens an entity: a continuation
      piece loses its marker. */
  function PieceText(token: string): string
  {
    if StartsWith(token, ContinuationMarker) then token[2..] else token
  }

  /** Appends a piece to the entity text: a continuation piece without its
      marker and without a space, any other piece after one space. */
  function Extend(text: string, token: string): string
  {
    if StartsWith(token, ContinuationMarker) then text + token[2..] else text + " " + token
  }

  /** Saves the open entity, stripped, if there is one to save. */
  function Flush(g: Groups, b: Building): Option<Groups>
  {
    if b.Pending() then g.Append(b.kind, Strip(b.text)) else Some(g)
  }

  /** One iteration of the loop over (token, label) pairs. */
  function Feed(p: Progress, u: LabelUnit): Progress
  {
    match p
    case Raised(_) => p
    case Running(g, b) =>
      if IsBegin(u.tag) then
        match Flush(g, b)
        case None => Raised(b.kind)
        case Some(g') => Running(g', Building(PieceText(u.token), TypeOf(u.tag)))
      else if IsInside(u.tag) && b.kind != "" then
        if TypeOf(u.tag) == b.kind then Running(g, Building(Extend(b.text, u.token), b.kind))
        else p
      else
        match Flush(g, b)
        case None => Raised(b.kind)
        case Some(g') => Running(g', Idle)
  }

  /** The number of `B-` labels in the stream. */
  function CountBegins(units: seq<LabelUnit>): nat
  {
    if |units| == 0 then 0
    else CountBegins(units[..|units| - 1]) + (if IsBegin(units[|units| - 1].tag) then 1 else 0)
  }

  /** The entity types named by the `B-` labels of the stream. */
  function BeginTypes(units: seq<LabelUnit>): set<string>
  {
    set k | 0 <= k < |units| && IsBegin(units[k].tag) :: TypeOf(units[k].tag)
  }

  lemma BeginTypesGrow(units: seq<LabelUnit>, u: LabelUnit)
    ensures BeginTypes(units) <= BeginTypes(units + [u])
    ensures IsBegin(u.tag) ==> TypeOf(u.tag) in BeginTypes(units + [u])
  {
    var us := units + [u];
    forall x | x in BeginTypes(units)
      ensures x in BeginTypes(us)
    {
      var k :| 0 <= k < |units| && IsBegin(units[k].tag) && TypeOf(units[k].tag) == x;
      assert us[k] == units[k];
    }
    if IsBegin(u.tag) {
      assert us[|units|] == u;
    }
  }

  /** What holds of the loop state after the pairs `units`: the strings
      saved plus the open entity never outnumber the `B-` labels seen, every
      saved string is stripped, and the open type was named by some `B-`
      label; a `KeyError` names a non-empty type outside the four keys that
      some `B-` label carried. */
  ghost predicate Consistent(p: Progress, units: seq<LabelUnit>)
  {
    match p
    case Running(g, b) =>
      && g.Count() + (if b.kind != "" then 1 else 0) <= CountBegins(units)
      && g.Stripped()
      && (b.kind == "" || b.kind in BeginTypes(units))
    case Raised(kind) =>
      kind in BeginTypes(units) && kind !in EntityTypes && kind != ""
  }

  lemma FlushKeeps(g: Groups, b: Building)
    requires g.Stripped()
    ensures Flush(g, b).Some? ==> Flush(g, b).value.Stripped()
    ensures Flush(g, b).Some? ==> Flush(g, b).value.Count() == g.Count() + (if b.Pending() then 1 else 0)
    ensures Flush(g, b).None? ==> b.kind !in EntityTypes && b.kind != ""
  {
    if b.Pending() && b.kind in EntityTypes {
      var g' := Flush(g, b).value;
      var s := Strip(b.text);
      assert IsStripped(s);
      assert g'.street == g.Get("STREET") + (if b.kind == "STREET" then [s] else []);
      assert g'.ward == g.Get("WARD") + (if b.kind == "WARD" then [s] else []);
      assert g'.district == g.Get("DISTRICT") + (if b.kind == "DISTRICT" then [s] else []);
      assert g'.province == g.Get("PROVINCE") + (if b.kind == "PROVINCE" then [s] else []);
    }
  }

  lemma {:induction false} FeedKeeps(p: Progress, units: seq<LabelUnit>, u: LabelUnit)
    requires Consistent(p, units)
    ensures Consistent(Feed(p, u), units + [u])
  {
    BeginTypesGrow(units, u);
    var us := units + [u];
    assert us[..|us| - 1] == units;
    match p
    case Raised(_) =>
    case Running(g, b) =>
      FlushKeeps(g, b);
  }

  /** The loop state after the whole stream. */
  function Run(units: seq<LabelUnit>): Progress
  {
    if |units| == 0 then Running(NoEntities, Idle)
    else Feed(Run(units[..|units| - 1]), units[|units| - 1])
  }

  /** The loop keeps its invariant over the whole stream. */
  lemma {:induction false} RunConsistent(units: seq<LabelUnit>)
    ensures Consistent(Run(units), units)
  {
    if |units| > 0 {
      var prefix := units[..|units| - 1];
      var u := units[|units| - 1];
      assert units == prefix + [u];
      RunConsistent(prefix);
      FeedKeeps(Run(prefix), prefix, u);
    }
  }

  /** `extract_entities` on the pairs `predict` returned. */
  function ExtractEntities(units: seq<LabelUnit>): (r: Outcome)
    ensures r.Entities? ==> r.groups.Count() <= CountBegins(units) && r.groups.Stripped()
    ensures r.KeyError? ==> r.kind in BeginTypes(units) && r.kind !in EntityTypes && r.kind != ""
    ensures BeginTypes(units) <= EntityTypes + {""} ==> r.Entities?
  {
    var p := Run(units);
    RunConsistent(units);
    match p
    case Raised(kind) => KeyError(kind)
    case Running(g, b) =>
      FlushKeeps(g, b);
      match Flush(g, b)
      case None => KeyError(b.kind)
      case Some(g') => Entities(g')
  }

  /** Every `B-` label the table can produce names one of the four keys. */
  predicate TableTypesKnown(id2label: LabelMap)
  {
    forall tag :: tag in id2label.Values && IsBegin(tag) ==> TypeOf(tag) in EntityTypes
  }

  /** `extract_entities(text)` once the tokenizer and the network have
      produced the tokens and the predicted ids. */
  function ExtractFromModelOutput(tokens: seq<string>, predictions: seq<int>, id2label: LabelMap): (r: Outcome)
    ensures TableTypesKnown(id2label) ==> r.Entities?
  {
    var units := FilterSpecial(tokens, predictions, id2label);
    FilteredTypesKnown(tokens, predictions, id2label);
    ExtractEntities(units)
  }

  lemma FilteredTypesKnown(tokens: seq<string>, predictions: seq<int>, id2label: LabelMap)
    ensures TableTypesKnown(id2label)
      ==> BeginTypes(FilterSpecial(tokens, predictions, id2label)) <= EntityTypes + {""}
  {
    var units := FilterSpecial(tokens, predictions, id2label);
    if TableTypesKnown(id2label) {
      forall x | x in BeginTypes(units)
        ensures x in EntityTypes + {""}
      {
        var k :| 0 <= k < |units| && IsBegin(units[k].tag) && TypeOf(units[k].tag) == x;
        assert units[k].tag != Outside;
      }
    }
  }

  /** The fallback table only produces the four known types, so decoding
      with it never raises. */
  lemma FallbackTableTypesKnown()
    ensures TableTypesKnown(FallbackId2Label)
  {
    var m := FallbackId2Label;
    forall tag | tag in m.Values && IsBegin(tag)
      ensures TypeOf(tag) in EntityTypes
    {
      var id :| id in m.Keys && m[id] == tag;
      assert id in {0, 1, 2, 3, 4, 5, 6, 7, 8};
      assert id != 0 && id != 2 && id != 4 && id != 6 && id != 8 by {
        assert tag[0] == 'B';
      }
      assert tag in {"B-STREET", "B-WARD", "B-DISTRICT", "B-PROVINCE"};
    }
  }

  lemma RunAppend(units: seq<LabelUnit>, u: LabelUnit)
    ensures Run(units + [u]) == Feed(Run(units), u)
  {
    var us := units + [u];
    assert us[..|us| - 1] == units;
  }

  lemma {:induction false} RunWithoutBegin(units: seq<LabelUnit>)
    requires forall k :: 0 <= k < |units| ==> !IsBegin(units[k].tag)
    ensures Run(units) == Running(NoEntities, Idle)
  {
    if |units| > 0 {
      var prefix := units[..|units| - 1];
      RunWithoutBegin(prefix);
      RunAppend(prefix, units[|units| - 1]);
      assert units == prefix + [units[|units| - 1]];
    }
  }

  /** With no `B-` label in the stream no entity is ever opened, so all four
      lists come back empty. */
  lemma ExtractWithoutBeginIsEmpty(units: seq<LabelUnit>)
    requires forall k :: 0 <= k < |units| ==> !IsBegin(units[k].tag)
    ensures ExtractEntities(units) == Entities(NoEntities)
  {
    RunWithoutBegin(units);
  }

  /** A table with no `B-` label yields four empty lists whatever the model
      predicts. */
  lemma ExtractWithoutBeginLabelsIsEmpty(tokens: seq<string>, predictions: seq<int>, id2label: LabelMap)
    requires forall tag :: tag in id2label.Values ==> !IsBegin(tag)
    ensures ExtractFromModelOutput(tokens, predictions, id2label) == Entities(NoEntities)
  {
    var units := FilterSpecial(tokens, predictions, id2label);
    forall k | 0 <= k < |units|
      ensures !IsBegin(units[k].tag)
    {
      assert units[k].tag == Outside || units[k].tag in id2label.Values;
    }
    ExtractWithoutBeginIsEmpty(units);
  }

  /** A `B-` label arriving while an entity is being built saves that entity,
      stripped, under its own type, and opens a new entity with the new
      piece: two entities in a row are never merged. */
  lemma BeginClosesOpenEntity(units: seq<LabelUnit>, u: LabelUnit)
    requires Run(units).Running? && IsBegin(u.tag)
    requires Run(units).open.Pending() && Run(units).open.kind in EntityTypes
    ensures var p := Run(units); var q := Run(units + [u]);
      && q.Running?
      && q.open == Building(PieceText(u.token), TypeOf(u.tag))
      && q.groups.Get(p.open.kind) == p.groups.Get(p.open.kind) + [Strip(p.open.text)]
      && (forall other :: other in EntityTypes && other != p.open.kind ==> q.groups.Get(other) == p.groups.Get(other))
  {
    RunAppend(units, u);
  }

  /** An `I-` label of the open type appends the piece: a continuation piece
      without its marker and with no space, any other piece after one space. */
  lemma InsideOfSameTypeExtends(units: seq<LabelUnit>, u: LabelUnit)
    requires Run(units).Running? && Run(units).open.kind != ""
    requires IsInside(u.tag) && TypeOf(u.tag) == Run(units).open.kind
    ensures var p := Run(units); var q := Run(units + [u]);
      && q.Running? && q.groups == p.groups && q.open.kind == p.open.kind
      && (StartsWith(u.token, ContinuationMarker) ==> q.open.text == p.open.text + u.token[2..])
      && (!StartsWith(u.token, ContinuationMarker) ==> q.open.text == p.open.text + " " + u.token)
  {
    RunAppend(units, u);
  }

  /** Step helper for the worked examples: a stream opening with a `B-`
      label starts an entity from that piece. */
  lemma FirstBeginOpens(u: LabelUnit)
    requires IsBegin(u.tag)
    ensures Run([u]) == Running(NoEntities, Building(PieceText(u.token), TypeOf(u.tag)))
  {
    RunAppend([], u);
    assert [] + [u] == [u];
  }

  /** Step helper for the worked examples: a `B-` label saves the open
      entity and opens a new one from its piece. */
  lemma BeginStep(units: seq<LabelUnit>, u: LabelUnit, g: Groups, b: Building, g': Groups)
    requires Run(units) == Running(g, b) && Flush(g, b) == Some(g') && IsBegin(u.tag)
    ensures Run(units + [u]) == Running(g', Building(PieceText(u.token), TypeOf(u.tag)))
  {
    RunAppend(units, u);
  }

  /** Step helper for the worked examples: the result is the state after
      the last pair with the open entity saved. */
  lemma FinishStep(units: seq<LabelUnit>, g: Groups, b: Building, g': Groups)
    requires Run(units) == Running(g, b) && Flush(g, b) == Some(g')
    ensures ExtractEntities(units) == Entities(g')
  {
  }

  /** Step helper for the worked examples: an `I-` label of the open type
      extends the open text by `Extend`. */
  lemma InsideStep(units: seq<LabelUnit>, u: LabelUnit, g: Groups, text: string, kind: string)
    requires Run(units) == Running(g, Building(text, kind)) && kind != ""
    requires IsInside(u.tag) && TypeOf(u.tag) == kind
    ensures Run(units + [u]) == Running(g, Building(Extend(text, u.token), kind))
  {
    RunAppend(units, u);
  }

  /** An `I-` label of another type than the open one changes nothing: the
      entity stays open with its text, and a later `I-` of the right type
      still extends it. */
  lemma MismatchedInsideIgnored(units: seq<LabelUnit>, u: LabelUnit, v: LabelUnit)
    requires Run(units).Running? && Run(units).open.kind != ""
    requires IsInside(u.tag) && TypeOf(u.tag) != Run(units).open.kind
    ensures Run(units + [u]) == Run(units)
    ensures Run(units + [u, v]) == Run(units + [v])
  {
    RunAppend(units, u);
    RunAppend(units + [u], v);
    RunAppend(units, v);
    assert units + [u] + [v] == units + [u, v];
  }

  /** An `O` label, or an `I-` label with no entity open, saves the open
      entity if it has text and leaves nothing open. */
  lemma OutsideClosesOpenEntity(units: seq<LabelUnit>, u: LabelUnit)
    requires Run(units).Running? && !IsBegin(u.tag)
    requires !(IsInside(u.tag) && Run(units).open.kind != "")
    requires !Run(units).open.Pending() || Run(units).open.kind in EntityTypes
    ensures var p := Run(units); var q := Run(units + [u]);
      && q.Running? && q.open == Idle
      && (p.open.Pending() ==> q.groups.Get(p.open.kind) == p.groups.Get(p.open.kind) + [Strip(p.open.text)])
      && (p.open.Pending() ==> q.groups.Count() == p.groups.Count() + 1)
      && (!p.open.Pending() ==> q.groups == p.groups)
  {
    RunAppend(units, u);
  }

  /** The entity still open when the stream ends is saved too. */
  lemma TrailingEntitySaved(units: seq<LabelUnit>)
    requires Run(units).Running? && Run(units).open.Pending() && Run(units).open.kind in EntityTypes
    ensures var p := Run(units); var r := ExtractEntities(units);
      && r.Entities?
      && r.groups.Get(p.open.kind) == p.groups.Get(p.open.kind) + [Strip(p.open.text)]
      && r.groups.Count() == p.groups.Count() + 1
  {
  }

  /** A word is its own stripped form. */
  lemma WordIsStripped(w: string)
    requires IsWord(w)
    ensures Strip(w) == w
  {
    assert IsStripped(w);
  }

  /** The loop state after two `B-` labels of one type: the first word is
      saved and the second one is open. */
  lemma TwoBeginsRun(kind: string, a: string, b: string)
    requires kind in EntityTypes && IsWord(a)
    requires !StartsWith(a, ContinuationMarker) && !StartsWith(b, ContinuationMarker)
    ensures Run([LabelUnit(a, "B-" + kind), LabelUnit(b, "B-" + kind)])
      == Running(NoEntities.Append(kind, a).value, Building(b, kind))
  {
    var u1 := LabelUnit(a, "B-" + kind);
    var u2 := LabelUnit(b, "B-" + kind);
    TagsOfKind(kind);
    WordIsStripped(a);
    FirstBeginOpens(u1);
    BeginStep([u1], u2, NoEntities, Building(a, kind), NoEntities.Append(kind, a).value);
    assert [u1] + [u2] == [u1, u2];
  }

  /** Two consecutive `B-` labels of one type give two strings, never one. */
  lemma AdjacentBeginsStaySeparate(kind: string, a: string, b: string)
    requires kind in EntityTypes && IsWord(a) && IsWord(b)
    requires !StartsWith(a, ContinuationMarker) && !StartsWith(b, ContinuationMarker)
    ensures var r := ExtractEntities([LabelUnit(a, "B-" + kind), LabelUnit(b, "B-" + kind)]);
      r.Entities? && r.groups.Get(kind) == [a, b] && r.groups.Count() == 2
  {
    var g1 := NoEntities.Append(kind, a).value;
    TwoBeginsRun(kind, a, b);
    WordIsStripped(b);
    FinishStep([LabelUnit(a, "B-" + kind), LabelUnit(b, "B-" + kind)], g1, Building(b, kind), g1.Append(kind, b).value);
  }

  /** A `##` piece continuing an entity is glued to it without a space. */
  lemma ContinuationPieceJoins(kind: string, a: string, piece: string)
    requires kind in EntityTypes && IsWord(a) && IsWord(piece)
    requires !StartsWith(a, ContinuationMarker)
    ensures var r := ExtractEntities([LabelUnit(a, "B-" + kind), LabelUnit(ContinuationMarker + piece, "I-" + kind)]);
      r.Entities? && r.groups.Get(kind) == [a + piece] && r.groups.Count() == 1
  {
    var u1 := LabelUnit(a, "B-" + kind);
    var u2 := LabelUnit(ContinuationMarker + piece, "I-" + kind);
    TagsOfKind(kind);
    assert Run([u1, u2]) == Running(NoEntities, Building(a + piece, kind)) by {
      FirstBeginOpens(u1);
      assert StartsWith(u2.token, ContinuationMarker) && u2.token[2..] == piece;
      InsideStep([u1], u2, NoEntities, a, kind);
      assert [u1] + [u2] == [u1, u2];
    }
    assert Strip(a + piece) == a + piece by {
      assert IsStripped(a + piece);
    }
    FinishStep([u1, u2], NoEntities, Building(a + piece, kind), NoEntities.Append(kind, a + piece).value);
  }

  /** An entity labelled word by word, running to the end of the stream, is
      saved as its words joined by single spaces. */
  lemma WordByWordEntity(kind: string, a: string, b: string, c: string)
    requires kind in EntityTypes && IsWord(a) && IsWord(b) && IsWord(c)
    requires !StartsWith(a, ContinuationMarker) && !StartsWith(b, ContinuationMarker) && !StartsWith(c, ContinuationMarker)
    ensures var r := ExtractEntities([LabelUnit(a, "B-" + kind), LabelUnit(b, "I-" + kind), LabelUnit(c, "I-" + kind)]);
      r.Entities? && r.groups.Get(kind) == [a + " " + b + " " + c] && r.groups.Count() == 1
  {
    var u1 := LabelUnit(a, "B-" + kind);
    var u2 := LabelUnit(b, "I-" + kind);
    var u3 := LabelUnit(c, "I-" + kind);
    var text := a + " " + b + " " + c;
    TagsOfKind(kind);
    assert Run([u1, u2]) == Running(NoEntities, Building(a + " " + b, kind)) by {
      FirstBeginOpens(u1);
      InsideStep([u1], u2, NoEntities, a, kind);
      assert [u1] + [u2] == [u1, u2];
    }
    assert Run([u1, u2, u3]) == Running(NoEntities, Building(text, kind)) by {
      InsideStep([u1, u2], u3, NoEntities, a + " " + b, kind);
      assert [u1, u2] + [u3] == [u1, u2, u3];
    }
    assert Strip(text) == text by {
      assert text[0] == a[0] && text[|text| - 1] == c[|c| - 1];
      assert IsStripped(text);
    }
    FinishStep([u1, u2, u3], NoEntities, Building(text, kind), NoEntities.Append(kind, text).value);
  }

  /** The words of the worked examples: a non-empty string without spaces
      that does not open with `#` is a word and no continuation piece. */
  lemma PlainWord(w: string)
    requires |w| > 0 && w[0] != '#' && NoSpace(w)
    ensures IsWord(w) && !StartsWith(w, ContinuationMarker)
  {
  }

  /** The worked example: "Nguyễn" followed by the piece "##Huệ" is the
      street "NguyễnHuệ". */
  lemma ContinuationPieceJoinsWithoutSpace()
    ensures ExtractEntities([LabelUnit("Nguyễn", "B-STREET"), LabelUnit("##Huệ", "I-STREET")])
      == Entities(Groups(["NguyễnHuệ"], [], [], []))
  {
    PlainWord("Nguyễn");
    PlainWord("Huệ");
    ContinuationPieceJoins("STREET", "Nguyễn", "Huệ");
    assert "B-" + "STREET" == "B-STREET" && "I-" + "STREET" == "I-STREET";
    assert ContinuationMarker + "Huệ" == "##Huệ" && "Nguyễn" + "Huệ" == "NguyễnHuệ";
    var r := ExtractEntities([LabelUnit("Nguyễn", "B-STREET"), LabelUnit("##Huệ", "I-STREET")]);
    assert r.Entities? && r.groups.street == ["NguyễnHuệ"] && r.groups.Count() == 1;
    assert r.groups.ward == [] && r.groups.district == [] && r.groups.province == [];
  }
}
