/**
 The two shapes of a script plan: the draft a writer edits, without anything derived mechanically, and
 the formal document on disk. Building the formal units from flat ones and flattening them again are
 inverse to each other, and reading a promoted plan back gives the draft it came from.
 */
module ScriptPlanShapes {
  import opened Wrappers
  import opened Json
  import Decimal

  // ---- unit ids ----------------------------------------------------------------------------

  /** `E{episode}U{index:02d}` */
  function UnitId(episode: nat, index: nat): string { ['E'] + Numbers(episode, index) }

  lemma UnitIdText(episode: nat, index: nat)
    ensures UnitId(episode, index)
         == "E" + Decimal.Digits(episode) + "U" + (if index < 10 then "0" else "") + Decimal.Digits(index)
  {}

  function Numbers(episode: nat, index: nat): string { Decimal.Digits(episode) + ['U'] + Decimal.Pad2(index) }

  lemma NumbersInjective(e1: nat, i1: nat, e2: nat, i2: nat)
    requires Numbers(e1, i1) == Numbers(e2, i2)
    ensures e1 == e2 && i1 == i2
  {
    Decimal.DigitsRoundTrip(e1);
    Decimal.DigitsRoundTrip(e2);
    Decimal.Pad2RoundTrip(i1);
    Decimal.Pad2RoundTrip(i2);
    Decimal.SplitAtMark(Decimal.Digits(e1), Decimal.Pad2(i1), Decimal.Digits(e2), Decimal.Pad2(i2), 'U');
  }

  /** Distinct (episode, index) pairs have distinct unit ids, beyond two-digit indices too. */
  lemma UnitIdInjective(e1: nat, i1: nat, e2: nat, i2: nat)
    ensures UnitId(e1, i1) == UnitId(e2, i2) <==> e1 == e2 && i1 == i2
  {
    if UnitId(e1, i1) == UnitId(e2, i2) {
      assert UnitId(e1, i1)[1..] == Numbers(e1, i1) && UnitId(e2, i2)[1..] == Numbers(e2, i2);
      NumbersInjective(e1, i1, e2, i2);
    }
  }

  // ---- reference units ---------------------------------------------------------------------

  /** A unit of the draft: what its author writes, as validation and retrieval leave it. */
  datatype FlatUnit = FlatUnit(duration: Json, source: Json, text: string)

  const BLANK: FlatUnit := FlatUnit(Null, Text(""), "")

  /** One formal unit as a flat one; fields are carried over as they are, anything but an object goes blank. */
  function FlattenUnit(unit: Json): FlatUnit {
    if !unit.Object? then BLANK
    else
      var text := Get(unit.fields, "text", Null);
      FlatUnit(
        Get(unit.fields, "duration_seconds", Null),
        Get(unit.fields, "source_text", Text("")),
        if text.Text? then text.text else "")
  }

  /** What is there is carried over; what is missing or no text is blank. */
  lemma FlattenCarriesOver(unit: Json)
    ensures var flat := FlattenUnit(unit);
            if unit.Object? then
              && (if "duration_seconds" in unit.fields then flat.duration == unit.fields["duration_seconds"]
                  else flat.duration == Null)
              && (if "source_text" in unit.fields then flat.source == unit.fields["source_text"]
                  else flat.source == Text(""))
              && (if "text" in unit.fields && unit.fields["text"].Text? then Text(flat.text) == unit.fields["text"]
                  else flat.text == "")
            else flat.duration == Null && flat.source == Text("") && flat.text == ""
  {}

  /** However malformed, no unit is dropped or moved: each keeps its place in the list. */
  function Flatten(units: seq<Json>): (flat: seq<FlatUnit>)
    ensures |flat| == |units|
  {
    seq(|units|, i requires 0 <= i < |units| => FlattenUnit(units[i]))
  }

  function BuildUnit(flat: FlatUnit, episode: nat, index: nat): Json {
    Object(map[
      "unit_id" := Text(UnitId(episode, index)),
      "text" := Text(flat.text),
      "duration_seconds" := flat.duration,
      "source_text" := flat.source])
  }

  /** The flat units, numbered from one. */
  function Build(flat: seq<FlatUnit>, episode: nat): (units: seq<Json>)
    ensures |units| == |flat|
  {
    seq(|flat|, i requires 0 <= i < |flat| => BuildUnit(flat[i], episode, 1 + i))
  }

  /** A formal unit in the form the builder writes at this position. */
  predicate IsCanonical(unit: Json, episode: nat, index: nat) {
    unit.Object?
    && unit.fields.Keys == {"unit_id", "text", "duration_seconds", "source_text"}
    && unit.fields["unit_id"] == Text(UnitId(episode, index)) && unit.fields["text"].Text?
  }

  predicate AllCanonical(units: seq<Json>, episode: nat) {
    forall i :: 0 <= i < |units| ==> IsCanonical(units[i], episode, 1 + i)
  }

  lemma FlattenBuiltUnit(flat: FlatUnit, episode: nat, index: nat)
    ensures FlattenUnit(BuildUnit(flat, episode, index)) == flat
  {}

  /** Flattening the units built from a flat draft gives that draft back. */
  lemma FlattenUndoesBuild(flat: seq<FlatUnit>, episode: nat)
    ensures Flatten(Build(flat, episode)) == flat
  {
    var back := Flatten(Build(flat, episode));
    forall i: nat | i < |flat| ensures back[i] == flat[i] {
      FlattenBuiltUnit(flat[i], episode, 1 + i);
    }
  }

  lemma BuildFlattenedUnit(unit: Json, episode: nat, index: nat)
    ensures BuildUnit(FlattenUnit(unit), episode, index) == unit <==> IsCanonical(unit, episode, index)
  {
    var back := BuildUnit(FlattenUnit(unit), episode, index);
    if IsCanonical(unit, episode, index) {
      assert back.fields == unit.fields;
    }
  }

  /** Rebuilding a flattened list gives that list back exactly when every unit is in canonical form. */
  lemma BuildUndoesFlattenIffCanonical(units: seq<Json>, episode: nat)
    ensures Build(Flatten(units), episode) == units <==> AllCanonical(units, episode)
  {
    var back := Build(Flatten(units), episode);
    forall i: nat | i < |units| ensures back[i] == units[i] <==> IsCanonical(units[i], episode, 1 + i) {
      BuildFlattenedUnit(units[i], episode, 1 + i);
    }
    assert AllCanonical(units, episode) <==> forall i :: 0 <= i < |units| ==> back[i] == units[i];
  }

  /** Promoting a retrieved plan unchanged and retrieving it again finds the same draft, however malformed it was. */
  lemma RetrievalIsStable(units: seq<Json>, episode: nat)
    ensures Flatten(Build(Flatten(units), episode)) == Flatten(units)
  {
    FlattenUndoesBuild(Flatten(units), episode);
  }

  function DocumentOf(flat: FlatUnit): Json {
    Object(map["duration_seconds" := flat.duration, "source_text" := flat.source, "text" := Text(flat.text)])
  }

  /** The flat units as they stand in the draft's document. */
  function Documents(flat: seq<FlatUnit>): (documents: seq<Json>)
    ensures |documents| == |flat|
  {
    seq(|flat|, i requires 0 <= i < |flat| => DocumentOf(flat[i]))
  }

  // ---- new assets --------------------------------------------------------------------------

  type NameKey = string -> string

  /** Two proposed assets count as the same when type and normalised name agree. */
  function Marker(key: NameKey, item: map<string, Json>): (Json, string) {
    var name := Get(item, "name", Null);
    (Get(item, "type", Null), if name.Text? then key(name.text) else "")
  }

  /** A field's value, a missing one counting as null. */
  predicate FieldIs(item: map<string, Json>, field: string, value: Json) {
    if field in item then item[field] == value else value == Null
  }

  /** The normalised name; anything but text counts as the empty one. */
  predicate NormalName(key: NameKey, item: map<string, Json>, name: string) {
    if "name" in item && item["name"].Text? then name == key(item["name"].text) else name == ""
  }

  lemma MarkersAgree(key: NameKey, a: map<string, Json>, b: map<string, Json>)
    ensures Marker(key, a) == Marker(key, b) <==>
              && (exists kind :: FieldIs(a, "type", kind) && FieldIs(b, "type", kind))
              && (exists name :: NormalName(key, a, name) && NormalName(key, b, name))
  {
    assert FieldIs(a, "type", Marker(key, a).0) && FieldIs(b, "type", Marker(key, b).0);
    assert NormalName(key, a, Marker(key, a).1) && NormalName(key, b, Marker(key, b).1);
  }

  /** `dedupe_new_assets`: of equal ones only the first stays. */
  function Dedupe(key: NameKey, items: seq<map<string, Json>>, seen: set<(Json, string)>): seq<map<string, Json>> {
    if items == [] then []
    else
      var marker := Marker(key, items[0]);
      if marker in seen then Dedupe(key, items[1..], seen)
      else [items[0]] + Dedupe(key, items[1..], seen + {marker})
  }

  /** No two of the items share a marker, and none has a marker already seen. */
  predicate Unlike(key: NameKey, items: seq<map<string, Json>>, seen: set<(Json, string)>) {
    items == []
    || (Marker(key, items[0]) !in seen && Unlike(key, items[1..], seen + {Marker(key, items[0])}))
  }

  lemma {:induction false} DedupeUnlike(key: NameKey, items: seq<map<string, Json>>, seen: set<(Json, string)>)
    ensures Unlike(key, Dedupe(key, items, seen), seen)
  {
    if items != [] {
      var marker := Marker(key, items[0]);
      if marker in seen {
        DedupeUnlike(key, items[1..], seen);
      } else {
        DedupeUnlike(key, items[1..], seen + {marker});
        assert Dedupe(key, items, seen)[1..] == Dedupe(key, items[1..], seen + {marker});
      }
    }
  }

  lemma {:induction false} DedupeOfUnlike(key: NameKey, items: seq<map<string, Json>>, seen: set<(Json, string)>)
    requires Unlike(key, items, seen)
    ensures Dedupe(key, items, seen) == items
  {
    if items != [] {
      DedupeOfUnlike(key, items[1..], seen + {Marker(key, items[0])});
    }
  }

  /** Deduplication settles in one pass. */
  lemma DedupeIdempotent(key: NameKey, items: seq<map<string, Json>>)
    ensures Dedupe(key, Dedupe(key, items, {}), {}) == Dedupe(key, items, {})
  {
    DedupeUnlike(key, items, {});
    DedupeOfUnlike(key, Dedupe(key, items, {}), {});
  }

  /** No earlier item counts as the same. */
  predicate FirstOfItsKind(key: NameKey, items: seq<map<string, Json>>, i: nat)
    requires i < |items|
  {
    forall j :: 0 <= j < i ==> Marker(key, items[j]) != Marker(key, items[i])
  }

  predicate Unseen(key: NameKey, items: seq<map<string, Json>>, seen: set<(Json, string)>, i: nat)
    requires i < |items|
  {
    Marker(key, items[i]) !in seen && FirstOfItsKind(key, items, i)
  }

  /** Those numbered, in their order. */
  predicate Picks<T(==)>(numbers: seq<nat>, items: seq<T>, picked: seq<T>) {
    && |numbers| == |picked|
    && (forall i, j :: 0 <= i < j < |numbers| ==> numbers[i] < numbers[j])
    && (forall i :: 0 <= i < |numbers| ==> numbers[i] < |items| && picked[i] == items[numbers[i]])
  }

  function Shifted(numbers: seq<nat>): (r: seq<nat>)
    ensures |r| == |numbers| && forall i :: 0 <= i < |numbers| ==> r[i] == numbers[i] + 1
  {
    seq(|numbers|, i requires 0 <= i < |numbers| => numbers[i] + 1)
  }

  lemma UnseenBehind(key: NameKey, items: seq<map<string, Json>>, seen: set<(Json, string)>, i: nat)
    requires i < |items| - 1
    ensures Unseen(key, items, seen, i + 1) <==> Unseen(key, items[1..], seen + {Marker(key, items[0])}, i)
  {
    var rest := items[1..];
    assert forall j :: 0 < j < |items| ==> items[j] == rest[j - 1];
    if FirstOfItsKind(key, rest, i) && Marker(key, items[0]) != Marker(key, items[i + 1]) {
      forall j | 0 <= j < i + 1 ensures Marker(key, items[j]) != Marker(key, items[i + 1]) {
        assert j > 0 ==> Marker(key, rest[j - 1]) != Marker(key, rest[i]);
      }
    }
    if FirstOfItsKind(key, items, i + 1) {
      forall j | 0 <= j < i ensures Marker(key, rest[j]) != Marker(key, rest[i]) {
        assert Marker(key, items[j + 1]) != Marker(key, items[i + 1]);
      }
    }
  }

  lemma PicksWith<T>(numbers: seq<nat>, items: seq<T>, picked: seq<T>)
    requires items != [] && Picks(numbers, items[1..], picked)
    ensures Picks([0] + Shifted(numbers), items, [items[0]] + picked)
  {
    var all, rest := [0] + Shifted(numbers), items[1..];
    forall i | 0 < i < |all|
      ensures all[i] == numbers[i - 1] + 1 && all[i] < |items| && items[all[i]] == picked[i - 1]
    {
      assert rest[numbers[i - 1]] == picked[i - 1];
    }
  }

  lemma PicksWithout<T>(numbers: seq<nat>, items: seq<T>, picked: seq<T>)
    requires items != [] && Picks(numbers, items[1..], picked)
    ensures Picks(Shifted(numbers), items, picked)
  {
    var rest := items[1..];
    forall i | 0 <= i < |numbers| ensures numbers[i] + 1 < |items| && items[numbers[i] + 1] == picked[i] {
      assert rest[numbers[i]] == picked[i];
    }
  }

  /** The numbers picked of the items behind the first tell those of all. */
  lemma PickedBehind(
    key: NameKey, items: seq<map<string, Json>>, seen: set<(Json, string)>, rest: seq<nat>, numbers: seq<nat>)
    requires items != [] && numbers == (if Marker(key, items[0]) in seen then [] else [0]) + Shifted(rest)
    requires forall i: nat :: i < |items| - 1 ==>
               (i in rest <==> Unseen(key, items[1..], seen + {Marker(key, items[0])}, i))
    ensures forall i: nat :: i < |items| ==> (i in numbers <==> Unseen(key, items, seen, i))
  {
    forall i: nat | i < |items| ensures i in numbers <==> Unseen(key, items, seen, i) {
      ShiftedHolds(rest, if i > 0 then i - 1 else 0);
      assert i in numbers <==> (i == 0 && Marker(key, items[0]) !in seen) || i in Shifted(rest);
      if i > 0 {
        UnseenBehind(key, items, seen, i - 1);
      }
    }
  }

  lemma {:induction false} DedupePicks(key: NameKey, items: seq<map<string, Json>>, seen: set<(Json, string)>)
    returns (numbers: seq<nat>)
    ensures Picks(numbers, items, Dedupe(key, items, seen))
    ensures forall i: nat :: i < |items| ==> (i in numbers <==> Unseen(key, items, seen, i))
    decreases |items|
  {
    if items == [] {
      numbers := [];
    } else {
      var marker := Marker(key, items[0]);
      var rest := DedupePicks(key, items[1..], seen + {marker});
      numbers := (if marker in seen then [] else [0]) + Shifted(rest);
      PickedBehind(key, items, seen, rest, numbers);
      if marker in seen {
        assert seen + {marker} == seen && numbers == Shifted(rest);
        PicksWithout(rest, items, Dedupe(key, items[1..], seen));
      } else {
        PicksWith(rest, items, Dedupe(key, items[1..], seen + {marker}));
      }
    }
  }

  lemma ShiftedHolds(numbers: seq<nat>, n: nat)
    ensures n + 1 in Shifted(numbers) <==> n in numbers
    ensures 0 !in Shifted(numbers)
  {
    if n in numbers {
      var i :| 0 <= i < |numbers| && numbers[i] == n;
      assert Shifted(numbers)[i] == n + 1;
    }
  }

  /** Deduplication keeps, in order, exactly the items of which no earlier one counts as the same. */
  lemma DedupeKeepsFirsts(key: NameKey, items: seq<map<string, Json>>) returns (numbers: seq<nat>)
    ensures Picks(numbers, items, Dedupe(key, items, {}))
    ensures forall i: nat :: i < |items| ==> (i in numbers <==> FirstOfItsKind(key, items, i))
  {
    numbers := DedupePicks(key, items, {});
    forall i: nat | i < |items| ensures i in numbers <==> FirstOfItsKind(key, items, i) {
      assert i in numbers <==> Unseen(key, items, {}, i);
    }
  }

  function Objects(items: seq<map<string, Json>>): Json {
    Array(seq(|items|, i requires 0 <= i < |items| => Object(items[i])))
  }

  /** `with_new_assets`: the field is written only when something remains. */
  function WithNewAssets(key: NameKey, fields: map<string, Json>, items: seq<map<string, Json>>): map<string, Json> {
    var kept := Dedupe(key, items, {});
    if kept == [] then fields - {"new_assets"} else fields["new_assets" := Objects(kept)]
  }

  function NewAssetsOf(fields: map<string, Json>): map<string, Json> {
    if "new_assets" in fields then map["new_assets" := fields["new_assets"]] else map[]
  }

  /** The field holds the items that remain, and is absent when there are none; the other fields stay. */
  lemma NewAssetsWritten(key: NameKey, fields: map<string, Json>, items: seq<map<string, Json>>)
    ensures var written := WithNewAssets(key, fields, items);
            && written - {"new_assets"} == fields - {"new_assets"}
            && ("new_assets" in written <==> items != [])
            && (items != [] ==>
                  && written["new_assets"].Array? && |written["new_assets"].items| == |Dedupe(key, items, {})| > 0
                  && forall i :: 0 <= i < |Dedupe(key, items, {})| ==>
                       written["new_assets"].items[i] == Object(Dedupe(key, items, {})[i]))
  {}

  /** What is read back of the new assets is what was written, whatever the other fields were. */
  lemma NewAssetsCarryOver(key: NameKey, formal: map<string, Json>, draft: map<string, Json>,
                           items: seq<map<string, Json>>)
    requires "new_assets" !in formal && "new_assets" !in draft
    ensures NewAssetsOf(WithNewAssets(key, formal, items)) + draft == WithNewAssets(key, draft, items)
  {}

  lemma OtherFieldsKept(key: NameKey, fields: map<string, Json>, items: seq<map<string, Json>>, field: string)
    requires field in fields && field != "new_assets"
    ensures var written := WithNewAssets(key, fields, items);
            field in written && written[field] == fields[field]
  {}

  // ---- draft shapes of the three variants --------------------------------------------------

  datatype Variant = Reference | Drama | Narration

  function ListField(variant: Variant): string {
    match variant
    case Reference => "units"
    case Drama => "scenes"
    case Narration => "segments"
  }

  predicate HasList(fields: map<string, Json>, field: string) {
    field in fields && fields[field].Array? && fields[field].items != []
  }

  function WithoutMarker(scene: Json): Json {
    if scene.Object? then Object(scene.fields - {"needs_replan"}) else scene
  }

  function StripMarkers(scenes: seq<Json>): (stripped: seq<Json>)
    ensures |stripped| == |scenes|
    ensures forall i :: 0 <= i < |scenes| ==> stripped[i] == WithoutMarker(scenes[i])
  {
    if scenes == [] then [] else [WithoutMarker(scenes[0])] + StripMarkers(scenes[1..])
  }

  /** The draft a formal plan is retrieved as; none when its list is missing, no list, or empty. */
  function DraftShape(variant: Variant, document: Json): Option<Json> {
    if !document.Object? || !HasList(document.fields, ListField(variant)) then None
    else
      var fields := document.fields;
      var items := fields[ListField(variant)].items;
      Some(Object(NewAssetsOf(fields) + match variant
        case Reference => map["units" := Array(Documents(Flatten(items)))]
        case Drama => map["title" := Get(fields, "title", Text("")), "scenes" := Array(StripMarkers(items))]
        case Narration => map["segments" := Array(items)]))
  }

  /** Without the marker for replanning, otherwise as it was. */
  lemma MarkerStripped(scene: Json)
    ensures !scene.Object? ==> WithoutMarker(scene) == scene
    ensures scene.Object? ==>
              var stripped := WithoutMarker(scene);
              && stripped.Object? && "needs_replan" !in stripped.fields
              && forall field :: field != "needs_replan" ==>
                   && (field in stripped.fields <==> field in scene.fields)
                   && (field in scene.fields ==> stripped.fields[field] == scene.fields[field])
  {}

  /** When a plan can be retrieved, with which fields, and what becomes of its items. */
  lemma DraftShapeHas(variant: Variant, document: Json)
    ensures var field := ListField(variant);
            && (DraftShape(variant, document) == None <==>
                  !(document.Object? && field in document.fields && document.fields[field].Array?
                    && document.fields[field].items != []))
            && (DraftShape(variant, document).Some? ==>
                  var items, draft := document.fields[field].items, DraftShape(variant, document).value;
                  && draft.Object? && field in draft.fields && draft.fields[field].Array?
                  && |draft.fields[field].items| == |items|
                  && (forall i :: 0 <= i < |items| ==> Retrieved(variant, items[i], draft.fields[field].items[i]))
                  && draft.fields.Keys
                  == {field} + (if variant.Drama? then {"title"} else {})
                     + (if "new_assets" in document.fields then {"new_assets"} else {})
                  && ("new_assets" in document.fields ==>
                        draft.fields["new_assets"] == document.fields["new_assets"])
                  && (variant.Drama? ==>
                        draft.fields["title"]
                        == (if "title" in document.fields then document.fields["title"] else Text(""))))
  {
    if DraftShape(variant, document).Some? {
      var items := document.fields[ListField(variant)].items;
      var draft := DraftShape(variant, document).value;
      assert variant.Reference? ==> draft.fields["units"].items == Documents(Flatten(items));
    }
  }

  /** An item as the draft shows it. */
  predicate Retrieved(variant: Variant, item: Json, shown: Json) {
    match variant
    case Narration => shown == item
    case Drama => shown == WithoutMarker(item)
    case Reference =>
      && shown.Object? && shown.fields.Keys == {"duration_seconds", "source_text", "text"}
      && shown.fields["duration_seconds"] == FlattenUnit(item).duration
      && shown.fields["source_text"] == FlattenUnit(item).source
      && shown.fields["text"] == Text(FlattenUnit(item).text)
  }

  /** The draft and the formal document a reference plan is saved as. */
  function ReferenceDraft(key: NameKey, flat: seq<FlatUnit>, assets: seq<map<string, Json>>): Json {
    Object(WithNewAssets(key, map["units" := Array(Documents(flat))], assets))
  }

  function ReferenceFormal(key: NameKey, flat: seq<FlatUnit>, assets: seq<map<string, Json>>, episode: nat): Json {
    Object(WithNewAssets(key, map["units" := Array(Build(flat, episode))], assets))
  }

  lemma ReferenceShape(fields: map<string, Json>, items: seq<Json>)
    requires "units" in fields && fields["units"] == Array(items) && items != []
    ensures DraftShape(Reference, Object(fields))
         == Some(Object(NewAssetsOf(fields) + map["units" := Array(Documents(Flatten(items)))]))
  {}

  /** Reading a promoted reference plan back for editing gives the very draft that was promoted. */
  lemma ReopenedReferencePlan(key: NameKey, flat: seq<FlatUnit>, assets: seq<map<string, Json>>, episode: nat)
    requires flat != []
    ensures DraftShape(Reference, ReferenceFormal(key, flat, assets, episode))
         == Some(ReferenceDraft(key, flat, assets))
  {
    FlattenUndoesBuild(flat, episode);
    var units := Build(flat, episode);
    var formal := map["units" := Array(units)];
    OtherFieldsKept(key, formal, assets, "units");
    ReferenceShape(WithNewAssets(key, formal, assets), units);
    NewAssetsCarryOver(key, formal, map["units" := Array(Documents(flat))], assets);
  }

  function DramaPlan(key: NameKey, title: Json, scenes: seq<Json>, assets: seq<map<string, Json>>): Json {
    Object(WithNewAssets(key, map["title" := title, "scenes" := Array(scenes)], assets))
  }

  /** Marking scenes for replanning, by whatever admission decides, leaves no trace in the retrieved draft. */
  lemma {:induction false} ReopenedDramaPlan(key: NameKey, title: Json, scenes: seq<Json>, marked: seq<Json>,
                          assets: seq<map<string, Json>>)
    requires scenes != [] && |marked| == |scenes| && StripMarkers(marked) == scenes
    ensures DraftShape(Drama, DramaPlan(key, title, marked, assets)) == Some(DramaPlan(key, title, scenes, assets))
  {
    var formal := map["title" := title, "scenes" := Array(marked)];
    OtherFieldsKept(key, formal, assets, "title");
    OtherFieldsKept(key, formal, assets, "scenes");
    NewAssetsCarryOver(key, formal, map["title" := title, "scenes" := Array(scenes)], assets);
  }
}
