/**
 The projected commands do what the public operations do: run on the original script by the batch editor
 they yield the directly edited script, operation by operation, exactly if every split names an item whose
 id occurs once and whose predecessor is the first with its own id. Unique ids are enough for that.
 */
module ProjectionSoundness {
  import opened Wrappers
  import opened Json
  import opened ScriptEditor
  import opened PatchProjection
  import opened BatchEditor

  // ---- one operation at a time -------------------------------------------------------------

  lemma UpdateRuns(derive: Derive, c: Candidate, b: seq<Item>, id: string, edits: seq<FieldEdit>)
    requires Same(c.items, b) && edits != [] && PatchFields(b, id, edits).Ok?
    ensures Apply(derive, c, UpdateFields(id, edits), false).Ok?
    ensures Same(Apply(derive, c, UpdateFields(id, edits), false).value.items, PatchFields(b, id, edits).value)
  {
    PatchFieldsSame(c.items, b, id, edits);
    PatchFieldsKeepIds(c.items, id, edits);
    var i := Find(c.items, id);
    var after, wanted := PatchFields(c.items, id, edits).value, PatchFields(b, id, edits).value;
    var markers := derive(c.items[i].fields, after[i].fields);
    var result := after[i := Item(id, Marked(after[i].fields, markers))];
    MarkedIsBare(after[i].fields, markers);
    forall k | 0 <= k < |result| ensures SameItem(result[k], wanted[k]) {
      assert SameItem(after[k], wanted[k]);
    }
  }

  lemma BatchMoves(derive: Derive, c: Candidate, id: string, after: Option<string>)
    requires after != Some(id) && Find(c.items, id) < |c.items|
    requires PlaceAfter(RemoveAt(c.items, Find(c.items, id)), after).Ok?
    ensures var i := Find(c.items, id);
            var rest := RemoveAt(c.items, i);
            Apply(derive, c, MoveAfter(id, after), false)
            == Ok(c.(items := InsertAt(rest, PlaceAfter(rest, after).value, c.items[i])))
  {
    var i := Find(c.items, id);
    var rest := RemoveAt(c.items, i);
    if after.None? {
      assert InsertAt(rest, 0, c.items[i]) == [c.items[i]] + rest;
    }
  }

  lemma MoveRuns(derive: Derive, c: Candidate, b: seq<Item>, id: string, after: Option<string>)
    requires Same(c.items, b) && ScriptEditor.Move(b, id, after).Ok?
    ensures Apply(derive, c, MoveAfter(id, after), false).Ok?
    ensures Same(Apply(derive, c, MoveAfter(id, after), false).value.items, ScriptEditor.Move(b, id, after).value)
  {
    SameFind(c.items, b, id);
    var i := Find(b, id);
    SameRemoveAt(c.items, b, i);
    SamePlace(RemoveAt(c.items, i), RemoveAt(b, i), after);
    assert SameItem(c.items[i], b[i]);
    BatchMoves(derive, c, id, after);
    SameInsertAt(RemoveAt(c.items, i), RemoveAt(b, i), PlaceAfter(RemoveAt(b, i), after).value, c.items[i], b[i]);
  }

  lemma RemoveRuns(derive: Derive, c: Candidate, b: seq<Item>, id: string)
    requires Same(c.items, b) && ScriptEditor.Remove(b, id).Ok?
    ensures Apply(derive, c, RemoveItem(id), false).Ok?
    ensures var next := Apply(derive, c, RemoveItem(id), false).value;
            Same(next.items, ScriptEditor.Remove(b, id).value)
            && id in next.removed && Bare(next.removed[id]) == Bare(b[Find(b, id)].fields)
  {
    SameFind(c.items, b, id);
    var i := Find(b, id);
    assert SameItem(c.items[i], b[i]);
    SameRemoveAt(c.items, b, i);
  }

  /** Inserting an item whose media are already right puts exactly that item in place. */
  lemma InsertRuns(derive: Derive, c: Candidate, b: seq<Item>, after: Option<string>, item: Item, isNew: bool)
    requires Same(c.items, b) && item.id != "" && item.id !in Ids(b) && PlaceAfter(b, after).Ok?
    requires InsertedFields(c, item, isNew) == item.fields
    ensures Apply(derive, c, InsertAfter(after, item), isNew).Ok?
    ensures Same(Apply(derive, c, InsertAfter(after, item), isNew).value.items,
                 InsertAt(b, PlaceAfter(b, after).value, item))
  {
    SameIds(c.items, b);
    SamePlace(c.items, b, after);
    var markers := derive(map[], item.fields);
    MarkedIsBare(item.fields, markers);
    SameInsertAt(c.items, b, PlaceAfter(b, after).value, Item(item.id, Marked(item.fields, markers)), item);
  }

  lemma NewIdsAreNotBlank(script: Script, items: seq<Item>, base: string, taken: set<string>)
    ensures NewItemId(script, items) != "" && NextSuffixedId(base, taken) != ""
  {
    var n := Suffixed(Stem(base));
    var id := Render(n, FirstFree(Family(n), taken, 1));
    assert |id| > 0;
  }

  // ---- splits ------------------------------------------------------------------------------

  /** The list with the parts in place. */
  function WithParts(r: seq<Item>, at: nat, parts: seq<Item>): seq<Item>
    requires at <= |r|
  {
    r[..at] + parts + r[at..]
  }

  lemma WithPartsAt(r: seq<Item>, at: nat, parts: seq<Item>, j: nat)
    requires at <= |r| && j < |r| + |parts|
    ensures WithParts(r, at, parts)[j]
         == if j < at then r[j] else if j < at + |parts| then parts[j - at] else r[j - |parts|]
  {}

  lemma WithNoPart(r: seq<Item>, at: nat)
    requires at <= |r|
    ensures WithParts(r, at, []) == r
  {}

  lemma WithNextPart(r: seq<Item>, at: nat, parts: seq<Item>)
    requires at <= |r| && parts != []
    ensures WithParts(InsertAt(r, at, parts[0]), at + 1, parts[1..]) == WithParts(r, at, parts)
  {
    var next := InsertAt(r, at, parts[0]);
    assert next[..at + 1] == r[..at] + [parts[0]] && next[at + 1..] == r[at..];
    assert [parts[0]] + parts[1..] == parts;
  }

  /** The parts bring ids of their own, none of them in the list. */
  predicate NewTo(parts: seq<Item>, r: seq<Item>) {
    UniqueIds(parts) && forall j :: 0 <= j < |parts| ==> parts[j].id !in Ids(r)
  }

  lemma NextPartIsNew(r: seq<Item>, at: nat, parts: seq<Item>)
    requires at <= |r| && parts != [] && NewTo(parts, r)
    ensures NewTo(parts[1..], InsertAt(r, at, parts[0]))
  {
    var next := InsertAt(r, at, parts[0]);
    assert forall j :: 0 <= j < |next| ==> next[j] == if j < at then r[j] else if j == at then parts[0] else r[j - 1];
    assert Ids(next) <= Ids(r) + {parts[0].id};
  }

  lemma PlaceOfNext(r: seq<Item>, at: nat, item: Item)
    requires at <= |r| && item.id !in Ids(r)
    ensures PlaceAfter(InsertAt(r, at, item), Some(item.id)) == Ok(at + 1)
  {
    var next := InsertAt(r, at, item);
    assert next[at] == item && forall j :: 0 <= j < at ==> next[j] == r[j] && r[j].id in Ids(r);
    assert Find(next, item.id) == at;
  }

  /** The first re-insertion runs, and the others remain. */
  lemma FirstReinsertionRuns(
    derive: Derive, cand: Candidate, r: seq<Item>, at: nat, previous: Option<string>, parts: seq<Item>,
    source: nat, isNew: bool)
    returns (next: Candidate)
    requires parts != [] && parts[0].id != "" && parts[0].id !in Ids(r) && at <= |r| && Same(cand.items, r)
    requires PlaceAfter(r, previous) == Ok(at) && InsertedFields(cand, parts[0], isNew) == parts[0].fields
    ensures Same(next.items, InsertAt(r, at, parts[0]))
    ensures Execute(derive, cand, Reinsertions(previous, parts, source, isNew))
         == Execute(derive, next, Reinsertions(Some(parts[0].id), parts[1..], source, true))
  {
    InsertRuns(derive, cand, r, previous, parts[0], isNew);
    next := Apply(derive, cand, InsertAfter(previous, parts[0]), isNew).value;
    ExecuteCons(derive, cand, Projected(InsertAfter(previous, parts[0]), source, isNew),
                Reinsertions(Some(parts[0].id), parts[1..], source, true));
  }

  predicate AllReady(parts: seq<Item>) { forall j :: 0 <= j < |parts| ==> Ready(parts[j]) }

  lemma ReadyStays(cand: Candidate, parts: seq<Item>)
    requires AllReady(parts) && parts != []
    ensures parts[0].id != "" && InsertedFields(cand, parts[0], true) == parts[0].fields
  {
    assert Ready(parts[0]);
  }

  /** Re-inserting the parts behind one another puts them all where the first goes. */
  lemma {:induction false} ReinsertionsRun(
    derive: Derive, cand: Candidate, r: seq<Item>, at: nat, previous: Option<string>, parts: seq<Item>,
    source: nat, isNew: bool)
    requires NewTo(parts, r) && parts != [] && at <= |r| && Same(cand.items, r)
    requires PlaceAfter(r, previous) == Ok(at) && AllReady(parts[1..])
    requires parts[0].id != "" && InsertedFields(cand, parts[0], isNew) == parts[0].fields
    ensures var done := Execute(derive, cand, Reinsertions(previous, parts, source, isNew));
            done.Ok? && Same(done.value.items, WithParts(r, at, parts))
    decreases |parts|
  {
    var next := FirstReinsertionRuns(derive, cand, r, at, previous, parts, source, isNew);
    var more := parts[1..];
    WithNextPart(r, at, parts);
    if more == [] {
      WithNoPart(InsertAt(r, at, parts[0]), at + 1);
    } else {
      NextPartIsNew(r, at, parts);
      PlaceOfNext(r, at, parts[0]);
      ReadyStays(next, more);
      ReinsertionsRun(derive, next, InsertAt(r, at, parts[0]), at + 1, Some(parts[0].id), more, source, true);
    }
  }

  /** An item that inserting as a new identity leaves as it is. */
  predicate Ready(item: Item) { item.id != "" && WithoutMedia(item.fields) == item.fields }

  lemma {:induction false} NewPartsReady(id: string, taken: set<string>, parts: seq<map<string, Json>>)
    ensures forall item :: item in NewParts(id, taken, parts) ==> Ready(item)
    decreases |parts|
  {
    if parts != [] {
      var next := NextSuffixedId(id, taken);
      NewIdsAreNotBlank(Script(Segments, None), [], id, taken);
      WithoutMediaTwice(parts[0]);
      assert Ready(Item(next, WithoutMedia(parts[0])));
      NewPartsReady(id, taken + {next}, parts[1..]);
    }
  }

  /** No second item has the id of the split one. */
  predicate Once(b: seq<Item>, id: string) {
    forall j :: Find(b, id) < j < |b| ==> b[j].id != id
  }

  /** The item before the split one, if there is one, is the first with its id. */
  predicate Anchored(b: seq<Item>, id: string) {
    var i := Find(b, id);
    0 < i < |b| ==> Find(b, b[i - 1].id) == i - 1
  }

  /** Where the re-insertions put the parts: behind the first item with the predecessor's id. */
  function Landing(b: seq<Item>, id: string): (at: nat)
    requires Find(b, id) < |b|
    ensures at <= Find(b, id)
  {
    var i := Find(b, id);
    if i == 0 then 0
    else
      var p := Find(b, b[i - 1].id);
      assert p <= i - 1;
      p + 1
  }

  lemma LandingPlace(b: seq<Item>, id: string)
    requires Find(b, id) < |b|
    ensures PlaceAfter(RemoveAt(b, Find(b, id)), PreviousId(b, Find(b, id))) == Ok(Landing(b, id))
  {
    var i := Find(b, id);
    if i > 0 {
      FoundBy(b, i - 1, b[i - 1].id);
      FoundInRest(b, i, b[i - 1].id);
      PlaceBehind(RemoveAt(b, i), b[i - 1].id, Find(b, b[i - 1].id));
    }
  }

  lemma FoundBy(b: seq<Item>, j: nat, id: string)
    requires j < |b| && b[j].id == id
    ensures Find(b, id) <= j
  {}

  lemma PlaceBehind(r: seq<Item>, id: string, p: nat)
    requires Find(r, id) == p < |r|
    ensures PlaceAfter(r, Some(id)) == Ok(p + 1)
  {}

  lemma FoundInRest(b: seq<Item>, i: nat, id: string)
    requires Find(b, id) < i < |b|
    ensures Find(RemoveAt(b, i), id) == Find(b, id) < |RemoveAt(b, i)|
  {
    var r, p := RemoveAt(b, i), Find(b, id);
    assert forall j :: 0 <= j <= p ==> r[j] == b[j];
    var q := Find(r, id);
    assert q == p;
  }

  /** The parts keep the split id, which is gone, and otherwise bring ids the script did not hold. */
  lemma SplitIntoNew(b: seq<Item>, id: string, parts: seq<map<string, Json>>)
    requires Find(b, id) < |b| && parts != [] && Once(b, id)
    ensures NewTo(SplitInto(b, Find(b, id), parts), RemoveAt(b, Find(b, id)))
  {
    var i := Find(b, id);
    var into, more := SplitInto(b, i, parts), NewParts(b[i].id, Ids(b), parts[1..]);
    NewPartsFresh(b[i].id, Ids(b), parts[1..]);
    RestIds(b, id);
    assert b[i].id in Ids(b);
    assert forall j :: 0 < j < |into| ==> into[j] == more[j - 1];
  }

  lemma RestIds(b: seq<Item>, id: string)
    requires Find(b, id) < |b|
    ensures Ids(RemoveAt(b, Find(b, id))) <= Ids(b)
    ensures id in Ids(RemoveAt(b, Find(b, id))) <==> !Once(b, id)
  {
    var i := Find(b, id);
    var r := RemoveAt(b, i);
    assert forall j :: 0 <= j < |r| ==> r[j] == b[if j < i then j else j + 1];
    if !Once(b, id) {
      var j :| i < j < |b| && b[j].id == id;
      assert r[j - 1].id == id;
    }
  }

  lemma SplitReady(b: seq<Item>, i: nat, parts: seq<map<string, Json>>)
    requires i < |b| && parts != []
    ensures AllReady(SplitInto(b, i, parts)[1..])
  {
    NewPartsReady(b[i].id, Ids(b), parts[1..]);
    assert SplitInto(b, i, parts)[1..] == NewParts(b[i].id, Ids(b), parts[1..]);
  }

  /** A split of an item whose id occurs once runs, and puts the parts at the landing. */
  lemma SplitLands(
    derive: Derive, cand: Candidate, b: seq<Item>, id: string, parts: seq<map<string, Json>>, source: nat)
    requires Same(cand.items, b) && id != "" && ScriptEditor.Split(b, id, parts).Ok? && Once(b, id)
    ensures var i := Find(b, id);
            var c := ScriptEditor.Split(b, id, parts).value;
            var done := Execute(derive, cand, Commands(b, c, Split(id, parts), source));
            && i < |b| && done.Ok?
            && Same(done.value.items, WithParts(RemoveAt(b, i), Landing(b, id), SplitInto(b, i, parts)))
  {
    var i := Find(b, id);
    var r, into, at := RemoveAt(b, i), SplitInto(b, i, parts), Landing(b, id);
    var next := SplitBegins(derive, cand, b, id, parts, source);
    LandingPlace(b, id);
    SplitIntoNew(b, id, parts);
    SplitReady(b, i, parts);
    ReinsertionsRun(derive, next, r, at, PreviousId(b, i), into, source, false);
  }

  /** The removal goes through and leaves the rest, with the media of the removed item at hand. */
  lemma SplitBegins(
    derive: Derive, cand: Candidate, b: seq<Item>, id: string, parts: seq<map<string, Json>>, source: nat)
    returns (next: Candidate)
    requires Same(cand.items, b) && id != "" && ScriptEditor.Split(b, id, parts).Ok?
    ensures var i := Find(b, id);
            var c := ScriptEditor.Split(b, id, parts).value;
            && i < |b| && Same(next.items, RemoveAt(b, i))
            && InsertedFields(next, SplitInto(b, i, parts)[0], false) == SplitInto(b, i, parts)[0].fields
            && Execute(derive, cand, Commands(b, c, Split(id, parts), source))
            == Execute(derive, next, Reinsertions(PreviousId(b, i), SplitInto(b, i, parts), source, false))
  {
    var c, i := ScriptEditor.Split(b, id, parts).value, Find(b, id);
    SplitLandsInPlace(b, id, parts);
    SplitCommands(b, c, id, parts, source);
    RemoveRuns(derive, cand, b, id);
    next := Apply(derive, cand, RemoveItem(id), false).value;
    WithMediaAgain(parts[0], b[i].fields, next.removed[id]);
    ExecuteCons(derive, cand, Projected(RemoveItem(id), source, false),
                Reinsertions(PreviousId(b, i), SplitInto(b, i, parts), source, false));
  }

  lemma RefusedAtOnce(derive: Derive, cand: Candidate, previous: Option<string>, parts: seq<Item>, source: nat)
    requires parts != [] && parts[0].id != "" && parts[0].id in Ids(cand.items)
    ensures Execute(derive, cand, Reinsertions(previous, parts, source, false)) == Err(DuplicateId(parts[0].id))
  {}

  /** With a second item under its id, a split that succeeds directly is refused when projected. */
  lemma DuplicateIdsDefeatSplits(
    derive: Derive, cand: Candidate, b: seq<Item>, id: string, parts: seq<map<string, Json>>, source: nat)
    requires Same(cand.items, b) && id != "" && ScriptEditor.Split(b, id, parts).Ok? && !Once(b, id)
    ensures var c := ScriptEditor.Split(b, id, parts).value;
            Execute(derive, cand, Commands(b, c, Split(id, parts), source)) == Err(DuplicateId(id))
  {
    var i := Find(b, id);
    var next := SplitBegins(derive, cand, b, id, parts, source);
    SameIds(next.items, RemoveAt(b, i));
    RestIds(b, id);
    RefusedAtOnce(derive, next, PreviousId(b, i), SplitInto(b, i, parts), source);
  }

  /** Behind an earlier namesake of the predecessor, the parts land where another item belongs. */
  lemma MisplacedDiffers(b: seq<Item>, id: string, parts: seq<map<string, Json>>, result: seq<Item>)
    requires ScriptEditor.Split(b, id, parts).Ok? && !Anchored(b, id)
    requires Same(result, WithParts(RemoveAt(b, Find(b, id)), Landing(b, id), SplitInto(b, Find(b, id), parts)))
    ensures !Same(result, ScriptEditor.Split(b, id, parts).value)
  {
    var i, at := Find(b, id), Landing(b, id);
    var c, into := ScriptEditor.Split(b, id, parts).value, SplitInto(b, i, parts);
    WithPartsAt(RemoveAt(b, i), at, into, at);
    assert SameItem(result[at], WithParts(RemoveAt(b, i), at, into)[at]);
    assert c == b[..i] + into + b[i + 1..];
    assert at < i && c[at] == b[at];
    assert !SameItem(result[at], c[at]);
  }

  /** Without one, they land exactly where the item stood. */
  lemma AnchoredIsInPlace(b: seq<Item>, id: string, parts: seq<map<string, Json>>)
    requires ScriptEditor.Split(b, id, parts).Ok? && Anchored(b, id)
    ensures WithParts(RemoveAt(b, Find(b, id)), Landing(b, id), SplitInto(b, Find(b, id), parts))
         == ScriptEditor.Split(b, id, parts).value
  {
    var i := Find(b, id);
    var into := SplitInto(b, i, parts);
    assert Landing(b, id) == i && into[..|parts|] == into;
    assert RemoveAt(b, i)[..i] == b[..i] && RemoveAt(b, i)[i..] == b[i + 1..];
  }

  /**
   A split that succeeds directly runs when projected exactly if no second item has its id, and gives the
   direct result exactly if moreover its predecessor is the first item with the predecessor's id.
   */
  lemma SplitRunsExactlyWhen(
    derive: Derive, cand: Candidate, b: seq<Item>, id: string, parts: seq<map<string, Json>>, source: nat)
    requires Same(cand.items, b) && id != "" && ScriptEditor.Split(b, id, parts).Ok?
    ensures var c := ScriptEditor.Split(b, id, parts).value;
            var done := Execute(derive, cand, Commands(b, c, Split(id, parts), source));
            && (done.Ok? <==> Once(b, id))
            && (done.Ok? && Same(done.value.items, c) <==> Once(b, id) && Anchored(b, id))
  {
    var c := ScriptEditor.Split(b, id, parts).value;
    if Once(b, id) {
      SplitLands(derive, cand, b, id, parts, source);
      var done := Execute(derive, cand, Commands(b, c, Split(id, parts), source)).value;
      if Anchored(b, id) {
        AnchoredIsInPlace(b, id, parts);
      } else {
        MisplacedDiffers(b, id, parts, done.items);
      }
    } else {
      DuplicateIdsDefeatSplits(derive, cand, b, id, parts, source);
    }
  }

  /** Items p, q, p, s: splitting s is accepted, but puts its parts behind the first p. */
  lemma SharedPredecessorMisplacesSplit(derive: Derive)
    ensures var b := [Item("p", map[]), Item("q", map[]), Item("p", map[]), Item("s", map[])];
            var direct := ScriptEditor.Split(b, "s", [map[], map[]]);
            direct.Ok? &&
            var done := Execute(derive, Candidate(b, map[]), Commands(b, direct.value, Split("s", [map[], map[]]), 0));
            && done.Ok? && |done.value.items| == |direct.value| == 5
            && done.value.items[1].id == "s" && direct.value[1].id == "q"
  {
    var b := [Item("p", map[]), Item("q", map[]), Item("p", map[]), Item("s", map[])];
    var parts: seq<map<string, Json>> := [map[], map[]];
    assert Find(b, "s") == 3 && Find(b, "p") == 0;
    assert Same(b, b);
    SplitLands(derive, Candidate(b, map[]), b, "s", parts, 0);
    var r, into := RemoveAt(b, 3), SplitInto(b, 3, parts);
    assert Landing(b, "s") == 1;
    WithPartsAt(r, 1, into, 1);
    var done := Execute(derive, Candidate(b, map[]),
                        Commands(b, ScriptEditor.Split(b, "s", parts).value, Split("s", parts), 0)).value.items;
    assert SameItem(done[1], WithParts(r, 1, into)[1]);
  }

  lemma ExecuteCons(derive: Derive, c: Candidate, command: Projected, rest: seq<Projected>)
    requires Apply(derive, c, command.op, command.isNew).Ok?
    ensures Execute(derive, c, [command] + rest)
         == Execute(derive, Apply(derive, c, command.op, command.isNew).value, rest)
  {
    assert ([command] + rest)[1..] == rest;
  }

  // ---- whole batches -----------------------------------------------------------------------

  predicate AllWellFormed(ops: seq<PublicOp>) { forall k :: 0 <= k < |ops| ==> WellFormed(ops[k]) }

  lemma ExecuteOne(derive: Derive, c: Candidate, command: Projected)
    ensures Execute(derive, c, [command]) == Apply(derive, c, command.op, command.isNew)
  {
    assert [command][1..] == [];
  }

  lemma InsertOperationRuns(
    script: Script, derive: Derive, cand: Candidate, b: seq<Item>, anchor: Option<string>, fields: map<string, Json>,
    source: nat)
    requires Same(cand.items, b) && ScriptEditor.Insert(script, b, anchor, fields).Ok?
    ensures var after := ScriptEditor.Insert(script, b, anchor, fields).value;
            var r := Execute(derive, cand, Commands(b, after, Insert(anchor, fields), source));
            r.Ok? && Same(r.value.items, after)
  {
    var after := ScriptEditor.Insert(script, b, anchor, fields).value;
    var at := InsertLandsAfterAnchor(script, b, anchor, fields);
    NewIdsAreNotBlank(script, b, "", {});
    WithoutMediaTwice(fields);
    InsertRuns(derive, cand, b, anchor, after[at], true);
    ExecuteOne(derive, cand, Projected(InsertAfter(anchor, after[at]), source, true));
  }

  /** What a split needs of the ids; the other operations need nothing. */
  predicate SplitSafe(b: seq<Item>, op: PublicOp) { op.Split? ==> Once(b, op.id) && Anchored(b, op.id) }

  /** The commands of one operation take the candidate along with the preview exactly if it is safe. */
  lemma OperationRuns(
    script: Script, derive: Derive, cand: Candidate, b: seq<Item>, op: PublicOp, source: nat)
    requires Same(cand.items, b) && WellFormed(op) && Direct(script, b, op).Ok?
    ensures var after := Direct(script, b, op).value;
            var r := Execute(derive, cand, Commands(b, after, op, source));
            r.Ok? && Same(r.value.items, after) <==> SplitSafe(b, op)
  {
    var after := Direct(script, b, op).value;
    match op
    case Update(id, edits) =>
      UpdateRuns(derive, cand, b, id, edits);
      ExecuteOne(derive, cand, Projected(UpdateFields(id, edits), source, false));
    case Move(id, anchor) =>
      MoveRuns(derive, cand, b, id, anchor);
      ExecuteOne(derive, cand, Projected(MoveAfter(id, anchor), source, false));
    case Remove(id) =>
      RemoveRuns(derive, cand, b, id);
      ExecuteOne(derive, cand, Projected(RemoveItem(id), source, false));
    case Insert(anchor, fields) =>
      InsertOperationRuns(script, derive, cand, b, anchor, fields, source);
    case Split(id, parts) =>
      SplitRunsExactlyWhen(derive, cand, b, id, parts, source);
  }

  lemma {:induction false} PatchFieldsKeepUnique(b: seq<Item>, id: string, edits: seq<FieldEdit>)
    requires UniqueIds(b) && PatchFields(b, id, edits).Ok?
    ensures UniqueIds(PatchFields(b, id, edits).value)
  {
    PatchFieldsKeepIds(b, id, edits);
  }

  /** Ids stay unique under every public operation. */
  lemma DirectKeepsUnique(script: Script, b: seq<Item>, op: PublicOp)
    requires UniqueIds(b) && Direct(script, b, op).Ok?
    ensures UniqueIds(Direct(script, b, op).value)
  {
    match op
    case Update(id, edits) => PatchFieldsKeepUnique(b, id, edits);
    case Insert(anchor, fields) =>
      var at := InsertLandsAfterAnchor(script, b, anchor, fields);
      InsertKeepsUnique(b, at, Item(NewItemId(script, b), WithoutMedia(fields)));
    case Move(id, anchor) =>
      var i := Find(b, id);
      RemoveKeepsUnique(b, i);
      InsertKeepsUnique(RemoveAt(b, i), PlaceAfter(RemoveAt(b, i), anchor).value, b[i]);
    case Remove(id) => RemoveKeepsUnique(b, Find(b, id));
    case Split(id, parts) => SplitKeepsUnique(b, Find(b, id), parts);
  }

  lemma {:induction false} ProjectIsDirect(script: Script, items: seq<Item>, ops: seq<PublicOp>)
    ensures Project(script, items, ops).Ok? <==> DirectRun(script, items, ops).Ok?
    ensures Project(script, items, ops).Ok? ==>
              Project(script, items, ops).value.preview == DirectRun(script, items, ops).value
    ensures Project(script, items, ops).Err? ==>
              Project(script, items, ops).error == DirectRun(script, items, ops).error
  {
    if ops != [] {
      ProjectIsDirect(script, items, ops[..|ops| - 1]);
    }
  }

  /** Every split is safe on the script it is applied to. */
  predicate SplitsSafe(script: Script, items: seq<Item>, ops: seq<PublicOp>) {
    ops == [] ||
    (SplitsSafe(script, items, ops[..|ops| - 1])
     && var before := DirectRun(script, items, ops[..|ops| - 1]);
        before.Ok? ==> SplitSafe(before.value, ops[|ops| - 1]))
  }

  /** The projected commands run on the original script and give the directly edited one. */
  predicate Agrees(script: Script, derive: Derive, items: seq<Item>, ops: seq<PublicOp>) {
    var p, wanted := Project(script, items, ops), DirectRun(script, items, ops);
    p.Ok? && wanted.Ok? &&
    var r := Execute(derive, Candidate(items, map[]), p.value.commands);
    r.Ok? && Same(r.value.items, wanted.value)
  }

  /** They do so after every operation. */
  predicate AgreesThroughout(script: Script, derive: Derive, items: seq<Item>, ops: seq<PublicOp>) {
    Agrees(script, derive, items, ops) && (ops == [] || AgreesThroughout(script, derive, items, ops[..|ops| - 1]))
  }

  lemma AgreesOn(script: Script, derive: Derive, items: seq<Item>, ops: seq<PublicOp>)
    requires ops != [] && AllWellFormed(ops) && DirectRun(script, items, ops).Ok?
    requires Agrees(script, derive, items, ops[..|ops| - 1])
    ensures DirectRun(script, items, ops[..|ops| - 1]).Ok?
    ensures Agrees(script, derive, items, ops)
       <==> SplitSafe(DirectRun(script, items, ops[..|ops| - 1]).value, ops[|ops| - 1])
  {
    var init, op := ops[..|ops| - 1], ops[|ops| - 1];
    ProjectIsDirect(script, items, ops);
    ProjectIsDirect(script, items, init);
    var p := Project(script, items, init).value;
    var cand := Execute(derive, Candidate(items, map[]), p.commands).value;
    OperationRuns(script, derive, cand, p.preview, op, |ops| - 1);
    var block := Commands(p.preview, Direct(script, p.preview, op).value, op, |ops| - 1);
    ExecuteConcat(derive, Candidate(items, map[]), p.commands, block);
  }

  /**
   Meaning is preserved: whenever the public operations succeed directly and every split is safe where it is
   applied, the batch editor accepts the projected commands on the original script and arrives at the
   directly edited script, whatever its derived markers.
   */
  lemma {:induction false} ProjectionPreservesMeaning(
    script: Script, derive: Derive, items: seq<Item>, ops: seq<PublicOp>)
    requires AllWellFormed(ops) && SplitsSafe(script, items, ops)
    requires DirectRun(script, items, ops).Ok?
    ensures Project(script, items, ops).Ok?
    ensures var wanted := DirectRun(script, items, ops).value;
            var r := Execute(derive, Candidate(items, map[]), Project(script, items, ops).value.commands);
            r.Ok? && Same(r.value.items, wanted)
  {
    ProjectIsDirect(script, items, ops);
    if ops != [] {
      ProjectionPreservesMeaning(script, derive, items, ops[..|ops| - 1]);
      AgreesOn(script, derive, items, ops);
    }
  }

  /** Operation by operation, the projection agrees with direct application exactly if every split is safe. */
  lemma {:induction false} AgreesExactlyWhenSafe(
    script: Script, derive: Derive, items: seq<Item>, ops: seq<PublicOp>)
    requires AllWellFormed(ops) && DirectRun(script, items, ops).Ok?
    ensures AgreesThroughout(script, derive, items, ops) <==> SplitsSafe(script, items, ops)
  {
    ProjectIsDirect(script, items, ops);
    if ops != [] {
      var init := ops[..|ops| - 1];
      AgreesExactlyWhenSafe(script, derive, items, init);
      if AgreesThroughout(script, derive, items, init) {
        AgreesOn(script, derive, items, ops);
      }
    }
  }

  /** With unique ids every split is safe, and the ids are still unique afterwards. */
  lemma {:induction false} UniqueIdsAreSafe(script: Script, items: seq<Item>, ops: seq<PublicOp>)
    requires UniqueIds(items) && DirectRun(script, items, ops).Ok?
    ensures SplitsSafe(script, items, ops) && UniqueIds(DirectRun(script, items, ops).value)
  {
    if ops != [] {
      var init, op := ops[..|ops| - 1], ops[|ops| - 1];
      UniqueIdsAreSafe(script, items, init);
      var b := DirectRun(script, items, init).value;
      DirectKeepsUnique(script, b, op);
      if op.Split? {
        UniqueIsSafe(b, op.id);
      }
    }
  }

  lemma UniqueIsSafe(b: seq<Item>, id: string)
    requires UniqueIds(b)
    ensures Once(b, id) && Anchored(b, id)
  {
    var i := Find(b, id);
    if 0 < i < |b| {
      var p := Find(b, b[i - 1].id);
      assert p == i - 1;
    }
  }

  // ---- source indexes and new identities ---------------------------------------------------

  lemma {:induction false} ReinsertionsShape(after: Option<string>, generated: seq<Item>, source: nat, isNew: bool)
    ensures var r := Reinsertions(after, generated, source, isNew);
            forall j :: 0 <= j < |r| ==>
              r[j].source == source && r[j].op.InsertAfter? && r[j].op.item == generated[j]
              && (r[j].isNew <==> j > 0 || isNew)
    decreases |generated|
  {
    if generated != [] {
      ReinsertionsShape(Some(generated[0].id), generated[1..], source, true);
      var r := Reinsertions(after, generated, source, isNew);
      var rest := Reinsertions(Some(generated[0].id), generated[1..], source, true);
      assert forall j :: 0 < j < |r| ==> r[j] == rest[j - 1];
    }
  }

  /** Every command of an operation names it, and is marked new exactly when it inserts an id not there before. */
  predicate Labelled(b: seq<Item>, command: Projected, source: nat) {
    command.source == source
    && (command.isNew <==> command.op.InsertAfter? && command.op.item.id !in Ids(b))
  }

  predicate AllLabelled(b: seq<Item>, block: seq<Projected>, source: nat) {
    forall j :: 0 <= j < |block| ==> Labelled(b, block[j], source)
  }

  lemma CommandsLabelled(script: Script, b: seq<Item>, op: PublicOp, source: nat)
    requires WellFormed(op) && Direct(script, b, op).Ok?
    ensures Commands(b, Direct(script, b, op).value, op, source) != []
    ensures AllLabelled(b, Commands(b, Direct(script, b, op).value, op, source), source)
  {
    var after := Direct(script, b, op).value;
    if op.Insert? {
      var at := InsertLandsAfterAnchor(script, b, op.after, op.fields);
    } else if op.Split? {
      SplitLabelled(b, after, op.id, op.parts, source);
    }
  }

  lemma SplitIntoIds(b: seq<Item>, i: nat, parts: seq<map<string, Json>>)
    requires i < |b| && parts != []
    ensures SplitInto(b, i, parts)[0].id in Ids(b)
    ensures forall j :: 0 < j < |parts| ==> SplitInto(b, i, parts)[j].id !in Ids(b)
  {
    var into, more := SplitInto(b, i, parts), NewParts(b[i].id, Ids(b), parts[1..]);
    NewPartsFresh(b[i].id, Ids(b), parts[1..]);
    forall j | 0 < j < |parts| ensures into[j].id !in Ids(b) {
      assert into[j] == more[j - 1];
    }
  }

  lemma ReinsertionsLabelled(b: seq<Item>, previous: Option<string>, into: seq<Item>, source: nat)
    requires into != [] && into[0].id in Ids(b)
    requires forall j :: 0 < j < |into| ==> into[j].id !in Ids(b)
    ensures AllLabelled(b, Reinsertions(previous, into, source, false), source)
  {
    ReinsertionsShape(previous, into, source, false);
  }

  lemma SplitLabelled(b: seq<Item>, after: seq<Item>, id: string, parts: seq<map<string, Json>>, source: nat)
    requires ScriptEditor.Split(b, id, parts) == Ok(after)
    ensures Commands(b, after, Split(id, parts), source) != []
    ensures AllLabelled(b, Commands(b, after, Split(id, parts), source), source)
  {
    SplitCommands(b, after, id, parts, source);
    SplitLandsInPlace(b, id, parts);
    SplitIntoIds(b, Find(b, id), parts);
    ReinsertionsLabelled(b, PreviousId(b, Find(b, id)), SplitInto(b, Find(b, id), parts), source);
    LabelledCons(b, Projected(RemoveItem(id), source, false),
                 Reinsertions(PreviousId(b, Find(b, id)), SplitInto(b, Find(b, id), parts), source, false), source);
  }

  lemma LabelledCons(b: seq<Item>, command: Projected, rest: seq<Projected>, source: nat)
    requires Labelled(b, command, source) && AllLabelled(b, rest, source)
    ensures AllLabelled(b, [command] + rest, source)
  {}

  /** The commands split at `k`: those of earlier operations, then those of the operations up to `n`. */
  predicate Delimits(p: seq<Projected>, q: seq<Projected>, k: nat, n: nat) {
    && p <= q
    && (forall j :: 0 <= j < |p| ==> p[j].source < k)
    && (forall j :: |p| <= j < |q| ==> k <= q[j].source < n)
  }

  lemma DelimitsExtend(p: seq<Projected>, q: seq<Projected>, block: seq<Projected>, b: seq<Item>, k: nat, n: nat)
    requires Delimits(p, q, k, n) && AllLabelled(b, block, n)
    ensures k <= n ==> Delimits(p, q + block, k, n + 1)
    ensures p == q && k == n ==> Delimits(p + block, q + block, k + 1, n + 1)
  {}

  /** The last operation adds its own block of commands. */
  lemma LastBlock(script: Script, items: seq<Item>, ops: seq<PublicOp>) returns (block: seq<Projected>)
    requires ops != [] && WellFormed(ops[|ops| - 1]) && Project(script, items, ops).Ok?
    ensures Project(script, items, ops[..|ops| - 1]).Ok?
    ensures var p := Project(script, items, ops[..|ops| - 1]).value;
            var q := Project(script, items, ops).value;
            q.commands == p.commands + block && AllLabelled(p.preview, block, |ops| - 1)
  {
    var p, op := Project(script, items, ops[..|ops| - 1]).value, ops[|ops| - 1];
    block := Commands(p.preview, Direct(script, p.preview, op).value, op, |ops| - 1);
    CommandsLabelled(script, p.preview, op, |ops| - 1);
  }

  lemma {:induction false} ProjectWhole(script: Script, items: seq<Item>, ops: seq<PublicOp>)
    requires AllWellFormed(ops) && Project(script, items, ops).Ok?
    ensures var q := Project(script, items, ops).value;
            Delimits(q.commands, q.commands, |ops|, |ops|)
  {
    if ops != [] {
      var init := ops[..|ops| - 1];
      var block := LastBlock(script, items, ops);
      ProjectWhole(script, items, init);
      var p := Project(script, items, init).value;
      DelimitsExtend(p.commands, p.commands, block, p.preview, |init|, |init|);
    }
  }

  lemma {:induction false} ProjectPrefix(script: Script, items: seq<Item>, ops: seq<PublicOp>, k: nat)
    requires AllWellFormed(ops) && Project(script, items, ops).Ok? && k <= |ops|
    ensures Project(script, items, ops[..k]).Ok?
    ensures var p, q := Project(script, items, ops[..k]).value, Project(script, items, ops).value;
            Delimits(p.commands, q.commands, k, |ops|)
    decreases |ops|
  {
    if k == |ops| {
      assert ops[..k] == ops;
      ProjectWhole(script, items, ops);
    } else {
      var init := ops[..|ops| - 1];
      var block := LastBlock(script, items, ops);
      ProjectWhole(script, items, init);
      ProjectPrefix(script, items, init, k);
      assert ops[..k] == init[..k];
      var p := Project(script, items, init).value;
      DelimitsExtend(Project(script, items, ops[..k]).value.commands, p.commands, block, p.preview, k, |init|);
    }
  }

  /**
   A projected index remaps to the operation that produced it: the commands whose source lies before an
   operation, and only they, come before its own, and run on the original script they give exactly the
   script that operation is applied to.
   */
  lemma SourceIndexesDelimitOperations(
    script: Script, derive: Derive, items: seq<Item>, ops: seq<PublicOp>, k: nat)
    requires AllWellFormed(ops) && Project(script, items, ops).Ok? && k <= |ops|
    requires SplitsSafe(script, items, ops[..k])
    ensures var commands := Project(script, items, ops).value.commands;
            exists m ::
              && 0 <= m <= |commands|
              && (forall j :: 0 <= j < |commands| ==> (commands[j].source < k <==> j < m))
              && DirectRun(script, items, ops[..k]).Ok?
              && Execute(derive, Candidate(items, map[]), commands[..m]).Ok?
              && Same(Execute(derive, Candidate(items, map[]), commands[..m]).value.items,
                      DirectRun(script, items, ops[..k]).value)
  {
    ProjectPrefix(script, items, ops, k);
    ProjectIsDirect(script, items, ops[..k]);
    ProjectionPreservesMeaning(script, derive, items, ops[..k]);
    var commands := Project(script, items, ops).value.commands;
    var m := |Project(script, items, ops[..k]).value.commands|;
    assert commands[..m] == Project(script, items, ops[..k]).value.commands;
  }

  /** Labelled with respect to the script its operation was applied to. */
  predicate LabelledAt(script: Script, items: seq<Item>, ops: seq<PublicOp>, command: Projected) {
    command.source < |ops| &&
    var before := DirectRun(script, items, ops[..command.source]);
    before.Ok? && Labelled(before.value, command, command.source)
  }

  lemma LabelledLonger(script: Script, items: seq<Item>, ops: seq<PublicOp>, command: Projected)
    requires ops != [] && LabelledAt(script, items, ops[..|ops| - 1], command)
    ensures LabelledAt(script, items, ops, command)
  {
    assert ops[..|ops| - 1][..command.source] == ops[..command.source];
  }

  /** The inserts marked as new are exactly those whose id the script did not hold before their operation. */
  lemma {:induction false} NewInsertsAreExact(script: Script, items: seq<Item>, ops: seq<PublicOp>, j: nat)
    requires AllWellFormed(ops)
    requires Project(script, items, ops).Ok? && j < |Project(script, items, ops).value.commands|
    ensures LabelledAt(script, items, ops, Project(script, items, ops).value.commands[j])
    decreases |ops|
  {
    var init := ops[..|ops| - 1];
    var block := LastBlock(script, items, ops);
    var p := Project(script, items, init).value;
    if j < |p.commands| {
      NewInsertsAreExact(script, items, init, j);
      LabelledLonger(script, items, ops, p.commands[j]);
    } else {
      ProjectIsDirect(script, items, init);
      assert Labelled(p.preview, block[j - |p.commands|], |init|);
    }
  }

  // ---- findings mapped back ----------------------------------------------------------------

  datatype PathPart = Name(name: string) | Index(index: int)

  datatype Problem = Problem(operationIndex: Option<int>, locations: seq<seq<PathPart>>)

  function PublicIndex(internal: Option<int>, sources: seq<nat>): Option<int> {
    if internal.Some? && 0 <= internal.value < |sources| then Some(sources[internal.value]) else internal
  }

  function RemapPath(path: seq<PathPart>, public: Option<int>): seq<PathPart> {
    if |path| >= 2 && path[0] == Name("operations") && path[1].Index? && public.Some?
    then path[1 := Index(public.value)]
    else path
  }

  function RemapProblem(problem: Problem, sources: seq<nat>): Problem {
    var public := PublicIndex(problem.operationIndex, sources);
    Problem(
      public,
      seq(|problem.locations|, i requires 0 <= i < |problem.locations| => RemapPath(problem.locations[i], public)))
  }

  /** The path is about a command of the batch. */
  predicate AtOperation(path: seq<PathPart>) { |path| >= 2 && path[0] == Name("operations") && path[1].Index? }

  /** An index into the commands becomes that of the operation, in the problem and its paths; nothing else changes. */
  predicate Remapped(problem: Problem, sources: seq<nat>, r: Problem) {
    && (match problem.operationIndex
        case None => r.operationIndex == None
        case Some(j) => r.operationIndex == Some(if 0 <= j < |sources| then sources[j] else j))
    && |r.locations| == |problem.locations|
    && forall i :: 0 <= i < |r.locations| ==>
         var path, now := problem.locations[i], r.locations[i];
         && |now| == |path|
         && (forall k :: 0 <= k < |path| && !(k == 1 && AtOperation(path)) ==> now[k] == path[k])
         && (AtOperation(path) ==> now[1] == if r.operationIndex.Some? then Index(r.operationIndex.value) else path[1])
  }

  lemma RemapProblemRemaps(problem: Problem, sources: seq<nat>)
    ensures Remapped(problem, sources, RemapProblem(problem, sources))
  {}

  /** `_remap_operation_indexes`: every problem keeps its place and points at a public operation. */
  method RemapOperationIndexes(problems: seq<Problem>, sources: seq<nat>) returns (remapped: seq<Problem>)
    ensures |remapped| == |problems|
    ensures forall i :: 0 <= i < |problems| ==> remapped[i] == RemapProblem(problems[i], sources)
    ensures forall i :: 0 <= i < |problems| ==> Remapped(problems[i], sources, remapped[i])
  {
    remapped := [];
    for i := 0 to |problems|
      invariant |remapped| == i
      invariant forall k :: 0 <= k < i ==> remapped[k] == RemapProblem(problems[k], sources)
      invariant forall k :: 0 <= k < i ==> Remapped(problems[k], sources, remapped[k])
    {
      var public := PublicIndex(problems[i].operationIndex, sources);
      var locations: seq<seq<PathPart>> := [];
      for n := 0 to |problems[i].locations|
        invariant |locations| == n
        invariant forall k :: 0 <= k < n ==> locations[k] == RemapPath(problems[i].locations[k], public)
      {
        locations := locations + [RemapPath(problems[i].locations[n], public)];
      }
      RemapProblemRemaps(problems[i], sources);
      remapped := remapped + [Problem(public, locations)];
    }
  }

  /** A problem at a projected command is reported at the public operation the command came from. */
  lemma ProblemsNameTheirOperation(lists: Lists, commands: seq<Projected>, problem: Problem, j: nat)
    requires Reads(lists, commands) && j < |commands| && problem.operationIndex == Some(j)
    ensures RemapProblem(problem, lists.sourceIndexes).operationIndex == Some(commands[j].source)
    ensures forall i :: 0 <= i < |problem.locations| && |problem.locations[i]| >= 2
                        && problem.locations[i][..2] == [Name("operations"), Index(j)] ==>
              RemapProblem(problem, lists.sourceIndexes).locations[i][1] == Index(commands[j].source)
  {
    forall i | 0 <= i < |problem.locations| && |problem.locations[i]| >= 2
               && problem.locations[i][..2] == [Name("operations"), Index(j)]
      ensures RemapProblem(problem, lists.sourceIndexes).locations[i][1] == Index(commands[j].source)
    {
      var path := problem.locations[i];
      assert path[0] == path[..2][0] && path[1] == path[..2][1];
    }
  }
}
