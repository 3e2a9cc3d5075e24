/**
 The primitive commands as the transactional batch editor applies them to its candidate script. After
 changing an item it derives two markers anew; how is left open here, as a function of the item's
 fields before and after.
 */
module BatchEditor {
  import opened Wrappers
  import opened Json
  import opened ScriptEditor
  import opened PatchProjection

  datatype Markers = Markers(pending: Option<Json>, replan: Option<Json>)

  type Derive = (map<string, Json>, map<string, Json>) -> Markers

  function With(fields: map<string, Json>, key: string, value: Option<Json>): map<string, Json> {
    match value
    case None => fields - {key}
    case Some(v) => fields[key := v]
  }

  function Marked(fields: map<string, Json>, m: Markers): map<string, Json> {
    With(With(fields, PENDING, m.pending), REPLAN, m.replan)
  }

  /** The candidate's items and the fields of the items this batch removed. */
  datatype Candidate = Candidate(items: seq<Item>, removed: map<string, map<string, Json>>)

  /** An inserted item's fields: media only for an identity this batch removed and is putting back. */
  function InsertedFields(c: Candidate, item: Item, isNew: bool): map<string, Json> {
    if isNew || item.id !in c.removed then WithoutMedia(item.fields)
    else WithMediaOf(item.fields, c.removed[item.id])
  }

  function Apply(derive: Derive, c: Candidate, op: PrimitiveOp, isNew: bool): Result<Candidate, EditError> {
    match op
    case UpdateFields(id, edits) =>
      var i := Find(c.items, id);
      if i == |c.items| then Err(UnknownItem(id))
      else (match PatchFields(c.items, id, edits)
        case Err(e) => Err(e)
        case Ok(after) =>
          if i < |after| then
            var fields := Marked(after[i].fields, derive(c.items[i].fields, after[i].fields));
            Ok(c.(items := after[i := Item(id, fields)]))
          else Ok(c.(items := after)))
    case InsertAfter(after, item) =>
      if item.id == "" then Err(BlankId)
      else if item.id in Ids(c.items) then Err(DuplicateId(item.id))
      else (match PlaceAfter(c.items, after)
        case Err(e) => Err(e)
        case Ok(at) =>
          var fields := InsertedFields(c, item, isNew);
          Ok(Candidate(InsertAt(c.items, at, Item(item.id, Marked(fields, derive(map[], fields)))),
                       c.removed - {item.id})))
    case MoveAfter(id, after) =>
      if after == Some(id) then Err(OwnAnchor(id))
      else
        var source := Find(c.items, id);
        if source == |c.items| then Err(UnknownItem(id))
        else
          var rest := c.items[..source] + c.items[source + 1..];
          if after.None? then Ok(c.(items := [c.items[source]] + rest))
          else
            var anchor := Find(rest, after.value);
            if anchor == |rest| then Err(UnknownItem(after.value))
            else Ok(c.(items := rest[..anchor + 1] + [c.items[source]] + rest[anchor + 1..]))
    case RemoveItem(id) =>
      var i := Find(c.items, id);
      if i == |c.items| then Err(UnknownItem(id))
      else Ok(Candidate(RemoveAt(c.items, i), c.removed[id := c.items[i].fields]))
  }

  function Execute(derive: Derive, c: Candidate, commands: seq<Projected>): Result<Candidate, EditError>
    decreases |commands|
  {
    if commands == [] then Ok(c)
    else match Apply(derive, c, commands[0].op, commands[0].isNew)
      case Err(e) => Err(e)
      case Ok(next) => Execute(derive, next, commands[1..])
  }

  lemma {:induction false} ExecuteConcat(derive: Derive, c: Candidate, first: seq<Projected>, second: seq<Projected>)
    requires Execute(derive, c, first).Ok?
    ensures Execute(derive, c, first + second) == Execute(derive, Execute(derive, c, first).value, second)
    decreases |first|
  {
    if first == [] {
      assert first + second == second;
    } else {
      assert (first + second)[1..] == first[1..] + second;
      ExecuteConcat(derive, Apply(derive, c, first[0].op, first[0].isNew).value, first[1..], second);
    }
  }

  // ---- the same script up to the derived markers -------------------------------------------

  function Bare(fields: map<string, Json>): map<string, Json> { fields - {PENDING, REPLAN} }

  predicate SameItem(a: Item, b: Item) { a.id == b.id && Bare(a.fields) == Bare(b.fields) }

  predicate Same(a: seq<Item>, b: seq<Item>) {
    |a| == |b| && forall i :: 0 <= i < |a| ==> SameItem(a[i], b[i])
  }

  lemma MarkedIsBare(fields: map<string, Json>, m: Markers)
    ensures Bare(Marked(fields, m)) == Bare(fields)
  {}

  lemma {:induction false} SameFind(a: seq<Item>, b: seq<Item>, id: string)
    requires Same(a, b)
    ensures Find(a, id) == Find(b, id)
  {
    var i, j := Find(a, id), Find(b, id);
    assert i < |a| ==> SameItem(a[i], b[i]);
    assert j < |b| ==> SameItem(a[j], b[j]);
    assert i == j;
  }

  lemma SamePlace(a: seq<Item>, b: seq<Item>, after: Option<string>)
    requires Same(a, b)
    ensures PlaceAfter(a, after) == PlaceAfter(b, after)
  {
    if after.Some? {
      SameFind(a, b, after.value);
    }
  }

  lemma SameIds(a: seq<Item>, b: seq<Item>)
    requires Same(a, b)
    ensures Ids(a) == Ids(b)
  {
    forall id ensures id in Ids(a) <==> id in Ids(b) {
      if id in Ids(a) {
        var i :| 0 <= i < |a| && a[i].id == id;
        assert SameItem(a[i], b[i]);
      }
      if id in Ids(b) {
        var i :| 0 <= i < |b| && b[i].id == id;
        assert SameItem(a[i], b[i]);
      }
    }
  }

  lemma SameInsertAt(a: seq<Item>, b: seq<Item>, at: nat, x: Item, y: Item)
    requires Same(a, b) && at <= |a| && SameItem(x, y)
    ensures Same(InsertAt(a, at, x), InsertAt(b, at, y))
  {
    var p, q := InsertAt(a, at, x), InsertAt(b, at, y);
    forall i | 0 <= i < |p| ensures SameItem(p[i], q[i]) {
      if i != at {
        var k := if i < at then i else i - 1;
        assert p[i] == a[k] && q[i] == b[k] && SameItem(a[k], b[k]);
      }
    }
  }

  lemma SameRemoveAt(a: seq<Item>, b: seq<Item>, at: nat)
    requires Same(a, b) && at < |a|
    ensures Same(RemoveAt(a, at), RemoveAt(b, at))
  {
    var p, q := RemoveAt(a, at), RemoveAt(b, at);
    forall i | 0 <= i < |p| ensures SameItem(p[i], q[i]) {
      var k := if i < at then i else i + 1;
      assert p[i] == a[k] && q[i] == b[k] && SameItem(a[k], b[k]);
    }
  }

  // ---- field edits do not see the markers --------------------------------------------------

  lemma BareUpdate(f: map<string, Json>, g: map<string, Json>, key: string, value: Json)
    requires Bare(f) == Bare(g)
    ensures Bare(f[key := value]) == Bare(g[key := value])
  {
    assert Bare(f[key := value]) == Bare(f)[key := value] - {PENDING, REPLAN};
    assert Bare(g[key := value]) == Bare(g)[key := value] - {PENDING, REPLAN};
  }

  lemma BareLookup(f: map<string, Json>, g: map<string, Json>, key: string)
    requires Bare(f) == Bare(g) && key !in {PENDING, REPLAN}
    ensures key in f <==> key in g
    ensures key in f ==> f[key] == g[key]
  {
    assert key in f <==> key in Bare(f);
    assert key in g <==> key in Bare(g);
    assert key in f ==> f[key] == Bare(f)[key] == g[key];
  }

  lemma SetNestedSame(f: map<string, Json>, g: map<string, Json>, path: seq<string>, value: Json)
    requires Bare(f) == Bare(g) && path != [] && path[0] !in {PENDING, REPLAN}
    ensures SetNested(f, path, value).Some? <==> SetNested(g, path, value).Some?
    ensures SetNested(f, path, value).Some? ==>
              Bare(SetNested(f, path, value).value) == Bare(SetNested(g, path, value).value)
  {
    var key := path[0];
    BareLookup(f, g, key);
    if |path| == 1 {
      BareUpdate(f, g, key, value);
    } else if key in f && f[key].Object? {
      var inner := SetNested(f[key].fields, path[1..], value);
      if inner.Some? {
        BareUpdate(f, g, key, Object(inner.value));
      }
    }
  }

  lemma PatchFieldSame(a: seq<Item>, b: seq<Item>, id: string, edit: FieldEdit)
    requires Same(a, b) && PatchField(b, id, edit).Ok?
    ensures PatchField(a, id, edit).Ok? && Same(PatchField(a, id, edit).value, PatchField(b, id, edit).value)
  {
    SameFind(a, b, id);
    var i := Find(a, id);
    assert SameItem(a[i], b[i]);
    SetNestedSame(a[i].fields, b[i].fields, edit.path, edit.value);
    var p, q := PatchField(a, id, edit).value, PatchField(b, id, edit).value;
    forall k | 0 <= k < |p| ensures SameItem(p[k], q[k]) {
      assert k != i ==> SameItem(a[k], b[k]);
    }
  }

  lemma {:induction false} PatchFieldsSame(a: seq<Item>, b: seq<Item>, id: string, edits: seq<FieldEdit>)
    requires Same(a, b) && PatchFields(b, id, edits).Ok?
    ensures PatchFields(a, id, edits).Ok? && Same(PatchFields(a, id, edits).value, PatchFields(b, id, edits).value)
    ensures edits != [] ==> Find(a, id) < |a|
  {
    if edits != [] {
      var init, last := edits[..|edits| - 1], edits[|edits| - 1];
      PatchFieldsSame(a, b, id, init);
      PatchFieldSame(PatchFields(a, id, init).value, PatchFields(b, id, init).value, id, last);
      PatchFieldsKeepIds(a, id, init);
    }
  }

  lemma {:induction false} PatchFieldsKeepIds(a: seq<Item>, id: string, edits: seq<FieldEdit>)
    requires PatchFields(a, id, edits).Ok?
    ensures var r := PatchFields(a, id, edits).value;
            |r| == |a| && (forall i :: 0 <= i < |a| ==> r[i].id == a[i].id) && Find(r, id) == Find(a, id)
  {
    if edits != [] {
      PatchFieldsKeepIds(a, id, edits[..|edits| - 1]);
    }
    var r := PatchFields(a, id, edits).value;
    var i, j := Find(a, id), Find(r, id);
    assert |r| == |a| && forall k :: 0 <= k < |a| ==> r[k].id == a[k].id;
    assert i == j;
  }

  // ---- media ------------------------------------------------------------------------------

  lemma WithoutMediaTwice(fields: map<string, Json>)
    ensures WithoutMedia(WithoutMedia(fields)) == WithoutMedia(fields)
  {}

  lemma WithMediaAgain(fields: map<string, Json>, x: map<string, Json>, y: map<string, Json>)
    requires Bare(x) == Bare(y)
    ensures WithMediaOf(WithMediaOf(fields, x), y) == WithMediaOf(fields, x)
  {
    assert forall k :: k !in {PENDING, REPLAN} ==> (k in x <==> k in Bare(x)) && (k in y <==> k in Bare(y));
    assert ASSETS in x ==> x[ASSETS] == Bare(x)[ASSETS] == y[ASSETS];
    assert END_FRAME in x ==> x[END_FRAME] == Bare(x)[END_FRAME] == y[END_FRAME];
  }
}
