/**
 Projecting public script edits onto the primitive commands of the transactional batch editor, and
 mapping the editor's findings back. Running the projected commands gives the script the public edits
 give directly, up to the two markers the batch editor derives itself.
 */
module PatchProjection {
  import opened Wrappers
  import opened Json
  import opened ScriptEditor

  datatype PublicOp =
    | Update(id: string, edits: seq<FieldEdit>)
    | Insert(after: Option<string>, fields: map<string, Json>)
    | Move(id: string, after: Option<string>)
    | Remove(id: string)
    | Split(id: string, parts: seq<map<string, Json>>)

  datatype PrimitiveOp =
    | UpdateFields(id: string, edits: seq<FieldEdit>)
    | InsertAfter(after: Option<string>, item: Item)
    | MoveAfter(id: string, after: Option<string>)
    | RemoveItem(id: string)

  /** The request schema: an update changes a field, a split names an item and has at least two parts. */
  predicate WellFormed(op: PublicOp) {
    (op.Update? ==> op.edits != []) && (op.Split? ==> op.id != "" && |op.parts| >= 2)
  }

  // ---- the public edits, applied directly --------------------------------------------------

  function Direct(script: Script, items: seq<Item>, op: PublicOp): Edited {
    match op
    case Update(id, edits) => PatchFields(items, id, edits)
    case Insert(after, fields) => ScriptEditor.Insert(script, items, after, fields)
    case Move(id, after) => ScriptEditor.Move(items, id, after)
    case Remove(id) => ScriptEditor.Remove(items, id)
    case Split(id, parts) => ScriptEditor.Split(items, id, parts)
  }

  datatype Refusal = Refusal(index: nat, error: EditError)

  function DirectRun(script: Script, items: seq<Item>, ops: seq<PublicOp>): Result<seq<Item>, Refusal> {
    if ops == [] then Ok(items)
    else match DirectRun(script, items, ops[..|ops| - 1])
      case Err(r) => Err(r)
      case Ok(before) =>
        match Direct(script, before, ops[|ops| - 1])
        case Err(e) => Err(Refusal(|ops| - 1, e))
        case Ok(after) => Ok(after)
  }

  // ---- the projection ----------------------------------------------------------------------

  /** A primitive command, the public operation it comes from, and whether it brings a new identity. */
  datatype Projected = Projected(op: PrimitiveOp, source: nat, isNew: bool)

  /** The re-insertions of a split, each after the one before it; the first part is no new identity. */
  function Reinsertions(after: Option<string>, generated: seq<Item>, source: nat, isNew: bool): (r: seq<Projected>)
    ensures |r| == |generated|
    decreases |generated|
  {
    if generated == [] then []
    else
      [Projected(InsertAfter(after, generated[0]), source, isNew)]
      + Reinsertions(Some(generated[0].id), generated[1..], source, true)
  }

  function PreviousId(items: seq<Item>, i: nat): Option<string>
    requires i < |items|
  {
    if i == 0 then None else Some(items[i - 1].id)
  }

  /** The primitive commands of one public operation, read off the preview before and after it. */
  function Commands(before: seq<Item>, after: seq<Item>, op: PublicOp, source: nat): seq<Projected> {
    match op
    case Update(id, edits) => [Projected(UpdateFields(id, edits), source, false)]
    case Move(id, anchor) => [Projected(MoveAfter(id, anchor), source, false)]
    case Remove(id) => [Projected(RemoveItem(id), source, false)]
    case Insert(anchor, fields) =>
      var at := if anchor.None? then 0 else Find(after, anchor.value) + 1;
      if at < |after| then [Projected(InsertAfter(anchor, after[at]), source, true)] else []
    case Split(id, parts) =>
      var i, at := Find(before, id), Find(after, id);
      if i < |before| && at + |parts| <= |after| then
        [Projected(RemoveItem(id), source, false)]
        + Reinsertions(PreviousId(before, i), after[at..at + |parts|], source, false)
      else []
  }

  datatype Projection = Projection(preview: seq<Item>, commands: seq<Projected>)

  function Project(script: Script, items: seq<Item>, ops: seq<PublicOp>): Result<Projection, Refusal> {
    if ops == [] then Ok(Projection(items, []))
    else match Project(script, items, ops[..|ops| - 1])
      case Err(r) => Err(r)
      case Ok(p) =>
        var op := ops[|ops| - 1];
        match Direct(script, p.preview, op)
        case Err(e) => Err(Refusal(|ops| - 1, e))
        case Ok(after) => Ok(Projection(after, p.commands + Commands(p.preview, after, op, |ops| - 1)))
  }

  /** The three lists the projection hands on. */
  datatype Lists = Lists(projected: seq<PrimitiveOp>, sourceIndexes: seq<nat>, freshInserts: set<nat>)

  ghost predicate Reads(lists: Lists, commands: seq<Projected>) {
    && |lists.projected| == |commands| == |lists.sourceIndexes|
    && (forall j :: 0 <= j < |commands| ==>
          lists.projected[j] == commands[j].op && lists.sourceIndexes[j] == commands[j].source)
    && (forall j :: j in lists.freshInserts <==> 0 <= j < |commands| && commands[j].isNew)
  }

  /** `append` of the projection loop. */
  method Append(lists: Lists, op: PrimitiveOp, source: nat, isNew: bool, ghost commands: seq<Projected>)
    returns (more: Lists)
    requires Reads(lists, commands)
    ensures Reads(more, commands + [Projected(op, source, isNew)])
  {
    more := Lists(
      lists.projected + [op],
      lists.sourceIndexes + [source],
      if isNew then lists.freshInserts + {|lists.projected|} else lists.freshInserts);
  }

  /** The re-insertion loop of a split. */
  method AppendReinsertions(
    lists: Lists, after: Option<string>, generated: seq<Item>, source: nat, ghost commands: seq<Projected>)
    returns (more: Lists)
    requires Reads(lists, commands)
    ensures Reads(more, commands + Reinsertions(after, generated, source, false))
  {
    more := lists;
    var previous := after;
    ghost var done := commands;
    ghost var all := commands + Reinsertions(after, generated, source, false);
    assert generated[0..] == generated;
    for part := 0 to |generated|
      invariant Reads(more, done)
      invariant all == done + Reinsertions(previous, generated[part..], source, part > 0)
    {
      more := Append(more, InsertAfter(previous, generated[part]), source, part > 0, done);
      ghost var last := Projected(InsertAfter(previous, generated[part]), source, part > 0);
      assert generated[part..][0] == generated[part] && generated[part..][1..] == generated[part + 1..];
      ghost var rest := Reinsertions(Some(generated[part].id), generated[part + 1..], source, true);
      assert done + ([last] + rest) == done + [last] + rest;
      done := done + [last];
      previous := Some(generated[part].id);
    }
    assert all == done + [];
  }

  /** One round of the projection loop: the commands for an operation the preview has just accepted. */
  method AppendCommands(
    script: Script, before: seq<Item>, preview: seq<Item>, op: PublicOp, index: nat,
    lists: Lists, ghost commands: seq<Projected>)
    returns (more: Lists)
    requires WellFormed(op) && Direct(script, before, op) == Ok(preview) && Reads(lists, commands)
    ensures Reads(more, commands + Commands(before, preview, op, index))
  {
    match op {
      case Update(id, edits) =>
        more := Append(lists, UpdateFields(id, edits), index, false, commands);
      case Move(id, after) =>
        more := Append(lists, MoveAfter(id, after), index, false, commands);
      case Remove(id) =>
        more := Append(lists, RemoveItem(id), index, false, commands);
      case Insert(after, fields) =>
        ghost var place := InsertLandsAfterAnchor(script, before, after, fields);
        var at := if after.None? then 0 else Find(preview, after.value) + 1;
        more := Append(lists, InsertAfter(after, preview[at]), index, true, commands);
      case Split(id, parts) =>
        more := AppendSplit(before, preview, id, parts, index, lists, commands);
    }
  }

  method AppendSplitParts(
    lists: Lists, id: string, previous: Option<string>, generated: seq<Item>, index: nat,
    ghost commands: seq<Projected>)
    returns (more: Lists)
    requires Reads(lists, commands)
    ensures Reads(more, commands + ([Projected(RemoveItem(id), index, false)]
                                    + Reinsertions(previous, generated, index, false)))
  {
    more := Append(lists, RemoveItem(id), index, false, commands);
    ghost var removal := [Projected(RemoveItem(id), index, false)];
    more := AppendReinsertions(more, previous, generated, index, commands + removal);
    AssociateCommands(commands, removal, Reinsertions(previous, generated, index, false));
  }

  method AppendSplit(
    before: seq<Item>, preview: seq<Item>, id: string, parts: seq<map<string, Json>>, index: nat,
    lists: Lists, ghost commands: seq<Projected>)
    returns (more: Lists)
    requires ScriptEditor.Split(before, id, parts) == Ok(preview) && Reads(lists, commands)
    ensures Reads(more, commands + Commands(before, preview, Split(id, parts), index))
  {
    SplitCommands(before, preview, id, parts, index);
    var previous, anchor := PreviousId(before, Find(before, id)), Find(preview, id);
    more := AppendSplitParts(lists, id, previous, preview[anchor..anchor + |parts|], index, commands);
  }

  lemma AssociateCommands(a: seq<Projected>, b: seq<Projected>, c: seq<Projected>)
    ensures (a + b) + c == a + (b + c)
  {}

  /** A split is the removal of the item and the re-insertion of what stands in its place. */
  lemma SplitCommands(
    before: seq<Item>, preview: seq<Item>, id: string, parts: seq<map<string, Json>>, index: nat)
    requires ScriptEditor.Split(before, id, parts) == Ok(preview)
    ensures Find(before, id) < |before| && Find(preview, id) + |parts| <= |preview|
    ensures var at := Find(preview, id);
            Commands(before, preview, Split(id, parts), index)
            == [Projected(RemoveItem(id), index, false)]
               + Reinsertions(PreviousId(before, Find(before, id)), preview[at..at + |parts|], index, false)
  {
    SplitLandsInPlace(before, id, parts);
  }

  /**
   `_project_patch_operations`: apply each operation to a preview and record the commands that will do the
   same. Its three lists spell out the projection, and it refuses where the direct application refuses.
   */
  method ProjectPatchOperations(script: Script, items: seq<Item>, ops: seq<PublicOp>)
    returns (r: Result<Lists, Refusal>)
    requires forall k :: 0 <= k < |ops| ==> WellFormed(ops[k])
    ensures r.Ok? <==> Project(script, items, ops).Ok?
    ensures r.Ok? ==> Reads(r.value, Project(script, items, ops).value.commands)
    ensures r.Err? ==> Project(script, items, ops) == Err(r.error)
  {
    var preview := items;
    var lists := Lists([], [], {});
    ghost var commands: seq<Projected> := [];
    assert ops[..0] == [];
    for index := 0 to |ops|
      invariant Project(script, items, ops[..index]) == Ok(Projection(preview, commands))
      invariant Reads(lists, commands)
    {
      var op := ops[index];
      assert ops[..index + 1][..index] == ops[..index] && ops[..index + 1][index] == op;
      var edited := Direct(script, preview, op);
      if edited.Err? {
        PrefixRefuses(script, items, ops, index + 1);
        return Err(Refusal(index, edited.error));
      }
      lists := AppendCommands(script, preview, edited.value, op, index, lists, commands);
      commands := commands + Commands(preview, edited.value, op, index);
      preview := edited.value;
    }
    assert ops[..|ops|] == ops;
    return Ok(lists);
  }

  lemma {:induction false} PrefixRefuses(script: Script, items: seq<Item>, ops: seq<PublicOp>, k: nat)
    requires k <= |ops| && Project(script, items, ops[..k]).Err?
    ensures Project(script, items, ops) == Project(script, items, ops[..k])
    decreases |ops|
  {
    if k == |ops| {
      assert ops[..k] == ops;
    } else {
      var init := ops[..|ops| - 1];
      assert init[..k] == ops[..k];
      PrefixRefuses(script, items, init, k);
    }
  }

  // ---- where inserts and splits land -------------------------------------------------------

  /** The new item stands right behind the anchor, and the anchor is still the first with its id. */
  lemma InsertLandsAfterAnchor(script: Script, items: seq<Item>, after: Option<string>, fields: map<string, Json>)
    returns (at: nat)
    requires ScriptEditor.Insert(script, items, after, fields).Ok?
    ensures var r := ScriptEditor.Insert(script, items, after, fields).value;
            PlaceAfter(items, after) == Ok(at) && at <= |items|
            && r == InsertAt(items, at, Item(NewItemId(script, items), WithoutMedia(fields)))
            && (after.Some? ==> Find(r, after.value) + 1 == at) && (after.None? ==> at == 0)
            && at < |r| && r[at] == Item(NewItemId(script, items), WithoutMedia(fields))
  {
    at := PlaceAfter(items, after).value;
    var r := ScriptEditor.Insert(script, items, after, fields).value;
    if after.Some? {
      var i := Find(items, after.value);
      assert r[i] == items[i] && forall j :: 0 <= j < i ==> r[j] == items[j];
    }
  }

  /** The parts stand where the item stood, the first still findable under its id. */
  lemma SplitLandsInPlace(items: seq<Item>, id: string, parts: seq<map<string, Json>>)
    requires ScriptEditor.Split(items, id, parts).Ok?
    ensures var r := ScriptEditor.Split(items, id, parts).value;
            var i := Find(items, id);
            i < |items| && Find(r, id) == i && i + |parts| <= |r|
            && r[i..i + |parts|] == SplitInto(items, i, parts)
  {
    var r := ScriptEditor.Split(items, id, parts).value;
    var i := Find(items, id);
    var into := SplitInto(items, i, parts);
    assert r[i] == into[0] && forall j :: 0 <= j < i ==> r[j] == items[j];
    assert r[i..i + |parts|] == into;
  }
}
