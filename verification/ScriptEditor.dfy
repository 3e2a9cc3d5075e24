/**
 The edits of an episode script as a list of items: changing fields, inserting, moving, removing and
 splitting, with the allocation of new item ids. Each edit either yields the new list or refuses.
 */
module ScriptEditor {
  import opened Wrappers
  import opened Json
  import Decimal

  /** One item: its id and every other field of its document. */
  datatype Item = Item(id: string, fields: map<string, Json>)

  datatype Kind = Segments | Scenes | Shots | VideoUnits

  /** What of the script besides its items the edits look at. */
  datatype Script = Script(kind: Kind, episode: Option<nat>)

  datatype EditError = UnknownItem(id: string) | OwnAnchor(id: string) | TooFewParts | BadField(path: seq<string>)
    | DuplicateId(id: string) | BlankId

  type Edited = Result<seq<Item>, EditError>

  datatype FieldEdit = FieldEdit(path: seq<string>, value: Json)

  // ---- looking items up --------------------------------------------------------------------

  /** The first item with the id, or the length when there is none. */
  function Find(items: seq<Item>, id: string): (i: nat)
    ensures i <= |items| && (i < |items| ==> items[i].id == id)
    ensures forall j :: 0 <= j < i ==> items[j].id != id
  {
    if items == [] || items[0].id == id then 0 else 1 + Find(items[1..], id)
  }

  function Ids(items: seq<Item>): set<string> {
    set i | 0 <= i < |items| :: items[i].id
  }

  predicate UniqueIds(items: seq<Item>) {
    forall i, j :: 0 <= i < j < |items| ==> items[i].id != items[j].id
  }

  /** Where something goes that is to follow the anchor; no anchor means the front. */
  function PlaceAfter(items: seq<Item>, after: Option<string>): Result<nat, EditError> {
    if after.None? then Ok(0)
    else
      var i := Find(items, after.value);
      if i == |items| then Err(UnknownItem(after.value)) else Ok(i + 1)
  }

  function InsertAt<T>(s: seq<T>, i: nat, x: T): seq<T>
    requires i <= |s|
  {
    s[..i] + [x] + s[i..]
  }

  function RemoveAt<T>(s: seq<T>, i: nat): seq<T>
    requires i < |s|
  {
    s[..i] + s[i + 1..]
  }

  // ---- fields ------------------------------------------------------------------------------

  const ASSETS := "generated_assets"
  const END_FRAME := "end_frame_image"
  const PENDING := "pending_authoring"
  const REPLAN := "needs_replan"

  const GUARDED := {ASSETS, REPLAN, PENDING, END_FRAME, "segment_id", "scene_id", "unit_id", "shot_id"}

  /** May a field edit address this path at all? */
  predicate Editable(path: seq<string>, value: Json) {
    path != [] && "" !in path && path[0] !in GUARDED
    && !(value.Null? && (path == ["image_prompt"] || path == ["video_prompt"]))
  }

  /** Set the value at the path; every parent must be an object that is already there. */
  function SetNested(fields: map<string, Json>, path: seq<string>, value: Json): Option<map<string, Json>>
    requires path != []
    decreases |path|
  {
    if |path| == 1 then Some(fields[path[0] := value])
    else if path[0] in fields && fields[path[0]].Object? then
      match SetNested(fields[path[0]].fields, path[1..], value)
      case None => None
      case Some(inner) => Some(fields[path[0] := Object(inner)])
    else None
  }

  /** `patch_field` */
  function PatchField(items: seq<Item>, id: string, edit: FieldEdit): Edited {
    var i := Find(items, id);
    if i == |items| then Err(UnknownItem(id))
    else if !Editable(edit.path, edit.value) then Err(BadField(edit.path))
    else match SetNested(items[i].fields, edit.path, edit.value)
      case None => Err(BadField(edit.path))
      case Some(fields) => Ok(items[i := Item(id, fields)])
  }

  function PatchFields(items: seq<Item>, id: string, edits: seq<FieldEdit>): Edited {
    if edits == [] then Ok(items)
    else match PatchFields(items, id, edits[..|edits| - 1])
      case Err(e) => Err(e)
      case Ok(before) => PatchField(before, id, edits[|edits| - 1])
  }

  // ---- new ids -----------------------------------------------------------------------------

  /** A family of ids told apart by a number. */
  datatype Numbering = Storyboard(episode: nat) | Unit(episode: nat) | Suffixed(stem: string)

  function Render(n: Numbering, k: nat): string {
    match n
    case Storyboard(episode) => ['E'] + Decimal.Digits(episode) + ['S'] + Decimal.Pad2(k)
    case Unit(episode) => ['E'] + Decimal.Digits(episode) + ['U'] + Decimal.Digits(k)
    case Suffixed(stem) => stem + ['_'] + Decimal.Digits(k)
  }

  lemma RenderInjective(n: Numbering, a: nat, b: nat)
    requires Render(n, a) == Render(n, b)
    ensures a == b
  {
    Decimal.DigitsRoundTrip(a);
    Decimal.DigitsRoundTrip(b);
    Decimal.Pad2RoundTrip(a);
    Decimal.Pad2RoundTrip(b);
    var ra, rb := Render(n, a), Render(n, b);
    match n
    case Storyboard(episode) =>
      var prefix := ['E'] + Decimal.Digits(episode) + ['S'];
      assert ra[|prefix|..] == Decimal.Pad2(a) && rb[|prefix|..] == Decimal.Pad2(b);
    case Unit(episode) =>
      var prefix := ['E'] + Decimal.Digits(episode) + ['U'];
      assert ra[|prefix|..] == Decimal.Digits(a) && rb[|prefix|..] == Decimal.Digits(b);
    case Suffixed(stem) =>
      var prefix := stem + ['_'];
      assert ra[|prefix|..] == Decimal.Digits(a) && rb[|prefix|..] == Decimal.Digits(b);
  }

  /** The ids of a family by their numbers. */
  function Family(n: Numbering): nat -> string { (k: nat) => Render(n, k) }

  ghost predicate Injective(ids: nat -> string) { forall a: nat, b: nat :: ids(a) == ids(b) ==> a == b }

  lemma FamilyInjective(n: Numbering)
    ensures Injective(Family(n))
  {
    forall a: nat, b: nat | Family(n)(a) == Family(n)(b) ensures a == b {
      RenderInjective(n, a, b);
    }
  }

  /** The first number from `k` on whose id is not taken. */
  function FirstFree(ids: nat -> string, taken: set<string>, k: nat): nat
    decreases taken
  {
    if ids(k) in taken then FirstFree(ids, taken - {ids(k)}, k + 1) else k
  }

  lemma {:induction false} FirstFreeIsFree(ids: nat -> string, taken: set<string>, k: nat)
    requires Injective(ids)
    ensures FirstFree(ids, taken, k) >= k && ids(FirstFree(ids, taken, k)) !in taken
    ensures forall m :: k <= m < FirstFree(ids, taken, k) ==> ids(m) in taken
    decreases taken
  {
    if ids(k) in taken {
      FirstFreeIsFree(ids, taken - {ids(k)}, k + 1);
    }
  }

  /** The numbering loops of the source: count up until the id is free. They end on every finite list. */
  method CountUp(n: Numbering, taken: set<string>, start: nat) returns (id: string)
    ensures id == Render(n, FirstFree(Family(n), taken, start)) && id !in taken
  {
    var ids := Family(n);
    FamilyInjective(n);
    FirstFreeIsFree(ids, taken, start);
    var k := start;
    while ids(k) in taken
      invariant start <= k <= FirstFree(ids, taken, start)
      decreases FirstFree(ids, taken, start) - k
    {
      k := k + 1;
    }
    id := ids(k);
  }

  /** `E(\d+)([SU])(\d+)(?:_\d+)?` taken apart: episode, letter and main number. */
  datatype IdParts = IdParts(episode: nat, letter: char, number: nat)

  function DigitRun(s: string): (n: nat)
    ensures n <= |s| && Decimal.AllDigits(s[..n])
  {
    if s != [] && Decimal.IsDigit(s[0]) then
      var n := DigitRun(s[1..]);
      assert s[..n + 1] == [s[0]] + s[1..][..n];
      n + 1
    else 0
  }

  /** The main number of what follows the letter, with an optional suffix behind it. */
  function ParseNumber(tail: string): Option<nat> {
    var d := DigitRun(tail);
    var suffix := tail[d..];
    if d > 0 && (suffix == [] || (suffix[0] == '_' && |suffix| > 1 && DigitRun(suffix[1..]) == |suffix| - 1)) then
      Some(Decimal.Value(tail[..d]))
    else None
  }

  function ParseId(id: string): Option<IdParts> {
    if id == [] || id[0] != 'E' then None
    else
      var rest := id[1..];
      var e := DigitRun(rest);
      if e == 0 || e == |rest| || rest[e] !in {'S', 'U'} then None
      else
        match ParseNumber(rest[e + 1..])
        case None => None
        case Some(number) => Some(IdParts(Decimal.Value(rest[..e]), rest[e], number))
  }

  /** The recorded episode, else the one the first well-formed id names, else one. */
  function EpisodeOf(script: Script, items: seq<Item>): nat {
    if script.episode.Some? && script.episode.value >= 1 then script.episode.value
    else if items == [] then 1
    else match ParseId(items[0].id)
      case Some(parts) => parts.episode
      case None => EpisodeOf(script, items[1..])
  }

  /** The highest main number among the ids of the episode. */
  function HighestNumber(items: seq<Item>, episode: nat): nat {
    if items == [] then 0
    else
      var rest := HighestNumber(items[1..], episode);
      match ParseId(items[0].id)
      case Some(parts) => if parts.episode == episode && parts.number > rest then parts.number else rest
      case None => rest
  }

  /** `new_item_id` */
  function NewItemId(script: Script, items: seq<Item>): (id: string)
    ensures id !in Ids(items)
  {
    var episode := EpisodeOf(script, items);
    var n := if script.kind.VideoUnits? then Unit(episode) else Storyboard(episode);
    FamilyInjective(n);
    FirstFreeIsFree(Family(n), Ids(items), HighestNumber(items, episode) + 1);
    Render(n, FirstFree(Family(n), Ids(items), HighestNumber(items, episode) + 1))
  }

  /** `base.split("_")[0]` */
  function Stem(base: string): string {
    if base == [] || base[0] == '_' then [] else [base[0]] + Stem(base[1..])
  }

  /** `_next_suffixed_id` */
  function NextSuffixedId(base: string, taken: set<string>): (id: string)
    ensures id !in taken
  {
    FamilyInjective(Suffixed(Stem(base)));
    FirstFreeIsFree(Family(Suffixed(Stem(base))), taken, 1);
    Render(Suffixed(Stem(base)), FirstFree(Family(Suffixed(Stem(base))), taken, 1))
  }

  // ---- the edits ---------------------------------------------------------------------------

  function WithoutMedia(fields: map<string, Json>): map<string, Json> {
    fields[ASSETS := Object(map[])] - {END_FRAME}
  }

  /** The fields with the media of the item whose identity they continue. */
  function WithMediaOf(fields: map<string, Json>, from: map<string, Json>): map<string, Json> {
    var assets := if ASSETS in from && from[ASSETS].Object? then from[ASSETS] else Object(map[]);
    var endFrame := Get(from, END_FRAME, Null);
    var kept := fields[ASSETS := assets];
    if endFrame.Null? then kept - {END_FRAME} else kept[END_FRAME := endFrame]
  }

  /** `insert_segment` */
  function Insert(script: Script, items: seq<Item>, after: Option<string>, fields: map<string, Json>): Edited {
    match PlaceAfter(items, after)
    case Err(e) => Err(e)
    case Ok(at) => Ok(InsertAt(items, at, Item(NewItemId(script, items), WithoutMedia(fields))))
  }

  /** `remove_segment` */
  function Remove(items: seq<Item>, id: string): Edited {
    var i := Find(items, id);
    if i == |items| then Err(UnknownItem(id)) else Ok(RemoveAt(items, i))
  }

  /** `move_segment` */
  function Move(items: seq<Item>, id: string, after: Option<string>): Edited {
    if after == Some(id) then Err(OwnAnchor(id))
    else
      var i := Find(items, id);
      if i == |items| then Err(UnknownItem(id))
      else match PlaceAfter(RemoveAt(items, i), after)
        case Err(e) => Err(e)
        case Ok(at) => Ok(InsertAt(RemoveAt(items, i), at, items[i]))
  }

  /** The parts after the first: new suffixed ids, no media. */
  function NewParts(id: string, taken: set<string>, parts: seq<map<string, Json>>): (r: seq<Item>)
    ensures |r| == |parts|
    decreases |parts|
  {
    if parts == [] then []
    else
      var next := NextSuffixedId(id, taken);
      [Item(next, WithoutMedia(parts[0]))] + NewParts(id, taken + {next}, parts[1..])
  }

  /** What an item is split into: the first part continues its identity and media. */
  function SplitInto(items: seq<Item>, i: nat, parts: seq<map<string, Json>>): (r: seq<Item>)
    requires i < |items| && parts != []
    ensures |r| == |parts|
  {
    [Item(items[i].id, WithMediaOf(parts[0], items[i].fields))] + NewParts(items[i].id, Ids(items), parts[1..])
  }

  /** `split_segment` */
  function Split(items: seq<Item>, id: string, parts: seq<map<string, Json>>): Edited {
    if |parts| < 2 then Err(TooFewParts)
    else
      var i := Find(items, id);
      if i == |items| then Err(UnknownItem(id))
      else Ok(items[..i] + SplitInto(items, i, parts) + items[i + 1..])
  }

  // ---- uniqueness --------------------------------------------------------------------------

  lemma {:induction false} NewPartsFresh(id: string, taken: set<string>, parts: seq<map<string, Json>>)
    ensures var r := NewParts(id, taken, parts);
            UniqueIds(r) && forall j :: 0 <= j < |r| ==> r[j].id !in taken
    decreases |parts|
  {
    if parts != [] {
      var next := NextSuffixedId(id, taken);
      NewPartsFresh(id, taken + {next}, parts[1..]);
      var r, rest := NewParts(id, taken, parts), NewParts(id, taken + {next}, parts[1..]);
      assert forall j :: 0 < j < |r| ==> r[j] == rest[j - 1];
    }
  }

  lemma InsertKeepsUnique(items: seq<Item>, at: nat, item: Item)
    requires UniqueIds(items) && at <= |items| && item.id !in Ids(items)
    ensures UniqueIds(InsertAt(items, at, item))
  {
    var r := InsertAt(items, at, item);
    forall i, j | 0 <= i < j < |r| ensures r[i].id != r[j].id {
      assert i != at ==> r[i] == items[if i < at then i else i - 1];
      assert j != at ==> r[j] == items[if j < at then j else j - 1];
    }
  }

  lemma RemoveKeepsUnique(items: seq<Item>, at: nat)
    requires UniqueIds(items) && at < |items|
    ensures UniqueIds(RemoveAt(items, at)) && Ids(RemoveAt(items, at)) == Ids(items) - {items[at].id}
  {
    var r := RemoveAt(items, at);
    assert forall i :: 0 <= i < |r| ==> r[i] == items[if i < at then i else i + 1];
    forall id | id in Ids(items) - {items[at].id} ensures id in Ids(r) {
      var i :| 0 <= i < |items| && items[i].id == id;
      assert r[if i < at then i else i - 1].id == id;
    }
  }

  lemma SplitKeepsUnique(items: seq<Item>, i: nat, parts: seq<map<string, Json>>)
    requires UniqueIds(items) && i < |items| && parts != []
    ensures UniqueIds(items[..i] + SplitInto(items, i, parts) + items[i + 1..])
  {
    var into := SplitInto(items, i, parts);
    var more := NewParts(items[i].id, Ids(items), parts[1..]);
    NewPartsFresh(items[i].id, Ids(items), parts[1..]);
    assert forall k :: 0 < k < |into| ==> into[k] == more[k - 1];
    var r := items[..i] + into + items[i + 1..];
    forall a, b | 0 <= a < b < |r| ensures r[a].id != r[b].id {
      assert r[a] == if a < i then items[a] else if a < i + |into| then into[a - i] else items[a - |into| + 1];
      assert r[b] == if b < i then items[b] else if b < i + |into| then into[b - i] else items[b - |into| + 1];
    }
  }
}
