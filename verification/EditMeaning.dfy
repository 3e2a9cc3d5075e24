/**
 What each public script edit does, said without saying how: where things stand afterwards, which fields they
 have, and which new ids are given out. `DirectMeans` ties the edits to it in both directions.
 */
module EditMeaning {
  import opened Wrappers
  import opened Json
  import opened ScriptEditor
  import opened PatchProjection
  import Decimal

  // ---- positions ---------------------------------------------------------------------------

  /** The first item with the id. */
  predicate FirstAt(items: seq<Item>, i: nat, id: string) {
    i < |items| && items[i].id == id && forall j :: 0 <= j < i ==> items[j].id != id
  }

  /** At the front, or right behind the first item with that id. */
  predicate Follows(r: seq<Item>, at: nat, after: Option<string>) {
    at <= |r| && if after.None? then at == 0 else at > 0 && FirstAt(r, at - 1, after.value)
  }

  /** The `j`-th position when the one at `i` is left out. */
  function Skipping(i: nat, j: nat): nat { if j < i then j else j + 1 }

  /** The list without the item at `i`. */
  predicate Without(items: seq<Item>, i: nat, rest: seq<Item>) {
    i < |items| == |rest| + 1 && forall j :: 0 <= j < |rest| ==> rest[j] == items[Skipping(i, j)]
  }

  lemma FirstIsFound(items: seq<Item>, i: nat, id: string)
    ensures FirstAt(items, i, id) <==> i == Find(items, id) < |items|
  {
    var f := Find(items, id);
    if FirstAt(items, i, id) && f < i {
      assert false;
    }
  }

  lemma WithoutIsRemoved(items: seq<Item>, i: nat, rest: seq<Item>)
    ensures Without(items, i, rest) <==> i < |items| && rest == RemoveAt(items, i)
  {
    if i < |items| {
      var r := RemoveAt(items, i);
      assert forall j :: 0 <= j < |r| ==> r[j] == items[Skipping(i, j)];
    }
  }

  lemma WithoutInserted(rest: seq<Item>, at: nat, item: Item, r: seq<Item>)
    ensures at <= |rest| && r == InsertAt(rest, at, item) <==> Without(r, at, rest) && r[at] == item
  {
    if at <= |rest| {
      var s := InsertAt(rest, at, item);
      assert s[at] == item && forall j :: 0 <= j < |rest| ==> s[Skipping(at, j)] == rest[j];
      if Without(r, at, rest) && r[at] == item {
        forall k | 0 <= k < |r| ensures r[k] == s[k] {
          if k != at {
            var j := if k < at then k else k - 1;
            assert Skipping(at, j) == k;
          }
        }
      }
    }
  }

  lemma FollowsIsPlace(r: seq<Item>, at: nat, rest: seq<Item>, after: Option<string>)
    requires Without(r, at, rest)
    ensures Follows(r, at, after) <==> PlaceAfter(rest, after) == Ok(at)
  {
    if after.Some? {
      assert forall j :: 0 <= j < at ==> r[j] == rest[j] && Skipping(at, j) == j;
      if at > 0 {
        FirstIsFound(rest, at - 1, after.value);
        assert FirstAt(r, at - 1, after.value) <==> FirstAt(rest, at - 1, after.value);
      }
    }
  }

  // ---- fields ------------------------------------------------------------------------------

  /** The value a path leads to. */
  function Nested(fields: map<string, Json>, path: seq<string>): Option<Json>
    decreases |path|
  {
    if path == [] then Some(Object(fields))
    else if path[0] !in fields then None
    else if |path| == 1 then Some(fields[path[0]])
    else if fields[path[0]].Object? then Nested(fields[path[0]].fields, path[1..])
    else None
  }

  /** Neither path leads through the other. */
  predicate Unrelated(p: seq<string>, q: seq<string>) { !(p <= q) && !(q <= p) }

  /** Every parent on the path is an object that is there. */
  predicate ParentsThere(fields: map<string, Json>, path: seq<string>) {
    forall k :: 0 < k < |path| ==> Nested(fields, path[..k]).Some? && Nested(fields, path[..k]).value.Object?
  }

  /** Only what the path leads to is other than before, and that is the value. */
  ghost predicate Sets(f: map<string, Json>, path: seq<string>, value: Json, g: map<string, Json>) {
    && ParentsThere(f, path) && ParentsThere(g, path)
    && Nested(g, path) == Some(value)
    && forall q :: Unrelated(path, q) ==> Nested(g, q) == Nested(f, q)
  }

  lemma NestedUnder(f: map<string, Json>, key: string, path: seq<string>)
    requires key in f && f[key].Object?
    ensures Nested(f, [key] + path) == Nested(f[key].fields, path)
  {
    if path != [] {
      assert ([key] + path)[1..] == path;
    }
  }

  lemma ParentsUnder(f: map<string, Json>, path: seq<string>)
    requires |path| > 1
    ensures ParentsThere(f, path)
       <==> path[0] in f && f[path[0]].Object? && ParentsThere(f[path[0]].fields, path[1..])
  {
    assert path[..1] == [path[0]];
    if path[0] in f && f[path[0]].Object? {
      forall k | 0 < k < |path|
        ensures k > 1 ==> Nested(f, path[..k]) == Nested(f[path[0]].fields, path[1..][..k - 1])
      {
        assert path[..k] == [path[0]] + path[1..][..k - 1];
        NestedUnder(f, path[0], path[1..][..k - 1]);
      }
      if ParentsThere(f, path) {
        forall k | 0 < k < |path| - 1
          ensures var parent := Nested(f[path[0]].fields, path[1..][..k]); parent.Some? && parent.value.Object?
        {
          assert Nested(f, path[..k + 1]).Some? && Nested(f, path[..k + 1]).value.Object?;
        }
      }
    } else if ParentsThere(f, path) {
      var parent := Nested(f, path[..1]);
      assert false;
    }
  }

  lemma UnrelatedUnder(key: string, p: seq<string>, q: seq<string>)
    ensures Unrelated([key] + p, [key] + q) <==> Unrelated(p, q)
  {
    var kp, kq := [key] + p, [key] + q;
    assert kp[1..] == p && kq[1..] == q;
    if kp <= kq {
      assert kq[..|kp|] == kp && q[..|p|] == kq[..|kp|][1..];
    }
    if kq <= kp {
      assert kp[..|kq|] == kq && p[..|q|] == kp[..|kq|][1..];
    }
  }

  /** All keys but one have the same values. */
  predicate SameBut(f: map<string, Json>, g: map<string, Json>, key: string) {
    g - {key} == f - {key}
  }

  lemma SameButAt(f: map<string, Json>, g: map<string, Json>, key: string, other: string)
    requires SameBut(f, g, key) && other != key
    ensures (other in g <==> other in f) && (other in f ==> g[other] == f[other])
  {
    assert other in g <==> other in g - {key};
    assert other in f <==> other in f - {key};
    assert other in f ==> g[other] == (g - {key})[other] == (f - {key})[other];
  }

  lemma SameNested(f: map<string, Json>, g: map<string, Json>, key: string, q: seq<string>)
    requires SameBut(f, g, key) && q != [] && q[0] != key
    ensures Nested(g, q) == Nested(f, q)
  {
    SameButAt(f, g, key, q[0]);
  }

  lemma OthersSame(f: map<string, Json>, g: map<string, Json>, path: seq<string>)
    requires path != [] && forall q :: Unrelated(path, q) ==> Nested(g, q) == Nested(f, q)
    ensures SameBut(f, g, path[0])
  {
    forall k | k != path[0] ensures (k in g <==> k in f) && (k in f ==> g[k] == f[k]) {
      assert path[0] != [k][0] && Unrelated(path, [k]);
      assert Nested(g, [k]) == Nested(f, [k]);
    }
  }

  lemma LeadsFrom(key: string, q: seq<string>)
    requires q != [] && q[0] == key
    ensures [key] <= q
  {}

  lemma UnrelatedToKey(key: string, q: seq<string>)
    requires Unrelated([key], q)
    ensures q != [] && q[0] != key
  {
    if q != [] && q[0] == key {
      LeadsFrom(key, q);
    }
  }

  lemma SetsLast(f: map<string, Json>, key: string, value: Json, g: map<string, Json>)
    ensures Sets(f, [key], value, g) <==> g == f[key := value]
  {
    if Sets(f, [key], value, g) {
      OthersSame(f, g, [key]);
      forall k | k in g || k in f[key := value] ensures k in g && k in f[key := value] && g[k] == f[key := value][k] {
        if k != key {
          SameButAt(f, g, key, k);
        }
      }
    }
    if g == f[key := value] {
      assert SameBut(f, g, key);
      forall q | Unrelated([key], q) ensures Nested(g, q) == Nested(f, q) {
        UnrelatedToKey(key, q);
        SameNested(f, g, key, q);
      }
    }
  }

  lemma SetsInner(f: map<string, Json>, path: seq<string>, value: Json, g: map<string, Json>)
    requires |path| > 1 && Sets(f, path, value, g)
    ensures var key := path[0];
            && key in f && f[key].Object? && key in g && g[key].Object? && SameBut(f, g, key)
            && Sets(f[key].fields, path[1..], value, g[key].fields)
  {
    var key, inner := path[0], path[1..];
    assert path == [key] + inner;
    OthersSame(f, g, path);
    ParentsUnder(f, path);
    ParentsUnder(g, path);
    NestedUnder(g, key, inner);
    forall q | Unrelated(inner, q) ensures Nested(g[key].fields, q) == Nested(f[key].fields, q) {
      UnrelatedUnder(key, inner, q);
      NestedUnder(f, key, q);
      NestedUnder(g, key, q);
    }
  }

  lemma SetsOuter(f: map<string, Json>, path: seq<string>, value: Json, g: map<string, Json>)
    requires |path| > 1
    requires var key := path[0];
             && key in f && f[key].Object? && key in g && g[key].Object? && SameBut(f, g, key)
             && Sets(f[key].fields, path[1..], value, g[key].fields)
    ensures Sets(f, path, value, g)
  {
    var key, inner := path[0], path[1..];
    assert path == [key] + inner;
    ParentsUnder(f, path);
    ParentsUnder(g, path);
    NestedUnder(g, key, inner);
    forall q | Unrelated(path, q) ensures Nested(g, q) == Nested(f, q) {
      assert q == [] ==> q <= path;
      if q[0] == key {
        assert q == [key] + q[1..];
        UnrelatedUnder(key, inner, q[1..]);
        NestedUnder(f, key, q[1..]);
        NestedUnder(g, key, q[1..]);
      } else {
        SameNested(f, g, key, q);
      }
    }
  }

  /** Setting succeeds exactly when the parents are there, and does exactly that. */
  lemma {:induction false} SetsIsSetNested(f: map<string, Json>, path: seq<string>, value: Json, g: map<string, Json>)
    requires path != []
    ensures SetNested(f, path, value) == Some(g) <==> Sets(f, path, value, g)
    decreases |path|
  {
    var key := path[0];
    if |path| == 1 {
      assert path == [key];
      SetsLast(f, key, value, g);
    } else {
      if SetNested(f, path, value) == Some(g) {
        SetsIsSetNested(f[key].fields, path[1..], value, g[key].fields);
        SetsOuter(f, path, value, g);
      }
      if Sets(f, path, value, g) {
        SetsInner(f, path, value, g);
        SetsIsSetNested(f[key].fields, path[1..], value, g[key].fields);
        AlikeButOne(f, g, key);
      }
    }
  }

  lemma AlikeButOne(f: map<string, Json>, g: map<string, Json>, key: string)
    requires SameBut(f, g, key) && key in g
    ensures g == f[key := g[key]]
  {
    forall k | k in g || k in f[key := g[key]] ensures k in g && k in f[key := g[key]] && g[k] == f[key := g[key]][k] {
      if k != key {
        SameButAt(f, g, key, k);
      }
    }
  }

  /** Editable, its parents there, and set. */
  ghost predicate Edits(f: map<string, Json>, edit: FieldEdit, g: map<string, Json>) {
    Editable(edit.path, edit.value) && Sets(f, edit.path, edit.value, g)
  }

  /** The edits one after another, in their order. */
  ghost predicate EditsAll(f: map<string, Json>, edits: seq<FieldEdit>, g: map<string, Json>) {
    exists stages :: InTurn(f, edits, stages, g)
  }

  ghost predicate InTurn(
    f: map<string, Json>, edits: seq<FieldEdit>, stages: seq<map<string, Json>>, g: map<string, Json>)
  {
    && |stages| == |edits| + 1 && stages[0] == f && stages[|edits|] == g
    && forall k :: 0 <= k < |edits| ==> Edits(stages[k], edits[k], stages[k + 1])
  }

  /** Cleared of media; the other fields as they were. */
  predicate Cleared(g: map<string, Json>, f: map<string, Json>) {
    && ASSETS in g && g[ASSETS] == Object(map[]) && END_FRAME !in g
    && g - {ASSETS, END_FRAME} == f - {ASSETS, END_FRAME}
  }

  /** With the media of another item: its assets if they are an object, its end frame if it has one. */
  predicate WithMedia(g: map<string, Json>, f: map<string, Json>, from: map<string, Json>) {
    && ASSETS in g && g[ASSETS] == (if ASSETS in from && from[ASSETS].Object? then from[ASSETS] else Object(map[]))
    && (if END_FRAME in from && !from[END_FRAME].Null? then END_FRAME in g && g[END_FRAME] == from[END_FRAME]
        else END_FRAME !in g)
    && g - {ASSETS, END_FRAME} == f - {ASSETS, END_FRAME}
  }

  lemma SameFields(g: map<string, Json>, h: map<string, Json>, keys: set<string>)
    requires g - keys == h - keys
    requires forall k :: k in keys ==> (k in g <==> k in h) && (k in g && k in h ==> g[k] == h[k])
    ensures g == h
  {
    forall k | k in g || k in h ensures k in g && k in h && g[k] == h[k] {
      if k !in keys {
        assert k in g <==> k in g - keys;
        assert k in h <==> k in h - keys;
        assert g[k] == (g - keys)[k] == (h - keys)[k];
      }
    }
  }

  lemma ClearedIsWithoutMedia(g: map<string, Json>, f: map<string, Json>)
    ensures Cleared(g, f) <==> g == WithoutMedia(f)
  {
    assert WithoutMedia(f) - {ASSETS, END_FRAME} == f - {ASSETS, END_FRAME};
    if Cleared(g, f) {
      SameFields(g, WithoutMedia(f), {ASSETS, END_FRAME});
    }
  }

  lemma WithMediaIsWithMediaOf(g: map<string, Json>, f: map<string, Json>, from: map<string, Json>)
    ensures WithMedia(g, f, from) <==> g == WithMediaOf(f, from)
  {
    assert WithMediaOf(f, from) - {ASSETS, END_FRAME} == f - {ASSETS, END_FRAME};
    if WithMedia(g, f, from) {
      SameFields(g, WithMediaOf(f, from), {ASSETS, END_FRAME});
    }
  }

  // ---- ids ---------------------------------------------------------------------------------

  /** Nothing, or `_` with digits. */
  predicate SuffixOk(suffix: string) {
    suffix == [] || (suffix[0] == '_' && |suffix| > 1 && Decimal.AllDigits(suffix[1..]))
  }

  /** Digits that make the number, and perhaps a suffix. */
  ghost predicate Numbers(tail: string, number: nat) {
    exists n: string, suffix: string :: IsNumber(tail, n, suffix) && number == Decimal.Value(n)
  }

  predicate IsNumber(tail: string, n: string, suffix: string) {
    tail == n + suffix && n != [] && Decimal.AllDigits(n) && SuffixOk(suffix)
  }

  /** `E`, digits that make the episode, `S` or `U`, and what numbers the item. */
  ghost predicate Names(id: string, parts: IdParts) {
    parts.letter in {'S', 'U'} && exists e: string, tail: string ::
      IsEpisode(id, e, parts.letter, tail) && parts.episode == Decimal.Value(e) && Numbers(tail, parts.number)
  }

  predicate IsEpisode(id: string, e: string, letter: char, tail: string) {
    id == ['E'] + (e + ([letter] + tail)) && e != [] && Decimal.AllDigits(e)
  }

  /** The digits at the front are a maximal run. */
  lemma {:induction false} RunEnds(s: string)
    ensures DigitRun(s) < |s| ==> !Decimal.IsDigit(s[DigitRun(s)])
  {
    if s != [] && Decimal.IsDigit(s[0]) {
      RunEnds(s[1..]);
    }
  }

  lemma RunDigits(s: string)
    ensures forall k :: 0 <= k < DigitRun(s) ==> Decimal.IsDigit(s[k])
  {
    forall k | 0 <= k < DigitRun(s) ensures Decimal.IsDigit(s[k]) {
      assert s[..DigitRun(s)][k] == s[k];
    }
  }

  lemma RunIs(run: string, rest: string)
    requires Decimal.AllDigits(run) && (rest == [] || !Decimal.IsDigit(rest[0]))
    ensures DigitRun(run + rest) == |run|
  {
    var s := run + rest;
    var n := DigitRun(s);
    RunEnds(s);
    assert forall k :: 0 <= k < |run| ==> s[k] == run[k];
    assert rest != [] ==> s[|run|] == rest[0];
    RunDigits(s);
  }

  lemma SuffixParsed(suffix: string)
    ensures SuffixOk(suffix)
       <==> suffix == [] || (suffix[0] == '_' && |suffix| > 1 && DigitRun(suffix[1..]) == |suffix| - 1)
  {
    if |suffix| > 1 {
      var digits := suffix[1..];
      assert digits[..|digits|] == digits;
      if Decimal.AllDigits(digits) {
        assert digits + [] == digits;
        RunIs(digits, []);
      }
    }
  }

  lemma NumberParsed(tail: string, n: string, suffix: string)
    requires IsNumber(tail, n, suffix)
    ensures ParseNumber(tail) == Some(Decimal.Value(n))
  {
    RunIs(n, suffix);
    SuffixParsed(suffix);
    assert tail[..|n|] == n && tail[|n|..] == suffix;
  }

  lemma ParseNumberExactly(tail: string, number: nat)
    ensures ParseNumber(tail) == Some(number) <==> Numbers(tail, number)
  {
    if ParseNumber(tail) == Some(number) {
      var d := DigitRun(tail);
      SuffixParsed(tail[d..]);
      assert IsNumber(tail, tail[..d], tail[d..]);
    }
    if n, suffix :| IsNumber(tail, n, suffix) && number == Decimal.Value(n) {
      NumberParsed(tail, n, suffix);
    }
  }

  lemma CutAt(s: string, k: nat)
    requires k < |s|
    ensures s == s[..k] + ([s[k]] + s[k + 1..])
  {}

  lemma Behind(e: string, letter: char, tail: string)
    ensures var rest := e + ([letter] + tail);
            rest[..|e|] == e && rest[|e|] == letter && rest[|e| + 1..] == tail
  {}

  lemma EpisodeParsed(id: string, e: string, letter: char, tail: string)
    requires IsEpisode(id, e, letter, tail) && letter in {'S', 'U'}
    ensures ParseId(id) == match ParseNumber(tail)
                           case None => None
                           case Some(number) => Some(IdParts(Decimal.Value(e), letter, number))
  {
    var rest := e + ([letter] + tail);
    assert id[1..] == rest;
    RunIs(e, [letter] + tail);
    Behind(e, letter, tail);
  }

  lemma ParsedEpisode(id: string)
    requires ParseId(id).Some?
    ensures ParseId(id).value.letter in {'S', 'U'}
    ensures exists e, tail ::
              IsEpisode(id, e, ParseId(id).value.letter, tail) && ParseId(id).value.episode == Decimal.Value(e)
              && ParseNumber(tail) == Some(ParseId(id).value.number)
  {
    var rest := id[1..];
    var e := DigitRun(rest);
    CutAt(rest, e);
    assert IsEpisode(id, rest[..e], rest[e], rest[e + 1..]);
  }

  /** `_ITEM_ID_RE` */
  lemma ParseExactly(id: string, parts: IdParts)
    ensures ParseId(id) == Some(parts) <==> Names(id, parts)
  {
    if ParseId(id) == Some(parts) {
      ParsedEpisode(id);
      var e, tail :| IsEpisode(id, e, parts.letter, tail) && parts.episode == Decimal.Value(e)
                     && ParseNumber(tail) == Some(parts.number);
      ParseNumberExactly(tail, parts.number);
    }
    if parts.letter in {'S', 'U'} {
      if e, tail :| IsEpisode(id, e, parts.letter, tail) && parts.episode == Decimal.Value(e)
                    && Numbers(tail, parts.number) {
        ParseNumberExactly(tail, parts.number);
        EpisodeParsed(id, e, parts.letter, tail);
      }
    }
  }

  /** The recorded episode if there is one, else that of the first id which names one, else the first episode. */
  predicate EpisodeIs(script: Script, items: seq<Item>, episode: nat) {
    if script.episode.Some? && script.episode.value >= 1 then episode == script.episode.value
    else if exists i :: 0 <= i < |items| && ParseId(items[i].id).Some? then
      exists i: nat :: i < |items| && FirstParsed(items, i) && ParseId(items[i].id).value.episode == episode
    else episode == 1
  }

  predicate FirstParsed(items: seq<Item>, i: nat)
    requires i < |items|
  {
    ParseId(items[i].id).Some? && forall j :: 0 <= j < i ==> ParseId(items[j].id).None?
  }

  lemma EpisodeBehind(script: Script, items: seq<Item>, episode: nat)
    requires items != [] && ParseId(items[0].id).None? && EpisodeIs(script, items[1..], episode)
    ensures EpisodeIs(script, items, episode)
  {
    var rest := items[1..];
    assert forall j :: 0 < j < |items| ==> items[j] == rest[j - 1];
    if k: nat :| k < |rest| && FirstParsed(rest, k) && ParseId(rest[k].id).value.episode == episode {
      assert FirstParsed(items, k + 1);
    }
  }

  lemma {:induction false} EpisodeFound(script: Script, items: seq<Item>)
    ensures EpisodeIs(script, items, EpisodeOf(script, items))
  {
    if !(script.episode.Some? && script.episode.value >= 1) && items != [] {
      if ParseId(items[0].id).Some? {
        assert FirstParsed(items, 0);
      } else {
        EpisodeFound(script, items[1..]);
        EpisodeBehind(script, items, EpisodeOf(script, items[1..]));
      }
    }
  }

  lemma OneEpisode(script: Script, items: seq<Item>, a: nat, b: nat)
    requires EpisodeIs(script, items, a) && EpisodeIs(script, items, b)
    ensures a == b
  {
    if !(script.episode.Some? && script.episode.value >= 1)
       && exists i :: 0 <= i < |items| && ParseId(items[i].id).Some? {
      var i: nat :| i < |items| && FirstParsed(items, i) && ParseId(items[i].id).value.episode == a;
      var j: nat :| j < |items| && FirstParsed(items, j) && ParseId(items[j].id).value.episode == b;
      assert i == j;
    }
  }

  /** Above every main number among the ids of the episode. */
  predicate Above(items: seq<Item>, episode: nat, n: nat) {
    n > 0 && forall i :: 0 <= i < |items| ==> NumberedBelow(items[i].id, episode, n)
  }

  predicate NumberedBelow(id: string, episode: nat, n: nat) {
    var parsed := ParseId(id);
    parsed.Some? && parsed.value.episode == episode ==> parsed.value.number < n
  }

  lemma {:induction false} AboveHighest(items: seq<Item>, episode: nat, n: nat)
    ensures Above(items, episode, n) <==> n > HighestNumber(items, episode)
  {
    if items != [] {
      AboveHighest(items[1..], episode, n);
      assert items == [items[0]] + items[1..];
    }
  }

  /** `E1S07`, `E1U7` */
  function IdText(kind: Kind, episode: nat, n: nat): string {
    if kind.VideoUnits? then "E" + Decimal.Digits(episode) + "U" + Decimal.Digits(n)
    else "E" + Decimal.Digits(episode) + "S" + (if n < 10 then "0" else "") + Decimal.Digits(n)
  }

  /** The least number above all of the episode's whose id is free. */
  predicate NextNumber(script: Script, items: seq<Item>, episode: nat, n: nat) {
    && Above(items, episode, n) && IdText(script.kind, episode, n) !in Ids(items)
    && forall m: nat :: m < n && Above(items, episode, m) ==> IdText(script.kind, episode, m) in Ids(items)
  }

  ghost predicate IsNewId(script: Script, items: seq<Item>, id: string) {
    exists episode: nat, n: nat ::
      EpisodeIs(script, items, episode) && NextNumber(script, items, episode, n)
      && id == IdText(script.kind, episode, n)
  }

  lemma RenderedText(kind: Kind, episode: nat, n: nat)
    ensures Render(FamilyOf(kind, episode), n) == IdText(kind, episode, n)
  {}

  /** The number counting up from above the highest ends at. */
  function NumberFor(script: Script, items: seq<Item>, episode: nat): nat {
    FirstFree(Family(FamilyOf(script.kind, episode)), Ids(items), HighestNumber(items, episode) + 1)
  }

  function FamilyOf(kind: Kind, episode: nat): Numbering {
    if kind.VideoUnits? then Unit(episode) else Storyboard(episode)
  }

  lemma FreeIs(ids: nat -> string, taken: set<string>, start: nat, n: nat)
    requires Injective(ids)
    ensures n == FirstFree(ids, taken, start)
       <==> n >= start && ids(n) !in taken && forall m: nat :: start <= m < n ==> ids(m) in taken
  {
    FirstFreeIsFree(ids, taken, start);
  }

  lemma NextNumberIs(script: Script, items: seq<Item>, episode: nat, n: nat)
    ensures NextNumber(script, items, episode, n) <==> n == NumberFor(script, items, episode)
  {
    var ids := Family(FamilyOf(script.kind, episode));
    var start := HighestNumber(items, episode) + 1;
    FamilyInjective(FamilyOf(script.kind, episode));
    FreeIs(ids, Ids(items), start, n);
    forall m: nat ensures ids(m) == IdText(script.kind, episode, m) && (Above(items, episode, m) <==> m >= start) {
      RenderedText(script.kind, episode, m);
      AboveHighest(items, episode, m);
    }
  }

  lemma NewIdText(script: Script, items: seq<Item>)
    ensures var episode := EpisodeOf(script, items);
            NewItemId(script, items) == IdText(script.kind, episode, NumberFor(script, items, episode))
  {
    var episode := EpisodeOf(script, items);
    RenderedText(script.kind, episode, NumberFor(script, items, episode));
  }

  lemma NewIdIsNew(script: Script, items: seq<Item>, id: string)
    ensures IsNewId(script, items, id) <==> id == NewItemId(script, items)
  {
    var episode := EpisodeOf(script, items);
    EpisodeFound(script, items);
    NextNumberIs(script, items, episode, NumberFor(script, items, episode));
    NewIdText(script, items);
    if e: nat, m: nat :| EpisodeIs(script, items, e) && NextNumber(script, items, e, m)
                         && id == IdText(script.kind, e, m) {
      OneEpisode(script, items, e, episode);
      NextNumberIs(script, items, e, m);
    }
  }

  /** What precedes the first underscore. */
  predicate IsStem(base: string, stem: string) {
    stem <= base && '_' !in stem && (stem == base || base[|stem|] == '_')
  }

  lemma {:induction false} StemIs(base: string, stem: string)
    ensures IsStem(base, stem) <==> stem == Stem(base)
    decreases |base|
  {
    if base == [] || base[0] == '_' {
      assert stem != [] && stem <= base ==> base != [] && stem[0] == base[0];
    } else if stem == [] {
    } else {
      StemIs(base[1..], stem[1..]);
      StemUnder(base, stem);
      assert stem == [stem[0]] + stem[1..];
    }
  }

  lemma StemUnder(base: string, stem: string)
    requires base != [] && stem != [] && base[0] != '_'
    ensures IsStem(base, stem) <==> stem[0] == base[0] && IsStem(base[1..], stem[1..])
  {
    assert stem == [stem[0]] + stem[1..] && base == [base[0]] + base[1..];
    if stem <= base {
      assert stem[1..] == base[1..][..|stem| - 1];
    }
    if stem[0] == base[0] && stem[1..] <= base[1..] {
      assert stem == base[..|stem|];
    }
  }

  /** The stem with the least number from one on that is free. */
  ghost predicate IsSuffixed(base: string, taken: set<string>, id: string) {
    exists stem, k: nat ::
      && IsStem(base, stem) && k > 0 && id == SuffixText(stem, k) && id !in taken
      && forall m :: 0 < m < k ==> SuffixText(stem, m) in taken
  }

  function SuffixText(stem: string, k: nat): string { stem + "_" + Decimal.Digits(k) }

  lemma SuffixedIsNext(base: string, taken: set<string>, id: string)
    ensures IsSuffixed(base, taken, id) <==> id == NextSuffixedId(base, taken)
  {
    var stem := Stem(base);
    var n := FirstFree(Family(Suffixed(stem)), taken, 1);
    StemIs(base, stem);
    FamilyInjective(Suffixed(stem));
    FirstFreeIsFree(Family(Suffixed(stem)), taken, 1);
    forall m: nat ensures Family(Suffixed(stem))(m) == SuffixText(stem, m) {}
    assert IsSuffixed(base, taken, SuffixText(stem, n));
    if s, k: nat :| IsStem(base, s) && k > 0 && id == SuffixText(s, k) && id !in taken
                    && forall m :: 0 < m < k ==> SuffixText(s, m) in taken {
      StemIs(base, s);
      assert k == n;
    }
  }

  // ---- what each edit means ----------------------------------------------------------------

  /** The item's fields change by the edits in turn; nothing else does. */
  ghost predicate Updated(items: seq<Item>, id: string, edits: seq<FieldEdit>, r: seq<Item>) {
    if edits == [] then r == items
    else
      exists i: nat :: FirstAt(items, i, id) && |r| == |items| && r[i].id == id
        && EditsAll(items[i].fields, edits, r[i].fields)
        && forall j :: 0 <= j < |items| && j != i ==> r[j] == items[j]
  }

  /** One item more, behind the anchor, with a new id, the given fields and no media; the others in their order. */
  ghost predicate Inserted(
    script: Script, items: seq<Item>, after: Option<string>, fields: map<string, Json>, r: seq<Item>)
  {
    exists at: nat :: Without(r, at, items) && Follows(r, at, after)
                 && IsNewId(script, items, r[at].id) && Cleared(r[at].fields, fields)
  }

  /** The item stands behind the anchor, which is not itself; the others are in their order. */
  ghost predicate Moved(items: seq<Item>, id: string, after: Option<string>, r: seq<Item>) {
    after != Some(id) &&
    exists i: nat, at: nat, rest ::
      FirstAt(items, i, id) && Without(items, i, rest) && Without(r, at, rest) && r[at] == items[i]
      && Follows(r, at, after)
  }

  ghost predicate Removed(items: seq<Item>, id: string, r: seq<Item>) {
    exists i: nat :: FirstAt(items, i, id) && Without(items, i, r)
  }

  /** `into` continues the item with its media, then brings items with suffixed ids and no media. */
  ghost predicate Continues(items: seq<Item>, item: Item, parts: seq<map<string, Json>>, into: seq<Item>) {
    && |into| == |parts| > 0
    && into[0].id == item.id && WithMedia(into[0].fields, parts[0], item.fields)
    && Suffixes(item.id, Ids(items), parts[1..], into[1..])
  }

  /** The parts stand where the item stood. */
  ghost predicate SplitUp(items: seq<Item>, id: string, parts: seq<map<string, Json>>, r: seq<Item>) {
    |parts| >= 2 &&
    exists i: nat, into ::
      FirstAt(items, i, id) && Continues(items, items[i], parts, into)
      && r == items[..i] + into + items[i + 1..]
  }

  ghost predicate Means(script: Script, items: seq<Item>, op: PublicOp, r: seq<Item>) {
    match op
    case Update(id, edits) => Updated(items, id, edits, r)
    case Insert(after, fields) => Inserted(script, items, after, fields, r)
    case Move(id, after) => Moved(items, id, after, r)
    case Remove(id) => Removed(items, id, r)
    case Split(id, parts) => SplitUp(items, id, parts, r)
  }

  // ---- updates -----------------------------------------------------------------------------

  lemma PatchFieldEdits(items: seq<Item>, id: string, edit: FieldEdit, r: seq<Item>)
    ensures PatchField(items, id, edit) == Ok(r) <==>
              var i := Find(items, id);
              i < |items| && |r| == |items| && r == items[i := r[i]] && r[i].id == id
              && Edits(items[i].fields, edit, r[i].fields)
  {
    var i := Find(items, id);
    if i < |items| && Editable(edit.path, edit.value) && |r| == |items| {
      SetsIsSetNested(items[i].fields, edit.path, edit.value, r[i].fields);
    }
    if PatchField(items, id, edit).Ok? && PatchField(items, id, edit).value == r {
      SetsIsSetNested(items[i].fields, edit.path, edit.value, r[i].fields);
    }
  }

  lemma FindStays(items: seq<Item>, id: string, item: Item)
    requires Find(items, id) < |items| && item.id == id
    ensures Find(items[Find(items, id) := item], id) == Find(items, id)
  {
    var i, r := Find(items, id), items[Find(items, id) := item];
    FirstIsFound(r, i, id);
  }

  lemma NoEdits(f: map<string, Json>)
    ensures EditsAll(f, [], f)
  {
    assert InTurn(f, [], [f], f);
  }

  lemma EditsOneMore(f: map<string, Json>, edits: seq<FieldEdit>, h: map<string, Json>, g: map<string, Json>)
    requires edits != [] && EditsAll(f, edits[..|edits| - 1], h) && Edits(h, edits[|edits| - 1], g)
    ensures EditsAll(f, edits, g)
  {
    var stages :| InTurn(f, edits[..|edits| - 1], stages, h);
    assert InTurn(f, edits, stages + [g], g);
  }

  lemma EditsLast(f: map<string, Json>, edits: seq<FieldEdit>, g: map<string, Json>) returns (h: map<string, Json>)
    requires edits != [] && EditsAll(f, edits, g)
    ensures EditsAll(f, edits[..|edits| - 1], h) && Edits(h, edits[|edits| - 1], g)
  {
    var stages :| InTurn(f, edits, stages, g);
    h := stages[|edits| - 1];
    assert InTurn(f, edits[..|edits| - 1], stages[..|edits|], h);
  }

  lemma {:induction false} PatchedMeans(items: seq<Item>, id: string, edits: seq<FieldEdit>)
    requires Find(items, id) < |items| && PatchFields(items, id, edits).Ok?
    ensures var i, r := Find(items, id), PatchFields(items, id, edits).value;
            |r| == |items| && r == items[i := r[i]] && r[i].id == id && Find(r, id) == i
            && EditsAll(items[i].fields, edits, r[i].fields)
    decreases |edits|
  {
    var i := Find(items, id);
    if edits == [] {
      NoEdits(items[i].fields);
    } else {
      var init, last := edits[..|edits| - 1], edits[|edits| - 1];
      PatchedMeans(items, id, init);
      var before, r := PatchFields(items, id, init).value, PatchFields(items, id, edits).value;
      PatchFieldEdits(before, id, last, r);
      FindStays(before, id, r[i]);
      EditsOneMore(items[i].fields, edits, before[i].fields, r[i].fields);
    }
  }

  lemma {:induction false} MeantIsPatched(items: seq<Item>, id: string, edits: seq<FieldEdit>, g: map<string, Json>)
    requires Find(items, id) < |items| && EditsAll(items[Find(items, id)].fields, edits, g)
    ensures PatchFields(items, id, edits) == Ok(items[Find(items, id) := Item(id, g)])
    decreases |edits|
  {
    var i := Find(items, id);
    if edits == [] {
      assert items[i := Item(id, g)] == items;
    } else {
      var h := EditsLast(items[i].fields, edits, g);
      MeantIsPatched(items, id, edits[..|edits| - 1], h);
      var before, r := items[i := Item(id, h)], items[i := Item(id, g)];
      FindStays(items, id, Item(id, h));
      assert r == before[i := r[i]];
      PatchFieldEdits(before, id, edits[|edits| - 1], r);
    }
  }

  lemma {:induction false} UnknownIsRefused(items: seq<Item>, id: string, edits: seq<FieldEdit>)
    requires Find(items, id) == |items| && edits != []
    ensures PatchFields(items, id, edits) == Err(UnknownItem(id))
    decreases |edits|
  {
    if |edits| > 1 {
      UnknownIsRefused(items, id, edits[..|edits| - 1]);
    }
  }

  lemma UpdateMeans(items: seq<Item>, id: string, edits: seq<FieldEdit>, r: seq<Item>)
    ensures PatchFields(items, id, edits) == Ok(r) <==> Updated(items, id, edits, r)
  {
    var f := Find(items, id);
    if edits != [] {
      if f == |items| {
        UnknownIsRefused(items, id, edits);
      } else if PatchFields(items, id, edits) == Ok(r) {
        PatchedMeans(items, id, edits);
        FirstIsFound(items, f, id);
      }
      if Updated(items, id, edits, r) {
        var i: nat :| FirstAt(items, i, id) && |r| == |items| && r[i].id == id
                      && EditsAll(items[i].fields, edits, r[i].fields)
                      && forall j :: 0 <= j < |items| && j != i ==> r[j] == items[j];
        FirstIsFound(items, i, id);
        MeantIsPatched(items, id, edits, r[i].fields);
        assert r == items[i := Item(id, r[i].fields)];
      }
    }
  }

  // ---- the other edits ---------------------------------------------------------------------

  lemma InsertMeans(
    script: Script, items: seq<Item>, after: Option<string>, fields: map<string, Json>, r: seq<Item>)
    ensures ScriptEditor.Insert(script, items, after, fields) == Ok(r) <==> Inserted(script, items, after, fields, r)
  {
    var item := Item(NewItemId(script, items), WithoutMedia(fields));
    NewIdIsNew(script, items, item.id);
    ClearedIsWithoutMedia(item.fields, fields);
    if ScriptEditor.Insert(script, items, after, fields) == Ok(r) {
      var at := PlaceAfter(items, after).value;
      WithoutInserted(items, at, item, r);
      FollowsIsPlace(r, at, items, after);
    }
    if at: nat :| Without(r, at, items) && Follows(r, at, after)
                  && IsNewId(script, items, r[at].id) && Cleared(r[at].fields, fields) {
      NewIdIsNew(script, items, r[at].id);
      ClearedIsWithoutMedia(r[at].fields, fields);
      WithoutInserted(items, at, item, r);
      FollowsIsPlace(r, at, items, after);
    }
  }

  lemma MoveMeans(items: seq<Item>, id: string, after: Option<string>, r: seq<Item>)
    ensures ScriptEditor.Move(items, id, after) == Ok(r) <==> Moved(items, id, after, r)
  {
    if ScriptEditor.Move(items, id, after) == Ok(r) {
      var i := Find(items, id);
      var rest := RemoveAt(items, i);
      var at := PlaceAfter(rest, after).value;
      FirstIsFound(items, i, id);
      WithoutIsRemoved(items, i, rest);
      WithoutInserted(rest, at, items[i], r);
      FollowsIsPlace(r, at, rest, after);
    }
    if after != Some(id) {
      if i: nat, at: nat, rest :|
        FirstAt(items, i, id) && Without(items, i, rest) && Without(r, at, rest) && r[at] == items[i]
        && Follows(r, at, after) {
        FirstIsFound(items, i, id);
        WithoutIsRemoved(items, i, rest);
        WithoutInserted(rest, at, items[i], r);
        FollowsIsPlace(r, at, rest, after);
      }
    }
  }

  lemma RemoveMeans(items: seq<Item>, id: string, r: seq<Item>)
    ensures ScriptEditor.Remove(items, id) == Ok(r) <==> Removed(items, id, r)
  {
    var f := Find(items, id);
    FirstIsFound(items, f, id);
    WithoutIsRemoved(items, f, r);
    if i: nat :| FirstAt(items, i, id) && Without(items, i, r) {
      FirstIsFound(items, i, id);
      WithoutIsRemoved(items, i, r);
    }
  }

  function IdsBefore(items: seq<Item>, k: nat): set<string>
    requires k <= |items|
  {
    set j | 0 <= j < k :: items[j].id
  }

  /** Items without media for the parts, each with the next suffixed id that is free. */
  ghost predicate Suffixes(id: string, taken: set<string>, parts: seq<map<string, Json>>, more: seq<Item>) {
    && |more| == |parts|
    && forall k :: 0 <= k < |parts| ==> SuffixedPart(id, taken + IdsBefore(more, k), parts[k], more[k])
  }

  ghost predicate SuffixedPart(id: string, taken: set<string>, part: map<string, Json>, item: Item) {
    Cleared(item.fields, part) && IsSuffixed(id, taken, item.id)
  }

  lemma IdsBehind(more: seq<Item>, k: nat, taken: set<string>)
    requires k < |more|
    ensures taken + IdsBefore(more, k + 1) == (taken + {more[0].id}) + IdsBefore(more[1..], k)
  {
    forall id | id in IdsBefore(more, k + 1) ensures id == more[0].id || id in IdsBefore(more[1..], k) {
      var j :| 0 <= j < k + 1 && more[j].id == id;
      assert j > 0 ==> more[1..][j - 1].id == id;
    }
    forall id | id in IdsBefore(more[1..], k) ensures id in IdsBefore(more, k + 1) {
      var j :| 0 <= j < k && more[1..][j].id == id;
      assert more[j + 1].id == id;
    }
  }

  lemma SuffixesTail(id: string, taken: set<string>, parts: seq<map<string, Json>>, more: seq<Item>)
    requires parts != [] && Suffixes(id, taken, parts, more)
    ensures SuffixedPart(id, taken, parts[0], more[0]) && Suffixes(id, taken + {more[0].id}, parts[1..], more[1..])
  {
    assert taken + IdsBefore(more, 0) == taken;
    forall k | 0 <= k < |parts| - 1
      ensures SuffixedPart(id, taken + {more[0].id} + IdsBefore(more[1..], k), parts[1..][k], more[1..][k])
    {
      IdsBehind(more, k, taken);
      assert SuffixedPart(id, taken + IdsBefore(more, k + 1), parts[k + 1], more[k + 1]);
    }
  }

  lemma SuffixesCons(id: string, taken: set<string>, parts: seq<map<string, Json>>, more: seq<Item>)
    requires parts != [] && |more| == |parts|
    requires SuffixedPart(id, taken, parts[0], more[0]) && Suffixes(id, taken + {more[0].id}, parts[1..], more[1..])
    ensures Suffixes(id, taken, parts, more)
  {
    forall k | 0 <= k < |parts| ensures SuffixedPart(id, taken + IdsBefore(more, k), parts[k], more[k]) {
      if k == 0 {
        assert taken + IdsBefore(more, 0) == taken;
      } else {
        IdsBehind(more, k - 1, taken);
        assert parts[1..][k - 1] == parts[k] && more[1..][k - 1] == more[k];
      }
    }
  }

  lemma {:induction false} NewPartsMean(
    id: string, taken: set<string>, parts: seq<map<string, Json>>, more: seq<Item>)
    ensures more == NewParts(id, taken, parts) <==> Suffixes(id, taken, parts, more)
    decreases |parts|
  {
    if parts != [] && |more| == |parts| {
      var next := NextSuffixedId(id, taken);
      SuffixedIsNext(id, taken, more[0].id);
      ClearedIsWithoutMedia(more[0].fields, parts[0]);
      NewPartsMean(id, taken + {more[0].id}, parts[1..], more[1..]);
      if more == NewParts(id, taken, parts) {
        SuffixesCons(id, taken, parts, more);
      }
      if Suffixes(id, taken, parts, more) {
        SuffixesTail(id, taken, parts, more);
        assert more == [Item(next, WithoutMedia(parts[0]))] + more[1..];
      }
    }
  }

  lemma SplitIntoContinues(items: seq<Item>, i: nat, parts: seq<map<string, Json>>, into: seq<Item>)
    requires i < |items| && parts != []
    ensures into == SplitInto(items, i, parts) <==> Continues(items, items[i], parts, into)
  {
    if |into| == |parts| {
      WithMediaIsWithMediaOf(into[0].fields, parts[0], items[i].fields);
      NewPartsMean(items[i].id, Ids(items), parts[1..], into[1..]);
      assert into == [into[0]] + into[1..];
    }
  }

  lemma SplitMeans(items: seq<Item>, id: string, parts: seq<map<string, Json>>, r: seq<Item>)
    ensures ScriptEditor.Split(items, id, parts) == Ok(r) <==> SplitUp(items, id, parts, r)
  {
    var f := Find(items, id);
    FirstIsFound(items, f, id);
    if ScriptEditor.Split(items, id, parts) == Ok(r) {
      SplitIntoContinues(items, f, parts, SplitInto(items, f, parts));
      assert Continues(items, items[f], parts, SplitInto(items, f, parts));
    }
    if |parts| >= 2 {
      if i: nat, into :| FirstAt(items, i, id) && Continues(items, items[i], parts, into)
                         && r == items[..i] + into + items[i + 1..] {
        FirstIsFound(items, i, id);
        SplitIntoContinues(items, i, parts, into);
      }
    }
  }

  // ---- all edits ---------------------------------------------------------------------------

  /** A public edit goes through exactly when a script is meant by it, and yields that script. */
  lemma DirectMeans(script: Script, items: seq<Item>, op: PublicOp, r: seq<Item>)
    ensures Direct(script, items, op) == Ok(r) <==> Means(script, items, op, r)
  {
    match op
    case Update(id, edits) => UpdateMeans(items, id, edits, r);
    case Insert(after, fields) => InsertMeans(script, items, after, fields, r);
    case Move(id, after) => MoveMeans(items, id, after, r);
    case Remove(id) => RemoveMeans(items, id, r);
    case Split(id, parts) => SplitMeans(items, id, parts, r);
  }

  /** The scripts before each operation and at the end. */
  ghost predicate Stages(script: Script, items: seq<Item>, ops: seq<PublicOp>, stages: seq<seq<Item>>) {
    && |stages| == |ops| + 1 && stages[0] == items
    && forall k :: 0 <= k < |ops| ==> Means(script, stages[k], ops[k], stages[k + 1])
  }

  lemma OneMoreStage(script: Script, items: seq<Item>, ops: seq<PublicOp>, stages: seq<seq<Item>>, r: seq<Item>)
    requires ops != [] && Stages(script, items, ops[..|ops| - 1], stages)
    requires Means(script, stages[|ops| - 1], ops[|ops| - 1], r)
    ensures Stages(script, items, ops, stages + [r])
  {
    var more := stages + [r];
    forall k | 0 <= k < |ops| ensures Means(script, more[k], ops[k], more[k + 1]) {
      assert k < |ops| - 1 ==> Means(script, stages[k], ops[..|ops| - 1][k], stages[k + 1]);
    }
  }

  lemma OneLessStage(script: Script, items: seq<Item>, ops: seq<PublicOp>, stages: seq<seq<Item>>)
    requires ops != [] && Stages(script, items, ops, stages)
    ensures Stages(script, items, ops[..|ops| - 1], stages[..|ops|])
    ensures Means(script, stages[|ops| - 1], ops[|ops| - 1], stages[|ops|])
  {
    forall k | 0 <= k < |ops| - 1
      ensures Means(script, stages[..|ops|][k], ops[..|ops| - 1][k], stages[..|ops|][k + 1])
    {
      assert Means(script, stages[k], ops[k], stages[k + 1]);
    }
  }

  lemma {:induction false} RunHasStages(script: Script, items: seq<Item>, ops: seq<PublicOp>)
    returns (stages: seq<seq<Item>>)
    requires DirectRun(script, items, ops).Ok?
    ensures Stages(script, items, ops, stages) && stages[|ops|] == DirectRun(script, items, ops).value
    decreases |ops|
  {
    if ops == [] {
      stages := [items];
    } else {
      var before := RunHasStages(script, items, ops[..|ops| - 1]);
      var r := DirectRun(script, items, ops).value;
      DirectMeans(script, before[|ops| - 1], ops[|ops| - 1], r);
      OneMoreStage(script, items, ops, before, r);
      stages := before + [r];
    }
  }

  lemma {:induction false} StagesAreRun(
    script: Script, items: seq<Item>, ops: seq<PublicOp>, stages: seq<seq<Item>>)
    requires Stages(script, items, ops, stages)
    ensures DirectRun(script, items, ops) == Ok(stages[|ops|])
    decreases |ops|
  {
    if ops != [] {
      OneLessStage(script, items, ops, stages);
      StagesAreRun(script, items, ops[..|ops| - 1], stages[..|ops|]);
      DirectMeans(script, stages[|ops| - 1], ops[|ops| - 1], stages[|ops|]);
    }
  }

  /** A batch goes through exactly when its operations can be meant in turn, and yields the last script. */
  lemma {:induction false} DirectRunMeans(script: Script, items: seq<Item>, ops: seq<PublicOp>, r: seq<Item>)
    ensures DirectRun(script, items, ops) == Ok(r)
       <==> exists stages :: Stages(script, items, ops, stages) && stages[|ops|] == r
  {
    if DirectRun(script, items, ops) == Ok(r) {
      var stages := RunHasStages(script, items, ops);
    }
    if stages :| Stages(script, items, ops, stages) && stages[|ops|] == r {
      StagesAreRun(script, items, ops, stages);
    }
  }

  /** The operation can mean nothing on this script. */
  ghost predicate Meaningless(script: Script, items: seq<Item>, op: PublicOp) {
    forall r :: !Means(script, items, op, r)
  }

  lemma RefusedIsMeaningless(script: Script, items: seq<Item>, op: PublicOp)
    ensures Direct(script, items, op).Err? <==> Meaningless(script, items, op)
  {
    forall r ensures Direct(script, items, op) == Ok(r) <==> Means(script, items, op, r) {
      DirectMeans(script, items, op, r);
    }
    if Direct(script, items, op).Ok? {
      assert Means(script, items, op, Direct(script, items, op).value);
    }
  }

  /** A refusal names the first operation that can mean nothing. */
  lemma {:induction false} RefusedAtFirst(script: Script, items: seq<Item>, ops: seq<PublicOp>)
    requires DirectRun(script, items, ops).Err?
    ensures var k := DirectRun(script, items, ops).error.index;
            && k < |ops| && DirectRun(script, items, ops[..k]).Ok?
            && Meaningless(script, DirectRun(script, items, ops[..k]).value, ops[k])
    decreases |ops|
  {
    var n := |ops| - 1;
    if DirectRun(script, items, ops[..n]).Err? {
      RefusedAtFirst(script, items, ops[..n]);
      var k := DirectRun(script, items, ops[..n]).error.index;
      assert ops[..n][..k] == ops[..k] && ops[..n][k] == ops[k];
    } else {
      RefusedIsMeaningless(script, DirectRun(script, items, ops[..n]).value, ops[n]);
    }
  }

  /** Why an edit is refused. */
  ghost predicate Reason(items: seq<Item>, op: PublicOp, e: EditError) {
    match e
    case UnknownItem(id) =>
      && id !in Ids(items)
      && match op {
           case Insert(after, _) => after == Some(id)
           case Move(moved, after) => moved == id || after == Some(id)
           case Update(x, _) => x == id
           case Remove(x) => x == id
           case Split(x, _) => x == id
         }
    case OwnAnchor(id) => op.Move? && op.id == id && op.after == Some(id)
    case TooFewParts => op.Split? && |op.parts| < 2
    case BadField(path) => op.Update? && exists k :: 0 <= k < |op.edits| && op.edits[k].path == path
    case _ => false
  }

  lemma NotAmong(items: seq<Item>, id: string)
    ensures Find(items, id) == |items| <==> id !in Ids(items)
  {
    if id in Ids(items) {
      var i :| 0 <= i < |items| && items[i].id == id;
    }
  }

  lemma {:induction false} UpdateReason(items: seq<Item>, id: string, edits: seq<FieldEdit>)
    requires PatchFields(items, id, edits).Err?
    ensures Reason(items, Update(id, edits), PatchFields(items, id, edits).error)
    decreases |edits|
  {
    var n := |edits| - 1;
    NotAmong(items, id);
    if Find(items, id) == |items| {
      UnknownIsRefused(items, id, edits);
    } else if PatchFields(items, id, edits[..n]).Err? {
      UpdateReason(items, id, edits[..n]);
    } else {
      PatchedMeans(items, id, edits[..n]);
      assert edits[n].path == PatchFields(items, id, edits).error.path;
    }
  }

  /** Every refusal has its reason in the script and the operation. */
  lemma RefusedForReason(script: Script, items: seq<Item>, op: PublicOp)
    requires Direct(script, items, op).Err?
    ensures Reason(items, op, Direct(script, items, op).error)
  {
    match op
    case Update(id, edits) => UpdateReason(items, id, edits);
    case Insert(after, _) => NotAmong(items, after.value);
    case Move(id, after) =>
      NotAmong(items, id);
      if after.Some? && after != Some(id) && Find(items, id) < |items| {
        NotAmong(RemoveAt(items, Find(items, id)), after.value);
        StillAmong(items, Find(items, id), after.value);
      }
    case Remove(id) => NotAmong(items, id);
    case Split(id, _) => NotAmong(items, id);
  }

  lemma StillAmong(items: seq<Item>, i: nat, id: string)
    requires i < |items| && items[i].id != id
    ensures id in Ids(items) ==> id in Ids(RemoveAt(items, i))
  {
    if id in Ids(items) {
      var j :| 0 <= j < |items| && items[j].id == id;
      assert RemoveAt(items, i)[if j < i then j else j - 1].id == id;
    }
  }
}
