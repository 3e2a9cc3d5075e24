/**
 The verbatim-coverage check of narration segments: do the segments, in order and unchanged, make up
 the whole source, with at most one space between two of them?

 `CoversSourceVerbatim` is the greedy cursor scan. `Covers` is what it is meant to decide: some choice
 of zero or one space at every joint makes the joined parts equal the source.
 */
module Coverage {
  import opened Text

  // ---- whitespace normal form --------------------------------------------------------------

  predicate EndsInSpace(s: string) { s != [] && IsSpace(s[|s| - 1]) }

  predicate StartsWithSpace(s: string) { s != [] && IsSpace(s[0]) }

  /** `re.sub(r"\s+", " ", s)`: every maximal run of whitespace becomes one space. */
  function Collapse(s: string): string {
    if s == [] then []
    else
      var init, c := s[..|s| - 1], s[|s| - 1];
      if !IsSpace(c) then Collapse(init) + [c]
      else if EndsInSpace(init) then Collapse(init)
      else Collapse(init) + " "
  }

  /** The normal form both sides are compared in. */
  function Normalize(s: string): string { Strip(Collapse(s)) }

  /** The same normal form read left to right, a run of whitespace held back until a character follows. */
  function Scan(s: string): string {
    if s == [] then []
    else
      var init, c := s[..|s| - 1], s[|s| - 1];
      if IsSpace(c) then Scan(init)
      else if EndsInSpace(init) && Scan(init) != [] then Scan(init) + " " + [c]
      else Scan(init) + [c]
  }

  lemma {:induction false} ScanStripped(s: string)
    ensures Stripped(Scan(s))
  {
    if s != [] {
      ScanStripped(s[..|s| - 1]);
    }
  }

  lemma ScanSnoc(s: string, c: char)
    ensures IsSpace(c) ==> Scan(s + [c]) == Scan(s)
    ensures !IsSpace(c) && EndsInSpace(s) && Scan(s) != [] ==> Scan(s + [c]) == Scan(s) + [' ', c]
    ensures !IsSpace(c) && !(EndsInSpace(s) && Scan(s) != []) ==> Scan(s + [c]) == Scan(s) + [c]
  {
    var t := s + [c];
    assert t[..|t| - 1] == s && t[|t| - 1] == c;
  }

  /** Collapsing keeps, of the whitespace at either end, one space. */
  predicate Framed(s: string) {
    if Scan(s) == [] then Collapse(s) == Gap(s != []) && AllSpace(s)
    else Collapse(s) == Gap(StartsWithSpace(s)) + Scan(s) + Gap(EndsInSpace(s))
  }

  lemma CollapseSnoc(s: string, c: char)
    ensures Collapse(s + [c]) ==
              if !IsSpace(c) then Collapse(s) + [c] else if EndsInSpace(s) then Collapse(s) else Collapse(s) + " "
  {
    var t := s + [c];
    assert t[..|t| - 1] == s && t[|t| - 1] == c;
  }

  lemma FramedSpace(init: string, c: char)
    requires Framed(init) && IsSpace(c)
    ensures Framed(init + [c])
  {
    CollapseSnoc(init, c);
    ScanSnoc(init, c);
    assert init != [] ==> (init + [c])[0] == init[0];
  }

  lemma FramedFirst(init: string, c: char)
    requires Framed(init) && !IsSpace(c) && Scan(init) == []
    ensures Framed(init + [c])
  {
    CollapseSnoc(init, c);
    ScanSnoc(init, c);
    assert init != [] ==> (init + [c])[0] == init[0];
  }

  lemma Enclosed(before: string, core: string, gap: string, next: string)
    ensures (before + core + gap) + next == before + (core + gap + next) + []
  {}

  lemma ScanNext(init: string, c: char)
    requires !IsSpace(c) && Scan(init) != []
    ensures Scan(init + [c]) == Scan(init) + Gap(EndsInSpace(init)) + [c]
  {
    ScanSnoc(init, c);
  }

  lemma FramedNext(init: string, c: char)
    requires Framed(init) && !IsSpace(c) && Scan(init) != []
    ensures Framed(init + [c])
  {
    var s := init + [c];
    CollapseSnoc(init, c);
    ScanNext(init, c);
    assert StartsWithSpace(s) == StartsWithSpace(init) && !EndsInSpace(s);
    Enclosed(Gap(StartsWithSpace(init)), Scan(init), Gap(EndsInSpace(init)), [c]);
  }

  lemma {:induction false} CollapseAroundScan(s: string)
    ensures Framed(s)
  {
    if s != [] {
      var init, c := s[..|s| - 1], s[|s| - 1];
      CollapseAroundScan(init);
      assert s == init + [c];
      if IsSpace(c) {
        FramedSpace(init, c);
      } else if Scan(init) == [] {
        FramedFirst(init, c);
      } else {
        FramedNext(init, c);
      }
    }
  }

  lemma StripPadded(before: string, core: string, after: string)
    requires AllSpace(before) && AllSpace(after) && Stripped(core) && core != []
    ensures Strip(before + core + after) == core
  {
    var s := before + core + after;
    assert s[|before|] == core[0];
    assert Leading(s) == |before|;
    var left := s[|before|..];
    assert left == core + after;
    assert left[|core| - 1] == core[|core| - 1];
    assert Trailing(left) == |after|;
  }

  lemma StripBlank(s: string)
    requires AllSpace(s)
    ensures Strip(s) == []
  {
    assert Leading(s) == |s|;
  }

  /** Collapsing then stripping is the left-to-right scan. */
  lemma NormalizeIsScan(s: string)
    ensures Normalize(s) == Scan(s)
  {
    CollapseAroundScan(s);
    if Scan(s) == [] {
      StripBlank(Collapse(s));
    } else {
      ScanStripped(s);
      StripPadded(Gap(StartsWithSpace(s)), Scan(s), Gap(EndsInSpace(s)));
    }
  }

  function Gap(due: bool): string { if due then [' '] else [] }

  /** Is a separating space due where two pieces of text meet? */
  predicate SpaceBetween(x: string, y: string) {
    Scan(x) != [] && Scan(y) != [] && (EndsInSpace(x) || StartsWithSpace(y))
  }

  function WithGap(gap: bool, text: string): string { if gap then [' '] + text else text }

  /** What the scan of two pieces in a row amounts to. */
  predicate ScansTo(x: string, y: string, both: string) {
    both == Scan(x) + WithGap(SpaceBetween(x, y), Scan(y))
  }

  lemma ScanSingle(c: char)
    ensures Scan([c]) == if IsSpace(c) then [] else [c]
  {
    assert [c][..0] == [];
  }

  lemma ScanOfSingle(x: string, c: char)
    ensures ScansTo(x, [c], Scan(x + [c]))
  {
    ScanSnoc(x, c);
    ScanSingle(c);
    if IsSpace(c) {
      assert Scan(x) + [] == Scan(x);
    }
  }

  lemma ScanOfBlankTail(x: string, init: string, c: char)
    requires init != [] && IsSpace(c) && ScansTo(x, init, Scan(x + init))
    ensures ScansTo(x, init + [c], Scan((x + init) + [c]))
  {
    ScanSnoc(x + init, c);
    ScanSnoc(init, c);
    assert (init + [c])[0] == init[0];
  }

  lemma Regroup(a: string, b: string, c: string)
    ensures (a + b) + c == a + (b + c)
  {}

  lemma Prefixed(p: string, c: string, gap: bool, tail: string)
    ensures (p + WithGap(gap, c)) + tail == p + WithGap(gap, c + tail)
  {
    Regroup(p, WithGap(gap, c), tail);
    Regroup([' '], c, tail);
  }

  /** What a further character adds to the scan. */
  function Added(s: string, c: char): string {
    if EndsInSpace(s) && Scan(s) != [] then [' ', c] else [c]
  }

  lemma ScanOfVisibleTail(x: string, init: string, c: char)
    requires init != [] && !IsSpace(c) && Scan(init) != [] && ScansTo(x, init, Scan(x + init))
    ensures ScansTo(x, init + [c], Scan((x + init) + [c]))
  {
    var y := init + [c];
    ScanSnoc(x + init, c);
    ScanSnoc(init, c);
    assert EndsInSpace(x + init) == EndsInSpace(init);
    assert StartsWithSpace(y) == StartsWithSpace(init);
    var more := Added(init, c);
    assert Scan(y) == Scan(init) + more && Scan((x + init) + [c]) == Scan(x + init) + more;
    Prefixed(Scan(x), Scan(init), SpaceBetween(x, init), more);
  }

  lemma ScanOfFirstVisible(x: string, init: string, c: char)
    requires init != [] && !IsSpace(c) && Scan(init) == [] && Scan(x + init) == Scan(x)
    ensures ScansTo(x, init + [c], Scan((x + init) + [c]))
  {
    ScanSnoc(x + init, c);
    ScanSnoc(init, c);
    CollapseAroundScan(init);
    assert EndsInSpace(x + init) && StartsWithSpace(init + [c]);
    assert Scan(init + [c]) == [c];
  }

  lemma {:induction false} ScanOfConcat(x: string, y: string)
    ensures ScansTo(x, y, Scan(x + y))
  {
    if y == [] {
      assert x + y == x;
    } else {
      var init, c := y[..|y| - 1], y[|y| - 1];
      assert y == init + [c] && x + y == (x + init) + [c];
      if init == [] {
        assert x + init == x;
        ScanOfSingle(x, c);
      } else {
        ScanOfConcat(x, init);
        if IsSpace(c) {
          ScanOfBlankTail(x, init, c);
        } else if Scan(init) == [] {
          assert Scan(x + init) == Scan(x);
          ScanOfFirstVisible(x, init, c);
        } else {
          ScanOfVisibleTail(x, init, c);
        }
      }
    }
  }

  /** A gap and a character after a settled scan. */
  lemma SettledGap(t: string, c: char)
    requires Scan(t) == t && t != [] && !IsSpace(c)
    ensures Scan(t + [' ', c]) == t + [' ', c]
  {
    ScanSnoc(t, ' ');
    ScanSnoc(t + [' '], c);
    assert (t + [' ']) + [c] == t + [' ', c];
  }

  /** A character right after a settled scan. */
  lemma SettledNext(t: string, c: char)
    requires Scan(t) == t && Stripped(t) && !IsSpace(c)
    ensures Scan(t + [c]) == t + [c]
  {
    ScanSnoc(t, c);
  }

  lemma {:induction false} ScanIdempotent(s: string)
    ensures Scan(Scan(s)) == Scan(s)
  {
    if s != [] {
      var init, c := s[..|s| - 1], s[|s| - 1];
      ScanIdempotent(init);
      ScanStripped(init);
      ScanSnoc(init, c);
      assert s == init + [c];
      if !IsSpace(c) && EndsInSpace(init) && Scan(init) != [] {
        SettledGap(Scan(init), c);
      } else if !IsSpace(c) {
        SettledNext(Scan(init), c);
      }
    }
  }

  // ---- the declarative specification -------------------------------------------------------

  /** `parts`, each preceded by the space its gap asks for. */
  function Spaced(parts: seq<string>, gaps: seq<bool>): string
    requires |gaps| == |parts|
  {
    if parts == [] then []
    else
      WithGap(gaps[0], parts[0] + Spaced(parts[1..], gaps[1..]))
  }

  /** The parts joined, with a gap chosen at each of the joints. */
  function Joined(parts: seq<string>, gaps: seq<bool>): string
    requires |gaps| == |parts| && (gaps != [] ==> !gaps[0])
  {
    Spaced(parts, gaps)
  }

  /** Some choice of zero or one space at every joint turns the parts into the source. */
  ghost predicate Covers(parts: seq<string>, source: string) {
    exists gaps: seq<bool> ::
      |gaps| == |parts| && (gaps != [] ==> !gaps[0]) && Joined(parts, gaps) == source
  }

  /** No part after the first begins with a space, as holds of stripped segments. */
  predicate NoLeadingSpace(parts: seq<string>) {
    forall i :: 0 < i < |parts| ==> parts[i] == [] || parts[i][0] != ' '
  }

  predicate NoneLeads(parts: seq<string>) {
    forall i :: 0 <= i < |parts| ==> parts[i] == [] || parts[i][0] != ' '
  }

  // ---- the greedy scan ---------------------------------------------------------------------

  /** What is left of the scan once the first part is matched. */
  predicate GreedyRest(parts: seq<string>, rest: string) {
    if parts == [] then rest == []
    else
      var here := if rest != [] && rest[0] == ' ' then rest[1..] else rest;
      parts[0] <= here && GreedyRest(parts[1..], here[|parts[0]|..])
  }

  lemma {:induction false} GreedySound(parts: seq<string>, rest: string) returns (gaps: seq<bool>)
    requires GreedyRest(parts, rest)
    ensures |gaps| == |parts| && Spaced(parts, gaps) == rest
  {
    if parts == [] {
      gaps := [];
    } else {
      var gap := rest != [] && rest[0] == ' ';
      var here := if gap then rest[1..] else rest;
      var more := GreedySound(parts[1..], here[|parts[0]|..]);
      gaps := [gap] + more;
      assert gaps[1..] == more;
      assert here == parts[0] + here[|parts[0]|..];
    }
  }

  /** A space at the front of what remains can always be spent on the first joint. */
  lemma {:induction false} SpendNow(parts: seq<string>, gaps: seq<bool>, t: string) returns (now: seq<bool>)
    requires |gaps| == |parts| && NoneLeads(parts) && Spaced(parts, gaps) == [' '] + t
    ensures |now| == |parts| && Spaced(parts, now) == t
  {
    var spaced := Spaced(parts, gaps);
    assert spaced[0] == ' ' && spaced[1..] == t;
    if gaps[0] {
      now := [false] + gaps[1..];
      assert now[1..] == gaps[1..];
    } else {
      assert parts[0] == [] && spaced == Spaced(parts[1..], gaps[1..]);
      var more := SpendNow(parts[1..], gaps[1..], t);
      now := [false] + more;
      assert now[1..] == more;
    }
  }

  lemma {:induction false} GreedyComplete(parts: seq<string>, gaps: seq<bool>)
    requires |gaps| == |parts| && NoneLeads(parts)
    ensures GreedyRest(parts, Spaced(parts, gaps))
  {
    if parts != [] {
      var rest := Spaced(parts, gaps);
      var tail := Spaced(parts[1..], gaps[1..]);
      if !gaps[0] && rest != [] && rest[0] == ' ' {
        assert parts[0] == [] && rest == tail;
        var now := SpendNow(parts[1..], gaps[1..], tail[1..]);
        GreedyComplete(parts[1..], now);
        GreedyStep(parts, rest, [], tail[1..]);
      } else {
        GreedyComplete(parts[1..], gaps[1..]);
        GreedyStep(parts, rest, parts[0], tail);
      }
    }
  }

  lemma GreedyStep(parts: seq<string>, rest: string, part: string, tail: string)
    requires parts != [] && parts[0] == part && GreedyRest(parts[1..], tail)
    requires rest == [' '] + (part + tail) || (rest == part + tail && (rest == [] || rest[0] != ' '))
    ensures GreedyRest(parts, rest)
  {
    var here := if rest != [] && rest[0] == ' ' then rest[1..] else rest;
    assert here == part + tail;
    assert here[|part|..] == tail;
  }

  /** The scan over all parts, the first of which has no joint before it. */
  predicate Greedy(parts: seq<string>, source: string) {
    if parts == [] then source == []
    else parts[0] <= source && GreedyRest(parts[1..], source[|parts[0]|..])
  }

  lemma GreedyCovers(parts: seq<string>, source: string)
    requires Greedy(parts, source)
    ensures Covers(parts, source)
  {
    if parts == [] {
      assert Joined(parts, []) == source;
    } else {
      var more := GreedySound(parts[1..], source[|parts[0]|..]);
      var gaps := [false] + more;
      assert gaps[1..] == more;
      assert Joined(parts, gaps) == source;
    }
  }

  lemma GreedyIsCovers(parts: seq<string>, source: string)
    requires NoLeadingSpace(parts)
    ensures Greedy(parts, source) <==> Covers(parts, source)
  {
    if Greedy(parts, source) {
      GreedyCovers(parts, source);
    } else if Covers(parts, source) && parts != [] {
      var gaps: seq<bool> :| |gaps| == |parts| && (gaps != [] ==> !gaps[0]) && Joined(parts, gaps) == source;
      assert source[|parts[0]|..] == Spaced(parts[1..], gaps[1..]);
      GreedyComplete(parts[1..], gaps[1..]);
    }
  }

  /**
   The cursor scan decides the declarative question for every source and every list of parts none of
   which, after the first, begins with a space: one pass, no backtracking. Whatever it accepts is
   covered even without that condition.
   */
  method CoversSourceVerbatim(parts: seq<string>, source: string) returns (ok: bool)
    ensures ok ==> Covers(parts, source)
    ensures NoLeadingSpace(parts) ==> (ok <==> Covers(parts, source))
  {
    var cursor := 0;
    ghost var verdict := Greedy(parts, source);
    StartsWhole(source);
    for index := 0 to |parts|
      invariant 0 <= cursor <= |source|
      invariant verdict <==> Remaining(parts, index, source, cursor)
    {
      var part := parts[index];
      RemainingStep(parts, index, source, cursor);
      if index > 0 && cursor < |source| && source[cursor] == ' ' {
        cursor := cursor + 1;
      }
      if !(part <= source[cursor..]) {
        ScanVerdict(parts, source);
        return false;
      }
      cursor := cursor + |part|;
    }
    ok := cursor == |source|;
    RemainingNone(parts, source, cursor);
    ScanVerdict(parts, source);
  }

  lemma StartsWhole(source: string)
    ensures source[0..] == source
  {}

  lemma RemainingNone(parts: seq<string>, source: string, cursor: nat)
    requires cursor <= |source|
    ensures Remaining(parts, |parts|, source, cursor) <==> cursor == |source|
  {
    assert parts[|parts|..] == [];
    assert source[cursor..] == [] <==> cursor == |source|;
  }

  /** What the scan still has to find when it stands at `cursor` before part `index`. */
  predicate Remaining(parts: seq<string>, index: nat, source: string, cursor: nat)
    requires index <= |parts| && cursor <= |source|
  {
    if index == 0 then Greedy(parts, source[cursor..]) else GreedyRest(parts[index..], source[cursor..])
  }

  /** Where the cursor stands once an optional space at the joint is skipped. */
  function Joint(index: nat, source: string, cursor: nat): (c: nat)
    requires cursor <= |source|
    ensures c <= |source|
  {
    if index > 0 && cursor < |source| && source[cursor] == ' ' then cursor + 1 else cursor
  }

  lemma RemainingStep(parts: seq<string>, index: nat, source: string, cursor: nat)
    requires index < |parts| && cursor <= |source|
    ensures var at := Joint(index, source, cursor);
            Remaining(parts, index, source, cursor) <==>
              parts[index] <= source[at..] && Remaining(parts, index + 1, source, at + |parts[index]|)
  {
    var at, part, rest := Joint(index, source, cursor), parts[index], source[cursor..];
    assert parts[index..][0] == part && parts[index..][1..] == parts[index + 1..];
    assert source[at..] == if index > 0 && rest != [] && rest[0] == ' ' then rest[1..] else rest;
    if part <= source[at..] {
      assert source[at..][|part|..] == source[at + |part|..];
    }
  }

  lemma ScanVerdict(parts: seq<string>, source: string)
    ensures Greedy(parts, source) ==> Covers(parts, source)
    ensures NoLeadingSpace(parts) ==> (Greedy(parts, source) <==> Covers(parts, source))
  {
    if NoLeadingSpace(parts) {
      GreedyIsCovers(parts, source);
    } else if Greedy(parts, source) {
      GreedyCovers(parts, source);
    }
  }

  // ---- when the scan decides ---------------------------------------------------------------

  function Concat(chunks: seq<string>): string {
    if chunks == [] then [] else chunks[0] + Concat(chunks[1..])
  }

  lemma {:induction false} ConcatIsSpaced(parts: seq<string>) returns (gaps: seq<bool>)
    ensures |gaps| == |parts| && (gaps != [] ==> !gaps[0]) && Spaced(parts, gaps) == Concat(parts)
  {
    if parts == [] {
      gaps := [];
    } else {
      var more := ConcatIsSpaced(parts[1..]);
      gaps := [false] + more;
      assert gaps[1..] == more;
    }
  }

  lemma {:induction false} GreedyNeedsTheParts(parts: seq<string>, rest: string)
    requires GreedyRest(parts, rest)
    ensures |Concat(parts)| <= |rest|
  {
    if parts != [] {
      var here := if rest != [] && rest[0] == ' ' then rest[1..] else rest;
      GreedyNeedsTheParts(parts[1..], here[|parts[0]|..]);
    }
  }

  /** Of parts put together without any space, the scan takes the first leading one for a gap, and falls short. */
  lemma {:induction false} LeadingSpaceIsSpent(parts: seq<string>)
    requires !NoneLeads(parts)
    ensures !GreedyRest(parts, Concat(parts))
  {
    var part, more, rest := parts[0], parts[1..], Concat(parts);
    if rest != [] && rest[0] == ' ' {
      if part <= rest[1..] && GreedyRest(more, rest[1..][|part|..]) {
        GreedyNeedsTheParts(more, rest[1..][|part|..]);
      }
    } else {
      assert part != [] ==> rest[0] == part[0];
      assert !NoneLeads(more) by {
        var i :| 0 <= i < |parts| && parts[i] != [] && parts[i][0] == ' ';
        assert more[i - 1] == parts[i];
      }
      LeadingSpaceIsSpent(more);
      assert rest[|part|..] == Concat(more);
    }
  }

  /** Whenever a later part begins with a space, the scan refuses a source that is covered. */
  lemma LeadingSpaceDefeatsGreedy(parts: seq<string>)
    requires !NoLeadingSpace(parts)
    ensures Covers(parts, Concat(parts)) && !Greedy(parts, Concat(parts))
  {
    var gaps := ConcatIsSpaced(parts);
    assert Joined(parts, gaps) == Concat(parts);
    var i :| 0 < i < |parts| && parts[i] != [] && parts[i][0] == ' ';
    assert parts[1..][i - 1] == parts[i];
    LeadingSpaceIsSpent(parts[1..]);
    assert Concat(parts)[|parts[0]|..] == Concat(parts[1..]);
  }

  /** The scan decides the declarative question for every source exactly if no later part begins with a space. */
  lemma GreedyDecidesExactlyWhen(parts: seq<string>)
    ensures (forall source :: Greedy(parts, source) <==> Covers(parts, source)) <==> NoLeadingSpace(parts)
  {
    if NoLeadingSpace(parts) {
      forall source ensures Greedy(parts, source) <==> Covers(parts, source) {
        GreedyIsCovers(parts, source);
      }
    } else {
      LeadingSpaceDefeatsGreedy(parts);
    }
  }

  // ---- honest segmentations ----------------------------------------------------------------

  function Normalized(chunks: seq<string>): (parts: seq<string>)
    ensures |parts| == |chunks|
  {
    if chunks == [] then [] else [Normalize(chunks[0])] + Normalized(chunks[1..])
  }

  function Scanned(chunks: seq<string>): (parts: seq<string>)
    ensures |parts| == |chunks|
  {
    if chunks == [] then [] else [Scan(chunks[0])] + Scanned(chunks[1..])
  }

  lemma {:induction false} NormalizedIsScanned(chunks: seq<string>)
    ensures Normalized(chunks) == Scanned(chunks)
  {
    if chunks != [] {
      NormalizeIsScan(chunks[0]);
      NormalizedIsScanned(chunks[1..]);
    }
  }

  lemma SpacedCons(part: string, parts: seq<string>, gap: bool, gaps: seq<bool>)
    requires |gaps| == |parts|
    ensures Spaced([part] + parts, [gap] + gaps)
         == WithGap(gap, part + Spaced(parts, gaps))
  {
    assert ([part] + parts)[1..] == parts && ([gap] + gaps)[1..] == gaps;
  }

  lemma SpacedAfterCons(prefix: string, c: string, rest: seq<string>, more: seq<bool>)
    requires |more| == |rest|
    requires Scan((prefix + c) + Concat(rest)) == Scan(prefix + c) + Spaced(Scanned(rest), more)
    ensures Scan(prefix + (c + Concat(rest)))
         == Scan(prefix) + Spaced([Scan(c)] + Scanned(rest), [SpaceBetween(prefix, c)] + more)
  {
    var gap, tail := SpaceBetween(prefix, c), Spaced(Scanned(rest), more);
    ScanOfConcat(prefix, c);
    Regroup(prefix, c, Concat(rest));
    SpacedCons(Scan(c), Scanned(rest), gap, more);
    Prefixed(Scan(prefix), Scan(c), gap, tail);
  }

  lemma {:induction false} SpacedAfter(prefix: string, chunks: seq<string>) returns (gaps: seq<bool>)
    ensures |gaps| == |chunks|
    ensures Scan(prefix + Concat(chunks)) == Scan(prefix) + Spaced(Scanned(chunks), gaps)
    decreases |chunks|
  {
    if chunks == [] {
      gaps := [];
      assert prefix + Concat(chunks) == prefix;
    } else {
      var more := SpacedAfter(prefix + chunks[0], chunks[1..]);
      gaps := [SpaceBetween(prefix, chunks[0])] + more;
      SpacedAfterCons(prefix, chunks[0], chunks[1..], more);
    }
  }

  lemma {:induction false} ScannedParts(chunks: seq<string>)
    ensures NoneLeads(Scanned(chunks))
  {
    if chunks != [] {
      ScannedParts(chunks[1..]);
      ScanStripped(chunks[0]);
    }
  }

  lemma ScannedPasses(chunks: seq<string>)
    ensures Greedy(Scanned(chunks), Scan(Concat(chunks)))
  {
    if chunks != [] {
      var more := SpacedAfter(chunks[0], chunks[1..]);
      var parts := Scanned(chunks[1..]);
      ScannedParts(chunks[1..]);
      GreedyComplete(parts, more);
      GreedyCons(Scan(chunks[0]), parts, Spaced(parts, more));
    }
  }

  lemma GreedyCons(part: string, parts: seq<string>, rest: string)
    requires GreedyRest(parts, rest)
    ensures Greedy([part] + parts, part + rest)
  {
    assert ([part] + parts)[1..] == parts && (part + rest)[|part|..] == rest;
  }

  /**
   Every honest segmentation passes: cut a text anywhere into any number of consecutive chunks and
   normalise each; the scan accepts the chunks against the normalised text.
   */
  lemma {:induction false} HonestSegmentationPasses(chunks: seq<string>)
    ensures Greedy(Normalized(chunks), Normalize(Concat(chunks)))
  {
    NormalizeIsScan(Concat(chunks));
    NormalizedIsScanned(chunks);
    ScannedPasses(chunks);
  }

  lemma SpaceInFront(segment: string, gap: bool)
    ensures Scan(WithGap(gap, Scan(segment))) == Scan(segment)
  {
    ScanIdempotent(segment);
    ScanOfConcat([' '], Scan(segment));
    assert Scan([' ']) == [];
  }

  /** A choice of gaps is a segmentation: let every chunk carry the space before its segment. */
  lemma {:induction false} GapsAreChunks(segments: seq<string>, gaps: seq<bool>) returns (chunks: seq<string>)
    requires |gaps| == |segments|
    ensures Concat(chunks) == Spaced(Scanned(segments), gaps) && Scanned(chunks) == Scanned(segments)
  {
    if segments == [] {
      chunks := [];
    } else {
      var more := GapsAreChunks(segments[1..], gaps[1..]);
      var chunk := WithGap(gaps[0], Scan(segments[0]));
      chunks := [chunk] + more;
      SpaceInFront(segments[0], gaps[0]);
      ChunksCons(chunk, more);
      GapRegroup(gaps[0], Scan(segments[0]), Concat(more));
      assert Scanned(segments)[1..] == Scanned(segments[1..]);
    }
  }

  lemma ChunksCons(chunk: string, more: seq<string>)
    ensures Concat([chunk] + more) == chunk + Concat(more)
    ensures Scanned([chunk] + more) == [Scan(chunk)] + Scanned(more)
  {
    assert ([chunk] + more)[1..] == more;
  }

  lemma GapRegroup(gap: bool, part: string, tail: string)
    ensures WithGap(gap, part) + tail == WithGap(gap, part + tail)
  {
    Regroup([' '], part, tail);
  }

  /**
   The check accepts exactly the honest segmentations: given the segments and the source text, it says
   yes if and only if the normalised source can be cut into consecutive chunks that have the same
   normal forms as the segments.
   */
  lemma {:induction false} AcceptsExactlyTheHonest(segments: seq<string>, text: string)
    ensures Greedy(Normalized(segments), Normalize(text))
       <==> exists chunks :: Concat(chunks) == Normalize(text) && Normalized(chunks) == Normalized(segments)
  {
    NormalizeIsScan(text);
    NormalizedIsScanned(segments);
    if Greedy(Scanned(segments), Scan(text)) {
      GreedyCovers(Scanned(segments), Scan(text));
      var gaps: seq<bool> :|
        |gaps| == |segments| && (gaps != [] ==> !gaps[0]) && Joined(Scanned(segments), gaps) == Scan(text);
      var chunks := GapsAreChunks(segments, gaps);
      NormalizedIsScanned(chunks);
      assert Concat(chunks) == Normalize(text) && Normalized(chunks) == Normalized(segments);
    }
    if chunks :| Concat(chunks) == Normalize(text) && Normalized(chunks) == Normalized(segments) {
      ScanIdempotent(text);
      NormalizedIsScanned(chunks);
      ScannedPasses(chunks);
    }
  }

  /**
   The whole check as the violation collector runs it on the segments' text and the source text: it
   passes exactly the honest segmentations.
   */
  method NovelTextCovered(segments: seq<string>, text: string) returns (ok: bool)
    ensures ok <==> exists chunks :: Concat(chunks) == Normalize(text) && Normalized(chunks) == Normalized(segments)
  {
    var parts := Normalized(segments);
    ok := CoversSourceVerbatim(parts, Normalize(text));
    NormalizedIsScanned(segments);
    ScannedParts(segments);
    GreedyIsCovers(parts, Normalize(text));
    AcceptsExactlyTheHonest(segments, text);
  }

  /** The normal form is reached in one step, so the condition above is met by what the check is given. */
  lemma NormalizeIdempotent(s: string)
    ensures Normalize(Normalize(s)) == Normalize(s)
  {
    NormalizeIsScan(s);
    NormalizeIsScan(Scan(s));
    ScanIdempotent(s);
  }
}
