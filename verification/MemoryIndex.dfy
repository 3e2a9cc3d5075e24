/**
 The loading limits of the memory index: how long a text is, whether it is over the limit, and which
 part of it is loaded. The wording of the notice appended to a cut text is not part of this model, so a
 cut is reported as the kept text together with the figures the notice quotes.
 */
module MemoryIndex {
  import opened Text
  import opened Utf8

  const MAX_LINES: nat := 200
  const MAX_BYTES: nat := 25000

  datatype Stats = Stats(lineCount: nat, byteSize: nat) {
    predicate OverLimit() { lineCount > MAX_LINES || byteSize > MAX_BYTES }
  }

  datatype Loaded =
    | Whole(text: string)
    | Cut(kept: string, stats: Stats)

  // ---- lines -------------------------------------------------------------------------------

  function CountNewlines(t: string): nat {
    if t == [] then 0 else (if t[0] == '\n' then 1 else 0) + CountNewlines(t[1..])
  }

  function LineCount(t: string): nat { CountNewlines(t) + 1 }

  /** `t.split("\n")` */
  function Split(t: string): (lines: seq<string>)
    ensures |lines| == LineCount(t)
  {
    if t == [] then [[]]
    else
      var rest := Split(t[1..]);
      if t[0] == '\n' then [[]] + rest else [[t[0]] + rest[0]] + rest[1..]
  }

  /** `"\n".join(lines)` */
  function Join(lines: seq<string>): string {
    if lines == [] then []
    else if |lines| == 1 then lines[0]
    else lines[0] + (['\n'] + Join(lines[1..]))
  }

  function FirstLines(t: string, n: nat): string {
    var lines := Split(t);
    Join(if n < |lines| then lines[..n] else lines)
  }

  lemma JoinCons(line: string, lines: seq<string>)
    requires lines != []
    ensures Join([line] + lines) == line + (['\n'] + Join(lines))
  {
    assert ([line] + lines)[1..] == lines;
  }

  lemma JoinExtendsHead(c: char, lines: seq<string>)
    requires lines != []
    ensures Join([[c] + lines[0]] + lines[1..]) == [c] + Join(lines)
  {
    if |lines| == 1 {
      assert [[c] + lines[0]] + lines[1..] == [[c] + lines[0]];
    } else {
      JoinCons([c] + lines[0], lines[1..]);
    }
  }

  /** Taking lines off the front peels characters off the front. */
  lemma FirstLinesCons(t: string, n: nat)
    requires t != [] && n > 0
    ensures t[0] != '\n' ==> FirstLines(t, n) == [t[0]] + FirstLines(t[1..], n)
    ensures t[0] == '\n' && n == 1 ==> FirstLines(t, n) == []
    ensures t[0] == '\n' && n > 1 ==> FirstLines(t, n) == ['\n'] + FirstLines(t[1..], n - 1)
  {
    var lines, rest := Split(t), Split(t[1..]);
    if t[0] == '\n' {
      var kept := if n - 1 < |rest| then rest[..n - 1] else rest;
      assert (if n < |lines| then lines[..n] else lines) == [[]] + kept;
      if n > 1 {
        JoinCons([], kept);
      }
    } else {
      var kept := if n < |rest| then rest[..n] else rest;
      assert (if n < |lines| then lines[..n] else lines) == [[t[0]] + kept[0]] + kept[1..];
      JoinExtendsHead(t[0], kept);
    }
  }

  lemma CountNewlinesCons(c: char, t: string)
    ensures CountNewlines([c] + t) == (if c == '\n' then 1 else 0) + CountNewlines(t)
  {
    assert ([c] + t)[1..] == t;
  }

  /** Cutting to the first lines keeps all of a short text, and of a longer one exactly n whole lines. */
  lemma {:induction false} FirstLinesCut(t: string, n: nat)
    requires n > 0
    ensures LineCount(t) <= n ==> FirstLines(t, n) == t
    ensures LineCount(t) > n ==> FirstLines(t, n) + ['\n'] <= t && LineCount(FirstLines(t, n)) == n
  {
    if t != [] {
      FirstLinesCons(t, n);
      if t[0] != '\n' {
        FirstLinesCut(t[1..], n);
        CountNewlinesCons(t[0], FirstLines(t[1..], n));
      } else if n > 1 {
        FirstLinesCut(t[1..], n - 1);
        CountNewlinesCons('\n', FirstLines(t[1..], n - 1));
      }
    }
  }

  lemma {:induction false} CountNewlinesOfPrefix(t: string, k: nat)
    requires k <= |t|
    ensures CountNewlines(t[..k]) <= CountNewlines(t)
  {
    if k > 0 {
      assert t[..k] == [t[0]] + t[1..][..k - 1];
      CountNewlinesCons(t[0], t[1..][..k - 1]);
      CountNewlinesOfPrefix(t[1..], k - 1);
    }
  }

  // ---- the operations ----------------------------------------------------------------------

  function IndexStats(text: string): Stats {
    var trimmed := Strip(text);
    if trimmed == [] then Stats(0, 0) else Stats(LineCount(trimmed), |Encode(trimmed)|)
  }

  /** `head.rfind(b"\n")` */
  function LastNewline(b: seq<Byte>): (at: int)
    ensures -1 <= at < |b| && (at >= 0 ==> b[at] == 10)
    ensures forall i :: at < i < |b| ==> b[i] != 10
  {
    if b == [] then -1
    else if b[|b| - 1] == 10 then |b| - 1
    else LastNewline(b[..|b| - 1])
  }

  /** The octets kept when a text is too long in octets: the whole lines of the head, or the bare head. */
  function CutBytes(encoded: seq<Byte>): (kept: seq<Byte>)
    requires |encoded| > MAX_BYTES
  {
    var head := encoded[..MAX_BYTES];
    var newlineAt := LastNewline(head);
    if newlineAt > 0 then head[..newlineAt] else head
  }

  function Truncate(text: string): Loaded {
    var trimmed := Strip(text);
    if trimmed == [] then Whole([])
    else
      var stats := IndexStats(trimmed);
      if !stats.OverLimit() then Whole(trimmed)
      else
        var kept := FirstLines(trimmed, MAX_LINES);
        var encoded := Encode(kept);
        Cut(if |encoded| > MAX_BYTES then DecodeIgnore(CutBytes(encoded)) else kept, stats)
  }

  // ---- properties --------------------------------------------------------------------------

  /** `line` ends just before a newline of `t`. */
  predicate WholeLinesOf(line: string, t: string) { line + ['\n'] <= t }

  lemma StatsOfStripped(t: string)
    requires Stripped(t)
    ensures Strip(t) == t
  {
    StripIdempotent(t);
  }

  function Newlines(t: string): set<nat> { set i | 0 <= i < |t| && t[i] == '\n' }

  lemma {:induction false} NewlinesCounted(t: string)
    ensures CountNewlines(t) == |Newlines(t)|
  {
    if t != [] {
      var rest := t[1..];
      NewlinesCounted(rest);
      var shifted := set i | i in Newlines(rest) :: i + 1;
      ShiftedCount(Newlines(rest), shifted);
      if t[0] == '\n' {
        assert Newlines(t) == {0} + shifted by {
          assert forall i :: i in Newlines(t) && i > 0 ==> i - 1 in Newlines(rest);
        }
      } else {
        assert Newlines(t) == shifted by {
          assert forall i :: i in Newlines(t) ==> i > 0 && i - 1 in Newlines(rest);
        }
      }
    }
  }

  lemma {:induction false} ShiftedCount(s: set<nat>, shifted: set<nat>)
    requires shifted == set i | i in s :: i + 1
    ensures |shifted| == |s|
    decreases |s|
  {
    if s != {} {
      var x :| x in s;
      var fewer := s - {x};
      var moved := set i | i in fewer :: i + 1;
      ShiftedCount(fewer, moved);
      forall i ensures i in shifted <==> i in moved + {x + 1} {
        if i in shifted {
          var j :| j in s && i == j + 1;
          assert j == x || j in fewer;
        }
      }
      assert x + 1 !in moved;
      assert shifted == moved + {x + 1};
    }
  }

  /** At most two hundred lines and 25000 octets. */
  predicate Fits(t: string) { |Newlines(t)| + 1 <= 200 && |Encode(t)| <= 25000 }

  /** The figures are the lines and octets of the stripped text, and it is over the limit when it does not fit. */
  lemma StatsCount(text: string)
    ensures var t := Strip(text);
            && (t == [] ==> IndexStats(text) == Stats(0, 0))
            && (t != [] ==> IndexStats(text).lineCount == |Newlines(t)| + 1 && IndexStats(text).byteSize == |Encode(t)|)
            && (IndexStats(text).OverLimit() <==> !Fits(t))
  {
    NewlinesCounted(Strip(text));
  }

  /** A text comes back unchanged exactly when it fits, as the listing flags it. */
  lemma {:induction false} UnchangedIffWithinLimits(text: string)
    ensures Truncate(text).Whole? <==> Fits(Strip(text))
    ensures Truncate(text).Whole? <==> !IndexStats(text).OverLimit()
    ensures Truncate(text).Whole? ==> Truncate(text).text == Strip(text)
    ensures Truncate(text).Cut? ==> Truncate(text).stats == IndexStats(text)
  {
    var before, after := StripKeepsCore(text);
    StatsOfStripped(Strip(text));
    StatsCount(text);
  }

  /** `kept` ends at a newline and is the longest such prefix that fits together with it. */
  ghost predicate LongestLines(kept: string, t: string) {
    && WholeLinesOf(kept, t) && |Encode(kept + ['\n'])| <= MAX_BYTES
    && forall q :: WholeLinesOf(q, t) && |Encode(q + ['\n'])| <= MAX_BYTES ==> |q| <= |kept|
  }

  /** `kept` is the longest prefix that fits. */
  ghost predicate LongestPrefix(kept: string, t: string) {
    && kept <= t && |Encode(kept)| <= MAX_BYTES
    && forall q :: q <= t && |Encode(q)| <= MAX_BYTES ==> |q| <= |kept|
  }

  /** What the octet cut keeps of a text that is too long. */
  lemma {:induction false} OctetCut(t: string)
    requires |Encode(t)| > MAX_BYTES && (t != [] ==> t[0] != '\n')
    ensures var kept := DecodeIgnore(CutBytes(Encode(t)));
            && kept < t && |Encode(kept)| <= MAX_BYTES
            && (if LastNewline(Encode(t)[..MAX_BYTES]) >= 0 then LongestLines(kept, t) else LongestPrefix(kept, t))
  {
    if LastNewline(Encode(t)[..MAX_BYTES]) >= 0 {
      LineCut(t);
    } else {
      CodePointCut(t);
    }
  }

  lemma LineCut(t: string)
    requires |Encode(t)| > MAX_BYTES && t[0] != '\n' && LastNewline(Encode(t)[..MAX_BYTES]) >= 0
    ensures var kept := DecodeIgnore(CutBytes(Encode(t)));
            kept < t && |Encode(kept)| <= MAX_BYTES && LongestLines(kept, t)
  {
    var encoded := Encode(t);
    var head := encoded[..MAX_BYTES];
    var at := LastNewline(head);
    assert encoded[at] == 10;
    var k := NewlineOctet(t, at);
    assert head[..at] == encoded[..at];
    EncodePrefixCons(t, k - 1);
    EncodedShape(t[0]);
    assert at > 0;
    RoundTrip(t[..k]);
    WholeLinesAt(t, k);
    forall q | WholeLinesOf(q, t) && |Encode(q + ['\n'])| <= MAX_BYTES ensures |q| <= k {
      LaterNewline(t, k, q);
    }
  }

  lemma CodePointCut(t: string)
    requires |Encode(t)| > MAX_BYTES && LastNewline(Encode(t)[..MAX_BYTES]) < 0
    ensures var kept := DecodeIgnore(CutBytes(Encode(t)));
            kept < t && LongestPrefix(kept, t)
  {
    var k := CutThenDecode(t, MAX_BYTES);
    assert t[..|t|] == t;
    forall q | q <= t && |Encode(q)| <= MAX_BYTES ensures |q| <= k {
      if |q| > k {
        assert q == t[..k + 1] + q[k + 1..];
        EncodeConcat(t[..k + 1], q[k + 1..]);
      }
    }
  }

  lemma WholeLinesAt(t: string, k: nat)
    requires k < |t| && t[k] == '\n'
    ensures WholeLinesOf(t[..k], t) && |Encode(t[..k] + ['\n'])| == |Encode(t[..k])| + 1
  {
    assert t[..k] + ['\n'] == t[..k + 1];
    EncodeConcat(t[..k], ['\n']);
    assert Encode(['\n']) == EncodeChar('\n') + Encode(['\n'][1..]);
  }

  /** Any whole-lines prefix that fits together with its newline has that newline inside the head. */
  lemma LaterNewline(t: string, k: nat, q: string)
    requires k < |t| && |Encode(t)| > MAX_BYTES
    requires |Encode(t[..k])| == LastNewline(Encode(t)[..MAX_BYTES])
    requires WholeLinesOf(q, t) && |Encode(q + ['\n'])| <= MAX_BYTES
    ensures |q| <= k
  {
    var j := |q|;
    assert q == t[..j] && t[j] == '\n' by {
      assert (q + ['\n'])[j] == t[j];
    }
    WholeLinesAt(t, j);
    NewlineOctetOf(t, j);
    var at := |Encode(t[..j])|;
    assert Encode(t)[..MAX_BYTES][at] == 10;
    if j > k {
      EncodeGrows(t, k, j);
    }
  }

  lemma EncodeGrows(t: string, k: nat, j: nat)
    requires k < j <= |t|
    ensures |Encode(t[..k])| < |Encode(t[..j])|
  {
    assert t[..j] == t[..k] + t[k..j];
    EncodeConcat(t[..k], t[k..j]);
    EncodedShape(t[k]);
  }

  /**
   The kept text is a proper prefix of the stripped text, within both limits; the notice that follows it
   is not counted. Cut by octets, it is the longest run of whole lines that fits together with its final
   newline, or, when the head holds no newline at all, the longest run of whole code points that fits.
   Cut by lines alone, it is exactly the first two hundred lines.
   */
  lemma {:induction false} KeptWithinLimits(text: string)
    requires Truncate(text).Cut?
    ensures var t, kept := Strip(text), Truncate(text).kept;
            kept < t && LineCount(kept) <= MAX_LINES && |Encode(kept)| <= MAX_BYTES
    ensures var t, kept := Strip(text), Truncate(text).kept;
            var lines := FirstLines(t, MAX_LINES);
            if |Encode(lines)| <= MAX_BYTES then
              WholeLinesOf(kept, t) && LineCount(kept) == MAX_LINES
            else if LastNewline(Encode(lines)[..MAX_BYTES]) >= 0 then
              LongestLines(kept, lines) && lines <= t
            else
              LongestPrefix(kept, lines) && lines <= t
  {
    var t := Strip(text);
    var before, after := StripKeepsCore(text);
    StatsOfStripped(t);
    var lines := FirstLines(t, MAX_LINES);
    FirstLinesCut(t, MAX_LINES);
    assert lines <= t;
    if |Encode(lines)| > MAX_BYTES {
      assert lines != [] ==> lines[0] == t[0];
      OctetCut(lines);
      var kept := Truncate(text).kept;
      CountNewlinesOfPrefix(lines, |kept|);
      assert kept == lines[..|kept|];
    }
  }
}
