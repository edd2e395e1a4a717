/**
 Splitting a text into messages within a limit counted in UTF-16 code units.
 A text is a sequence of code points; widths follow RFC 2781, section 2.1.
 */
module TextSplit {
  import opened Prelude

  type Text = seq<nat>

  const NEWLINE: nat := 10
  const TEXT_LIMIT: int := 4096

  /** A code point beyond the basic plane takes two units; one UTF-16 cannot
      encode is counted as one. */
  function Width(r: nat): nat {
    if 0x10000 <= r <= 0x10FFFF then 2 else 1
  }

  function Units(t: Text): nat {
    if t == [] then 0 else Units(t[..|t| - 1]) + Width(t[|t| - 1])
  }

  lemma UnitsAppend(t: Text, r: nat)
    ensures Units(t + [r]) == Units(t) + Width(r)
  {
    assert (t + [r])[..|t|] == t;
  }

  lemma {:induction false} UnitsConcat(a: Text, b: Text)
    ensures Units(a + b) == Units(a) + Units(b)
  {
    if b == [] {
      assert a + b == a;
    } else {
      var n := |b| - 1;
      UnitsConcat(a, b[..n]);
      assert a + b == (a + b[..n]) + [b[n]];
      UnitsAppend(a + b[..n], b[n]);
    }
  }

  lemma {:induction false} UnitsAtLeastLength(t: Text)
    ensures Units(t) >= |t|
  {
    if t != [] {
      UnitsAtLeastLength(t[..|t| - 1]);
    }
  }

  // ---------------------------------------------------------------------
  // The unit of the limit
  // ---------------------------------------------------------------------

  /** A Unicode scalar value: any code point but the surrogates. */
  predicate IsScalar(r: nat) {
    r < 0xD800 || 0xE000 <= r <= 0x10FFFF
  }

  /** RFC 2781, section 2.1; what UTF-16 cannot encode becomes U+FFFD. */
  function Encoded(r: nat): seq<nat> {
    if !IsScalar(r) then [0xFFFD]
    else if r < 0x10000 then [r]
    else [0xD800 + (r - 0x10000) / 0x400, 0xDC00 + (r - 0x10000) % 0x400]
  }

  function Utf16(t: Text): seq<nat> {
    if t == [] then [] else Encoded(t[0]) + Utf16(t[1..])
  }

  /** RFC 2781, section 2.2. */
  function FromUtf16(units: seq<nat>): Text {
    if units == [] then []
    else if 0xD800 <= units[0] < 0xDC00 && |units| > 1 then
      [0x10000 + (units[0] - 0xD800) * 0x400 + (if units[1] < 0xDC00 then 0 else units[1] - 0xDC00)]
        + FromUtf16(units[2..])
    else [units[0]] + FromUtf16(units[1..])
  }

  lemma {:induction false} UnitsFromTheFront(t: Text)
    requires t != []
    ensures Units(t) == Width(t[0]) + Units(t[1..])
  {
    var n := |t| - 1;
    if n > 0 {
      UnitsFromTheFront(t[..n]);
      assert t[..n][1..] == t[1..][..n - 1];
    }
  }

  /** The units counted are those of the UTF-16 encoding of the text, and that
      encoding is one: it decodes to the text. */
  lemma {:induction false} UnitsAreUtf16(t: Text)
    ensures Units(t) == |Utf16(t)|
    ensures (forall i :: 0 <= i < |t| ==> IsScalar(t[i])) ==> FromUtf16(Utf16(t)) == t
  {
    if t != [] {
      UnitsFromTheFront(t);
      UnitsAreUtf16(t[1..]);
      var head, rest := Encoded(t[0]), Utf16(t[1..]);
      assert (head + rest)[|head|..] == rest;
      if forall i :: 0 <= i < |t| ==> IsScalar(t[i]) {
        assert forall i :: 0 <= i < |t[1..]| ==> t[1..][i] == t[i + 1];
        assert t == [t[0]] + t[1..];
      }
    }
  }

  // ---------------------------------------------------------------------
  // Partitions
  // ---------------------------------------------------------------------

  /** The chunks are the text up to `end`, cut at `cuts`, none empty. */
  ghost predicate Partitions(text: Text, end: nat, cuts: seq<nat>, chunks: seq<Text>) {
    && |cuts| == |chunks| + 1 && cuts[0] == 0 && cuts[|chunks|] == end <= |text|
    && (forall k :: 0 <= k < |chunks| ==> Piece(text, cuts[k], cuts[k + 1], chunks[k]))
  }

  ghost predicate Piece(text: Text, a: nat, b: nat, chunk: Text) {
    a < b <= |text| && chunk == text[a..b]
  }

  function Joined(chunks: seq<Text>): Text {
    if chunks == [] then [] else Joined(chunks[..|chunks| - 1]) + chunks[|chunks| - 1]
  }

  lemma PartitionShrinks(text: Text, end: nat, cuts: seq<nat>, chunks: seq<Text>)
    requires Partitions(text, end, cuts, chunks) && chunks != []
    ensures var n := |chunks| - 1; Partitions(text, cuts[n], cuts[..n + 1], chunks[..n])
  {
    var n := |chunks| - 1;
    assert Piece(text, cuts[n], cuts[n + 1], chunks[n]);
    var cuts', chunks' := cuts[..n + 1], chunks[..n];
    forall k | 0 <= k < n ensures Piece(text, cuts'[k], cuts'[k + 1], chunks'[k]) {
      assert Piece(text, cuts[k], cuts[k + 1], chunks[k]);
    }
  }

  /** A partition loses nothing: joined again, it is the text. */
  lemma {:induction false} PartitionsJoin(text: Text, end: nat, cuts: seq<nat>, chunks: seq<Text>)
    requires Partitions(text, end, cuts, chunks)
    ensures Joined(chunks) == text[..end]
  {
    if chunks != [] {
      var n := |chunks| - 1;
      assert Piece(text, cuts[n], cuts[n + 1], chunks[n]);
      PartitionShrinks(text, end, cuts, chunks);
      PartitionsJoin(text, cuts[n], cuts[..n + 1], chunks[..n]);
      var cut := cuts[n];
      assert text[..cut] + text[cut..end] == text[..end];
    }
  }

  lemma {:induction false} PartitionsAreShort(text: Text, end: nat, cuts: seq<nat>, chunks: seq<Text>, n: nat)
    requires Partitions(text, end, cuts, chunks) && n <= |chunks|
    ensures n <= cuts[n]
  {
    if n > 0 {
      var m := n - 1;
      PartitionsAreShort(text, end, cuts, chunks, m);
      assert Piece(text, cuts[m], cuts[m + 1], chunks[m]);
    }
  }

  lemma PartitionGrows(text: Text, a: nat, b: nat, cuts: seq<nat>, chunks: seq<Text>, chunk: Text)
    requires Partitions(text, a, cuts, chunks) && Piece(text, a, b, chunk)
    ensures Partitions(text, b, cuts + [b], chunks + [chunk])
  {
    var cuts', chunks' := cuts + [b], chunks + [chunk];
    forall k | 0 <= k < |chunks'| ensures Piece(text, cuts'[k], cuts'[k + 1], chunks'[k]) {
      if k < |chunks| {
        assert Piece(text, cuts[k], cuts[k + 1], chunks[k]);
      }
    }
  }

  // ---------------------------------------------------------------------
  // The rune split
  // ---------------------------------------------------------------------

  /** Within the limit, or a single code point wider than it. */
  predicate Fits(chunk: Text, limit: int) {
    Units(chunk) <= limit || |chunk| == 1
  }

  lemma FitsMeansWithin(chunk: Text, limit: int)
    requires Fits(chunk, limit) && limit >= 2
    ensures Units(chunk) <= limit
  {
    if |chunk| == 1 {
      assert chunk[..0] == [];
    }
  }

  /** Greedy: the code point after the chunk would not have fitted. */
  predicate FullForRunes(text: Text, limit: int, end: nat, chunk: Text) {
    Fits(chunk, limit) && (end < |text| ==> Units(chunk) + Width(text[end]) > limit)
  }

  ghost predicate RuneGreedy(text: Text, limit: int, cuts: seq<nat>, chunks: seq<Text>) {
    && |cuts| == |chunks| + 1
    && forall k :: 0 <= k < |chunks| ==> FullForRunes(text, limit, cuts[k + 1], chunks[k])
  }

  lemma RuneGreedyGrows(text: Text, limit: int, cuts: seq<nat>, chunks: seq<Text>, end: nat, chunk: Text)
    requires RuneGreedy(text, limit, cuts, chunks) && FullForRunes(text, limit, end, chunk)
    ensures RuneGreedy(text, limit, cuts + [end], chunks + [chunk])
  {
    var cuts', chunks' := cuts + [end], chunks + [chunk];
    forall k | 0 <= k < |chunks'| ensures FullForRunes(text, limit, cuts'[k + 1], chunks'[k]) {
      if k < |chunks| {
        assert FullForRunes(text, limit, cuts[k + 1], chunks[k]);
      }
    }
  }

  ghost predicate RuneSplit(text: Text, limit: int, end: nat, cuts: seq<nat>, chunks: seq<Text>) {
    Partitions(text, end, cuts, chunks) && RuneGreedy(text, limit, cuts, chunks)
  }

  /** The chunk being filled: the text from `base` to `i`. */
  ghost predicate Filling(text: Text, limit: int, base: nat, i: nat, current: Text, units: int) {
    && base <= i <= |text| && current == text[base..i] && units == Units(current)
    && (current != [] ==> Fits(current, limit))
  }

  lemma FillingGrows(text: Text, limit: int, base: nat, i: nat, current: Text, units: int)
    requires Filling(text, limit, base, i, current, units) && i < |text|
    requires current != [] ==> units + Width(text[i]) <= limit
    ensures Filling(text, limit, base, i + 1, current + [text[i]], units + Width(text[i]))
  {
    assert text[base..i] + [text[i]] == text[base..i + 1];
    UnitsAppend(current, text[i]);
  }

  /** A chunk the next code point does not fit in, or the last one, goes. */
  lemma FillingFlushes(
    text: Text, limit: int, base: nat, i: nat, current: Text, units: int, cuts: seq<nat>, chunks: seq<Text>)
    requires Filling(text, limit, base, i, current, units) && current != []
    requires RuneSplit(text, limit, base, cuts, chunks) && (i < |text| ==> units + Width(text[i]) > limit)
    ensures RuneSplit(text, limit, i, cuts + [i], chunks + [current])
  {
    PartitionGrows(text, base, i, cuts, chunks, current);
    RuneGreedyGrows(text, limit, cuts, chunks, i, current);
  }

  method SplitTelegramText(text: Text, limit: int) returns (chunks: seq<Text>, ghost cuts: seq<nat>)
    ensures text == [] || limit < 1 ==> chunks == []
    ensures text != [] && limit >= 1 ==> Partitions(text, |text|, cuts, chunks) && RuneGreedy(text, limit, cuts, chunks)
  {
    chunks, cuts := [], [0];
    if text == [] || limit < 1 {
      return;
    }
    var current: Text, units := [], 0;
    var i := 0;
    ghost var base := 0;
    while i < |text|
      invariant Filling(text, limit, base, i, current, units) && (i > 0 ==> current != [])
      invariant RuneSplit(text, limit, base, cuts, chunks)
    {
      if units + Width(text[i]) > limit && current != [] {
        FillingFlushes(text, limit, base, i, current, units, cuts, chunks);
        chunks, cuts := chunks + [current], cuts + [i];
        current, units, base := [], 0, i;
      }
      FillingGrows(text, limit, base, i, current, units);
      current, units := current + [text[i]], units + Width(text[i]);
      i := i + 1;
    }
    FillingFlushes(text, limit, base, i, current, units, cuts, chunks);
    chunks, cuts := chunks + [current], cuts + [i];
  }

  // ---------------------------------------------------------------------
  // Paragraphs
  // ---------------------------------------------------------------------

  /** A blank-line separator ends here: the text goes on with something else. */
  predicate ParagraphEnds(text: Text, p: nat) {
    2 <= p < |text| && text[p - 2] == NEWLINE && text[p - 1] == NEWLINE && text[p] != NEWLINE
  }

  /** Where the paragraph starting at `a` ends, its separator included. */
  function ParagraphEnd(text: Text, a: nat): (b: nat)
    requires a < |text|
    ensures a < b <= |text| && (b < |text| ==> ParagraphEnds(text, b))
    ensures forall p :: a < p < b ==> !ParagraphEnds(text, p)
    decreases |text| - a
  {
    if a + 1 == |text| || ParagraphEnds(text, a + 1) then a + 1 else ParagraphEnd(text, a + 1)
  }

  lemma {:induction false} ParagraphEndIs(text: Text, a: nat, b: nat)
    requires a < b <= |text| && (b == |text| || ParagraphEnds(text, b))
    requires forall p :: a < p < b ==> !ParagraphEnds(text, p)
    ensures ParagraphEnd(text, a) == b
    decreases b - a
  {
    if a + 1 < b {
      ParagraphEndIs(text, a + 1, b);
    }
  }

  predicate BlankLine(text: Text, p: nat) {
    p + 1 < |text| && text[p] == NEWLINE && text[p + 1] == NEWLINE
  }

  /** Each segment is one paragraph, with the separator that ended it. A segment
      never starts inside a separator. */
  method ParagraphSegments(text: Text) returns (segments: seq<Text>, ghost cuts: seq<nat>)
    ensures Partitions(text, |text|, cuts, segments) && Joined(segments) == text
    ensures forall k :: 0 <= k < |segments| ==> cuts[k] < |text| && cuts[k + 1] == ParagraphEnd(text, cuts[k])
  {
    segments, cuts := [], [0];
    var at := 0;
    while at < |text|
      invariant 0 <= at <= |text| && Partitions(text, at, cuts, segments)
      invariant at == 0 || at == |text| || ParagraphEnds(text, at)
      invariant forall k :: 0 <= k < |segments| ==> cuts[k] < |text| && cuts[k + 1] == ParagraphEnd(text, cuts[k])
    {
      var index := at;
      while index < |text| && !BlankLine(text, index)
        invariant at <= index <= |text|
        invariant forall p :: at <= p < index ==> !BlankLine(text, p)
      {
        index := index + 1;
      }
      var end := |text|;
      if index < |text| {
        end := index + 2;
        while end < |text| && text[end] == NEWLINE
          invariant index + 2 <= end <= |text|
          invariant forall p :: index <= p < end ==> text[p] == NEWLINE
        {
          end := end + 1;
        }
      }
      forall p | at < p < end ensures !ParagraphEnds(text, p) {
        if p <= index + 1 && p >= 2 {
          assert p - 2 >= at ==> !BlankLine(text, p - 2);
        }
      }
      ParagraphEndIs(text, at, end);
      PartitionGrows(text, at, end, cuts, segments, text[at..end]);
      segments, cuts := segments + [text[at..end]], cuts + [end];
      at := end;
    }
    PartitionsJoin(text, |text|, cuts, segments);
    assert text[..|text|] == text;
  }

  // ---------------------------------------------------------------------
  // The paragraph split
  // ---------------------------------------------------------------------

  predicate ParagraphStarts(text: Text, a: nat) {
    a < |text| && (a == 0 || ParagraphEnds(text, a))
  }

  predicate LongParagraph(text: Text, limit: int, a: nat) {
    ParagraphStarts(text, a) && Units(text[a..ParagraphEnd(text, a)]) > limit
  }

  /** Strictly inside a paragraph too long for one message. */
  ghost predicate InsideLongParagraph(text: Text, limit: int, p: nat) {
    exists a :: 0 <= a < p && LongParagraph(text, limit, a) && p < ParagraphEnd(text, a)
  }

  /** The chunk fits. It stops at the end of a paragraph whose successor would not
      have fitted, or inside a paragraph too long for one message, at a code point
      that would not have fitted. */
  ghost predicate FullForParagraphs(text: Text, limit: int, end: nat, chunk: Text) {
    && Fits(chunk, limit)
    && (end < |text| ==>
      if ParagraphEnds(text, end) then Units(chunk) + Units(text[end..ParagraphEnd(text, end)]) > limit
      else InsideLongParagraph(text, limit, end) && Units(chunk) + Width(text[end]) > limit)
  }

  ghost predicate PolicyGreedy(text: Text, limit: int, cuts: seq<nat>, chunks: seq<Text>) {
    && |cuts| == |chunks| + 1
    && forall k :: 0 <= k < |chunks| ==> FullForParagraphs(text, limit, cuts[k + 1], chunks[k])
  }

  lemma PolicyGreedyGrows(text: Text, limit: int, cuts: seq<nat>, chunks: seq<Text>, end: nat, chunk: Text)
    requires PolicyGreedy(text, limit, cuts, chunks) && FullForParagraphs(text, limit, end, chunk)
    ensures PolicyGreedy(text, limit, cuts + [end], chunks + [chunk])
  {
    var cuts', chunks' := cuts + [end], chunks + [chunk];
    forall k | 0 <= k < |chunks'| ensures FullForParagraphs(text, limit, cuts'[k + 1], chunks'[k]) {
      if k < |chunks| {
        assert FullForParagraphs(text, limit, cuts[k + 1], chunks[k]);
      }
    }
  }

  ghost predicate PolicySplit(text: Text, limit: int, end: nat, cuts: seq<nat>, chunks: seq<Text>) {
    Partitions(text, end, cuts, chunks) && PolicyGreedy(text, limit, cuts, chunks)
  }

  lemma PolicySplitGrows(text: Text, limit: int, a: nat, b: nat, cuts: seq<nat>, chunks: seq<Text>, chunk: Text)
    requires PolicySplit(text, limit, a, cuts, chunks) && Piece(text, a, b, chunk)
    requires FullForParagraphs(text, limit, b, chunk)
    ensures PolicySplit(text, limit, b, cuts + [b], chunks + [chunk])
  {
    PartitionGrows(text, a, b, cuts, chunks, chunk);
    PolicyGreedyGrows(text, limit, cuts, chunks, b, chunk);
  }

  lemma SlicesJoin(text: Text, a: nat, b: nat, c: nat)
    requires a <= b <= c <= |text|
    ensures text[a..b] + text[b..c] == text[a..c]
  {
  }

  lemma SliceOfSlice(text: Text, a: nat, e: nat, x: nat, y: nat)
    requires a <= e <= |text| && x <= y <= e - a
    ensures text[a..e][x..y] == text[a + x..a + y]
  {
    var inner, outer := text[a..e][x..y], text[a + x..a + y];
    forall i | 0 <= i < y - x ensures inner[i] == outer[i] {
      assert inner[i] == text[a..e][x + i] == text[a + x + i];
    }
  }

  /** A run of a paragraph is a piece of the text, the last one reaching its end. */
  lemma RunPiece(text: Text, a: nat, e: nat, runCuts: seq<nat>, runs: seq<Text>, n: nat)
    requires a <= e <= |text| && Partitions(text[a..e], e - a, runCuts, runs) && n < |runs|
    ensures Piece(text, a + runCuts[n], a + runCuts[n + 1], runs[n]) && a + runCuts[n + 1] <= e
    ensures if n + 1 < |runs| then a + runCuts[n + 1] < e else a + runCuts[n + 1] == e
  {
    assert Piece(text[a..e], runCuts[n], runCuts[n + 1], runs[n]);
    SliceOfSlice(text, a, e, runCuts[n], runCuts[n + 1]);
    if n + 1 < |runs| {
      var next := n + 1;
      assert Piece(text[a..e], runCuts[next], runCuts[next + 1], runs[next]);
    }
  }

  /** The runs of the long paragraph that starts at `a`, cut by code points. */
  ghost predicate AreRuns(text: Text, limit: int, a: nat, runCuts: seq<nat>, runs: seq<Text>) {
    LongParagraph(text, limit, a)
    && var paragraph := text[a..ParagraphEnd(text, a)];
       RuneSplit(paragraph, limit, |paragraph|, runCuts, runs)
  }

  lemma RunIsFull(text: Text, limit: int, a: nat, runCuts: seq<nat>, runs: seq<Text>, n: nat)
    requires AreRuns(text, limit, a, runCuts, runs) && n + 1 < |runs|
    ensures FullForParagraphs(text, limit, a + runCuts[n + 1], runs[n])
  {
    var e := ParagraphEnd(text, a);
    RunPiece(text, a, e, runCuts, runs, n);
    assert FullForRunes(text[a..e], limit, runCuts[n + 1], runs[n]);
    assert InsideLongParagraph(text, limit, a + runCuts[n + 1]);
  }

  /** The text is split up to the end of the first `n` runs, each a full message. */
  ghost predicate SplitAfterRuns(
    text: Text, limit: int, a: nat, runCuts: seq<nat>, runs: seq<Text>, cuts: seq<nat>, chunks: seq<Text>, n: nat)
  {
    n < |runs| < |runCuts| && PolicySplit(text, limit, a + runCuts[n], cuts, chunks + runs[..n])
  }

  lemma OneRunMore(
    text: Text, limit: int, a: nat, runCuts: seq<nat>, runs: seq<Text>, cuts: seq<nat>, chunks: seq<Text>, n: nat)
    requires AreRuns(text, limit, a, runCuts, runs) && 0 < n < |runs|
    requires SplitAfterRuns(text, limit, a, runCuts, runs, cuts, chunks, n - 1)
    ensures SplitAfterRuns(text, limit, a, runCuts, runs, cuts + [a + runCuts[n]], chunks, n)
  {
    var m := n - 1;
    RunPiece(text, a, ParagraphEnd(text, a), runCuts, runs, m);
    RunIsFull(text, limit, a, runCuts, runs, m);
    PolicySplitGrows(text, limit, a + runCuts[m], a + runCuts[n], cuts, chunks + runs[..m], runs[m]);
    assert chunks + runs[..m] + [runs[m]] == chunks + runs[..n];
  }

  lemma NoRunYet(
    text: Text, limit: int, a: nat, runCuts: seq<nat>, runs: seq<Text>, cuts: seq<nat>, chunks: seq<Text>)
    requires PolicySplit(text, limit, a, cuts, chunks) && AreRuns(text, limit, a, runCuts, runs) && runs != []
    ensures SplitAfterRuns(text, limit, a, runCuts, runs, cuts, chunks, 0)
  {
    assert chunks + runs[..0] == chunks;
  }

  /** The runs of a long paragraph, but for the last one, are full messages. */
  lemma {:induction false} RunsOfALongParagraph(
    text: Text, limit: int, a: nat, runCuts: seq<nat>, runs: seq<Text>, cuts: seq<nat>, chunks: seq<Text>, n: nat)
    returns (cuts': seq<nat>)
    requires PolicySplit(text, limit, a, cuts, chunks) && AreRuns(text, limit, a, runCuts, runs) && n < |runs|
    ensures SplitAfterRuns(text, limit, a, runCuts, runs, cuts', chunks, n)
  {
    if n == 0 {
      NoRunYet(text, limit, a, runCuts, runs, cuts, chunks);
      cuts' := cuts;
    } else {
      var before := RunsOfALongParagraph(text, limit, a, runCuts, runs, cuts, chunks, n - 1);
      OneRunMore(text, limit, a, runCuts, runs, before, chunks, n);
      cuts' := before + [a + runCuts[n]];
    }
  }

  /** The messages with a paragraph too long for one, cut by code points: its last
      run is left to be filled by what follows. */
  method SplitLongParagraph(
    ghost text: Text, limit: int, ghost at: nat, paragraph: Text, chunks: seq<Text>, ghost cuts: seq<nat>)
    returns (chunks': seq<Text>, current: Text, ghost cuts': seq<nat>, ghost base: nat)
    requires limit >= 1 && PolicySplit(text, limit, at, cuts, chunks) && LongParagraph(text, limit, at)
    requires paragraph == text[at..ParagraphEnd(text, at)]
    ensures PolicySplit(text, limit, base, cuts', chunks') && base < ParagraphEnd(text, at)
    ensures current == text[base..ParagraphEnd(text, at)] && Fits(current, limit)
  {
    var runs;
    ghost var runCuts;
    runs, runCuts := SplitTelegramText(paragraph, limit);
    ghost var last := |runs| - 1;
    RunPiece(text, at, ParagraphEnd(text, at), runCuts, runs, last);
    assert FullForRunes(paragraph, limit, runCuts[last + 1], runs[last]);
    cuts' := RunsOfALongParagraph(text, limit, at, runCuts, runs, cuts, chunks, last);
    chunks', current, base := chunks + runs[..|runs| - 1], runs[|runs| - 1], at + runCuts[last];
  }

  method SplitPolicyText(text: Text, limit: int) returns (chunks: seq<Text>, ghost cuts: seq<nat>)
    ensures text == [] || limit < 1 ==> chunks == []
    ensures text != [] && limit >= 1 ==> PolicySplit(text, limit, |text|, cuts, chunks)
  {
    chunks, cuts := [], [0];
    if text == [] || limit < 1 {
      return;
    }
    var current: Text, currentUnits := [], 0;
    var segments;
    ghost var ends;
    segments, ends := ParagraphSegments(text);
    ghost var base: nat := 0;
    var k := 0;
    while k < |segments|
      invariant 0 <= k <= |segments| && base <= ends[k] <= |text| && (k > 0 ==> base < ends[k])
      invariant ends[k] < |text| ==> ParagraphStarts(text, ends[k])
      invariant current == text[base..ends[k]] && currentUnits == Units(current)
      invariant current != [] ==> Fits(current, limit)
      invariant PolicySplit(text, limit, base, cuts, chunks)
    {
      var paragraph := segments[k];
      ghost var at, end := ends[k], ends[k + 1];
      assert Piece(text, at, end, paragraph);
      var units := CountUnits(paragraph);
      if currentUnits + units > limit && current != [] {
        PolicySplitGrows(text, limit, base, at, cuts, chunks, current);
        chunks, cuts := chunks + [current], cuts + [at];
        current, currentUnits, base := [], 0, at;
      }
      if units > limit {
        chunks, current, cuts, base := SplitLongParagraph(text, limit, at, paragraph, chunks, cuts);
        currentUnits := CountUnits(current);
      } else {
        UnitsConcat(current, paragraph);
        SlicesJoin(text, base, at, end);
        current, currentUnits := current + paragraph, currentUnits + units;
      }
      k := k + 1;
    }
    PolicySplitGrows(text, limit, base, |text|, cuts, chunks, current);
    chunks, cuts := chunks + [current], cuts + [|text|];
  }

  method CountUnits(text: Text) returns (units: nat)
    ensures units == Units(text)
  {
    units := 0;
    var i := 0;
    while i < |text|
      invariant 0 <= i <= |text| && units == Units(text[..i])
    {
      UnitsAppend(text[..i], text[i]);
      assert text[..i + 1] == text[..i] + [text[i]];
      units := units + Width(text[i]);
      i := i + 1;
    }
    assert text[..i] == text;
  }

  // ---------------------------------------------------------------------
  // Labelled messages
  // ---------------------------------------------------------------------

  /** "Privacy policy (", "/", ")" and the blank line after the label. */
  const LABEL_OPENS: Text := [80, 114, 105, 118, 97, 99, 121, 32, 112, 111, 108, 105, 99, 121, 32, 40]
  const LABEL_SLASH: Text := [47]
  const LABEL_CLOSES: Text := [41]
  const LABEL_SEPARATOR: Text := [10, 10]

  function Decimal(n: nat): Text {
    if n < 10 then [48 + n] else Decimal(n / 10) + [48 + n % 10]
  }

  function Label(rank: nat, total: nat): Text {
    LABEL_OPENS + Decimal(rank) + LABEL_SLASH + Decimal(total) + LABEL_CLOSES
  }

  function Labelled(rank: nat, total: nat, chunk: Text): Text {
    Label(rank, total) + LABEL_SEPARATOR + chunk
  }

  lemma {:induction false} NarrowUnits(t: Text)
    requires forall i :: 0 <= i < |t| ==> t[i] < 0x10000
    ensures Units(t) == |t|
  {
    if t != [] {
      NarrowUnits(t[..|t| - 1]);
    }
  }

  lemma {:induction false} DecimalIsNarrow(n: nat)
    ensures forall i :: 0 <= i < |Decimal(n)| ==> Decimal(n)[i] < 0x10000
  {
    if n >= 10 {
      DecimalIsNarrow(n / 10);
    }
  }

  lemma {:induction false} DecimalGrows(m: nat, n: nat)
    requires m <= n
    ensures |Decimal(m)| <= |Decimal(n)|
  {
    if m >= 10 {
      DecimalGrows(m / 10, n / 10);
    }
  }

  function Pow10(k: nat): nat {
    if k == 0 then 1 else 10 * Pow10(k - 1)
  }

  lemma {:induction false} DecimalDigits(n: nat, k: nat)
    requires n < Pow10(k) && k > 0
    ensures |Decimal(n)| <= k
  {
    if n >= 10 {
      DecimalDigits(n / 10, k - 1);
    }
  }

  function LabelUnits(total: nat): nat {
    20 + 2 * |Decimal(total)|
  }

  /** The label of the last rank is the widest, and leaves room for text in every
      answer of less than 2^63 messages. */
  lemma LabelsFit(rank: nat, total: nat)
    requires rank <= total
    ensures Units(Label(total, total) + LABEL_SEPARATOR) == LabelUnits(total)
    ensures Units(Label(rank, total) + LABEL_SEPARATOR) <= LabelUnits(total)
    ensures total < 0x8000_0000_0000_0000 ==> LabelUnits(total) <= 58
  {
    DecimalIsNarrow(rank);
    DecimalIsNarrow(total);
    DecimalGrows(rank, total);
    NarrowUnits(Label(rank, total) + LABEL_SEPARATOR);
    NarrowUnits(Label(total, total) + LABEL_SEPARATOR);
    if total < 0x8000_0000_0000_0000 {
      assert Pow10(19) == 10_000_000_000_000_000_000 by {
        assert Pow10(7) == 10_000_000;
        assert Pow10(13) == 10_000_000_000_000;
      }
      DecimalDigits(total, 19);
    }
  }

  function CodePoints(s: string): Text {
    seq(|s|, i requires 0 <= i < |s| => s[i] as nat)
  }

  /** The number a run of decimal digits stands for. */
  function ValueOf(digits: Text): int {
    if digits == [] then 0 else 10 * ValueOf(digits[..|digits| - 1]) + (digits[|digits| - 1] as int - 48)
  }

  /** The usual decimal numeral of n: digits only, none leading in vain. */
  ghost predicate IsNumeral(digits: Text, n: nat) {
    && digits != [] && (forall i :: 0 <= i < |digits| ==> 48 <= digits[i] <= 57)
    && ValueOf(digits) == n && (|digits| > 1 ==> digits[0] != 48)
  }

  lemma {:induction false} DecimalIsNumeral(n: nat)
    ensures IsNumeral(Decimal(n), n)
    ensures n > 0 ==> Decimal(n)[0] != 48
  {
    if n < 10 {
      assert Decimal(n)[..0] == [];
    } else {
      DecimalIsNumeral(n / 10);
      var front := Decimal(n / 10);
      assert Decimal(n)[..|front|] == front;
    }
  }

  /** A message reads "Privacy policy (rank/total)", a blank line, and its chunk. */
  ghost predicate ReadsAs(message: Text, rank: nat, total: nat, chunk: Text) {
    exists a, b :: IsNumeral(a, rank) && IsNumeral(b, total)
      && message == CodePoints("Privacy policy (") + a + CodePoints("/") + b + CodePoints(")\n\n") + chunk
  }

  lemma LabelledReads(rank: nat, total: nat, chunk: Text)
    ensures ReadsAs(Labelled(rank, total, chunk), rank, total, chunk)
  {
    DecimalIsNumeral(rank);
    DecimalIsNumeral(total);
    var a, b := Decimal(rank), Decimal(total);
    assert CodePoints("Privacy policy (") == LABEL_OPENS;
    assert CodePoints("/") == LABEL_SLASH;
    assert CodePoints(")\n\n") == LABEL_CLOSES + LABEL_SEPARATOR;
    assert Labelled(rank, total, chunk)
        == CodePoints("Privacy policy (") + a + CodePoints("/") + b + CodePoints(")\n\n") + chunk;
  }

  /** The chunk under its label, within the limit of a message. */
  ghost predicate IsMessage(message: Text, rank: nat, total: nat, chunk: Text) {
    ReadsAs(message, rank, total, chunk) && |Utf16(message)| <= 4096
  }

  /** The answer of /privacy: the label announces the total, and the total depends
      on the room the label leaves. */
  method BuildPrivacyMessages(policy: Text) returns (messages: seq<Text>, ghost cuts: seq<nat>, ghost chunks: seq<Text>)
    requires |policy| < 0x8000_0000_0000_0000
    ensures policy == [] ==> messages == []
    ensures policy != [] ==> Partitions(policy, |policy|, cuts, chunks) && Joined(chunks) == policy
    ensures policy != [] ==>
      |messages| == |chunks| && forall k :: 0 <= k < |messages| ==> IsMessage(messages[k], k + 1, |messages|, chunks[k])
    ensures policy != [] ==>
      exists total ::
        |messages| <= total <= |policy| && PolicyGreedy(policy, 4096 - LabelUnits(total), cuts, chunks)
  {
    var total := 1;
    var parts;
    LabelsFit(1, 1);
    parts, cuts := SplitPolicyText(policy, TEXT_LIMIT - LabelUnits(total));
    while |parts| > total
      invariant 1 <= total && (policy != [] ==> total <= |policy|) && (policy == [] ==> parts == [])
      invariant policy != [] ==> LabelUnits(total) <= 58
      invariant policy != [] ==> PolicySplit(policy, TEXT_LIMIT - LabelUnits(total), |policy|, cuts, parts)
      decreases |policy| - total
    {
      PartitionsAreShort(policy, |policy|, cuts, parts, |parts|);
      total := |parts|;
      LabelsFit(total, total);
      parts, cuts := SplitPolicyText(policy, TEXT_LIMIT - LabelUnits(total));
    }
    chunks := parts;
    if policy != [] {
      PartitionsJoin(policy, |policy|, cuts, chunks);
      assert policy[..|policy|] == policy;
    }
    messages := LabelChunks(policy, total, cuts, parts);
  }

  method LabelChunks(ghost policy: Text, ghost total: nat, ghost cuts: seq<nat>, parts: seq<Text>)
    returns (messages: seq<Text>)
    requires parts != [] ==> |parts| <= total && LabelUnits(total) <= 58
    requires parts != [] ==> PolicyGreedy(policy, TEXT_LIMIT - LabelUnits(total), cuts, parts)
    ensures |messages| == |parts|
    ensures forall k :: 0 <= k < |parts| ==> IsMessage(messages[k], k + 1, |parts|, parts[k])
  {
    messages := [];
    var index := 0;
    while index < |parts|
      invariant 0 <= index <= |parts| && |messages| == index
      invariant forall k :: 0 <= k < index ==> IsMessage(messages[k], k + 1, |parts|, parts[k])
    {
      LabelledFits(policy, total, cuts, parts, index);
      messages := messages + [Labelled(index + 1, |parts|, parts[index])];
      index := index + 1;
    }
  }

  lemma LabelledUnits(policy: Text, total: nat, cuts: seq<nat>, parts: seq<Text>, index: nat)
    requires index < |parts| <= total && LabelUnits(total) <= 58
    requires PolicyGreedy(policy, TEXT_LIMIT - LabelUnits(total), cuts, parts)
    ensures Units(Labelled(index + 1, |parts|, parts[index])) <= TEXT_LIMIT
  {
    var heading := Label(index + 1, |parts|) + LABEL_SEPARATOR;
    LabelsFit(index + 1, |parts|);
    DecimalGrows(|parts|, total);
    assert FullForParagraphs(policy, TEXT_LIMIT - LabelUnits(total), cuts[index + 1], parts[index]);
    FitsMeansWithin(parts[index], TEXT_LIMIT - LabelUnits(total));
    UnitsConcat(heading, parts[index]);
  }

  lemma LabelledFits(policy: Text, total: nat, cuts: seq<nat>, parts: seq<Text>, index: nat)
    requires index < |parts| <= total && LabelUnits(total) <= 58
    requires PolicyGreedy(policy, TEXT_LIMIT - LabelUnits(total), cuts, parts)
    ensures IsMessage(Labelled(index + 1, |parts|, parts[index]), index + 1, |parts|, parts[index])
  {
    LabelledUnits(policy, total, cuts, parts, index);
    LabelledReads(index + 1, |parts|, parts[index]);
    ReadsWithinTheLimit(Labelled(index + 1, |parts|, parts[index]), index + 1, |parts|, parts[index]);
  }

  lemma ReadsWithinTheLimit(message: Text, rank: nat, total: nat, chunk: Text)
    requires ReadsAs(message, rank, total, chunk) && Units(message) <= TEXT_LIMIT
    ensures IsMessage(message, rank, total, chunk)
  {
    UnitsAreUtf16(message);
  }
}
