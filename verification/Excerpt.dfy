/**
 Middle-out truncation of a log to a token budget (src/analyzer_ng/llm/excerpt.py). The two regular
 expressions are predicates on a line. What `Render` puts out is a list of pieces, kept lines and
 elision markers, so that a marker is never confused with a log line that reads like one.
 */
module Excerpt {
  import opened Numbers
  import opened Wrappers
  import SqlScript

  const HEAD_LINES := 15
  const TAIL_LINES := 10
  const ROOT_MAX_LINES := 40

  datatype Patterns = Patterns(causedBy: string -> bool, header: string -> bool)

  /** Four characters a token and a tenth more, rounded up. */
  function EstimateTokens(text: string): (n: nat)
    ensures 10 * (n - 1) * 4 < 11 * |text| <= 10 * n * 4
  {
    (|text| * 11 + 39) / 40
  }

  predicate Blank(line: string) { forall k :: 0 <= k < |line| ==> SqlScript.IsSpace(line[k]) }

  // ----- lines ---------------------------------------------------------------

  function SplitLines(text: string): (r: seq<string>)
    ensures r != []
  {
    if text == "" then [""]
    else
      var rest := SplitLines(text[1..]);
      if text[0] == '\n' then [""] + rest else [[text[0]] + rest[0]] + rest[1..]
  }

  function JoinLines(lines: seq<string>): string {
    if lines == [] then ""
    else if |lines| == 1 then lines[0]
    else lines[0] + "\n" + JoinLines(lines[1..])
  }

  lemma {:induction false} JoinOfSplit(text: string)
    ensures JoinLines(SplitLines(text)) == text
    ensures forall l <- SplitLines(text) :: '\n' !in l
  {
    if text != "" {
      JoinOfSplit(text[1..]);
      var rest := SplitLines(text[1..]);
      if text[0] == '\n' {
        assert SplitLines(text)[1..] == rest;
      } else {
        assert SplitLines(text)[1..] == rest[1..];
      }
    }
  }

  // ----- the root block --------------------------------------------------------

  datatype Block = Block(start: nat, end: nat)

  /** The last "Caused by:" line, or else the first exception header. */
  predicate IsAnchor(p: Patterns, lines: seq<string>, anchor: nat) {
    && anchor < |lines|
    && if exists k :: 0 <= k < |lines| && p.causedBy(lines[k])
       then p.causedBy(lines[anchor]) && forall k :: anchor < k < |lines| ==> !p.causedBy(lines[k])
       else p.header(lines[anchor]) && forall k :: 0 <= k < anchor ==> !p.header(lines[k])
  }

  /** The block runs from the anchor to the next blank line, to its limit, or to the last line. */
  predicate IsRootBlock(p: Patterns, lines: seq<string>, b: Block) {
    && IsAnchor(p, lines, b.start)
    && b.start < b.end <= |lines| && b.end <= b.start + 40
    && (forall k :: b.start < k < b.end ==> !Blank(lines[k]))
    && (b.end == |lines| || b.end == b.start + 40 || Blank(lines[b.end]))
  }

  method RootBlockBounds(p: Patterns, lines: seq<string>) returns (r: Option<Block>)
    ensures r.Some? ==> IsRootBlock(p, lines, r.value)
    ensures r.None? <==> forall k :: 0 <= k < |lines| ==> !p.causedBy(lines[k]) && !p.header(lines[k])
  {
    var anchor := -1;
    for i := 0 to |lines|
      invariant -1 <= anchor < i
      invariant anchor >= 0 ==> p.causedBy(lines[anchor])
      invariant forall k :: anchor < k < i ==> !p.causedBy(lines[k])
    {
      if p.causedBy(lines[i]) { anchor := i; }
    }
    if anchor == -1 {
      for i := 0 to |lines|
        invariant anchor == -1
        invariant forall k :: 0 <= k < i ==> !p.header(lines[k])
      {
        if p.header(lines[i]) { anchor := i; break; }
      }
    }
    if anchor == -1 { return None; }
    var end := anchor + 1;
    var limit := if anchor + ROOT_MAX_LINES < |lines| then anchor + ROOT_MAX_LINES else |lines|;
    while end < limit && !Blank(lines[end])
      invariant anchor < end <= limit
      invariant forall k :: anchor < k < end ==> !Blank(lines[k])
    {
      end := end + 1;
    }
    r := Some(Block(anchor, end));
  }

  /** The root block of a text is unique. */
  lemma {:induction false} OneRootBlock(p: Patterns, lines: seq<string>, a: Block, b: Block)
    requires IsRootBlock(p, lines, a) && IsRootBlock(p, lines, b)
    ensures a == b
  {
    var _ := a.end < |lines| && Blank(lines[a.end]);
    var _ := b.end < |lines| && Blank(lines[b.end]);
  }

  // ----- rendering -------------------------------------------------------------

  datatype Piece = Line(text: string) | Elided(count: nat)

  function Digits(n: nat): string {
    (if n < 10 then "" else Digits(n / 10)) + [('0' as int + n % 10) as char]
  }

  function Show(piece: Piece): string {
    match piece
    case Line(text) => text
    case Elided(count) => "... [" + Digits(count) + " lines elided by analyzer] ..."
  }

  function ShowAll(pieces: seq<Piece>): string {
    JoinLines(seq(|pieces|, k requires 0 <= k < |pieces| => Show(pieces[k])))
  }

  /** The number that a text of decimal digits stands for. */
  function Number(digits: string): int {
    if digits == "" then 0
    else 10 * Number(digits[..|digits| - 1]) + (digits[|digits| - 1] as int - '0' as int)
  }

  lemma {:induction false} DigitsReadBack(n: nat)
    ensures Number(Digits(n)) == n
    ensures Digits(n) != "" && (forall c <- Digits(n) :: '0' <= c <= '9') && (Digits(n)[0] == '0' ==> n == 0)
  {
    if n >= 10 {
      DigitsReadBack(n / 10);
      assert Digits(n)[..|Digits(n)| - 1] == Digits(n / 10);
    } else {
      assert Digits(n)[..0] == "";
    }
  }

  /** A marker tells, in decimal digits and without leading zeros, how many lines are missing; so different gaps
      read differently. */
  lemma {:induction false} MarkerTellsItsCount(count: nat) returns (digits: string)
    ensures Show(Elided(count)) == "... [" + digits + " lines elided by analyzer] ..."
    ensures digits != "" && (forall c <- digits :: '0' <= c <= '9') && (digits[0] == '0' ==> count == 0)
    ensures Number(digits) == count
    ensures forall other: nat :: Show(Elided(other)) == Show(Elided(count)) ==> other == count
  {
    digits := Digits(count);
    DigitsReadBack(count);
    forall other: nat | Show(Elided(other)) == Show(Elided(count)) ensures other == count {
      DigitsReadBack(other);
      SameMiddle("... [", Digits(other), digits, " lines elided by analyzer] ...");
    }
  }

  lemma {:induction false} SameMiddle(a: string, x: string, y: string, b: string)
    requires a + x + b == a + y + b
    ensures x == y
  {
    assert |x| == |y|;
    assert x == (a + x + b)[|a|..|a| + |x|];
    assert y == (a + y + b)[|a|..|a| + |y|];
  }

  /** The last kept position below `n`; -1 when there is none. */
  function LastKept(keep: set<int>, n: nat): (prev: int)
    ensures -1 <= prev < n && (prev >= 0 ==> prev in keep)
    ensures forall k :: prev < k < n ==> k !in keep
  {
    if n == 0 then -1 else if n - 1 in keep then n - 1 else LastKept(keep, n - 1)
  }

  /** The line at `at`, after a marker if the kept line before it is further back. */
  function AddLine(before: seq<Piece>, prev: int, at: int, line: string): seq<Piece>
    requires -1 <= prev < at
  {
    (if prev != -1 && at > prev + 1 then before + [Elided(at - prev - 1)] else before) + [Line(line)]
  }

  /** What the first `n` lines leave. */
  function Pieces(lines: seq<string>, keep: set<int>, n: nat): seq<Piece>
    requires n <= |lines|
  {
    if n == 0 then []
    else
      var before := Pieces(lines, keep, n - 1);
      if n - 1 in keep then AddLine(before, LastKept(keep, n - 1), n - 1, lines[n - 1]) else before
  }

  function Rendered(lines: seq<string>, keep: set<int>): string {
    ShowAll(Pieces(lines, keep, |lines|))
  }

  method Render(lines: seq<string>, keep: set<int>) returns (text: string)
    ensures text == Rendered(lines, keep)
  {
    var out: seq<Piece> := [];
    var prev := -1;
    for i := 0 to |lines|
      invariant out == Pieces(lines, keep, i) && prev == LastKept(keep, i)
    {
      if i in keep {
        if prev != -1 && i > prev + 1 {
          out := out + [Elided(i - prev - 1)];
        }
        out := out + [Line(lines[i])];
        prev := i;
      }
    }
    text := ShowAll(out);
  }

  /** How many lines of the text a rendering accounts for. */
  function Weight(pieces: seq<Piece>): nat {
    if pieces == [] then 0
    else Weight(pieces[..|pieces| - 1]) + match pieces[|pieces| - 1] case Line(_) => 1 case Elided(count) => count
  }

  /** Read a rendering back: a line stands where the pieces before it end. */
  function ReadBack(pieces: seq<Piece>, first: int): seq<(int, string)> {
    if pieces == [] then []
    else
      var init := pieces[..|pieces| - 1];
      ReadBack(init, first) +
      match pieces[|pieces| - 1] case Line(text) => [(first + Weight(init), text)] case Elided(_) => []
  }

  function KeptLines(lines: seq<string>, keep: set<int>, n: nat): seq<(int, string)>
    requires n <= |lines|
  {
    if n == 0 then []
    else KeptLines(lines, keep, n - 1) + if n - 1 in keep then [(n - 1, lines[n - 1])] else []
  }

  /** The first kept position below `n`, or `n`. */
  function FirstKept(keep: set<int>, n: nat): (first: nat)
    ensures first <= n && (first < n ==> first in keep)
    ensures forall k :: 0 <= k < first ==> k !in keep
  {
    if n == 0 then 0
    else
      var first := FirstKept(keep, n - 1);
      if first < n - 1 then first else if n - 1 in keep then n - 1 else n
  }

  lemma {:induction false} SnocPieces(pieces: seq<Piece>, piece: Piece, first: int)
    ensures Weight(pieces + [piece]) == Weight(pieces) + match piece case Line(_) => 1 case Elided(count) => count
    ensures ReadBack(pieces + [piece], first) ==
      ReadBack(pieces, first) + match piece case Line(text) => [(first + Weight(pieces), text)] case Elided(_) => []
  {
    assert (pieces + [piece])[..|pieces|] == pieces;
  }

  /** Nothing is lost or miscounted: kept lines plus elided counts make up the kept span, and reading the
      rendering back from the first kept position gives every kept line at its own position, in order. */
  lemma {:induction false} RenderingReadsBack(lines: seq<string>, keep: set<int>, n: nat)
    requires n <= |lines|
    ensures Weight(Pieces(lines, keep, n)) ==
      if LastKept(keep, n) == -1 then 0 else LastKept(keep, n) - FirstKept(keep, n) + 1
    ensures ReadBack(Pieces(lines, keep, n), FirstKept(keep, n)) == KeptLines(lines, keep, n)
    ensures LastKept(keep, n) == -1 ==> Pieces(lines, keep, n) == []
  {
    hide Weight, ReadBack, AddLine;
    NoPieces(FirstKept(keep, n));
    if n > 0 {
      RenderingReadsBack(lines, keep, n - 1);
      NoPieces(FirstKept(keep, n - 1));
      if n - 1 in keep {
        ReadsOneMore(Pieces(lines, keep, n - 1), LastKept(keep, n - 1), FirstKept(keep, n), n - 1, lines[n - 1]);
      }
    }
  }

  lemma {:induction false} NoPieces(first: int)
    ensures Weight([]) == 0 && ReadBack([], first) == []
  {
  }

  lemma {:induction false} ReadsOneMore(before: seq<Piece>, prev: int, first: int, at: int, line: string)
    requires -1 <= prev < at && (prev == -1 ==> before == [] && first == at)
    requires prev != -1 ==> Weight(before) == prev - first + 1
    ensures var after := AddLine(before, prev, at, line);
      Weight(after) == at - first + 1 && ReadBack(after, first) == ReadBack(before, first) + [(at, line)]
  {
    hide Weight, ReadBack;
    NoPieces(first);
    if prev != -1 && at > prev + 1 {
      SnocPieces(before, Elided(at - prev - 1), first);
      SnocPieces(before + [Elided(at - prev - 1)], Line(line), first);
    } else {
      SnocPieces(before, Line(line), first);
    }
  }

  /** One marker per internal gap: each stands between two lines and counts at least one. */
  lemma {:induction false} MarkersStandInGaps(lines: seq<string>, keep: set<int>, n: nat)
    requires n <= |lines|
    ensures var p := Pieces(lines, keep, n);
      && (p != [] ==> p[0].Line? && p[|p| - 1].Line?)
      && (LastKept(keep, n) == -1 <==> p == [])
      && forall j :: 0 <= j < |p| && p[j].Elided? ==>
           0 < j < |p| - 1 && p[j].count > 0 && p[j - 1].Line? && p[j + 1].Line?
  {
    if n > 0 { MarkersStandInGaps(lines, keep, n - 1); }
  }

  lemma {:induction false} KeepAll(lines: seq<string>, keep: set<int>, n: nat)
    requires n <= |lines| && forall k :: 0 <= k < n ==> k in keep
    ensures |Pieces(lines, keep, n)| == n && forall k :: 0 <= k < n ==> Pieces(lines, keep, n)[k] == Line(lines[k])
  {
    if n > 0 { KeepAll(lines, keep, n - 1); }
  }

  /** With every line kept the rendering is the text itself. */
  lemma {:induction false} NothingElided(text: string, keep: set<int>)
    requires forall k :: 0 <= k < |SplitLines(text)| ==> k in keep
    ensures Rendered(SplitLines(text), keep) == text
  {
    var lines := SplitLines(text);
    KeepAll(lines, keep, |lines|);
    var pieces := Pieces(lines, keep, |lines|);
    assert seq(|pieces|, k requires 0 <= k < |pieces| => Show(pieces[k])) == lines;
    JoinOfSplit(text);
  }

  lemma {:induction false} OneLine(line: string)
    requires '\n' !in line
    ensures SplitLines(line) == [line]
  {
    if line != "" {
      OneLine(line[1..]);
      assert line == [line[0]] + line[1..];
    }
  }

  lemma {:induction false} LineThenRest(line: string, rest: string)
    requires '\n' !in line
    ensures SplitLines(line + "\n" + rest) == [line] + SplitLines(rest)
  {
    var text := line + "\n" + rest;
    if line == "" {
      assert text[0] == '\n' && text[1..] == rest;
    } else {
      assert text[0] == line[0] && text[1..] == line[1..] + "\n" + rest;
      LineThenRest(line[1..], rest);
      assert line == [line[0]] + line[1..] && ([line[1..]] + SplitLines(rest))[1..] == SplitLines(rest);
    }
  }

  /** Lines without line feeds, joined, split into themselves. */
  lemma {:induction false} SplitOfJoined(lines: seq<string>)
    requires lines != [] && forall l <- lines :: '\n' !in l
    ensures SplitLines(JoinLines(lines)) == lines
  {
    if |lines| == 1 {
      OneLine(lines[0]);
    } else {
      SplitOfJoined(lines[1..]);
      LineThenRest(lines[0], JoinLines(lines[1..]));
      assert lines == [lines[0]] + lines[1..];
    }
  }

  /** The text of a rendering, taken line by line, is what its pieces show, in their order. */
  lemma {:induction false} TextShowsThePieces(lines: seq<string>, keep: set<int>)
    requires forall l <- lines :: '\n' !in l
    ensures var pieces, text := Pieces(lines, keep, |lines|), Rendered(lines, keep);
      if pieces == [] then text == ""
      else |SplitLines(text)| == |pieces| && forall k :: 0 <= k < |pieces| ==> SplitLines(text)[k] == Show(pieces[k])
  {
    var pieces := Pieces(lines, keep, |lines|);
    var shown := seq(|pieces|, k requires 0 <= k < |pieces| => Show(pieces[k]));
    if pieces != [] {
      forall k | 0 <= k < |shown| ensures '\n' !in shown[k] { ShownOnOneLine(lines, keep, |lines|, k); }
      SplitOfJoined(shown);
    }
  }

  lemma {:induction false} ShownOnOneLine(lines: seq<string>, keep: set<int>, n: nat, k: nat)
    requires n <= |lines| && (forall l <- lines :: '\n' !in l) && k < |Pieces(lines, keep, n)|
    ensures '\n' !in Show(Pieces(lines, keep, n)[k])
  {
    hide Show;
    var before := if n > 0 then Pieces(lines, keep, n - 1) else [];
    if k < |before| {
      ShownOnOneLine(lines, keep, n - 1, k);
    } else if Pieces(lines, keep, n)[k].Elided? {
      MarkerOnOneLine(Pieces(lines, keep, n)[k].count);
    } else {
      LineShown(lines[n - 1]);
      assert lines[n - 1] in lines;
    }
  }

  lemma {:induction false} LineShown(line: string)
    ensures Show(Line(line)) == line
  {
  }

  lemma {:induction false} MarkerOnOneLine(count: nat)
    ensures '\n' !in Show(Elided(count))
  {
    DigitsReadBack(count);
    assert '\n' !in "... [" && '\n' !in " lines elided by analyzer] ...";
    hide Digits;
    assert Show(Elided(count)) == "... [" + Digits(count) + " lines elided by analyzer] ...";
  }

  // ----- shrinking -------------------------------------------------------------

  datatype Windows = Windows(head: nat, tail: nat, rootLen: nat)

  function Widest(root: Option<Block>): Windows {
    Windows(HEAD_LINES, TAIL_LINES, if root.Some? && root.value.start <= root.value.end then
      root.value.end - root.value.start else 0)
  }

  predicate Minimal(w: Windows) { w.tail == 0 && w.head == 0 && w.rootLen <= 1 }

  /** Tail first, then head, then the root block from its end. */
  function Shrink(w: Windows): Windows
    requires !Minimal(w)
  {
    if w.tail > 0 then w.(tail := w.tail - 1)
    else if w.head > 0 then w.(head := w.head - 1)
    else w.(rootLen := w.rootLen - 1)
  }

  function Range(lo: int, hi: int): (r: set<int>)
    ensures forall i :: i in r <==> lo <= i < hi
    decreases hi - lo
  {
    if lo >= hi then {} else Range(lo, hi - 1) + {hi - 1}
  }

  function Keep(n: nat, root: Option<Block>, w: Windows): set<int> {
    Range(0, MinInt(w.head, n)) + Range(MaxInt(n - w.tail, 0), n) +
    (if root.Some? then Range(root.value.start, root.value.start + w.rootLen) else {})
  }

  function Excerpted(lines: seq<string>, root: Option<Block>, w: Windows): string {
    Rendered(lines, Keep(|lines|, root, w))
  }

  predicate Fits(text: string, maxTokens: int) { EstimateTokens(text) <= maxTokens }

  function FirstFit(lines: seq<string>, root: Option<Block>, w: Windows, maxTokens: int): string
    decreases w.head + w.tail + w.rootLen
  {
    if Fits(Excerpted(lines, root, w), maxTokens) || Minimal(w) then Excerpted(lines, root, w)
    else FirstFit(lines, root, Shrink(w), maxTokens)
  }

  /** The line numbers to keep, window by window. */
  method KeepSet(n: nat, block: Option<Block>, head: nat, tail: nat, rootLen: nat) returns (keep: set<int>)
    ensures keep == Keep(n, block, Windows(head, tail, rootLen))
  {
    keep := {};
    if head > 0 { keep := keep + Range(0, MinInt(head, n)); }
    if tail > 0 { keep := keep + Range(MaxInt(n - tail, 0), n); }
    if block.Some? && rootLen > 0 {
      keep := keep + Range(block.value.start, block.value.start + rootLen);
    }
  }

  lemma {:induction false} FirstFitStep(lines: seq<string>, root: Option<Block>, w: Windows, maxTokens: int)
    ensures FirstFit(lines, root, w, maxTokens) ==
      if Fits(Excerpted(lines, root, w), maxTokens) || Minimal(w) then Excerpted(lines, root, w)
      else FirstFit(lines, root, Shrink(w), maxTokens)
  {
  }

  method MiddleOut(p: Patterns, text: string, maxTokens: int) returns (r: string, ghost root: Option<Block>)
    ensures Fits(text, maxTokens) ==> r == text
    ensures !Fits(text, maxTokens) ==> r == FirstFit(SplitLines(text), root, Widest(root), maxTokens)
    ensures !Fits(text, maxTokens) && root.Some? ==> IsRootBlock(p, SplitLines(text), root.value)
    ensures !Fits(text, maxTokens) && root.None? ==>
      forall k :: 0 <= k < |SplitLines(text)| ==> !p.causedBy(SplitLines(text)[k]) && !p.header(SplitLines(text)[k])
  {
    hide Rendered, IsRootBlock, FirstFit, Keep;
    root := None;
    if EstimateTokens(text) <= maxTokens { return text, None; }
    var lines := SplitLines(text);
    var n := |lines|;
    var block := RootBlockBounds(p, lines);
    root := block;
    var head, tail := HEAD_LINES, TAIL_LINES;
    var rootLen := 0;
    if block.Some? {
      BlockIsOrdered(p, lines, block.value);
      rootLen := block.value.end - block.value.start;
    }
    while true
      invariant head >= 0 && tail >= 0 && rootLen >= 0 && (block.None? ==> rootLen == 0)
      invariant FirstFit(lines, block, Windows(head, tail, rootLen), maxTokens) ==
        FirstFit(lines, block, Widest(block), maxTokens)
      decreases head + tail + rootLen
    {
      var keep := KeepSet(n, block, head, tail, rootLen);
      r := Render(lines, keep);
      FirstFitStep(lines, block, Windows(head, tail, rootLen), maxTokens);
      if EstimateTokens(r) <= maxTokens { return; }
      if tail > 0 {
        tail := tail - 1;
      } else if head > 0 {
        head := head - 1;
      } else if rootLen > 1 {
        rootLen := rootLen - 1;
      } else {
        return;
      }
    }
  }

  lemma {:induction false} BlockIsOrdered(p: Patterns, lines: seq<string>, b: Block)
    requires IsRootBlock(p, lines, b)
    ensures b.start < b.end <= |lines|
  {
  }

  // ----- what is returned ------------------------------------------------------

  /** The `k`-th configuration tried; the last one stays. */
  function Step(w: Windows, k: nat): Windows {
    if k == 0 then w
    else
      var v := Step(w, k - 1);
      if Minimal(v) then v else Shrink(v)
  }

  lemma {:induction false} StepOfShrink(w: Windows, k: nat)
    requires !Minimal(w)
    ensures Step(w, k + 1) == Step(Shrink(w), k)
  {
    if k > 0 { StepOfShrink(w, k - 1); }
  }

  /** The result is the first configuration in shrink order that fits, or else the minimal one. */
  lemma {:induction false} FirstFitIsFirst(lines: seq<string>, root: Option<Block>, w: Windows, maxTokens: int)
      returns (k: nat)
    ensures FirstFit(lines, root, w, maxTokens) == Excerpted(lines, root, Step(w, k))
    ensures Fits(Excerpted(lines, root, Step(w, k)), maxTokens) || Minimal(Step(w, k))
    ensures forall j :: 0 <= j < k ==> !Fits(Excerpted(lines, root, Step(w, j)), maxTokens)
    ensures k <= w.head + w.tail + w.rootLen
    decreases w.head + w.tail + w.rootLen
  {
    hide Excerpted;
    if Fits(Excerpted(lines, root, w), maxTokens) || Minimal(w) {
      k := 0;
    } else {
      k := FirstFitIsFirst(lines, root, Shrink(w), maxTokens);
      StepOfShrink(w, k);
      k := k + 1;
      forall j | 0 <= j < k ensures !Fits(Excerpted(lines, root, Step(w, j)), maxTokens) {
        if j > 0 { StepOfShrink(w, j - 1); }
      }
    }
  }

  /** The order of sacrifice: a shorter head means no tail, a shorter root block means neither. */
  lemma {:induction false} SacrificeOrder(w: Windows, k: nat)
    ensures var v := Step(w, k);
      && v.tail <= w.tail && v.head <= w.head && v.rootLen <= w.rootLen
      && (v.head < w.head ==> v.tail == 0)
      && (v.rootLen < w.rootLen ==> v.tail == 0 && v.head == 0)
      && (w.rootLen > 0 ==> v.rootLen > 0)
  {
    if k > 0 { SacrificeOrder(w, k - 1); }
  }

  /** The k-th configuration outright: k lines off the tail, then off the head, then off the root block down to
      its first line. */
  lemma {:induction false} StepClosedForm(w: Windows, k: nat)
    ensures var past := k - w.tail - w.head;
      Step(w, k) ==
        if k <= w.tail then w.(tail := w.tail - k)
        else if past <= 0 then w.(tail := 0, head := -past)
        else Windows(0, 0, if w.rootLen <= 1 then w.rootLen else if w.rootLen - past < 1 then 1 else w.rootLen - past)
  {
    if k > 0 { StepClosedForm(w, k - 1); }
  }

  /** Any configuration keeps the lines in its windows and no other. */
  lemma {:induction false} KeepsItsWindows(n: nat, root: Option<Block>, w: Windows, i: int)
    ensures i in Keep(n, root, w) <==>
      || (0 <= i < n && (i < w.head || i >= n - w.tail))
      || (root.Some? && root.value.start <= i < root.value.start + w.rootLen)
  {
  }

  /** The first configuration keeps the first 15 lines, the last 10, the root block, and nothing else. */
  lemma {:induction false} FirstTryKeeps(p: Patterns, lines: seq<string>, root: Option<Block>, i: int)
    requires root.Some? ==> IsRootBlock(p, lines, root.value)
    ensures i in Keep(|lines|, root, Widest(root)) <==>
      && 0 <= i < |lines|
      && (i < 15 || i >= |lines| - 10 || (root.Some? && root.value.start <= i < root.value.end))
  {
  }

  /** Every excerpt tried keeps the root block whole unless both windows are gone, and its first line always. */
  lemma {:induction false} RootBlockIsKept(p: Patterns, lines: seq<string>, b: Block, k: nat)
    requires IsRootBlock(p, lines, b)
    ensures var v := Step(Widest(Some(b)), k);
      var keep := Keep(|lines|, Some(b), v);
      && b.start in keep
      && (v.head > 0 || v.tail > 0 ==> forall i :: b.start <= i < b.end ==> i in keep)
      && forall i | i in keep :: 0 <= i < |lines|
  {
    SacrificeOrder(Widest(Some(b)), k);
  }

  /** Over budget exactly when nothing fits, down to the minimal excerpt. */
  lemma {:induction false} OverBudgetIff(lines: seq<string>, root: Option<Block>, w: Windows, maxTokens: int)
    ensures Fits(FirstFit(lines, root, w, maxTokens), maxTokens) <==>
      exists k: nat :: Fits(Excerpted(lines, root, Step(w, k)), maxTokens)
  {
    hide Excerpted, Fits;
    var k := FirstFitIsFirst(lines, root, w, maxTokens);
    if j: nat :| Fits(Excerpted(lines, root, Step(w, j)), maxTokens) {
      if j > k && Minimal(Step(w, k)) { StaysMinimal(w, k, j); }
    }
  }

  lemma {:induction false} StaysMinimal(w: Windows, k: nat, j: nat)
    requires Minimal(Step(w, k)) && k <= j
    ensures Step(w, j) == Step(w, k)
  {
    if k < j { StaysMinimal(w, k, j - 1); }
  }
}
