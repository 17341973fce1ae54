/**
 What the units of a page are (`parent_child_units` in `src/geek_crawler_rag/chunk.py`): every text fits its own
 size, the children of a parent are its child windows, and none of the parent's tokens is missing from them.
 */
module UnitProofs {
  import opened Wrappers
  import opened Text
  import opened BlockText
  import opened Chunking
  import opened ChunkingProofs

  /** `kids` are, in order and without a gap, the children of all units that carry parent index `k`. */
  ghost predicate Family(units: seq<Unit>, f: nat, kids: seq<string>, parent: string, k: nat) {
    && f + |kids| <= |units|
    && (forall i | f <= i < f + |kids| ::
          units[i].parentIndex == k && units[i].parentText == parent && units[i].childText == kids[i - f])
    && (forall i | 0 <= i < |units| && units[i].parentIndex == k :: f <= i < f + |kids|)
  }

  predicate IndexFree(units: seq<Unit>, k: nat) {
    forall i | 0 <= i < |units| :: units[i].parentIndex != k
  }

  predicate FirstOfParent(units: seq<Unit>, i: nat)
    requires i < |units|
  {
    i == 0 || units[i - 1].parentIndex != units[i].parentIndex
  }

  predicate LastOfParent(units: seq<Unit>, i: nat)
    requires i < |units|
  {
    i + 1 == |units| || units[i + 1].parentIndex != units[i].parentIndex
  }

  lemma FamilyMember(units: seq<Unit>, f: nat, kids: seq<string>, parent: string, k: nat, j: nat)
    requires Family(units, f, kids, parent, k) && j < |kids|
    ensures f + j < |units| && units[f + j].parentIndex == k && units[f + j].childText == kids[j]
  {
  }

  /** The unit before a family and the one behind it belong to others. */
  lemma FamilyEnds(units: seq<Unit>, f: nat, kids: seq<string>, parent: string, k: nat, i: nat, j: nat)
    requires Family(units, f, kids, parent, k) && i + j < |units| && units[i].parentIndex == k
    requires units[i + j].parentIndex == k && FirstOfParent(units, i)
    ensures i == f && j < |kids| && units[f + j].childText == kids[j]
    ensures LastOfParent(units, i + j) <==> j + 1 == |kids|
  {
    FamilyMember(units, f, kids, parent, k, i - f);
    if j + 1 < |kids| {
      FamilyMember(units, f, kids, parent, k, j + 1);
    }
  }

  lemma FamilyBefore(units: seq<Unit>, f: nat, kids: seq<string>, parent: string, k: nat, more: seq<Unit>)
    requires Family(units, f, kids, parent, k) && IndexFree(more, k)
    ensures Family(units + more, f, kids, parent, k)
  {
    var all := units + more;
    assert forall i | |units| <= i < |all| :: all[i] == more[i - |units|];
    forall i | 0 <= i < |all| && all[i].parentIndex == k ensures f <= i < f + |kids| {
      assert i < |units|;
    }
  }

  lemma FamilyBehind(some: seq<Unit>, units: seq<Unit>, f: nat, kids: seq<string>, parent: string, k: nat)
    requires Family(units, f, kids, parent, k) && IndexFree(some, k)
    ensures Family(some + units, |some| + f, kids, parent, k)
  {
    var all := some + units;
    forall i | 0 <= i < |all| && all[i].parentIndex == k ensures |some| + f <= i < |some| + f + |kids| {
      if i >= |some| { assert all[i] == units[i - |some|]; }
    }
    forall i | |some| + f <= i < |some| + f + |kids|
      ensures all[i].parentIndex == k && all[i].parentText == parent && all[i].childText == kids[i - |some| - f]
    {
      assert all[i] == units[i - |some|];
    }
  }

  lemma FamilyOfOne(title: Option<string>, parent: string, kids: seq<string>, p: nat, c: nat)
    ensures Family(Numbered(title, parent, kids, p, c), 0, kids, parent, p)
  {
  }

  lemma ParentIndexesFrom(tok: Tokenizer, title: Option<string>, parents: seq<string>, sizes: Sizes, p: nat, c: nat,
                          k: nat)
    requires ValidTokenizer(tok) && ParentUnits(tok, title, parents, sizes, p, c).Ok?
    requires k < p || k >= p + |parents|
    ensures IndexFree(ParentUnits(tok, title, parents, sizes, p, c).value, k)
  {
    hide ParentUnits, Contains, IsSpace;
    var units := ParentUnits(tok, title, parents, sizes, p, c).value;
    forall i | 0 <= i < |units| ensures units[i].parentIndex != k {
      ParentUnitsNested(tok, title, parents, sizes, p, c, i);
    }
  }

  lemma SectionIndexesFrom(tok: Tokenizer, sections: seq<Section>, sizes: Sizes, p: nat, c: nat, k: nat)
    requires ValidTokenizer(tok) && SectionUnits(tok, sections, sizes, p, c).Ok? && k < p
    ensures IndexFree(SectionUnits(tok, sections, sizes, p, c).value, k)
  {
    hide SectionUnits, IsSpace, AllParents;
    var units := SectionUnits(tok, sections, sizes, p, c).value;
    forall i | 0 <= i < |units| ensures units[i].parentIndex != k {
      UnitNamesItsParent(tok, sections, sizes, p, c, i);
    }
  }

  /** What the children of a parent are made from. */
  ghost predicate ChildrenAt(tok: Tokenizer, units: seq<Unit>, f: nat, u: Unit, sizes: Sizes)
    requires ValidTokenizer(tok)
  {
    ChildTexts(tok, u.parentText, sizes).Ok?
    && Family(units, f, ChildTexts(tok, u.parentText, sizes).value, u.parentText, u.parentIndex)
  }

  lemma {:induction false} ParentFamily(tok: Tokenizer, title: Option<string>, parents: seq<string>, sizes: Sizes,
                                        p: nat, c: nat, i: nat)
    returns (f: nat)
    requires ValidTokenizer(tok) && ParentUnits(tok, title, parents, sizes, p, c).Ok?
    requires i < |ParentUnits(tok, title, parents, sizes, p, c).value|
    ensures var units := ParentUnits(tok, title, parents, sizes, p, c).value;
            ChildrenAt(tok, units, f, units[i], sizes) && units[i].parentText in parents
    decreases |parents|
  {
    hide IsSpace, ChildTexts, Family, IndexFree, Numbered;
    var kids := ChildTexts(tok, parents[0], sizes).value;
    var here := Numbered(title, parents[0], kids, p, c);
    var after := ParentUnits(tok, title, parents[1..], sizes, p + 1, c + |kids|).value;
    var units := ParentUnits(tok, title, parents, sizes, p, c).value;
    assert units == here + after;
    NumberedAre(title, parents[0], kids, p, c);
    if i < |here| {
      f := 0;
      FamilyOfOne(title, parents[0], kids, p, c);
      ParentIndexesFrom(tok, title, parents[1..], sizes, p + 1, c + |kids|, p);
      FamilyBefore(here, 0, kids, parents[0], p, after);
      assert units[i] == here[i];
    } else {
      var g := ParentFamily(tok, title, parents[1..], sizes, p + 1, c + |kids|, i - |here|);
      var u := after[i - |here|];
      ParentUnitsNested(tok, title, parents[1..], sizes, p + 1, c + |kids|, i - |here|);
      OthersFree(here, p, u.parentIndex);
      FamilyBehind(here, after, g, ChildTexts(tok, u.parentText, sizes).value, u.parentText, u.parentIndex);
      f := |here| + g;
    }
  }

  lemma NumberedAre(title: Option<string>, parent: string, kids: seq<string>, p: nat, c: nat)
    ensures var units := Numbered(title, parent, kids, p, c);
            |units| == |kids|
            && forall i | 0 <= i < |units| :: units[i].parentIndex == p && units[i].parentText == parent
  {
  }

  lemma OthersFree(units: seq<Unit>, p: nat, k: nat)
    requires p != k && forall i | 0 <= i < |units| :: units[i].parentIndex == p
    ensures IndexFree(units, k)
  {
  }

  /** Within the model's limit with the special tokens added, where the limit leaves room for any content. */
  predicate InLimit(tok: Tokenizer, text: string) {
    tok.sequenceLimit > tok.overhead ==> |tok.spans(text)| + tok.overhead <= tok.sequenceLimit
  }

  /** A parent is a chunk: trimmed, not blank, and within the parents' size. */
  ghost predicate FitsAsParent(tok: Tokenizer, parent: string, sizes: Sizes) {
    parent != "" && Strip(parent) == parent && |tok.spans(parent)| <= sizes.parentSize && InLimit(tok, parent)
  }

  lemma ChunkTrimmed(tok: Tokenizer, text: string, size: int, overlap: int, chunk: string)
    requires ValidTokenizer(tok)
    requires Chunks(tok, text, size, overlap).Ok? && chunk in Chunks(tok, text, size, overlap).value
    ensures Strip(chunk) == chunk
  {
    hide IsSpace, Strip, Windows, ValidSpans, Pieces;
    var cleaned := Strip(text);
    var spans := tok.spans(cleaned);
    var windows := Windows(tok, cleaned, spans, 0, size, overlap);
    PiecesSource(windows);
    var w :| w in windows && w.piece == chunk;
    WindowsGood(tok, cleaned, spans, 0, size, overlap, w);
    StripIdempotent(cleaned[spans[w.start].lo..spans[w.end - 1].hi]) by {
      SpanOrder(cleaned, spans, w.start, w.end - 1);
    }
  }

  lemma {:induction false} UnitFamily(tok: Tokenizer, sections: seq<Section>, sizes: Sizes, p: nat, c: nat, i: nat)
    returns (f: nat)
    requires ValidTokenizer(tok) && SectionUnits(tok, sections, sizes, p, c).Ok?
    requires i < |SectionUnits(tok, sections, sizes, p, c).value|
    ensures var units := SectionUnits(tok, sections, sizes, p, c).value;
            ChildrenAt(tok, units, f, units[i], sizes) && FitsAsParent(tok, units[i].parentText, sizes)
    decreases |sections|
  {
    hide IsSpace, Chunks, ChildTexts, ParentUnits, Family, IndexFree, Strip, Contains;
    var s := sections[0];
    var parents := Chunks(tok, s.text, sizes.parentSize, sizes.parentOverlap).value;
    var here := ParentUnits(tok, s.title, parents, sizes, p, c).value;
    var after := SectionUnits(tok, sections[1..], sizes, p + |parents|, c + |here|).value;
    assert SectionUnits(tok, sections, sizes, p, c).value == here + after;
    if i < |here| {
      f := ParentFamily(tok, s.title, parents, sizes, p, c, i);
      var u := here[i];
      ChunkFits(tok, s.text, sizes.parentSize, sizes.parentOverlap, u.parentText);
      ChunkTrimmed(tok, s.text, sizes.parentSize, sizes.parentOverlap, u.parentText);
      ParentUnitsNested(tok, s.title, parents, sizes, p, c, i);
      SectionIndexesFrom(tok, sections[1..], sizes, p + |parents|, c + |here|, u.parentIndex);
      FamilyBefore(here, f, ChildTexts(tok, u.parentText, sizes).value, u.parentText, u.parentIndex, after);
    } else {
      var g := UnitFamily(tok, sections[1..], sizes, p + |parents|, c + |here|, i - |here|);
      var u := after[i - |here|];
      UnitNamesItsParent(tok, sections[1..], sizes, p + |parents|, c + |here|, i - |here|);
      ParentIndexesFrom(tok, s.title, parents, sizes, p, c, u.parentIndex);
      FamilyBehind(here, after, g, ChildTexts(tok, u.parentText, sizes).value, u.parentText, u.parentIndex);
      f := |here| + g;
    }
  }

  // ---- Every text fits ----

  /** The token a text's window `k` starts at. */
  function Stride(k: nat, step: nat): nat {
    Positive(k, step);
    k * step
  }

  /** Wherever a window of `size` could start, not even one token of the text measures within it. */
  ghost predicate NothingFits(tok: Tokenizer, text: string, size: int, step: nat)
    requires ValidTokenizer(tok)
  {
    forall k: nat | Stride(k, step) < |tok.spans(text)| ::
      |tok.spans(Slice(text, tok.spans(text), Stride(k, step), Stride(k, step) + 1))| > size
  }

  lemma BlankWindow(tok: Tokenizer, text: string, spans: seq<Span>, start: nat, size: nat)
    requires ValidSpans(text, spans) && start < |spans| && size > 0
    requires WindowAt(tok, text, spans, start, size).piece == ""
    ensures WindowAt(tok, text, spans, start, size).end == start + 1
    ensures |tok.spans(Slice(text, spans, start, start + 1))| > size
  {
    hide IsSpace, Strip, Slice, Fit, ValidSpans, Contains;
    var stop := if start + size < |spans| then start + size else |spans|;
    FitBlank(tok, text, spans, start, stop, size);
    FitIsLongest(tok, text, spans, start, stop, size, start + 1);
  }

  lemma {:induction false} FitBlank(tok: Tokenizer, text: string, spans: seq<Span>, start: nat, end: nat, size: int)
    requires ValidSpans(text, spans) && start <= end <= |spans|
    ensures var (piece, last) := Fit(tok, text, spans, start, end, size); piece == "" ==> last == start + 1
    decreases end
  {
    hide IsSpace, Strip, Slice, Contains;
    if end > start {
      FitStep(tok, text, spans, start, end, size);
      SliceHoldsToken(text, spans, start, end, start);
      FitBlank(tok, text, spans, start, end - 1, size);
    }
  }

  lemma NoPieceSplit(tok: Tokenizer, text: string, spans: seq<Span>, start: nat, size: nat, overlap: nat)
    requires ValidSpans(text, spans) && overlap < size && start < |spans|
    requires Pieces(Windows(tok, text, spans, start, size, overlap)) == []
    ensures WindowAt(tok, text, spans, start, size).piece == ""
    ensures WindowAt(tok, text, spans, start, size).end < |spans|
        ==> Pieces(Windows(tok, text, spans, start + (size - overlap), size, overlap)) == []
  {
    hide ValidSpans, WindowAt;
    WindowsStep(tok, text, spans, start, size, overlap, []);
  }

  lemma {:induction false} NoPieceAt(tok: Tokenizer, text: string, spans: seq<Span>, start: nat, size: nat,
                                     overlap: nat, k: nat)
    requires ValidSpans(text, spans) && overlap < size
    requires Pieces(Windows(tok, text, spans, start, size, overlap)) == []
    requires start + Stride(k, size - overlap) < |spans|
    ensures var a := start + Stride(k, size - overlap); |tok.spans(Slice(text, spans, a, a + 1))| > size
    decreases k
  {
    hide Slice, ValidSpans, WindowAt, Windows, Pieces, Stride;
    NoPieceSplit(tok, text, spans, start, size, overlap);
    BlankWindow(tok, text, spans, start, size);
    StrideSteps(k, size - overlap);
    if k > 0 {
      NoPieceAt(tok, text, spans, start + (size - overlap), size, overlap, k - 1);
    }
  }

  lemma Positive(k: nat, step: nat)
    ensures k * step >= 0
  {
  }

  lemma StrideSteps(k: nat, step: nat)
    ensures Stride(k, step) == if k == 0 then 0 else step + Stride(k - 1, step)
  {
    if k > 0 {
      OneStepMore(k, step);
    }
  }

  lemma SizesInRange(sizes: Sizes)
    requires SizesError(sizes).None?
    ensures 0 <= sizes.childOverlap < sizes.childSize && 0 <= sizes.parentOverlap < sizes.parentSize
  {
  }

  /** A parent that is its own child is one nothing of which fits. */
  lemma OwnChild(tok: Tokenizer, parent: string, sizes: Sizes)
    requires ValidTokenizer(tok) && SizesError(sizes).None? && Strip(parent) == parent != ""
    requires Chunks(tok, parent, sizes.childSize, sizes.childOverlap) == Ok([])
    ensures NothingFits(tok, parent, sizes.childSize, sizes.childSize - sizes.childOverlap)
  {
    hide IsSpace, Strip, Slice, ValidSpans, Windows, Pieces, Stride;
    SizesInRange(sizes);
    var size: nat, overlap: nat := sizes.childSize, sizes.childOverlap;
    var step: nat, spans := size - overlap, tok.spans(parent);
    forall k: nat | Stride(k, step) < |spans|
      ensures |tok.spans(Slice(parent, spans, Stride(k, step), Stride(k, step) + 1))| > size
    {
      NoPieceAt(tok, parent, spans, 0, size, overlap, k);
    }
  }

  /**
   Every text fits: a parent measures within the parents' size, a child within the children's or it is the whole
   of a parent nothing of which fits. Neither is ever too long for the model.
   */
  lemma UnitFits(tok: Tokenizer, tables: CharTables, blocks: seq<Block>, sizes: Sizes, i: nat)
    requires ValidTokenizer(tok)
    requires Units(tok, tables, blocks, sizes).Ok? && i < |Units(tok, tables, blocks, sizes).value|
    ensures var u := Units(tok, tables, blocks, sizes).value[i];
            && u.parentText != "" && |tok.spans(u.parentText)| <= sizes.parentSize
            && u.childText != "" && InLimit(tok, u.parentText) && InLimit(tok, u.childText)
            && (|tok.spans(u.childText)| <= sizes.childSize
                || (u.childText == u.parentText
                    && NothingFits(tok, u.parentText, sizes.childSize, sizes.childSize - sizes.childOverlap)))
  {
    hide IsSpace, Strip, Sections, SectionUnits, NothingFits, Chunks, Contains;
    var units := Units(tok, tables, blocks, sizes).value;
    var u := units[i];
    var f := UnitFamily(tok, Sections(tables, blocks), sizes, 0, 0, i);
    var kids := ChildTexts(tok, u.parentText, sizes).value;
    assert u.childText == kids[i - f];
    if Chunks(tok, u.parentText, sizes.childSize, sizes.childOverlap) == Ok([]) {
      OwnChild(tok, u.parentText, sizes);
    } else {
      ChunkFits(tok, u.parentText, sizes.childSize, sizes.childOverlap, u.childText);
    }
  }

  // ---- The children of a parent ----

  /** Re-measuring any run of the parent's tokens finds at most `d` more. */
  ghost predicate SteadyParent(tok: Tokenizer, parent: string, d: int)
    requires ValidTokenizer(tok)
  {
    0 <= d && DriftAtMost(tok, parent, tok.spans(parent), d)
  }

  predicate ChildHolds(units: seq<Unit>, k: nat, text: string) {
    exists i | 0 <= i < |units| :: units[i].parentIndex == k && Contains(units[i].childText, text)
  }

  /** While drift stays within the children's overlap, every token of a parent is in one of its own children. */
  lemma NoTokenOfParentLost(tok: Tokenizer, tables: CharTables, blocks: seq<Block>, sizes: Sizes, i: nat, t: nat)
    requires ValidTokenizer(tok)
    requires Units(tok, tables, blocks, sizes).Ok? && i < |Units(tok, tables, blocks, sizes).value|
    requires var parent := Units(tok, tables, blocks, sizes).value[i].parentText;
             SteadyParent(tok, parent, sizes.childOverlap) && t < |tok.spans(parent)|
    ensures var units := Units(tok, tables, blocks, sizes).value;
            var parent := units[i].parentText;
            ChildHolds(units, units[i].parentIndex, Slice(parent, tok.spans(parent), t, t + 1))
  {
    hide IsSpace, Strip, Sections, SectionUnits, Chunks, Contains, Slice, DriftAtMost, Covered, ValidSpans;
    var units := Units(tok, tables, blocks, sizes).value;
    var u := units[i];
    var f := UnitFamily(tok, Sections(tables, blocks), sizes, 0, 0, i);
    var kids := ChildTexts(tok, u.parentText, sizes).value;
    NoTokenLost(tok, u.parentText, sizes.childSize, sizes.childOverlap, t);
    var token := Slice(u.parentText, tok.spans(u.parentText), t, t + 1);
    var chunk :| chunk in Chunks(tok, u.parentText, sizes.childSize, sizes.childOverlap).value
               && Contains(chunk, token);
    assert chunk in kids;
    var j :| 0 <= j < |kids| && kids[j] == chunk;
    assert units[f + j].childText == chunk;
  }

  /** `child` is tokens `a` up to `e` of the text, the longest such run of at most `size` that measures within it. */
  ghost predicate LongestFrom(tok: Tokenizer, text: string, a: nat, e: nat, size: int, child: string)
    requires ValidTokenizer(tok)
  {
    var spans := tok.spans(text);
    && a < e <= |spans| && e <= a + size
    && child == Slice(text, spans, a, e) && |tok.spans(child)| <= size
    && forall longer | e < longer <= |spans| && longer <= a + size ::
         |tok.spans(Slice(text, spans, a, longer))| > size
  }

  /** A parent's windows yield every one of them while drift stays within the overlap. */
  lemma YieldingWindow(tok: Tokenizer, text: string, start: nat, size: nat, overlap: nat)
    requires ValidTokenizer(tok) && overlap < size && start < |tok.spans(text)|
    requires DriftAtMost(tok, text, tok.spans(text), overlap)
    ensures var w := WindowAt(tok, text, tok.spans(text), start, size);
            && w.start == start && w.piece != "" && LongestFrom(tok, text, start, w.end, size, w.piece)
            && (w.end < |tok.spans(text)| ==> start + (size - overlap) <= w.end)
  {
    hide IsSpace, Strip, Slice, Fit, DriftAtMost;
    var spans := tok.spans(text);
    var stop := if start + size < |spans| then start + size else |spans|;
    FitShrinksByDrift(tok, text, spans, start, stop, size, overlap);
    FitSlice(tok, text, spans, start, stop, size);
    var w := WindowAt(tok, text, spans, start, size);
    forall longer | w.end < longer <= |spans| && longer <= start + size
      ensures |tok.spans(Slice(text, spans, start, longer))| > size
    {
      FitIsLongest(tok, text, spans, start, stop, size, longer);
    }
  }

  lemma {:induction false} WindowsAt(tok: Tokenizer, text: string, spans: seq<Span>, start: nat, size: nat,
                                     overlap: nat, k: nat)
    requires ValidSpans(text, spans) && overlap < size
    requires k < |Windows(tok, text, spans, start, size, overlap)|
    ensures var w := Windows(tok, text, spans, start, size, overlap)[k];
            w.start < |spans| && w == WindowAt(tok, text, spans, w.start, size)
    decreases k
  {
    hide Fit, ValidSpans, WindowAt;
    WindowAtGood(tok, text, spans, start, size);
    if k > 0 {
      var rest := Windows(tok, text, spans, start + (size - overlap), size, overlap);
      WindowsAt(tok, text, spans, start + (size - overlap), size, overlap, k - 1);
      assert Windows(tok, text, spans, start, size, overlap)[k] == rest[k - 1];
    }
  }

  lemma {:induction false} AllPieces(windows: seq<Window>)
    requires forall k | 0 <= k < |windows| :: windows[k].piece != ""
    ensures |Pieces(windows)| == |windows|
    ensures forall k | 0 <= k < |windows| :: Pieces(windows)[k] == windows[k].piece
  {
    hide IsSpace;
    if windows != [] {
      AllPieces(windows[1..]);
      forall k | 0 <= k < |windows| ensures Pieces(windows)[k] == windows[k].piece {
        if k > 0 { assert Pieces(windows)[k] == Pieces(windows[1..])[k - 1]; }
      }
    }
  }

  lemma WindowStart(tok: Tokenizer, text: string, spans: seq<Span>, size: nat, overlap: nat, k: nat)
    requires ValidSpans(text, spans) && overlap < size && k < |Windows(tok, text, spans, 0, size, overlap)|
    ensures var windows := Windows(tok, text, spans, 0, size, overlap);
            && windows[k].start == Stride(k, size - overlap)
            && (if k + 1 < |windows| then windows[k].end < |spans|
                else windows[k].end >= |spans| || windows[k].start + (size - overlap) >= |spans|)
  {
    hide Windows, ValidSpans;
    WindowsStride(tok, text, spans, 0, size, overlap, k);
  }

  lemma SteadyWindow(tok: Tokenizer, text: string, size: nat, overlap: nat, j: nat)
    requires ValidTokenizer(tok) && overlap < size
    requires DriftAtMost(tok, text, tok.spans(text), overlap)
    requires j < |Windows(tok, text, tok.spans(text), 0, size, overlap)|
    ensures var windows := Windows(tok, text, tok.spans(text), 0, size, overlap);
            var w := windows[j];
            && w.piece != "" && LongestFrom(tok, text, Stride(j, size - overlap), w.end, size, w.piece)
            && (w.end == |tok.spans(text)| <==> j + 1 == |windows|)
  {
    hide DriftAtMost, Windows, LongestFrom, WindowAt, ValidSpans, Stride;
    var spans := tok.spans(text);
    var w := Windows(tok, text, spans, 0, size, overlap)[j];
    WindowsAt(tok, text, spans, 0, size, overlap, j);
    WindowStart(tok, text, spans, size, overlap, j);
    YieldingWindow(tok, text, w.start, size, overlap);
    WithinText(tok, text, w.start, w.end, size, w.piece);
  }

  /** The chunks of a text that drifts no more than the overlap: one a step, the last one reaching the end. */
  lemma SteadyChunks(tok: Tokenizer, text: string, size: int, overlap: int, j: nat)
    requires ValidTokenizer(tok) && Strip(text) == text && Chunks(tok, text, size, overlap).Ok?
    requires j < |Chunks(tok, text, size, overlap).value| && SteadyParent(tok, text, overlap) && overlap < size
    ensures var chunks, start := Chunks(tok, text, size, overlap).value, Stride(j, size - overlap);
            exists e: nat ::
              && LongestFrom(tok, text, start, e, size, chunks[j])
              && (e == |tok.spans(text)| <==> j + 1 == |chunks|)
  {
    hide Strip, DriftAtMost, Windows, Pieces, LongestFrom, ValidSpans, Stride;
    var windows := Windows(tok, text, tok.spans(text), 0, size, overlap);
    forall k | 0 <= k < |windows| ensures windows[k].piece != "" {
      SteadyWindow(tok, text, size, overlap, k);
    }
    AllPieces(windows);
    SteadyWindow(tok, text, size, overlap, j);
    assert LongestFrom(tok, text, Stride(j, size - overlap), windows[j].end, size, windows[j].piece);
  }

  lemma WithinText(tok: Tokenizer, text: string, a: nat, e: nat, size: int, child: string)
    requires ValidTokenizer(tok) && LongestFrom(tok, text, a, e, size, child)
    ensures e <= |tok.spans(text)|
  {
  }

  /**
   Counted from a parent's first unit, child `j` starts at token `j` times the children's size less their overlap
   and runs as far as it fits; exactly the last one reaches the parent's last token.
   */
  lemma ChildrenStride(tok: Tokenizer, tables: CharTables, blocks: seq<Block>, sizes: Sizes, i: nat, j: nat)
    requires ValidTokenizer(tok)
    requires Units(tok, tables, blocks, sizes).Ok? && i + j < |Units(tok, tables, blocks, sizes).value|
    requires var units := Units(tok, tables, blocks, sizes).value;
             && FirstOfParent(units, i) && units[i + j].parentIndex == units[i].parentIndex
             && SteadyParent(tok, units[i].parentText, sizes.childOverlap) && tok.spans(units[i].parentText) != []
    ensures var units := Units(tok, tables, blocks, sizes).value;
            var parent, child := units[i].parentText, units[i + j].childText;
            var start := Stride(j, sizes.childSize - sizes.childOverlap);
            exists e: nat ::
              && LongestFrom(tok, parent, start, e, sizes.childSize, child)
              && (e == |tok.spans(parent)| <==> LastOfParent(units, i + j))
  {
    hide IsSpace, Strip, Sections, SectionUnits, Chunks, LongestFrom, SteadyParent, Family,
      FirstOfParent, LastOfParent, Stride;
    var units := Units(tok, tables, blocks, sizes).value;
    var u := units[i];
    SizesInRange(sizes);
    var f := UnitFamily(tok, Sections(tables, blocks), sizes, 0, 0, i);
    var kids := ChildTexts(tok, u.parentText, sizes).value;
    FamilyEnds(units, f, kids, u.parentText, u.parentIndex, i, j);
    SomeChild(tok, u.parentText, sizes);
    SteadyChunks(tok, u.parentText, sizes.childSize, sizes.childOverlap, j);
  }

  lemma SteadyFits(tok: Tokenizer, text: string, size: int, step: nat, d: int)
    requires ValidTokenizer(tok) && SteadyParent(tok, text, d) && tok.spans(text) != [] && d < size
    ensures !NothingFits(tok, text, size, step)
  {
    hide Slice, Stride;
    StrideSteps(0, step);
    assert |tok.spans(Slice(text, tok.spans(text), Stride(0, step), Stride(0, step) + 1))| <= 1 + d;
  }

  lemma SomeChild(tok: Tokenizer, parent: string, sizes: Sizes)
    requires ValidTokenizer(tok) && SizesError(sizes).None? && Strip(parent) == parent != ""
    requires SteadyParent(tok, parent, sizes.childOverlap) && tok.spans(parent) != []
    ensures Chunks(tok, parent, sizes.childSize, sizes.childOverlap) != Ok([])
  {
    hide Strip, Chunks, SteadyParent, NothingFits;
    SizesInRange(sizes);
    SteadyFits(tok, parent, sizes.childSize, sizes.childSize - sizes.childOverlap, sizes.childOverlap);
    if Chunks(tok, parent, sizes.childSize, sizes.childOverlap) == Ok([]) {
      OwnChild(tok, parent, sizes);
    }
  }

  // ---- When sizes are refused ----

  /** More tokens than the model reads, its special tokens counted. */
  predicate OverBudget(tok: Tokenizer, size: int) {
    0 < tok.sequenceLimit && tok.overhead < tok.sequenceLimit < size + tok.overhead
  }

  lemma ChunksRefuse(tok: Tokenizer, text: string, size: int, overlap: int)
    requires ValidTokenizer(tok) && Strip(text) != "" && 0 <= overlap < size
    ensures var r := Chunks(tok, text, size, overlap);
            if OverBudget(tok, size) then r == Err(SizeOverBudget) else r.Ok?
  {
    hide Strip, Windows, Pieces;
  }

  predicate NoneBlank(texts: seq<string>) {
    forall i | 0 <= i < |texts| :: Strip(texts[i]) != ""
  }

  lemma {:induction false} ParentsRefuse(tok: Tokenizer, title: Option<string>, parents: seq<string>, sizes: Sizes,
                                         p: nat, c: nat)
    requires ValidTokenizer(tok) && SizesError(sizes).None? && NoneBlank(parents)
    ensures var r := ParentUnits(tok, title, parents, sizes, p, c);
            if OverBudget(tok, sizes.childSize) && parents != [] then r == Err(SizeOverBudget) else r.Ok?
    decreases |parents|
  {
    hide Strip, Chunks, OverBudget, Numbered;
    SizesInRange(sizes);
    if parents != [] {
      ChunksRefuse(tok, parents[0], sizes.childSize, sizes.childOverlap);
      var children := ChildTexts(tok, parents[0], sizes);
      if children.Ok? {
        ParentsRefuse(tok, title, parents[1..], sizes, p + 1, c + |children.value|);
      }
    }
  }

  lemma ChunksNotBlank(tok: Tokenizer, text: string, size: int, overlap: int)
    requires ValidTokenizer(tok) && Chunks(tok, text, size, overlap).Ok?
    ensures NoneBlank(Chunks(tok, text, size, overlap).value)
  {
    hide Strip, Chunks, Contains;
    var chunks := Chunks(tok, text, size, overlap).value;
    forall i | 0 <= i < |chunks| ensures Strip(chunks[i]) != "" {
      ChunkFits(tok, text, size, overlap, chunks[i]);
      ChunkTrimmed(tok, text, size, overlap, chunks[i]);
    }
  }

  lemma {:induction false} SectionsRefuse(tok: Tokenizer, sections: seq<Section>, sizes: Sizes, p: nat, c: nat)
    requires ValidTokenizer(tok) && SizesError(sizes).None?
    requires forall s | s in sections :: Strip(s.text) != ""
    ensures var r := SectionUnits(tok, sections, sizes, p, c);
            if (OverBudget(tok, sizes.parentSize) && sections != [])
               || (OverBudget(tok, sizes.childSize) && AllParents(tok, sections, sizes) != [])
            then r == Err(SizeOverBudget) else r.Ok?
    ensures OverBudget(tok, sizes.parentSize) ==> AllParents(tok, sections, sizes) == []
    decreases |sections|
  {
    hide Strip, Chunks, OverBudget, ParentUnits;
    SizesInRange(sizes);
    if sections != [] {
      var s := sections[0];
      assert s in sections;
      ChunksRefuse(tok, s.text, sizes.parentSize, sizes.parentOverlap);
      var parents := Chunks(tok, s.text, sizes.parentSize, sizes.parentOverlap);
      if parents.Ok? {
        ChunksNotBlank(tok, s.text, sizes.parentSize, sizes.parentOverlap);
        ParentsRefuse(tok, s.title, parents.value, sizes, p, c);
        var units := ParentUnits(tok, s.title, parents.value, sizes, p, c);
        var added := if units.Ok? then |units.value| else 0;
        SectionsRefuse(tok, sections[1..], sizes, p + |parents.value|, c + added);
      } else {
        SectionsRefuse(tok, sections[1..], sizes, p, c);
      }
    }
  }

  lemma {:induction false} SectionsNotBlank(tables: CharTables, groups: seq<Group>)
    ensures forall s | s in Project(tables, groups) :: Strip(s.text) != ""
  {
    hide Strip, Plaintext;
    if groups != [] {
      SectionsNotBlank(tables, groups[1..]);
    }
  }

  /**
   Sizes are refused exactly when one is no size, an overlap does not leave a step, or the size of texts the page
   does have is more than the model reads.
   */
  lemma UnitsRefusedIff(tok: Tokenizer, tables: CharTables, blocks: seq<Block>, sizes: Sizes)
    requires ValidTokenizer(tok)
    ensures var r, sections := Units(tok, tables, blocks, sizes), Sections(tables, blocks);
            if sizes.childSize < 1 || sizes.parentSize < 1 then r == Err(SizeTooSmall)
            else if !(0 <= sizes.childOverlap < sizes.childSize) || !(0 <= sizes.parentOverlap < sizes.parentSize)
            then r == Err(OverlapOutOfRange)
            else if (OverBudget(tok, sizes.parentSize) && sections != [])
                    || (OverBudget(tok, sizes.childSize) && AllParents(tok, sections, sizes) != [])
            then r == Err(SizeOverBudget)
            else r.Ok?
  {
    hide Strip, OverBudget, SectionUnits, AllParents, Groups, Project;
    SectionsNotBlank(tables, Groups(blocks));
    if SizesError(sizes).None? {
      SectionsRefuse(tok, Sections(tables, blocks), sizes, 0, 0);
    }
  }
}
