/**
 Chunking (`src/geek_crawler_rag/chunk.py`): a page's blocks are cut into sections at headings, each
 section into parent windows and each parent into child windows of the embedding model's own tokens.
 The functions say what is produced; the methods are the loops that produce it.
 */
module Chunking {
  import opened Wrappers
  import opened Text
  import opened BlockText

  /** A token's place in the text it was measured in: characters `lo` up to `hi`. */
  datatype Span = Span(lo: nat, hi: nat)

  /** `ChunkTokenizer`: it measures text and never produces it. */
  datatype Tokenizer = Tokenizer(sequenceLimit: int, overhead: nat, spans: string -> seq<Span>)

  datatype ChunkError = SizeTooSmall | OverlapOutOfRange | SizeOverBudget

  /** In order, in range, disjoint and never blank. */
  ghost predicate ValidSpans(text: string, spans: seq<Span>) {
    && (forall i | 0 <= i < |spans| ::
          spans[i].lo < spans[i].hi <= |text| && Strip(text[spans[i].lo..spans[i].hi]) != "")
    && (forall i, j | 0 <= i < j < |spans| :: spans[i].hi <= spans[j].lo)
  }

  ghost predicate ValidTokenizer(tok: Tokenizer) {
    forall text :: ValidSpans(text, tok.spans(text))
  }

  // ---- The sliding window ----

  /** Tokens `a` up to `b` as the original characters, trimmed. */
  function Slice(text: string, spans: seq<Span>, a: nat, b: nat): string
    requires ValidSpans(text, spans) && a < b <= |spans|
  {
    SpanOrder(text, spans, a, b - 1);
    Strip(text[spans[a].lo..spans[b - 1].hi])
  }

  lemma SpanOrder(text: string, spans: seq<Span>, a: nat, b: nat)
    requires ValidSpans(text, spans) && a <= b < |spans|
    ensures spans[a].lo <= spans[b].lo < spans[b].hi <= |text| && spans[a].hi <= spans[b].hi
  {
  }

  /** `_fit_window`. */
  function Fit(tok: Tokenizer, text: string, spans: seq<Span>, start: nat, end: nat, size: int): (string, nat)
    requires ValidSpans(text, spans) && start <= end <= |spans|
    decreases end
  {
    if end <= start then ("", start + 1)
    else
      var piece := Slice(text, spans, start, end);
      if piece == "" then ("", end)
      else if |tok.spans(piece)| <= size then (piece, end)
      else Fit(tok, text, spans, start, end - 1, size)
  }

  lemma FitStep(tok: Tokenizer, text: string, spans: seq<Span>, start: nat, end: nat, size: int)
    requires ValidSpans(text, spans) && start < end <= |spans|
    ensures var piece := Slice(text, spans, start, end);
            Fit(tok, text, spans, start, end, size) ==
            if piece == "" then ("", end)
            else if |tok.spans(piece)| <= size then (piece, end)
            else Fit(tok, text, spans, start, end - 1, size)
  {
  }

  method FitWindow(tok: Tokenizer, text: string, spans: seq<Span>, start: nat, end: nat, size: int)
    returns (piece: string, last: nat)
    requires ValidSpans(text, spans) && start <= end <= |spans|
    ensures (piece, last) == Fit(tok, text, spans, start, end, size)
  {
    hide IsSpace, Strip, LStrip, RStrip;
    last := end;
    ghost var fitted := Fit(tok, text, spans, start, end, size);
    while last > start
      invariant start <= last <= end
      invariant fitted == Fit(tok, text, spans, start, last, size)
    {
      piece := Slice(text, spans, start, last);
      FitStep(tok, text, spans, start, last, size);
      if piece == "" {
        return "", last;
      }
      if |tok.spans(piece)| <= size {
        return piece, last;
      }
      last := last - 1;
    }
    return "", start + 1;
  }

  /** One turn of the window loop: the tokens it covers and the text it yields, `""` for none. */
  datatype Window = Window(start: nat, end: nat, piece: string)

  function WindowAt(tok: Tokenizer, text: string, spans: seq<Span>, start: nat, size: nat): Window
    requires ValidSpans(text, spans) && start < |spans|
  {
    var stop := if start + size < |spans| then start + size else |spans|;
    var (piece, end) := Fit(tok, text, spans, start, stop, size);
    Window(start, end, piece)
  }

  function Windows(tok: Tokenizer, text: string, spans: seq<Span>, start: nat, size: nat, overlap: nat): seq<Window>
    requires ValidSpans(text, spans) && overlap < size
    decreases |spans| - start
  {
    if start >= |spans| then []
    else
      var w := WindowAt(tok, text, spans, start, size);
      [w] + if w.end >= |spans| then [] else Windows(tok, text, spans, start + (size - overlap), size, overlap)
  }

  function Pieces(windows: seq<Window>): seq<string> {
    if windows == [] then []
    else (if windows[0].piece != "" then [windows[0].piece] else []) + Pieces(windows[1..])
  }

  function SizeError(tok: Tokenizer, size: int, overlap: int): (e: Option<ChunkError>)
    ensures e == Some(SizeTooSmall) <==> size < 1
    ensures e == Some(OverlapOutOfRange) <==> size >= 1 && !(0 <= overlap < size)
    ensures e == Some(SizeOverBudget)
       <==> 0 <= overlap < size && 0 < tok.sequenceLimit && tok.overhead < tok.sequenceLimit < size + tok.overhead
  {
    var usable := if tok.sequenceLimit > 0 then tok.sequenceLimit - tok.overhead else 0;
    if size < 1 then Some(SizeTooSmall)
    else if overlap < 0 || overlap >= size then Some(OverlapOutOfRange)
    else if usable > 0 && size > usable then Some(SizeOverBudget)
    else None
  }

  /** `chunk_text`. */
  function Chunks(tok: Tokenizer, text: string, size: int, overlap: int): Result<seq<string>, ChunkError>
    requires ValidTokenizer(tok)
  {
    var cleaned := Strip(text);
    if cleaned == "" then Ok([])
    else if SizeError(tok, size, overlap).Some? then Err(SizeError(tok, size, overlap).value)
    else Ok(Pieces(Windows(tok, cleaned, tok.spans(cleaned), 0, size, overlap)))
  }

  lemma PiecesOfNone()
    ensures Pieces([]) == []
  {
  }

  lemma WindowsStep(tok: Tokenizer, text: string, spans: seq<Span>, start: nat, size: nat, overlap: nat,
                    chunks: seq<string>)
    requires ValidSpans(text, spans) && overlap < size && start < |spans|
    ensures var w := WindowAt(tok, text, spans, start, size);
            var rest := if w.end >= |spans| then []
                        else Windows(tok, text, spans, start + (size - overlap), size, overlap);
            chunks + Pieces(Windows(tok, text, spans, start, size, overlap))
            == (if w.piece != "" then chunks + [w.piece] else chunks) + Pieces(rest)
  {
    hide IsSpace, Strip, LStrip, RStrip;
    var w := WindowAt(tok, text, spans, start, size);
    var rest := if w.end >= |spans| then [] else Windows(tok, text, spans, start + (size - overlap), size, overlap);
    assert Windows(tok, text, spans, start, size, overlap)[1..] == rest;
  }

  method ChunkText(tok: Tokenizer, text: string, size: int, overlap: int)
    returns (r: Result<seq<string>, ChunkError>)
    requires ValidTokenizer(tok)
    ensures r == Chunks(tok, text, size, overlap)
  {
    hide IsSpace, Strip, LStrip, RStrip, Fit, Pieces;
    var cleaned := Strip(text);
    if cleaned == "" {
      return Ok([]);
    }
    var bad := SizeError(tok, size, overlap);
    if bad.Some? {
      return Err(bad.value);
    }
    var spans := tok.spans(cleaned);
    var chunks: seq<string> := [];
    var start: nat, step: nat := 0, size - overlap;
    ghost var all := Pieces(Windows(tok, cleaned, spans, 0, size, overlap));
    assert Chunks(tok, text, size, overlap) == Ok(all) && chunks + all == all;
    PiecesOfNone();
    while start < |spans|
      invariant Pieces([]) == []
      invariant all == chunks + Pieces(Windows(tok, cleaned, spans, start, size, overlap))
    {
      var stop := if start + size < |spans| then start + size else |spans|;
      var piece, end := FitWindow(tok, cleaned, spans, start, stop, size);
      WindowsStep(tok, cleaned, spans, start, size, overlap, chunks);
      assert WindowAt(tok, cleaned, spans, start, size) == Window(start, end, piece);
      if piece != "" {
        chunks := chunks + [piece];
      }
      if end >= |spans| {
        assert all == chunks;
        return Ok(chunks);
      }
      start := start + step;
    }
    assert all == chunks by {
      assert Windows(tok, cleaned, spans, start, size, overlap) == [];
    }
    return Ok(chunks);
  }

  // ---- Sections ----

  predicate IsHeading(block: Block) {
    block.Prose? && block.kind == Heading
  }

  /** Consecutive blocks under one heading, or before the first. */
  datatype Group = Group(title: Option<string>, level: Option<int>, blocks: seq<Block>)

  function TitleOf(block: Block): Option<string> {
    if IsHeading(block) && Strip(block.text) != "" then Some(Strip(block.text)) else None
  }

  function LevelOf(block: Block): Option<int> {
    if IsHeading(block) then block.level else None
  }

  /** Carries on from a group in progress; an empty one is not emitted. */
  function GroupsFrom(current: Group, blocks: seq<Block>): seq<Group>
    decreases blocks
  {
    if blocks == [] then (if current.blocks != [] then [current] else [])
    else
      var block, rest := blocks[0], blocks[1..];
      if block.Missing? then GroupsFrom(current, rest)
      else if IsHeading(block) then
        (if current.blocks != [] then [current] else [])
        + GroupsFrom(Group(TitleOf(block), LevelOf(block), [block]), rest)
      else GroupsFrom(current.(blocks := current.blocks + [block]), rest)
  }

  function Groups(blocks: seq<Block>): seq<Group> {
    GroupsFrom(Group(None, None, []), blocks)
  }

  datatype Section = Section(title: Option<string>, level: Option<int>, text: string)

  function Project(tables: CharTables, groups: seq<Group>): seq<Section> {
    if groups == [] then []
    else
      var text := Plaintext(tables, groups[0].blocks);
      (if Strip(text) != "" then [Section(groups[0].title, groups[0].level, text)] else [])
      + Project(tables, groups[1..])
  }

  /** `split_blocks_into_sections`. */
  function Sections(tables: CharTables, blocks: seq<Block>): seq<Section> {
    Project(tables, Groups(blocks))
  }

  function Emitted(current: Group): seq<Group> {
    if current.blocks != [] then [current] else []
  }

  lemma GroupsStep(groups: seq<Group>, current: Group, blocks: seq<Block>)
    requires blocks != []
    ensures var block, rest := blocks[0], blocks[1..];
            groups + GroupsFrom(current, blocks) ==
            if block.Missing? then groups + GroupsFrom(current, rest)
            else if IsHeading(block) then
              groups + Emitted(current) + GroupsFrom(Group(TitleOf(block), LevelOf(block), [block]), rest)
            else groups + GroupsFrom(current.(blocks := current.blocks + [block]), rest)
  {
    hide IsSpace;
    var block, rest := blocks[0], blocks[1..];
    if IsHeading(block) {
      var after := GroupsFrom(Group(TitleOf(block), LevelOf(block), [block]), rest);
      assert groups + (Emitted(current) + after) == groups + Emitted(current) + after;
    }
  }

  lemma ProjectStep(tables: CharTables, sections: seq<Section>, groups: seq<Group>)
    requires groups != []
    ensures var text := Plaintext(tables, groups[0].blocks);
            sections + Project(tables, groups) ==
            sections + (if Strip(text) != "" then [Section(groups[0].title, groups[0].level, text)] else [])
            + Project(tables, groups[1..])
  {
    hide Strip, Plaintext;
    var text := Plaintext(tables, groups[0].blocks);
    var head := if Strip(text) != "" then [Section(groups[0].title, groups[0].level, text)] else [];
    assert Project(tables, groups) == head + Project(tables, groups[1..]);
    assert (sections + head) + Project(tables, groups[1..]) == sections + (head + Project(tables, groups[1..]));
  }

  method SplitBlocksIntoSections(tables: CharTables, blocks: seq<Block>) returns (sections: seq<Section>)
    ensures sections == Sections(tables, blocks)
  {
    hide IsSpace, Strip, LStrip, RStrip, Plaintext, Render, CleanProse;
    var groups: seq<Group> := [];
    var current := Group(None, None, []);
    ghost var all := Groups(blocks);
    assert groups + all == all && blocks[0..] == blocks;
    for i := 0 to |blocks|
      invariant all == groups + GroupsFrom(current, blocks[i..])
    {
      var block := blocks[i];
      assert blocks[i..][0] == block && blocks[i..][1..] == blocks[i + 1..];
      GroupsStep(groups, current, blocks[i..]);
      if block.Missing? {
        continue;
      }
      if IsHeading(block) {
        if current.blocks != [] {
          groups := groups + [current];
        } else {
          assert groups + Emitted(current) == groups;
        }
        current := Group(TitleOf(block), LevelOf(block), [block]);
        continue;
      }
      current := current.(blocks := current.blocks + [block]);
    }
    if current.blocks != [] {
      groups := groups + [current];
    }
    assert groups == all;
    sections := Projected(tables, groups);
  }

  /** The loop over the finished groups; groups that project to nothing are skipped. */
  method Projected(tables: CharTables, groups: seq<Group>) returns (sections: seq<Section>)
    ensures sections == Project(tables, groups)
  {
    hide IsSpace, Strip, LStrip, RStrip, Plaintext;
    sections := [];
    ghost var projected := Project(tables, groups);
    assert sections + projected == projected && groups[0..] == groups;
    for i := 0 to |groups|
      invariant projected == sections + Project(tables, groups[i..])
    {
      assert groups[i..][0] == groups[i] && groups[i..][1..] == groups[i + 1..];
      ProjectStep(tables, sections, groups[i..]);
      var text := Plaintext(tables, groups[i].blocks);
      if Strip(text) != "" {
        sections := sections + [Section(groups[i].title, groups[i].level, text)];
      } else {
        assert sections + [] == sections;
      }
    }
  }

  // ---- Parents and children ----

  datatype Unit = Unit(parentText: string, childText: string, title: Option<string>, parentIndex: nat, childIndex: nat)

  datatype Sizes = Sizes(childSize: int, childOverlap: int, parentSize: int, parentOverlap: int)

  function SizesError(sizes: Sizes): Option<ChunkError> {
    if sizes.childSize < 1 || sizes.parentSize < 1 then Some(SizeTooSmall)
    else if sizes.childOverlap < 0 || sizes.childOverlap >= sizes.childSize then Some(OverlapOutOfRange)
    else if sizes.parentOverlap < 0 || sizes.parentOverlap >= sizes.parentSize then Some(OverlapOutOfRange)
    else None
  }

  /** The children of one parent; a parent too short to window is its own child. */
  function ChildTexts(tok: Tokenizer, parent: string, sizes: Sizes): Result<seq<string>, ChunkError>
    requires ValidTokenizer(tok)
  {
    var children := Chunks(tok, parent, sizes.childSize, sizes.childOverlap);
    if children == Ok([]) then Ok([parent]) else children
  }

  function Numbered(title: Option<string>, parent: string, children: seq<string>, p: nat, c: nat): seq<Unit> {
    seq(|children|, i requires 0 <= i < |children| => Unit(parent, children[i], title, p, c + i))
  }

  function Prepend(units: seq<Unit>, r: Result<seq<Unit>, ChunkError>): Result<seq<Unit>, ChunkError> {
    if r.Ok? then Ok(units + r.value) else r
  }

  function ParentUnits(tok: Tokenizer, title: Option<string>, parents: seq<string>, sizes: Sizes, p: nat, c: nat)
    : Result<seq<Unit>, ChunkError>
    requires ValidTokenizer(tok)
  {
    if parents == [] then Ok([])
    else
      var children := ChildTexts(tok, parents[0], sizes);
      if children.Err? then Err(children.error)
      else Prepend(Numbered(title, parents[0], children.value, p, c),
                   ParentUnits(tok, title, parents[1..], sizes, p + 1, c + |children.value|))
  }

  function SectionUnits(tok: Tokenizer, sections: seq<Section>, sizes: Sizes, p: nat, c: nat)
    : Result<seq<Unit>, ChunkError>
    requires ValidTokenizer(tok)
  {
    if sections == [] then Ok([])
    else
      var parents := Chunks(tok, sections[0].text, sizes.parentSize, sizes.parentOverlap);
      if parents.Err? then Err(parents.error)
      else
        var units := ParentUnits(tok, sections[0].title, parents.value, sizes, p, c);
        if units.Err? then units
        else Prepend(units.value,
                     SectionUnits(tok, sections[1..], sizes, p + |parents.value|, c + |units.value|))
  }

  /** `parent_child_units`. */
  function Units(tok: Tokenizer, tables: CharTables, blocks: seq<Block>, sizes: Sizes): Result<seq<Unit>, ChunkError>
    requires ValidTokenizer(tok)
  {
    if SizesError(sizes).Some? then Err(SizesError(sizes).value)
    else SectionUnits(tok, Sections(tables, blocks), sizes, 0, 0)
  }

  lemma PrependTwice(a: seq<Unit>, b: seq<Unit>, r: Result<seq<Unit>, ChunkError>)
    ensures Prepend(a, Prepend(b, r)) == Prepend(a + b, r)
  {
    hide IsSpace;
    if r.Ok? { assert a + (b + r.value) == (a + b) + r.value; }
  }

  /** The units of one section's parents, in the order the loop appends them. */
  method UnitsOfParents(tok: Tokenizer, title: Option<string>, parents: seq<string>, sizes: Sizes, p: nat, c: nat)
    returns (r: Result<seq<Unit>, ChunkError>)
    requires ValidTokenizer(tok)
    ensures r == ParentUnits(tok, title, parents, sizes, p, c)
  {
    hide IsSpace, Chunks;
    var units: seq<Unit> := [];
    var parentIndex: nat := p;
    ghost var all := ParentUnits(tok, title, parents, sizes, p, c);
    assert parents[0..] == parents;
    assert Prepend(units, all) == all by { if all.Ok? { assert [] + all.value == all.value; } }
    for k := 0 to |parents|
      invariant parentIndex == p + k
      invariant all == Prepend(units, ParentUnits(tok, title, parents[k..], sizes, parentIndex, c + |units|))
    {
      var parent := parents[k];
      assert parents[k..][0] == parent && parents[k..][1..] == parents[k + 1..];
      var children := ChunkText(tok, parent, sizes.childSize, sizes.childOverlap);
      if children.Err? {
        return Err(children.error);
      }
      var texts := if children.value == [] then [parent] else children.value;
      ghost var added := Numbered(title, parent, texts, parentIndex, c + |units|);
      PrependTwice(units, added,
                   ParentUnits(tok, title, parents[k + 1..], sizes, parentIndex + 1, c + |units| + |texts|));
      ghost var before := units;
      assert all == Prepend(before + added,
        ParentUnits(tok, title, parents[k + 1..], sizes, parentIndex + 1, c + |before| + |texts|));
      for i := 0 to |texts|
        invariant units == before + added[..i]
      {
        units := units + [Unit(parent, texts[i], title, parentIndex, c + |units|)];
      }
      assert units == before + added && |units| == |before| + |texts|;
      parentIndex := parentIndex + 1;
    }
    assert units + [] == units;
    return Ok(units);
  }

  method ParentChildUnits(tok: Tokenizer, tables: CharTables, blocks: seq<Block>, sizes: Sizes)
    returns (r: Result<seq<Unit>, ChunkError>)
    requires ValidTokenizer(tok)
    ensures r == Units(tok, tables, blocks, sizes)
  {
    hide IsSpace, Chunks, Sections;
    var bad := SizesError(sizes);
    if bad.Some? {
      return Err(bad.value);
    }
    var sections := SplitBlocksIntoSections(tables, blocks);
    var units: seq<Unit> := [];
    var parentIndex: nat := 0;
    ghost var all := SectionUnits(tok, sections, sizes, 0, 0);
    assert sections[0..] == sections;
    assert Prepend(units, all) == all by { if all.Ok? { assert [] + all.value == all.value; } }
    for s := 0 to |sections|
      invariant all == Prepend(units, SectionUnits(tok, sections[s..], sizes, parentIndex, |units|))
    {
      assert sections[s..][0] == sections[s] && sections[s..][1..] == sections[s + 1..];
      var parents := ChunkText(tok, sections[s].text, sizes.parentSize, sizes.parentOverlap);
      if parents.Err? {
        return Err(parents.error);
      }
      var here := UnitsOfParents(tok, sections[s].title, parents.value, sizes, parentIndex, |units|);
      if here.Err? {
        return here;
      }
      PrependTwice(units, here.value,
                   SectionUnits(tok, sections[s + 1..], sizes, parentIndex + |parents.value|, |units| + |here.value|));
      units := units + here.value;
      parentIndex := parentIndex + |parents.value|;
    }
    assert units + [] == units;
    return Ok(units);
  }
}
