/**
 What chunking promises: sections partition the page, every chunk is a verbatim cut of it that still
 verifies as a quote, every piece fits the model, and no token is lost while re-tokenising drifts by
 no more than the overlap.
 */
module ChunkingProofs {
  import opened Wrappers
  import opened Text
  import opened BlockText
  import opened CitationVerify
  import opened Chunking

  // ---- Sections partition the page ----

  function Dicts(blocks: seq<Block>): seq<Block> {
    if blocks == [] then []
    else (if blocks[0].Missing? then [] else [blocks[0]]) + Dicts(blocks[1..])
  }

  function Flatten(groups: seq<Group>): seq<Block> {
    if groups == [] then [] else groups[0].blocks + Flatten(groups[1..])
  }

  /** A group runs from its own first block to just before the next heading. */
  ghost predicate OneHeading(g: Group) {
    && g.blocks != []
    && g.title == TitleOf(g.blocks[0]) && g.level == LevelOf(g.blocks[0])
    && forall j | 0 < j < |g.blocks| :: !IsHeading(g.blocks[j])
  }

  /** `groups` cut `blocks` at every heading and nowhere else. */
  ghost predicate CutAtHeadings(blocks: seq<Block>, groups: seq<Group>) {
    && Flatten(groups) == blocks
    && (forall i | 0 <= i < |groups| :: OneHeading(groups[i]))
    && (forall i | 0 < i < |groups| :: IsHeading(groups[i].blocks[0]))
  }

  ghost predicate InProgress(current: Group) {
    if current.blocks == [] then current.title == None && current.level == None else OneHeading(current)
  }

  lemma Untitled(block: Block)
    requires !IsHeading(block)
    ensures TitleOf(block) == None && LevelOf(block) == None
  {
  }

  lemma PrependGroup(g: Group, blocks: seq<Block>, after: seq<Group>)
    requires OneHeading(g) && CutAtHeadings(blocks, after)
    requires after != [] ==> IsHeading(after[0].blocks[0])
    ensures CutAtHeadings(g.blocks + blocks, [g] + after)
  {
    hide IsSpace, TitleOf, LevelOf;
    var groups := [g] + after;
    assert groups[1..] == after;
    assert forall i | 0 < i < |groups| :: groups[i] == after[i - 1];
  }

  lemma NothingToCut()
    ensures CutAtHeadings([], [])
  {
  }

  lemma DictsStep(blocks: seq<Block>)
    requires blocks != []
    ensures Dicts(blocks) == if blocks[0].Missing? then Dicts(blocks[1..]) else [blocks[0]] + Dicts(blocks[1..])
  {
  }

  lemma {:induction false} GroupsFromCut(current: Group, blocks: seq<Block>)
    requires InProgress(current)
    ensures CutAtHeadings(current.blocks + Dicts(blocks), GroupsFrom(current, blocks))
    decreases |blocks|, 0
  {
    hide TitleOf, LevelOf, CutAtHeadings, Flatten, Dicts;
    NothingToCut();
    if blocks == [] {
      if current.blocks != [] {
        PrependGroup(current, [], []);
      }
      assert Dicts([]) == [] by { NoDicts(); }
      assert current.blocks + [] == current.blocks && [current] + [] == [current];
    } else {
      var block, rest := blocks[0], blocks[1..];
      DictsStep(blocks);
      if block.Missing? {
        GroupsFromCut(current, rest);
      } else if IsHeading(block) {
        CutBeforeHeading(current, block, rest);
      } else {
        var next := current.(blocks := current.blocks + [block]);
        Untitled(block);
        GroupsFromCut(next, rest);
        assert current.blocks + ([block] + Dicts(rest)) == next.blocks + Dicts(rest);
      }
    }
  }

  lemma {:induction false} CutBeforeHeading(current: Group, block: Block, rest: seq<Block>)
    requires InProgress(current) && IsHeading(block)
    ensures CutAtHeadings(current.blocks + ([block] + Dicts(rest)),
                          Emitted(current) + GroupsFrom(Group(TitleOf(block), LevelOf(block), [block]), rest))
    decreases |rest|, 1
  {
    hide TitleOf, LevelOf, CutAtHeadings, Flatten, Dicts, GroupsFrom;
    var next := Group(TitleOf(block), LevelOf(block), [block]);
    var after := GroupsFrom(next, rest);
    GroupsFromCut(next, rest);
    if current.blocks != [] {
      FirstBlock([block] + Dicts(rest), after);
      PrependGroup(current, [block] + Dicts(rest), after);
    } else {
      assert [] + after == after;
      assert [] + ([block] + Dicts(rest)) == [block] + Dicts(rest);
    }
  }

  lemma NoDicts()
    ensures Dicts([]) == []
  {
  }

  lemma FirstBlock(blocks: seq<Block>, groups: seq<Group>)
    requires CutAtHeadings(blocks, groups) && blocks != []
    ensures groups != [] && groups[0].blocks != [] && groups[0].blocks[0] == blocks[0]
  {
    hide IsSpace;
    FlattenEmpty(groups);
    assert OneHeading(groups[0]);
  }

  /** Every block lands in exactly one section group, from its heading up to the next heading. */
  lemma GroupsCutAtHeadings(blocks: seq<Block>)
    ensures CutAtHeadings(Dicts(blocks), Groups(blocks))
  {
    hide IsSpace;
    GroupsFromCut(Group(None, None, []), blocks);
    assert [] + Dicts(blocks) == Dicts(blocks);
  }

  /** There is only one way to cut a page at its headings. */
  lemma {:induction false} CutUnique(blocks: seq<Block>, a: seq<Group>, b: seq<Group>)
    requires CutAtHeadings(blocks, a) && CutAtHeadings(blocks, b)
    ensures a == b
    decreases |a|
  {
    hide IsSpace;
    FlattenEmpty(a); FlattenEmpty(b);
    if a != [] {
      FirstGroupNoLonger(blocks, a, b);
      FirstGroupNoLonger(blocks, b, a);
      var n := |a[0].blocks|;
      assert a[0].blocks == blocks[..n] && b[0].blocks == blocks[..n];
      assert OneHeading(a[0]) && OneHeading(b[0]);
      CutTail(a); CutTail(b);
      assert Flatten(a[1..]) == blocks[n..] && Flatten(b[1..]) == blocks[n..];
      CutUnique(blocks[n..], a[1..], b[1..]);
      assert a == [a[0]] + a[1..] && b == [b[0]] + b[1..];
    }
  }

  lemma FlattenEmpty(a: seq<Group>)
    requires a != [] ==> a[0].blocks != []
    ensures Flatten(a) == [] <==> a == []
  {
  }

  lemma CutTail(a: seq<Group>)
    requires a != [] && CutAtHeadings(Flatten(a), a)
    ensures CutAtHeadings(Flatten(a[1..]), a[1..])
  {
    hide IsSpace;
    assert forall i | 0 <= i < |a[1..]| :: a[1..][i] == a[i + 1];
  }

  lemma FirstGroupNoLonger(blocks: seq<Block>, a: seq<Group>, b: seq<Group>)
    requires CutAtHeadings(blocks, a) && CutAtHeadings(blocks, b) && a != [] && b != []
    ensures |a[0].blocks| <= |b[0].blocks|
  {
    hide IsSpace;
    var n := |b[0].blocks|;
    assert Flatten(a) == a[0].blocks + Flatten(a[1..]);
    assert Flatten(b) == b[0].blocks + Flatten(b[1..]);
    assert forall j | 0 <= j < |a[0].blocks| :: a[0].blocks[j] == blocks[j];
    assert OneHeading(a[0]) && OneHeading(b[0]);
    if |b| > 1 {
      assert OneHeading(b[1]) && IsHeading(b[1].blocks[0]);
      assert Flatten(b[1..])[0] == b[1].blocks[0];
      assert blocks[n] == b[1].blocks[0];
    } else {
      assert Flatten(b[1..]) == [];
    }
  }

  // ---- Their texts join back to the page ----

  lemma MissingLines(tables: CharTables, block: Block)
    requires block.Missing?
    ensures Lines(tables, [block]) == []
  {
    assert Rendered(tables, [block]) == [""];
    assert NonBlank([""]) == [];
  }

  lemma {:induction false} DictsLines(tables: CharTables, blocks: seq<Block>)
    ensures Lines(tables, Dicts(blocks)) == Lines(tables, blocks)
  {
    hide Lines;
    if blocks != [] {
      DictsLines(tables, blocks[1..]);
      assert blocks == [blocks[0]] + blocks[1..];
      LinesAppend(tables, [blocks[0]], blocks[1..]);
      if blocks[0].Missing? {
        MissingLines(tables, blocks[0]);
        assert Dicts(blocks) == Dicts(blocks[1..]);
      } else {
        LinesAppend(tables, [blocks[0]], Dicts(blocks[1..]));
      }
    }
  }

  function Texts(sections: seq<Section>): seq<string> {
    seq(|sections|, i requires 0 <= i < |sections| => sections[i].text)
  }

  lemma NoLines(tables: CharTables)
    ensures Lines(tables, []) == []
  {
  }

  lemma {:induction false} ProjectJoin(tables: CharTables, groups: seq<Group>)
    ensures Join(BLOCK_SEPARATOR, Texts(Project(tables, groups))) == Plaintext(tables, Flatten(groups))
    ensures Project(tables, groups) == [] <==> Lines(tables, Flatten(groups)) == []
  {
    hide IsSpace, Strip, LStrip, RStrip, Lines;
    if groups == [] {
      NoLines(tables);
    } else {
      var here, rest := groups[0].blocks, groups[1..];
      var text := Plaintext(tables, here);
      ProjectJoin(tables, rest);
      LinesAppend(tables, here, Flatten(rest));
      PlaintextBlank(tables, here);
      var later := Project(tables, rest);
      if Strip(text) == "" {
        assert Project(tables, groups) == later;
        assert Lines(tables, Flatten(groups)) == Lines(tables, Flatten(rest));
      } else {
        assert Texts(Project(tables, groups)) == [text] + Texts(later);
        if later == [] {
          assert Texts(later) == [];
          assert Lines(tables, Flatten(groups)) == Lines(tables, here);
        } else {
          JoinAppend(BLOCK_SEPARATOR, [text], Texts(later));
          JoinAppend(BLOCK_SEPARATOR, Lines(tables, here), Lines(tables, Flatten(rest)));
        }
      }
    }
  }

  /** Joining the section texts gives back the whole-page projection. */
  lemma SectionsJoinToPage(tables: CharTables, blocks: seq<Block>)
    ensures Join(BLOCK_SEPARATOR, Texts(Sections(tables, blocks))) == Plaintext(tables, blocks)
  {
    hide IsSpace;
    GroupsCutAtHeadings(blocks);
    ProjectJoin(tables, Groups(blocks));
    DictsLines(tables, blocks);
  }

  lemma SectionInPage(tables: CharTables, blocks: seq<Block>, section: Section)
    requires section in Sections(tables, blocks)
    ensures Contains(Plaintext(tables, blocks), section.text)
  {
    hide IsSpace, Sections, Plaintext, Contains, Join;
    SectionsJoinToPage(tables, blocks);
    var texts := Texts(Sections(tables, blocks));
    var i :| 0 <= i < |texts| && Sections(tables, blocks)[i] == section;
    assert texts == texts[..i] + [texts[i]] + texts[i + 1..];
    JoinOne(BLOCK_SEPARATOR, texts[i]);
    JoinContains(BLOCK_SEPARATOR, texts[..i], [texts[i]], texts[i + 1..]);
  }

  // ---- Windows are verbatim cuts that fit ----

  lemma {:induction false} FitSlice(tok: Tokenizer, text: string, spans: seq<Span>, start: nat, end: nat, size: int)
    requires ValidSpans(text, spans) && start <= end <= |spans|
    ensures var (piece, last) := Fit(tok, text, spans, start, end, size);
            piece != "" ==>
              start < last <= end && piece == Slice(text, spans, start, last) && |tok.spans(piece)| <= size
    decreases end
  {
    hide IsSpace, Strip, LStrip, RStrip;
    if end > start {
      FitStep(tok, text, spans, start, end, size);
      FitSlice(tok, text, spans, start, end - 1, size);
    }
  }

  /** A window that yields text yields exactly its tokens' characters, within budget. */
  ghost predicate GoodWindow(tok: Tokenizer, text: string, spans: seq<Span>, size: int, w: Window)
    requires ValidSpans(text, spans)
  {
    w.start < w.end <= |spans| && w.piece == Slice(text, spans, w.start, w.end) && |tok.spans(w.piece)| <= size
  }

  /** A window is the first one or one of those after it. */
  lemma WindowsSplit(tok: Tokenizer, text: string, spans: seq<Span>, start: nat, size: nat, overlap: nat, w: Window)
    requires ValidSpans(text, spans) && overlap < size
    requires w in Windows(tok, text, spans, start, size, overlap)
    ensures start < |spans|
    ensures w == WindowAt(tok, text, spans, start, size)
         || w in Windows(tok, text, spans, start + (size - overlap), size, overlap)
  {
    hide ValidSpans, WindowAt;
  }

  lemma WindowAtGood(tok: Tokenizer, text: string, spans: seq<Span>, start: nat, size: nat)
    requires ValidSpans(text, spans) && start < |spans|
    ensures var w := WindowAt(tok, text, spans, start, size);
            w.start == start && (w.piece != "" ==> GoodWindow(tok, text, spans, size, w))
  {
    hide Fit, Slice, ValidSpans;
    FitSlice(tok, text, spans, start, if start + size < |spans| then start + size else |spans|, size);
  }

  lemma {:induction false} WindowsGood(tok: Tokenizer, text: string, spans: seq<Span>, start: nat, size: nat,
                                       overlap: nat, w: Window)
    requires ValidSpans(text, spans) && overlap < size
    requires w in Windows(tok, text, spans, start, size, overlap)
    ensures w.start >= start && (w.piece != "" ==> GoodWindow(tok, text, spans, size, w))
    decreases |spans| - start
  {
    hide Windows, WindowAt, GoodWindow, ValidSpans;
    WindowsSplit(tok, text, spans, start, size, overlap, w);
    WindowAtGood(tok, text, spans, start, size);
    if w != WindowAt(tok, text, spans, start, size) {
      WindowsGood(tok, text, spans, start + (size - overlap), size, overlap, w);
    }
  }

  lemma {:induction false} PiecesSource(windows: seq<Window>)
    ensures forall piece | piece in Pieces(windows) :: piece != "" && exists w :: w in windows && w.piece == piece
    ensures forall w | w in windows && w.piece != "" :: w.piece in Pieces(windows)
  {
    hide IsSpace;
    if windows != [] {
      PiecesSource(windows[1..]);
      forall piece | piece in Pieces(windows)
        ensures piece != "" && exists w :: w in windows && w.piece == piece
      {
        if piece in Pieces(windows[1..]) {
          var w :| w in windows[1..] && w.piece == piece;
          assert w in windows;
        } else {
          assert windows[0] in windows && windows[0].piece == piece;
        }
      }
    }
  }

  lemma CutInText(text: string, lo: nat, hi: nat)
    requires lo <= hi <= |text|
    ensures Contains(text, Strip(text[lo..hi]))
  {
    hide Strip, Contains;
    var raw := text[lo..hi];
    assert text == text[..lo] + raw + text[hi..];
    ContainsIntro(text[..lo], raw, text[hi..]);
    var x, y := StripSplit(raw);
    ContainsIntro(x, Strip(raw), y);
    ContainsTransitive(text, raw, Strip(raw));
  }

  lemma SliceInText(text: string, spans: seq<Span>, a: nat, b: nat)
    requires ValidSpans(text, spans) && a < b <= |spans|
    ensures Contains(text, Slice(text, spans, a, b))
  {
    hide Strip, Contains;
    SpanOrder(text, spans, a, b - 1);
    CutInText(text, spans[a].lo, spans[b - 1].hi);
  }

  /**
   Every chunk is a verbatim substring of the text and measures within `size`; with the special tokens
   added it stays within the model's limit, wherever the limit leaves room for any content at all.
   */
  lemma ChunkFits(tok: Tokenizer, text: string, size: int, overlap: int, chunk: string)
    requires ValidTokenizer(tok)
    requires Chunks(tok, text, size, overlap).Ok? && chunk in Chunks(tok, text, size, overlap).value
    ensures chunk != "" && Contains(text, chunk) && |tok.spans(chunk)| <= size
    ensures tok.sequenceLimit > tok.overhead ==> |tok.spans(chunk)| + tok.overhead <= tok.sequenceLimit
  {
    hide IsSpace, LStrip, RStrip;
    var cleaned := Strip(text);
    var spans := tok.spans(cleaned);
    var windows := Windows(tok, cleaned, spans, 0, size, overlap);
    PiecesSource(windows);
    var w :| w in windows && w.piece == chunk;
    WindowsGood(tok, cleaned, spans, 0, size, overlap, w);
    SliceInText(cleaned, spans, w.start, w.end);
    var a, b := StripSplit(text);
    ContainsIntro(a, cleaned, b);
    ContainsTransitive(text, cleaned, chunk);
  }

  // ---- Citation soundness ----

  lemma {:induction false} ParentUnitsNested(tok: Tokenizer, title: Option<string>, parents: seq<string>,
                              sizes: Sizes, p: nat, c: nat, i: nat)
    requires ValidTokenizer(tok)
    requires ParentUnits(tok, title, parents, sizes, p, c).Ok?
             && i < |ParentUnits(tok, title, parents, sizes, p, c).value|
    ensures var u := ParentUnits(tok, title, parents, sizes, p, c).value[i];
            && p <= u.parentIndex < p + |parents| && u.parentText == parents[u.parentIndex - p]
            && Contains(u.parentText, u.childText) && u.title == title && u.childIndex == c + i
  {
    hide IsSpace, ChildTexts, Contains;
    var children := ChildTexts(tok, parents[0], sizes).value;
    var units := ParentUnits(tok, title, parents, sizes, p, c).value;
    var rest := ParentUnits(tok, title, parents[1..], sizes, p + 1, c + |children|).value;
    assert units == Numbered(title, parents[0], children, p, c) + rest;
    if i < |children| {
      ChildInParent(tok, parents[0], sizes, children[i]);
      assert units[i] == Numbered(title, parents[0], children, p, c)[i];
    } else {
      ParentUnitsNested(tok, title, parents[1..], sizes, p + 1, c + |children|, i - |children|);
      assert units[i] == rest[i - |children|];
    }
  }

  lemma ChildInParent(tok: Tokenizer, parent: string, sizes: Sizes, child: string)
    requires ValidTokenizer(tok)
    requires ChildTexts(tok, parent, sizes).Ok? && child in ChildTexts(tok, parent, sizes).value
    ensures Contains(parent, child)
  {
    hide IsSpace, Chunks;
    var children := Chunks(tok, parent, sizes.childSize, sizes.childOverlap);
    if children == Ok([]) {
      assert OccursAt(parent, parent, 0);
    } else {
      ChunkFits(tok, parent, sizes.childSize, sizes.childOverlap, child);
    }
  }

  /** A unit's child lies in its parent, and its parent in a section carrying its title. */
  ghost predicate Nested(sections: seq<Section>, u: Unit) {
    exists s :: s in sections && u.title == s.title && Contains(s.text, u.parentText)
             && Contains(u.parentText, u.childText)
  }

  lemma {:induction false} SectionUnitsNested(tok: Tokenizer, sections: seq<Section>, sizes: Sizes, p: nat, c: nat,
                              i: nat)
    requires ValidTokenizer(tok)
    requires SectionUnits(tok, sections, sizes, p, c).Ok? && i < |SectionUnits(tok, sections, sizes, p, c).value|
    ensures var u := SectionUnits(tok, sections, sizes, p, c).value[i];
            Nested(sections, u) && u.childIndex == c + i
  {
    hide IsSpace, Chunks, ParentUnits, Contains;
    var s := sections[0];
    var parents := Chunks(tok, s.text, sizes.parentSize, sizes.parentOverlap).value;
    var here := ParentUnits(tok, s.title, parents, sizes, p, c).value;
    var rest := SectionUnits(tok, sections[1..], sizes, p + |parents|, c + |here|).value;
    var u := SectionUnits(tok, sections, sizes, p, c).value[i];
    if i < |here| {
      assert u == here[i];
      ParentUnitsNested(tok, s.title, parents, sizes, p, c, i);
      ChunkFits(tok, s.text, sizes.parentSize, sizes.parentOverlap, u.parentText);
      assert s in sections;
    } else {
      assert u == rest[i - |here|];
      SectionUnitsNested(tok, sections[1..], sizes, p + |parents|, c + |here|, i - |here|);
      var t :| t in sections[1..] && u.title == t.title && Contains(t.text, u.parentText)
            && Contains(u.parentText, u.childText);
      assert t in sections;
    }
  }

  /** Child, parent, section and page are nested cuts of one string; child indices count up from 0. */
  lemma UnitsInPage(tok: Tokenizer, tables: CharTables, blocks: seq<Block>, sizes: Sizes, i: nat)
    requires ValidTokenizer(tok)
    requires Units(tok, tables, blocks, sizes).Ok? && i < |Units(tok, tables, blocks, sizes).value|
    ensures var u := Units(tok, tables, blocks, sizes).value[i];
            && u.childIndex == i
            && Contains(Plaintext(tables, blocks), u.parentText) && Contains(u.parentText, u.childText)
            && exists s :: s in Sections(tables, blocks) && s.title == u.title && Contains(s.text, u.parentText)
  {
    hide IsSpace, Sections, SectionUnits, Contains, Plaintext;
    var sections := Sections(tables, blocks);
    var u := Units(tok, tables, blocks, sizes).value[i];
    SectionUnitsNested(tok, sections, sizes, 0, 0, i);
    var s :| s in sections && u.title == s.title && Contains(s.text, u.parentText)
          && Contains(u.parentText, u.childText);
    SectionInPage(tables, blocks, s);
    ContainsTransitive(Plaintext(tables, blocks), s.text, u.parentText);
  }

  /** A stretch of blocks with at most one heading, its first block, and what is written of that heading. */
  ghost predicate HeadedBy(blocks: seq<Block>, title: Option<string>, level: Option<int>) {
    && blocks != [] && (forall j | 0 < j < |blocks| :: !IsHeading(blocks[j]))
    && var first := blocks[0];
       if first.Prose? && first.kind == Heading
       then title == (if Strip(first.text) == "" then None else Some(Strip(first.text))) && level == first.level
       else title == None && level == None
  }

  lemma {:induction false} SectionOfGroup(tables: CharTables, groups: seq<Group>, s: Section) returns (g: Group)
    requires s in Project(tables, groups)
    ensures g in groups && s.title == g.title && s.level == g.level && s.text == Plaintext(tables, g.blocks)
  {
    hide Strip, Plaintext;
    g := groups[0];
    if s in Project(tables, groups[1..]) {
      g := SectionOfGroup(tables, groups[1..], s);
    }
  }

  /** Every section is the text of one group and carries its heading. */
  lemma SectionHeaded(tables: CharTables, blocks: seq<Block>, s: Section) returns (g: Group)
    requires s in Sections(tables, blocks)
    ensures g in Groups(blocks) && s.text == Plaintext(tables, g.blocks) && HeadedBy(g.blocks, s.title, s.level)
  {
    hide Strip, Plaintext, Groups;
    g := SectionOfGroup(tables, Groups(blocks), s);
    GroupsCutAtHeadings(blocks);
    var i :| 0 <= i < |Groups(blocks)| && Groups(blocks)[i] == g;
    assert OneHeading(g);
  }

  /** A unit's title is the heading of the stretch of blocks its parent was cut from. */
  lemma UnitsUnderHeadings(tok: Tokenizer, tables: CharTables, blocks: seq<Block>, sizes: Sizes, i: nat)
    requires ValidTokenizer(tok)
    requires Units(tok, tables, blocks, sizes).Ok? && i < |Units(tok, tables, blocks, sizes).value|
    ensures var u := Units(tok, tables, blocks, sizes).value[i];
            exists g, level :: g in Groups(blocks) && HeadedBy(g.blocks, u.title, level)
                             && Contains(Plaintext(tables, g.blocks), u.parentText)
  {
    hide IsSpace, Sections, Units, Contains, Plaintext, Groups, HeadedBy;
    var u := Units(tok, tables, blocks, sizes).value[i];
    UnitsInPage(tok, tables, blocks, sizes, i);
    var s :| s in Sections(tables, blocks) && s.title == u.title && Contains(s.text, u.parentText);
    var g := SectionHeaded(tables, blocks, s);
  }

  /** All parents of the page, section by section. */
  function AllParents(tok: Tokenizer, sections: seq<Section>, sizes: Sizes): seq<string>
    requires ValidTokenizer(tok)
  {
    if sections == [] then []
    else
      var parents := Chunks(tok, sections[0].text, sizes.parentSize, sizes.parentOverlap);
      (if parents.Ok? then parents.value else []) + AllParents(tok, sections[1..], sizes)
  }

  lemma {:induction false} UnitNamesItsParent(tok: Tokenizer, sections: seq<Section>, sizes: Sizes, p: nat, c: nat,
                              i: nat)
    requires ValidTokenizer(tok)
    requires SectionUnits(tok, sections, sizes, p, c).Ok? && i < |SectionUnits(tok, sections, sizes, p, c).value|
    ensures var u, all := SectionUnits(tok, sections, sizes, p, c).value[i], AllParents(tok, sections, sizes);
            p <= u.parentIndex < p + |all| && u.parentText == all[u.parentIndex - p]
  {
    hide IsSpace, Chunks, ParentUnits, Contains;
    var s := sections[0];
    var parents := Chunks(tok, s.text, sizes.parentSize, sizes.parentOverlap).value;
    var here := ParentUnits(tok, s.title, parents, sizes, p, c).value;
    var u := SectionUnits(tok, sections, sizes, p, c).value[i];
    if i < |here| {
      assert u == here[i];
      ParentUnitsNested(tok, s.title, parents, sizes, p, c, i);
    } else {
      var rest := SectionUnits(tok, sections[1..], sizes, p + |parents|, c + |here|).value;
      assert u == rest[i - |here|];
      UnitNamesItsParent(tok, sections[1..], sizes, p + |parents|, c + |here|, i - |here|);
    }
  }

  lemma {:induction false} ParentHasUnit(tok: Tokenizer, title: Option<string>, parents: seq<string>, sizes: Sizes,
                                         p: nat, c: nat, k: nat) returns (i: nat)
    requires ValidTokenizer(tok) && k < |parents| && ParentUnits(tok, title, parents, sizes, p, c).Ok?
    ensures i < |ParentUnits(tok, title, parents, sizes, p, c).value|
    ensures ParentUnits(tok, title, parents, sizes, p, c).value[i].parentIndex == p + k
    decreases |parents|
  {
    hide IsSpace, ChildTexts;
    var children := ChildTexts(tok, parents[0], sizes).value;
    var units := ParentUnits(tok, title, parents, sizes, p, c).value;
    var rest := ParentUnits(tok, title, parents[1..], sizes, p + 1, c + |children|).value;
    assert units == Numbered(title, parents[0], children, p, c) + rest;
    if k == 0 {
      HasChild(tok, parents[0], sizes);
      i := 0;
    } else {
      var j := ParentHasUnit(tok, title, parents[1..], sizes, p + 1, c + |children|, k - 1);
      i := |children| + j;
      assert units[i] == rest[j];
    }
  }

  lemma HasChild(tok: Tokenizer, parent: string, sizes: Sizes)
    requires ValidTokenizer(tok) && ChildTexts(tok, parent, sizes).Ok?
    ensures ChildTexts(tok, parent, sizes).value != []
  {
    hide IsSpace, Chunks;
  }

  lemma {:induction false} EveryParentHasUnit(tok: Tokenizer, sections: seq<Section>, sizes: Sizes, p: nat, c: nat,
                              k: nat)
    returns (i: nat)
    requires ValidTokenizer(tok) && SectionUnits(tok, sections, sizes, p, c).Ok?
             && k < |AllParents(tok, sections, sizes)|
    ensures i < |SectionUnits(tok, sections, sizes, p, c).value|
    ensures SectionUnits(tok, sections, sizes, p, c).value[i].parentIndex == p + k
    decreases |sections|
  {
    hide IsSpace, Chunks, ParentUnits;
    var s := sections[0];
    var parents := Chunks(tok, s.text, sizes.parentSize, sizes.parentOverlap).value;
    var here := ParentUnits(tok, s.title, parents, sizes, p, c).value;
    var rest := SectionUnits(tok, sections[1..], sizes, p + |parents|, c + |here|).value;
    assert SectionUnits(tok, sections, sizes, p, c).value == here + rest;
    if k < |parents| {
      i := ParentHasUnit(tok, s.title, parents, sizes, p, c, k);
    } else {
      var j := EveryParentHasUnit(tok, sections[1..], sizes, p + |parents|, c + |here|, k - |parents|);
      i := |here| + j;
    }
  }

  predicate IndexInUse(units: seq<Unit>, k: nat) {
    exists i | 0 <= i < |units| :: units[i].parentIndex == k
  }

  /**
   The parent index numbers the page's parents: a unit's index names its own parent text, and no parent
   is left without a unit.
   */
  lemma ParentsNumbered(tok: Tokenizer, tables: CharTables, blocks: seq<Block>, sizes: Sizes)
    requires ValidTokenizer(tok) && Units(tok, tables, blocks, sizes).Ok?
    ensures var units, all := Units(tok, tables, blocks, sizes).value, AllParents(tok, Sections(tables, blocks), sizes);
            && (forall i | 0 <= i < |units| ::
                  units[i].parentIndex < |all| && units[i].parentText == all[units[i].parentIndex])
            && (forall k | 0 <= k < |all| :: IndexInUse(units, k))
  {
    hide IsSpace, Sections, SectionUnits, AllParents;
    var sections := Sections(tables, blocks);
    var units, all := Units(tok, tables, blocks, sizes).value, AllParents(tok, sections, sizes);
    forall i | 0 <= i < |units|
      ensures units[i].parentIndex < |all| && units[i].parentText == all[units[i].parentIndex]
    {
      UnitNamesItsParent(tok, sections, sizes, 0, 0, i);
    }
    forall k | 0 <= k < |all| ensures IndexInUse(units, k) {
      var i := EveryParentHasUnit(tok, sections, sizes, 0, 0, k);
    }
  }

  /** A quotable quote cut from any parent or child chunk verifies against the page projection. */
  lemma CitationSound(tok: Tokenizer, tables: CharTables, blocks: seq<Block>, sizes: Sizes, u: Unit, quote: string)
    requires ValidTokenizer(tok)
    requires Units(tok, tables, blocks, sizes).Ok? && u in Units(tok, tables, blocks, sizes).value
    requires Contains(u.parentText, quote) || Contains(u.childText, quote)
    requires Quotable(tables, quote)
    ensures QuoteInText(tables, quote, Plaintext(tables, blocks), blocks)
  {
    hide IsSpace, Units, Contains, Plaintext, Quotable, QuoteInText;
    var units := Units(tok, tables, blocks, sizes).value;
    var i :| 0 <= i < |units| && units[i] == u;
    UnitsInPage(tok, tables, blocks, sizes, i);
    if !Contains(u.parentText, quote) {
      ContainsTransitive(u.parentText, u.childText, quote);
    }
    CutQuoteVerifies(tables, Plaintext(tables, blocks), u.parentText, quote, blocks);
  }

  /**
   Sent through `verify_quote`, an escape-free quote cut from a chunk is accepted exactly when it holds no
   run of pipes of its own.
   */
  lemma ChunkQuoteIffRunFree(tok: Tokenizer, tables: CharTables, blocks: seq<Block>, sizes: Sizes, u: Unit,
                             quote: string)
    requires ValidTokenizer(tok) && FoldsPlainly(tables)
    requires Units(tok, tables, blocks, sizes).Ok? && u in Units(tok, tables, blocks, sizes).value
    requires Contains(u.parentText, quote) || Contains(u.childText, quote)
    requires Quotable(tables, quote) && !HasEscape(quote)
    ensures VerifyQuote(tables, quote, Plaintext(tables, blocks), blocks) <==> !HasPipeRun(quote)
  {
    hide IsSpace, Units, Contains, Plaintext, Quotable, VerifyQuote, HasPipeRun, HasEscape, FoldsPlainly;
    var units := Units(tok, tables, blocks, sizes).value;
    var i :| 0 <= i < |units| && units[i] == u;
    UnitsInPage(tok, tables, blocks, sizes, i);
    if !Contains(u.parentText, quote) {
      ContainsTransitive(u.parentText, u.childText, quote);
    }
    ContainsTransitive(Plaintext(tables, blocks), u.parentText, quote);
    CutVerifiesIffRunFree(tables, Plaintext(tables, blocks), quote, blocks);
  }

  // ---- No token is lost ----

  /** Re-measuring any slice of k tokens finds at most k + d. */
  ghost predicate DriftAtMost(tok: Tokenizer, text: string, spans: seq<Span>, d: nat)
    requires ValidSpans(text, spans)
  {
    forall a, b | 0 <= a < b <= |spans| :: |tok.spans(Slice(text, spans, a, b))| <= b - a + d
  }

  lemma CutInThree(s: string, a: nat, b: nat, c: nat, d: nat)
    requires a <= b <= c <= d <= |s|
    ensures s[a..d] == s[a..b] + s[b..c] + s[c..d]
  {
  }

  lemma SliceHoldsToken(text: string, spans: seq<Span>, a: nat, b: nat, t: nat)
    requires ValidSpans(text, spans) && a <= t < b <= |spans|
    ensures Contains(Slice(text, spans, a, b), Slice(text, spans, t, t + 1))
    ensures Slice(text, spans, a, b) != ""
  {
    hide IsSpace;
    SpanOrder(text, spans, a, t); SpanOrder(text, spans, t, b - 1);
    var raw, token := text[spans[a].lo..spans[b - 1].hi], text[spans[t].lo..spans[t].hi];
    var u, v := text[spans[a].lo..spans[t].lo], text[spans[t].hi..spans[b - 1].hi];
    CutInThree(text, spans[a].lo, spans[t].lo, spans[t].hi, spans[b - 1].hi);
    ContainsIntro(u, token, v);
    StripContains(raw, token);
    var x, y := ContainsSplit(Strip(raw), Strip(token));
  }

  /** Windows start one step apart, whatever they shrink to, and go on until one reaches the last token. */
  lemma {:induction false} WindowsStride(tok: Tokenizer, text: string, spans: seq<Span>, start: nat, size: nat,
                                         overlap: nat, k: nat)
    requires ValidSpans(text, spans) && overlap < size
    requires k < |Windows(tok, text, spans, start, size, overlap)|
    ensures var windows := Windows(tok, text, spans, start, size, overlap);
            && windows[k].start == start + k * (size - overlap) < |spans|
            && (if k + 1 < |windows| then windows[k].end < |spans|
                else windows[k].end >= |spans| || windows[k].start + (size - overlap) >= |spans|)
    decreases k
  {
    hide Fit, ValidSpans;
    var rest := Windows(tok, text, spans, start + (size - overlap), size, overlap);
    if k > 0 {
      WindowsStride(tok, text, spans, start + (size - overlap), size, overlap, k - 1);
      assert Windows(tok, text, spans, start, size, overlap)[k] == rest[k - 1];
      OneStepMore(k, size - overlap);
    }
  }

  lemma OneStepMore(k: nat, step: nat)
    requires k > 0
    ensures k * step == step + (k - 1) * step
  {
  }

  /** The fitted piece is the longest that fits: every longer one re-measures over the size, or none fits at all. */
  lemma {:induction false} FitIsLongest(tok: Tokenizer, text: string, spans: seq<Span>, start: nat, end: nat,
                                        size: int, longer: nat)
    requires ValidSpans(text, spans) && start < longer <= end <= |spans|
    requires var (piece, last) := Fit(tok, text, spans, start, end, size); piece == "" || last < longer
    ensures |tok.spans(Slice(text, spans, start, longer))| > size
    decreases end
  {
    hide IsSpace, Strip, LStrip, RStrip, Contains;
    SliceHoldsToken(text, spans, start, end, start);
    FitStep(tok, text, spans, start, end, size);
    if longer < end {
      FitIsLongest(tok, text, spans, start, end - 1, size, longer);
    }
  }

  lemma {:induction false} FitShrinksByDrift(tok: Tokenizer, text: string, spans: seq<Span>, start: nat, end: nat,
                              size: nat, d: nat)
    requires ValidSpans(text, spans) && DriftAtMost(tok, text, spans, d)
    requires start < end <= |spans| && d < size
    ensures var (piece, last) := Fit(tok, text, spans, start, end, size);
            piece != "" && (last == end || last + d >= start + size)
    decreases end
  {
    hide IsSpace, Strip, LStrip, RStrip, Contains;
    SliceHoldsToken(text, spans, start, end, start);
    FitStep(tok, text, spans, start, end, size);
    var piece := Slice(text, spans, start, end);
    if |tok.spans(piece)| > size {
      assert end - start + d > size;
      FitShrinksByDrift(tok, text, spans, start, end - 1, size, d);
    }
  }

  lemma {:induction false} WindowsCover(tok: Tokenizer, text: string, spans: seq<Span>, start: nat, size: nat,
                              overlap: nat, t: nat)
    returns (w: Window)
    requires ValidSpans(text, spans) && overlap < size
    requires DriftAtMost(tok, text, spans, overlap)
    requires start <= t < |spans|
    ensures w in Windows(tok, text, spans, start, size, overlap) && w.piece != "" && w.start <= t < w.end
    decreases |spans| - start
  {
    hide IsSpace, Strip, LStrip, RStrip, Fit, Slice, DriftAtMost, ValidSpans;
    var stop := if start + size < |spans| then start + size else |spans|;
    FitShrinksByDrift(tok, text, spans, start, stop, size, overlap);
    w := WindowAt(tok, text, spans, start, size);
    if t >= w.end {
      w := WindowsCover(tok, text, spans, start + (size - overlap), size, overlap, t);
    }
  }

  /** Token `t` lies in a window whose text is among the chunks. */
  ghost predicate Covered(tok: Tokenizer, text: string, size: int, overlap: int, t: nat)
    requires ValidTokenizer(tok) && Chunks(tok, text, size, overlap).Ok?
  {
    0 <= overlap < size &&
    exists w :: w in Windows(tok, Strip(text), tok.spans(Strip(text)), 0, size, overlap)
             && w.piece in Chunks(tok, text, size, overlap).value && w.start <= t < w.end
  }

  /**
   While drift stays within the overlap, every token lies in a window that is emitted, and its text in that
   window's chunk.
   */
  lemma NoTokenLost(tok: Tokenizer, text: string, size: int, overlap: int, t: nat)
    requires ValidTokenizer(tok)
    requires Chunks(tok, text, size, overlap).Ok?
    requires DriftAtMost(tok, Strip(text), tok.spans(Strip(text)), if overlap < 0 then 0 else overlap)
    requires t < |tok.spans(Strip(text))|
    ensures Covered(tok, text, size, overlap, t)
    ensures exists chunk :: chunk in Chunks(tok, text, size, overlap).value
                         && Contains(chunk, Slice(Strip(text), tok.spans(Strip(text)), t, t + 1))
  {
    hide IsSpace, LStrip, RStrip, Contains, Fit;
    var cleaned := Strip(text);
    var spans := tok.spans(cleaned);
    assert cleaned != "" by { assert spans[t].hi <= |cleaned|; }
    var windows := Windows(tok, cleaned, spans, 0, size, overlap);
    var w := WindowsCover(tok, cleaned, spans, 0, size, overlap, t);
    WindowsGood(tok, cleaned, spans, 0, size, overlap, w);
    SliceHoldsToken(cleaned, spans, w.start, w.end, t);
    PiecesSource(windows);
    assert w.piece in Chunks(tok, text, size, overlap).value;
  }

  // ---- ... and the bound on drift cannot be relaxed ----

  /** One token per non-blank character. */
  function CharSpans(text: string, i: nat): seq<Span>
    requires i <= |text|
    decreases |text| - i
  {
    if i == |text| then []
    else (if IsSpace(text[i]) then [] else [Span(i, i + 1)]) + CharSpans(text, i + 1)
  }

  lemma PrependSpan(text: string, first: Span, rest: seq<Span>)
    requires ValidSpans(text, rest) && first.lo < first.hi <= |text| && Strip(text[first.lo..first.hi]) != ""
    requires forall k | 0 <= k < |rest| :: rest[k].lo >= first.hi
    ensures ValidSpans(text, [first] + rest)
  {
    hide IsSpace, Strip;
    var spans := [first] + rest;
    assert forall i | 0 < i < |spans| :: spans[i] == rest[i - 1];
  }

  lemma SolidCharacter(text: string, i: nat)
    requires i < |text| && !IsSpace(text[i])
    ensures Strip(text[i..i + 1]) != ""
  {
    hide IsSpace, Strip;
    StripBlank(text[i..i + 1]);
    assert text[i..i + 1][0] == text[i];
  }

  lemma {:induction false} CharSpansFrom(text: string, i: nat, k: nat)
    requires i <= |text| && k < |CharSpans(text, i)|
    ensures CharSpans(text, i)[k].lo >= i
    decreases |text| - i
  {
    hide IsSpace;
    if IsSpace(text[i]) {
      CharSpansFrom(text, i + 1, k);
    } else if k > 0 {
      CharSpansFrom(text, i + 1, k - 1);
    }
  }

  lemma CharSpansStep(text: string, i: nat)
    requires i < |text|
    ensures CharSpans(text, i)
         == if IsSpace(text[i]) then CharSpans(text, i + 1) else [Span(i, i + 1)] + CharSpans(text, i + 1)
  {
    hide IsSpace;
  }

  lemma {:induction false} CharSpansValid(text: string, i: nat)
    requires i <= |text|
    ensures ValidSpans(text, CharSpans(text, i))
    decreases |text| - i
  {
    hide IsSpace, Strip, ValidSpans;
    if i == |text| {
      NoSpans(text);
    } else {
      hide CharSpans;
      var rest := CharSpans(text, i + 1);
      CharSpansStep(text, i);
      CharSpansValid(text, i + 1);
      if !IsSpace(text[i]) {
        SolidCharacter(text, i);
        forall k | 0 <= k < |rest| ensures rest[k].lo >= i + 1 {
          CharSpansFrom(text, i + 1, k);
        }
        PrependSpan(text, Span(i, i + 1), rest);
      }
    }
  }

  lemma NoSpans(text: string)
    ensures ValidSpans(text, [])
  {
  }

  function Letters(n: nat): string {
    seq(n, _ => 'a')
  }

  lemma {:induction false} CharSpansOfLetters(n: nat, i: nat)
    requires i <= n
    ensures var spans := CharSpans(Letters(n), i);
            |spans| == n - i && forall k | 0 <= k < n - i :: spans[k] == Span(i + k, i + k + 1)
    decreases n - i
  {
    hide IsSpace;
    SpaceFacts();
    if i < n {
      assert !IsSpace(Letters(n)[i]);
      CharSpansOfLetters(n, i + 1);
    }
  }

  /**
   A tokenizer that knows one long word: in `Letters(n)` the first `w` letters are a single token,
   while in any other text every letter is a token of its own, as a word cut in two may be.
   */
  function WordTokenizer(n: nat, w: nat): Tokenizer
    requires 0 < w <= n
  {
    Tokenizer(0, 2, text => if text == Letters(n) then [Span(0, w)] + CharSpans(text, w) else CharSpans(text, 0))
  }

  lemma LettersSolid(n: nat, lo: nat, hi: nat)
    requires lo < hi <= n
    ensures Strip(Letters(n)[lo..hi]) == Letters(hi - lo)
  {
    hide IsSpace;
    SpaceFacts();
    var s := Letters(hi - lo);
    assert Letters(n)[lo..hi] == s;
    assert s[0] == 'a' && s[|s| - 1] == 'a';
    assert LStrip(s) == s;
    assert RStrip(s) == s;
  }

  lemma WordTokenizerValid(n: nat, w: nat)
    requires 0 < w <= n
    ensures ValidTokenizer(WordTokenizer(n, w))
  {
    hide IsSpace, Strip, ValidSpans, CharSpans;
    forall text ensures ValidSpans(text, WordTokenizer(n, w).spans(text)) {
      CharSpansValid(text, 0);
      if text == Letters(n) {
        CharSpansValid(text, w);
        forall k | 0 <= k < |CharSpans(text, w)| ensures CharSpans(text, w)[k].lo >= w {
          CharSpansFrom(text, w, k);
        }
        LettersSolid(n, 0, w);
        assert Letters(w) != "";
        PrependSpan(text, Span(0, w), CharSpans(text, w));
      }
    }
  }

  lemma WordSpans(n: nat, w: nat)
    requires 0 < w <= n
    ensures var spans := WordTokenizer(n, w).spans(Letters(n));
            && |spans| == n - w + 1 && spans[0] == Span(0, w)
            && forall k | 0 < k < |spans| :: spans[k] == Span(w + k - 1, w + k)
  {
    hide IsSpace;
    CharSpansOfLetters(n, w);
  }

  /** A slice of the word's text re-tokenises to its letters, unless it is the whole text. */
  lemma WordSlice(n: nat, w: nat, a: nat, b: nat)
    requires 0 < w <= n && a < b <= n - w + 1
    requires ValidSpans(Letters(n), WordTokenizer(n, w).spans(Letters(n)))
    ensures var tok := WordTokenizer(n, w);
            var spans := tok.spans(Letters(n));
            b <= |spans| &&
            var piece := Slice(Letters(n), spans, a, b);
            && piece != ""
            && |tok.spans(piece)| == if a == 0 && b < n - w + 1 then b + w - 1 else b - a
  {
    hide IsSpace, Strip, LStrip, RStrip;
    WordSpans(n, w);
    var spans := WordTokenizer(n, w).spans(Letters(n));
    var lo, hi := spans[a].lo, spans[b - 1].hi;
    LettersSolid(n, lo, hi);
    CharSpansOfLetters(hi - lo, 0);
    if hi - lo != n {
      assert |Letters(hi - lo)| != |Letters(n)|;
    }
  }

  lemma WordDrift(n: nat, w: nat)
    requires 0 < w <= n
    requires ValidSpans(Letters(n), WordTokenizer(n, w).spans(Letters(n)))
    ensures DriftAtMost(WordTokenizer(n, w), Letters(n), WordTokenizer(n, w).spans(Letters(n)), w - 1)
  {
    hide IsSpace, Strip, LStrip, RStrip, Slice;
    var tok, text := WordTokenizer(n, w), Letters(n);
    WordSpans(n, w);
    forall a, b | 0 <= a < b <= |tok.spans(text)|
      ensures |tok.spans(Slice(text, tok.spans(text), a, b))| <= b - a + (w - 1)
    {
      WordSlice(n, w, a, b);
    }
  }

  /** No window of the word's text that yields anything covers token `t`. */
  lemma WordSkipped(size: nat, overlap: nat, n: nat, t: nat)
    requires overlap < size && n == size + overlap + 2 && t == size - overlap - 1
    requires ValidTokenizer(WordTokenizer(n, overlap + 2))
    ensures var tok := WordTokenizer(n, overlap + 2);
            && t < |tok.spans(Letters(n))|
            && forall w | w in Windows(tok, Letters(n), tok.spans(Letters(n)), 0, size, overlap) ::
                 w.piece == "" || !(w.start <= t < w.end)
  {
    hide IsSpace, Strip, LStrip, RStrip, Fit, Slice, ValidSpans, CharSpans;
    var tok, text := WordTokenizer(n, overlap + 2), Letters(n);
    WordSpans(n, overlap + 2);
    var spans := tok.spans(text);
    WordFit(n, overlap + 2, size, size);
    var first := WindowAt(tok, text, spans, 0, size);
    var rest := Windows(tok, text, spans, size - overlap, size, overlap);
    assert Windows(tok, text, spans, 0, size, overlap) == [first] + rest;
    forall v | v in [first] + rest ensures v.piece == "" || !(v.start <= t < v.end) {
      if v in rest {
        WindowsGood(tok, text, spans, size - overlap, size, overlap, v);
      }
    }
  }

  lemma OnlyYieldingCovers(tok: Tokenizer, text: string, size: nat, overlap: nat, t: nat)
    requires ValidTokenizer(tok) && overlap < size && Chunks(tok, text, size, overlap).Ok? && Strip(text) != ""
    requires forall w | w in Windows(tok, Strip(text), tok.spans(Strip(text)), 0, size, overlap) ::
               w.piece == "" || !(w.start <= t < w.end)
    ensures !Covered(tok, text, size, overlap, t)
  {
    hide Windows, Strip, Pieces, ValidSpans;
    PiecesSource(Windows(tok, Strip(text), tok.spans(Strip(text)), 0, size, overlap));
  }

  /**
   For every window size and overlap there is a tokenizer drifting by one more than the overlap that
   makes the fixed step skip a token: no emitted window covers it.
   */
  lemma DriftBoundTight(size: nat, overlap: nat) returns (tok: Tokenizer, text: string, t: nat)
    requires overlap < size
    ensures ValidTokenizer(tok) && Strip(text) == text && Chunks(tok, text, size, overlap).Ok?
    ensures DriftAtMost(tok, text, tok.spans(text), overlap + 1)
    ensures t < |tok.spans(text)| && !Covered(tok, text, size, overlap, t)
  {
    hide IsSpace, Strip, LStrip, RStrip, Windows, ValidSpans, DriftAtMost, CharSpans, Pieces, Covered;
    var w := overlap + 2;
    var n := size + w;
    tok, text, t := WordTokenizer(n, w), Letters(n), size - overlap - 1;
    WordTokenizerValid(n, w);
    WordDrift(n, w);
    LettersSolid(n, 0, n);
    assert Letters(n)[0..n] == Letters(n);
    WordSkipped(size, overlap, n, t);
    assert text != "";
    OnlyYieldingCovers(tok, text, size, overlap, t);
  }

  /** Fitting shrinks the first window down to the tokens whose letters fit. */
  lemma {:induction false} WordFit(n: nat, w: nat, size: nat, end: nat)
    requires 1 < w <= n && size == n - w && 0 <= end <= size && end + w > size
    requires ValidSpans(Letters(n), WordTokenizer(n, w).spans(Letters(n)))
    requires |WordTokenizer(n, w).spans(Letters(n))| == n - w + 1
    ensures var tok := WordTokenizer(n, w);
            var (piece, last) := Fit(tok, Letters(n), tok.spans(Letters(n)), 0, end, size);
            if size + 1 > w then last == size + 1 - w else piece == "" && last == 1
    decreases end
  {
    hide IsSpace, Strip, LStrip, RStrip, Slice;
    var tok := WordTokenizer(n, w);
    var spans := tok.spans(Letters(n));
    if end > 0 {
      WordSlice(n, w, 0, end);
      FitStep(tok, Letters(n), spans, 0, end, size);
      if end + w - 1 > size {
        WordFit(n, w, size, end - 1);
      }
    }
  }
}
