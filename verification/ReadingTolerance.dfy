/**
 What the quote check forgives (`src/geek_crawler_rag/citation_verify.py`): the case of letters, the kind and
 length of whitespace, and whitespace at the ends. Nothing here is stated through the normal form.
 */
module ReadingTolerance {
  import opened Wrappers
  import opened Text
  import opened BlockText
  import opened CitationVerify
  import opened EscapedQuotes

  /** Whitespace stands against whitespace, run for run, and any other character against one of its case. */
  predicate Alike(tables: CharTables, a: string, b: string)
    decreases |a|
  {
    if a == "" || b == "" then a == b
    else if IsSpace(a[0]) && IsSpace(b[0]) then Alike(tables, LStrip(a[1..]), LStrip(b[1..]))
    else
      && !IsSpace(a[0]) && !IsSpace(b[0])
      && tables.lower(a[0]) == tables.lower(b[0])
      && Alike(tables, a[1..], b[1..])
  }

  /** The same text up to case and whitespace. */
  predicate SameText(tables: CharTables, a: string, b: string) {
    Alike(tables, Strip(a), Strip(b))
  }

  /** Lower-casing takes characters to characters and leaves whitespace and ink apart, as for plain ASCII. */
  ghost predicate CharForChar(tables: CharTables) {
    forall c :: |tables.lower(c)| == 1 && (IsSpace(tables.lower(c)[0]) <==> IsSpace(c))
  }

  predicate OnPage(tables: CharTables, quote: string, piece: string, page: string) {
    Contains(page, piece) && SameText(tables, quote, piece)
  }

  predicate IsCellText(tables: CharTables, quote: string, cell: Option<string>) {
    cell.Some? && SameText(tables, quote, cell.value)
  }

  predicate HasCellText(tables: CharTables, quote: string, blocks: seq<Block>) {
    exists i | 0 <= i < |blocks| ::
      blocks[i].Row? && exists j | 0 <= j < |blocks[i].cells| :: IsCellText(tables, quote, blocks[i].cells[j])
  }

  // ---- The relation and the normal form ----

  lemma BlankHeads(tables: CharTables, a: string)
    requires a != "" && IsSpace(a[0])
    ensures LStrip(a[1..]) == LStrip(a) && |LStrip(a)| < |a|
    ensures Lower(tables.lower, Collapse(a)) == tables.lower(' ') + Lower(tables.lower, Collapse(LStrip(a)))
  {
    hide IsSpace, Collapse;
    CollapseBlankHead(a);
    assert (" " + Collapse(LStrip(a)))[1..] == Collapse(LStrip(a));
  }

  lemma InkHeads(tables: CharTables, a: string)
    requires a != "" && !IsSpace(a[0])
    ensures Lower(tables.lower, Collapse(a)) == tables.lower(a[0]) + Lower(tables.lower, Collapse(a[1..]))
  {
    hide IsSpace, Collapse;
    CollapseSolidHead(a, a[1..]);
    assert ([a[0]] + Collapse(a[1..]))[1..] == Collapse(a[1..]);
  }

  lemma {:induction false} AlikeFolds(tables: CharTables, a: string, b: string)
    requires Alike(tables, a, b)
    ensures Lower(tables.lower, Collapse(a)) == Lower(tables.lower, Collapse(b))
    decreases |a|
  {
    hide IsSpace, Collapse, Lower, LStrip;
    if a != "" && b != "" {
      if IsSpace(a[0]) {
        BlankHeads(tables, a);
        BlankHeads(tables, b);
        AlikeFolds(tables, LStrip(a), LStrip(b));
      } else {
        InkHeads(tables, a);
        InkHeads(tables, b);
        AlikeFolds(tables, a[1..], b[1..]);
      }
    }
  }

  lemma SameHead(x: string, y: string, u: string, v: string)
    requires |x| == |y| == 1 && x + u == y + v
    ensures x == y && u == v
  {
    assert (x + u)[..1] == x && (y + v)[..1] == y;
    assert (x + u)[1..] == u && (y + v)[1..] == v;
  }

  lemma FoldHead(tables: CharTables, a: string)
    requires CharForChar(tables) && a != ""
    ensures var l := Lower(tables.lower, Collapse(a)); l != "" && (IsSpace(l[0]) <==> IsSpace(a[0]))
  {
    hide IsSpace, Collapse, Lower, LStrip;
    SpaceFacts();
    if IsSpace(a[0]) {
      BlankHeads(tables, a);
    } else {
      InkHeads(tables, a);
    }
  }

  lemma NothingFolds(tables: CharTables)
    ensures Lower(tables.lower, Collapse("")) == ""
  {
  }

  lemma {:induction false} FoldedAlike(tables: CharTables, a: string, b: string)
    requires CharForChar(tables) && Lower(tables.lower, Collapse(a)) == Lower(tables.lower, Collapse(b))
    ensures Alike(tables, a, b)
    decreases |a|
  {
    hide IsSpace, Collapse, Lower, LStrip;
    NothingFolds(tables);
    if a == "" {
      if b != "" { FoldHead(tables, b); }
    } else if b == "" {
      FoldHead(tables, a);
    } else {
      FoldHead(tables, a);
      FoldHead(tables, b);
      if IsSpace(a[0]) {
        BlankHeads(tables, a);
        BlankHeads(tables, b);
        SameHead(tables.lower(' '), tables.lower(' '),
                 Lower(tables.lower, Collapse(LStrip(a))), Lower(tables.lower, Collapse(LStrip(b))));
        FoldedAlike(tables, LStrip(a), LStrip(b));
      } else {
        InkHeads(tables, a);
        InkHeads(tables, b);
        SameHead(tables.lower(a[0]), tables.lower(b[0]),
                 Lower(tables.lower, Collapse(a[1..])), Lower(tables.lower, Collapse(b[1..])));
        FoldedAlike(tables, a[1..], b[1..]);
      }
    }
  }

  /** The normal form decides the relation, and nothing finer where lower-casing may lengthen a character. */
  lemma SameTextIff(tables: CharTables, a: string, b: string)
    ensures SameText(tables, a, b) ==> Normalize(tables, a) == Normalize(tables, b)
    ensures CharForChar(tables) && Normalize(tables, a) == Normalize(tables, b) ==> SameText(tables, a, b)
  {
    hide Strip, Collapse, Lower, CharForChar, Alike;
    if SameText(tables, a, b) {
      AlikeFolds(tables, Strip(a), Strip(b));
    } else if CharForChar(tables) && Normalize(tables, a) == Normalize(tables, b) {
      FoldedAlike(tables, Strip(a), Strip(b));
    }
  }

  // ---- Long quotes ----

  lemma SameCleaned(tables: CharTables, quote: string, cut: string)
    requires KeepsEscapes(tables) && !HasEscape(cut) && SameText(tables, quote, cut)
    ensures !HasEscape(quote)
    ensures Normalize(tables, CleanProse(tables, quote)) == Normalize(tables, cut)
  {
    hide Strip, Normalize, HasEscape, KeepsEscapes, SameText;
    SameTextIff(tables, quote, cut);
    NormalizeKeepsEscapes(tables, quote);
    NormalizeKeepsEscapes(tables, cut);
    NormalizeStripped(tables, quote);
  }

  /** A quote that is a quotable, escape-free, run-free cut of the page up to case and whitespace is accepted. */
  lemma SameTextVerifies(tables: CharTables, page: string, cut: string, quote: string, blocks: seq<Block>)
    requires KeepsEscapes(tables)
    requires Contains(page, cut) && Quotable(tables, cut) && !HasEscape(cut) && !HasPipeRun(cut)
    requires SameText(tables, quote, cut)
    ensures VerifyQuote(tables, quote, page, blocks)
  {
    hide Strip, Normalize, HasEscape, KeepsEscapes, SameText, CleanProse, HasPipeRun, Contains, CollapsePipes,
      HasCell;
    SameCleaned(tables, quote, cut);
    VerdictIsContains(tables, cut, page, blocks);
    RunFreeCutVerifies(tables, page, cut, blocks);
    NothingNormalizes(tables);
  }

  /** A split of the collapsed text is a split of the text. */
  lemma {:induction false} CollapseSplit(s: string, i: nat) returns (a: string, b: string)
    requires i <= |Collapse(s)|
    ensures s == a + b && Collapse(a) == Collapse(s)[..i] && Collapse(b) == Collapse(s)[i..]
    decreases |s|
  {
    hide IsSpace, Collapse, LStrip;
    CollapseNothing();
    if i == 0 {
      a, b := "", s;
    } else if IsSpace(s[0]) {
      CollapseBlankHead(s);
      var a', b' := CollapseSplit(LStrip(s), i - 1);
      var sp := LStripSplit(s);
      a, b := sp + a', b';
      assert |sp| == |s| - |LStrip(s)|;
      assert a[0] == sp[0];
      BlankThenInk(sp, a');
      CollapseBlankHead(a);
      assert s == a + b;
    } else {
      CollapseSolidHead(s, s[1..]);
      var a', b' := CollapseSplit(s[1..], i - 1);
      a, b := [s[0]] + a', b';
      CollapseSolidHead(a, a');
      assert s == [s[0]] + s[1..];
    }
  }

  lemma {:induction false} BlankThenInk(sp: string, a: string)
    requires AllSpace(sp) && (a != "" ==> !IsSpace(a[0]))
    ensures LStrip(sp + a) == a
  {
    hide IsSpace;
    if sp == "" {
      assert sp + a == a;
    } else {
      assert (sp + a)[1..] == sp[1..] + a;
      BlankThenInk(sp[1..], a);
    }
  }

  lemma {:induction false} LowerLength(tables: CharTables, s: string)
    requires CharForChar(tables)
    ensures |Lower(tables.lower, s)| == |s|
  {
    hide IsSpace;
    if s != "" {
      LowerLength(tables, s[1..]);
    }
  }

  /** A piece of the lower-cased text is a piece of the text, lower-cased. */
  lemma LowerSplit(tables: CharTables, s: string, i: nat, n: nat)
    requires CharForChar(tables) && i + n <= |s|
    ensures |Lower(tables.lower, s)| == |s|
    ensures Lower(tables.lower, s)[i..i + n] == Lower(tables.lower, s[i..i + n])
  {
    hide IsSpace, Lower, CharForChar;
    var a, t, z := s[..i], s[i..i + n], s[i + n..];
    assert s == a + t + z;
    LowerAppend(tables.lower, a + t, z);
    LowerAppend(tables.lower, a, t);
    LowerLength(tables, s);
    LowerLength(tables, a);
    LowerLength(tables, t);
  }

  lemma CollapsePiece(s: string, i: nat, n: nat) returns (t: string)
    requires i + n <= |Collapse(s)|
    ensures Contains(s, t) && Collapse(t) == Collapse(s)[i..i + n]
  {
    hide IsSpace, Collapse, Contains;
    var a, b := CollapseSplit(s, i);
    var t', z := CollapseSplit(b, n);
    t := t';
    assert s == a + t + z;
    ContainsIntro(a, t, z);
  }

  /** Text that collapses and folds to something without whitespace at its ends has none itself. */
  lemma FoldEnds(tables: CharTables, t: string, m: string)
    requires CharForChar(tables) && Lower(tables.lower, Collapse(t)) == Lower(tables.lower, Collapse(m))
    requires m != "" && !IsSpace(m[0]) && !IsSpace(m[|m| - 1])
    ensures Strip(t) == t
  {
    hide IsSpace, Collapse, Lower, CharForChar;
    NothingFolds(tables);
    FoldHead(tables, m);
    FoldHead(tables, t);
    FoldLast(tables, m);
    FoldLast(tables, t);
    assert t + "" == t && "" + t == t;
    StripAround("", t, "");
  }

  lemma FoldLast(tables: CharTables, a: string)
    requires CharForChar(tables) && a != ""
    ensures var l := Lower(tables.lower, Collapse(a)); l != "" && (IsSpace(l[|l| - 1]) <==> IsSpace(a[|a| - 1]))
  {
    hide IsSpace, Collapse, Lower, LStrip, CharForChar, RStrip;
    FoldHead(tables, a);
    var r := RStrip(a);
    var sp := RStripSplit(a);
    CollapseAppendRight(r, sp);
    LowerAppend(tables.lower, Collapse(r), Collapse(sp));
    if IsSpace(a[|a| - 1]) {
      assert sp != "" by { RStripEnds(a); }
      assert a[|a| - 1] == sp[|sp| - 1];
      BlankFolds(tables, sp);
    } else {
      RStripInk(a);
      var h, z := a[..|a| - 1], a[|a| - 1..];
      assert a == h + z;
      CollapseAppendLeft(h, z);
      LowerAppend(tables.lower, Collapse(h), Collapse(z));
      FoldHead(tables, z);
      InkHeads(tables, z);
      assert z[1..] == "";
      NothingFolds(tables);
      OneChar(tables, z[0]);
    }
  }

  lemma OneChar(tables: CharTables, c: char)
    requires CharForChar(tables)
    ensures |tables.lower(c)| == 1
  {
  }

  lemma RStripEnds(a: string)
    requires a != "" && IsSpace(a[|a| - 1])
    ensures RStrip(a) != a
  {
    hide IsSpace;
  }

  lemma RStripInk(a: string)
    requires a != "" && !IsSpace(a[|a| - 1])
    ensures RStrip(a) == a
  {
    hide IsSpace;
  }

  lemma BlankFolds(tables: CharTables, sp: string)
    requires CharForChar(tables) && sp != "" && AllSpace(sp)
    ensures Collapse(sp) == " " && Lower(tables.lower, " ") == tables.lower(' ')
    ensures |tables.lower(' ')| == 1 && IsSpace(tables.lower(' ')[0])
  {
    hide IsSpace, Collapse;
    SpaceFacts();
    LStripBlank(sp);
    CollapseBlankHead(sp);
    CollapseNothing();
    assert Lower(tables.lower, " "[1..]) == "";
  }

  /** What the substring test finds is a piece of the page that reads like the quote. */
  lemma FoundIsSameText(tables: CharTables, page: string, q: string) returns (piece: string)
    requires CharForChar(tables) && Strip(q) != ""
    requires Contains(Normalize(tables, page), Normalize(tables, q))
    ensures OnPage(tables, q, piece, page)
  {
    hide IsSpace, Collapse, Lower, CharForChar, Strip, Alike;
    var p, m := Strip(page), Strip(q);
    var f := Normalize(tables, q);
    var i: nat :| i <= |Normalize(tables, page)| - |f| && OccursAt(Normalize(tables, page), f, i);
    LowerLength(tables, Collapse(p));
    LowerSplit(tables, Collapse(p), i, |f|);
    piece := CollapsePiece(p, i, |f|);
    var a, b := StripSplit(page);
    ContainsIntro(a, p, b);
    ContainsTransitive(page, p, piece);
    StripEnds(q);
    FoldEnds(tables, piece, m);
    FoldedAlike(tables, m, piece);
  }

  /**
   With lower-casing character for character, a quote that is long enough is accepted exactly when, cleaned, it is
   the same text as some piece of the page, its runs of pipes collapsed.
   */
  lemma LongQuoteIffSameText(tables: CharTables, quote: string, page: string, blocks: seq<Block>)
    requires CharForChar(tables) && Quotable(tables, CleanProse(tables, quote))
    ensures VerifyQuote(tables, quote, page, blocks)
       <==> exists piece :: OnPage(tables, CleanProse(tables, quote), piece, CollapsePipes(page))
  {
    hide IsSpace, Strip, Normalize, CharForChar, SameText, CleanProse, Contains, CollapsePipes, HasCell;
    var clean, body := CleanProse(tables, quote), CollapsePipes(page);
    NothingNormalizes(tables);
    NormalizeStripped(tables, clean);
    assert VerifyQuote(tables, quote, page, blocks)
      <==> Contains(Normalize(tables, body), Normalize(tables, clean));
    if VerifyQuote(tables, quote, page, blocks) {
      var piece := FoundIsSameText(tables, body, clean);
      assert OnPage(tables, CleanProse(tables, quote), piece, CollapsePipes(page));
    } else if piece :| OnPage(tables, CleanProse(tables, quote), piece, CollapsePipes(page)) {
      SameTextIff(tables, clean, piece);
      NormalizeContains(tables, body, piece);
    }
  }

  // ---- Short quotes ----

  /** A quote that is a short, escape-free cell of the page up to case and whitespace is accepted. */
  lemma SameCellVerifies(tables: CharTables, blocks: seq<Block>, k: nat, j: nat, quote: string, plain: string)
    requires KeepsEscapes(tables)
    requires k < |blocks| && blocks[k].Row? && j < |blocks[k].cells| && blocks[k].cells[j].Some?
    requires var cell := blocks[k].cells[j].value;
             !HasEscape(cell) && ShortQuote(tables, cell) && SameText(tables, quote, cell)
    ensures VerifyQuote(tables, quote, plain, blocks)
  {
    hide IsSpace, Normalize, Strip, HasEscape, KeepsEscapes, SameText, CleanProse, CollapsePipes;
    SameCleaned(tables, quote, blocks[k].cells[j].value);
    NothingNormalizes(tables);
    assert IsCell(tables, Normalize(tables, CleanProse(tables, quote)), blocks[k].cells[j]);
  }

  /** A short quote is accepted exactly when, cleaned, it is the same text as some cell as it was stored. */
  lemma ShortQuoteIffSameText(tables: CharTables, quote: string, plain: string, blocks: seq<Block>)
    requires CharForChar(tables) && ShortQuote(tables, CleanProse(tables, quote))
    ensures VerifyQuote(tables, quote, plain, blocks)
       <==> HasCellText(tables, CleanProse(tables, quote), blocks)
  {
    hide IsSpace, Normalize, Strip, CharForChar, SameText, CleanProse, IsCell, IsCellText, CollapsePipes;
    var clean := CleanProse(tables, quote);
    forall i, j | 0 <= i < |blocks| && blocks[i].Row? && 0 <= j < |blocks[i].cells|
      ensures IsCell(tables, Normalize(tables, clean), blocks[i].cells[j])
         <==> IsCellText(tables, clean, blocks[i].cells[j])
    {
      CellIsSameText(tables, clean, blocks[i].cells[j]);
    }
  }

  lemma CellIsSameText(tables: CharTables, clean: string, cell: Option<string>)
    requires CharForChar(tables) && Normalize(tables, clean) != ""
    ensures IsCell(tables, Normalize(tables, clean), cell) <==> IsCellText(tables, clean, cell)
  {
    hide Normalize, CharForChar, SameText;
    NothingNormalizes(tables);
    if cell.Some? {
      SameTextIff(tables, clean, cell.value);
    }
  }

  // ---- Plain ASCII ----

  /** Plain ASCII meets what the tolerance is stated under. */
  lemma AsciiReads()
    ensures CharForChar(ASCII) && KeepsEscapes(ASCII)
  {
    AsciiKeepsEscapes();
  }
}
