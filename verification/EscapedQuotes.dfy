/**
 Quotes of text that carries escaped markup: the first of the two differences between the C# projection and
 this one that `verify_quote` (`src/geek_crawler_rag/citation_verify.py`) is there for.
 */
module EscapedQuotes {
  import opened Wrappers
  import opened Text
  import opened BlockText
  import opened CitationVerify

  // ---- Escapes are still there after normalisation ----

  /** What Unicode lower-casing does to the letters an escape is spelled with, and to everything else. */
  ghost predicate KeepsEscapes(tables: CharTables) {
    forall c ::
      var l := tables.lower(c);
      if EscapeLetter(Fold(c)) then l == [Fold(c)] else l != "" && forall i | 0 <= i < |l| :: !EscapeLetter(Fold(l[i]))
  }

  /** The folded escape letters at the head of `s`, at most `n` of them. */
  function LetterRun(s: string, n: nat): (run: string)
    ensures |run| <= n
  {
    if n == 0 || s == "" || !EscapeLetter(Fold(s[0])) then "" else [Fold(s[0])] + LetterRun(s[1..], n - 1)
  }

  /** An escape is there with or without its backslash. */
  predicate HasBareEscape(s: string) {
    s != "" && (BareEscape(s).Some? || HasBareEscape(s[1..]))
  }

  lemma {:induction false} BareIsEnough(s: string)
    ensures HasEscape(s) <==> HasBareEscape(s)
  {
    hide BareEscape;
    if s != "" {
      BareIsEnough(s[1..]);
      if s[0] == '\\' && BareEscape(s[1..]).Some? {
        NothingIsNone();
      }
    }
  }

  lemma NothingIsNone()
    ensures BareEscape("").None?
  {
  }

  lemma {:induction false} LetterRunIs(s: string, n: nat)
    requires |LetterRun(s, n)| == n
    ensures n <= |s| && FoldAll(s[..n]) == LetterRun(s, n)
  {
    hide EscapeLetter, Fold;
    if n > 0 {
      LetterRunIs(s[1..], n - 1);
      assert s[..n] == [s[0]] + s[1..][..n - 1];
    }
  }

  lemma {:induction false} AllLetters(s: string, n: nat)
    requires n <= |s| && forall i | 0 <= i < n :: EscapeLetter(Fold(s[i]))
    ensures |LetterRun(s, n)| == n
  {
    hide EscapeLetter, Fold;
    if n > 0 {
      AllLetters(s[1..], n - 1);
    }
  }

  lemma UIsLetter()
    ensures EscapeLetter('u')
  {
  }

  /** The letters at the head decide whether there is an escape. */
  lemma EscapeIsItsLetters(s: string)
    ensures var run := LetterRun(s, 5);
            BareEscape(s).Some? <==> |run| == 5 && run[0] == 'u' && Decoded(run[1..]).Some?
  {
    hide LetterRun, Decoded, EscapeLetter;
    if |LetterRun(s, 5)| == 5 {
      LetterRunIs(s, 5);
      assert FoldAll(s[..5])[1..] == FoldAll(s[1..5]);
      assert FoldAll(s[..5])[0] == Fold(s[0]);
    }
    if BareEscape(s).Some? {
      HexLetters(FoldAll(s[1..5]));
      forall i | 0 <= i < 5 ensures EscapeLetter(Fold(s[i])) {
        if i == 0 {
          UIsLetter();
        } else {
          assert FoldAll(s[1..5])[i - 1] == Fold(s[i]);
        }
      }
      AllLetters(s, 5);
    }
  }

  predicate NoLetters(l: string) {
    forall i | 0 <= i < |l| :: !EscapeLetter(Fold(l[i]))
  }

  lemma NoLetterNoEscape(s: string)
    requires s != "" && !EscapeLetter(Fold(s[0]))
    ensures BareEscape(s).None?
  {
    hide EscapeLetter, Fold, BareEscape;
    EscapeIsItsLetters(s);
  }

  /** Text without letters in front of a string neither makes nor breaks an escape. */
  lemma {:induction false} BareBehind(l: string, s: string)
    requires NoLetters(l)
    ensures HasBareEscape(l + s) <==> HasBareEscape(s)
  {
    hide EscapeLetter, Fold, BareEscape;
    if l == "" {
      assert l + s == s;
    } else {
      assert (l + s)[1..] == l[1..] + s;
      NoLetterNoEscape(l + s);
      BareBehind(l[1..], s);
    }
  }

  lemma {:induction false} LetterRunBefore(s: string, l: string, n: nat)
    requires NoLetters(l)
    ensures LetterRun(s + l, n) == LetterRun(s, n)
  {
    hide EscapeLetter, Fold;
    if s == "" {
      assert s + l == l;
    } else if n > 0 {
      assert (s + l)[1..] == s[1..] + l;
      LetterRunBefore(s[1..], l, n - 1);
    }
  }

  lemma {:induction false} BareBefore(s: string, l: string)
    requires NoLetters(l)
    ensures HasBareEscape(s + l) <==> HasBareEscape(s)
  {
    hide EscapeLetter, Fold, BareEscape, LetterRun;
    if s == "" {
      BareBehind(l, "");
      assert l + "" == l == s + l;
    } else {
      assert (s + l)[1..] == s[1..] + l;
      LetterRunBefore(s, l, 5);
      EscapeIsItsLetters(s);
      EscapeIsItsLetters(s + l);
      BareBefore(s[1..], l);
    }
  }

  lemma SpaceIsNoLetter(c: char)
    requires IsSpace(c)
    ensures !EscapeLetter(Fold(c))
  {
  }

  lemma SpacesAreNoLetters(a: string)
    requires AllSpace(a)
    ensures NoLetters(a)
  {
    hide IsSpace, EscapeLetter, Fold;
    forall i | 0 <= i < |a| ensures !EscapeLetter(Fold(a[i])) {
      SpaceIsNoLetter(a[i]);
    }
  }

  lemma BareStrip(s: string)
    ensures HasBareEscape(Strip(s)) <==> HasBareEscape(s)
  {
    hide IsSpace, EscapeLetter, Fold, BareEscape, HasBareEscape, Strip;
    var a, b := StripSplit(s);
    SpacesAreNoLetters(a);
    SpacesAreNoLetters(b);
    BareBehind(a, Strip(s));
    BareBefore(a + Strip(s), b);
  }

  lemma {:induction false} LetterRunCollapse(s: string, n: nat)
    ensures LetterRun(Collapse(s), n) == LetterRun(s, n)
    decreases |s|
  {
    hide IsSpace, EscapeLetter, Fold, Collapse;
    if s == "" {
      CollapseNothing();
    } else if IsSpace(s[0]) {
      CollapseBlankHead(s);
      SpaceFacts();
      SpaceIsNoLetter(s[0]);
      SpaceIsNoLetter(' ');
    } else {
      CollapseSolidHead(s, s[1..]);
      if n > 0 {
        LetterRunCollapse(s[1..], n - 1);
      }
    }
  }

  lemma {:induction false} BareCollapse(s: string)
    ensures HasBareEscape(Collapse(s)) <==> HasBareEscape(s)
    decreases |s|
  {
    hide IsSpace, EscapeLetter, Fold, BareEscape, LetterRun, Collapse;
    if s == "" {
      CollapseNothing();
    } else if IsSpace(s[0]) {
      CollapseBlankHead(s);
      BareCollapse(LStrip(s));
      SpaceFacts();
      SpacesAreNoLetters(" ");
      BareBehind(" ", Collapse(LStrip(s)));
      var a := LStripSplit(s);
      SpacesAreNoLetters(a);
      BareBehind(a, LStrip(s));
    } else {
      CollapseSolidHead(s, s[1..]);
      BareCollapse(s[1..]);
      LetterRunCollapse(s, 5);
      EscapeIsItsLetters(s);
      EscapeIsItsLetters(Collapse(s));
    }
  }

  lemma FoldedOnce(c: char)
    ensures Fold(Fold(c)) == Fold(c)
  {
  }

  lemma {:induction false} LetterRunLower(tables: CharTables, s: string, n: nat)
    requires KeepsEscapes(tables)
    ensures LetterRun(Lower(tables.lower, s), n) == LetterRun(s, n)
  {
    hide EscapeLetter, Fold;
    if s != "" && n > 0 {
      var l, rest := tables.lower(s[0]), Lower(tables.lower, s[1..]);
      assert (l + rest)[0] == l[0];
      if EscapeLetter(Fold(s[0])) {
        FoldedOnce(s[0]);
        assert (l + rest)[1..] == rest;
        LetterRunLower(tables, s[1..], n - 1);
      }
    }
  }

  lemma {:induction false} BareLower(tables: CharTables, s: string)
    requires KeepsEscapes(tables)
    ensures HasBareEscape(Lower(tables.lower, s)) <==> HasBareEscape(s)
  {
    hide EscapeLetter, Fold, BareEscape, LetterRun;
    if s != "" {
      var l, rest := tables.lower(s[0]), Lower(tables.lower, s[1..]);
      BareLower(tables, s[1..]);
      LetterRunLower(tables, s, 5);
      EscapeIsItsLetters(s);
      EscapeIsItsLetters(l + rest);
      if EscapeLetter(Fold(s[0])) {
        assert (l + rest)[1..] == rest;
      } else {
        BareBehind(l, rest);
        NoLetterNoEscape(s);
      }
    }
  }

  /** Normalisation neither hides an escape nor makes one. */
  lemma NormalizeKeepsEscapes(tables: CharTables, s: string)
    requires KeepsEscapes(tables)
    ensures HasEscape(Normalize(tables, s)) <==> HasEscape(s)
  {
    hide HasEscape, HasBareEscape, Strip, Collapse, Lower, KeepsEscapes;
    BareIsEnough(s);
    BareStrip(s);
    BareCollapse(Strip(s));
    BareLower(tables, Collapse(Strip(s)));
    BareIsEnough(Normalize(tables, s));
  }

  // ---- Short quotes and escapes ----

  /** A stored cell without an escape that reads, up to case and whitespace, like `text`. */
  predicate PlainCellLike(tables: CharTables, text: string, cell: Option<string>) {
    cell.Some? && !HasEscape(cell.value) && Normalize(tables, cell.value) == Normalize(tables, text)
  }

  predicate HasPlainCellLike(tables: CharTables, text: string, blocks: seq<Block>) {
    exists i | 0 <= i < |blocks| ::
      blocks[i].Row? && exists j | 0 <= j < |blocks[i].cells| :: PlainCellLike(tables, text, blocks[i].cells[j])
  }

  lemma CellMatchIsPlain(tables: CharTables, clean: string, cell: Option<string>)
    requires KeepsEscapes(tables) && !HasEscape(clean) && Normalize(tables, clean) != ""
    ensures IsCell(tables, Normalize(tables, clean), cell) <==> PlainCellLike(tables, clean, cell)
  {
    hide Normalize, HasEscape, KeepsEscapes;
    NothingNormalizes(tables);
    NormalizeKeepsEscapes(tables, clean);
    if cell.Some? {
      NormalizeKeepsEscapes(tables, cell.value);
    }
  }

  /**
   Cells are compared as they were stored, quotes as they are cleaned: a short quote is accepted exactly when
   a cell that holds no escape reads like it.
   */
  lemma ShortQuoteIff(tables: CharTables, quote: string, plain: string, blocks: seq<Block>)
    requires KeepsEscapes(tables) && ShortQuote(tables, CleanProse(tables, quote))
    ensures VerifyQuote(tables, quote, plain, blocks)
       <==> HasPlainCellLike(tables, CleanProse(tables, quote), blocks)
  {
    hide Normalize, HasEscape, KeepsEscapes, CleanProse, IsCell, PlainCellLike;
    var clean := CleanProse(tables, quote);
    CleanProseIdempotent(tables, quote);
    forall i, j | 0 <= i < |blocks| && blocks[i].Row? && 0 <= j < |blocks[i].cells|
      ensures IsCell(tables, Normalize(tables, clean), blocks[i].cells[j])
         <==> PlainCellLike(tables, clean, blocks[i].cells[j])
    {
      CellMatchIsPlain(tables, clean, blocks[i].cells[j]);
    }
  }

  /** Where a page has one cell, a short quote of its rendering is refused exactly when the cell holds an escape. */
  lemma LoneCellIff(tables: CharTables, cell: string, plain: string)
    requires KeepsEscapes(tables) && ShortQuote(tables, CleanProse(tables, cell))
    ensures VerifyQuote(tables, CleanProse(tables, cell), plain, [Row([Some(cell)])]) <==> !HasEscape(cell)
  {
    hide Normalize, HasEscape, KeepsEscapes, Strip;
    var clean, blocks := CleanProse(tables, cell), [Row([Some(cell)])];
    CleanProseIdempotent(tables, cell);
    ShortQuoteIff(tables, clean, plain, blocks);
    NormalizeStripped(tables, cell);
    assert blocks[0].cells[0] == Some(cell);
    assert HasPlainCellLike(tables, clean, blocks) <==> PlainCellLike(tables, clean, Some(cell));
  }

  /** The tables of plain ASCII text. */
  const ASCII: CharTables := CharTables(
    c => if 'A' <= c <= 'Z' then [(c as int + 32) as char] else [c],
    c => 'A' <= c <= 'Z' || 'a' <= c <= 'z' || '0' <= c <= '9')

  lemma {:induction false} NothingToDecode(s: string)
    requires |s| < 5
    ensures Decode(s) == s
  {
    if s != "" {
      NothingToDecode(s[1..]);
      assert s == [s[0]] + s[1..];
    }
  }

  lemma EscapeBehind(c: char, s: string)
    requires c != '\\' && Fold(c) != 'u'
    ensures HasEscape(s) ==> HasEscape([c] + s)
    ensures Decode([c] + s) == [c] + Decode(s)
  {
    assert ([c] + s)[1..] == s;
  }

  lemma {:induction false} SolidCollapse(s: string)
    requires forall i | 0 <= i < |s| :: IsSpace(s[i]) ==> s[i] == ' ' && i + 1 < |s| && !IsSpace(s[i + 1])
    ensures Collapse(s) == s
  {
    hide IsSpace;
    if s != "" {
      SolidCollapse(s[1..]);
      assert s == [s[0]] + s[1..];
      if IsSpace(s[0]) {
        assert LStrip(s) == LStrip(s[1..]) == s[1..];
      }
    }
  }

  lemma AmpersandEscape()
    ensures EscapeAt("u0026 D") == Some((5, '&')) && "u0026 D"[5..] == " D"
  {
    hide IsSpace;
    assert "u0026 D"[1..5] == "0026";
    assert FoldAll("0026") == "0026";
  }

  lemma AmpersandDecoded()
    ensures HasEscape("R u0026 D") && Decode("R u0026 D") == "R & D"
  {
    hide IsSpace, EscapeAt, Decode;
    var u := "u0026 D";
    AmpersandEscape();
    NothingToDecode(" D");
    DecodeEscape(u, 5, '&');
    EscapeBehind(' ', u);
    EscapeBehind('R', " " + u);
    assert ['&'] + " D" == "& D";
    assert ['R'] + ([' '] + u) == "R u0026 D" && ['R'] + ([' '] + "& D") == "R & D";
  }

  lemma DecodeEscape(s: string, n: nat, c: char)
    requires EscapeAt(s) == Some((n, c))
    ensures HasEscape(s) && Decode(s) == [c] + Decode(s[n..])
  {
    hide EscapeAt;
  }

  lemma InkFacts()
    ensures !IsSpace('R') && !IsSpace('D') && !IsSpace('&')
  {
  }

  lemma AmpersandCell()
    ensures HasEscape("R u0026 D") && CleanProse(ASCII, "R u0026 D") == "R & D"
    ensures Strip("R & D") == "R & D" && Collapse("R & D") == "R & D"
  {
    hide IsSpace, HasEscape, Decode, DropTags, Collapse;
    AmpersandDecoded();
    NoTagWithoutOpening(ASCII, "R & D");
    NothingElseDropped(ASCII, "R & D");
    InkFacts();
    SolidCollapse("R & D");
    assert LStrip("R & D") == "R & D";
  }

  lemma {:induction false} LowerAscii(s: string)
    ensures var l := Lower(ASCII.lower, s); |l| == |s| && forall i | 0 <= i < |s| :: l[i] == ASCII.lower(s[i])[0]
  {
    if s != "" {
      LowerAscii(s[1..]);
    }
  }

  lemma AsciiKeepsEscapes()
    ensures KeepsEscapes(ASCII)
  {
  }

  /** A page showing `R & D` in a cell refuses the quote `R & D` if the cell is stored with its escape. */
  lemma EscapedCellRefused()
    ensures KeepsEscapes(ASCII) && ShortQuote(ASCII, "R & D")
    ensures var blocks := [Row([Some("R u0026 D")])];
            Plaintext(ASCII, blocks) == "R & D" && !VerifyQuote(ASCII, "R & D", Plaintext(ASCII, blocks), blocks)
  {
    hide IsSpace, KeepsEscapes, HasEscape, CleanProse;
    var cell, blocks := "R u0026 D", [Row([Some("R u0026 D")])];
    AmpersandCell();
    AsciiKeepsEscapes();
    SpaceFacts();
    LowerAscii("R & D");
    assert Normalize(ASCII, "R & D")[0] == 'r';
    assert PresentCells([Some(cell)]) == [cell];
    assert CleanCells(ASCII, [Some(cell)]) == ["R & D"];
    assert CleanCells(ASCII, blocks[0].cells) == ["R & D"];
    RowAlone(ASCII, blocks[0]);
    LoneCellIff(ASCII, cell, "R & D");
  }

  // ---- Raw text quoted whole ----

  lemma BlockAlone(tables: CharTables, block: Block)
    requires block.Prose? && block.kind != Code && Strip(CleanProse(tables, block.text)) != ""
    ensures Plaintext(tables, [block]) == CleanProse(tables, block.text)
  {
    hide Strip, CleanProse, IsSpace;
    var line := CleanProse(tables, block.text);
    assert Rendered(tables, [block]) == [line];
    assert NonBlank([line]) == [line];
    JoinOne(BLOCK_SEPARATOR, line);
  }

  /**
   The stored text of a block that is no code, quoted whole with its escapes as the C# projection has it, is
   accepted exactly when what the page shows of it holds no run of pipes.
   */
  lemma RawBlockIff(tables: CharTables, blocks: seq<Block>, k: nat)
    requires FoldsPlainly(tables)
    requires k < |blocks| && blocks[k].Prose? && blocks[k].kind != Code
    requires Quotable(tables, CleanProse(tables, blocks[k].text))
    ensures VerifyQuote(tables, blocks[k].text, Plaintext(tables, blocks), blocks)
       <==> !HasPipeRun(CleanProse(tables, blocks[k].text))
  {
    hide CleanProse, Strip, Quotable, FoldsPlainly, HasPipeRun, Plaintext, CollapsePipes, QuoteInText;
    var raw, page := blocks[k].text, Plaintext(tables, blocks);
    var clean := CleanProse(tables, raw);
    CleanProseIdempotent(tables, raw);
    VerdictIsContains(tables, clean, page, blocks);
    BlockAlone(tables, blocks[k]);
    assert blocks == blocks[..k] + [blocks[k]] + blocks[k + 1..];
    PlaintextContains(tables, blocks[..k], [blocks[k]], blocks[k + 1..]);
    CutVerifiesIffRunFree(tables, page, clean, blocks);
  }
}
