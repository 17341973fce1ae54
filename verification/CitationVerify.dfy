/**
 Quote verification against the page projection (`src/geek_crawler_rag/citation_verify.py`), modulo
 whitespace, case and, for quotes cut by the C# projection, empty table cells.
 */
module CitationVerify {
  import opened Wrappers
  import opened Text
  import opened BlockText

  const QUOTE_FLOOR: nat := 12

  /** `_normalize_ws`. */
  function Normalize(tables: CharTables, text: string): string {
    Lower(tables.lower, Collapse(Strip(text)))
  }

  predicate HasAlnum(tables: CharTables, s: string) {
    exists i | 0 <= i < |s| :: tables.isAlnum(s[i])
  }

  /** A quote long enough for the substring test and carrying at least one letter or digit. */
  predicate Quotable(tables: CharTables, quote: string) {
    var q := Normalize(tables, quote);
    |q| >= QUOTE_FLOOR && HasAlnum(tables, q)
  }

  predicate IsCell(tables: CharTables, q: string, cell: Option<string>) {
    cell.Some? && cell.value != "" && Normalize(tables, cell.value) == q
  }

  predicate HasCell(tables: CharTables, q: string, blocks: seq<Block>) {
    exists i | 0 <= i < |blocks| ::
      blocks[i].Row? && exists j | 0 <= j < |blocks[i].cells| :: IsCell(tables, q, blocks[i].cells[j])
  }

  function QuoteInText(tables: CharTables, quote: string, plain: string, blocks: seq<Block>): bool {
    var q := Normalize(tables, quote);
    if q == "" || !HasAlnum(tables, q) then false
    else if |q| >= QUOTE_FLOOR then Contains(Normalize(tables, plain), q)
    else HasCell(tables, q, blocks)
  }

  /** The first character that is not whitespace. */
  function Solid(s: string): Option<char> {
    if LStrip(s) == "" then None else Some(LStrip(s)[0])
  }

  /** A `|` whose next non-blank character is another `|`. */
  predicate PipeRunAt(s: string) {
    s != "" && s[0] == '|' && Solid(s[1..]) == Some('|')
  }

  predicate HasPipeRun(s: string) {
    s != "" && (PipeRunAt(s) || HasPipeRun(s[1..]))
  }

  /** `_EMPTY_CELL_RUN.sub("|", s)`: of every run of pipes apart by whitespace only, the last is kept. */
  function CollapsePipes(s: string): string
    decreases |s|
  {
    if s == "" then ""
    else if PipeRunAt(s) then CollapsePipes(LStrip(s[1..]))
    else [s[0]] + CollapsePipes(s[1..])
  }

  function VerifyQuote(tables: CharTables, quote: string, plain: string, blocks: seq<Block>): bool {
    QuoteInText(tables, CleanProse(tables, quote), CollapsePipes(plain), blocks)
  }

  // ---- Normalisation keeps substrings ----

  lemma LowerContains(tables: CharTables, x: string, y: string, z: string)
    ensures Contains(Lower(tables.lower, x + (y + z)), Lower(tables.lower, y))
  {
    hide Lower, Contains;
    LowerAppend(tables.lower, x, y + z);
    LowerAppend(tables.lower, y, z);
    var lx, ly, lz := Lower(tables.lower, x), Lower(tables.lower, y), Lower(tables.lower, z);
    assert lx + (ly + lz) == lx + ly + lz;
    ContainsIntro(lx, ly, lz);
  }

  lemma NormalizeContains(tables: CharTables, s: string, t: string)
    requires Contains(s, t)
    ensures Contains(Normalize(tables, s), Normalize(tables, t))
  {
    hide IsSpace, LStrip, RStrip, Lower, Collapse, Contains;
    StripContains(s, t);
    var m := Strip(t);
    var u, v := ContainsSplit(Strip(s), m);
    if m == "" {
      NothingNormalizes(tables);
      EmptyInAll(Normalize(tables, s));
      assert Normalize(tables, t) == Lower(tables.lower, Collapse(Strip("")));
    } else {
      StripEnds(t);
      CollapseAppendLeft(u, m + v);
      CollapseAppendRight(m, v);
      assert u + (m + v) == u + m + v;
      LowerContains(tables, Collapse(u), Collapse(m), Collapse(v));
    }
  }

  lemma EmptyInAll(s: string)
    ensures Contains(s, "")
  {
    assert OccursAt(s, "", 0);
  }

  lemma NothingNormalizes(tables: CharTables)
    ensures Normalize(tables, "") == "" && Strip("") == ""
  {
  }

  lemma StripEnds(s: string)
    requires Strip(s) != ""
    ensures !IsSpace(Strip(s)[0]) && !IsSpace(Strip(s)[|Strip(s)| - 1])
  {
    hide IsSpace;
    StripIdempotent(s);
    var _, _ := StripSplit(s);
  }

  /** A quotable quote cut from any text that is itself part of the page is found in the page. */
  lemma CutQuoteVerifies(tables: CharTables, page: string, chunk: string, quote: string, blocks: seq<Block>)
    requires Contains(page, chunk) && Contains(chunk, quote)
    requires Quotable(tables, quote)
    ensures QuoteInText(tables, quote, page, blocks)
  {
    hide IsSpace;
    ContainsTransitive(page, chunk, quote);
    NormalizeContains(tables, page, quote);
  }

  // ---- Runs of pipes ----

  lemma {:induction false} LStripKeepsTail(a: string, v: string)
    requires LStrip(a) != ""
    ensures LStrip(a + v) == LStrip(a) + v
  {
    hide IsSpace;
    if IsSpace(a[0]) {
      assert (a + v)[1..] == a[1..] + v;
      LStripKeepsTail(a[1..], v);
    }
  }

  lemma {:induction false} CollapsePipesSuffix(u: string, w: string) returns (x: string)
    requires w != "" && !IsSpace(w[0])
    ensures CollapsePipes(u + w) == x + CollapsePipes(w)
    decreases |u|
  {
    hide IsSpace;
    if u == "" {
      x := "";
      assert u + w == w;
    } else {
      assert (u + w)[1..] == u[1..] + w;
      if PipeRunAt(u + w) {
        LStripAppend(u[1..], w);
        x := CollapsePipesSuffix(LStrip(u[1..]), w);
      } else {
        var x' := CollapsePipesSuffix(u[1..], w);
        x := [u[0]] + x';
      }
    }
  }

  lemma {:induction false} CollapsePipesStart(s: string)
    requires s != "" && s[0] == '|'
    ensures CollapsePipes(s) != "" && CollapsePipes(s)[0] == '|'
    decreases |s|
  {
    hide IsSpace;
    if PipeRunAt(s) {
      CollapsePipesStart(LStrip(s[1..]));
    }
  }

  /** Text without a run of its own survives whole, whatever follows it. */
  lemma {:induction false} CollapsePipesPrefix(t: string, v: string) returns (y: string)
    requires t != "" && !IsSpace(t[|t| - 1]) && !HasPipeRun(t)
    ensures CollapsePipes(t + v) == t + y
  {
    hide IsSpace;
    assert (t + v)[1..] == t[1..] + v;
    if |t| == 1 {
      if t[0] == '|' {
        CollapsePipesStart(t + v);
        y := CollapsePipes(t + v)[1..];
      } else {
        y := CollapsePipes(v);
        assert t[1..] + v == v;
      }
    } else {
      LStripBlank(t[1..]);
      assert t[1..][|t| - 2] == t[|t| - 1];
      LStripKeepsTail(t[1..], v);
      y := CollapsePipesPrefix(t[1..], v);
      assert [t[0]] + (t[1..] + y) == t + y;
    }
  }

  lemma {:induction false} CollapsePipesSolid(s: string)
    ensures Solid(CollapsePipes(s)) == Solid(s)
    decreases |s|
  {
    hide IsSpace;
    SpaceFacts();
    if s != "" {
      if PipeRunAt(s) {
        CollapsePipesSolid(LStrip(s[1..]));
      } else {
        CollapsePipesSolid(s[1..]);
        assert CollapsePipes(s)[1..] == CollapsePipes(s[1..]);
      }
    }
  }

  lemma {:induction false} CollapsePipesLeavesNone(s: string)
    ensures !HasPipeRun(CollapsePipes(s))
    decreases |s|
  {
    hide IsSpace;
    SpaceFacts();
    if s != "" {
      if PipeRunAt(s) {
        CollapsePipesLeavesNone(LStrip(s[1..]));
      } else {
        CollapsePipesLeavesNone(s[1..]);
        CollapsePipesSolid(s[1..]);
        assert CollapsePipes(s)[1..] == CollapsePipes(s[1..]);
      }
    }
  }

  lemma {:induction false} PipeRunPrefix(t: string, v: string)
    requires HasPipeRun(t)
    ensures HasPipeRun(t + v)
  {
    hide IsSpace;
    assert (t + v)[1..] == t[1..] + v;
    if PipeRunAt(t) {
      LStripKeepsTail(t[1..], v);
    } else {
      PipeRunPrefix(t[1..], v);
    }
  }

  lemma {:induction false} PipeRunSuffix(u: string, t: string)
    ensures HasPipeRun(t) ==> HasPipeRun(u + t)
    ensures '|' !in u && HasPipeRun(u + t) ==> HasPipeRun(t)
  {
    hide IsSpace;
    if u == "" {
      assert u + t == t;
    } else {
      assert (u + t)[1..] == u[1..] + t;
      PipeRunSuffix(u[1..], t);
    }
  }

  lemma PipeRunContains(s: string, t: string)
    requires Contains(s, t) && HasPipeRun(t)
    ensures HasPipeRun(s)
  {
    hide IsSpace;
    SpaceFacts();
    var u, v := ContainsSplit(s, t);
    PipeRunPrefix(t, v);
    PipeRunSuffix(u, t + v);
    assert u + (t + v) == s;
  }

  lemma {:induction false} PipeRunBlankTail(t: string, b: string)
    requires AllSpace(b)
    ensures HasPipeRun(t + b) ==> HasPipeRun(t)
  {
    hide IsSpace;
    SpaceFacts();
    if t == "" {
      assert t + b == b;
      assert forall i | 0 <= i < |b| :: IsSpace(b[i]) && b[i] != '|';
      PipeRunSuffix(b, "");
      assert b + "" == b;
    } else {
      assert (t + b)[1..] == t[1..] + b;
      PipeRunBlankTail(t[1..], b);
      if LStrip(t[1..]) == "" {
        LStripBlank(t[1..]);
        LStripBlank(t[1..] + b);
      } else {
        LStripKeepsTail(t[1..], b);
      }
    }
  }

  lemma PipeRunStrip(s: string)
    ensures HasPipeRun(Strip(s)) <==> HasPipeRun(s)
  {
    hide IsSpace;
    SpaceFacts();
    var a, b := StripSplit(s);
    ContainsIntro(a, Strip(s), b);
    if HasPipeRun(Strip(s)) {
      PipeRunContains(s, Strip(s));
    }
    if HasPipeRun(s) {
      assert s == a + (Strip(s) + b);
      assert forall i | 0 <= i < |a| :: IsSpace(a[i]) && a[i] != '|';
      PipeRunSuffix(a, Strip(s) + b);
      PipeRunBlankTail(Strip(s), b);
    }
  }

  lemma {:induction false} CollapseSolid(s: string)
    ensures Solid(Collapse(s)) == Solid(s)
    decreases |s|
  {
    hide IsSpace;
    SpaceFacts();
    if s != "" && IsSpace(s[0]) {
      CollapseSolid(LStrip(s));
      assert Collapse(s)[1..] == Collapse(LStrip(s));
      assert LStrip(LStrip(s)) == LStrip(s);
    }
  }

  lemma {:induction false} PipeRunCollapse(s: string)
    ensures HasPipeRun(Collapse(s)) <==> HasPipeRun(s)
    decreases |s|
  {
    hide IsSpace;
    SpaceFacts();
    if s == "" {
    } else if IsSpace(s[0]) {
      var a := LStripSplit(s);
      assert Collapse(s)[1..] == Collapse(LStrip(s));
      PipeRunCollapse(LStrip(s));
      assert forall i | 0 <= i < |a| :: IsSpace(a[i]) && a[i] != '|';
      PipeRunSuffix(a, LStrip(s));
    } else {
      assert Collapse(s)[1..] == Collapse(s[1..]);
      PipeRunCollapse(s[1..]);
      CollapseSolid(s[1..]);
    }
  }

  /** What Unicode lower-casing does to whitespace, to `|` and to everything else. */
  ghost predicate FoldsPlainly(tables: CharTables) {
    forall c ::
      var l := tables.lower(c);
      if IsSpace(c) || c == '|' then l == [c] else l != "" && !IsSpace(l[0]) && '|' !in l
  }

  lemma {:induction false} LowerSolid(tables: CharTables, s: string)
    requires FoldsPlainly(tables)
    ensures Solid(Lower(tables.lower, s)) == Some('|') <==> Solid(s) == Some('|')
  {
    hide IsSpace;
    SpaceFacts();
    if s != "" {
      var l := tables.lower(s[0]);
      LowerSolid(tables, s[1..]);
      if IsSpace(s[0]) {
        assert (l + Lower(tables.lower, s[1..]))[1..] == Lower(tables.lower, s[1..]);
      } else {
        assert l[0] in l;
      }
    }
  }

  lemma {:induction false} PipeRunLower(tables: CharTables, s: string)
    requires FoldsPlainly(tables)
    ensures HasPipeRun(Lower(tables.lower, s)) <==> HasPipeRun(s)
  {
    hide IsSpace;
    SpaceFacts();
    if s != "" {
      var l := tables.lower(s[0]);
      var rest := Lower(tables.lower, s[1..]);
      PipeRunLower(tables, s[1..]);
      if s[0] == '|' {
        assert (l + rest)[1..] == rest;
        LowerSolid(tables, s[1..]);
      } else {
        PipeRunSuffix(l, rest);
      }
    }
  }

  lemma PipeRunNormalize(tables: CharTables, s: string)
    requires FoldsPlainly(tables)
    ensures HasPipeRun(Normalize(tables, s)) <==> HasPipeRun(s)
  {
    hide IsSpace;
    PipeRunStrip(s);
    PipeRunCollapse(Strip(s));
    PipeRunLower(tables, Collapse(Strip(s)));
  }

  lemma NormalizeStripped(tables: CharTables, s: string)
    ensures Normalize(tables, Strip(s)) == Normalize(tables, s)
  {
    hide Strip, Collapse, Lower;
    StripIdempotent(s);
  }

  /** For an escape-free quotable quote the verdict is one substring test. */
  lemma VerdictIsContains(tables: CharTables, quote: string, page: string, blocks: seq<Block>)
    requires Quotable(tables, quote) && !HasEscape(quote)
    ensures VerifyQuote(tables, quote, page, blocks)
       <==> Contains(Normalize(tables, CollapsePipes(page)), Normalize(tables, quote))
    ensures Strip(quote) != "" && Normalize(tables, Strip(quote)) == Normalize(tables, quote)
  {
    hide Strip, Normalize, CollapsePipes, Contains, HasCell, HasEscape;
    NormalizeStripped(tables, quote);
    NothingNormalizes(tables);
  }

  /** A run-free piece of the page is still a piece of it once its runs of pipes are collapsed. */
  lemma RunFreePieceSurvives(page: string, u: string, t: string, v: string)
    requires page == u + (t + v) && t != "" && !IsSpace(t[0]) && !IsSpace(t[|t| - 1]) && !HasPipeRun(t)
    ensures Contains(CollapsePipes(page), t)
  {
    hide IsSpace, HasPipeRun, CollapsePipes, Contains;
    var y := CollapsePipesPrefix(t, v);
    var x := CollapsePipesSuffix(u, t + v);
    assert x + (t + y) == x + t + y;
    ContainsIntro(x, t, y);
  }

  /** Any quotable, escape-free cut of the page with no run of its own is accepted. */
  lemma RunFreeCutVerifies(tables: CharTables, page: string, quote: string, blocks: seq<Block>)
    requires Contains(page, quote) && Quotable(tables, quote)
    requires !HasEscape(quote) && !HasPipeRun(quote)
    ensures VerifyQuote(tables, quote, page, blocks)
  {
    hide IsSpace, HasPipeRun, CollapsePipes, Contains, VerifyQuote, Quotable, HasEscape, Normalize, LStrip, RStrip;
    VerdictIsContains(tables, quote, page, blocks);
    var t := Strip(quote);
    var a, b := StripSplit(quote);
    var u, v := ContainsSplit(page, quote);
    assert page == (u + a) + (t + (b + v));
    PipeRunStrip(quote);
    StripEnds(quote);
    RunFreePieceSurvives(page, u + a, t, b + v);
    NormalizeContains(tables, CollapsePipes(page), t);
  }

  /** A quote that holds a run of pipes once it is cleaned is on no page. */
  lemma RunIsRefused(tables: CharTables, quote: string, page: string, blocks: seq<Block>)
    requires FoldsPlainly(tables)
    requires Quotable(tables, CleanProse(tables, quote)) && HasPipeRun(CleanProse(tables, quote))
    ensures !VerifyQuote(tables, quote, page, blocks)
  {
    hide HasPipeRun, CollapsePipes, Contains, HasEscape, Normalize, FoldsPlainly, CleanProse;
    var clean := CleanProse(tables, quote);
    PipeRunNormalize(tables, clean);
    PipeRunNormalize(tables, CollapsePipes(page));
    CollapsePipesLeavesNone(page);
    if Contains(Normalize(tables, CollapsePipes(page)), Normalize(tables, clean)) {
      PipeRunContains(Normalize(tables, CollapsePipes(page)), Normalize(tables, clean));
    }
  }

  /** For cuts of the page, a run of pipes inside the quote is exactly what makes it fail. */
  lemma CutVerifiesIffRunFree(tables: CharTables, page: string, quote: string, blocks: seq<Block>)
    requires FoldsPlainly(tables)
    requires Contains(page, quote) && Quotable(tables, quote) && !HasEscape(quote)
    ensures VerifyQuote(tables, quote, page, blocks) <==> !HasPipeRun(quote)
  {
    hide HasPipeRun, CollapsePipes, Contains, VerifyQuote, HasEscape, Normalize, FoldsPlainly, Strip;
    if HasPipeRun(quote) {
      assert CleanProse(tables, quote) == Strip(quote);
      NormalizeStripped(tables, quote);
      PipeRunStrip(quote);
      RunIsRefused(tables, quote, page, blocks);
    } else {
      RunFreeCutVerifies(tables, page, quote, blocks);
    }
  }

  // ---- Short quotes ----

  /** Too short for the substring test, but with a letter or digit. */
  predicate ShortQuote(tables: CharTables, quote: string) {
    var q := Normalize(tables, quote);
    0 < |q| < QUOTE_FLOOR && HasAlnum(tables, q)
  }

  /** A short cell quoted as the page renders it is accepted, wherever its row is, if it holds no escape. */
  lemma ShortCellVerifies(tables: CharTables, blocks: seq<Block>, k: nat, j: nat, plain: string)
    requires k < |blocks| && blocks[k].Row? && j < |blocks[k].cells| && blocks[k].cells[j].Some?
    requires var cell := blocks[k].cells[j].value;
             !HasEscape(cell) && ShortQuote(tables, CleanProse(tables, cell))
    ensures VerifyQuote(tables, CleanProse(tables, blocks[k].cells[j].value), plain, blocks)
  {
    hide IsSpace, Normalize, Strip;
    var cell := blocks[k].cells[j].value;
    CleanProseIdempotent(tables, cell);
    NormalizeStripped(tables, cell);
    NothingNormalizes(tables);
    assert IsCell(tables, Normalize(tables, CleanProse(tables, cell)), blocks[k].cells[j]);
  }

  /** A quote without a letter or digit is refused on every page, and a short one wherever no cell reads like it. */
  lemma NoMatchRefused(tables: CharTables, quote: string, plain: string, blocks: seq<Block>)
    requires var q := Normalize(tables, CleanProse(tables, quote));
             || (forall i | 0 <= i < |q| :: !tables.isAlnum(q[i]))
             || (|q| < 12 && forall i, j | 0 <= i < |blocks| && blocks[i].Row? && 0 <= j < |blocks[i].cells| ::
                   blocks[i].cells[j].Some? ==> Normalize(tables, blocks[i].cells[j].value) != q)
    ensures !VerifyQuote(tables, quote, plain, blocks)
  {
    hide Normalize, CleanProse;
  }

  // ---- The C# rendering of a table row ----

  function NonEmpty(cells: seq<string>): (kept: seq<string>)
    ensures kept == [] <==> forall i | 0 <= i < |cells| :: cells[i] == ""
  {
    if cells == [] then []
    else if cells[0] == "" then NonEmpty(cells[1..])
    else [cells[0]] + NonEmpty(cells[1..])
  }

  /** The row as GeekAPI renders it: only the non-empty cleaned cells, joined. */
  function SharpRow(tables: CharTables, cells: seq<Option<string>>): string {
    Join(ROW_CELL_SEPARATOR, NonEmpty(CleanCells(tables, cells)))
  }

  /** What collapsing leaves of the empty cells before and after the others. */
  function Lead(cells: seq<string>): string {
    if cells != [] && cells[0] == "" then "| " else ""
  }

  function Trail(cells: seq<string>): string {
    if cells != [] && cells[|cells| - 1] == "" then " |" else ""
  }

  /** The non-empty cells, joined, in what is left of the others. */
  function Framed(cells: seq<string>): string {
    Lead(cells) + Join(ROW_CELL_SEPARATOR, NonEmpty(cells)) + Trail(cells)
  }

  /** Trimmed cells that contain no separator of their own. */
  predicate PipeFreeCells(cells: seq<string>) {
    forall i | 0 <= i < |cells| ::
      '|' !in cells[i] && (cells[i] != "" ==> !IsSpace(cells[i][0]))
  }

  lemma {:induction false} CollapsePipesPipeFree(c: string, z: string)
    requires '|' !in c
    ensures CollapsePipes(c + z) == c + CollapsePipes(z)
  {
    hide IsSpace;
    if c == "" {
      assert c + z == z;
    } else {
      assert (c + z)[1..] == c[1..] + z;
      CollapsePipesPipeFree(c[1..], z);
      assert [c[0]] + (c[1..] + CollapsePipes(z)) == c + CollapsePipes(z);
    }
  }

  lemma CellThenSeparator(c: string, j: string, s: string)
    requires '|' !in c
    ensures CollapsePipes(c + ROW_CELL_SEPARATOR + j + s) == c + " " + CollapsePipes("| " + j + s)
  {
    hide IsSpace;
    var tail := "| " + j + s;
    assert c + ROW_CELL_SEPARATOR + j + s == (c + " ") + tail;
    CollapsePipesPipeFree(c + " ", tail);
  }

  lemma SeparatorThenBlank(j: string, s: string)
    ensures CollapsePipes("| " + (ROW_CELL_SEPARATOR + j) + s) == CollapsePipes("| " + j + s)
  {
    hide IsSpace;
    SpaceFacts();
    var next := "| " + j + s;
    var all := "| " + (ROW_CELL_SEPARATOR + j) + s;
    assert all == "|  " + next;
    assert all[1..] == "  " + next;
    LStripBlank("  ");
    LStripAppend("  ", next);
    assert "" + next == next;
  }

  lemma SeparatorThenCell(w: string)
    requires w != "" && !IsSpace(w[0]) && w[0] != '|'
    ensures CollapsePipes("| " + w) == "| " + CollapsePipes(w)
  {
    hide IsSpace;
    SpaceFacts();
    var s, t := "| " + w, " " + w;
    assert s[1..] == t && t[1..] == w;
    assert LStrip(t) == LStrip(w) == w;
    assert !PipeRunAt(s);
    assert CollapsePipes(s) == ['|'] + CollapsePipes(t);
    assert CollapsePipes(t) == [' '] + CollapsePipes(w);
    assert ['|'] + ([' '] + CollapsePipes(w)) == "| " + CollapsePipes(w);
  }

  lemma JoinParts(cell: string, rest: seq<string>)
    ensures Join(ROW_CELL_SEPARATOR, [cell] + rest)
         == if rest == [] then cell else cell + ROW_CELL_SEPARATOR + Join(ROW_CELL_SEPARATOR, rest)
  {
    assert ([cell] + rest)[1..] == rest;
  }

  lemma KeptParts(cell: string, rest: seq<string>)
    ensures NonEmpty([cell] + rest) == (if cell == "" then [] else [cell]) + NonEmpty(rest)
  {
    assert ([cell] + rest)[1..] == rest;
  }

  lemma SameTrail(cell: string, rest: seq<string>)
    requires rest != []
    ensures Trail([cell] + rest) == Trail(rest)
  {
    assert ([cell] + rest)[|rest|] == rest[|rest| - 1];
  }

  /** How a row's rendering, its cells left out or not, begins and goes on. */
  lemma RowParts(cells: seq<string>)
    requires cells != []
    ensures var c, rest := cells[0], cells[1..];
            && Join(ROW_CELL_SEPARATOR, cells)
               == (if rest == [] then c else c + ROW_CELL_SEPARATOR + Join(ROW_CELL_SEPARATOR, rest))
            && (rest != [] ==> Trail(cells) == Trail(rest))
    ensures var rest := NonEmpty(cells[1..]);
            && NonEmpty(cells) == (if cells[0] == "" then [] else [cells[0]]) + rest
            && (cells[0] != "" ==>
                  Join(ROW_CELL_SEPARATOR, NonEmpty(cells))
                  == if rest == [] then cells[0] else cells[0] + ROW_CELL_SEPARATOR + Join(ROW_CELL_SEPARATOR, rest))
  {
    hide Join, NonEmpty, Trail;
    assert cells == [cells[0]] + cells[1..];
    JoinParts(cells[0], cells[1..]);
    KeptParts(cells[0], cells[1..]);
    JoinParts(cells[0], NonEmpty(cells[1..]));
    if cells[1..] != [] {
      SameTrail(cells[0], cells[1..]);
    }
  }

  lemma TrailIsShort(cells: seq<string>, t: string)
    requires t != "" && t[0] == '|'
    ensures Trail(cells) <= " " + t
  {
  }

  lemma NoTrail(cells: seq<string>)
    requires |cells| == 1 && cells[0] != ""
    ensures Trail(cells) == ""
  {
  }

  lemma Reseparated(c: string, k: string, y: string)
    ensures c + " " + ("| " + k + y) == (c + ROW_CELL_SEPARATOR + k) + y
  {
  }

  lemma {:induction false} CollapseHeadCells(cells: seq<string>, s: string) returns (y: string)
    requires cells != [] && cells[0] != "" && PipeFreeCells(cells)
    ensures CollapsePipes(Join(ROW_CELL_SEPARATOR, cells) + s) == Join(ROW_CELL_SEPARATOR, NonEmpty(cells)) + y
    ensures Trail(cells) <= y
    decreases |cells|, 0
  {
    hide IsSpace, CollapsePipes, Join, NonEmpty, Trail;
    var c, rest := cells[0], cells[1..];
    RowParts(cells);
    if rest == [] {
      NoTrail(cells);
      CollapsePipesPipeFree(c, s);
      y := CollapsePipes(s);
    } else {
      var j := Join(ROW_CELL_SEPARATOR, rest);
      CellThenSeparator(c, j, s);
      if NonEmpty(rest) == [] {
        CollapsePipesStart("| " + j + s);
        y := " " + CollapsePipes("| " + j + s);
        TrailIsShort(cells, CollapsePipes("| " + j + s));
      } else {
        y := CollapseTailCells(rest, s);
        Reseparated(c, Join(ROW_CELL_SEPARATOR, NonEmpty(rest)), y);
      }
    }
  }

  lemma {:induction false} CollapseTailCells(cells: seq<string>, s: string) returns (y: string)
    requires PipeFreeCells(cells) && NonEmpty(cells) != []
    ensures CollapsePipes("| " + Join(ROW_CELL_SEPARATOR, cells) + s)
         == "| " + Join(ROW_CELL_SEPARATOR, NonEmpty(cells)) + y
    ensures Trail(cells) <= y
    decreases |cells|, 1
  {
    hide IsSpace, CollapsePipes, Join, NonEmpty, Trail;
    NothingToKeep();
    RowParts(cells);
    RowHead(cells);
    if cells[0] == "" {
      OnlyBlank(cells);
      SeparatorThenBlank(Join(ROW_CELL_SEPARATOR, cells[1..]), s);
      y := CollapseTailCells(cells[1..], s);
    } else {
      y := CollapseHeadCells(cells, s);
      AfterSeparator(Join(ROW_CELL_SEPARATOR, cells), s, Join(ROW_CELL_SEPARATOR, NonEmpty(cells)), y);
    }
  }

  lemma NothingToKeep()
    ensures NonEmpty([]) == []
  {
  }

  lemma AfterSeparator(j: string, s: string, k: string, y: string)
    requires j != "" && !IsSpace(j[0]) && j[0] != '|' && CollapsePipes(j + s) == k + y
    ensures CollapsePipes("| " + j + s) == "| " + k + y
  {
    hide IsSpace, CollapsePipes;
    assert "| " + j + s == "| " + (j + s);
    SeparatorThenCell(j + s);
    assert "| " + (k + y) == "| " + k + y;
  }

  lemma ExposedAtHead(u: string, row: string, v: string, sharp: string, y: string)
    requires row != "" && !IsSpace(row[0]) && row[0] != '|'
    requires CollapsePipes(row + v) == sharp + y
    ensures Contains(CollapsePipes(u + row + v), sharp)
  {
    hide IsSpace, CollapsePipes, Contains;
    var x := CollapsePipesSuffix(u, row + v);
    assert u + (row + v) == u + row + v;
    assert x + (sharp + y) == x + sharp + y;
    ContainsIntro(x, sharp, y);
  }

  lemma ExposedBehindBlank(u: string, rest: string, v: string, sharp: string, y: string)
    requires CollapsePipes("| " + rest + v) == "| " + sharp + y
    ensures Contains(CollapsePipes(u + (ROW_CELL_SEPARATOR + rest) + v), "| " + sharp)
  {
    hide IsSpace, CollapsePipes, Contains;
    SpaceFacts();
    var tail := "| " + rest + v;
    var x := CollapsePipesSuffix(u + " ", tail);
    assert (u + " ") + tail == u + (ROW_CELL_SEPARATOR + rest) + v;
    assert x + ("| " + sharp + y) == x + ("| " + sharp) + y;
    ContainsIntro(x, "| " + sharp, y);
  }

  lemma RowHead(cells: seq<string>)
    requires PipeFreeCells(cells) && NonEmpty(cells) != []
    ensures if cells[0] != ""
            then
              var row := Join(ROW_CELL_SEPARATOR, cells);
              row != "" && row[0] == cells[0][0] != '|' && !IsSpace(row[0])
            else Join(ROW_CELL_SEPARATOR, cells) == ROW_CELL_SEPARATOR + Join(ROW_CELL_SEPARATOR, cells[1..])
                 && NonEmpty(cells) == NonEmpty(cells[1..])
  {
    hide IsSpace;
    if cells[0] != "" {
      assert cells[0][0] in cells[0];
    }
  }

  /** Wherever a row's rendering stands, collapsing its empty cells exposes the C# rendering, framed. */
  lemma SharpRowExposed(u: string, cells: seq<string>, v: string)
    requires PipeFreeCells(cells) && NonEmpty(cells) != []
    ensures Contains(CollapsePipes(u + Join(ROW_CELL_SEPARATOR, cells) + v), Framed(cells))
  {
    hide IsSpace, CollapsePipes, Contains, Join, NonEmpty;
    RowHead(cells);
    var row, sharp := Join(ROW_CELL_SEPARATOR, cells), Join(ROW_CELL_SEPARATOR, NonEmpty(cells)) + Trail(cells);
    if cells[0] != "" {
      var y := CollapseHeadCells(cells, v);
      TakeTrail(row + v, "", Join(ROW_CELL_SEPARATOR, NonEmpty(cells)), Trail(cells), y);
      ExposedAtHead(u, row, v, sharp, y[|Trail(cells)|..]);
      assert Framed(cells) == sharp;
    } else {
      assert |cells| > 1 by { OnlyBlank(cells); }
      assert Trail(cells[1..]) == Trail(cells);
      var y := CollapseTailCells(cells[1..], v);
      var rest := Join(ROW_CELL_SEPARATOR, cells[1..]);
      TakeTrail("| " + rest + v, "| ", Join(ROW_CELL_SEPARATOR, NonEmpty(cells)), Trail(cells), y);
      ExposedBehindBlank(u, rest, v, sharp, y[|Trail(cells)|..]);
      assert Framed(cells) == "| " + sharp;
    }
  }

  lemma OnlyBlank(cells: seq<string>)
    ensures |cells| == 1 && cells[0] == "" ==> NonEmpty(cells) == []
  {
  }

  lemma TakeTrail(s: string, lead: string, sharp: string, trail: string, y: string)
    requires CollapsePipes(s) == lead + sharp + y && trail <= y
    ensures CollapsePipes(s) == lead + (sharp + trail) + y[|trail|..]
  {
    hide CollapsePipes;
    assert y == trail + y[|trail|..];
  }

  lemma SeparatorHeadEscapeFree(c: char, b: string)
    requires !HasEscape(b) && c in ROW_CELL_SEPARATOR
    ensures !HasEscape([c] + b)
  {
    hide IsSpace;
    assert ([c] + b)[1..] == b;
    if EscapeAt([c] + b).Some? {
      EscapeLetters([c] + b);
    }
  }

  lemma {:induction false} SeparatedEscapeFree(a: string, b: string)
    requires !HasEscape(a) && !HasEscape(b)
    ensures !HasEscape(a + ROW_CELL_SEPARATOR + b)
  {
    hide IsSpace;
    var s := a + ROW_CELL_SEPARATOR + b;
    if a == "" {
      SeparatorHeadEscapeFree(' ', b);
      SeparatorHeadEscapeFree('|', [' '] + b);
      SeparatorHeadEscapeFree(' ', ['|'] + ([' '] + b));
      assert s == [' '] + (['|'] + ([' '] + b));
    } else {
      assert s[1..] == a[1..] + ROW_CELL_SEPARATOR + b;
      SeparatedEscapeFree(a[1..], b);
      if EscapeAt(s).Some? {
        EscapeLetters(s);
        assert s[|a|] == ' ';
        assert s[..EscapeAt(s).value.0] == a[..EscapeAt(s).value.0];
        EscapeByPrefix(s, a);
      }
    }
  }

  lemma {:induction false} JoinEscapeFree(cells: seq<string>)
    requires forall i | 0 <= i < |cells| :: !HasEscape(cells[i])
    ensures !HasEscape(Join(ROW_CELL_SEPARATOR, cells))
  {
    hide IsSpace;
    if |cells| > 1 {
      JoinEscapeFree(cells[1..]);
      SeparatedEscapeFree(cells[0], Join(ROW_CELL_SEPARATOR, cells[1..]));
    }
  }

  lemma {:induction false} NonEmptyEscapeFree(cells: seq<string>)
    requires forall i | 0 <= i < |cells| :: !HasEscape(cells[i])
    ensures forall i | 0 <= i < |NonEmpty(cells)| :: !HasEscape(NonEmpty(cells)[i])
  {
    hide IsSpace;
    if cells != [] {
      NonEmptyEscapeFree(cells[1..]);
    }
  }

  /** Cleaned cells are trimmed and carry no escape. */
  lemma CleanCellsTidy(tables: CharTables, cells: seq<Option<string>>)
    ensures var clean := CleanCells(tables, cells);
            forall i | 0 <= i < |clean| ::
              !HasEscape(clean[i]) && (clean[i] != "" ==> !IsSpace(clean[i][0]))
  {
    hide IsSpace;
    var present := PresentCells(cells);
    forall i | 0 <= i < |present|
      ensures var c := CleanProse(tables, present[i]); !HasEscape(c) && (c != "" ==> !IsSpace(c[0]))
    {
      CleanProseIdempotent(tables, present[i]);
      var c := CleanProse(tables, present[i]);
      var _, _ := StripSplit(c);
    }
  }

  /** Collapsed, the page shows every row's non-empty cells, framed. */
  lemma PageShowsRow(tables: CharTables, blocks: seq<Block>, k: nat)
    requires k < |blocks| && blocks[k].Row?
    requires forall c | c in CleanCells(tables, blocks[k].cells) :: '|' !in c
    requires NonEmpty(CleanCells(tables, blocks[k].cells)) != []
    ensures Contains(CollapsePipes(Plaintext(tables, blocks)), Framed(CleanCells(tables, blocks[k].cells)))
  {
    hide IsSpace, CollapsePipes, Contains, Plaintext, Framed, CleanCells, NonEmpty;
    CleanCellsTidy(tables, blocks[k].cells);
    var u, v := RowInPage(tables, blocks, k);
    SharpRowExposed(u, CleanCells(tables, blocks[k].cells), v);
  }

  /**
   The C# rendering of any row of a page whose cleaned cells hold no `|` is accepted, empty cells
   and all.
   */
  lemma SharpRowVerifies(tables: CharTables, blocks: seq<Block>, k: nat)
    requires k < |blocks| && blocks[k].Row?
    requires forall c | c in CleanCells(tables, blocks[k].cells) :: '|' !in c
    requires Quotable(tables, SharpRow(tables, blocks[k].cells))
    ensures VerifyQuote(tables, SharpRow(tables, blocks[k].cells), Plaintext(tables, blocks), blocks)
  {
    hide IsSpace, CollapsePipes, Contains, Plaintext, CleanCells, NonEmpty, HasEscape, Strip, HasCell;
    var cells := CleanCells(tables, blocks[k].cells);
    var sharp, page := SharpRow(tables, blocks[k].cells), Plaintext(tables, blocks);
    CleanCellsTidy(tables, blocks[k].cells);
    NonEmptyEscapeFree(cells);
    JoinEscapeFree(NonEmpty(cells));
    VerdictIsContains(tables, sharp, page, blocks);
    assert NonEmpty(cells) != [] by { NothingNormalizes(tables); }
    PageShowsRow(tables, blocks, k);
    ContainsIntro(Lead(cells), sharp, Trail(cells));
    ContainsTransitive(CollapsePipes(page), Framed(cells), sharp);
    NormalizeContains(tables, CollapsePipes(page), sharp);
  }

  lemma JoinNotBlank(sep: string, lines: seq<string>, i: nat)
    requires i < |lines| && lines[i] != "" && !IsSpace(lines[i][0])
    ensures Strip(Join(sep, lines)) != ""
  {
    hide IsSpace;
    var joined := Join(sep, lines);
    assert lines == lines[..i] + [lines[i]] + lines[i + 1..];
    JoinContains(sep, lines[..i], [lines[i]], lines[i + 1..]);
    var u, v := ContainsSplit(joined, lines[i]);
    assert joined[|u|] == lines[i][0];
    StripBlank(joined);
  }

  lemma RowAlone(tables: CharTables, block: Block)
    requires block.Row? && Strip(Join(ROW_CELL_SEPARATOR, CleanCells(tables, block.cells))) != ""
    ensures Plaintext(tables, [block]) == Join(ROW_CELL_SEPARATOR, CleanCells(tables, block.cells))
  {
    hide Strip, CleanCells, IsSpace;
    var row := Join(ROW_CELL_SEPARATOR, CleanCells(tables, block.cells));
    assert Rendered(tables, [block]) == [row];
    assert NonBlank([row]) == [row];
    JoinOne(BLOCK_SEPARATOR, row);
  }

  lemma RowNotBlank(tables: CharTables, cells: seq<Option<string>>)
    requires NonEmpty(CleanCells(tables, cells)) != []
    ensures Strip(Join(ROW_CELL_SEPARATOR, CleanCells(tables, cells))) != ""
  {
    hide IsSpace, Join, Strip, CleanProse;
    CleanCellsTidy(tables, cells);
    var clean := CleanCells(tables, cells);
    var i :| 0 <= i < |clean| && clean[i] != "";
    JoinNotBlank(ROW_CELL_SEPARATOR, clean, i);
  }

  lemma RowInPage(tables: CharTables, blocks: seq<Block>, k: nat) returns (u: string, v: string)
    requires k < |blocks| && blocks[k].Row?
    requires NonEmpty(CleanCells(tables, blocks[k].cells)) != []
    ensures Plaintext(tables, blocks)
         == u + Join(ROW_CELL_SEPARATOR, CleanCells(tables, blocks[k].cells)) + v
  {
    hide IsSpace, Join, Plaintext, Contains, CleanCells, NonEmpty, Strip;
    RowNotBlank(tables, blocks[k].cells);
    assert blocks == blocks[..k] + [blocks[k]] + blocks[k + 1..];
    PlaintextContains(tables, blocks[..k], [blocks[k]], blocks[k + 1..]);
    RowAlone(tables, blocks[k]);
    u, v := ContainsSplit(Plaintext(tables, blocks), Join(ROW_CELL_SEPARATOR, CleanCells(tables, blocks[k].cells)));
  }
}
