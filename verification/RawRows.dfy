/**
 Quotes of a table row as the C# projection has it, its cells raw: where `verify_quote`
 (`src/geek_crawler_rag/citation_verify.py`) cleans the row as one text and the page its cells one by one.
 */
module RawRows {
  import opened Wrappers
  import opened Text
  import opened BlockText
  import opened CitationVerify
  import opened EscapedQuotes

  // ---- Tags stay in their cells ----

  /** A tag's name at the head of `s`, behind its `<` or `</`. */
  predicate OpensTag(tables: CharTables, s: string) {
    s != "" && s[0] == '<' &&
    var open := OpenLength(s);
    IsTagName(s[open..open + WordRun(tables, s[open..])])
  }

  /** Every tag that opens has a `>` somewhere behind it. */
  predicate Closed(tables: CharTables, s: string) {
    s != "" ==> (OpensTag(tables, s) ==> '>' in s) && Closed(tables, s[1..])
  }

  /** What cleaning one cell on its own does to it, but for whitespace. */
  function Bare(tables: CharTables, cell: string): string {
    DropTags(tables, Decode(cell))
  }

  function BareCells(tables: CharTables, cells: seq<string>): seq<string> {
    seq(|cells|, i requires 0 <= i < |cells| => Bare(tables, cells[i]))
  }

  /** Whitespace aside. */
  function Plain(s: string): string {
    Collapse(Strip(s))
  }

  lemma SameEscape(s: string, t: string)
    requires EscapeAt(s).Some? && EscapeAt(s).value.0 <= |t|
    requires s[..EscapeAt(s).value.0] == t[..EscapeAt(s).value.0]
    ensures EscapeAt(t) == EscapeAt(s)
  {
    hide IsSpace, BareEscape;
    var n := EscapeAt(s).value.0;
    assert forall i | 0 <= i < n :: s[i] == s[..n][i] && t[i] == t[..n][i];
    if n == 6 {
      assert s[1..][..5] == s[..6][1..] && t[1..][..5] == t[..6][1..];
      SameBareEscape(s[1..], t[1..]);
    } else {
      SameBareEscape(s, t);
      NoBackslash(s);
    }
  }

  /** An escape does not reach across a separator. */
  lemma EscapeBeforeSeparator(a: string, b: string)
    requires a != ""
    ensures EscapeAt(a + ROW_CELL_SEPARATOR + b) == EscapeAt(a)
  {
    hide IsSpace, EscapeAt;
    var s := a + ROW_CELL_SEPARATOR + b;
    if EscapeAt(a).Some? {
      assert s[..EscapeAt(a).value.0] == a[..EscapeAt(a).value.0];
      SameEscape(a, s);
    } else if EscapeAt(s).Some? {
      EscapeLetters(s);
      assert s[|a|] == ' ';
      assert s[..EscapeAt(s).value.0] == a[..EscapeAt(s).value.0];
      SameEscape(s, a);
    }
  }

  lemma SeparatorKept(b: string)
    ensures Decode(ROW_CELL_SEPARATOR + b) == ROW_CELL_SEPARATOR + Decode(b)
  {
    hide IsSpace, HasEscape;
    var two, one := "| " + b, " " + b;
    EscapeBehind(' ', b);
    EscapeBehind('|', one);
    EscapeBehind(' ', two);
    assert [' '] + b == one && ['|'] + one == two && [' '] + two == ROW_CELL_SEPARATOR + b;
    assert [' '] + (['|'] + ([' '] + Decode(b))) == ROW_CELL_SEPARATOR + Decode(b);
  }

  lemma {:induction false} DecodeAcross(a: string, b: string)
    ensures Decode(a + ROW_CELL_SEPARATOR + b) == Decode(a) + ROW_CELL_SEPARATOR + Decode(b)
    decreases |a|
  {
    hide IsSpace, EscapeAt;
    if a == "" {
      SeparatorKept(b);
      assert "" + ROW_CELL_SEPARATOR + b == ROW_CELL_SEPARATOR + b;
      assert "" + ROW_CELL_SEPARATOR + Decode(b) == ROW_CELL_SEPARATOR + Decode(b);
    } else {
      EscapeBeforeSeparator(a, b);
      var n := if EscapeAt(a).Some? then EscapeAt(a).value.0 else 1;
      assert (a + ROW_CELL_SEPARATOR + b)[n..] == a[n..] + ROW_CELL_SEPARATOR + b;
      DecodeAcross(a[n..], b);
    }
  }

  /** A word ends at a space and at a `>`. */
  predicate WordsEnd(tables: CharTables) {
    !tables.isAlnum(' ') && !tables.isAlnum('>')
  }

  lemma {:induction false} WordRunBefore(tables: CharTables, x: string, y: string)
    requires WordsEnd(tables) && y != "" && y[0] == ' '
    ensures WordRun(tables, x + y) == WordRun(tables, x) && '>' !in x[..WordRun(tables, x)]
  {
    if x == "" {
      assert x + y == y;
    } else {
      assert (x + y)[1..] == x[1..] + y;
      WordRunBefore(tables, x[1..], y);
      var n := WordRun(tables, x);
      if n > 0 {
        assert x[..n] == [x[0]] + x[1..][..n - 1];
      }
    }
  }

  lemma {:induction false} FindCharBefore(x: string, y: string, c: char)
    requires c in x
    ensures FindChar(x + y, c) == FindChar(x, c) < |x|
  {
    if x[0] != c {
      assert (x + y)[1..] == x[1..] + y;
      FindCharBefore(x[1..], y, c);
    }
  }

  lemma PrefixedSlices(d: string, y: string, i: nat, j: nat)
    requires i <= j <= |d|
    ensures (d + y)[j..] == d[j..] + y && (d + y)[i..j] == d[i..j]
  {
  }

  /** A tag's name is read the same whatever follows the text. */
  lemma NameBefore(tables: CharTables, d: string, y: string)
    requires WordsEnd(tables) && y != "" && y[0] == ' ' && d != "" && d[0] == '<'
    ensures var open := OpenLength(d);
            var run := WordRun(tables, d[open..]);
            && OpenLength(d + y) == open && WordRun(tables, (d + y)[open..]) == run
            && (d + y)[open..open + run] == d[open..open + run] && (d + y)[open + run..] == d[open + run..] + y
            && ('>' in d ==> '>' in d[open + run..])
  {
    hide WordRun;
    var open := OpenLength(d);
    var run := WordRun(tables, d[open..]);
    PrefixedSlices(d, y, open, open);
    PrefixedSlices(d, y, open, open + run);
    WordRunBefore(tables, d[open..], y);
    assert d == d[..open] + d[open..][..run] + d[open + run..];
  }

  lemma {:induction false} NowhereFound(x: string, c: char)
    requires c !in x
    ensures FindChar(x, c) == |x|
  {
    if x != "" {
      NowhereFound(x[1..], c);
    }
  }

  /** A tag closed in its own text, or not closed after it either, is read the same whatever follows. */
  lemma TagBefore(tables: CharTables, d: string, y: string)
    requires WordsEnd(tables) && y != "" && y[0] == ' '
    requires d != "" && ((OpensTag(tables, d) ==> '>' in d) || '>' !in y)
    ensures TagLength(tables, d + y) == TagLength(tables, d)
  {
    hide WordRun, FindChar, IsTagName, WordsEnd;
    if d[0] == '<' {
      NameBefore(tables, d, y);
      var open := OpenLength(d);
      var rest := d[open + WordRun(tables, d[open..])..];
      if '>' in rest {
        FindCharBefore(rest, y, '>');
      } else if '>' !in y {
        NowhereFound(rest, '>');
        NowhereFound(rest + y, '>');
      }
    }
  }

  lemma {:induction false} ClosedDrop(tables: CharTables, s: string, n: nat)
    requires Closed(tables, s) && n <= |s|
    ensures Closed(tables, s[n..])
  {
    hide OpensTag;
    if n > 0 {
      ClosedDrop(tables, s[1..], n - 1);
      assert s[1..][n - 1..] == s[n..];
    } else {
      assert s[n..] == s;
    }
  }

  /** What stands for the first character or tag. */
  function DroppedHead(tables: CharTables, s: string): string
    requires s != ""
  {
    if TagLength(tables, s) > 0 then " " else [s[0]]
  }

  lemma DropStep(tables: CharTables, s: string, rest: string)
    requires s != "" && s[if TagLength(tables, s) > 0 then TagLength(tables, s) else 1..] == rest
    ensures DropTags(tables, s) == DroppedHead(tables, s) + DropTags(tables, rest)
  {
    hide TagLength;
  }

  lemma NoTagHere(tables: CharTables, c: char, rest: string)
    requires c != '<'
    ensures DropTags(tables, [c] + rest) == [c] + DropTags(tables, rest)
  {
    hide DropTags;
    assert ([c] + rest)[1..] == rest;
    DropStep(tables, [c] + rest, rest);
  }

  lemma SeparatorStays(tables: CharTables, b: string)
    ensures DropTags(tables, ROW_CELL_SEPARATOR + b) == ROW_CELL_SEPARATOR + DropTags(tables, b)
  {
    hide DropTags;
    var two, one := "| " + b, " " + b;
    NoTagHere(tables, ' ', b);
    NoTagHere(tables, '|', one);
    NoTagHere(tables, ' ', two);
    assert [' '] + b == one && ['|'] + one == two && [' '] + two == ROW_CELL_SEPARATOR + b;
    assert [' '] + (['|'] + ([' '] + DropTags(tables, b))) == ROW_CELL_SEPARATOR + DropTags(tables, b);
  }

  lemma {:induction false} DropAcross(tables: CharTables, a: string, b: string)
    requires WordsEnd(tables) && (Closed(tables, a) || '>' !in b)
    ensures DropTags(tables, a + ROW_CELL_SEPARATOR + b)
         == DropTags(tables, a) + ROW_CELL_SEPARATOR + DropTags(tables, b)
    decreases |a|
  {
    hide TagLength, DropTags, OpensTag;
    var rest := ROW_CELL_SEPARATOR + b;
    assert a + ROW_CELL_SEPARATOR + b == a + rest;
    if a == "" {
      SeparatorStays(tables, b);
      assert a + rest == rest;
      NothingDropped(tables);
      assert "" + ROW_CELL_SEPARATOR + DropTags(tables, b) == ROW_CELL_SEPARATOR + DropTags(tables, b);
    } else {
      TagBefore(tables, a, rest);
      var n := if TagLength(tables, a) > 0 then TagLength(tables, a) else 1;
      assert (a + rest)[n..] == a[n..] + ROW_CELL_SEPARATOR + b;
      if Closed(tables, a) {
        ClosedDrop(tables, a, n);
      }
      DropAcross(tables, a[n..], b);
      DropStep(tables, a, a[n..]);
      DropStep(tables, a + rest, a[n..] + ROW_CELL_SEPARATOR + b);
      assert DroppedHead(tables, a + rest) == DroppedHead(tables, a);
    }
  }

  lemma NothingDropped(tables: CharTables)
    ensures DropTags(tables, "") == ""
  {
  }

  function DecodedCells(cells: seq<string>): seq<string> {
    seq(|cells|, i requires 0 <= i < |cells| => Decode(cells[i]))
  }

  lemma {:induction false} DecodeRow(cells: seq<string>)
    ensures Decode(Join(ROW_CELL_SEPARATOR, cells)) == Join(ROW_CELL_SEPARATOR, DecodedCells(cells))
  {
    hide Decode;
    if cells == [] {
      NothingToDecode("");
    } else if |cells| == 1 {
      assert DecodedCells(cells) == [Decode(cells[0])];
    } else {
      DecodeRow(cells[1..]);
      assert DecodedCells(cells) == [Decode(cells[0])] + DecodedCells(cells[1..]);
      DecodeAcross(cells[0], Join(ROW_CELL_SEPARATOR, cells[1..]));
    }
  }

  lemma {:induction false} NotInRow(cells: seq<string>, c: char)
    requires c !in ROW_CELL_SEPARATOR && forall i | 0 <= i < |cells| :: c !in cells[i]
    ensures c !in Join(ROW_CELL_SEPARATOR, cells)
  {
    if |cells| > 1 {
      NotInRow(cells[1..], c);
    }
  }

  /** No tag opened in one cell is closed in a later one. */
  predicate TagsStay(tables: CharTables, cells: seq<string>) {
    forall i, j | 0 <= i < j < |cells| :: Closed(tables, Decode(cells[i])) || '>' !in Decode(cells[j])
  }

  lemma FirstTagsStay(tables: CharTables, cells: seq<string>)
    requires |cells| > 1 && TagsStay(tables, cells)
    ensures TagsStay(tables, cells[1..])
    ensures Closed(tables, Decode(cells[0])) || '>' !in Decode(Join(ROW_CELL_SEPARATOR, cells[1..]))
  {
    hide Decode, Closed;
    var rest := cells[1..];
    forall i, j | 0 <= i < j < |rest| ensures Closed(tables, Decode(rest[i])) || '>' !in Decode(rest[j]) {
      assert rest[i] == cells[i + 1] && rest[j] == cells[j + 1];
    }
    if !Closed(tables, Decode(cells[0])) {
      forall j | 0 <= j < |rest| ensures '>' !in DecodedCells(rest)[j] {
        assert rest[j] == cells[j + 1];
      }
      DecodeRow(rest);
      NotInRow(DecodedCells(rest), '>');
    }
  }

  /** Decoding and dropping tags go through a row cell by cell. */
  lemma {:induction false} BareRow(tables: CharTables, cells: seq<string>)
    requires WordsEnd(tables) && TagsStay(tables, cells)
    ensures Bare(tables, Join(ROW_CELL_SEPARATOR, cells)) == Join(ROW_CELL_SEPARATOR, BareCells(tables, cells))
  {
    hide Decode, DropTags, Closed, TagsStay;
    if cells == [] {
      NothingIsBare(tables);
    } else if |cells| == 1 {
      assert BareCells(tables, cells) == [Bare(tables, cells[0])];
    } else {
      FirstTagsStay(tables, cells);
      BareRow(tables, cells[1..]);
      assert BareCells(tables, cells) == [Bare(tables, cells[0])] + BareCells(tables, cells[1..]);
      var rest := Join(ROW_CELL_SEPARATOR, cells[1..]);
      DecodeAcross(cells[0], rest);
      DropAcross(tables, Decode(cells[0]), Decode(rest));
    }
  }

  lemma NothingIsBare(tables: CharTables)
    ensures Bare(tables, "") == ""
  {
  }

  // ---- Whitespace aside ----

  lemma {:induction false} CollapseBlank(a: string)
    requires AllSpace(a)
    ensures AllSpace(Collapse(a))
  {
    hide IsSpace, Collapse;
    SpaceFacts();
    CollapseNothing();
    if a != "" {
      CollapseBlankHead(a);
      LStripBlank(a);
    }
  }

  lemma {:induction false} CollapseIdempotent(s: string)
    ensures Collapse(Collapse(s)) == Collapse(s)
    decreases |s|
  {
    hide IsSpace, Collapse;
    SpaceFacts();
    if s == "" {
      CollapseNothing();
    } else if IsSpace(s[0]) {
      CollapseBlankHead(s);
      var rest := Collapse(LStrip(s));
      CollapseIdempotent(LStrip(s));
      if LStrip(s) != "" {
        CollapseSolidHead(LStrip(s), LStrip(s)[1..]);
      } else {
        CollapseNothing();
      }
      CollapseBlankHead(" " + rest);
      assert (" " + rest)[1..] == rest && LStrip(rest) == rest;
    } else {
      CollapseSolidHead(s, s[1..]);
      CollapseIdempotent(s[1..]);
      var rest := Collapse(s[1..]);
      assert ([s[0]] + rest)[1..] == rest;
      CollapseSolidHead([s[0]] + rest, rest);
    }
  }

  lemma CollapseEnds(t: string)
    requires t != "" && !IsSpace(t[0]) && !IsSpace(t[|t| - 1])
    ensures var c := Collapse(t); c != "" && !IsSpace(c[0]) && !IsSpace(c[|c| - 1])
  {
    hide IsSpace, Collapse;
    CollapseSolidHead(t, t[1..]);
    var last := [t[|t| - 1]];
    assert t == t[..|t| - 1] + last;
    CollapseAppendLeft(t[..|t| - 1], last);
    CollapseSolidHead(last, "");
    CollapseNothing();
  }

  lemma BlankEnds(a: string)
    requires AllSpace(a)
    ensures LStrip(a) == "" && RStrip(a) == ""
  {
    hide IsSpace;
    LStripBlank(a);
    var b := RStripSplit(a);
    assert forall i | 0 <= i < |RStrip(a)| :: a[i] == RStrip(a)[i];
  }

  /** Trimming and collapsing do not get in each other's way. */
  lemma StripCollapse(x: string)
    ensures Strip(Collapse(x)) == Plain(x)
  {
    hide IsSpace, Collapse, LStrip, RStrip;
    var a, b := StripSplit(x);
    var t := Strip(x);
    CollapseNothing();
    if t == "" {
      assert AllSpace(a + t + b) && a + t + b == x;
      CollapseBlank(x);
      StripBlank(Collapse(x));
    } else {
      CollapseEnds(t);
      assert x == a + (t + b);
      CollapseAppendLeft(a, t + b);
      CollapseAppendRight(t, b);
      assert Collapse(x) == Collapse(a) + Collapse(t) + Collapse(b);
      CollapseBlank(a);
      CollapseBlank(b);
      BlankEnds(Collapse(a));
      BlankEnds(Collapse(b));
      StripAround(Collapse(a), Collapse(t), Collapse(b));
      assert "" + Collapse(t) + "" == Collapse(t);
    }
  }

  lemma PlainTwice(x: string)
    ensures Plain(Strip(Collapse(x))) == Plain(x) && Plain(Strip(x)) == Plain(x)
  {
    hide IsSpace, Collapse, Strip;
    StripCollapse(x);
    StripIdempotent(x);
    StripCollapse(Strip(x));
    CollapseIdempotent(Strip(x));
  }

  /** Two non-blank texts around a separator. */
  lemma PlainAcross(a: string, b: string)
    requires Strip(a) != "" && Strip(b) != ""
    ensures Strip(a + ROW_CELL_SEPARATOR + b) != ""
    ensures Plain(a + ROW_CELL_SEPARATOR + b) == Plain(a) + ROW_CELL_SEPARATOR + Plain(b)
  {
    hide IsSpace, Collapse, LStrip, RStrip;
    var x, y := StripSplit(a);
    var u, v := StripSplit(b);
    var s, t := Strip(a), Strip(b);
    var gap := y + ROW_CELL_SEPARATOR + u;
    assert a + ROW_CELL_SEPARATOR + b == x + (s + gap + t) + v;
    StripAround(x, s + gap + t, v);
    BlankEnds(x);
    BlankEnds(v);
    assert "" + (s + gap + t) + "" == s + (gap + t);
    CollapseAppendRight(s, gap + t);
    CollapseAppendLeft(gap, t);
    GapCollapses(y, u);
    assert Collapse(s) + (ROW_CELL_SEPARATOR + Collapse(t)) == Collapse(s) + ROW_CELL_SEPARATOR + Collapse(t);
  }

  lemma GapCollapses(y: string, u: string)
    requires AllSpace(y) && AllSpace(u)
    ensures Collapse(y + ROW_CELL_SEPARATOR + u) == ROW_CELL_SEPARATOR
  {
    hide IsSpace, Collapse, LStrip;
    SpaceFacts();
    var left, right := y + " ", " " + u;
    assert y + ROW_CELL_SEPARATOR + u == left + ("|" + right);
    CollapseAppendLeft(left, "|" + right);
    CollapseSolidHead("|" + right, right);
    BlankIsOne(left);
    BlankIsOne(right);
    assert " " + (['|'] + " ") == ROW_CELL_SEPARATOR;
  }

  lemma BlankIsOne(a: string)
    requires AllSpace(a) && a != ""
    ensures Collapse(a) == " "
  {
    hide IsSpace, Collapse;
    CollapseBlankHead(a);
    LStripBlank(a);
    CollapseNothing();
  }

  function PlainCells(cells: seq<string>): seq<string> {
    seq(|cells|, i requires 0 <= i < |cells| => Plain(cells[i]))
  }

  lemma {:induction false} PlainRow(cells: seq<string>)
    requires cells != [] && forall i | 0 <= i < |cells| :: Strip(cells[i]) != ""
    ensures Strip(Join(ROW_CELL_SEPARATOR, cells)) != ""
    ensures Plain(Join(ROW_CELL_SEPARATOR, cells)) == Join(ROW_CELL_SEPARATOR, PlainCells(cells))
  {
    hide Plain, Strip;
    if |cells| == 1 {
      assert PlainCells(cells) == [Plain(cells[0])];
    } else {
      PlainRow(cells[1..]);
      assert PlainCells(cells) == [Plain(cells[0])] + PlainCells(cells[1..]);
      PlainAcross(cells[0], Join(ROW_CELL_SEPARATOR, cells[1..]));
    }
  }

  // ---- ... and when it is accepted ----

  /** The row as the C# projection quotes it: its non-empty cells as they are stored. */
  function RawRow(cells: seq<Option<string>>): string {
    Join(ROW_CELL_SEPARATOR, NonEmpty(PresentCells(cells)))
  }

  predicate AnyEscape(cells: seq<string>) {
    exists i | 0 <= i < |cells| :: HasEscape(cells[i])
  }

  /**
   Cleaning the row as one text does what cleaning its cells does: an escape anywhere in it has the literal tags
   of all its cells dropped, and a tag may reach from one cell into another.
   */
  predicate Uncrossed(tables: CharTables, cells: seq<string>) {
    AnyEscape(cells) ==>
      && TagsStay(tables, cells)
      && forall i | 0 <= i < |cells| :: HasEscape(cells[i]) || !HasTag(tables, cells[i])
  }

  /** No cell but the first and the last is blank. */
  predicate SolidInside(cells: seq<string>) {
    forall i | 0 < i < |cells| - 1 :: Strip(cells[i]) != ""
  }

  lemma {:induction false} EscapeFreeDecodes(s: string)
    requires !HasEscape(s)
    ensures Decode(s) == s
  {
    hide EscapeAt;
    if s != "" {
      EscapeFreeDecodes(s[1..]);
      assert s == [s[0]] + s[1..];
    }
  }

  lemma CleanIsBare(tables: CharTables, text: string)
    requires HasEscape(text) || !HasTag(tables, text)
    ensures Plain(CleanProse(tables, text)) == Plain(Bare(tables, text))
    ensures Strip(CleanProse(tables, text)) == CleanProse(tables, text)
    ensures CleanProse(tables, text) == "" <==> Strip(Bare(tables, text)) == ""
  {
    hide HasEscape, Decode, DropTags, Collapse, Strip, HasTag;
    if HasEscape(text) {
      PlainTwice(Bare(tables, text));
      StripIdempotent(Collapse(Bare(tables, text)));
      StripCollapse(Bare(tables, text));
      CollapsedToNothing(Strip(Bare(tables, text)));
    } else {
      EscapeFreeDecodes(text);
      NothingElseDropped(tables, text);
      PlainTwice(text);
      StripIdempotent(text);
    }
  }

  lemma CollapsedToNothing(s: string)
    ensures Collapse(s) == "" <==> s == ""
  {
  }

  function Cleaned(tables: CharTables, cells: seq<string>): seq<string> {
    seq(|cells|, i requires 0 <= i < |cells| => CleanProse(tables, cells[i]))
  }

  lemma NothingToClean(tables: CharTables)
    ensures CleanProse(tables, "") == ""
  {
  }

  lemma CellInRow(cells: seq<string>, i: nat)
    requires i < |cells|
    ensures Contains(Join(ROW_CELL_SEPARATOR, cells), cells[i])
  {
    hide Contains;
    assert cells == cells[..i] + [cells[i]] + cells[i + 1..];
    JoinContains(ROW_CELL_SEPARATOR, cells[..i], [cells[i]], cells[i + 1..]);
  }

  // Both ends of a row

  /** A text behind a pipe, whatever blanks there are. */
  lemma PlainLead(x: string, m: string)
    requires AllSpace(x) && Strip(m) != ""
    ensures Strip(x + "| " + m) != "" && Plain(x + "| " + m) == "| " + Plain(m)
  {
    hide IsSpace, Collapse, LStrip, RStrip;
    SpaceFacts();
    var a, b := StripSplit(m);
    var gap, t := " " + a, Strip(m);
    var core := "|" + (gap + t);
    assert x + "| " + m == x + core + b;
    StripAround(x, core, b);
    BlankEnds(x);
    BlankEnds(b);
    assert "" + core + "" == core;
    assert core[1..] == gap + t;
    CollapseSolidHead(core, gap + t);
    CollapseAppendLeft(gap, t);
    BlankIsOne(gap);
    assert ['|'] + (" " + Collapse(t)) == "| " + Collapse(t);
  }

  /** A text before a pipe. */
  lemma PlainTrail(m: string, z: string)
    requires Strip(m) != "" && AllSpace(z)
    ensures Strip(m + " |" + z) != "" && Plain(m + " |" + z) == Plain(m) + " |"
  {
    hide IsSpace, Collapse, LStrip, RStrip;
    SpaceFacts();
    var a, b := StripSplit(m);
    var gap, t := b + " ", Strip(m);
    var core := t + (gap + "|");
    assert m + " |" + z == a + core + z;
    StripAround(a, core, z);
    BlankEnds(a);
    BlankEnds(z);
    assert "" + core + "" == core;
    CollapseAppendRight(t, gap + "|");
    CollapseAppendLeft(gap, "|");
    BlankIsOne(gap);
    CollapseSolidHead("|", "");
    CollapseNothing();
    assert Collapse("|") == "|";
  }

  lemma BlankAround(b: string)
    requires AllSpace(b)
    ensures AllSpace(b + " ") && AllSpace(" " + b)
  {
  }

  lemma BlankCellFirst(b: string, cells: seq<string>)
    requires cells != [] && Strip(b) == "" && Strip(Join(ROW_CELL_SEPARATOR, cells)) != ""
    ensures Strip(Join(ROW_CELL_SEPARATOR, [b] + cells)) != ""
    ensures Plain(Join(ROW_CELL_SEPARATOR, [b] + cells)) == "| " + Plain(Join(ROW_CELL_SEPARATOR, cells))
  {
    hide IsSpace, Join, Plain, Strip;
    SpaceFacts();
    JoinAppend(ROW_CELL_SEPARATOR, [b], cells);
    JoinOne(ROW_CELL_SEPARATOR, b);
    StripBlank(b);
    BlankAround(b);
    var row := Join(ROW_CELL_SEPARATOR, cells);
    PlainLead(b + " ", row);
    assert b + " " + "| " + row == b + ROW_CELL_SEPARATOR + row;
  }

  lemma BlankCellLast(cells: seq<string>, b: string)
    requires cells != [] && Strip(b) == "" && Strip(Join(ROW_CELL_SEPARATOR, cells)) != ""
    ensures Strip(Join(ROW_CELL_SEPARATOR, cells + [b])) != ""
    ensures Plain(Join(ROW_CELL_SEPARATOR, cells + [b])) == Plain(Join(ROW_CELL_SEPARATOR, cells)) + " |"
  {
    hide IsSpace, Join, Plain, Strip;
    SpaceFacts();
    JoinAppend(ROW_CELL_SEPARATOR, cells, [b]);
    JoinOne(ROW_CELL_SEPARATOR, b);
    StripBlank(b);
    BlankAround(b);
    var row := Join(ROW_CELL_SEPARATOR, cells);
    PlainTrail(row, " " + b);
    assert row + " |" + (" " + b) == row + ROW_CELL_SEPARATOR + b;
  }

  /** At most one cell, and that blank. */
  predicate BlankEnd(cells: seq<string>) {
    |cells| <= 1 && forall i | 0 <= i < |cells| :: Strip(cells[i]) == ""
  }

  predicate AllSolid(cells: seq<string>) {
    cells != [] && forall i | 0 <= i < |cells| :: Strip(cells[i]) != ""
  }

  /** A text with a pipe before it, behind it, or neither. */
  function Between(lead: bool, m: string, trail: bool): string {
    (if lead then "| " else "") + m + (if trail then " |" else "")
  }

  lemma BetweenIs(m: string)
    ensures Between(false, m, false) == m && Between(true, m, false) == "| " + m
    ensures Between(false, m, true) == m + " |" && Between(true, m, true) == "| " + (m + " |")
  {
  }

  /** A row of cells of which the first and the last may be blank, whitespace aside. */
  lemma PlainEnds(front: seq<string>, cells: seq<string>, back: seq<string>)
    requires BlankEnd(front) && AllSolid(cells) && BlankEnd(back)
    ensures Plain(Join(ROW_CELL_SEPARATOR, front + (cells + back)))
         == Between(front != [], Plain(Join(ROW_CELL_SEPARATOR, cells)), back != [])
  {
    hide IsSpace, Join, Plain, Strip, Between;
    PlainRow(cells);
    BetweenIs(Plain(Join(ROW_CELL_SEPARATOR, cells)));
    var row := cells + back;
    if back == [] {
      assert row == cells;
    } else {
      assert back == [back[0]];
      BlankCellLast(cells, back[0]);
    }
    if front == [] {
      assert front + row == row;
    } else {
      assert front == [front[0]];
      BlankCellFirst(front[0], row);
    }
  }

  // The row as a whole

  /** What the cells are to a reader of the row cleaned as one text, but for whitespace. */
  function Readings(tables: CharTables, cells: seq<string>): (r: seq<string>)
    ensures |r| == |cells|
  {
    if AnyEscape(cells) then BareCells(tables, cells) else cells
  }

  lemma RowReads(tables: CharTables, cells: seq<string>)
    requires WordsEnd(tables) && Uncrossed(tables, cells)
    ensures Plain(CleanProse(tables, Join(ROW_CELL_SEPARATOR, cells)))
         == Plain(Join(ROW_CELL_SEPARATOR, Readings(tables, cells)))
  {
    hide HasEscape, HasTag, Decode, DropTags, Closed, Join, TagsStay, Strip, Collapse;
    var row := Join(ROW_CELL_SEPARATOR, cells);
    if AnyEscape(cells) {
      var i :| 0 <= i < |cells| && HasEscape(cells[i]);
      CellInRow(cells, i);
      if !HasEscape(row) {
        SubstringEscapeFree(row, cells[i]);
      }
      CleanIsBare(tables, row);
      BareRow(tables, cells);
    } else {
      JoinEscapeFree(cells);
      PlainTwice(row);
    }
  }

  /** Cell by cell, what is read and what is cleaned are the same and blank together. */
  lemma CellsReadTheSame(tables: CharTables, cells: seq<string>)
    requires Uncrossed(tables, cells)
    ensures var bare, clean := Readings(tables, cells), Cleaned(tables, cells);
            PlainCells(bare) == PlainCells(clean)
            && forall i | 0 <= i < |cells| ::
                 (clean[i] == "" <==> Strip(bare[i]) == "") && Strip(clean[i]) == clean[i]
  {
    hide HasEscape, HasTag, Decode, DropTags, Closed, TagsStay, Strip, Collapse;
    var bare, clean := Readings(tables, cells), Cleaned(tables, cells);
    forall i | 0 <= i < |cells|
      ensures Plain(clean[i]) == Plain(bare[i]) && (clean[i] == "" <==> Strip(bare[i]) == "")
      ensures Strip(clean[i]) == clean[i]
    {
      if AnyEscape(cells) {
        CleanIsBare(tables, cells[i]);
      } else {
        PlainTwice(cells[i]);
        StripIdempotent(cells[i]);
      }
    }
  }

  /** Where the cells that are not blank begin and end. */
  lemma SolidPart(cells: seq<string>) returns (lo: nat, hi: nat)
    requires SolidInside(cells) && exists i | 0 <= i < |cells| :: Strip(cells[i]) != ""
    ensures lo < hi <= |cells| && BlankEnd(cells[..lo]) && AllSolid(cells[lo..hi]) && BlankEnd(cells[hi..])
  {
    hide Strip;
    lo := if Strip(cells[0]) == "" then 1 else 0;
    hi := if Strip(cells[|cells| - 1]) == "" then |cells| - 1 else |cells|;
  }

  lemma {:induction false} SolidAreKept(cells: seq<string>)
    requires forall i | 0 <= i < |cells| :: cells[i] != ""
    ensures NonEmpty(cells) == cells
  {
    if cells != [] {
      SolidAreKept(cells[1..]);
      assert cells == [cells[0]] + cells[1..];
    }
  }

  lemma {:induction false} NonEmptyAppend(a: seq<string>, b: seq<string>)
    ensures NonEmpty(a + b) == NonEmpty(a) + NonEmpty(b)
  {
    if a == [] {
      assert a + b == b;
    } else {
      assert (a + b)[1..] == a[1..] + b;
      NonEmptyAppend(a[1..], b);
    }
  }

  lemma KeptMiddle(front: seq<string>, middle: seq<string>, back: seq<string>)
    requires |front| <= 1 && |back| <= 1 && (forall i | 0 <= i < |middle| :: middle[i] != "")
    requires (forall i | 0 <= i < |front| :: front[i] == "") && (forall i | 0 <= i < |back| :: back[i] == "")
    ensures NonEmpty(front + (middle + back)) == middle
  {
    hide NonEmpty;
    NonEmptyAppend(front, middle + back);
    NonEmptyAppend(middle, back);
    SolidAreKept(middle);
    NothingKeptOf(front);
    NothingKeptOf(back);
  }

  lemma NothingKeptOf(cells: seq<string>)
    requires |cells| <= 1 && forall i | 0 <= i < |cells| :: cells[i] == ""
    ensures NonEmpty(cells) == []
  {
  }

  /** Framing keeps the part that is not blank and shows what was left out around it. */
  lemma FramedParts(clean: seq<string>, lo: nat, hi: nat)
    requires lo < hi <= |clean| && lo <= 1 && |clean| - hi <= 1
    requires forall i | 0 <= i < |clean| :: clean[i] == "" <==> i < lo || i >= hi
    ensures Framed(clean) == Between(lo != 0, Join(ROW_CELL_SEPARATOR, clean[lo..hi]), hi != |clean|)
  {
    hide Join, NonEmpty;
    assert clean == clean[..lo] + (clean[lo..hi] + clean[hi..]);
    KeptMiddle(clean[..lo], clean[lo..hi], clean[hi..]);
    assert Lead(clean) == if lo != 0 then "| " else "";
    assert Trail(clean) == if hi != |clean| then " |" else "";
  }

  /** A text between pipes, or not. */
  lemma PlainBetween(m: string, lead: bool, trail: bool)
    requires Strip(m) != ""
    ensures Plain(Between(lead, m, trail)) == Between(lead, Plain(m), trail)
  {
    hide Plain, Strip, Between;
    BetweenIs(m);
    BetweenIs(Plain(m));
    var t := m;
    if trail {
      PlainTrail(m, "");
      assert m + " |" + "" == m + " |";
      t := m + " |";
    }
    if lead {
      PlainLead("", t);
      assert "" + "| " + t == "| " + t;
    }
  }

  /** The part that is not blank reads the same, cleaned or bare. */
  lemma MiddleReads(bare: seq<string>, clean: seq<string>, lo: nat, hi: nat)
    requires |bare| == |clean| && lo < hi <= |clean| && PlainCells(bare) == PlainCells(clean)
    requires AllSolid(bare[lo..hi]) && AllSolid(clean[lo..hi])
    ensures Plain(Join(ROW_CELL_SEPARATOR, bare[lo..hi])) == Plain(Join(ROW_CELL_SEPARATOR, clean[lo..hi]))
    ensures Strip(Join(ROW_CELL_SEPARATOR, clean[lo..hi])) != ""
  {
    hide Plain, Strip, Join;
    PlainRow(bare[lo..hi]);
    PlainRow(clean[lo..hi]);
    assert PlainCells(bare[lo..hi]) == PlainCells(bare)[lo..hi];
    assert PlainCells(clean[lo..hi]) == PlainCells(clean)[lo..hi];
  }

  lemma CutReads(cells: seq<string>, lo: nat, hi: nat)
    requires lo < hi <= |cells| && BlankEnd(cells[..lo]) && AllSolid(cells[lo..hi]) && BlankEnd(cells[hi..])
    ensures Plain(Join(ROW_CELL_SEPARATOR, cells))
         == Between(lo != 0, Plain(Join(ROW_CELL_SEPARATOR, cells[lo..hi])), hi != |cells|)
  {
    hide Plain, Join, Between, AllSolid, BlankEnd;
    var front, middle, back := cells[..lo], cells[lo..hi], cells[hi..];
    assert cells == front + (middle + back);
    PlainEnds(front, middle, back);
    assert (front != [] <==> lo != 0) && (back != [] <==> hi != |cells|);
  }

  lemma SamePart(bare: seq<string>, clean: seq<string>, lo: nat, hi: nat)
    requires |bare| == |clean| && lo < hi <= |clean| && lo <= 1 && |clean| - hi <= 1
    requires forall i | 0 <= i < |clean| :: clean[i] == "" <==> i < lo || i >= hi
    requires forall i | 0 <= i < |clean| :: clean[i] == "" <==> Strip(bare[i]) == ""
    ensures BlankEnd(bare[..lo]) && AllSolid(bare[lo..hi]) && BlankEnd(bare[hi..])
  {
    hide Strip;
  }

  /** Cleaned as one text, a raw row reads like its cleaned cells, framed. */
  lemma RawRowReads(tables: CharTables, cells: seq<string>)
    requires WordsEnd(tables) && Uncrossed(tables, cells)
    requires SolidInside(Cleaned(tables, cells)) && exists i | 0 <= i < |cells| :: Cleaned(tables, cells)[i] != ""
    ensures Plain(CleanProse(tables, Join(ROW_CELL_SEPARATOR, cells))) == Plain(Framed(Cleaned(tables, cells)))
  {
    hide Plain, CleanProse, Readings, Strip, Join, Framed, Uncrossed, Between, AllSolid, BlankEnd;
    var bare, clean := Readings(tables, cells), Cleaned(tables, cells);
    CellsReadTheSame(tables, cells);
    var lo, hi := SolidPart(clean);
    BlankCells(clean, lo, hi);
    SamePart(bare, clean, lo, hi);
    RowReads(tables, cells);
    CutReads(bare, lo, hi);
    MiddleReads(bare, clean, lo, hi);
    FramedParts(clean, lo, hi);
    PlainBetween(Join(ROW_CELL_SEPARATOR, clean[lo..hi]), lo != 0, hi != |clean|);
  }

  lemma BlankCells(clean: seq<string>, lo: nat, hi: nat)
    requires lo < hi <= |clean| && BlankEnd(clean[..lo]) && AllSolid(clean[lo..hi]) && BlankEnd(clean[hi..])
    requires forall i | 0 <= i < |clean| :: Strip(clean[i]) == clean[i]
    ensures lo <= 1 && |clean| - hi <= 1
    ensures forall i | 0 <= i < |clean| :: clean[i] == "" <==> i < lo || i >= hi
  {
    hide Strip;
    forall i | 0 <= i < |clean| ensures clean[i] == "" <==> i < lo || i >= hi {
      if i < lo {
        assert clean[..lo][i] == clean[i];
      } else if i < hi {
        assert clean[lo..hi][i - lo] == clean[i];
      } else {
        assert clean[hi..][i - hi] == clean[i];
      }
    }
  }

  // The page shows at least that much

  lemma {:induction false} CleanThenKeep(tables: CharTables, cells: seq<string>)
    ensures NonEmpty(Cleaned(tables, cells)) == NonEmpty(Cleaned(tables, NonEmpty(cells)))
  {
    hide CleanProse;
    if cells != [] {
      CleanThenKeep(tables, cells[1..]);
      assert Cleaned(tables, cells) == [CleanProse(tables, cells[0])] + Cleaned(tables, cells[1..]);
      if cells[0] == "" {
        NothingToClean(tables);
      } else {
        assert Cleaned(tables, NonEmpty(cells))
            == [CleanProse(tables, cells[0])] + Cleaned(tables, NonEmpty(cells[1..]));
      }
    }
  }

  /** Where the first or the last of the non-empty cells cleans to nothing, so does that of all cells. */
  lemma SameEnds(tables: CharTables, cells: seq<string>)
    requires NonEmpty(cells) != []
    ensures var all, some := Cleaned(tables, cells), Cleaned(tables, NonEmpty(cells));
            && (Lead(some) == "" || Lead(some) == Lead(all))
            && (Trail(some) == "" || Trail(some) == Trail(all))
  {
    hide CleanProse;
    NothingToClean(tables);
    var last := |cells| - 1;
    assert cells == cells[..last] + [cells[last]];
    NonEmptyAppend(cells[..last], [cells[last]]);
  }

  lemma FramedWithin(all: seq<string>, some: seq<string>)
    requires NonEmpty(all) == NonEmpty(some)
    requires (Lead(some) == "" || Lead(some) == Lead(all)) && (Trail(some) == "" || Trail(some) == Trail(all))
    ensures Contains(Framed(all), Framed(some))
  {
    hide Contains, NonEmpty, Join, Lead, Trail;
    var pre := if Lead(some) == "" then Lead(all) else "";
    var post := if Trail(some) == "" then Trail(all) else "";
    ContainsIntro(pre, Framed(some), post);
    assert pre + Framed(some) + post == Framed(all);
  }

  // When a cell inside is blank

  lemma PlainRun(x: string)
    ensures HasPipeRun(Plain(x)) <==> HasPipeRun(x)
  {
    hide HasPipeRun, Collapse, Strip;
    PipeRunStrip(x);
    PipeRunCollapse(Strip(x));
  }

  lemma BlankBetweenPipes(b: string)
    requires AllSpace(b)
    ensures HasPipeRun("| " + b + " |")
  {
    hide IsSpace;
    SpaceFacts();
    var gap := " " + b + " ";
    assert ("| " + b + " |")[1..] == gap + "|";
    LStripAppend(gap, "|");
    LStripBlank(gap);
    assert "" + "|" == "|";
  }

  lemma BlankInside(cells: seq<string>, i: nat)
    requires 0 < i < |cells| - 1 && Strip(cells[i]) == ""
    ensures HasPipeRun(Join(ROW_CELL_SEPARATOR, cells))
  {
    hide Join, HasPipeRun, Strip, Contains, AllSpace;
    var a, b, c := cells[..i], cells[i], cells[i + 1..];
    assert cells == a + ([b] + c);
    JoinAppend(ROW_CELL_SEPARATOR, a, [b] + c);
    JoinAppend(ROW_CELL_SEPARATOR, [b], c);
    JoinOne(ROW_CELL_SEPARATOR, b);
    StripBlank(b);
    BlankBetweenPipes(b);
    var u, v := Join(ROW_CELL_SEPARATOR, a) + " ", " " + Join(ROW_CELL_SEPARATOR, c);
    assert u + ("| " + b + " |") + v == Join(ROW_CELL_SEPARATOR, cells);
    ContainsIntro(u, "| " + b + " |", v);
    PipeRunContains(Join(ROW_CELL_SEPARATOR, cells), "| " + b + " |");
  }

  /** A row of one or two cells that clean to nothing leaves at most a pipe. */
  lemma LittleLeft(tables: CharTables, cells: seq<string>)
    requires WordsEnd(tables) && Uncrossed(tables, cells)
    requires |cells| <= 2 && forall i | 0 <= i < |cells| :: Cleaned(tables, cells)[i] == ""
    ensures var text := Plain(CleanProse(tables, Join(ROW_CELL_SEPARATOR, cells))); text == "" || text == "|"
  {
    hide Plain, CleanProse, Uncrossed, Join, Readings;
    var bare := Readings(tables, cells);
    CellsReadTheSame(tables, cells);
    RowReads(tables, cells);
    NothingReads();
    if |cells| == 1 {
      assert bare == [bare[0]];
      JoinOne(ROW_CELL_SEPARATOR, bare[0]);
      BlankReads(bare[0]);
    } else if |cells| == 2 {
      assert bare == [bare[0]] + [bare[1]];
      JoinAppend(ROW_CELL_SEPARATOR, [bare[0]], [bare[1]]);
      JoinOne(ROW_CELL_SEPARATOR, bare[0]);
      JoinOne(ROW_CELL_SEPARATOR, bare[1]);
      LonePipeReads(bare[0], bare[1]);
    } else {
      assert bare == [];
    }
  }

  lemma NothingReads()
    ensures Plain("") == "" && Join(ROW_CELL_SEPARATOR, []) == ""
  {
  }

  lemma BlankReads(b: string)
    requires Strip(b) == ""
    ensures Plain(b) == ""
  {
  }

  lemma LonePipeReads(a: string, b: string)
    requires Strip(a) == "" && Strip(b) == ""
    ensures Plain(a + ROW_CELL_SEPARATOR + b) == "|"
  {
    hide IsSpace, LStrip, RStrip, Collapse;
    SpaceFacts();
    StripBlank(a);
    StripBlank(b);
    BlankAround(a);
    BlankAround(b);
    assert a + ROW_CELL_SEPARATOR + b == (a + " ") + "|" + (" " + b);
    StripAround(a + " ", "|", " " + b);
    BlankEnds(a + " ");
    BlankEnds(" " + b);
    assert "" + "|" + "" == "|";
    CollapseSolidHead("|", "");
    CollapseNothing();
  }

  lemma {:induction false} ShortLower(tables: CharTables, s: string)
    requires FoldsPlainly(tables) && (s == "" || s == "|")
    ensures |Lower(tables.lower, s)| <= 1
  {
    if s == "|" {
      assert Lower(tables.lower, s) == tables.lower('|') + "";
    }
  }

  lemma FewBlank(cells: seq<string>)
    requires forall i | 0 <= i < |cells| :: cells[i] == ""
    ensures SolidInside(cells) ==> |cells| <= 2
  {
    if |cells| > 2 {
      assert Strip(cells[1]) == "";
    }
  }

  lemma SomethingLeft(tables: CharTables, cells: seq<string>)
    requires WordsEnd(tables) && FoldsPlainly(tables) && Uncrossed(tables, cells)
    requires SolidInside(Cleaned(tables, cells))
    requires Quotable(tables, CleanProse(tables, Join(ROW_CELL_SEPARATOR, cells)))
    ensures exists i | 0 <= i < |cells| :: Cleaned(tables, cells)[i] != ""
  {
    hide WordsEnd, FoldsPlainly, Uncrossed, CleanProse, Join, Strip, Collapse, Lower;
    if forall i | 0 <= i < |cells| :: Cleaned(tables, cells)[i] == "" {
      NothingNormalizes(tables);
      FewBlank(Cleaned(tables, cells));
      LittleLeft(tables, cells);
      ShortLower(tables, Plain(CleanProse(tables, Join(ROW_CELL_SEPARATOR, cells))));
      assert false;
    }
  }

  /** A blank cell inside the row is a run of pipes in the cleaned quote. */
  lemma BlankInsideRuns(tables: CharTables, cells: seq<string>, i: nat)
    requires WordsEnd(tables) && Uncrossed(tables, cells)
    requires 0 < i < |cells| - 1 && Strip(Cleaned(tables, cells)[i]) == ""
    ensures HasPipeRun(CleanProse(tables, Join(ROW_CELL_SEPARATOR, cells)))
  {
    hide Plain, CleanProse, Readings, Strip, Join, Uncrossed, HasPipeRun;
    CellsReadTheSame(tables, cells);
    RowReads(tables, cells);
    BlankInside(Readings(tables, cells), i);
    PlainRun(Join(ROW_CELL_SEPARATOR, Readings(tables, cells)));
    PlainRun(CleanProse(tables, Join(ROW_CELL_SEPARATOR, cells)));
  }

  /** Collapsed, the page shows what the raw row reads like. */
  lemma PageShowsRawRow(tables: CharTables, blocks: seq<Block>, k: nat)
    requires k < |blocks| && blocks[k].Row?
    requires forall c | c in CleanCells(tables, blocks[k].cells) :: '|' !in c
    requires NonEmpty(Cleaned(tables, NonEmpty(PresentCells(blocks[k].cells)))) != []
    ensures Contains(CollapsePipes(Plaintext(tables, blocks)),
                     Framed(Cleaned(tables, NonEmpty(PresentCells(blocks[k].cells)))))
  {
    hide CleanProse, CollapsePipes, Contains, Plaintext, Framed, NonEmpty, Lead, Trail;
    var present := PresentCells(blocks[k].cells);
    assert CleanCells(tables, blocks[k].cells) == Cleaned(tables, present);
    CleanThenKeep(tables, present);
    PageShowsRow(tables, blocks, k);
    SomeKept(tables, present);
    SameEnds(tables, present);
    FramedWithin(Cleaned(tables, present), Cleaned(tables, NonEmpty(present)));
    ContainsTransitive(CollapsePipes(Plaintext(tables, blocks)), Framed(Cleaned(tables, present)),
                       Framed(Cleaned(tables, NonEmpty(present))));
  }

  lemma SomeKept(tables: CharTables, cells: seq<string>)
    ensures NonEmpty(cells) == [] ==> NonEmpty(Cleaned(tables, NonEmpty(cells))) == []
  {
  }

  lemma KeptIsThere(cells: seq<string>)
    ensures (exists i | 0 <= i < |cells| :: cells[i] != "") ==> NonEmpty(cells) != []
  {
  }

  /**
   Where nothing is crossed, the C# rendering of a row with its escapes still in it is accepted exactly when no
   cell inside the row is markup alone: that one the page leaves out, and the quote keeps its two pipes.
   */
  lemma RawRowIff(tables: CharTables, blocks: seq<Block>, k: nat)
    requires WordsEnd(tables) && FoldsPlainly(tables) && k < |blocks| && blocks[k].Row?
    requires Uncrossed(tables, NonEmpty(PresentCells(blocks[k].cells)))
    requires forall c | c in CleanCells(tables, blocks[k].cells) :: '|' !in c
    requires Quotable(tables, CleanProse(tables, RawRow(blocks[k].cells)))
    ensures VerifyQuote(tables, RawRow(blocks[k].cells), Plaintext(tables, blocks), blocks)
       <==> SolidInside(Cleaned(tables, NonEmpty(PresentCells(blocks[k].cells))))
  {
    hide WordsEnd, FoldsPlainly, Uncrossed, CleanProse, Plaintext, CollapsePipes, Strip, Collapse, Lower, Contains,
         HasCell, Framed, HasPipeRun, Join;
    var kept, page := NonEmpty(PresentCells(blocks[k].cells)), Plaintext(tables, blocks);
    var clean := Cleaned(tables, kept);
    if SolidInside(clean) {
      SomethingLeft(tables, kept);
      KeptIsThere(clean);
      RawRowReads(tables, kept);
      PageShowsRawRow(tables, blocks, k);
      NormalizeContains(tables, CollapsePipes(page), Framed(clean));
    } else {
      var i :| 0 < i < |clean| - 1 && Strip(clean[i]) == "";
      BlankInsideRuns(tables, kept, i);
      RunIsRefused(tables, RawRow(blocks[k].cells), page, blocks);
    }
  }

  // ---- A row that is crossed ----

  lemma {:induction false} NoEscapeWithoutU(s: string)
    requires forall i | 0 <= i < |s| :: Fold(s[i]) != 'u'
    ensures !HasEscape(s)
  {
    hide Decoded, FoldAll, Fold;
    if s != "" {
      NoEscapeWithoutU(s[1..]);
    }
  }

  lemma AmpersandWord()
    ensures HasEscape("u0026abcdefg") && Decode("u0026abcdefg") == "&abcdefg"
  {
    hide IsSpace, HasEscape, Decode;
    var s := "u0026abcdefg";
    assert s[1..5] == "0026";
    assert FoldAll("0026") == "0026";
    assert EscapeAt(s) == Some((5, '&'));
    hide EscapeAt;
    assert s[5..] == "abcdefg";
    NoEscapeWithoutU("abcdefg");
    EscapeFreeDecodes("abcdefg");
    DecodeEscape(s, 5, '&');
    assert ['&'] + "abcdefg" == "&abcdefg";
  }

  lemma LiteralTag()
    ensures !HasEscape("<p>hij") && Decode("<p>hij") == "<p>hij" && DropTags(ASCII, "<p>hij") == " hij"
  {
    hide IsSpace, HasEscape, Decode, DropTags;
    NoEscapeWithoutU("<p>hij");
    EscapeFreeDecodes("<p>hij");
    assert FoldAll("p") == "p";
    assert IsTag(ASCII, "<", "p", "", ">hij");
    hide IsTag;
    TagIsDropped(ASCII, "<", "p", "", ">hij");
    assert "<" + ("p" + ("" + ">hij")) == "<p>hij" && ">hij"[1..] == "hij";
    NoTagWithoutOpening(ASCII, "hij");
    NothingElseDropped(ASCII, "hij");
    assert " " + "hij" == " hij";
  }

  lemma CrossedRowDecodes()
    ensures HasEscape("u0026abcdefg | <p>hij")
    ensures Decode("u0026abcdefg | <p>hij") == "&abcdefg" + ROW_CELL_SEPARATOR + "<p>hij"
  {
    hide IsSpace, HasEscape, Decode, Contains;
    var a, b := "u0026abcdefg", "<p>hij";
    var row := "" + a + (ROW_CELL_SEPARATOR + b);
    assert row == "u0026abcdefg | <p>hij" == a + ROW_CELL_SEPARATOR + b;
    AmpersandWord();
    LiteralTag();
    ContainsIntro("", a, ROW_CELL_SEPARATOR + b);
    if !HasEscape(row) {
      SubstringEscapeFree(row, a);
    }
    DecodeAcross(a, b);
  }

  lemma CrossedRowDrops()
    ensures DropTags(ASCII, "&abcdefg" + ROW_CELL_SEPARATOR + "<p>hij") == "&abcdefg |  hij"
  {
    hide DropTags, HasTag, Closed;
    LiteralTag();
    NothingOpens("&abcdefg");
    DropAcross(ASCII, "&abcdefg", "<p>hij");
    NoTagWithoutOpening(ASCII, "&abcdefg");
    NothingElseDropped(ASCII, "&abcdefg");
    assert "&abcdefg" + ROW_CELL_SEPARATOR + " hij" == "&abcdefg |  hij";
  }

  /** Cleaned as one text, the row loses the literal tag of its other cell. */
  lemma CrossedRowCleans()
    ensures CleanProse(ASCII, "u0026abcdefg | <p>hij") == "&abcdefg | hij"
  {
    hide HasEscape, Decode, DropTags, Collapse, Strip;
    CrossedRowDecodes();
    CrossedRowDrops();
    CrossedRowCollapses();
  }

  lemma {:induction false} NothingOpens(s: string)
    requires '<' !in s
    ensures Closed(ASCII, s)
  {
    if s != "" {
      NothingOpens(s[1..]);
    }
  }

  lemma WordReads(s: string)
    requires s != "" && forall i | 0 <= i < |s| :: !IsSpace(s[i])
    ensures Strip(s) == s && Collapse(s) == s && Plain(s) == s
  {
    hide IsSpace;
    SolidCollapse(s);
    assert LStrip(s) == s;
  }

  lemma AmpersandReads()
    ensures Plain("&abcdefg") == "&abcdefg" && Strip("&abcdefg") == "&abcdefg" && Collapse("&abcdefg") == "&abcdefg"
  {
    WordReads("&abcdefg");
  }

  lemma TagReads()
    ensures Plain("<p>hij") == "<p>hij" && Strip("<p>hij") == "<p>hij"
  {
    WordReads("<p>hij");
  }

  lemma RestReads()
    ensures Plain("hij") == "hij" && Strip("hij") == "hij" && Plain(" hij") == "hij" && Strip(" hij") == "hij"
  {
    WordReads("hij");
    hide IsSpace, Collapse;
    SpaceFacts();
    assert " hij"[1..] == "hij";
    assert LStrip(" hij") == LStrip("hij");
  }

  lemma WordsRead()
    ensures Plain("&abcdefg") == "&abcdefg" && Strip("&abcdefg") == "&abcdefg" && Collapse("&abcdefg") == "&abcdefg"
    ensures Plain("<p>hij") == "<p>hij" && Strip("<p>hij") == "<p>hij"
    ensures Plain("hij") == "hij" && Strip("hij") == "hij" && Plain(" hij") == "hij" && Strip(" hij") == "hij"
  {
    hide Plain, Strip, Collapse;
    AmpersandReads();
    TagReads();
    RestReads();
  }

  lemma CrossedRowCollapses()
    ensures Strip(Collapse("&abcdefg |  hij")) == "&abcdefg | hij"
  {
    hide Collapse, Strip;
    WordsRead();
    PlainAcross("&abcdefg", " hij");
    assert "&abcdefg" + ROW_CELL_SEPARATOR + " hij" == "&abcdefg |  hij";
    assert "&abcdefg" + ROW_CELL_SEPARATOR + "hij" == "&abcdefg | hij";
    StripCollapse("&abcdefg |  hij");
  }

  const CROSSED: seq<Option<string>> := [Some("u0026abcdefg"), Some("<p>hij")]

  lemma CrossedCells()
    ensures CleanProse(ASCII, "u0026abcdefg") == "&abcdefg" && CleanProse(ASCII, "<p>hij") == "<p>hij"
  {
    hide HasEscape, Decode, DropTags, Collapse, Strip;
    AmpersandWord();
    LiteralTag();
    NoTagWithoutOpening(ASCII, "&abcdefg");
    NothingElseDropped(ASCII, "&abcdefg");
    WordsRead();
  }

  lemma CrossedPresent()
    ensures PresentCells(CROSSED) == ["u0026abcdefg", "<p>hij"]
    ensures NonEmpty(PresentCells(CROSSED)) == ["u0026abcdefg", "<p>hij"]
  {
    assert CROSSED[1..] == [Some("<p>hij")];
    SolidAreKept(["u0026abcdefg", "<p>hij"]);
  }

  lemma CrossedRaw()
    ensures RawRow(CROSSED) == "u0026abcdefg | <p>hij"
  {
    hide PresentCells, NonEmpty, Join;
    CrossedPresent();
    JoinParts("u0026abcdefg", ["<p>hij"]);
    JoinOne(ROW_CELL_SEPARATOR, "<p>hij");
    assert ["u0026abcdefg"] + ["<p>hij"] == ["u0026abcdefg", "<p>hij"];
    assert "u0026abcdefg" + ROW_CELL_SEPARATOR + "<p>hij" == "u0026abcdefg | <p>hij";
  }

  lemma CrossedClean()
    ensures CleanCells(ASCII, CROSSED) == ["&abcdefg", "<p>hij"]
    ensures Join(ROW_CELL_SEPARATOR, ["&abcdefg", "<p>hij"]) == "&abcdefg | <p>hij"
  {
    hide PresentCells, CleanProse, Join;
    CrossedPresent();
    CrossedCells();
    JoinParts("&abcdefg", ["<p>hij"]);
    JoinOne(ROW_CELL_SEPARATOR, "<p>hij");
    assert ["&abcdefg"] + ["<p>hij"] == ["&abcdefg", "<p>hij"];
    assert "&abcdefg" + ROW_CELL_SEPARATOR + "<p>hij" == "&abcdefg | <p>hij";
  }

  lemma CrossedPage()
    ensures Plaintext(ASCII, [Row(CROSSED)]) == "&abcdefg | <p>hij"
    ensures CollapsePipes("&abcdefg | <p>hij") == "&abcdefg | <p>hij"
  {
    hide CollapsePipes, Plaintext, CleanCells, PresentCells, NonEmpty, Join, Collapse, LStrip, RStrip;
    CrossedClean();
    SpaceFacts();
    WordsRead();
    PlainAcross("&abcdefg", "<p>hij");
    assert "&abcdefg" + ROW_CELL_SEPARATOR + "<p>hij" == "&abcdefg | <p>hij";
    RowAlone(ASCII, Row(CROSSED));
    CollapsePipesPipeFree("<p>hij", "");
    NothingCollapses();
    assert "<p>hij" + "" == "<p>hij";
    SeparatorThenCell("<p>hij");
    CollapsePipesPipeFree("&abcdefg ", "| " + "<p>hij");
    assert "&abcdefg " + ("| " + "<p>hij") == "&abcdefg | <p>hij";
  }

  lemma NothingCollapses()
    ensures CollapsePipes("") == ""
  {
  }

  lemma {:induction false} AlreadyLower(s: string)
    requires forall i | 0 <= i < |s| :: !('A' <= s[i] <= 'Z')
    ensures Lower(ASCII.lower, s) == s
  {
    if s != "" {
      AlreadyLower(s[1..]);
      assert s == [s[0]] + s[1..];
    }
  }

  lemma CrossedReading()
    ensures Normalize(ASCII, "&abcdefg | hij") == "&abcdefg | hij"
    ensures Normalize(ASCII, "&abcdefg | <p>hij") == "&abcdefg | <p>hij"
  {
    hide Collapse, Lower, Strip;
    WordsRead();
    PlainAcross("&abcdefg", "hij");
    PlainAcross("&abcdefg", "<p>hij");
    assert "&abcdefg" + ROW_CELL_SEPARATOR + "hij" == "&abcdefg | hij";
    assert "&abcdefg" + ROW_CELL_SEPARATOR + "<p>hij" == "&abcdefg | <p>hij";
    AlreadyLower("&abcdefg | hij");
    AlreadyLower("&abcdefg | <p>hij");
  }

  lemma NotOnThePage()
    ensures !Contains("&abcdefg | <p>hij", "&abcdefg | hij")
  {
    var page, quote := "&abcdefg | <p>hij", "&abcdefg | hij";
    forall i | 0 <= i <= |page| - |quote| ensures !OccursAt(page, quote, i) {
      assert page[i..i + |quote|][0] == page[i] && page[i..i + |quote|][11] == page[i + 11];
      assert quote[0] == '&' && quote[11] == 'h';
    }
  }

  /**
   A row without a blank cell that is refused all the same: the escape in its first cell has the literal tag of
   its second dropped from the quote, which the page shows.
   */
  lemma CrossedRowRefused()
    ensures var page := Plaintext(ASCII, [Row(CROSSED)]);
            && page == "&abcdefg | <p>hij" && CleanProse(ASCII, RawRow(CROSSED)) == "&abcdefg | hij"
            && SolidInside(Cleaned(ASCII, NonEmpty(PresentCells(CROSSED))))
            && Quotable(ASCII, CleanProse(ASCII, RawRow(CROSSED)))
            && !Uncrossed(ASCII, NonEmpty(PresentCells(CROSSED)))
            && !VerifyQuote(ASCII, RawRow(CROSSED), page, [Row(CROSSED)])
  {
    hide Normalize, CleanProse, Plaintext, CollapsePipes, Contains, RawRow, PresentCells, NonEmpty, Uncrossed, HasCell;
    CrossedTag();
    CrossedPresent();
    CrossedRaw();
    CrossedPage();
    CrossedRowCleans();
    CrossedReading();
    NotOnThePage();
    assert "&abcdefg | hij"[1] == 'a' && ASCII.isAlnum('a');
    assert HasAlnum(ASCII, "&abcdefg | hij");
  }

  lemma CrossedTag()
    ensures !Uncrossed(ASCII, ["u0026abcdefg", "<p>hij"])
  {
    hide HasEscape, HasTag, DropTags, Decode, TagsStay;
    AmpersandWord();
    LiteralTag();
    NothingElseDropped(ASCII, "<p>hij");
    var cells := ["u0026abcdefg", "<p>hij"];
    assert HasEscape(cells[0]) && !HasEscape(cells[1]) && HasTag(ASCII, cells[1]);
  }
}
