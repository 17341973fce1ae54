/**
 The block-to-plaintext projection (`src/geek_crawler_rag/block_text.py`): the one string a page is
 chunked from and its quotes are checked against.
 */
module BlockText {
  import opened Wrappers
  import opened Text

  const ROW_CELL_SEPARATOR: string := " | "
  const BLOCK_SEPARATOR: string := "\n\n"

  datatype Kind = Heading | Code | Other

  /** One entry of a page's block list. `Missing` is a `None` entry; an empty dict is `Prose(Other, "", None)`. */
  datatype Block =
    | Missing
    | Row(cells: seq<Option<string>>)
    | Prose(kind: Kind, text: string, level: Option<int>)

  // ---- Escaped markup ----

  /** Case folding as `re.I` does it for the letters the two patterns mention. */
  function Fold(c: char): char {
    if 'A' <= c <= 'Z' then (c as int + 32) as char
    else if c == '\U{0130}' || c == '\U{0131}' then 'i'
    else if c == '\U{017F}' then 's'
    else c
  }

  function FoldAll(s: string): string {
    seq(|s|, i requires 0 <= i < |s| => Fold(s[i]))
  }

  function Decoded(hex: string): Option<char> {
    if hex == "003c" then Some('<')
    else if hex == "003e" then Some('>')
    else if hex == "0022" then Some('"')
    else if hex == "0026" then Some('&')
    else if hex == "0027" then Some('\'')
    else None
  }

  /** The character a `uXXXX` escape at the head of `s` spells, without its optional backslash. */
  function BareEscape(s: string): Option<char> {
    if |s| >= 5 && Fold(s[0]) == 'u' then Decoded(FoldAll(s[1..5])) else None
  }

  /** The escape at the head of `s`: its length and what it spells. */
  function EscapeAt(s: string): (r: Option<(nat, char)>)
    ensures r.Some? ==> 5 <= r.value.0 <= |s|
  {
    if s != "" && s[0] == '\\' && BareEscape(s[1..]).Some? then Some((6, BareEscape(s[1..]).value))
    else if BareEscape(s).Some? then Some((5, BareEscape(s).value))
    else None
  }

  /** `ESCAPED_MARKUP.search(text)`. */
  predicate HasEscape(s: string) {
    s != "" && (EscapeAt(s).Some? || HasEscape(s[1..]))
  }

  /** `ESCAPED_MARKUP.sub(...)`: every escape becomes the character it spells. */
  function Decode(s: string): string
    decreases |s|
  {
    if s == "" then ""
    else if EscapeAt(s).Some? then [EscapeAt(s).value.1] + Decode(s[EscapeAt(s).value.0..])
    else [s[0]] + Decode(s[1..])
  }

  // ---- Inline tags ----

  const TAG_NAMES: set<string> := {
    "div", "span", "p", "a", "ul", "ol", "li", "table", "tr", "td", "th",
    "h1", "h2", "h3", "h4", "h5", "h6",
    "br", "img", "section", "article", "nav", "header", "footer"
  }

  /** `</?` at the head of `s`, given its `<`. */
  function OpenLength(s: string): nat {
    if |s| > 1 && s[1] == '/' then 2 else 1
  }

  predicate IsTagName(name: string) {
    FoldAll(name) in TAG_NAMES
  }

  function WordRun(tables: CharTables, s: string): (n: nat)
    ensures n <= |s|
  {
    if s != "" && (tables.isAlnum(s[0]) || s[0] == '_') then 1 + WordRun(tables, s[1..]) else 0
  }

  function FindChar(s: string, c: char): (n: nat)
    ensures n <= |s|
  {
    if s == "" || s[0] == c then 0 else 1 + FindChar(s[1..], c)
  }

  /**
   The length of the tag `INLINE_HTML` matches at the head of `s`, 0 when it matches none. The word
   boundary makes the tag name the whole run of word characters, so at most one alternative fits.
   */
  function TagLength(tables: CharTables, s: string): (n: nat)
    ensures n <= |s|
  {
    if s == "" || s[0] != '<' then 0
    else
      var open := OpenLength(s);
      var run := WordRun(tables, s[open..]);
      var name := s[open..open + run];
      var close := FindChar(s[open + run..], '>');
      if IsTagName(name) && open + run + close < |s| then open + run + close + 1 else 0
  }

  /** `INLINE_HTML.sub(" ", text)`. */
  function DropTags(tables: CharTables, s: string): string
    decreases |s|
  {
    if s == "" then ""
    else if TagLength(tables, s) > 0 then " " + DropTags(tables, s[TagLength(tables, s)..])
    else [s[0]] + DropTags(tables, s[1..])
  }

  function CleanProse(tables: CharTables, text: string): string {
    if HasEscape(text) then Strip(Collapse(DropTags(tables, Decode(text)))) else Strip(text)
  }

  // ---- The projection ----

  function PresentCells(cells: seq<Option<string>>): seq<string> {
    if cells == [] then []
    else (if cells[0].Some? then [cells[0].value] else []) + PresentCells(cells[1..])
  }

  function CleanCells(tables: CharTables, cells: seq<Option<string>>): seq<string> {
    var present := PresentCells(cells);
    seq(|present|, i requires 0 <= i < |present| => CleanProse(tables, present[i]))
  }

  function Render(tables: CharTables, block: Block): string {
    match block
    case Missing => ""
    case Row(cells) => Join(ROW_CELL_SEPARATOR, CleanCells(tables, cells))
    case Prose(kind, text, _) => if kind == Code then Strip(text) else CleanProse(tables, text)
  }

  function NonBlank(lines: seq<string>): (kept: seq<string>)
    ensures forall i | 0 <= i < |kept| :: Strip(kept[i]) != ""
  {
    if lines == [] then []
    else (if Strip(lines[0]) != "" then [lines[0]] else []) + NonBlank(lines[1..])
  }

  function Rendered(tables: CharTables, blocks: seq<Block>): seq<string> {
    seq(|blocks|, i requires 0 <= i < |blocks| => Render(tables, blocks[i]))
  }

  /** The rendered lines that survive the `line.strip()` filter. */
  function Lines(tables: CharTables, blocks: seq<Block>): seq<string> {
    NonBlank(Rendered(tables, blocks))
  }

  /** `derive_plaintext_from_blocks`. */
  function Plaintext(tables: CharTables, blocks: seq<Block>): string {
    Join(BLOCK_SEPARATOR, Lines(tables, blocks))
  }

  lemma {:induction false} NonBlankAppend(a: seq<string>, b: seq<string>)
    ensures NonBlank(a + b) == NonBlank(a) + NonBlank(b)
  {
    hide IsSpace;
    if a == [] {
      assert a + b == b;
    } else {
      assert (a + b)[1..] == a[1..] + b;
      NonBlankAppend(a[1..], b);
    }
  }

  lemma LinesAppend(tables: CharTables, a: seq<Block>, b: seq<Block>)
    ensures Lines(tables, a + b) == Lines(tables, a) + Lines(tables, b)
  {
    hide IsSpace, Render, NonBlank;
    NonBlankAppend(Rendered(tables, a), Rendered(tables, b));
    assert Rendered(tables, a + b) == Rendered(tables, a) + Rendered(tables, b);
  }

  /** A run of consecutive blocks projects to a substring of the page's projection. */
  lemma PlaintextContains(tables: CharTables, a: seq<Block>, b: seq<Block>, c: seq<Block>)
    ensures Contains(Plaintext(tables, a + b + c), Plaintext(tables, b))
  {
    hide IsSpace;
    LinesAppend(tables, a + b, c);
    LinesAppend(tables, a, b);
    JoinContains(BLOCK_SEPARATOR, Lines(tables, a), Lines(tables, b), Lines(tables, c));
  }

  lemma {:induction false} PresentAppend(a: seq<Option<string>>, b: seq<Option<string>>)
    ensures PresentCells(a + b) == PresentCells(a) + PresentCells(b)
  {
    if a == [] {
      assert a + b == b;
    } else {
      assert (a + b)[1..] == a[1..] + b;
      PresentAppend(a[1..], b);
    }
  }

  /** A row shows all its cells but the missing ones, each cleaned, the empty ones too. */
  lemma CellsAreShown(tables: CharTables, a: seq<Option<string>>, cell: Option<string>, b: seq<Option<string>>)
    ensures CleanCells(tables, a + [cell] + b)
         == CleanCells(tables, a) + (if cell.Some? then [CleanProse(tables, cell.value)] else [])
            + CleanCells(tables, b)
  {
    hide CleanProse;
    var one := if cell.Some? then [cell.value] else [];
    PresentAppend(a + [cell], b);
    PresentAppend(a, [cell]);
    assert PresentCells([cell]) == one;
    assert PresentCells(a + [cell] + b) == PresentCells(a) + one + PresentCells(b);
  }

  /** A block of code is shown as it was stored but for whitespace at its ends: no escape is decoded, no tag dropped. */
  lemma CodeIsShown(tables: CharTables, blocks: seq<Block>, k: nat)
    requires k < |blocks| && blocks[k].Prose? && blocks[k].kind == Code
    ensures Contains(Plaintext(tables, blocks), Strip(blocks[k].text))
  {
    hide IsSpace, Strip, Contains, CleanProse, CleanCells;
    var line := Strip(blocks[k].text);
    assert blocks == blocks[..k] + [blocks[k]] + blocks[k + 1..];
    if line == "" {
      var page := Plaintext(tables, blocks);
      ContainsIntro("", line, page);
      assert "" + line + page == page;
    } else {
      StripIdempotent(blocks[k].text);
      PlaintextContains(tables, blocks[..k], [blocks[k]], blocks[k + 1..]);
      assert Rendered(tables, [blocks[k]]) == [line];
      assert NonBlank([line]) == [line];
      JoinOne(BLOCK_SEPARATOR, line);
    }
  }

  /** A projection is blank exactly when no line survived, so it is never a nonempty blank string. */
  lemma PlaintextBlank(tables: CharTables, blocks: seq<Block>)
    ensures Strip(Plaintext(tables, blocks)) == "" <==> Lines(tables, blocks) == []
  {
    hide IsSpace;
    var lines := Lines(tables, blocks);
    if lines != [] {
      assert lines == [] + [lines[0]] + lines[1..];
      JoinContains(BLOCK_SEPARATOR, [], [lines[0]], lines[1..]);
      StripContains(Plaintext(tables, blocks), lines[0]);
    }
  }

  // ---- Cleaning is done once ----

  /** What decoding or blanking puts in place of a match; no escape contains one of these. */
  predicate Replacement(c: char) {
    c in {'<', '>', '"', '&', '\'', ' '}
  }

  predicate EscapeLetter(c: char) {
    c in {'0', '2', '3', '6', '7', 'c', 'e', 'u'}
  }

  lemma FoldedLetter(c: char)
    requires EscapeLetter(Fold(c))
    ensures !Replacement(c) && c != '|'
  {
  }

  lemma HexLetters(hex: string)
    requires Decoded(hex).Some?
    ensures |hex| == 4 && forall k | 0 <= k < 4 :: EscapeLetter(hex[k])
  {
  }

  lemma BareEscapeLetters(s: string)
    requires BareEscape(s).Some?
    ensures forall i | 0 <= i < 5 :: !Replacement(s[i]) && s[i] != '|'
  {
    hide IsSpace, Replacement, Decoded;
    var hex := FoldAll(s[1..5]);
    HexLetters(hex);
    FoldedLetter(s[0]);
    forall i | 1 <= i < 5 ensures !Replacement(s[i]) && s[i] != '|' {
      assert hex[i - 1] == Fold(s[i]);
      FoldedLetter(s[i]);
    }
  }

  lemma EscapeLetters(s: string)
    requires EscapeAt(s).Some?
    ensures forall i | 0 <= i < EscapeAt(s).value.0 :: !Replacement(s[i]) && s[i] != '|'
  {
    hide IsSpace, BareEscape;
    if EscapeAt(s).value.0 == 6 {
      BareEscapeLetters(s[1..]);
      assert forall i | 1 <= i < 6 :: s[i] == s[1..][i - 1];
    } else {
      BareEscapeLetters(s);
    }
  }

  /** An escape is recognised from its own characters alone. */
  lemma EscapeByPrefix(s: string, t: string)
    requires EscapeAt(s).Some? && EscapeAt(s).value.0 <= |t|
    requires s[..EscapeAt(s).value.0] == t[..EscapeAt(s).value.0]
    ensures EscapeAt(t).Some?
  {
    hide IsSpace;
    var n := EscapeAt(s).value.0;
    assert forall i | 0 <= i < n :: s[i] == s[..n][i] && t[i] == t[..n][i];
    if n == 6 {
      assert s[1..][1..5] == t[1..][1..5];
    } else {
      assert s[1..5] == t[1..5];
    }
  }

  lemma {:induction false} SubstringEscapeFree(s: string, t: string)
    requires Contains(s, t) && !HasEscape(s)
    ensures !HasEscape(t)
  {
    hide IsSpace;
    var u, v := ContainsSplit(s, t);
    DropEscapeFree(s, |u|);
    assert s[|u|..] == t + v;
    PrefixEscapeFree(t, v);
  }

  lemma {:induction false} DropEscapeFree(s: string, k: nat)
    requires k <= |s| && !HasEscape(s)
    ensures !HasEscape(s[k..])
  {
    hide IsSpace;
    if k == 0 {
      assert s[0..] == s;
    } else {
      DropEscapeFree(s[1..], k - 1);
      assert s[1..][k - 1..] == s[k..];
    }
  }

  lemma {:induction false} PrefixEscapeFree(t: string, v: string)
    requires !HasEscape(t + v)
    ensures !HasEscape(t)
  {
    hide IsSpace;
    if t != "" {
      assert (t + v)[1..] == t[1..] + v;
      PrefixEscapeFree(t[1..], v);
      if EscapeAt(t).Some? {
        EscapeByPrefix(t, t + v);
      }
    }
  }

  lemma EscapeSpells(s: string)
    requires EscapeAt(s).Some?
    ensures Replacement(EscapeAt(s).value.1)
  {
    hide IsSpace, FoldAll, Fold;
  }

  lemma DecodeHead(s: string)
    requires Decode(s) != ""
    ensures s != "" && if EscapeAt(s).Some? then Replacement(Decode(s)[0]) else Decode(s) == [s[0]] + Decode(s[1..])
  {
    hide IsSpace, EscapeAt, Replacement;
    if EscapeAt(s).Some? {
      EscapeSpells(s);
    }
  }

  /** Up to its first replaced match, a decoded string is the original. */
  lemma {:induction false} DecodePrefix(s: string, n: nat)
    requires n <= |Decode(s)| && forall i | 0 <= i < n :: !Replacement(Decode(s)[i])
    ensures n <= |s| && s[..n] == Decode(s)[..n]
    decreases |s|
  {
    hide IsSpace, EscapeAt, Decode, Replacement;
    if n > 0 {
      DecodeHead(s);
      assert !Replacement(Decode(s)[0]);
      var rest := Decode(s[1..]);
      FirstThenRest(s[0], rest, n);
      DecodePrefix(s[1..], n - 1);
      assert s == [s[0]] + s[1..];
      FirstThenRest(s[0], s[1..], n);
    }
  }

  lemma {:induction false} DecodeEscapeFree(s: string)
    ensures !HasEscape(Decode(s))
    decreases |s|
  {
    hide IsSpace;
    if s != "" {
      var d := Decode(s);
      if EscapeAt(s).Some? {
        var rest := s[EscapeAt(s).value.0..];
        DecodeEscapeFree(rest);
        assert d[1..] == Decode(rest);
        assert Replacement(d[0]);
      } else {
        DecodeEscapeFree(s[1..]);
        assert d[1..] == Decode(s[1..]);
      }
      if EscapeAt(d).Some? {
        EscapeLetters(d);
        DecodePrefix(s, EscapeAt(d).value.0);
        EscapeByPrefix(d, s);
      }
    }
  }

  lemma DropTagsHead(tables: CharTables, s: string)
    requires DropTags(tables, s) != ""
    ensures s != "" && if TagLength(tables, s) > 0 then Replacement(DropTags(tables, s)[0])
                       else DropTags(tables, s) == [s[0]] + DropTags(tables, s[1..])
  {
    hide IsSpace, TagLength;
  }

  lemma {:induction false} DropTagsPrefix(tables: CharTables, s: string, n: nat)
    requires n <= |DropTags(tables, s)| && forall i | 0 <= i < n :: !Replacement(DropTags(tables, s)[i])
    ensures n <= |s| && s[..n] == DropTags(tables, s)[..n]
    decreases |s|
  {
    hide IsSpace, TagLength, DropTags, Replacement;
    if n > 0 {
      DropTagsHead(tables, s);
      assert !Replacement(DropTags(tables, s)[0]);
      var rest := DropTags(tables, s[1..]);
      FirstThenRest(s[0], rest, n);
      DropTagsPrefix(tables, s[1..], n - 1);
      assert s == [s[0]] + s[1..];
      FirstThenRest(s[0], s[1..], n);
    }
  }

  lemma {:induction false} DropTagsEscapeFree(tables: CharTables, s: string)
    requires !HasEscape(s)
    ensures !HasEscape(DropTags(tables, s))
    decreases |s|
  {
    hide IsSpace, TagLength;
    if s != "" {
      var d := DropTags(tables, s);
      var next := if TagLength(tables, s) > 0 then TagLength(tables, s) else 1;
      DropEscapeFree(s, next);
      DropTagsEscapeFree(tables, s[next..]);
      assert d[1..] == DropTags(tables, s[next..]);
      if EscapeAt(d).Some? {
        EscapeLetters(d);
        DropTagsPrefix(tables, s, EscapeAt(d).value.0);
        EscapeByPrefix(d, s);
      }
    }
  }

  lemma FirstThenRest(c: char, rest: string, n: nat)
    requires 0 < n <= |rest| + 1
    ensures ([c] + rest)[..n] == [c] + rest[..n - 1]
    ensures forall i | 0 <= i < |rest| :: rest[i] == ([c] + rest)[i + 1]
  {
  }

  lemma CollapseHead(s: string)
    requires Collapse(s) != ""
    ensures s != "" && if IsSpace(s[0]) then Collapse(s)[0] == ' ' else Collapse(s) == [s[0]] + Collapse(s[1..])
  {
    hide IsSpace;
  }

  lemma {:induction false} CollapsePrefix(s: string, n: nat)
    requires n <= |Collapse(s)| && forall i | 0 <= i < n :: !Replacement(Collapse(s)[i])
    ensures n <= |s| && s[..n] == Collapse(s)[..n]
    decreases |s|
  {
    hide IsSpace, Collapse;
    if n > 0 {
      CollapseHead(s);
      assert !Replacement(Collapse(s)[0]);
      var rest := Collapse(s[1..]);
      FirstThenRest(s[0], rest, n);
      CollapsePrefix(s[1..], n - 1);
      assert s == [s[0]] + s[1..];
      FirstThenRest(s[0], s[1..], n);
    }
  }

  lemma {:induction false} CollapseEscapeFree(s: string)
    requires !HasEscape(s)
    ensures !HasEscape(Collapse(s))
    decreases |s|
  {
    hide IsSpace;
    if s != "" {
      var d := Collapse(s);
      if IsSpace(s[0]) {
        var a := LStripSplit(s);
        assert s[|a|..] == LStrip(s);
        DropEscapeFree(s, |a|);
        CollapseEscapeFree(LStrip(s));
        assert d[1..] == Collapse(LStrip(s));
      } else {
        CollapseEscapeFree(s[1..]);
        assert d[1..] == Collapse(s[1..]);
      }
      if EscapeAt(d).Some? {
        EscapeLetters(d);
        CollapsePrefix(s, EscapeAt(d).value.0);
        EscapeByPrefix(d, s);
      }
    }
  }

  lemma StripEscapeFree(s: string)
    requires !HasEscape(s)
    ensures !HasEscape(Strip(s))
  {
    hide IsSpace;
    var a, b := StripSplit(s);
    ContainsIntro(a, Strip(s), b);
    SubstringEscapeFree(s, Strip(s));
  }

  /** Cleaning leaves no escape behind, so cleaning a cleaned text changes nothing. */
  lemma CleanProseIdempotent(tables: CharTables, text: string)
    ensures !HasEscape(CleanProse(tables, text))
    ensures CleanProse(tables, CleanProse(tables, text)) == CleanProse(tables, text)
  {
    hide IsSpace;
    if HasEscape(text) {
      DecodeEscapeFree(text);
      DropTagsEscapeFree(tables, Decode(text));
      CollapseEscapeFree(DropTags(tables, Decode(text)));
      StripEscapeFree(Collapse(DropTags(tables, Decode(text))));
      StripIdempotent(Collapse(DropTags(tables, Decode(text))));
    } else {
      StripEscapeFree(text);
      StripIdempotent(text);
    }
  }

  // ---- Decoding undoes escaping ----

  /** How an author escapes one character of markup. */
  function SpellChar(c: char): string {
    if c == '<' then "\\u003c"
    else if c == '>' then "\\u003e"
    else if c == '"' then "\\u0022"
    else if c == '&' then "\\u0026"
    else if c == '\'' then "\\u0027"
    else [c]
  }

  function Spell(s: string): string {
    if s == "" then "" else SpellChar(s[0]) + Spell(s[1..])
  }

  lemma SpelledCharDecodes(c: char, rest: string)
    requires |SpellChar(c)| > 1
    ensures EscapeAt(SpellChar(c) + rest) == Some((6, c))
  {
    var w, hex := SpellChar(c) + rest, SpellChar(c)[2..6];
    assert |SpellChar(c)| == 6 && w[0] == '\\' && w[1] == 'u';
    forall k | 0 <= k < 4 ensures FoldAll(hex)[k] == hex[k] == w[1..][1..5][k] {
      assert hex[k] == SpellChar(c)[k + 2];
    }
    assert FoldAll(w[1..][1..5]) == hex;
    assert hex == (if c == '<' then "003c" else if c == '>' then "003e" else if c == '"' then "0022"
                   else if c == '&' then "0026" else "0027");
  }

  lemma SpelledAsIs(s: string)
    requires s != "" && SpellChar(s[0])[0] != '\\'
    ensures SpellChar(s[0]) == [s[0]] && Spell(s) == [s[0]] + Spell(s[1..])
  {
  }

  lemma SpelledHead(s: string)
    requires Spell(s) != ""
    ensures s != "" && Spell(s)[0] == SpellChar(s[0])[0]
  {
  }

  /** Where no backslash shows, spelling has changed nothing. */
  lemma {:induction false} SpelledPrefix(s: string, n: nat)
    requires n <= |Spell(s)| && forall i | 0 <= i < n :: Spell(s)[i] != '\\'
    ensures n <= |s| && s[..n] == Spell(s)[..n]
    decreases n
  {
    hide Spell, SpellChar;
    if n > 0 {
      SpelledHead(s);
      SpelledAsIs(s);
      var rest := Spell(s[1..]);
      FirstThenRest(s[0], rest, n);
      SpelledPrefix(s[1..], n - 1);
      assert s == [s[0]] + s[1..];
      FirstThenRest(s[0], s[1..], n);
    }
  }

  lemma NoBackslash(s: string)
    requires BareEscape(s).Some?
    ensures forall i | 0 <= i < 5 :: s[i] != '\\'
  {
    hide Decoded;
    var hex := FoldAll(s[1..5]);
    HexLetters(hex);
    forall i | 1 <= i < 5 ensures s[i] != '\\' {
      assert hex[i - 1] == Fold(s[i]);
    }
  }

  lemma SameBareEscape(s: string, t: string)
    requires |s| >= 5 && |t| >= 5 && s[..5] == t[..5]
    ensures BareEscape(s) == BareEscape(t)
  {
    assert s[..5][1..5] == s[1..5] && t[..5][1..5] == t[1..5];
    assert s[..5][0] == s[0] && t[..5][0] == t[0];
  }

  lemma BareEscapeOfSpelled(s: string)
    ensures BareEscape(Spell(s)).Some? ==> BareEscape(s).Some?
  {
    hide Spell, Decoded;
    if BareEscape(Spell(s)).Some? {
      NoBackslash(Spell(s));
      SpelledPrefix(s, 5);
      SameBareEscape(s, Spell(s));
    }
  }

  /** Spelling a text out makes no new escape of the characters it leaves alone. */
  lemma NoNewEscape(s: string)
    requires s != "" && SpellChar(s[0]) == [s[0]] && EscapeAt(s).None?
    ensures EscapeAt([s[0]] + Spell(s[1..])).None?
  {
    hide BareEscape;
    var w := [s[0]] + Spell(s[1..]);
    assert w == Spell(s) && w[1..] == Spell(s[1..]);
    BareEscapeOfSpelled(s);
    BareEscapeOfSpelled(s[1..]);
  }

  /** What an author escaped is what a reader gets: decoding undoes escaping, for any text free of escapes. */
  lemma {:induction false} DecodeSpelled(s: string)
    requires !HasEscape(s)
    ensures Decode(Spell(s)) == s
    decreases |s|
  {
    hide EscapeAt;
    if s != "" {
      DecodeSpelled(s[1..]);
      var c, rest := s[0], Spell(s[1..]);
      assert s == [c] + s[1..];
      if |SpellChar(c)| > 1 {
        SpelledCharDecodes(c, rest);
        assert |SpellChar(c)| == 6 && (SpellChar(c) + rest)[6..] == rest;
      } else {
        assert SpellChar(c) == [c];
        NoNewEscape(s);
        assert ([c] + rest)[1..] == rest;
      }
    }
  }

  // ---- In either case ----

  /** `c` is `l`, its capital, or one of the letters outside ASCII that Python's `re.I` takes for it. */
  predicate CaseOf(c: char, l: char) {
    || c == l
    || ('a' <= l <= 'z' && c as int + 32 == l as int)
    || (l == 'i' && (c == '\U{0130}' || c == '\U{0131}'))
    || (l == 's' && c == '\U{017F}')
  }

  predicate SpelledAs(name: string, word: string) {
    |name| == |word| && forall i | 0 <= i < |name| :: CaseOf(name[i], word[i])
  }

  predicate LowerWord(word: string) {
    forall i | 0 <= i < |word| :: 'a' <= word[i] <= 'z' || '0' <= word[i] <= '9'
  }

  lemma FoldedIff(name: string, word: string)
    requires LowerWord(word)
    ensures FoldAll(name) == word <==> SpelledAs(name, word)
  {
    if SpelledAs(name, word) {
      forall i | 0 <= i < |name| ensures FoldAll(name)[i] == word[i] {
        assert CaseOf(name[i], word[i]);
      }
    }
    if FoldAll(name) == word {
      forall i | 0 <= i < |name| ensures CaseOf(name[i], word[i]) {
        assert FoldAll(name)[i] == Fold(name[i]);
      }
    }
  }

  lemma TagsAreLower()
    ensures forall tag | tag in TAG_NAMES :: LowerWord(tag)
  {
  }

  /** A tag name is one of the listed names, in either case. */
  lemma TagNameIff(name: string)
    ensures IsTagName(name) <==> exists tag :: tag in TAG_NAMES && SpelledAs(name, tag)
  {
    hide LowerWord, SpelledAs, FoldAll;
    TagsAreLower();
    forall tag | tag in TAG_NAMES ensures FoldAll(name) == tag <==> SpelledAs(name, tag) {
      FoldedIff(name, tag);
    }
  }

  predicate Markup(c: char) {
    c in {'<', '>', '"', '&', '\''}
  }

  /** The digits that spell a markup character. */
  function HexOf(c: char): string
    requires Markup(c)
  {
    if c == '<' then "003c" else if c == '>' then "003e" else if c == '"' then "0022" else if c == '&' then "0026"
    else "0027"
  }

  lemma HexOfIs(c: char)
    requires Markup(c)
    ensures |HexOf(c)| == 4 && LowerWord(HexOf(c))
    ensures forall hex :: Decoded(hex) == Some(c) <==> hex == HexOf(c)
  {
  }

  lemma OnlyMarkup(hex: string)
    ensures Decoded(hex).Some? ==> Markup(Decoded(hex).value)
  {
  }

  /** What counts as an escape: the spelling of a markup character in either case, with or without its backslash. */
  lemma EscapeIff(s: string, c: char)
    ensures BareEscape(s) == Some(c)
       <==> Markup(c) && |s| >= 5 && SpelledAs(s[..5], "u" + HexOf(c))
    ensures EscapeAt(s).Some? <==> BareEscape(s).Some? || (s != "" && s[0] == '\\' && BareEscape(s[1..]).Some?)
  {
    if |s| >= 5 && Markup(c) {
      hide Decoded, HexOf;
      HexOfIs(c);
      var hex := s[1..5];
      FoldedIff(hex, HexOf(c));
      FoldedIff([s[0]], "u");
      assert FoldAll([s[0]]) == [Fold(s[0])];
      assert s[..5] == [s[0]] + hex;
      SpelledParts([s[0]], hex, "u", HexOf(c));
    } else if |s| >= 5 {
      OnlyMarkup(FoldAll(s[1..5]));
    }
  }

  lemma SpelledParts(a: string, b: string, x: string, y: string)
    requires |a| == |x|
    ensures SpelledAs(a + b, x + y) <==> SpelledAs(a, x) && SpelledAs(b, y)
  {
    hide CaseOf;
    var s, t := a + b, x + y;
    assert forall i | 0 <= i < |a| :: s[i] == a[i] && t[i] == x[i];
    assert forall i | |a| <= i < |s| && i < |t| :: s[i] == b[i - |a|] && t[i] == y[i - |a|];
    if SpelledAs(s, t) {
      assert forall i | 0 <= i < |b| :: s[|a| + i] == b[i] && t[|a| + i] == y[i];
    }
  }

  // ---- Which tags go ----

  lemma AfterPrefix(a: string, b: string)
    ensures (a + b)[|a|..] == b && (a + b)[..|a|] == a && |a + b| == |a| + |b|
  {
  }

  /** `<` or `</` at the head of a tag. */
  predicate TagOpens(head: string) {
    head == "<" || head == "</"
  }

  lemma TagHead(head: string, after: string)
    requires TagOpens(head) && after != "" && after[0] != '/'
    ensures var s := head + after;
            s[0] == '<' && OpenLength(s) == |head|
  {
  }

  lemma DropTwice(s: string, a: nat, b: nat)
    requires a + b <= |s|
    ensures s[a..][b..] == s[a + b..] && s[a..][..b] == s[a..a + b]
  {
  }

  lemma TagLengthIs(tables: CharTables, s: string, open: nat, run: nat, close: nat)
    requires s != "" && s[0] == '<' && open == OpenLength(s)
    requires open + run + close < |s| && WordRun(tables, s[open..]) == run
    requires IsTagName(s[open..open + run]) && FindChar(s[open + run..], '>') == close
    ensures TagLength(tables, s) == open + run + close + 1
  {
    hide IsTagName, WordRun, FindChar, OpenLength;
  }

  lemma DropTagStep(tables: CharTables, s: string, n: nat, rest: string)
    requires s != "" && 0 < n <= |s| && TagLength(tables, s) == n && s[n..] == rest
    ensures DropTags(tables, s) == " " + DropTags(tables, rest)
  {
    hide TagLength;
  }

  /** Where the parts of a tag lie. */
  lemma TagShape(head: string, name: string, attributes: string, close: string)
    requires close != ""
    ensures var tail := attributes + close;
            var s := head + (name + tail);
            && |s| == |head| + |name| + |attributes| + |close|
            && s[|head|..] == name + tail && s[|head|..|head| + |name|] == name && s[|head| + |name|..] == tail
            && s[|head| + |name| + |attributes| + 1..] == close[1..]
  {
    var tail := attributes + close;
    var s := head + (name + tail);
    AfterPrefix(head, name + tail);
    AfterPrefix(name, tail);
    AfterPrefix(attributes, close);
    DropTwice(s, |head|, |name|);
    DropTwice(s, |head| + |name|, |attributes|);
    DropTwice(s, |head| + |name| + |attributes|, 1);
  }

  /** A structural tag, its attributes, and `close`, which begins with the tag's `>`. */
  predicate IsTag(tables: CharTables, head: string, name: string, attributes: string, close: string) {
    && TagOpens(head) && IsTagName(name) && (forall i | 0 <= i < |name| :: tables.isAlnum(name[i]))
    && '>' !in attributes && (attributes != "" ==> !tables.isAlnum(attributes[0]) && attributes[0] != '_')
    && close != "" && close[0] == '>' && !tables.isAlnum('>')
  }

  lemma TagNameRead(tables: CharTables, head: string, name: string, attributes: string, close: string)
    requires IsTag(tables, head, name, attributes, close)
    ensures var body := name + (attributes + close);
            && OpenLength(head + body) == |head| && (head + body)[0] == '<'
            && WordRun(tables, body) == |name| && FindChar(attributes + close, '>') == |attributes|
  {
    hide WordRun, FindChar, IsTagName, OpenLength, TagOpens;
    NameNotEmpty(name);
    TagHead(head, name + (attributes + close));
    WholeName(tables, name, attributes + close);
    FirstClose(attributes, close);
  }

  lemma TagLengthOf(tables: CharTables, head: string, name: string, attributes: string, close: string)
    requires IsTag(tables, head, name, attributes, close)
    ensures TagLength(tables, head + (name + (attributes + close))) == |head| + |name| + |attributes| + 1
  {
    hide WordRun, FindChar, IsTagName, TagLength, OpenLength, TagOpens;
    TagNameRead(tables, head, name, attributes, close);
    TagShape(head, name, attributes, close);
    TagLengthIs(tables, head + (name + (attributes + close)), |head|, |name|, |attributes|);
  }

  /** A structural tag with any attributes becomes one space; the text after it is cleaned on its own. */
  lemma TagIsDropped(tables: CharTables, head: string, name: string, attributes: string, close: string)
    requires IsTag(tables, head, name, attributes, close)
    ensures DropTags(tables, head + (name + (attributes + close))) == " " + DropTags(tables, close[1..])
  {
    hide TagLength, DropTags;
    TagLengthOf(tables, head, name, attributes, close);
    TagShape(head, name, attributes, close);
    DropTagStep(tables, head + (name + (attributes + close)), |head| + |name| + |attributes| + 1, close[1..]);
  }

  lemma NameNotEmpty(name: string)
    requires IsTagName(name)
    ensures name != "" && name[0] != '/'
  {
    assert |FoldAll(name)| == |name|;
    if name != "" {
      assert FoldAll(name)[0] == Fold(name[0]);
    }
  }

  lemma {:induction false} WholeName(tables: CharTables, name: string, after: string)
    requires forall i | 0 <= i < |name| :: tables.isAlnum(name[i])
    requires after != "" && !tables.isAlnum(after[0]) && after[0] != '_'
    ensures WordRun(tables, name + after) == |name|
    decreases |name|
  {
    if name == "" {
      assert name + after == after;
    } else {
      assert (name + after)[1..] == name[1..] + after;
      WholeName(tables, name[1..], after);
    }
  }

  lemma {:induction false} FirstClose(attributes: string, after: string)
    requires '>' !in attributes && after != "" && after[0] == '>'
    ensures FindChar(attributes + after, '>') == |attributes|
    decreases |attributes|
  {
    if attributes == "" {
      assert attributes + after == after;
    } else {
      assert (attributes + after)[1..] == attributes[1..] + after;
      FirstClose(attributes[1..], after);
    }
  }

  predicate BeginsWithTag(tables: CharTables, s: string, head: string, name: string, attributes: string,
                          close: string)
  {
    IsTag(tables, head, name, attributes, close) && s == head + (name + (attributes + close))
  }

  lemma {:induction false} WordRunIs(tables: CharTables, s: string)
    ensures var n := WordRun(tables, s);
            && (forall i | 0 <= i < n :: tables.isAlnum(s[i]) || s[i] == '_')
            && (n < |s| ==> !tables.isAlnum(s[n]) && s[n] != '_')
  {
    if s != "" && (tables.isAlnum(s[0]) || s[0] == '_') {
      WordRunIs(tables, s[1..]);
      assert forall i | 1 <= i < |s| :: s[i] == s[1..][i - 1];
    }
  }

  lemma {:induction false} FindCharIs(s: string, c: char)
    ensures var n := FindChar(s, c); c !in s[..n] && (n < |s| ==> s[n] == c)
  {
    if s != "" && s[0] != c {
      FindCharIs(s[1..], c);
      var n := FindChar(s[1..], c);
      assert s[..n + 1] == [s[0]] + s[1..][..n];
    }
  }

  lemma NoUnderscore(name: string, i: nat)
    requires IsTagName(name) && i < |name|
    ensures name[i] != '_'
  {
    hide TAG_NAMES;
    TagsAreLower();
    assert FoldAll(name)[i] == Fold(name[i]);
    assert LowerWord(FoldAll(name));
  }

  /** What a tag's length is measured over: its parts, as they are found. */
  lemma TagParts(tables: CharTables, s: string) returns (head: string, name: string, attributes: string, close: string)
    requires TagLength(tables, s) > 0 && !tables.isAlnum('>')
    ensures BeginsWithTag(tables, s, head, name, attributes, close)
  {
    hide IsTagName, WordRun, FindChar;
    var open := OpenLength(s);
    var run := WordRun(tables, s[open..]);
    var end := open + run;
    var n := FindChar(s[end..], '>');
    head, name, attributes, close := s[..open], s[open..end], s[end..end + n], s[end + n..];
    assert s == head + (name + (attributes + close));
    WordRunIs(tables, s[open..]);
    FindCharIs(s[end..], '>');
    assert s[end..][..n] == attributes && s[end..][n] == close[0];
    forall i | 0 <= i < |name| ensures tables.isAlnum(name[i]) {
      NoUnderscore(name, i);
      assert name[i] == s[open..][i];
    }
    assert attributes != "" ==> attributes[0] == s[open..][run];
  }

  /** A tag begins a text exactly when the text divides into an opening, a listed name, attributes and a close. */
  lemma TagIff(tables: CharTables, s: string)
    requires !tables.isAlnum('>')
    ensures TagLength(tables, s) > 0
       <==> exists head, name, attributes, close :: BeginsWithTag(tables, s, head, name, attributes, close)
  {
    hide TagLength, IsTag;
    if TagLength(tables, s) > 0 {
      var head, name, attributes, close := TagParts(tables, s);
    } else if head, name, attributes, close :| BeginsWithTag(tables, s, head, name, attributes, close) {
      TagLengthOf(tables, head, name, attributes, close);
    }
  }

  /** `INLINE_HTML.search(text)`. */
  predicate HasTag(tables: CharTables, s: string) {
    s != "" && (TagLength(tables, s) > 0 || HasTag(tables, s[1..]))
  }

  lemma TagsAreLong(tables: CharTables, s: string)
    requires TagLength(tables, s) > 0
    ensures TagLength(tables, s) >= 3
  {
    hide IsTagName, WordRun, FindChar;
    var open := OpenLength(s);
    NameNotEmpty(s[open..open + WordRun(tables, s[open..])]);
  }

  lemma {:induction false} DroppingShortens(tables: CharTables, s: string)
    ensures |DropTags(tables, s)| <= |s|
    ensures HasTag(tables, s) ==> |DropTags(tables, s)| < |s|
    decreases |s|
  {
    hide TagLength;
    if s != "" {
      if TagLength(tables, s) > 0 {
        TagsAreLong(tables, s);
        DroppingShortens(tables, s[TagLength(tables, s)..]);
      } else {
        DroppingShortens(tables, s[1..]);
      }
    }
  }

  lemma {:induction false} TaglessIsKept(tables: CharTables, s: string)
    requires !HasTag(tables, s)
    ensures DropTags(tables, s) == s
    decreases |s|
  {
    hide TagLength;
    if s != "" {
      TaglessIsKept(tables, s[1..]);
      assert s == [s[0]] + s[1..];
    }
  }

  /** Nothing else goes: a text is left as it is exactly when no structural tag begins anywhere in it. */
  lemma NothingElseDropped(tables: CharTables, s: string)
    ensures DropTags(tables, s) == s <==> !HasTag(tables, s)
  {
    hide HasTag, DropTags;
    DroppingShortens(tables, s);
    if !HasTag(tables, s) {
      TaglessIsKept(tables, s);
    }
  }

  lemma {:induction false} NoTagWithoutOpening(tables: CharTables, s: string)
    requires '<' !in s
    ensures !HasTag(tables, s)
  {
    if s != "" {
      NoTagWithoutOpening(tables, s[1..]);
    }
  }
}
