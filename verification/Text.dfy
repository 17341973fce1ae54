/**
 String operations the projection and the quote check are built from: trimming,
 whitespace collapsing, lower-casing and substring search.
 */
module Text {

  /** `str.isspace` of one character; the `\s` class and `strip` agree with it. */
  predicate IsSpace(c: char) {
    var n := c as int;
    9 <= n <= 13 || 28 <= n <= 32 || n == 0x85 || n == 0xA0 || n == 0x1680 || 0x2000 <= n <= 0x200A
    || n == 0x2028 || n == 0x2029 || n == 0x202F || n == 0x205F || n == 0x3000
  }

  /** The parts of the Unicode database the code consults. Lower-casing may lengthen a string. */
  datatype CharTables = CharTables(lower: char -> string, isAlnum: char -> bool)

  predicate AllSpace(s: string) {
    forall i | 0 <= i < |s| :: IsSpace(s[i])
  }

  lemma SpaceFacts()
    ensures IsSpace(' ') && IsSpace('\n') && !IsSpace('|') && !IsSpace('a')
  {
  }

  function LStrip(s: string): (r: string)
    ensures |r| <= |s|
    ensures r != "" ==> !IsSpace(r[0])
  {
    if s != "" && IsSpace(s[0]) then LStrip(s[1..]) else s
  }

  function RStrip(s: string): (r: string)
    ensures |r| <= |s|
    ensures r != "" ==> !IsSpace(r[|r| - 1])
  {
    if s != "" && IsSpace(s[|s| - 1]) then RStrip(s[..|s| - 1]) else s
  }

  function Strip(s: string): string {
    RStrip(LStrip(s))
  }

  /** `re.sub(r"\s+", " ", s)`. */
  function Collapse(s: string): string
    decreases |s|
  {
    if s == "" then ""
    else if IsSpace(s[0]) then " " + Collapse(LStrip(s))
    else [s[0]] + Collapse(s[1..])
  }

  function Lower(lower: char -> string, s: string): string {
    if s == "" then "" else lower(s[0]) + Lower(lower, s[1..])
  }

  /** `t in s`. */
  predicate Contains(s: string, t: string) {
    exists i | 0 <= i <= |s| - |t| :: OccursAt(s, t, i)
  }

  predicate OccursAt(s: string, t: string, i: nat) {
    i + |t| <= |s| && s[i..i + |t|] == t
  }

  function Join(sep: string, lines: seq<string>): string {
    if lines == [] then ""
    else if |lines| == 1 then lines[0]
    else lines[0] + sep + Join(sep, lines[1..])
  }

  // ---- Substrings ----

  lemma ContainsIntro(u: string, t: string, v: string)
    ensures Contains(u + t + v, t)
  {
    hide IsSpace;
    assert OccursAt(u + t + v, t, |u|);
  }

  lemma ContainsSplit(s: string, t: string) returns (u: string, v: string)
    requires Contains(s, t)
    ensures s == u + t + v
  {
    hide IsSpace;
    var i :| 0 <= i <= |s| - |t| && OccursAt(s, t, i);
    u, v := s[..i], s[i + |t|..];
  }

  lemma ContainsTransitive(s: string, t: string, r: string)
    requires Contains(s, t) && Contains(t, r)
    ensures Contains(s, r)
  {
    hide IsSpace;
    var u, v := ContainsSplit(s, t);
    var x, y := ContainsSplit(t, r);
    assert s == (u + x) + r + (y + v);
    ContainsIntro(u + x, r, y + v);
  }

  // ---- Trimming ----

  lemma {:induction false} LStripAppend(u: string, w: string)
    requires w != "" && !IsSpace(w[0])
    ensures LStrip(u + w) == LStrip(u) + w
  {
    hide IsSpace;
    if u == "" {
      assert u + w == w;
    } else if IsSpace(u[0]) {
      assert (u + w)[1..] == u[1..] + w;
      LStripAppend(u[1..], w);
    }
  }

  lemma {:induction false} RStripAppend(w: string, v: string)
    requires w != "" && !IsSpace(w[|w| - 1])
    ensures RStrip(w + v) == w + RStrip(v)
  {
    hide IsSpace;
    if v == "" {
      assert w + v == w;
    } else if IsSpace(v[|v| - 1]) {
      assert (w + v)[..|w + v| - 1] == w + v[..|v| - 1];
      RStripAppend(w, v[..|v| - 1]);
    }
  }

  lemma {:induction false} LStripSplit(s: string) returns (a: string)
    ensures s == a + LStrip(s) && AllSpace(a)
  {
    hide IsSpace;
    if s != "" && IsSpace(s[0]) {
      var a' := LStripSplit(s[1..]);
      a := [s[0]] + a';
      assert s == [s[0]] + s[1..];
    } else {
      a := "";
    }
  }

  lemma {:induction false} RStripSplit(s: string) returns (b: string)
    ensures s == RStrip(s) + b && AllSpace(b)
  {
    hide IsSpace;
    if s != "" && IsSpace(s[|s| - 1]) {
      var b' := RStripSplit(s[..|s| - 1]);
      b := b' + [s[|s| - 1]];
      assert s == s[..|s| - 1] + [s[|s| - 1]];
    } else {
      b := "";
    }
  }

  lemma {:induction false} LStripBlank(s: string)
    ensures LStrip(s) == "" <==> AllSpace(s)
  {
    hide IsSpace;
    if s == "" {
    } else if IsSpace(s[0]) {
      LStripBlank(s[1..]);
      assert forall i | 1 <= i < |s| :: s[i] == s[1..][i - 1];
      assert forall i | 0 <= i < |s| - 1 :: s[1..][i] == s[i + 1];
    }
  }

  lemma StripAround(u: string, t: string, v: string)
    requires t != "" && !IsSpace(t[0]) && !IsSpace(t[|t| - 1])
    ensures Strip(u + t + v) == LStrip(u) + t + RStrip(v)
  {
    hide IsSpace;
    var w := t + v;
    assert u + t + v == u + w;
    LStripAppend(u, w);
    var x := LStrip(u) + t;
    assert LStrip(u) + w == x + v;
    RStripAppend(x, v);
  }

  /** Trimming cuts whitespace off both ends and leaves a string that needs no more trimming. */
  lemma StripSplit(s: string) returns (a: string, b: string)
    ensures s == a + Strip(s) + b && AllSpace(a) && AllSpace(b)
    ensures Strip(s) != "" ==> !IsSpace(Strip(s)[0]) && !IsSpace(Strip(s)[|Strip(s)| - 1])
  {
    hide IsSpace;
    a := LStripSplit(s);
    b := RStripSplit(LStrip(s));
    if Strip(s) != "" {
      assert LStrip(s)[0] == Strip(s)[0];
    }
  }

  lemma StripIdempotent(s: string)
    ensures Strip(Strip(s)) == Strip(s)
  {
    hide IsSpace;
    var _, _ := StripSplit(s);
  }

  lemma StripBlank(s: string)
    ensures Strip(s) == "" <==> AllSpace(s)
  {
    hide IsSpace;
    LStripBlank(s);
    var b := RStripSplit(LStrip(s));
  }

  lemma StripContains(s: string, t: string)
    requires Contains(s, t)
    ensures Contains(Strip(s), Strip(t))
  {
    hide IsSpace;
    var u, v := ContainsSplit(s, t);
    var a, b := StripSplit(t);
    var m := Strip(t);
    if m == "" {
      assert OccursAt(Strip(s), "", 0);
    } else {
      var x, y := u + a, b + v;
      assert s == x + m + y;
      StripAround(x, m, y);
      ContainsIntro(LStrip(x), m, RStrip(y));
    }
  }

  // ---- Whitespace collapsing ----

  lemma LStripShortens(s: string)
    requires s != "" && IsSpace(s[0])
    ensures |LStrip(s)| < |s|
  {
    hide IsSpace;
    assert LStrip(s) == LStrip(s[1..]);
  }

  lemma CollapseBlankHead(s: string)
    requires s != "" && IsSpace(s[0])
    ensures Collapse(s) == " " + Collapse(LStrip(s)) && |LStrip(s)| < |s|
  {
    hide IsSpace;
    LStripShortens(s);
  }

  lemma CollapseSolidHead(s: string, rest: string)
    requires s != "" && !IsSpace(s[0]) && s[1..] == rest
    ensures Collapse(s) == [s[0]] + Collapse(rest)
  {
    hide IsSpace;
  }

  lemma Regroup(a: string, b: string, c: string)
    ensures a + (b + c) == (a + b) + c
  {
  }

  lemma {:induction false} CollapseAppendLeft(u: string, w: string)
    requires w != "" && !IsSpace(w[0])
    ensures Collapse(u + w) == Collapse(u) + Collapse(w)
    decreases |u|
  {
    hide IsSpace, LStrip, Collapse;
    if u == "" {
      assert u + w == w;
      assert Collapse("") == "" by { CollapseNothing(); }
    } else if IsSpace(u[0]) {
      CollapseBlankHead(u);
      CollapseBlankHead(u + w);
      LStripAppend(u, w);
      CollapseAppendLeft(LStrip(u), w);
      Regroup(" ", Collapse(LStrip(u)), Collapse(w));
    } else {
      CollapseSolidHead(u, u[1..]);
      CollapseSolidHead(u + w, u[1..] + w);
      CollapseAppendLeft(u[1..], w);
      Regroup([u[0]], Collapse(u[1..]), Collapse(w));
    }
  }

  lemma CollapseNothing()
    ensures Collapse("") == ""
  {
  }

  lemma {:induction false} CollapseAppendRight(w: string, v: string)
    requires w != "" ==> !IsSpace(w[|w| - 1])
    ensures Collapse(w + v) == Collapse(w) + Collapse(v)
    decreases |w|
  {
    hide IsSpace, LStrip, Collapse;
    if w == "" {
      assert w + v == v;
      CollapseNothing();
    } else if IsSpace(w[0]) {
      var l := LStrip(w);
      CollapseBlankHead(w);
      CollapseBlankHead(w + v);
      LStripLast(w, v);
      CollapseAppendRight(l, v);
      Regroup(" ", Collapse(l), Collapse(v));
    } else {
      CollapseSolidHead(w, w[1..]);
      CollapseSolidHead(w + v, w[1..] + v);
      CollapseAppendRight(w[1..], v);
      Regroup([w[0]], Collapse(w[1..]), Collapse(v));
    }
  }

  /** A string ending in a solid character keeps its tail when trimmed on the left. */
  lemma {:induction false} LStripLast(w: string, v: string)
    requires w != "" && !IsSpace(w[|w| - 1])
    ensures LStrip(w + v) == LStrip(w) + v
    ensures LStrip(w) != "" && LStrip(w)[|LStrip(w)| - 1] == w[|w| - 1]
  {
    hide IsSpace;
    if IsSpace(w[0]) {
      assert (w + v)[1..] == w[1..] + v;
      LStripLast(w[1..], v);
    }
  }

  // ---- Lower-casing ----

  lemma {:induction false} LowerAppend(lower: char -> string, a: string, b: string)
    ensures Lower(lower, a + b) == Lower(lower, a) + Lower(lower, b)
  {
    hide IsSpace;
    if a == "" {
      assert a + b == b;
    } else {
      assert (a + b)[1..] == a[1..] + b;
      LowerAppend(lower, a[1..], b);
    }
  }

  // ---- Joining ----

  lemma {:induction false} JoinAppend(sep: string, a: seq<string>, b: seq<string>)
    requires a != [] && b != []
    ensures Join(sep, a + b) == Join(sep, a) + sep + Join(sep, b)
  {
    hide IsSpace;
    if |a| == 1 {
      assert (a + b)[1..] == b;
    } else {
      assert (a + b)[1..] == a[1..] + b;
      JoinAppend(sep, a[1..], b);
    }
  }

  lemma JoinOne(sep: string, line: string)
    ensures Join(sep, [line]) == line
  {
  }

  /** The join of a contiguous run of lines is a substring of the join of all of them. */
  lemma JoinContains(sep: string, a: seq<string>, b: seq<string>, c: seq<string>)
    ensures Contains(Join(sep, a + b + c), Join(sep, b))
  {
    hide IsSpace;
    var j := Join(sep, b);
    if b == [] {
      var all := Join(sep, a + b + c);
      ContainsIntro("", "", all);
      assert "" + "" + all == all;
    } else {
      var pre, post := if a == [] then "" else Join(sep, a) + sep, if c == [] then "" else sep + Join(sep, c);
      if c == [] { assert a + b + c == a + b; } else { JoinAppend(sep, a + b, c); }
      if a == [] { assert a + b == b; } else { JoinAppend(sep, a, b); }
      assert Join(sep, a + b + c) == pre + j + post;
      ContainsIntro(pre, j, post);
    }
  }
}
