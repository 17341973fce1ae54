/**
 Page-diverse selection of ranked passages (`src/geek_crawler_rag/query.py`): every page's best
 admissible passage, then every page's next, until enough are chosen.
 */
module PageSelection {
  import opened Sequences
  import opened Text
  import opened Wrappers

  /** The part of a stored passage the selection reads; a missing field reads as "". */
  datatype Passage = Passage(
    id: string, pageId: string, url: string, finalUrl: string, section: string,
    parentText: string, childText: string, text: string)

  datatype Request = Request(preferParent: bool, preferChild: bool)

  /** Foreign text functions: lower-casing of a character, and a digest of a string. */
  datatype Foreign = Foreign(lower: char -> string, digest: string -> string)

  function OrElse(a: string, b: string): string {
    if a != "" then a else b
  }

  /** `_return_text`. */
  function ReturnText(c: Passage, request: Request): string {
    if request.preferParent && !request.preferChild then OrElse(c.parentText, OrElse(c.text, c.childText))
    else if request.preferChild && !request.preferParent then OrElse(c.childText, OrElse(c.text, c.parentText))
    else OrElse(c.text, OrElse(c.childText, c.parentText))
  }

  /** `_should_collapse_parents`. */
  predicate Collapsing(request: Request) {
    request.preferParent && !request.preferChild
  }

  /** `_parent_lineage_key`. */
  function Lineage(c: Passage, f: Foreign): string {
    c.pageId + "|" + c.section + "|" + f.digest(Strip(c.parentText))
  }

  /** `_page_key`, and a candidate without one is its own page. */
  function PageKey(c: Passage, f: Foreign): string {
    var id := Strip(c.pageId);
    var url := Lower(f.lower, Strip(OrElse(c.finalUrl, c.url)));
    if id != "" then "id:" + id else if url != "" then "url:" + url else "cand:" + c.id
  }

  /** The page id a candidate carries, and the address it falls back on. */
  function PageId(c: Passage): string {
    Strip(c.pageId)
  }

  function Address(c: Passage, f: Foreign): string {
    Lower(f.lower, Strip(OrElse(c.finalUrl, c.url)))
  }

  /**
   Two candidates are of one page exactly when they carry the same page id, or neither carries one and their
   addresses agree, or neither has either and they are the same candidate.
   */
  lemma SamePage(a: Passage, b: Passage, f: Foreign)
    ensures PageKey(a, f) == PageKey(b, f) <==>
              if PageId(a) != "" || PageId(b) != "" then PageId(a) == PageId(b)
              else if Address(a, f) != "" || Address(b, f) != "" then Address(a, f) == Address(b, f)
              else a.id == b.id
  {
    hide Strip, Lower;
    Tagged("id:", PageId(a), "id:", PageId(b));
    Tagged("url:", Address(a, f), "url:", Address(b, f));
    Tagged("cand:", a.id, "cand:", b.id);
    Tagged("id:", PageId(a), "url:", Address(b, f));
    Tagged("url:", Address(a, f), "id:", PageId(b));
    Tagged("id:", PageId(a), "cand:", b.id);
    Tagged("cand:", a.id, "id:", PageId(b));
    Tagged("url:", Address(a, f), "cand:", b.id);
    Tagged("cand:", a.id, "url:", Address(b, f));
  }

  /** Letter for letter of one case. */
  predicate SameLetters(lower: char -> string, s: string, t: string) {
    |s| == |t| && forall i | 0 <= i < |s| :: lower(s[i]) == lower(t[i])
  }

  /** The address a candidate shows: where it was redirected to, or else where it was found. */
  function Shown(c: Passage): string {
    Strip(if c.finalUrl == "" then c.url else c.finalUrl)
  }

  lemma {:induction false} LowerIff(lower: char -> string, s: string, t: string)
    ensures SameLetters(lower, s, t) ==> Lower(lower, s) == Lower(lower, t)
    ensures (forall c :: |lower(c)| == 1) && Lower(lower, s) == Lower(lower, t) ==> SameLetters(lower, s, t)
  {
    if s != "" && t != "" {
      LowerIff(lower, s[1..], t[1..]);
      var l, r, m, n := lower(s[0]), Lower(lower, s[1..]), lower(t[0]), Lower(lower, t[1..]);
      if SameLetters(lower, s, t) {
        assert forall i | 0 <= i < |s| - 1 :: s[1..][i] == s[i + 1] && t[1..][i] == t[i + 1];
      } else if (forall c :: |lower(c)| == 1) && l + r == m + n {
        assert (l + r)[0] == l[0] && (m + n)[0] == m[0] && (l + r)[1..] == r && (m + n)[1..] == n;
        forall i | 0 <= i < |s| ensures lower(s[i]) == lower(t[i]) {
          if i > 0 { assert s[1..][i - 1] == s[i] && t[1..][i - 1] == t[i]; }
        }
      }
    }
  }

  /** Addresses agree up to case, and in nothing else where lower-casing is character for character. */
  lemma AddressIff(a: Passage, b: Passage, f: Foreign)
    ensures SameLetters(f.lower, Shown(a), Shown(b)) ==> Address(a, f) == Address(b, f)
    ensures (forall c :: |f.lower(c)| == 1) ==>
              (Address(a, f) == Address(b, f) <==> SameLetters(f.lower, Shown(a), Shown(b)))
    ensures (forall c :: f.lower(c) != "") ==> (Address(a, f) == "" <==> Shown(a) == "")
  {
    hide Strip, SameLetters;
    LowerIff(f.lower, Shown(a), Shown(b));
  }

  lemma Tagged(tagA: string, a: string, tagB: string, b: string)
    requires tagA != "" && tagB != ""
    ensures tagA[0] != tagB[0] ==> tagA + a != tagB + b
    ensures tagA == tagB ==> (tagA + a == tagB + b <==> a == b)
  {
    assert (tagA + a)[0] == tagA[0] && (tagB + b)[0] == tagB[0];
    assert (tagA + a)[|tagA|..] == a && (tagB + b)[|tagB|..] == b;
  }

  /** Children of one parent: the same page, the same section and, trimmed, the same parent text. */
  predicate Siblings(a: Passage, b: Passage) {
    a.pageId == b.pageId && a.section == b.section && Strip(a.parentText) == Strip(b.parentText)
  }

  /** The digests of two parent texts are hexadecimal and do not collide. */
  predicate ToldApart(a: Passage, b: Passage, f: Foreign) {
    var p, q := Strip(a.parentText), Strip(b.parentText);
    '|' !in f.digest(p) && '|' !in f.digest(q) && (f.digest(p) == f.digest(q) ==> p == q)
  }

  /** Where `a` and `b` end at the same `bar`, so do the strings they lead. */
  lemma SplitAt(a: string, x: string, b: string, y: string, bar: char)
    requires (bar !in a && bar !in b) || (bar !in x && bar !in y)
    ensures a + [bar] + x == b + [bar] + y <==> a == b && x == y
  {
    var s, t := a + [bar] + x, b + [bar] + y;
    if s == t {
      assert s[|a|] == bar && t[|b|] == bar;
      assert (forall i | 0 <= i < |a| :: s[i] == a[i]) && (forall i | 0 <= i < |b| :: t[i] == b[i]);
      assert forall i | |a| < i < |s| :: s[i] == x[i - |a| - 1];
      assert forall i | |b| < i < |t| :: t[i] == y[i - |b| - 1];
      assert |a| == |b|;
      assert s[..|a|] == a && t[..|b|] == b && s[|a| + 1..] == x && t[|b| + 1..] == y;
    }
  }

  /**
   Siblings always share a lineage. Where digests tell parents apart, candidates share one only if their parent
   texts agree and their page ids and sections, joined by `|`, do; for one page or for ids without a `|` of their
   own that makes them siblings.
   */
  lemma LineageIff(a: Passage, b: Passage, f: Foreign)
    ensures Siblings(a, b) ==> Lineage(a, f) == Lineage(b, f)
    ensures ToldApart(a, b, f) ==>
              (Lineage(a, f) == Lineage(b, f)
               <==> a.pageId + "|" + a.section == b.pageId + "|" + b.section
                    && Strip(a.parentText) == Strip(b.parentText))
    ensures ToldApart(a, b, f) && (a.pageId == b.pageId || ('|' !in a.pageId && '|' !in b.pageId)) ==>
              (Lineage(a, f) == Lineage(b, f) <==> Siblings(a, b))
  {
    hide Strip;
    if ToldApart(a, b, f) {
      SplitAt(a.pageId + "|" + a.section, f.digest(Strip(a.parentText)),
              b.pageId + "|" + b.section, f.digest(Strip(b.parentText)), '|');
      if a.pageId == b.pageId {
        assert (a.pageId + "|" + a.section)[|a.pageId| + 1..] == a.section;
        assert (b.pageId + "|" + b.section)[|b.pageId| + 1..] == b.section;
      } else if '|' !in a.pageId && '|' !in b.pageId {
        SplitAt(a.pageId, a.section, b.pageId, b.section, '|');
      }
    }
  }

  /** A candidate has a text to return if it has any text, and the preferred one whenever it has that. */
  lemma ReturnTextPrefers(c: Passage, request: Request)
    ensures ReturnText(c, request) == "" <==> c.parentText == "" && c.childText == "" && c.text == ""
    ensures ReturnText(c, request) in {c.parentText, c.childText, c.text}
    ensures Collapsing(request) && c.parentText != "" ==> ReturnText(c, request) == c.parentText
    ensures request.preferChild && !request.preferParent && c.childText != "" ==> ReturnText(c, request) == c.childText
    ensures request.preferParent == request.preferChild && c.text != "" ==> ReturnText(c, request) == c.text
    ensures Collapsing(request) && c.parentText == "" && c.text != "" ==> ReturnText(c, request) == c.text
    ensures request.preferChild && !request.preferParent && c.childText == "" && c.text != "" ==>
              ReturnText(c, request) == c.text
    ensures request.preferParent == request.preferChild && c.text == "" && c.childText != "" ==>
              ReturnText(c, request) == c.childText
  {
  }

  // ---- Grouping ----

  /** A ranked candidate: its rank, its place in the pool, and what the selection asks about it. */
  datatype Entry = Entry(rank: nat, at: nat, score: real, page: string, text: string, lineage: string)

  /** The ranked candidates that are in the pool, best first. */
  function Entries(pool: seq<Passage>, ranked: seq<(int, real)>, request: Request, f: Foreign): seq<Entry>
    decreases |ranked|
  {
    if ranked == [] then []
    else
      var front, (at, score) := Entries(pool, ranked[..|ranked| - 1], request, f), ranked[|ranked| - 1];
      if 0 <= at < |pool|
      then front + [EntryOf(pool[at], |ranked| - 1, at, score, request, f)]
      else front
  }

  function EntryOf(c: Passage, rank: nat, at: nat, score: real, request: Request, f: Foreign): Entry {
    Entry(rank, at, score, PageKey(c, f), ReturnText(c, request), Lineage(c, f))
  }

  /** Pages in the order in which the ranking first reaches them. */
  function PageOrder(entries: seq<Entry>): seq<string>
    decreases |entries|
  {
    if entries == [] then []
    else
      var front, page := PageOrder(entries[..|entries| - 1]), entries[|entries| - 1].page;
      if page in front then front else front + [page]
  }

  /** One page's passages, in rank order. */
  function OfPage(entries: seq<Entry>, page: string): seq<Entry>
    decreases |entries|
  {
    if entries == [] then []
    else
      var front, last := OfPage(entries[..|entries| - 1], page), entries[|entries| - 1];
      if last.page == page then front + [last] else front
  }

  /** Pages in order, and each page's passages. */
  datatype Groups = Groups(keys: seq<string>, lists: seq<seq<Entry>>)

  function GroupsOf(entries: seq<Entry>): Groups {
    var keys := PageOrder(entries);
    Groups(keys, seq(|keys|, p requires 0 <= p < |keys| => OfPage(entries, keys[p])))
  }

  // ---- Selection ----

  /** `considered` is history: the passages looked at so far, in order. */
  datatype State = State(
    cursor: seq<nat>, texts: set<string>, parents: set<string>, chosen: seq<Entry>, considered: seq<Entry>)

  predicate Shaped(g: Groups) {
    |g.keys| == |g.lists|
  }

  predicate Fits(g: Groups, s: State) {
    Shaped(g) && |s.cursor| == |g.lists| && forall p | 0 <= p < |s.cursor| :: s.cursor[p] <= |g.lists[p]|
  }

  predicate SeenText(s: State, e: Entry) {
    e.text != "" && e.text in s.texts
  }

  predicate SeenParent(s: State, e: Entry, collapse: bool) {
    collapse && e.lineage in s.parents
  }

  predicate Admissible(s: State, e: Entry, collapse: bool) {
    !SeenText(s, e) && !SeenParent(s, e, collapse)
  }

  /** Look at page `p`'s next passage. Its text is recorded even if its parent then turns out to be a repeat. */
  function Consider(g: Groups, s: State, p: nat, collapse: bool): (v: State)
    requires Fits(g, s) && p < |s.cursor| && s.cursor[p] < |g.lists[p]|
    ensures Fits(g, v) && v.cursor == s.cursor[p := s.cursor[p] + 1]
  {
    var e := g.lists[p][s.cursor[p]];
    State(
      s.cursor[p := s.cursor[p] + 1],
      if e.text != "" then s.texts + {e.text} else s.texts,
      if Admissible(s, e, collapse) && collapse then s.parents + {e.lineage} else s.parents,
      if Admissible(s, e, collapse) then s.chosen + [e] else s.chosen,
      s.considered + [e])
  }

  /** `take_next_admissible`: look until one is chosen or the page has no more. */
  function Turn(g: Groups, s: State, p: nat, collapse: bool): (v: State)
    requires Fits(g, s) && p < |s.cursor|
    ensures Fits(g, v)
    decreases |g.lists[p]| - s.cursor[p]
  {
    if s.cursor[p] == |g.lists[p]| then s
    else
      var v := Consider(g, s, p, collapse);
      if |v.chosen| > |s.chosen| then v else Turn(g, v, p, collapse)
  }

  /** The rest of a round, from page `p` on. */
  function Round(g: Groups, s: State, p: nat, collapse: bool): (v: State)
    requires Fits(g, s) && p <= |s.cursor|
    ensures Fits(g, v)
    decreases |g.lists| - p
  {
    if p == |s.cursor| then s else Round(g, Turn(g, s, p, collapse), p + 1, collapse)
  }

  /** How many passages have not been looked at, from page `p` on. */
  function Left(g: Groups, s: State, p: nat): nat
    requires Fits(g, s) && p <= |s.cursor|
    decreases |s.cursor| - p
  {
    if p == |s.cursor| then 0 else |g.lists[p]| - s.cursor[p] + Left(g, s, p + 1)
  }

  /** Rounds until one chooses nothing. */
  function Rounds(g: Groups, s: State, collapse: bool): (v: State)
    requires Fits(g, s)
    ensures Fits(g, v)
    decreases Left(g, s, 0)
  {
    var v := Round(g, s, 0, collapse);
    RoundProgress(g, s, 0, collapse);
    if |v.chosen| == |s.chosen| then v else Rounds(g, v, collapse)
  }

  function Start(g: Groups): State {
    State(seq(|g.lists|, p => 0), {}, {}, [], [])
  }

  /** Everything a selection without a limit chooses, in order. */
  function Unlimited(g: Groups, collapse: bool): State
    requires Shaped(g)
  {
    Rounds(g, Start(g), collapse)
  }

  function Cut<T>(s: seq<T>, k: int): seq<T> {
    if k <= 0 then [] else if k < |s| then s[..k] else s
  }

  /** `_select_ranked_candidates`. */
  function Select(pool: seq<Passage>, ranked: seq<(int, real)>, request: Request, f: Foreign, k: int): seq<Entry> {
    Cut(Unlimited(GroupsOf(Entries(pool, ranked, request, f)), Collapsing(request)).chosen, k)
  }

  // ---- Progress ----

  lemma {:induction false} LeftOfOthers(g: Groups, s: State, v: State, p: nat, q: nat)
    requires Fits(g, s) && Fits(g, v) && p < q <= |s.cursor|
    requires forall r | 0 <= r < |s.cursor| && r != p :: v.cursor[r] == s.cursor[r]
    ensures Left(g, v, q) == Left(g, s, q)
    decreases |s.cursor| - q
  {
    if q < |s.cursor| {
      LeftOfOthers(g, s, v, p, q + 1);
    }
  }

  lemma {:induction false} LeftAfter(g: Groups, s: State, v: State, p: nat, q: nat)
    requires Fits(g, s) && Fits(g, v) && q <= p < |s.cursor|
    requires forall r | 0 <= r < |s.cursor| && r != p :: v.cursor[r] == s.cursor[r]
    ensures Left(g, v, q) == Left(g, s, q) + s.cursor[p] - v.cursor[p]
    decreases p - q
  {
    if q == p {
      LeftOfOthers(g, s, v, p, p + 1);
    } else {
      LeftAfter(g, s, v, p, q + 1);
    }
  }

  /** A turn only ever adds, moves only its own page on, and moves it if it chooses anything. */
  lemma {:induction false} TurnProgress(g: Groups, s: State, p: nat, collapse: bool)
    requires Fits(g, s) && p < |s.cursor|
    ensures var v := Turn(g, s, p, collapse);
            && s.chosen <= v.chosen && |v.chosen| <= |s.chosen| + 1
            && (forall r | 0 <= r < |s.cursor| && r != p :: v.cursor[r] == s.cursor[r])
            && s.cursor[p] <= v.cursor[p]
            && (|v.chosen| > |s.chosen| ==> s.cursor[p] < v.cursor[p])
            && (|v.chosen| == |s.chosen| ==> v.cursor[p] == |g.lists[p]|)
    decreases |g.lists[p]| - s.cursor[p]
  {
    if s.cursor[p] < |g.lists[p]| {
      var v := Consider(g, s, p, collapse);
      if |v.chosen| == |s.chosen| {
        TurnProgress(g, v, p, collapse);
      }
    }
  }

  lemma {:induction false} RoundProgress(g: Groups, s: State, p: nat, collapse: bool)
    requires Fits(g, s) && p <= |s.cursor|
    ensures var v := Round(g, s, p, collapse);
            && s.chosen <= v.chosen && Left(g, v, 0) <= Left(g, s, 0)
            && (|v.chosen| > |s.chosen| ==> Left(g, v, 0) < Left(g, s, 0))
    decreases |g.lists| - p
  {
    if p < |s.cursor| {
      var v := Turn(g, s, p, collapse);
      TurnProgress(g, s, p, collapse);
      LeftAfter(g, s, v, p, 0);
      RoundProgress(g, v, p + 1, collapse);
    }
  }

  lemma {:induction false} RoundsProgress(g: Groups, s: State, collapse: bool)
    requires Fits(g, s)
    ensures s.chosen <= Rounds(g, s, collapse).chosen
    decreases Left(g, s, 0)
  {
    var v := Round(g, s, 0, collapse);
    RoundProgress(g, s, 0, collapse);
    if |v.chosen| != |s.chosen| {
      RoundsProgress(g, v, collapse);
    }
  }

  /** Asking for one more keeps what was already chosen. */
  lemma PrefixLaw(pool: seq<Passage>, ranked: seq<(int, real)>, request: Request, f: Foreign, k: int, more: int)
    requires k <= more
    ensures Select(pool, ranked, request, f, k) == Cut(Select(pool, ranked, request, f, more), k)
  {
  }

  // ---- What grouping gives ----

  predicate RankOrder(list: seq<Entry>) {
    forall i, j | 0 <= i < j < |list| :: list[i].rank < list[j].rank
  }

  /** Each list holds its own page's passages, in rank order. */
  predicate Grouped(g: Groups) {
    && Shaped(g) && Distinct(g.keys)
    && (forall p | 0 <= p < |g.lists| :: RankOrder(g.lists[p]))
    && (forall p, i | 0 <= p < |g.lists| && 0 <= i < |g.lists[p]| :: g.lists[p][i].page == g.keys[p])
  }

  lemma {:induction false} EntriesRanked(pool: seq<Passage>, ranked: seq<(int, real)>, request: Request, f: Foreign)
    ensures var es := Entries(pool, ranked, request, f);
            RankOrder(es) && forall i | 0 <= i < |es| :: es[i].rank < |ranked|
    decreases |ranked|
  {
    if ranked != [] {
      EntriesRanked(pool, ranked[..|ranked| - 1], request, f);
    }
  }

  lemma {:induction false} PageOrderIs(entries: seq<Entry>)
    ensures Distinct(PageOrder(entries))
    ensures forall i | 0 <= i < |entries| :: entries[i].page in PageOrder(entries)
    decreases |entries|
  {
    if entries != [] {
      PageOrderIs(entries[..|entries| - 1]);
    }
  }

  lemma {:induction false} OfPageIs(entries: seq<Entry>, page: string)
    requires RankOrder(entries)
    ensures var l := OfPage(entries, page);
            && RankOrder(l)
            && (forall i | 0 <= i < |l| :: l[i] in entries && l[i].page == page)
            && (forall e | e in entries && e.page == page :: e in l)
    decreases |entries|
  {
    if entries != [] {
      var front, last := entries[..|entries| - 1], entries[|entries| - 1];
      assert entries == front + [last];
      OfPageIs(front, page);
      var l := OfPage(front, page);
      forall i | 0 <= i < |l| ensures l[i].rank < last.rank {
        assert l[i] in front;
        var k :| 0 <= k < |front| && front[k] == l[i];
        assert entries[k].rank < entries[|entries| - 1].rank;
      }
    }
  }

  lemma GroupsGrouped(entries: seq<Entry>)
    requires RankOrder(entries)
    ensures Grouped(GroupsOf(entries))
  {
    PageOrderIs(entries);
    var keys := PageOrder(entries);
    forall p | 0 <= p < |keys|
      ensures RankOrder(OfPage(entries, keys[p]))
      ensures forall i | 0 <= i < |OfPage(entries, keys[p])| :: OfPage(entries, keys[p])[i].page == keys[p]
    {
      OfPageIs(entries, keys[p]);
    }
  }

  /** Every in-range candidate is in its page's list. */
  lemma EntryIsListed(entries: seq<Entry>, e: Entry) returns (p: nat, i: nat)
    requires RankOrder(entries) && e in entries
    ensures p < |GroupsOf(entries).lists| && i < |GroupsOf(entries).lists[p]| && GroupsOf(entries).lists[p][i] == e
  {
    PageOrderIs(entries);
    var keys := PageOrder(entries);
    p :| 0 <= p < |keys| && keys[p] == e.page;
    OfPageIs(entries, e.page);
    assert e in OfPage(entries, e.page);
    i :| 0 <= i < |OfPage(entries, e.page)| && OfPage(entries, e.page)[i] == e;
  }

  /** A page already there began before the last entry. */
  lemma EarlierPage(entries: seq<Entry>, page: string)
    requires RankOrder(entries) && entries != [] && OfPage(entries[..|entries| - 1], page) != []
    ensures OfPage(entries[..|entries| - 1], page)[0].rank < entries[|entries| - 1].rank
  {
    var front := entries[..|entries| - 1];
    OfPageIs(front, page);
    var first := OfPage(front, page)[0];
    assert first in front;
    var k :| 0 <= k < |front| && front[k] == first;
    assert entries[k].rank < entries[|entries| - 1].rank;
  }

  /** Pages come in the order of their best passages. */
  lemma {:induction false} PagesByBestRank(entries: seq<Entry>, p: nat, q: nat)
    requires RankOrder(entries) && p < |PageOrder(entries)| && q < |PageOrder(entries)|
    ensures var a, b := OfPage(entries, PageOrder(entries)[p]), OfPage(entries, PageOrder(entries)[q]);
            a != [] && b != [] && (p < q ==> a[0].rank < b[0].rank)
    decreases |entries|
  {
    var front, last := entries[..|entries| - 1], entries[|entries| - 1];
    assert entries == front + [last];
    var keys := PageOrder(front);
    PageOrderIs(entries);
    if p < |keys| && q < |keys| {
      PagesByBestRank(front, p, q);
    } else if p < |keys| {
      PagesByBestRank(front, p, p);
      NoneOfPage(front, last.page);
      EarlierPage(entries, keys[p]);
    } else {
      NoneOfPage(front, last.page);
      if q < |keys| {
        PagesByBestRank(front, q, q);
      }
    }
  }

  lemma {:induction false} NoneOfPage(entries: seq<Entry>, page: string)
    requires page !in PageOrder(entries)
    ensures OfPage(entries, page) == []
    decreases |entries|
  {
    if entries != [] {
      NoneOfPage(entries[..|entries| - 1], page);
    }
  }

  // ---- The order of the selection ----

  /** How many of `chosen` are of `page`. */
  function Count(chosen: seq<Entry>, page: string): nat
    decreases |chosen|
  {
    if chosen == [] then 0
    else Count(chosen[..|chosen| - 1], page) + if chosen[|chosen| - 1].page == page then 1 else 0
  }

  lemma CountStep(chosen: seq<Entry>, e: Entry, page: string)
    ensures Count(chosen + [e], page) == Count(chosen, page) + if e.page == page then 1 else 0
  {
    assert (chosen + [e])[..|chosen|] == chosen;
  }

  function PageAt(keys: seq<string>, page: string): nat {
    if keys == [] || keys[0] == page then 0 else 1 + PageAt(keys[1..], page)
  }

  lemma {:induction false} PageAtIs(keys: seq<string>, p: nat)
    requires Distinct(keys) && p < |keys|
    ensures PageAt(keys, keys[p]) == p
    decreases |keys|
  {
    if p > 0 {
      PageAtIs(keys[1..], p - 1);
    }
  }

  /** Which of its page's passages the `a`-th chosen one is. */
  function Turns(chosen: seq<Entry>, a: nat): nat
    requires a < |chosen|
  {
    Count(chosen[..a], chosen[a].page)
  }

  predicate Precedes(turnA: nat, pageA: nat, turnB: nat, pageB: nat) {
    turnA < turnB || (turnA == turnB && pageA < pageB)
  }

  /** First every page's first passage, then every page's second, and so on; within a round, by page order. */
  predicate RoundRobin(keys: seq<string>, chosen: seq<Entry>) {
    forall a, b | 0 <= a < b < |chosen| ::
      Precedes(Turns(chosen, a), PageAt(keys, chosen[a].page), Turns(chosen, b), PageAt(keys, chosen[b].page))
  }

  predicate Before(keys: seq<string>, chosen: seq<Entry>, r: nat, p: nat) {
    forall a | 0 <= a < |chosen| :: Precedes(Turns(chosen, a), PageAt(keys, chosen[a].page), r, p)
  }

  /** In round `r`, at page `p`: a page that still has passages has had all its turns. */
  predicate InRound(g: Groups, s: State, r: nat, p: nat)
    requires Fits(g, s)
  {
    && RoundRobin(g.keys, s.chosen) && Before(g.keys, s.chosen, r, p)
    && forall q | 0 <= q < |g.keys| ::
         s.cursor[q] == |g.lists[q]| || Count(s.chosen, g.keys[q]) == if q < p then r + 1 else r
  }

  lemma TurnsKept(chosen: seq<Entry>, e: Entry)
    ensures forall a | 0 <= a < |chosen| :: Turns(chosen + [e], a) == Turns(chosen, a)
    ensures Turns(chosen + [e], |chosen|) == Count(chosen, e.page)
  {
    forall a | 0 <= a < |chosen| ensures Turns(chosen + [e], a) == Turns(chosen, a) {
      assert (chosen + [e])[..a] == chosen[..a];
    }
    assert (chosen + [e])[..|chosen|] == chosen;
  }

  lemma ChoiceKeepsOrder(keys: seq<string>, chosen: seq<Entry>, e: Entry, r: nat, p: nat)
    requires Distinct(keys) && p < |keys| && e.page == keys[p] && Count(chosen, e.page) == r
    requires RoundRobin(keys, chosen) && Before(keys, chosen, r, p)
    ensures RoundRobin(keys, chosen + [e]) && Before(keys, chosen + [e], r, p + 1)
  {
    hide Turns, PageAt;
    TurnsKept(chosen, e);
    PageAtIs(keys, p);
  }

  /** What a turn chooses is the last passage it looked at. */
  lemma {:induction false} TurnChooses(g: Groups, s: State, p: nat, collapse: bool)
    requires Fits(g, s) && p < |s.cursor|
    ensures var v := Turn(g, s, p, collapse);
            v.chosen == s.chosen || (v.cursor[p] > 0 && v.chosen == s.chosen + [g.lists[p][v.cursor[p] - 1]])
    decreases |g.lists[p]| - s.cursor[p]
  {
    if s.cursor[p] < |g.lists[p]| {
      var v := Consider(g, s, p, collapse);
      if |v.chosen| == |s.chosen| {
        TurnChooses(g, v, p, collapse);
      }
    }
  }

  lemma TurnInRound(g: Groups, s: State, r: nat, p: nat, collapse: bool)
    requires Fits(g, s) && Grouped(g) && p < |s.cursor| && InRound(g, s, r, p)
    ensures InRound(g, Turn(g, s, p, collapse), r, p + 1)
  {
    hide Turns, PageAt, RoundRobin;
    var v := Turn(g, s, p, collapse);
    TurnProgress(g, s, p, collapse);
    TurnChooses(g, s, p, collapse);
    if |v.chosen| > |s.chosen| {
      var e := g.lists[p][v.cursor[p] - 1];
      assert v.chosen == s.chosen + [e];
      ChoiceKeepsOrder(g.keys, s.chosen, e, r, p);
      forall q | 0 <= q < |g.keys|
        ensures v.cursor[q] == |g.lists[q]| || Count(v.chosen, g.keys[q]) == if q < p + 1 then r + 1 else r
      {
        CountStep(s.chosen, e, g.keys[q]);
      }
    }
  }

  lemma {:induction false} RoundInRound(g: Groups, s: State, r: nat, p: nat, collapse: bool)
    requires Fits(g, s) && Grouped(g) && p <= |s.cursor| && InRound(g, s, r, p)
    ensures InRound(g, Round(g, s, p, collapse), r, |g.keys|)
    decreases |g.lists| - p
  {
    hide InRound, Turn;
    if p < |s.cursor| {
      TurnInRound(g, s, r, p, collapse);
      RoundInRound(g, Turn(g, s, p, collapse), r, p + 1, collapse);
    }
  }

  lemma NextRound(g: Groups, s: State, r: nat)
    requires Fits(g, s) && InRound(g, s, r, |g.keys|)
    ensures InRound(g, s, r + 1, 0)
  {
    hide Turns, PageAt, Count;
  }

  lemma {:induction false} RoundsRoundRobin(g: Groups, s: State, r: nat, collapse: bool)
    requires Fits(g, s) && Grouped(g) && InRound(g, s, r, 0)
    ensures RoundRobin(g.keys, Rounds(g, s, collapse).chosen)
    decreases Left(g, s, 0)
  {
    hide RoundRobin;
    var v := Round(g, s, 0, collapse);
    RoundInRound(g, s, r, 0, collapse);
    RoundProgress(g, s, 0, collapse);
    if |v.chosen| != |s.chosen| {
      NextRound(g, v, r);
      RoundsRoundRobin(g, v, r + 1, collapse);
    }
  }

  lemma CutRoundRobin(keys: seq<string>, chosen: seq<Entry>, k: int)
    requires RoundRobin(keys, chosen)
    ensures RoundRobin(keys, Cut(chosen, k))
  {
    var c := Cut(chosen, k);
    forall a, b | 0 <= a < b < |c|
      ensures Precedes(Turns(c, a), PageAt(keys, c[a].page), Turns(c, b), PageAt(keys, c[b].page))
    {
      assert c[..a] == chosen[..a] && c[..b] == chosen[..b];
      assert Turns(c, a) == Turns(chosen, a) && Turns(c, b) == Turns(chosen, b);
    }
  }

  /** The selection goes round the pages, best page first, whatever the passages. */
  lemma SelectionOrder(pool: seq<Passage>, ranked: seq<(int, real)>, request: Request, f: Foreign, k: int)
    ensures RoundRobin(PageOrder(Entries(pool, ranked, request, f)), Select(pool, ranked, request, f, k))
  {
    hide RoundRobin;
    EntriesRanked(pool, ranked, request, f);
    var es := Entries(pool, ranked, request, f);
    var g := GroupsOf(es);
    GroupsGrouped(es);
    assert RoundRobin(g.keys, []) by { NothingInOrder(g.keys); }
    RoundsRoundRobin(g, Start(g), 0, Collapsing(request));
    CutRoundRobin(g.keys, Unlimited(g, Collapsing(request)).chosen, k);
  }

  lemma NothingInOrder(keys: seq<string>)
    ensures RoundRobin(keys, [])
  {
  }

  // ---- Fairness ----

  lemma {:induction false} FirstFurther(chosen: seq<Entry>, n: nat, page: string) returns (b: nat)
    requires n <= |chosen| && Count(chosen, page) > Count(chosen[..n], page)
    ensures n <= b < |chosen| && chosen[b].page == page && Turns(chosen, b) == Count(chosen[..n], page)
    decreases |chosen|
  {
    assert chosen[..|chosen|] == chosen;
    var front := chosen[..|chosen| - 1];
    assert front[..n] == chosen[..n];
    if Count(front, page) > Count(chosen[..n], page) {
      b := FirstFurther(front, n, page);
      assert front[..b] == chosen[..b];
    } else {
      CountGrows(front, n, page);
      b := |chosen| - 1;
    }
  }

  lemma {:induction false} CountGrows(chosen: seq<Entry>, n: nat, page: string)
    requires n <= |chosen|
    ensures Count(chosen[..n], page) <= Count(chosen, page)
    decreases |chosen|
  {
    if n < |chosen| {
      assert chosen[..|chosen| - 1][..n] == chosen[..n];
      CountGrows(chosen[..|chosen| - 1], n, page);
    } else {
      assert chosen[..n] == chosen;
    }
  }

  lemma {:induction false} LastOfPage(chosen: seq<Entry>, page: string) returns (a: nat)
    requires Count(chosen, page) > 0
    ensures a < |chosen| && chosen[a].page == page && Turns(chosen, a) == Count(chosen, page) - 1
    decreases |chosen|
  {
    var front := chosen[..|chosen| - 1];
    if chosen[|chosen| - 1].page == page {
      a := |chosen| - 1;
    } else {
      a := LastOfPage(front, page);
      assert front[..a] == chosen[..a];
    }
  }

  /** Whatever is chosen after the first `n` is at most one turn behind any page's last among them. */
  lemma NobodyLagsBehind(keys: seq<string>, chosen: seq<Entry>, n: nat, b: nat, page: string)
    requires RoundRobin(keys, chosen) && n <= b < |chosen|
    ensures Turns(chosen, b) + 1 >= Count(chosen[..n], page)
  {
    if Count(chosen[..n], page) > 0 {
      var a := LastOfPage(chosen[..n], page);
      assert chosen[..n][..a] == chosen[..a];
      assert Precedes(Turns(chosen, a), PageAt(keys, chosen[a].page), Turns(chosen, b), PageAt(keys, chosen[b].page));
    }
  }

  lemma RoundRobinIsFair(keys: seq<string>, chosen: seq<Entry>, n: nat, p: string, q: string)
    requires RoundRobin(keys, chosen) && n <= |chosen|
    requires Count(chosen[..n], p) >= Count(chosen[..n], q) + 2
    ensures Count(chosen, q) == Count(chosen[..n], q)
  {
    CountGrows(chosen, n, q);
    if Count(chosen, q) > Count(chosen[..n], q) {
      var b := FirstFurther(chosen, n, q);
      NobodyLagsBehind(keys, chosen, n, b, p);
    }
  }

  /**
   A page that falls two passages behind another has nothing more to give: however many more are asked
   for, none of them is its.
   */
  lemma Fairness(pool: seq<Passage>, ranked: seq<(int, real)>, request: Request, f: Foreign, k: int, more: int,
                 p: string, q: string)
    requires k <= more
    requires Count(Select(pool, ranked, request, f, k), p) >= Count(Select(pool, ranked, request, f, k), q) + 2
    ensures Count(Select(pool, ranked, request, f, more), q) == Count(Select(pool, ranked, request, f, k), q)
  {
    hide Unlimited, Entries;
    SelectionOrder(pool, ranked, request, f, more);
    PrefixLaw(pool, ranked, request, f, k, more);
    var few, many := Select(pool, ranked, request, f, k), Select(pool, ranked, request, f, more);
    assert few == many[..|few|];
    RoundRobinIsFair(PageOrder(Entries(pool, ranked, request, f)), many, |few|, p, q);
  }

  // ---- Nothing twice, nothing forgotten ----

  ghost predicate TextsAreSeen(s: State) {
    forall t :: t in s.texts <==> t != "" && exists i | 0 <= i < |s.considered| :: s.considered[i].text == t
  }

  ghost predicate ParentsAreSeen(s: State, collapse: bool) {
    forall l :: l in s.parents <==> collapse && exists a | 0 <= a < |s.chosen| :: s.chosen[a].lineage == l
  }

  /** No two chosen passages share a text, nor a parent when siblings collapse. */
  predicate NoRepeats(chosen: seq<Entry>, collapse: bool) {
    forall a, b | 0 <= a < b < |chosen| ::
      (chosen[a].text != "" ==> chosen[a].text != chosen[b].text)
      && (collapse ==> chosen[a].lineage != chosen[b].lineage)
  }

  /** Chosen, or with the text of a passage looked at before, or with the parent of a chosen one. */
  predicate Settled(s: State, i: nat, collapse: bool)
    requires i < |s.considered|
  {
    var e := s.considered[i];
    || e in s.chosen
    || (e.text != "" && exists j | 0 <= j < i :: s.considered[j].text == e.text)
    || (collapse && exists a | 0 <= a < |s.chosen| :: s.chosen[a].lineage == e.lineage)
  }

  /** What was looked at is listed, and holds what was chosen and all that the cursors have passed. */
  ghost predicate Looked(g: Groups, s: State)
    requires Fits(g, s)
  {
    && (forall e | e in s.chosen :: e in s.considered)
    && (forall p, i | 0 <= p < |g.lists| && 0 <= i < s.cursor[p] :: g.lists[p][i] in s.considered)
    && (forall e | e in s.considered :: exists p | 0 <= p < |g.lists| :: e in g.lists[p])
  }

  lemma ConsiderLooks(g: Groups, s: State, p: nat, collapse: bool)
    requires Fits(g, s) && p < |s.cursor| && s.cursor[p] < |g.lists[p]| && Looked(g, s)
    ensures Looked(g, Consider(g, s, p, collapse))
  {
    hide Admissible;
    LastIn(s.considered, g.lists[p][s.cursor[p]]);
  }

  /** What every step of the selection keeps. */
  ghost predicate Sound(g: Groups, s: State, collapse: bool)
    requires Fits(g, s)
  {
    && TextsAreSeen(s) && ParentsAreSeen(s, collapse) && NoRepeats(s.chosen, collapse)
    && Looked(g, s)
    && (forall i | 0 <= i < |s.considered| :: Settled(s, i, collapse))
    && Grouped(g) && InRankOrder(s.chosen) && AheadOfCursor(g, s)
  }

  /** A page's chosen passages come in rank order. */
  predicate InRankOrder(chosen: seq<Entry>) {
    forall a, b | 0 <= a < b < |chosen| && chosen[a].page == chosen[b].page :: chosen[a].rank < chosen[b].rank
  }

  predicate AheadOfCursor(g: Groups, s: State)
    requires Fits(g, s)
  {
    forall a, p, i | 0 <= a < |s.chosen| && 0 <= p < |g.lists| && s.cursor[p] <= i < |g.lists[p]| ::
      s.chosen[a].page == g.keys[p] ==> s.chosen[a].rank < g.lists[p][i].rank
  }

  lemma ConsiderRanks(g: Groups, s: State, p: nat, collapse: bool)
    requires Fits(g, s) && Grouped(g) && p < |s.cursor| && s.cursor[p] < |g.lists[p]|
    requires InRankOrder(s.chosen) && AheadOfCursor(g, s)
    ensures var v := Consider(g, s, p, collapse); InRankOrder(v.chosen) && AheadOfCursor(g, v)
  {
    hide Admissible;
  }

  lemma ConsiderTexts(g: Groups, s: State, p: nat, collapse: bool)
    requires Fits(g, s) && p < |s.cursor| && s.cursor[p] < |g.lists[p]| && TextsAreSeen(s)
    ensures TextsAreSeen(Consider(g, s, p, collapse))
  {
    var v := Consider(g, s, p, collapse);
    var e := g.lists[p][s.cursor[p]];
    forall t ensures t in v.texts <==> t != "" && exists i | 0 <= i < |v.considered| :: v.considered[i].text == t {
      assert v.considered[|s.considered|] == e;
      assert forall i | 0 <= i < |s.considered| :: v.considered[i] == s.considered[i];
    }
  }

  lemma ConsiderParents(g: Groups, s: State, p: nat, collapse: bool)
    requires Fits(g, s) && p < |s.cursor| && s.cursor[p] < |g.lists[p]| && ParentsAreSeen(s, collapse)
    ensures ParentsAreSeen(Consider(g, s, p, collapse), collapse)
  {
    var v := Consider(g, s, p, collapse);
    var e := g.lists[p][s.cursor[p]];
    forall l ensures l in v.parents <==> collapse && exists a | 0 <= a < |v.chosen| :: v.chosen[a].lineage == l {
      assert forall a | 0 <= a < |s.chosen| :: v.chosen[a] == s.chosen[a];
      assert |v.chosen| > |s.chosen| ==> v.chosen[|s.chosen|] == e;
    }
  }

  lemma ConsiderNoRepeats(g: Groups, s: State, p: nat, collapse: bool)
    requires Fits(g, s) && p < |s.cursor| && s.cursor[p] < |g.lists[p]|
    requires TextsAreSeen(s) && ParentsAreSeen(s, collapse) && NoRepeats(s.chosen, collapse)
    requires forall e | e in s.chosen :: e in s.considered
    ensures NoRepeats(Consider(g, s, p, collapse).chosen, collapse)
  {
    var e := g.lists[p][s.cursor[p]];
    if Admissible(s, e, collapse) {
      forall a | 0 <= a < |s.chosen|
        ensures s.chosen[a].text != "" ==> s.chosen[a].text != e.text
        ensures collapse ==> s.chosen[a].lineage != e.lineage
      {
        assert s.chosen[a] in s.considered;
        var i :| 0 <= i < |s.considered| && s.considered[i] == s.chosen[a];
        assert s.considered[i].text == s.chosen[a].text;
      }
    }
  }

  lemma ConsiderSettles(g: Groups, s: State, p: nat, collapse: bool, i: nat)
    requires Fits(g, s) && p < |s.cursor| && s.cursor[p] < |g.lists[p]|
    requires TextsAreSeen(s) && ParentsAreSeen(s, collapse)
    requires i < |s.considered| ==> Settled(s, i, collapse)
    requires i <= |s.considered|
    ensures Settled(Consider(g, s, p, collapse), i, collapse)
  {
    var v := Consider(g, s, p, collapse);
    var e := g.lists[p][s.cursor[p]];
    assert forall j | 0 <= j < |s.considered| :: v.considered[j] == s.considered[j];
    assert forall a | 0 <= a < |s.chosen| :: v.chosen[a] == s.chosen[a];
    if i == |s.considered| {
      assert v.considered[i] == e;
      if Admissible(s, e, collapse) {
        assert v.chosen[|s.chosen|] == e;
      }
    } else if s.considered[i] in s.chosen {
      assert s.considered[i] in v.chosen;
    }
  }

  lemma ConsiderSound(g: Groups, s: State, p: nat, collapse: bool)
    requires Fits(g, s) && p < |s.cursor| && s.cursor[p] < |g.lists[p]| && Sound(g, s, collapse)
    ensures Sound(g, Consider(g, s, p, collapse), collapse)
  {
    ConsiderRanks(g, s, p, collapse);
    ConsiderLooks(g, s, p, collapse);
    hide Settled, NoRepeats, TextsAreSeen, ParentsAreSeen, Admissible, Grouped, InRankOrder, AheadOfCursor;
    ConsiderTexts(g, s, p, collapse);
    ConsiderParents(g, s, p, collapse);
    ConsiderNoRepeats(g, s, p, collapse);
    var v := Consider(g, s, p, collapse);
    forall i | 0 <= i < |v.considered| ensures Settled(v, i, collapse) {
      ConsiderSettles(g, s, p, collapse, i);
    }
  }

  lemma LastIn(s: seq<Entry>, e: Entry)
    ensures e in s + [e] && forall x | x in s :: x in s + [e]
  {
    assert (s + [e])[|s|] == e;
  }

  lemma {:induction false} TurnSound(g: Groups, s: State, p: nat, collapse: bool)
    requires Fits(g, s) && p < |s.cursor| && Sound(g, s, collapse)
    ensures Sound(g, Turn(g, s, p, collapse), collapse)
    decreases |g.lists[p]| - s.cursor[p]
  {
    hide Sound;
    if s.cursor[p] < |g.lists[p]| {
      ConsiderSound(g, s, p, collapse);
      TurnSound(g, Consider(g, s, p, collapse), p, collapse);
    }
  }

  lemma {:induction false} RoundSound(g: Groups, s: State, p: nat, collapse: bool)
    requires Fits(g, s) && p <= |s.cursor| && Sound(g, s, collapse)
    ensures Sound(g, Round(g, s, p, collapse), collapse)
    decreases |g.lists| - p
  {
    hide Sound, Turn;
    if p < |s.cursor| {
      TurnSound(g, s, p, collapse);
      RoundSound(g, Turn(g, s, p, collapse), p + 1, collapse);
    }
  }

  /** A round that chooses nothing has looked at everything. */
  lemma {:induction false} BarrenRound(g: Groups, s: State, p: nat, collapse: bool)
    requires Fits(g, s) && p <= |s.cursor|
    requires |Round(g, s, p, collapse).chosen| == |s.chosen|
    requires forall q | 0 <= q < p :: s.cursor[q] == |g.lists[q]|
    ensures var v := Round(g, s, p, collapse); forall q | 0 <= q < |v.cursor| :: v.cursor[q] == |g.lists[q]|
    decreases |g.lists| - p
  {
    hide Turn;
    if p < |s.cursor| {
      TurnProgress(g, s, p, collapse);
      RoundProgress(g, Turn(g, s, p, collapse), p + 1, collapse);
      BarrenRound(g, Turn(g, s, p, collapse), p + 1, collapse);
    }
  }

  lemma {:induction false} RoundsSound(g: Groups, s: State, collapse: bool)
    requires Fits(g, s) && Sound(g, s, collapse)
    ensures var v := Rounds(g, s, collapse);
            Sound(g, v, collapse) && forall q | 0 <= q < |v.cursor| :: v.cursor[q] == |g.lists[q]|
    decreases Left(g, s, 0)
  {
    hide Sound, Round;
    var v := Round(g, s, 0, collapse);
    RoundSound(g, s, 0, collapse);
    RoundProgress(g, s, 0, collapse);
    if |v.chosen| == |s.chosen| {
      BarrenRound(g, s, 0, collapse);
    } else {
      RoundsSound(g, v, collapse);
    }
  }

  lemma UnlimitedSound(entries: seq<Entry>, collapse: bool)
    requires RankOrder(entries)
    ensures var g := GroupsOf(entries);
            var v := Unlimited(g, collapse);
            && Sound(g, v, collapse) && forall q | 0 <= q < |g.lists| :: v.cursor[q] == |g.lists[q]|
  {
    var g := GroupsOf(entries);
    GroupsGrouped(entries);
    assert Sound(g, Start(g), collapse);
    RoundsSound(g, Start(g), collapse);
  }

  lemma {:induction false} EntryFromPool(pool: seq<Passage>, ranked: seq<(int, real)>, request: Request, f: Foreign,
                                         e: Entry)
    requires e in Entries(pool, ranked, request, f)
    ensures e.at < |pool| && e == EntryOf(pool[e.at], e.rank, e.at, e.score, request, f)
    decreases |ranked|
  {
    hide EntryOf, PageKey, ReturnText, Lineage;
    var last := ranked[|ranked| - 1];
    EntriesStep(pool, ranked[..|ranked| - 1], last, request, f);
    assert ranked == ranked[..|ranked| - 1] + [last];
    if e in Entries(pool, ranked[..|ranked| - 1], request, f) {
      EntryFromPool(pool, ranked[..|ranked| - 1], request, f, e);
    } else {
      EntryFields(pool[last.0], |ranked| - 1, last.0, last.1, request, f);
    }
  }

  lemma EntryFields(c: Passage, rank: nat, at: nat, score: real, request: Request, f: Foreign)
    ensures var e := EntryOf(c, rank, at, score, request, f);
            && e.rank == rank && e.at == at && e.score == score
            && e.text == ReturnText(c, request) && e.lineage == Lineage(c, f)
  {
  }

  lemma EntryReads(pool: seq<Passage>, ranked: seq<(int, real)>, request: Request, f: Foreign, e: Entry)
    requires e in Entries(pool, ranked, request, f)
    ensures e.at < |pool| && e.text == ReturnText(pool[e.at], request) && e.lineage == Lineage(pool[e.at], f)
  {
    hide Entries, EntryOf, ReturnText, Lineage;
    EntryFromPool(pool, ranked, request, f, e);
    EntryFields(pool[e.at], e.rank, e.at, e.score, request, f);
  }

  /** Two results neither return one text nor, when siblings collapse, are siblings. */
  predicate Differ(pool: seq<Passage>, request: Request, d: Entry, e: Entry) {
    && d.at < |pool| && e.at < |pool|
    && var x, y := pool[d.at], pool[e.at];
       && (ReturnText(x, request) != "" ==> ReturnText(x, request) != ReturnText(y, request))
       && (Collapsing(request) ==> !Siblings(x, y))
  }

  /** No two results share a text, nor, when siblings collapse, page, section and parent text. */
  lemma NothingTwice(pool: seq<Passage>, ranked: seq<(int, real)>, request: Request, f: Foreign, k: int)
    ensures NoRepeats(Select(pool, ranked, request, f, k), Collapsing(request))
    ensures var chosen := Select(pool, ranked, request, f, k);
            forall a, b | 0 <= a < b < |chosen| :: Differ(pool, request, chosen[a], chosen[b])
  {
    hide Unlimited, Entries, Grouped, TextsAreSeen, ParentsAreSeen, Settled, NoRepeats, Select, Differ;
    SelectNoRepeats(pool, ranked, request, f, k);
    var chosen := Select(pool, ranked, request, f, k);
    PagesKeepRankOrder(pool, ranked, request, f, k);
    forall a, b | 0 <= a < b < |chosen| ensures Differ(pool, request, chosen[a], chosen[b]) {
      TwoOfThem(pool, ranked, request, f, chosen, a, b);
    }
  }

  lemma TwoOfThem(pool: seq<Passage>, ranked: seq<(int, real)>, request: Request, f: Foreign, chosen: seq<Entry>,
                  a: nat, b: nat)
    requires NoRepeats(chosen, Collapsing(request)) && a < b < |chosen|
    requires chosen[a] in Entries(pool, ranked, request, f) && chosen[b] in Entries(pool, ranked, request, f)
    ensures Differ(pool, request, chosen[a], chosen[b])
  {
    hide Entries, ReturnText, Lineage, Siblings;
    EntryReads(pool, ranked, request, f, chosen[a]);
    EntryReads(pool, ranked, request, f, chosen[b]);
    LineageIff(pool[chosen[a].at], pool[chosen[b].at], f);
  }

  lemma SelectNoRepeats(pool: seq<Passage>, ranked: seq<(int, real)>, request: Request, f: Foreign, k: int)
    ensures NoRepeats(Select(pool, ranked, request, f, k), Collapsing(request))
  {
    hide Unlimited, Entries, Grouped, TextsAreSeen, ParentsAreSeen, Settled, NoRepeats;
    EntriesRanked(pool, ranked, request, f);
    var es := Entries(pool, ranked, request, f);
    UnlimitedSound(es, Collapsing(request));
    CutNoRepeats(Unlimited(GroupsOf(es), Collapsing(request)).chosen, k, Collapsing(request));
  }

  lemma CutNoRepeats(chosen: seq<Entry>, k: int, collapse: bool)
    requires NoRepeats(chosen, collapse)
    ensures NoRepeats(Cut(chosen, k), collapse)
  {
  }

  /** Results are ranked candidates, and a page's results come in rank order. */
  lemma PagesKeepRankOrder(pool: seq<Passage>, ranked: seq<(int, real)>, request: Request, f: Foreign, k: int)
    ensures InRankOrder(Select(pool, ranked, request, f, k))
    ensures forall e | e in Select(pool, ranked, request, f, k) :: e in Entries(pool, ranked, request, f)
  {
    hide Unlimited, Entries;
    EntriesRanked(pool, ranked, request, f);
    var es := Entries(pool, ranked, request, f);
    UnlimitedSound(es, Collapsing(request));
    var s := Unlimited(GroupsOf(es), Collapsing(request));
    forall e | e in Select(pool, ranked, request, f, k) ensures e in es {
      assert e in s.chosen && e in s.considered;
      var p :| 0 <= p < |GroupsOf(es).lists| && e in GroupsOf(es).lists[p];
      OfPageIs(es, PageOrder(es)[p]);
    }
  }

  /** Chosen, or returning the text of a candidate looked at before, or a sibling of a chosen one. */
  predicate Explained(pool: seq<Passage>, request: Request, s: State, i: nat)
    requires i < |s.considered| && s.considered[i].at < |pool|
  {
    var e := s.considered[i];
    var c := pool[e.at];
    || e in s.chosen
    || (ReturnText(c, request) != "" && exists j | 0 <= j < i :: Returns(pool, request, s.considered[j], c))
    || (Collapsing(request) && exists a | 0 <= a < |s.chosen| :: IsSibling(pool, s.chosen[a], c))
  }

  predicate Returns(pool: seq<Passage>, request: Request, d: Entry, c: Passage) {
    d.at < |pool| && ReturnText(pool[d.at], request) == ReturnText(c, request)
  }

  predicate IsSibling(pool: seq<Passage>, d: Entry, c: Passage) {
    d.at < |pool| && Siblings(pool[d.at], c)
  }

  /** A candidate the selection looked at, and why it was passed over if it was. */
  ghost predicate AccountedFor(pool: seq<Passage>, request: Request, s: State, e: Entry) {
    exists i | 0 <= i < |s.considered| ::
      s.considered[i] == e && e.at < |pool| && Explained(pool, request, s, i)
  }

  /** The same, as the selection itself tells siblings. */
  ghost predicate SettledSomewhere(s: State, e: Entry, collapse: bool) {
    exists i | 0 <= i < |s.considered| :: s.considered[i] == e && Settled(s, i, collapse)
  }

  /** Page ids hold no `|` and digests tell the parents in the pool apart. */
  ghost predicate LineagesTell(pool: seq<Passage>, f: Foreign) {
    forall a, b | a in pool && b in pool :: '|' !in a.pageId && ToldApart(a, b, f)
  }

  lemma SettledExplained(pool: seq<Passage>, ranked: seq<(int, real)>, request: Request, f: Foreign, s: State, i: nat)
    requires LineagesTell(pool, f) && i < |s.considered| && Settled(s, i, Collapsing(request))
    requires forall e | e in s.considered || e in s.chosen :: e in Entries(pool, ranked, request, f)
    ensures s.considered[i].at < |pool| && Explained(pool, request, s, i)
  {
    hide Entries, ReturnText, Lineage, Siblings;
    var e := s.considered[i];
    EntryReads(pool, ranked, request, f, e);
    if e !in s.chosen {
      if e.text != "" && exists j | 0 <= j < i :: s.considered[j].text == e.text {
        var j :| 0 <= j < i && s.considered[j].text == e.text;
        EntryReads(pool, ranked, request, f, s.considered[j]);
        assert Returns(pool, request, s.considered[j], pool[e.at]);
      } else {
        var a :| 0 <= a < |s.chosen| && s.chosen[a].lineage == e.lineage;
        assert s.chosen[a] in s.chosen;
        EntryReads(pool, ranked, request, f, s.chosen[a]);
        LineageIff(pool[s.chosen[a].at], pool[e.at], f);
        assert IsSibling(pool, s.chosen[a], pool[e.at]);
      }
    }
  }

  /**
   When fewer than `k` come back, every in-range candidate was looked at, and one that was not chosen returns the
   text of a candidate looked at before it or the lineage of a chosen one: its page, section and parent text, where
   lineages tell parents apart.
   */
  lemma NothingForgotten(pool: seq<Passage>, ranked: seq<(int, real)>, request: Request, f: Foreign, k: nat, e: Entry)
    requires |Select(pool, ranked, request, f, k)| < k && e in Entries(pool, ranked, request, f)
    ensures var s := Unlimited(GroupsOf(Entries(pool, ranked, request, f)), Collapsing(request));
            && s.chosen == Select(pool, ranked, request, f, k) && SettledSomewhere(s, e, Collapsing(request))
            && (LineagesTell(pool, f) ==> AccountedFor(pool, request, s, e))
  {
    hide Unlimited, Entries, Explained, LineagesTell, Settled;
    EntriesRanked(pool, ranked, request, f);
    var es := Entries(pool, ranked, request, f);
    UnlimitedSound(es, Collapsing(request));
    var s := Unlimited(GroupsOf(es), Collapsing(request));
    var p, j := EntryIsListed(es, e);
    assert GroupsOf(es).lists[p][j] in s.considered;
    var i :| 0 <= i < |s.considered| && s.considered[i] == e;
    assert Settled(s, i, Collapsing(request));
    forall d | d in s.considered || d in s.chosen ensures d in es {
      assert d in s.considered;
      var q :| 0 <= q < |GroupsOf(es).lists| && d in GroupsOf(es).lists[q];
      OfPageIs(es, PageOrder(es)[q]);
    }
    if LineagesTell(pool, f) {
      SettledExplained(pool, ranked, request, f, s, i);
    }
  }

  // ---- The selection as it is programmed ----

  /** The grouping loop: pages in order of first appearance, each with its passages in rank order. */
  method GroupByPage(pool: seq<Passage>, ranked: seq<(int, real)>, request: Request, f: Foreign)
    returns (pageOrder: seq<string>, perPage: map<string, seq<Entry>>)
    ensures var es := Entries(pool, ranked, request, f);
            && pageOrder == PageOrder(es) && perPage.Keys == set k | k in pageOrder
            && forall k | k in perPage :: perPage[k] == OfPage(es, k)
  {
    hide PageKey, ReturnText, Lineage, Entries, EntryOf, PageOrder, OfPage;
    pageOrder, perPage := [], map[];
    NothingRanked(pool, request, f);
    assert ranked[..0] == [];
    for r := 0 to |ranked|
      invariant pageOrder == PageOrder(Entries(pool, ranked[..r], request, f))
      invariant perPage.Keys == set k | k in pageOrder
      invariant forall k | k in perPage :: perPage[k] == OfPage(Entries(pool, ranked[..r], request, f), k)
    {
      assert ranked[..r + 1] == ranked[..r] + [ranked[r]];
      EntriesStep(pool, ranked[..r], ranked[r], request, f);
      var (at, score) := ranked[r];
      ghost var es := Entries(pool, ranked[..r], request, f);
      if 0 <= at < |pool| {
        var e := EntryOf(pool[at], r, at, score, request, f);
        AppendEntry(es, e);
        var key := e.page;
        if key !in perPage {
          perPage := perPage[key := []];
          pageOrder := pageOrder + [key];
        }
        perPage := perPage[key := perPage[key] + [e]];
      }
    }
    assert ranked[..|ranked|] == ranked;
  }

  lemma NothingRanked(pool: seq<Passage>, request: Request, f: Foreign)
    ensures Entries(pool, [], request, f) == [] && PageOrder([]) == []
  {
  }

  lemma EntriesStep(pool: seq<Passage>, ranked: seq<(int, real)>, last: (int, real), request: Request, f: Foreign)
    ensures Entries(pool, ranked + [last], request, f)
         == if 0 <= last.0 < |pool|
            then Entries(pool, ranked, request, f) + [EntryOf(pool[last.0], |ranked|, last.0, last.1, request, f)]
            else Entries(pool, ranked, request, f)
  {
    hide EntryOf;
    assert (ranked + [last])[..|ranked|] == ranked;
  }

  lemma AppendEntry(es: seq<Entry>, e: Entry)
    ensures PageOrder(es + [e]) == if e.page in PageOrder(es) then PageOrder(es) else PageOrder(es) + [e.page]
    ensures forall k :: OfPage(es + [e], k) == if e.page == k then OfPage(es, k) + [e] else OfPage(es, k)
    ensures e.page !in PageOrder(es) ==> OfPage(es, e.page) == []
  {
    assert (es + [e])[..|es|] == es;
    if e.page !in PageOrder(es) {
      NoneOfPage(es, e.page);
    }
  }

  class PageSelector {
    const pageOrder: seq<string>
    const perPage: map<string, seq<Entry>>
    const collapse: bool
    var cursor: map<string, nat>
    var seenText: set<string>
    var seenParents: set<string>
    ghost var considered: seq<Entry>

    ghost predicate Valid()
      reads this
    {
      && Distinct(pageOrder)
      && forall k | k in pageOrder :: k in perPage && k in cursor && cursor[k] <= |perPage[k]|
    }

    constructor (pageOrder: seq<string>, perPage: map<string, seq<Entry>>, collapse: bool)
      requires Distinct(pageOrder) && forall k | k in pageOrder :: k in perPage
      ensures Valid() && this.pageOrder == pageOrder && this.perPage == perPage && this.collapse == collapse
      ensures View([]) == Start(Grouping())
    {
      this.pageOrder, this.perPage, this.collapse := pageOrder, perPage, collapse;
      cursor := map k | k in pageOrder :: 0;
      seenText, seenParents, considered := {}, {}, [];
    }

    ghost function Grouping(): Groups
      requires forall k | k in pageOrder :: k in perPage
    {
      Groups(pageOrder, seq(|pageOrder|, p requires 0 <= p < |pageOrder| => perPage[pageOrder[p]]))
    }

    ghost function View(chosen: seq<Entry>): (s: State)
      requires Valid()
      reads this
      ensures Fits(Grouping(), s)
    {
      State(seq(|pageOrder|, p requires 0 <= p < |pageOrder| reads this requires Valid() => cursor[pageOrder[p]]),
            seenText, seenParents, chosen, considered)
    }

    /** Look at the page's next passage, which it has. */
    method LookAtNext(ghost p: nat, key: string, ghost chosen: seq<Entry>) returns (e: Entry, admissible: bool)
      requires Valid() && p < |pageOrder| && pageOrder[p] == key && cursor[key] < |perPage[key]|
      modifies this
      ensures Valid() && cursor == old(cursor)[key := old(cursor)[key] + 1]
      ensures View(if admissible then chosen + [e] else chosen) == Consider(Grouping(), old(View(chosen)), p, collapse)
    {
      e := perPage[key][cursor[key]];
      ghost var s := View(chosen);
      cursor := cursor[key := cursor[key] + 1];
      considered := considered + [e];
      admissible := true;
      if e.text != "" {
        if e.text in seenText {
          admissible := false;
        } else {
          seenText := seenText + {e.text};
        }
      }
      if admissible && collapse {
        if e.lineage in seenParents {
          admissible := false;
        } else {
          seenParents := seenParents + {e.lineage};
        }
      }
      ghost var v := Consider(Grouping(), s, p, collapse);
      assert View([]).cursor == v.cursor;
      assert seenText == v.texts;
    }

    method TakeNextAdmissible(ghost p: nat, key: string, ghost chosen: seq<Entry>) returns (taken: Option<Entry>)
      requires Valid() && p < |pageOrder| && pageOrder[p] == key
      modifies this
      ensures Valid()
      ensures View(if taken.Some? then chosen + [taken.value] else chosen)
           == Turn(Grouping(), old(View(chosen)), p, collapse)
    {
      hide Consider;
      while cursor[key] < |perPage[key]|
        invariant Valid()
        invariant Turn(Grouping(), View(chosen), p, collapse) == Turn(Grouping(), old(View(chosen)), p, collapse)
        decreases |perPage[key]| - cursor[key]
      {
        var e, admissible := LookAtNext(p, key, chosen);
        if admissible {
          return Some(e);
        }
      }
      return None;
    }

    /** One round: every page in turn, until `k` are selected. */
    method SelectRound(chosen: seq<Entry>, k: int) returns (selected: seq<Entry>)
      requires Valid() && |chosen| < k
      modifies this
      ensures Valid() && |chosen| <= |selected| <= k
      ensures var round := Round(Grouping(), old(View(chosen)), 0, collapse);
              selected <= round.chosen && (|selected| < k ==> View(selected) == round)
    {
      hide Turn;
      selected := chosen;
      ghost var g := Grouping();
      ghost var round := Round(g, View(chosen), 0, collapse);
      var p := 0;
      while p < |pageOrder| && |selected| < k
        invariant 0 <= p <= |pageOrder| && Valid() && |chosen| <= |selected| <= k
        invariant Round(g, View(selected), p, collapse) == round
      {
        RoundStep(g, View(selected), p, collapse);
        var taken := TakeNextAdmissible(p, pageOrder[p], selected);
        if taken.Some? {
          selected := selected + [taken.value];
        }
        p := p + 1;
      }
      RoundProgress(g, View(selected), p, collapse);
    }
  }

  /** `_select_ranked_candidates`. */
  method SelectRankedCandidates(pool: seq<Passage>, ranked: seq<(int, real)>, request: Request, f: Foreign, k: int)
    returns (selected: seq<Entry>)
    ensures selected == Select(pool, ranked, request, f, k)
  {
    hide Round, Rounds, Entries, PageOrder, OfPage;
    selected := [];
    if k <= 0 {
      return;
    }
    var collapse := Collapsing(request);
    var pageOrder, perPage := GroupByPage(pool, ranked, request, f);
    ghost var g := GroupsOf(Entries(pool, ranked, request, f));
    PageOrderIs(Entries(pool, ranked, request, f));
    var selector := new PageSelector(pageOrder, perPage, collapse);
    assert selector.Grouping() == g;
    ghost var all := Unlimited(g, collapse);
    while |selected| < k
      invariant selector.Valid() && selector.Grouping() == g && selector.collapse == collapse && |selected| < k
      invariant Rounds(g, selector.View(selected), collapse) == all
      decreases Left(g, selector.View(selected), 0)
    {
      RoundsFrom(g, selector.View(selected), collapse);
      RoundProgress(g, selector.View(selected), 0, collapse);
      var before := |selected|;
      selected := selector.SelectRound(selected, k);
      if |selected| == before {
        break;
      }
      if |selected| == k {
        assert selected <= all.chosen;
        return;
      }
    }
    assert selected == all.chosen;
  }

  lemma RoundStep(g: Groups, s: State, p: nat, collapse: bool)
    requires Fits(g, s) && p < |s.cursor|
    ensures Round(g, s, p, collapse) == Round(g, Turn(g, s, p, collapse), p + 1, collapse)
  {
    hide Turn;
  }

  /** What a selection without a limit goes on to choose, seen from the start of a round. */
  lemma RoundsFrom(g: Groups, s: State, collapse: bool)
    requires Fits(g, s)
    ensures var v := Round(g, s, 0, collapse);
            && v.chosen <= Rounds(g, s, collapse).chosen
            && Rounds(g, s, collapse) == (if |v.chosen| == |s.chosen| then v else Rounds(g, v, collapse))
  {
    hide Turn;
    RoundProgress(g, s, 0, collapse);
    if |Round(g, s, 0, collapse).chosen| != |s.chosen| {
      RoundsProgress(g, Round(g, s, 0, collapse), collapse);
    }
  }
}
