/**
 Deleting unusable pages (`scripts/cleanup_unusable_pages.py`): a dry run that counts, a write that
 deletes in batches, and the order in which a page's vectors, links and row go.
 */
module Cleanup {
  import opened Wrappers
  import opened Sequences

  /** A stored page; `oid` is the database's own id, `pid` the one vectors and links refer to. */
  datatype Page = Page(oid: nat, pid: Option<nat>, fields: string)

  /** A stored link of a page. */
  datatype Link = Link(id: nat, pid: nat)

  /** A labelled delete query. */
  datatype Step = Step(reason: string, query: Page -> bool)

  datatype Job = Job(steps: seq<Step>, isLocale: Page -> bool, limit: Option<nat>, batchSize: nat, skipLocale: bool,
                     deleteLinks: bool)

  predicate MatchesAny(steps: seq<Step>, p: Page) {
    exists i | 0 <= i < |steps| :: steps[i].query(p)
  }

  function Matching(pages: set<Page>, query: Page -> bool): set<Page> {
    set p | p in pages && query(p)
  }

  /** Rows some step takes. */
  function Fast(pages: set<Page>, steps: seq<Step>): set<Page> {
    set p | p in pages && MatchesAny(steps, p)
  }

  /** Rows only the locale scan takes: no step matches them. */
  function LocaleOnly(pages: set<Page>, job: Job): set<Page> {
    set p | p in pages && !MatchesAny(job.steps, p) && job.isLocale(p) && !job.skipLocale
  }

  predicate UniqueIds(pages: set<Page>) {
    forall p, q | p in pages && q in pages && p.oid == q.oid :: p == q
  }

  function Capped(n: nat, limit: Option<nat>): nat {
    if limit.Some? && limit.value < n then limit.value else n
  }

  /** Rows a write deletes, if nothing fails. */
  function WriteTotal(pages: set<Page>, job: Job): nat {
    Capped(|Fast(pages, job.steps)| + |LocaleOnly(pages, job)|, job.limit)
  }

  /** Rows a dry run announces: the step's count is not cut at the limit, the locale scan is. */
  function DryTotal(pages: set<Page>, job: Job): nat {
    var fast, locale := |Fast(pages, job.steps)|, |LocaleOnly(pages, job)|;
    if job.limit.Some? && job.limit.value <= fast then fast else Capped(fast + locale, job.limit)
  }

  /**
   A dry run announces what a write then deletes exactly when the steps alone do not match more rows than
   the limit; without a limit, always.
   */
  lemma DryRunAgrees(pages: set<Page>, job: Job)
    ensures DryTotal(pages, job) == WriteTotal(pages, job)
       <==> job.limit.None? || |Fast(pages, job.steps)| <= job.limit.value
    ensures WriteTotal(pages, job) <= DryTotal(pages, job)
    ensures job.limit.Some? ==> WriteTotal(pages, job) <= job.limit.value
  {
  }

  // ---- The stores ----

  /** The stores the script writes to. `working` calls succeed; then one fails, and the script stops. */
  class Stores {
    var pages: set<Page>
    var vectors: set<nat>
    var links: set<Link>
    var working: nat

    constructor (pages: set<Page>, vectors: set<nat>, links: set<Link>, working: nat)
      ensures this.pages == pages && this.vectors == vectors && this.links == links && this.working == working
    {
      this.pages, this.vectors, this.links, this.working := pages, vectors, links, working;
    }

    /** `find(query).limit(n)`. */
    method FindSome(query: Page -> bool, n: nat) returns (ok: bool, batch: seq<Page>)
      modifies this`working
      ensures ok <==> old(working) > 0
      ensures working == if ok then old(working) - 1 else 0
      ensures ok ==> Distinct(batch) && |batch| <= n && Elements(batch) <= Matching(pages, query)
      ensures ok && |batch| < n ==> Elements(batch) == Matching(pages, query)
    {
      batch := [];
      if working == 0 {
        return false, [];
      }
      working := working - 1;
      batch := ListSome(Matching(pages, query), n);
      ok := true;
    }

    /** One read that may fail: a count, or a cursor moving on. */
    method Read() returns (ok: bool)
      modifies this`working
      ensures ok <==> old(working) > 0
      ensures working == if ok then old(working) - 1 else 0
    {
      ok := working > 0;
      if ok {
        working := working - 1;
      }
    }

    /** One `delete_by_page_id`. */
    method DeleteVectors(pid: nat) returns (ok: bool)
      modifies this`vectors, this`working
      ensures ok ==> vectors == old(vectors) - {pid}
      ensures !ok ==> vectors == old(vectors)
      ensures ok <==> old(working) > 0
      ensures working == if ok then old(working) - 1 else 0
    {
      if working == 0 {
        return false;
      }
      working := working - 1;
      vectors := vectors - {pid};
      ok := true;
    }

    /** `delete_many` by `PageId`. */
    method DeleteLinks(pids: set<nat>) returns (ok: bool, n: nat)
      modifies this`links, this`working
      ensures ok ==> links == set l | l in old(links) && l.pid !in pids
      ensures !ok ==> links == old(links)
      ensures n + |links| == |old(links)|
      ensures ok <==> old(working) > 0
      ensures working == if ok then old(working) - 1 else 0
    {
      if working == 0 {
        return false, 0;
      }
      working := working - 1;
      var left := set l | l in links && l.pid !in pids;
      SubsetSize(left, links);
      n := |links| - |left|;
      links := left;
      ok := true;
    }

    /** `delete_many` by `_id`. One that fails may already have deleted some: those in `partial`. */
    method DeletePages(oids: set<nat>, partial: set<nat>) returns (ok: bool, n: nat)
      modifies this`pages, this`working
      ensures ok ==> pages == (set p | p in old(pages) && p.oid !in oids) && n == |old(pages)| - |pages|
      ensures !ok ==> pages == (set p | p in old(pages) && !(p.oid in oids && p.oid in partial)) && n == 0
      ensures ok <==> old(working) > 0
      ensures working == if ok then old(working) - 1 else 0
    {
      n := 0;
      if working == 0 {
        pages := set p | p in pages && !(p.oid in oids && p.oid in partial);
        return false, 0;
      }
      working := working - 1;
      var left := set p | p in pages && p.oid !in oids;
      SubsetSize(left, pages);
      n := |pages| - |left|;
      pages := left;
      ok := true;
    }
  }

  lemma SubsetSize<T>(a: set<T>, b: set<T>)
    requires a <= b
    ensures |b - a| == |b| - |a| && |a| <= |b|
  {
    assert b == a + (b - a);
  }

  lemma OneMoreListed(r: seq<Page>, p: Page)
    requires Distinct(r) && p !in Elements(r)
    ensures Distinct(r + [p]) && Elements(r + [p]) == Elements(r) + {p}
  {
    assert p !in r;
  }

  /** Up to `n` members of a set, in some order. */
  method ListSome(all: set<Page>, n: nat) returns (r: seq<Page>)
    ensures Distinct(r) && |r| <= n && Elements(r) <= all && (|r| < n ==> Elements(r) == all)
  {
    r := [];
    var todo := all;
    assert Elements(r) == {};
    while |r| < n && todo != {}
      invariant Distinct(r) && |r| <= n && Elements(r) + todo == all && Elements(r) !! todo
      decreases |todo|
    {
      hide Distinct, Elements;
      var p :| p in todo;
      OneMoreListed(r, p);
      r := r + [p];
      todo := todo - {p};
    }
  }

  /** The page ids that still have vectors, or links if those are to go too. */
  ghost function Attached(vectors: set<nat>, links: set<Link>, deleteLinks: bool): set<nat> {
    vectors + if deleteLinks then set l | l in links :: l.pid else {}
  }

  /** No page deleted since `start` still has anything attached. */
  ghost predicate NoOrphans(start: set<Page>, pages: set<Page>, attached: set<nat>) {
    pages <= start && forall p | p in start - pages && p.pid.Some? :: p.pid.value !in attached
  }

  // ---- What goes with a page ----

  /** What hangs on pages, and the count of those whose vectors went. */
  datatype Things = Things(vectors: set<nat>, links: set<Link>, purged: nat)

  ghost function Have(stores: Stores, counts: CleanupCounts): Things
    reads stores, counts
  {
    Things(stores.vectors, stores.links, counts.purgedVectorPages)
  }

  /** The pages that carry a page id, and their ids. */
  function Named(pages: set<Page>): set<Page> {
    set p | p in pages && p.pid.Some?
  }

  function Pids(pages: set<Page>): set<nat> {
    set p | p in Named(pages) :: p.pid.value
  }

  /** Exactly what hangs on `pids` is gone. */
  ghost predicate Rid(was: Things, now: Things, pids: set<nat>, deleteLinks: bool) {
    && now.vectors == was.vectors - pids
    && now.links == if deleteLinks then set l | l in was.links && l.pid !in pids else was.links
  }

  /** Nothing is gone but what hangs on `pids`, and no link unless links are to go. */
  ghost predicate Spared(was: Things, now: Things, pids: set<nat>, deleteLinks: bool) {
    && now.vectors <= was.vectors && was.vectors - now.vectors <= pids
    && now.links <= was.links && forall l | l in was.links - now.links :: deleteLinks && l.pid in pids
  }

  /** Rows a run may delete: none in a dry run. */
  function Picked(start: set<Page>, job: Job, write: bool): set<Page> {
    if write then Fast(start, job.steps) + LocaleOnly(start, job) else {}
  }

  /**
   From one moment to the next nothing was touched that hangs on no row picked for deletion; and unless a call
   failed in between, what is gone is exactly what hung on the rows that are.
   */
  ghost predicate Detached(was: Things, now: Things, pages0: set<Page>, pages1: set<Page>, ok: bool,
                           picked: set<Page>, deleteLinks: bool)
  {
    && Spared(was, now, Pids(picked), deleteLinks)
    && (ok ==>
          && pages1 <= pages0 && Rid(was, now, Pids(pages0 - pages1), deleteLinks)
          && now.purged == was.purged + |Named(pages0 - pages1)|)
  }

  lemma NothingDetached(was: Things, pages: set<Page>, picked: set<Page>, deleteLinks: bool)
    ensures Detached(was, was, pages, pages, true, picked, deleteLinks)
    ensures Detached(was, was, pages, pages, false, picked, deleteLinks)
  {
    assert pages - pages == {} && Named({}) == {} && Pids({}) == {};
    assert (set l | l in was.links && l.pid !in Pids({})) == was.links;
  }

  lemma SplitNamed(a: set<Page>, b: set<Page>)
    requires a !! b
    ensures Named(a + b) == Named(a) + Named(b) && |Named(a + b)| == |Named(a)| + |Named(b)|
    ensures Pids(a + b) == Pids(a) + Pids(b)
  {
    assert Named(a + b) == Named(a) + Named(b);
    forall n ensures n in Pids(a + b) <==> n in Pids(a) + Pids(b) {
      if n in Pids(a) {
        var p :| p in Named(a) && p.pid.value == n;
        assert p in Named(a + b);
      }
      if n in Pids(b) {
        var p :| p in Named(b) && p.pid.value == n;
        assert p in Named(a + b);
      }
    }
  }

  /** Two stretches, the first of which went through, make one. */
  lemma DetachedThen(t0: Things, t1: Things, t2: Things, p0: set<Page>, p1: set<Page>, p2: set<Page>, ok: bool,
                     picked: set<Page>, deleteLinks: bool)
    requires Detached(t0, t1, p0, p1, true, picked, deleteLinks)
    requires Detached(t1, t2, p1, p2, ok, picked, deleteLinks)
    ensures Detached(t0, t2, p0, p2, ok, picked, deleteLinks)
  {
    hide Named, Pids;
    if ok {
      assert p0 - p2 == (p0 - p1) + (p1 - p2);
      SplitNamed(p0 - p1, p1 - p2);
    }
  }

  /** A batch of picked rows that is deleted takes with it what hung on it. */
  lemma BatchDetached(was: Things, now: Things, p0: set<Page>, p1: set<Page>, ok: bool, batch: set<Page>,
                      picked: set<Page>, deleteLinks: bool)
    requires Spared(was, now, Pids(batch), deleteLinks) && batch <= picked && batch <= p0
    requires ok ==> Rid(was, now, Pids(batch), deleteLinks) && p1 == p0 - batch
                    && now.purged == was.purged + |Named(batch)|
    ensures Detached(was, now, p0, p1, ok, picked, deleteLinks)
  {
    hide Named;
    SplitNamed(batch, picked - batch);
    assert batch + (picked - batch) == picked;
    if ok {
      assert p0 - p1 == batch;
    }
  }

  class CleanupCounts {
    var scanned: nat
    var deletedPages: nat
    var wouldDelete: nat
    var deletedLinks: nat
    var purgedVectorPages: nat
    var byReason: map<string, nat>

    constructor ()
      ensures scanned == 0 && deletedPages == 0 && wouldDelete == 0 && deletedLinks == 0 && purgedVectorPages == 0
      ensures byReason == map[]
    {
      scanned, deletedPages, wouldDelete, deletedLinks, purgedVectorPages := 0, 0, 0, 0, 0;
      byReason := map[];
    }

    function BudgetUsed(): nat
      reads this
    {
      deletedPages + wouldDelete
    }

    predicate BudgetSpent(limit: Option<nat>)
      reads this
    {
      limit.Some? && BudgetUsed() >= limit.value
    }

    method Note(reason: string, n: nat)
      modifies this`byReason
      ensures byReason == Noted(old(byReason), reason, n) && byReason.Keys == old(byReason.Keys) + {reason}
    {
      byReason := byReason[reason := (if reason in byReason then byReason[reason] else 0) + n];
    }
  }

  // ---- The per-reason counts ----

  /** Every label of the report, once. */
  function Labels(job: Job): seq<string> {
    Dedup(seq(|job.steps|, i requires 0 <= i < |job.steps| => job.steps[i].reason) + ["locale"])
  }

  function Total(byReason: map<string, nat>, labels: seq<string>): nat {
    if labels == [] then 0
    else (if labels[0] in byReason then byReason[labels[0]] else 0) + Total(byReason, labels[1..])
  }

  /** The per-reason counts add up to `n`. */
  predicate AddsUp(byReason: map<string, nat>, job: Job, n: nat) {
    Total(byReason, Labels(job)) == n
  }

  function CountOf(byReason: map<string, nat>, reason: string): nat {
    if reason in byReason then byReason[reason] else 0
  }

  function Noted(byReason: map<string, nat>, reason: string, n: nat): map<string, nat> {
    byReason[reason := CountOf(byReason, reason) + n]
  }

  /** The label of the first step that takes a row, and the scan's label for one no step takes. */
  function FirstReason(steps: seq<Step>, p: Page): string {
    if steps == [] then "locale"
    else if steps[0].query(p) then steps[0].reason
    else FirstReason(steps[1..], p)
  }

  lemma {:induction false} FirstReasonIs(steps: seq<Step>, p: Page, i: nat)
    requires i <= |steps| && forall j | 0 <= j < i :: !steps[j].query(p)
    requires i < |steps| ==> steps[i].query(p)
    ensures FirstReason(steps, p) == if i < |steps| then steps[i].reason else "locale"
  {
    if i > 0 {
      FirstReasonIs(steps[1..], p, i - 1);
    }
  }

  function Under(gone: set<Page>, steps: seq<Step>, reason: string): set<Page> {
    set p | p in gone && FirstReason(steps, p) == reason
  }

  /** Every deleted row is counted once, under the first step that takes it. */
  ghost predicate Tally(byReason: map<string, nat>, steps: seq<Step>, gone: set<Page>) {
    forall reason :: CountOf(byReason, reason) == |Under(gone, steps, reason)|
  }

  /** The rows deleted between two moments. */
  function Deleted(start: set<Page>, pages: set<Page>): set<Page> {
    start - pages
  }

  ghost predicate Tallied(byReason: map<string, nat>, steps: seq<Step>, start: set<Page>, pages: set<Page>) {
    Tally(byReason, steps, start - pages)
  }

  lemma UnderMore(steps: seq<Step>, gone: set<Page>, batch: set<Page>, reason: string, r: string)
    requires gone !! batch && forall p | p in batch :: FirstReason(steps, p) == reason
    ensures |Under(gone + batch, steps, r)| == |Under(gone, steps, r)| + if r == reason then |batch| else 0
  {
    hide FirstReason;
    var more := if r == reason then batch else {};
    assert Under(gone + batch, steps, r) == Under(gone, steps, r) + more;
    assert Under(gone, steps, r) !! more;
  }

  lemma NoteTally(byReason: map<string, nat>, steps: seq<Step>, gone: set<Page>, reason: string, batch: set<Page>)
    requires Tally(byReason, steps, gone) && gone !! batch
    requires forall p | p in batch :: FirstReason(steps, p) == reason
    ensures Tally(Noted(byReason, reason, |batch|), steps, gone + batch)
  {
    hide FirstReason, Under;
    var noted := Noted(byReason, reason, |batch|);
    forall r ensures CountOf(noted, r) == |Under(gone + batch, steps, r)| {
      UnderMore(steps, gone, batch, reason, r);
    }
  }

  lemma NothingTallied(steps: seq<Step>, start: set<Page>)
    ensures Tallied(map[], steps, start, start)
  {
    hide FirstReason;
    assert start - start == {};
    assert forall r :: Under({}, steps, r) == {};
  }

  function Known(gone: set<Page>, steps: seq<Step>, labels: seq<string>): set<Page> {
    set p | p in gone && FirstReason(steps, p) in labels
  }

  lemma KnownMore(gone: set<Page>, steps: seq<Step>, labels: seq<string>)
    requires labels != [] && Distinct(labels)
    ensures |Known(gone, steps, labels)| == |Under(gone, steps, labels[0])| + |Known(gone, steps, labels[1..])|
    ensures Distinct(labels[1..])
  {
    hide FirstReason;
    var a, b := Under(gone, steps, labels[0]), Known(gone, steps, labels[1..]);
    assert labels[0] !in labels[1..];
    assert Known(gone, steps, labels) == a + b && a !! b;
  }

  lemma {:induction false} TallyTotal(byReason: map<string, nat>, steps: seq<Step>, gone: set<Page>,
                                      labels: seq<string>)
    requires Tally(byReason, steps, gone) && Distinct(labels)
    ensures Total(byReason, labels) == |Known(gone, steps, labels)|
  {
    hide FirstReason, Under, Distinct;
    if labels == [] {
      assert Known(gone, steps, labels) == {};
    } else {
      KnownMore(gone, steps, labels);
      TallyTotal(byReason, steps, gone, labels[1..]);
      assert CountOf(byReason, labels[0]) == |Under(gone, steps, labels[0])|;
    }
  }

  lemma {:induction false} FirstReasonListed(steps: seq<Step>, p: Page)
    ensures FirstReason(steps, p) == "locale" || exists i | 0 <= i < |steps| :: steps[i].reason == FirstReason(steps, p)
  {
    if steps != [] && !steps[0].query(p) {
      FirstReasonListed(steps[1..], p);
      if FirstReason(steps, p) != "locale" {
        var i :| 0 <= i < |steps[1..]| && steps[1..][i].reason == FirstReason(steps[1..], p);
        assert steps[i + 1].reason == FirstReason(steps, p);
      }
    } else if steps != [] {
      assert steps[0].reason == FirstReason(steps, p);
    }
  }

  lemma TallyAddsUp(byReason: map<string, nat>, job: Job, start: set<Page>, pages: set<Page>)
    requires Tallied(byReason, job.steps, start, pages)
    ensures Tally(byReason, job.steps, Deleted(start, pages)) && AddsUp(byReason, job, |Deleted(start, pages)|)
  {
    var gone := start - pages;
    hide FirstReason, Tally, Labels, Total;
    LabelsHave(job);
    TallyTotal(byReason, job.steps, gone, Labels(job));
    forall p | p in gone ensures FirstReason(job.steps, p) in Labels(job) {
      FirstReasonListed(job.steps, p);
    }
    assert Known(gone, job.steps, Labels(job)) == gone;
  }

  /** Rows matched by the steps of one label, a row counted by each that matches it. */
  function MatchedUnder(pages: set<Page>, steps: seq<Step>, reason: string): nat {
    if steps == [] then 0
    else
      var front, last := steps[..|steps| - 1], steps[|steps| - 1];
      MatchedUnder(pages, front, reason) + if last.reason == reason then |Matching(pages, last.query)| else 0
  }

  lemma MatchedStep(pages: set<Page>, steps: seq<Step>, i: nat, reason: string)
    requires i < |steps|
    ensures MatchedUnder(pages, steps[..i + 1], reason)
         == MatchedUnder(pages, steps[..i], reason)
            + if steps[i].reason == reason then |Matching(pages, steps[i].query)| else 0
  {
    assert steps[..i + 1][..i] == steps[..i];
  }

  /** The locale scan's label is noted with its first row. */
  function NotedLocale(byReason: map<string, nat>, n: nat): map<string, nat> {
    if n == 0 then byReason else Noted(byReason, "locale", n)
  }

  lemma OneMoreLocale(byReason: map<string, nat>, n: nat)
    ensures Noted(NotedLocale(byReason, n), "locale", 1) == NotedLocale(byReason, n + 1)
  {
  }

  lemma LabelsHave(job: Job)
    ensures Distinct(Labels(job)) && "locale" in Labels(job)
    ensures forall i | 0 <= i < |job.steps| :: job.steps[i].reason in Labels(job)
  {
    var all := seq(|job.steps|, i requires 0 <= i < |job.steps| => job.steps[i].reason) + ["locale"];
    DedupKeeps(all);
    assert all[|job.steps|] == "locale";
    forall i | 0 <= i < |job.steps| ensures job.steps[i].reason in all {
      assert all[i] == job.steps[i].reason;
    }
  }

  function PageIds(docs: seq<Page>): seq<nat>
    decreases |docs|
  {
    if docs == [] then []
    else
      var front, last := PageIds(docs[..|docs| - 1]), docs[|docs| - 1];
      if last.pid.Some? then front + [last.pid.value] else front
  }

  lemma {:induction false} PageIdsHas(docs: seq<Page>, p: Page)
    requires p in docs && p.pid.Some?
    ensures p.pid.value in PageIds(docs)
    decreases |docs|
  {
    var front := docs[..|docs| - 1];
    assert docs == front + [docs[|docs| - 1]];
    if p in front {
      PageIdsHas(front, p);
    }
  }

  lemma NamedOne(last: Page)
    ensures Named({last}) == if last.pid.Some? then {last} else {}
    ensures Pids({last}) == if last.pid.Some? then {last.pid.value} else {}
  {
    if last.pid.Some? {
      assert last in Named({last});
    }
  }

  lemma OneMoreRow(docs: seq<Page>)
    requires Distinct(docs) && docs != []
    ensures var front, last := docs[..|docs| - 1], docs[|docs| - 1];
            Distinct(front) && last !in Elements(front) && Elements(docs) == Elements(front) + {last}
  {
    assert docs == docs[..|docs| - 1] + [docs[|docs| - 1]];
  }

  /** The page ids are those of the rows, one for each row that carries one. */
  lemma {:induction false} PageIdsAre(docs: seq<Page>)
    requires Distinct(docs)
    ensures Elements(PageIds(docs)) == Pids(Elements(docs)) && |PageIds(docs)| == |Named(Elements(docs))|
    decreases |docs|
  {
    if docs == [] {
      assert Elements(docs) == {} && Named({}) == {} && Pids({}) == {};
    } else {
      var front, last := docs[..|docs| - 1], docs[|docs| - 1];
      OneMoreRow(docs);
      PageIdsAre(front);
      SplitNamed(Elements(front), {last});
      NamedOne(last);
      hide Named, Pids, Distinct, Elements;
      if last.pid.Some? {
        ElementsAppend(PageIds(front), last.pid.value);
      }
    }
  }

  lemma ElementsAppend(s: seq<nat>, n: nat)
    ensures Elements(s + [n]) == Elements(s) + {n}
  {
  }

  /** `_purge_vectors`: every page's points, one call a page; a call that fails stops it. */
  method PurgeVectors(stores: Stores, counts: CleanupCounts, pids: seq<nat>) returns (ok: bool)
    modifies stores`vectors, stores`working, counts`purgedVectorPages
    ensures stores.vectors <= old(stores.vectors) && old(stores.vectors) - stores.vectors <= Elements(pids)
    ensures ok <==> old(stores.working) >= |pids|
    ensures ok ==> stores.working == old(stores.working) - |pids|
    ensures ok ==> stores.vectors == old(stores.vectors) - Elements(pids)
    ensures ok ==> counts.purgedVectorPages == old(counts.purgedVectorPages) + |pids|
    ensures !ok ==> stores.working == 0
  {
    for i := 0 to |pids|
      invariant stores.vectors == old(stores.vectors) - Elements(pids[..i]) && stores.working == old(stores.working) - i
      invariant counts.purgedVectorPages == old(counts.purgedVectorPages)
    {
      assert forall n | n in Elements(pids[..i]) :: n in Elements(pids);
      var done := stores.DeleteVectors(pids[i]);
      if !done {
        return false;
      }
      assert Elements(pids[..i + 1]) == Elements(pids[..i]) + {pids[i]};
    }
    assert pids[..|pids|] == pids;
    counts.purgedVectorPages := counts.purgedVectorPages + |pids|;
    ok := true;
  }

  /** What goes before the rows: the pages' vectors, and their links if those are to go. */
  method Detach(stores: Stores, counts: CleanupCounts, pids: seq<nat>, deleteLinks: bool) returns (ok: bool)
    modifies stores`vectors, stores`links, stores`working, counts`purgedVectorPages, counts`deletedLinks
    ensures Attached(stores.vectors, stores.links, deleteLinks)
         <= old(Attached(stores.vectors, stores.links, deleteLinks)) - (if ok then Elements(pids) else {})
    ensures ok ==> Rid(old(Have(stores, counts)), Have(stores, counts), Elements(pids), deleteLinks)
    ensures Spared(old(Have(stores, counts)), Have(stores, counts), Elements(pids), deleteLinks)
    ensures ok ==> counts.purgedVectorPages == old(counts.purgedVectorPages) + |pids|
    ensures counts.deletedLinks + |stores.links| == old(counts.deletedLinks) + |old(stores.links)|
    ensures ok <==> old(stores.working) >= DetachCalls(pids, deleteLinks)
    ensures ok ==> stores.working == old(stores.working) - DetachCalls(pids, deleteLinks)
    ensures !ok ==> stores.working == 0
  {
    ok := PurgeVectors(stores, counts, pids);
    if ok && deleteLinks && pids != [] {
      var n;
      ok, n := stores.DeleteLinks(Elements(pids));
      counts.deletedLinks := counts.deletedLinks + n;
    }
  }

  /** What detaching pages takes: a call a page for their vectors, and one for their links. */
  function DetachCalls(pids: seq<nat>, deleteLinks: bool): nat {
    |pids| + if deleteLinks && pids != [] then 1 else 0
  }

  /** What deleting `docs` takes. */
  function DeleteCalls(docs: seq<Page>, deleteLinks: bool): nat {
    if docs == [] then 0 else DetachCalls(PageIds(docs), deleteLinks) + 1
  }

  lemma {:induction false} PageIdsAreFew(docs: seq<Page>)
    ensures |PageIds(docs)| <= |docs|
    decreases |docs|
  {
    if docs != [] {
      PageIdsAreFew(docs[..|docs| - 1]);
    }
  }

  lemma DeleteCallsBound(docs: seq<Page>, deleteLinks: bool)
    ensures DeleteCalls(docs, deleteLinks) <= 3 * |docs|
  {
    hide PageIds;
    PageIdsAreFew(docs);
  }

  /** Of `before` working calls `after` are left, and no more than `calls` were made, a failing one included. */
  predicate Within(before: nat, after: nat, ok: bool, calls: nat) {
    if ok then before <= after + calls else before < calls
  }

  /** `_delete_ids`: vectors, then links, then rows. */
  method DeleteIds(stores: Stores, counts: CleanupCounts, docs: seq<Page>, write: bool, deleteLinks: bool,
                   partial: set<nat>, ghost start: set<Page>) returns (ok: bool)
    requires Distinct(docs) && Elements(docs) <= stores.pages && UniqueIds(stores.pages)
    requires NoOrphans(start, stores.pages, Attached(stores.vectors, stores.links, deleteLinks))
    modifies stores, counts
    ensures NoOrphans(start, stores.pages, Attached(stores.vectors, stores.links, deleteLinks))
    ensures stores.pages <= old(stores.pages)
    ensures counts.scanned == old(counts.scanned) && counts.byReason == old(counts.byReason)
    ensures !write ==> ok && stores.pages == old(stores.pages) && stores.vectors == old(stores.vectors)
                       && stores.links == old(stores.links) && stores.working == old(stores.working)
                       && counts.wouldDelete == old(counts.wouldDelete) + |docs|
                       && counts.deletedPages == old(counts.deletedPages)
    ensures write ==> counts.wouldDelete == old(counts.wouldDelete)
    ensures write && ok ==> stores.pages == old(stores.pages) - Elements(docs)
                            && counts.deletedPages == old(counts.deletedPages) + |docs|
    ensures write && !ok ==> counts.deletedPages == old(counts.deletedPages)
    ensures write && ok ==> Rid(old(Have(stores, counts)), Have(stores, counts), Pids(Elements(docs)), deleteLinks)
    ensures Spared(old(Have(stores, counts)), Have(stores, counts), Pids(Elements(docs)), deleteLinks)
    ensures write && ok ==>
              counts.purgedVectorPages == old(counts.purgedVectorPages) + |Named(Elements(docs))|
    ensures !write ==> Have(stores, counts) == old(Have(stores, counts))
    ensures counts.deletedLinks + |stores.links| == old(counts.deletedLinks) + |old(stores.links)|
    ensures write ==> (ok <==> old(stores.working) >= DeleteCalls(docs, deleteLinks))
    ensures write && ok ==> stores.working == old(stores.working) - DeleteCalls(docs, deleteLinks)
    ensures !ok ==> stores.working == 0
  {
    hide NoOrphans, UniqueIds, Attached, Pids, Named, Rid, Spared, Distinct;
    PageIdsAre(docs);
    SparedItself(Have(stores, counts), docs, deleteLinks);
    ghost var attached0, pages0 := Attached(stores.vectors, stores.links, deleteLinks), stores.pages;
    ok := true;
    if docs == [] {
      assert Elements(docs) == {};
      return;
    }
    if !write {
      counts.wouldDelete := counts.wouldDelete + |docs|;
      return;
    }
    var pids := PageIds(docs);
    ok := Detach(stores, counts, pids, deleteLinks);
    ghost var attached1 := Attached(stores.vectors, stores.links, deleteLinks);
    StillNoOrphans(start, pages0, attached0, pages0, attached1, docs);
    if !ok {
      return;
    }
    ok := DeleteRows(stores, counts, docs, partial);
    StillNoOrphans(start, pages0, attached0, stores.pages, attached1, docs);
  }

  lemma SparedItself(was: Things, docs: seq<Page>, deleteLinks: bool)
    ensures Spared(was, was, Pids(Elements(docs)), deleteLinks)
    ensures docs == [] ==> Rid(was, was, Pids(Elements(docs)), deleteLinks) && |Named(Elements(docs))| == 0
  {
    if docs == [] {
      assert Named(Elements(docs)) == {} && Pids(Elements(docs)) == {};
    }
  }

  method DeleteRows(stores: Stores, counts: CleanupCounts, docs: seq<Page>, partial: set<nat>) returns (ok: bool)
    requires Distinct(docs) && Elements(docs) <= stores.pages && UniqueIds(stores.pages)
    modifies stores`pages, stores`working, counts`deletedPages
    ensures stores.pages <= old(stores.pages) && old(stores.pages) - stores.pages <= Elements(docs)
    ensures ok ==> stores.pages == old(stores.pages) - Elements(docs)
    ensures counts.deletedPages == old(counts.deletedPages) + if ok then |docs| else 0
    ensures ok <==> old(stores.working) > 0
    ensures ok ==> stores.working == old(stores.working) - 1
    ensures !ok ==> stores.working == 0
  {
    hide UniqueIds, Distinct;
    RowsOf(stores.pages, docs);
    SubsetSize(Elements(docs), stores.pages);
    DistinctSize(docs);
    var n;
    ok, n := stores.DeletePages(set p | p in docs :: p.oid, partial);
    assert ok ==> stores.pages == old(stores.pages) - Elements(docs);
    counts.deletedPages := counts.deletedPages + n;
  }

  lemma RowsOf(pages: set<Page>, docs: seq<Page>)
    requires UniqueIds(pages) && Elements(docs) <= pages
    ensures var oids := set p | p in docs :: p.oid; forall p | p in pages :: p.oid in oids <==> p in Elements(docs)
  {
    assert forall p | p in docs :: p in Elements(docs);
  }

  /** Rows may go once their vectors are gone. */
  lemma StillNoOrphans(start: set<Page>, pages: set<Page>, vectors: set<nat>, pages1: set<Page>, vectors1: set<nat>,
                       docs: seq<Page>)
    requires NoOrphans(start, pages, vectors) && pages1 <= pages && vectors1 <= vectors
    requires pages1 == pages || (pages - pages1 <= Elements(docs) && vectors1 <= vectors - Elements(PageIds(docs)))
    ensures NoOrphans(start, pages1, vectors1)
  {
    forall p | p in start - pages1 && p.pid.Some? ensures p.pid.value !in vectors1 {
      if p in pages {
        assert p in Elements(docs);
        PageIdsHas(docs, p);
      }
    }
  }

  // ---- Deleting ----

  /** `n` rows are gone since `start`, all of them rows that were to go. */
  ghost predicate Gone(start: set<Page>, pages: set<Page>, doomed: set<Page>, n: nat) {
    pages <= start && start - pages <= doomed && n == |start - pages|
  }

  lemma MoreGone(start: set<Page>, pages: set<Page>, batch: set<Page>, doomed: set<Page>, n: nat)
    requires Gone(start, pages, doomed, n) && batch <= pages && batch <= doomed
    ensures Gone(start, pages - batch, doomed, n + |batch|)
  {
    assert start - (pages - batch) == (start - pages) + batch;
  }

  /** What every write step keeps: vectors went first, the count is right, the limit holds. */
  ghost predicate Sound(pages: set<Page>, vectors: set<nat>, deleted: nat, job: Job, start: set<Page>) {
    && UniqueIds(start) && NoOrphans(start, pages, vectors)
    && Gone(start, pages, Fast(start, job.steps) + LocaleOnly(start, job), deleted)
    && (job.limit.Some? ==> deleted <= job.limit.value)
  }

  ghost function Held(stores: Stores, job: Job): set<nat>
    reads stores
  {
    Attached(stores.vectors, stores.links, job.deleteLinks)
  }

  ghost predicate SoundNow(stores: Stores, counts: CleanupCounts, job: Job, start: set<Page>)
    reads stores, counts
  {
    Sound(stores.pages, Held(stores, job), counts.deletedPages, job, start)
  }

  /** One batch of a write. */
  method DeleteBatch(stores: Stores, counts: CleanupCounts, job: Job, batch: seq<Page>, partial: set<nat>,
                     ghost start: set<Page>, ghost doomed: set<Page>)
    returns (ok: bool)
    requires SoundNow(stores, counts, job, start) && start - stores.pages <= doomed
    requires doomed <= Fast(start, job.steps) + LocaleOnly(start, job)
    requires Distinct(batch) && Elements(batch) <= stores.pages && Elements(batch) <= doomed
    requires job.limit.Some? ==> counts.deletedPages + |batch| <= job.limit.value
    modifies stores, counts
    ensures NoOrphans(start, stores.pages, Held(stores, job))
    ensures stores.pages <= old(stores.pages)
    ensures ok ==> SoundNow(stores, counts, job, start) && start - stores.pages <= doomed
    ensures ok ==> stores.pages == old(stores.pages) - Elements(batch)
    ensures ok ==> counts.deletedPages == old(counts.deletedPages) + |batch| && |Elements(batch)| == |batch|
    ensures counts.byReason == old(counts.byReason) && counts.wouldDelete == old(counts.wouldDelete)
    ensures counts.deletedLinks + |stores.links| == old(counts.deletedLinks) + |old(stores.links)|
    ensures Detached(old(Have(stores, counts)), Have(stores, counts), old(stores.pages), stores.pages, ok,
                     Picked(start, job, true), job.deleteLinks)
    ensures Within(old(stores.working), stores.working, ok, 3 * |batch|)
    ensures !ok ==> stores.working == 0
  {
    hide Fast, LocaleOnly, Attached, Detached, Pids, Named, Rid, Spared;
    ghost var was, pages0 := Have(stores, counts), stores.pages;
    MoreGone(start, stores.pages, Elements(batch), Fast(start, job.steps) + LocaleOnly(start, job),
             counts.deletedPages);
    DistinctSize(batch);
    DeleteCallsBound(batch, job.deleteLinks);
    ok := DeleteIds(stores, counts, batch, true, job.deleteLinks, partial, start);
    BatchDetached(was, Have(stores, counts), pages0, stores.pages, ok, Elements(batch), Picked(start, job, true),
                  job.deleteLinks);
  }

  /** How many rows the next batch may take. */
  function Affordable(job: Job, used: nat): (n: nat)
    requires job.batchSize > 0 && (job.limit.Some? ==> used < job.limit.value)
    ensures 0 < n <= job.batchSize && (job.limit.Some? ==> used + n <= job.limit.value)
  {
    if job.limit.Some? && job.limit.value - used < job.batchSize then job.limit.value - used else job.batchSize
  }

  lemma NoElements()
    ensures Elements<Page>([]) == {}
  {
  }

  /** One batch of a step; `more` is false when nothing matches any longer. */
  method StepBatch(stores: Stores, counts: CleanupCounts, job: Job, i: nat, partial: set<nat>, ghost start: set<Page>)
    returns (ok: bool, more: bool)
    requires i < |job.steps| && job.batchSize > 0 && counts.wouldDelete == 0 && !counts.BudgetSpent(job.limit)
    requires SoundNow(stores, counts, job, start) && start - stores.pages <= Fast(start, job.steps)
    requires Cleared(stores.pages, job.steps, i)
    requires job.steps[i].reason in counts.byReason && Tallied(counts.byReason, job.steps, start, stores.pages)
    modifies stores, counts
    ensures NoOrphans(start, stores.pages, Held(stores, job)) && stores.pages <= old(stores.pages)
    ensures ok ==> SoundNow(stores, counts, job, start) && start - stores.pages <= Fast(start, job.steps)
    ensures ok && !more ==> Matching(stores.pages, job.steps[i].query) == {}
    ensures ok && more ==> |stores.pages| < |old(stores.pages)|
    ensures counts.deletedLinks + |stores.links| == old(counts.deletedLinks) + |old(stores.links)|
    ensures counts.wouldDelete == 0 && (ok ==> counts.byReason.Keys == old(counts.byReason).Keys)
    ensures ok ==> Tallied(counts.byReason, job.steps, start, stores.pages)
    ensures Detached(old(Have(stores, counts)), Have(stores, counts), old(stores.pages), stores.pages, ok,
                     Picked(start, job, true), job.deleteLinks)
    ensures ok ==> old(stores.working) + 4 * |stores.pages|
                   <= stores.working + 4 * |old(stores.pages)| + if more then 0 else 1
    ensures !ok ==> stores.working == 0 && old(stores.working) < 4 * |old(stores.pages)| + 1
  {
    hide Tallied, Gone, NoOrphans, Fast, Matching, Attached, Sound, Distinct, Elements, Affordable, Detached, Cleared,
      Picked, Noted;
    NothingDetached(Have(stores, counts), stores.pages, Picked(start, job, true), job.deleteLinks);
    SoundWithin(stores.pages, Held(stores, job), counts.deletedPages, job, start);
    NoElements();
    var take := Affordable(job, counts.BudgetUsed());
    var batch;
    ok, batch := stores.FindSome(job.steps[i].query, take);
    more := batch != [];
    if !ok || !more {
      return;
    }
    counts.scanned := counts.scanned + |batch|;
    StepRows(start, stores.pages, job, i, Elements(batch));
    StepTally(counts.byReason, job, start, stores.pages, i, Elements(batch));
    counts.Note(job.steps[i].reason, |batch|);
    SubsetSize(Elements(batch), stores.pages);
    DistinctSize(batch);
    ok := DeleteBatch(stores, counts, job, batch, partial, start, Fast(start, job.steps));
  }

  /** One step of a write: batches until nothing matches or the limit is spent. */
  method RunStep(stores: Stores, counts: CleanupCounts, job: Job, i: nat, partial: set<nat>, ghost start: set<Page>)
    returns (ok: bool)
    requires i < |job.steps| && job.batchSize > 0 && counts.wouldDelete == 0
    requires SoundNow(stores, counts, job, start) && start - stores.pages <= Fast(start, job.steps)
    requires counts.BudgetSpent(job.limit) || Cleared(stores.pages, job.steps, i)
    requires Tallied(counts.byReason, job.steps, start, stores.pages)
    modifies stores, counts
    ensures NoOrphans(start, stores.pages, Held(stores, job)) && stores.pages <= old(stores.pages)
    ensures ok ==> SoundNow(stores, counts, job, start) && start - stores.pages <= Fast(start, job.steps)
    ensures ok ==> counts.BudgetSpent(job.limit) || Matching(stores.pages, job.steps[i].query) == {}
    ensures ok && old(counts.BudgetSpent(job.limit)) ==> counts.BudgetSpent(job.limit)
    ensures counts.deletedLinks + |stores.links| == old(counts.deletedLinks) + |old(stores.links)|
    ensures counts.wouldDelete == 0
    ensures ok ==> counts.byReason.Keys == old(counts.byReason).Keys + {job.steps[i].reason}
    ensures ok ==> Tallied(counts.byReason, job.steps, start, stores.pages)
    ensures Detached(old(Have(stores, counts)), Have(stores, counts), old(stores.pages), stores.pages, ok,
                     Picked(start, job, true), job.deleteLinks)
    ensures ok ==> old(stores.working) + 4 * |stores.pages| <= stores.working + 4 * |old(stores.pages)| + 1
    ensures !ok ==> stores.working == 0 && old(stores.working) < 4 * |old(stores.pages)| + 1
  {
    hide Tallied, Gone, NoOrphans, Fast, LocaleOnly, Matching, MatchesAny, UniqueIds, Attached, Sound, Detached, Picked,
      Cleared, Noted;
    SoundWithin(stores.pages, Held(stores, job), counts.deletedPages, job, start);
    ghost var was, pages0 := Have(stores, counts), stores.pages;
    NothingDetached(was, pages0, Picked(start, job, true), job.deleteLinks);
    NothingMore(counts.byReason, job.steps, start, stores.pages, job.steps[i].reason);
    counts.Note(job.steps[i].reason, 0);
    assert Have(stores, counts) == was;
    while !counts.BudgetSpent(job.limit)
      invariant SoundNow(stores, counts, job, start) && stores.pages <= old(stores.pages)
      invariant NoOrphans(start, stores.pages, Held(stores, job))
      invariant counts.wouldDelete == 0 && Tallied(counts.byReason, job.steps, start, stores.pages)
      invariant counts.BudgetSpent(job.limit) || Cleared(stores.pages, job.steps, i)
      invariant Detached(was, Have(stores, counts), pages0, stores.pages, true, Picked(start, job, true),
                         job.deleteLinks)
      invariant counts.deletedLinks + |stores.links| == old(counts.deletedLinks) + |old(stores.links)|
      invariant start - stores.pages <= Fast(start, job.steps)
      invariant old(stores.working) + 4 * |stores.pages| <= stores.working + 4 * |old(stores.pages)|
      invariant counts.byReason.Keys == old(counts.byReason).Keys + {job.steps[i].reason}
      invariant old(counts.BudgetSpent(job.limit)) ==> counts.BudgetSpent(job.limit)
      decreases |stores.pages|
    {
      var more;
      ghost var had, pages1 := Have(stores, counts), stores.pages;
      ok, more := StepBatch(stores, counts, job, i, partial, start);
      DetachedThen(was, had, Have(stores, counts), pages0, pages1, stores.pages, ok, Picked(start, job, true),
                   job.deleteLinks);
      FewerCleared(pages1, stores.pages, job.steps, i);
      if !ok || !more {
        return;
      }
    }
    ok := true;
  }

  lemma SoundWithin(pages: set<Page>, vectors: set<nat>, deleted: nat, job: Job, start: set<Page>)
    requires Sound(pages, vectors, deleted, job, start)
    ensures pages <= start && NoOrphans(start, pages, vectors)
    ensures Cleared(pages, job.steps, 0)
  {
  }

  lemma StepRows(start: set<Page>, pages: set<Page>, job: Job, i: nat, batch: set<Page>)
    requires i < |job.steps| && pages <= start && batch <= Matching(pages, job.steps[i].query)
    ensures batch <= pages && batch <= Fast(start, job.steps)
  {
  }

  /** Rows no earlier step takes are counted under the step that deletes them. */
  lemma StepTally(byReason: map<string, nat>, job: Job, start: set<Page>, pages: set<Page>, i: nat, batch: set<Page>)
    requires i < |job.steps| && pages <= start && Tallied(byReason, job.steps, start, pages)
    requires batch <= Matching(pages, job.steps[i].query) && Cleared(pages, job.steps, i)
    ensures Tallied(Noted(byReason, job.steps[i].reason, |batch|), job.steps, start, pages - batch)
  {
    hide Tally, Noted;
    forall p | p in batch ensures FirstReason(job.steps, p) == job.steps[i].reason {
      FirstReasonIs(job.steps, p, i);
    }
    NoteTally(byReason, job.steps, start - pages, job.steps[i].reason, batch);
    assert start - (pages - batch) == (start - pages) + batch;
  }

  lemma NothingMore(byReason: map<string, nat>, steps: seq<Step>, start: set<Page>, pages: set<Page>, reason: string)
    requires Tallied(byReason, steps, start, pages)
    ensures Tallied(Noted(byReason, reason, 0), steps, start, pages)
  {
    hide Tally, Noted;
    NoteTally(byReason, steps, start - pages, reason, {});
    assert start - pages + {} == start - pages;
  }

  lemma FewerCleared(before: set<Page>, pages: set<Page>, steps: seq<Step>, n: nat)
    requires n <= |steps| && pages <= before
    ensures Cleared(before, steps, n) ==> Cleared(pages, steps, n)
  {
  }

  /** No row the first `n` steps take is left. */
  predicate Cleared(pages: set<Page>, steps: seq<Step>, n: nat)
    requires n <= |steps|
  {
    forall p, i | p in pages && 0 <= i < n :: !steps[i].query(p)
  }

  function Reasons(steps: seq<Step>): set<string> {
    set i | 0 <= i < |steps| :: steps[i].reason
  }

  /** `_run_fast_steps` of a write. */
  method WriteSteps(stores: Stores, counts: CleanupCounts, job: Job, partial: set<nat>, ghost start: set<Page>)
    returns (ok: bool)
    requires job.batchSize > 0 && SoundNow(stores, counts, job, start)
    requires stores.pages == start && counts.byReason == map[] && counts.wouldDelete == 0 && counts.deletedPages == 0
    modifies stores, counts
    ensures NoOrphans(start, stores.pages, Held(stores, job))
    ensures ok ==> SoundNow(stores, counts, job, start) && start - stores.pages <= Fast(start, job.steps)
    ensures ok ==> counts.BudgetSpent(job.limit) || Cleared(stores.pages, job.steps, |job.steps|)
    ensures counts.deletedLinks + |stores.links| == old(counts.deletedLinks) + |old(stores.links)|
    ensures counts.wouldDelete == 0
    ensures ok ==> counts.byReason.Keys == Reasons(job.steps)
    ensures ok ==> Tallied(counts.byReason, job.steps, start, stores.pages)
    ensures Detached(old(Have(stores, counts)), Have(stores, counts), old(stores.pages), stores.pages, ok,
                     Picked(start, job, true), job.deleteLinks)
    ensures ok ==> old(stores.working) + 4 * |stores.pages| <= stores.working + 4 * |start| + |job.steps|
    ensures !ok ==> stores.working == 0 && old(stores.working) < 4 * |start| + |job.steps|
  {
    hide Tallied, Sound, Gone, Cleared, Reasons, NoOrphans, Fast, Matching, CleanupCounts.BudgetSpent, Attached,
      Detached, Picked, Have, Held;
    assert NoOrphans(start, stores.pages, Held(stores, job)) && Cleared(stores.pages, job.steps, 0) by {
      SoundWithin(stores.pages, Held(stores, job), counts.deletedPages, job, start);
    }
    NothingTallied(job.steps, start);
    ghost var was := Have(stores, counts);
    NothingDetached(was, start, Picked(start, job, true), job.deleteLinks);
    assert Reasons(job.steps[..0]) == {} by { NoReasons(job.steps); }
    for i := 0 to |job.steps|
      invariant SoundNow(stores, counts, job, start) && start - stores.pages <= Fast(start, job.steps)
      invariant NoOrphans(start, stores.pages, Held(stores, job)) && counts.wouldDelete == 0
      invariant counts.deletedLinks + |stores.links| == old(counts.deletedLinks) + |old(stores.links)|
      invariant old(stores.working) + 4 * |stores.pages| <= stores.working + 4 * |start| + i
      invariant counts.BudgetSpent(job.limit) || Cleared(stores.pages, job.steps, i)
      invariant counts.byReason.Keys == Reasons(job.steps[..i])
      invariant Tallied(counts.byReason, job.steps, start, stores.pages)
      invariant Detached(was, Have(stores, counts), start, stores.pages, true, Picked(start, job, true),
                         job.deleteLinks)
    {
      ghost var before, had := stores.pages, Have(stores, counts);
      ok := RunStep(stores, counts, job, i, partial, start);
      DetachedThen(was, had, Have(stores, counts), start, before, stores.pages, ok, Picked(start, job, true),
                   job.deleteLinks);
      if !ok {
        return;
      }
      ReasonsStep(job.steps, i);
      assert counts.byReason.Keys == Reasons(job.steps[..i + 1]);
      if !counts.BudgetSpent(job.limit) {
        ClearedStep(before, stores.pages, job.steps, i);
      }
    }
    assert job.steps[..|job.steps|] == job.steps;
    ok := true;
  }

  lemma NoReasons(steps: seq<Step>)
    ensures Reasons(steps[..0]) == {}
  {
  }

  lemma ReasonsStep(steps: seq<Step>, i: nat)
    requires i < |steps|
    ensures Reasons(steps[..i + 1]) == Reasons(steps[..i]) + {steps[i].reason}
  {
    var a, b := steps[..i + 1], steps[..i];
    forall r ensures r in Reasons(a) <==> r in Reasons(b) + {steps[i].reason} {
      if r in Reasons(b) {
        var k :| 0 <= k < i && b[k].reason == r;
        assert a[k].reason == r;
      }
      if r == steps[i].reason {
        assert a[i].reason == r;
      }
    }
  }

  lemma ClearedStep(before: set<Page>, pages: set<Page>, steps: seq<Step>, i: nat)
    requires i < |steps| && pages <= before && Cleared(before, steps, i)
    requires Matching(pages, steps[i].query) == {}
    ensures Cleared(pages, steps, i + 1)
  {
    assert forall p | p in pages && steps[i].query(p) :: p in Matching(pages, steps[i].query);
  }

  /** `_run_fast_steps` of a dry run: one count a step, and one of the rows any step matches. */
  method CountSteps(stores: Stores, counts: CleanupCounts, job: Job) returns (ok: bool)
    modifies stores`working, counts
    ensures counts.deletedPages == old(counts.deletedPages) && counts.deletedLinks == old(counts.deletedLinks)
    ensures ok ==> counts.wouldDelete == old(counts.wouldDelete) + |Fast(stores.pages, job.steps)|
    ensures counts.purgedVectorPages == old(counts.purgedVectorPages)
    ensures ok ==> forall reason ::
              CountOf(counts.byReason, reason)
              == CountOf(old(counts.byReason), reason) + MatchedUnder(stores.pages, job.steps, reason)
    ensures ok <==> old(stores.working) > |job.steps|
    ensures ok ==> stores.working == old(stores.working) - |job.steps| - 1
    ensures !ok ==> stores.working == 0
  {
    for i := 0 to |job.steps|
      invariant counts.wouldDelete == old(counts.wouldDelete) && counts.deletedPages == old(counts.deletedPages)
      invariant counts.deletedLinks == old(counts.deletedLinks) && stores.working == old(stores.working) - i
      invariant counts.purgedVectorPages == old(counts.purgedVectorPages)
      invariant forall reason ::
                  CountOf(counts.byReason, reason)
                  == CountOf(old(counts.byReason), reason) + MatchedUnder(stores.pages, job.steps[..i], reason)
    {
      forall reason {
        MatchedStep(stores.pages, job.steps, i, reason);
      }
      ok := stores.Read();
      if !ok {
        return;
      }
      counts.Note(job.steps[i].reason, |Matching(stores.pages, job.steps[i].query)|);
    }
    assert job.steps[..|job.steps|] == job.steps;
    ok := stores.Read();
    if !ok {
      return;
    }
    var distinct := |Fast(stores.pages, job.steps)|;
    counts.scanned := counts.scanned + distinct;
    counts.wouldDelete := counts.wouldDelete + distinct;
  }

  /** The locale rows among the documents read so far. */
  function LocaleOf(docs: seq<Page>, job: Job): set<Page> {
    set p | p in docs && job.isLocale(p)
  }

  lemma LocaleStep(docs: seq<Page>, job: Job, i: nat)
    requires i < |docs| && Distinct(docs)
    ensures var before := LocaleOf(docs[..i], job);
            LocaleOf(docs[..i + 1], job) == (if job.isLocale(docs[i]) then before + {docs[i]} else before)
            && docs[i] !in before
  {
    assert docs[..i + 1] == docs[..i] + [docs[i]];
  }

  /** Where a locale scan stands: what it has read is gone, counted or waiting; `used` is what was charged. */
  ghost predicate Scanning(pages: set<Page>, used: nat, job: Job, write: bool, begin: set<Page>, base: nat,
                           pending: seq<Page>, read: set<Page>)
  {
    && Distinct(pending) && Elements(pending) <= read && read <= begin
    && (write ==> pages == begin - (read - Elements(pending)))
    && (!write ==> pages == begin)
    && used + |pending| == base + |read|
    && (job.limit.Some? ==> base + |read| <= job.limit.value)
  }

  /** Delete, or count, what the scan has put aside. */
  method Flush(stores: Stores, counts: CleanupCounts, job: Job, write: bool, pending: seq<Page>, partial: set<nat>,
               ghost start: set<Page>, ghost begin: set<Page>, ghost base: nat, ghost read: set<Page>)
    returns (ok: bool)
    requires Scanning(stores.pages, counts.BudgetUsed(), job, write, begin, base, pending, read)
    requires UniqueIds(start) && NoOrphans(start, stores.pages, Held(stores, job)) && read <= LocaleOnly(start, job)
    requires write ==> SoundNow(stores, counts, job, start)
    modifies stores, counts
    ensures NoOrphans(start, stores.pages, Held(stores, job))
    ensures ok ==> Scanning(stores.pages, counts.BudgetUsed(), job, write, begin, base, [], read)
    ensures ok && write ==> SoundNow(stores, counts, job, start)
    ensures !write ==> counts.deletedPages == old(counts.deletedPages)
    ensures ok && write ==> counts.deletedPages == old(counts.deletedPages) + |pending|
    ensures counts.byReason == old(counts.byReason)
    ensures write ==> counts.wouldDelete == old(counts.wouldDelete)
    ensures counts.deletedLinks + |stores.links| == old(counts.deletedLinks) + |old(stores.links)|
    ensures Detached(old(Have(stores, counts)), Have(stores, counts), old(stores.pages), stores.pages, ok,
                     Picked(start, job, write), job.deleteLinks)
    ensures Within(old(stores.working), stores.working, ok, 3 * |pending|)
    ensures !ok ==> stores.working == 0
  {
    hide LocaleOnly, Fast, Attached, Detached, Named, Pids, Rid, Spared;
    NothingDetached(Have(stores, counts), stores.pages, Picked(start, job, write), job.deleteLinks);
    PendingInPages(begin, read, Elements(pending));
    assert Elements<Page>([]) == {};
    if write {
      ok := DeleteBatch(stores, counts, job, pending, partial, start, Fast(start, job.steps) + LocaleOnly(start, job));
    } else {
      ok := DeleteIds(stores, counts, pending, false, job.deleteLinks, partial, start);
    }
  }

  lemma PendingInPages(begin: set<Page>, read: set<Page>, pending: set<Page>)
    requires pending <= read <= begin
    ensures pending <= begin - (read - pending)
    ensures begin - (read - pending) - pending == begin - (read - {})
  {
  }

  /** Note a locale row, put it aside, and flush once a batch is full. */
  method PutAside(stores: Stores, counts: CleanupCounts, job: Job, write: bool, pending: seq<Page>, doc: Page,
                  partial: set<nat>, ghost start: set<Page>, ghost begin: set<Page>, ghost base: nat,
                  ghost read: set<Page>)
    returns (ok: bool, rest: seq<Page>)
    requires Scanning(stores.pages, counts.BudgetUsed(), job, write, begin, base, pending, read)
    requires doc !in read && doc in begin && (job.limit.Some? ==> counts.BudgetUsed() + |pending| < job.limit.value)
    requires UniqueIds(start) && NoOrphans(start, stores.pages, Held(stores, job))
    requires read + {doc} <= LocaleOnly(start, job)
    requires write ==> SoundNow(stores, counts, job, start)
    modifies stores, counts
    ensures NoOrphans(start, stores.pages, Held(stores, job))
    ensures ok ==> Scanning(stores.pages, counts.BudgetUsed(), job, write, begin, base, rest, read + {doc})
    ensures ok && write ==> SoundNow(stores, counts, job, start)
    ensures !write ==> counts.deletedPages == old(counts.deletedPages)
    ensures write ==> counts.wouldDelete == old(counts.wouldDelete)
    ensures counts.byReason == Noted(old(counts.byReason), "locale", 1)
    ensures Detached(old(Have(stores, counts)), Have(stores, counts), old(stores.pages), stores.pages, ok,
                     Picked(start, job, write), job.deleteLinks)
    ensures counts.deletedLinks + |stores.links| == old(counts.deletedLinks) + |old(stores.links)|
    ensures ok ==> old(stores.working) + 3 * |rest| <= stores.working + 3 * |pending| + 3
    ensures !ok ==> stores.working == 0 && old(stores.working) < 3 * |pending| + 3
  {
    hide Sound, NoOrphans, UniqueIds, Scanning, LocaleOnly, Attached, Detached, Picked, Noted;
    ok, rest := true, pending + [doc];
    NothingDetached(Have(stores, counts), stores.pages, Picked(start, job, write), job.deleteLinks);
    counts.Note("locale", 1);
    ScanOne(stores.pages, counts.BudgetUsed(), job, write, begin, base, pending, read, doc);
    if |rest| >= job.batchSize {
      ok := Flush(stores, counts, job, write, rest, partial, start, begin, base, read + {doc});
      rest := [];
    }
  }

  /** One document of the locale scan. */
  method ScanNext(stores: Stores, counts: CleanupCounts, job: Job, write: bool, pending: seq<Page>, doc: Page,
                  partial: set<nat>, ghost start: set<Page>, ghost begin: set<Page>, ghost base: nat,
                  ghost read: set<Page>)
    returns (ok: bool, rest: seq<Page>)
    requires Scanning(stores.pages, counts.BudgetUsed(), job, write, begin, base, pending, read)
    requires doc !in read && doc in begin && (job.limit.Some? ==> counts.BudgetUsed() + |pending| < job.limit.value)
    requires UniqueIds(start) && NoOrphans(start, stores.pages, Held(stores, job))
    requires job.isLocale(doc) ==> read + {doc} <= LocaleOnly(start, job)
    requires write ==> SoundNow(stores, counts, job, start)
    modifies stores, counts
    ensures NoOrphans(start, stores.pages, Held(stores, job))
    ensures ok ==> Scanning(stores.pages, counts.BudgetUsed(), job, write, begin, base, rest,
                            if job.isLocale(doc) then read + {doc} else read)
    ensures ok && write ==> SoundNow(stores, counts, job, start)
    ensures !write ==> counts.deletedPages == old(counts.deletedPages)
    ensures write ==> counts.wouldDelete == old(counts.wouldDelete)
    ensures ok ==> counts.byReason
                   == if job.isLocale(doc) then Noted(old(counts.byReason), "locale", 1) else old(counts.byReason)
    ensures Detached(old(Have(stores, counts)), Have(stores, counts), old(stores.pages), stores.pages, ok,
                     Picked(start, job, write), job.deleteLinks)
    ensures counts.deletedLinks + |stores.links| == old(counts.deletedLinks) + |old(stores.links)|
    ensures ok ==> old(stores.working) + 3 * |rest| <= stores.working + 3 * |pending| + 4
    ensures !ok ==> stores.working == 0 && old(stores.working) < 3 * |pending| + 4
  {
    hide Sound, NoOrphans, UniqueIds, Scanning, LocaleOnly, Attached, Detached, Picked, Noted;
    rest := pending;
    NothingDetached(Have(stores, counts), stores.pages, Picked(start, job, write), job.deleteLinks);
    ok := stores.Read();
    if !ok {
      return;
    }
    counts.scanned := counts.scanned + 1;
    if job.isLocale(doc) {
      ok, rest := PutAside(stores, counts, job, write, pending, doc, partial, start, begin, base, read);
    }
  }

  /** The rows no step matches, one by one. */
  method OpenCursor(stores: Stores, job: Job) returns (docs: seq<Page>)
    ensures |docs| <= |stores.pages|
    ensures Distinct(docs) && Elements(docs) == set p | p in stores.pages && !MatchesAny(job.steps, p)
  {
    var all := set p | p in stores.pages && !MatchesAny(job.steps, p);
    docs := ListSome(all, |all| + 1);
    DistinctSize(docs);
    SubsetSize(Elements(docs), all);
    SubsetSize(all, stores.pages);
  }

  /** The loop of the scan: document by document until there are no more or the limit is reached. */
  method ScanRows(stores: Stores, counts: CleanupCounts, job: Job, write: bool, docs: seq<Page>, partial: set<nat>,
                  ghost start: set<Page>, ghost base: nat)
    returns (ok: bool, i: nat, pending: seq<Page>)
    requires !job.skipLocale && !counts.BudgetSpent(job.limit) && base == counts.BudgetUsed()
    requires UniqueIds(start) && NoOrphans(start, stores.pages, Held(stores, job))
    requires LocaleOnly(stores.pages, job) == LocaleOnly(start, job)
    requires Distinct(docs) && Elements(docs) == set p | p in stores.pages && !MatchesAny(job.steps, p)
    requires write ==> SoundNow(stores, counts, job, start)
    modifies stores, counts
    ensures NoOrphans(start, stores.pages, Held(stores, job))
    ensures ok ==> i <= |docs|
    ensures ok ==> Scanning(stores.pages, counts.BudgetUsed(), job, write, old(stores.pages), base, pending,
                            LocaleOf(docs[..i], job))
    ensures ok ==> i == |docs| || (job.limit.Some? && counts.BudgetUsed() + |pending| >= job.limit.value)
    ensures ok && write ==> SoundNow(stores, counts, job, start)
    ensures !write ==> counts.deletedPages == old(counts.deletedPages)
    ensures write ==> counts.wouldDelete == old(counts.wouldDelete)
    ensures ok ==> counts.byReason == NotedLocale(old(counts.byReason), |LocaleOf(docs[..i], job)|)
    ensures Detached(old(Have(stores, counts)), Have(stores, counts), old(stores.pages), stores.pages, ok,
                     Picked(start, job, write), job.deleteLinks)
    ensures counts.deletedLinks + |stores.links| == old(counts.deletedLinks) + |old(stores.links)|
    ensures ok ==> old(stores.working) + 3 * |pending| <= stores.working + 4 * |docs|
    ensures !ok ==> stores.working == 0 && old(stores.working) < 4 * |docs|
  {
    hide Sound, NoOrphans, UniqueIds, Gone, Distinct, Elements, Fast, MatchesAny, Scanning, LocaleOf,
      LocaleOnly, Attached, Detached, Picked, Noted, NotedLocale;
    ghost var begin, was := stores.pages, Have(stores, counts);
    ok, i, pending := true, 0, [];
    NothingDetached(was, begin, Picked(start, job, write), job.deleteLinks);
    NoLocaleYet(counts.byReason, docs, job);
    NothingScanned(stores.pages, counts.BudgetUsed(), job, write, docs);
    while i < |docs| && !(job.limit.Some? && counts.BudgetUsed() + |pending| >= job.limit.value)
      invariant ok && i <= |docs| && NoOrphans(start, stores.pages, Held(stores, job))
      invariant Scanning(stores.pages, counts.BudgetUsed(), job, write, begin, base, pending, LocaleOf(docs[..i], job))
      invariant write ==> SoundNow(stores, counts, job, start)
      invariant old(stores.working) + 3 * |pending| <= stores.working + 4 * i
      invariant counts.byReason == NotedLocale(old(counts.byReason), |LocaleOf(docs[..i], job)|)
      invariant Detached(was, Have(stores, counts), begin, stores.pages, true, Picked(start, job, write),
                         job.deleteLinks)
      invariant !write ==> counts.deletedPages == old(counts.deletedPages)
      invariant write ==> counts.wouldDelete == old(counts.wouldDelete)
      invariant counts.deletedLinks + |stores.links| == old(counts.deletedLinks) + |old(stores.links)|
      decreases |docs| - i
    {
      ListedIn(begin, docs, job, i);
      LocaleStep(docs, job, i);
      ReadIsLocale(begin, docs, job, i + 1);
      OneMoreLocale(old(counts.byReason), |LocaleOf(docs[..i], job)|);
      ghost var had, pages1 := Have(stores, counts), stores.pages;
      ok, pending := ScanNext(stores, counts, job, write, pending, docs[i], partial, start, begin, base,
                              LocaleOf(docs[..i], job));
      DetachedThen(was, had, Have(stores, counts), begin, pages1, stores.pages, ok, Picked(start, job, write),
                   job.deleteLinks);
      if !ok {
        return;
      }
      i := i + 1;
    }
  }

  /** The locale scan over the rows no step matches. */
  method LocaleScan(stores: Stores, counts: CleanupCounts, job: Job, write: bool, partial: set<nat>,
                    ghost start: set<Page>, ghost base: nat)
    returns (ok: bool)
    requires job.batchSize > 0 && !job.skipLocale && !counts.BudgetSpent(job.limit) && base == counts.BudgetUsed()
    requires UniqueIds(start) && NoOrphans(start, stores.pages, Held(stores, job))
    requires LocaleOnly(stores.pages, job) == LocaleOnly(start, job)
    requires write ==> SoundNow(stores, counts, job, start)
    modifies stores, counts
    ensures NoOrphans(start, stores.pages, Held(stores, job))
    ensures ok && write ==> SoundNow(stores, counts, job, start)
    ensures ok ==> counts.BudgetUsed() == Capped(base + |LocaleOnly(start, job)|, job.limit)
    ensures ok && write && job.limit.None? ==> stores.pages == old(stores.pages) - LocaleOnly(start, job)
    ensures ok && !write ==> stores.pages == old(stores.pages)
    ensures !write ==> counts.deletedPages == old(counts.deletedPages)
    ensures write ==> counts.wouldDelete == old(counts.wouldDelete)
    ensures counts.deletedLinks + |stores.links| == old(counts.deletedLinks) + |old(stores.links)|
    ensures ok && write ==>
              stores.pages <= old(stores.pages) && Deleted(old(stores.pages), stores.pages) <= LocaleOnly(start, job)
    ensures ok ==> base <= counts.BudgetUsed()
    ensures ok ==> counts.byReason == NotedLocale(old(counts.byReason), counts.BudgetUsed() - base)
    ensures Detached(old(Have(stores, counts)), Have(stores, counts), old(stores.pages), stores.pages, ok,
                     Picked(start, job, write), job.deleteLinks)
    ensures Within(old(stores.working), stores.working, ok, 4 * |old(stores.pages)| + 1)
    ensures !ok ==> stores.working == 0
  {
    hide Sound, NoOrphans, UniqueIds, Gone, Distinct, Elements, Fast, MatchesAny, Scanning, LocaleOf,
      LocaleOnly, Attached, Detached, Picked, Noted, NotedLocale;
    ghost var begin, was := stores.pages, Have(stores, counts);
    NothingDetached(was, begin, Picked(start, job, write), job.deleteLinks);
    ok := stores.Read();
    if !ok {
      return;
    }
    var docs := OpenCursor(stores, job);
    var i, pending;
    ok, i, pending := ScanRows(stores, counts, job, write, docs, partial, start, base);
    if !ok {
      return;
    }
    ReadIsLocale(begin, docs, job, i);
    ScanReach(stores.pages, counts.BudgetUsed(), job, write, begin, base, pending, LocaleOf(docs[..i], job));
    ghost var had, pages1 := Have(stores, counts), stores.pages;
    ok := Flush(stores, counts, job, write, pending, partial, start, begin, base, LocaleOf(docs[..i], job));
    DetachedThen(was, had, Have(stores, counts), begin, pages1, stores.pages, ok, Picked(start, job, write),
                 job.deleteLinks);
    if ok {
      ScanEnds(stores.pages, counts.BudgetUsed(), job, write, begin, base, docs, i);
    }
  }

  lemma NothingScanned(pages: set<Page>, used: nat, job: Job, write: bool, docs: seq<Page>)
    requires job.limit.Some? ==> used < job.limit.value
    ensures Scanning(pages, used, job, write, pages, used, [], LocaleOf(docs[..0], job))
  {
    assert LocaleOf(docs[..0], job) == {};
  }

  lemma NoLocaleYet(byReason: map<string, nat>, docs: seq<Page>, job: Job)
    ensures NotedLocale(byReason, |LocaleOf(docs[..0], job)|) == byReason
  {
    assert LocaleOf(docs[..0], job) == {};
  }

  lemma ScanReach(pages: set<Page>, used: nat, job: Job, write: bool, begin: set<Page>, base: nat, pending: seq<Page>,
                  read: set<Page>)
    requires Scanning(pages, used, job, write, begin, base, pending, read)
    ensures used + |pending| == base + |read|
  {
  }

  lemma ScanOne(pages: set<Page>, used: nat, job: Job, write: bool, begin: set<Page>, base: nat, pending: seq<Page>,
                read: set<Page>, doc: Page)
    requires Scanning(pages, used, job, write, begin, base, pending, read)
    requires doc !in read && doc in begin
    requires job.limit.Some? ==> used + |pending| < job.limit.value
    ensures Scanning(pages, used, job, write, begin, base, pending + [doc], read + {doc})
  {
    assert Elements(pending + [doc]) == Elements(pending) + {doc};
    assert read + {doc} - (Elements(pending) + {doc}) == read - Elements(pending);
    assert doc !in pending by {
      assert doc !in Elements(pending);
    }
  }

  lemma ListedIn(begin: set<Page>, docs: seq<Page>, job: Job, i: nat)
    requires i < |docs| && Elements(docs) == set p | p in begin && !MatchesAny(job.steps, p)
    ensures docs[i] in begin
  {
    hide MatchesAny;
    assert docs[i] in Elements(docs);
  }

  lemma ReadIsLocale(begin: set<Page>, docs: seq<Page>, job: Job, i: nat)
    requires i <= |docs| && !job.skipLocale && Elements(docs) == set p | p in begin && !MatchesAny(job.steps, p)
    ensures LocaleOf(docs[..i], job) <= LocaleOnly(begin, job)
    ensures LocaleOf(docs[..|docs|], job) == LocaleOnly(begin, job)
  {
    hide MatchesAny;
    assert docs[..|docs|] == docs;
    assert forall p | p in LocaleOf(docs[..i], job) :: p in Elements(docs);
    assert forall p | p in LocaleOnly(begin, job) :: p in Elements(docs);
    assert forall p | p in LocaleOf(docs, job) :: p in Elements(docs);
  }

  lemma ScanEnds(pages: set<Page>, used: nat, job: Job, write: bool, begin: set<Page>, base: nat, docs: seq<Page>,
                 i: nat)
    requires i <= |docs| && Scanning(pages, used, job, write, begin, base, [], LocaleOf(docs[..i], job))
    requires !job.skipLocale && Elements(docs) == set p | p in begin && !MatchesAny(job.steps, p)
    requires i == |docs| || (job.limit.Some? && base + |LocaleOf(docs[..i], job)| >= job.limit.value)
    ensures used == Capped(base + |LocaleOnly(begin, job)|, job.limit) && used == base + |LocaleOf(docs[..i], job)|
    ensures write ==> pages <= begin && begin - pages <= LocaleOnly(begin, job)
    ensures write && job.limit.None? ==> pages == begin - LocaleOnly(begin, job)
    ensures !write ==> pages == begin
  {
    hide MatchesAny, LocaleOnly;
    ReadIsLocale(begin, docs, job, i);
    SubsetSize(LocaleOf(docs[..i], job), LocaleOnly(begin, job));
  }

  /** `_run_fast_steps`: where it leaves a write, at the limit or with every row a step takes gone, and a dry run. */
  method RunFastSteps(stores: Stores, counts: CleanupCounts, job: Job, write: bool, partial: set<nat>,
                      ghost start: set<Page>)
    returns (ok: bool)
    requires job.batchSize > 0 && UniqueIds(start) && stores.pages == start
    requires counts.byReason == map[] && counts.BudgetUsed() == 0
    modifies stores, counts
    ensures NoOrphans(start, stores.pages, Held(stores, job))
    ensures counts.deletedLinks + |stores.links| == old(counts.deletedLinks) + |old(stores.links)|
    ensures Detached(old(Have(stores, counts)), Have(stores, counts), start, stores.pages, ok,
                     Picked(start, job, write), job.deleteLinks)
    ensures if write then counts.wouldDelete == 0 else counts.deletedPages == 0 && stores.pages == start
    ensures ok ==> stores.pages <= start && LocaleOnly(stores.pages, job) == LocaleOnly(start, job)
    ensures ok && !write ==> counts.wouldDelete == |Fast(start, job.steps)|
    ensures ok && write ==>
              && SoundNow(stores, counts, job, start) && counts.deletedPages <= |Fast(start, job.steps)|
              && (if job.limit.Some? && counts.deletedPages >= job.limit.value
                  then counts.deletedPages == job.limit.value
                  else stores.pages == start - Fast(start, job.steps)
                       && counts.deletedPages == |Fast(start, job.steps)|)
              && Tallied(counts.byReason, job.steps, start, stores.pages)
              && counts.byReason.Keys == Reasons(job.steps)
    ensures ok && !write ==>
              forall reason :: CountOf(counts.byReason, reason) == MatchedUnder(start, job.steps, reason)
    ensures if ok then old(stores.working) + 4 * |stores.pages| <= stores.working + 4 * |start| + |job.steps| + 1
            else stores.working == 0 && old(stores.working) < 4 * |start| + |job.steps| + 1
  {
    hide Tallied, Reasons, Fast, LocaleOnly, Sound, NoOrphans, UniqueIds, Cleared, Attached, Detached, Picked;
    AtTheStart(start, Held(stores, job), job);
    NothingDetached(Have(stores, counts), start, Picked(start, job, write), job.deleteLinks);
    if write {
      ok := WriteSteps(stores, counts, job, partial, start);
      if ok {
        AfterSteps(stores.pages, Held(stores, job), counts.deletedPages, job, start);
        SoundWithin(stores.pages, Held(stores, job), counts.deletedPages, job, start);
      }
    } else {
      ok := CountSteps(stores, counts, job);
    }
  }

  /**
   `cleanup`. Wherever a store call fails, no page that was deleted still has vectors, nor links if those
   were to go, and nothing went that does not hang on a row a step or the locale scan takes; four working calls a
   page, one a step and two more are always enough. A dry run touches nothing. If no call fails it announces
   `DryTotal`; a write deletes `WriteTotal` rows with exactly what hung on them, counts each under the first step
   that takes it, and without a limit deletes exactly the rows a step or the locale scan takes.
   */
  method CleanUp(stores: Stores, job: Job, write: bool, partial: set<nat>) returns (ok: bool, counts: CleanupCounts)
    requires job.batchSize > 0 && UniqueIds(stores.pages)
    modifies stores
    ensures NoOrphans(old(stores.pages), stores.pages, Held(stores, job))
    ensures counts.deletedLinks + |stores.links| == |old(stores.links)|
    ensures Spared(Things(old(stores.vectors), old(stores.links), 0), Have(stores, counts),
                   Pids(Fast(old(stores.pages), job.steps) + LocaleOnly(old(stores.pages), job)), job.deleteLinks)
    ensures !write ==> stores.vectors == old(stores.vectors) && stores.links == old(stores.links)
    ensures ok && write ==>
              var gone := Deleted(old(stores.pages), stores.pages);
              && Rid(Things(old(stores.vectors), old(stores.links), 0), Have(stores, counts), Pids(gone),
                     job.deleteLinks)
              && counts.purgedVectorPages == |Named(gone)| && Tally(counts.byReason, job.steps, gone)
    ensures ok && !write ==> counts.purgedVectorPages == 0 && forall reason ::
              CountOf(counts.byReason, reason) == MatchedUnder(stores.pages, job.steps, reason)
                + if reason == "locale" then counts.wouldDelete - |Fast(stores.pages, job.steps)| else 0
    ensures ok && write ==>
              && counts.deletedPages == WriteTotal(old(stores.pages), job) == |Deleted(old(stores.pages), stores.pages)|
              && counts.wouldDelete == 0
              && AddsUp(counts.byReason, job, counts.deletedPages)
              && Reasons(job.steps) <= counts.byReason.Keys <= Reasons(job.steps) + {"locale"}
    ensures ok && write && job.limit.None? ==>
              stores.pages
              == old(stores.pages) - Fast(old(stores.pages), job.steps) - LocaleOnly(old(stores.pages), job)
    ensures ok && !write ==>
              && counts.wouldDelete == DryTotal(old(stores.pages), job)
              && counts.deletedPages == 0 && stores.pages == old(stores.pages)
    ensures old(stores.working) >= 4 * |old(stores.pages)| + |job.steps| + 2 ==> ok
    ensures !ok ==> stores.working == 0
  {
    hide AddsUp, Tally, Tallied, Reasons, Fast, LocaleOnly, Sound, NoOrphans, UniqueIds, Cleared, Attached, Detached,
      Picked, NotedLocale, CountOf, Rid, Spared, Held, Named, Pids, Deleted;
    ghost var start := stores.pages;
    counts := new CleanupCounts();
    ghost var was := Have(stores, counts);
    ok := RunFastSteps(stores, counts, job, write, partial, start);
    WhatHangs(was, Have(stores, counts), start, stores.pages, ok, job, write);
    if !ok {
      return;
    }
    ghost var base := counts.BudgetUsed();
    ghost var between, had, noted := stores.pages, Have(stores, counts), counts.byReason;
    if write {
      SoundCount(stores.pages, Held(stores, job), counts.deletedPages, job, start);
    }
    NotedNothing(noted);
    if !job.skipLocale && !counts.BudgetSpent(job.limit) {
      ok := LocaleScan(stores, counts, job, write, partial, start, base);
      DetachedThen(was, had, Have(stores, counts), start, between, stores.pages, ok, Picked(start, job, write),
                   job.deleteLinks);
      WhatHangs(was, Have(stores, counts), start, stores.pages, ok, job, write);
    } else {
      NothingDeleted(start, between, job);
      if job.skipLocale {
        NoLocale(start, job);
      }
    }
    if ok {
      NotedUnder(noted, counts.BudgetUsed() - base);
      if write {
        SoundCount(stores.pages, Held(stores, job), counts.deletedPages, job, start);
        LocaleTally(noted, job, start, between, stores.pages);
        TallyAddsUp(counts.byReason, job, start, stores.pages);
      }
    }
  }

  /** What the run as a whole did to what hangs on pages. */
  lemma WhatHangs(was: Things, now: Things, start: set<Page>, pages: set<Page>, ok: bool, job: Job, write: bool)
    requires Detached(was, now, start, pages, ok, Picked(start, job, write), job.deleteLinks)
    ensures Spared(was, now, Pids(Fast(start, job.steps) + LocaleOnly(start, job)), job.deleteLinks)
    ensures !write ==> now.vectors == was.vectors && now.links == was.links
    ensures ok ==>
              && Rid(was, now, Pids(Deleted(start, pages)), job.deleteLinks)
              && now.purged == was.purged + |Named(Deleted(start, pages))|
    ensures ok && start == pages ==> now.purged == was.purged
  {
    hide Fast, LocaleOnly;
    if start == pages {
      assert Deleted(start, pages) == {} && Named(Deleted(start, pages)) == {};
    }
    if !write {
      assert Named(Picked(start, job, write)) == {} && Pids(Picked(start, job, write)) == {};
      assert was.vectors == now.vectors + (was.vectors - now.vectors);
      assert was.links - now.links == {} && was.links == now.links + (was.links - now.links);
    }
  }

  lemma NothingDeleted(start: set<Page>, pages: set<Page>, job: Job)
    ensures Deleted(pages, pages) == {} <= LocaleOnly(start, job)
  {
  }

  lemma NotedNothing(byReason: map<string, nat>)
    ensures NotedLocale(byReason, 0) == byReason
  {
  }

  lemma NotedUnder(byReason: map<string, nat>, n: nat)
    ensures forall reason ::
              CountOf(NotedLocale(byReason, n), reason)
              == CountOf(byReason, reason) + if reason == "locale" then n else 0
    ensures byReason.Keys <= NotedLocale(byReason, n).Keys <= byReason.Keys + {"locale"}
  {
  }

  /** The rows the locale scan deletes are counted under its own label. */
  lemma LocaleTally(byReason: map<string, nat>, job: Job, start: set<Page>, between: set<Page>, pages: set<Page>)
    requires pages <= between <= start && Deleted(between, pages) <= LocaleOnly(start, job)
    requires Tallied(byReason, job.steps, start, between)
    ensures |Deleted(start, pages)| == |Deleted(start, between)| + |Deleted(between, pages)|
    ensures Tallied(NotedLocale(byReason, |Deleted(between, pages)|), job.steps, start, pages)
  {
    hide Tally, Noted;
    var batch := between - pages;
    forall p | p in batch ensures FirstReason(job.steps, p) == "locale" {
      assert p in LocaleOnly(start, job);
      FirstReasonIs(job.steps, p, |job.steps|);
    }
    assert start - pages == (start - between) + batch;
    if batch != {} {
      NoteTally(byReason, job.steps, start - between, "locale", batch);
    }
  }

  lemma AtTheStart(start: set<Page>, vectors: set<nat>, job: Job)
    requires UniqueIds(start)
    ensures NoOrphans(start, start, vectors) && Sound(start, vectors, 0, job, start)
  {
    assert start - start == {};
  }

  lemma NoLocale(pages: set<Page>, job: Job)
    requires job.skipLocale
    ensures LocaleOnly(pages, job) == {}
  {
  }

  lemma SoundCount(pages: set<Page>, vectors: set<nat>, deleted: nat, job: Job, start: set<Page>)
    requires Sound(pages, vectors, deleted, job, start)
    ensures deleted == |Deleted(start, pages)| && NoOrphans(start, pages, vectors)
  {
  }

  lemma SoundLimit(pages: set<Page>, vectors: set<nat>, deleted: nat, job: Job, start: set<Page>)
    requires Sound(pages, vectors, deleted, job, start)
    ensures job.limit.Some? ==> deleted <= job.limit.value
  {
  }

  lemma LocaleUntouched(pages: set<Page>, job: Job, start: set<Page>)
    requires pages <= start && start - pages <= Fast(start, job.steps)
    ensures LocaleOnly(pages, job) == LocaleOnly(start, job)
  {
    hide MatchesAny;
    forall p ensures p in LocaleOnly(pages, job) <==> p in LocaleOnly(start, job) {
      assert p in start - pages ==> p in Fast(start, job.steps);
    }
  }

  lemma ClearedOfFast(pages: set<Page>, job: Job, start: set<Page>)
    requires pages <= start && Cleared(pages, job.steps, |job.steps|)
    ensures pages !! Fast(start, job.steps)
  {
  }

  /** Where the steps leave a write: at the limit, or with every row they take gone. */
  lemma AfterSteps(pages: set<Page>, vectors: set<nat>, deleted: nat, job: Job, start: set<Page>)
    requires Sound(pages, vectors, deleted, job, start) && start - pages <= Fast(start, job.steps)
    requires (job.limit.Some? && deleted >= job.limit.value) || Cleared(pages, job.steps, |job.steps|)
    ensures LocaleOnly(pages, job) == LocaleOnly(start, job)
    ensures deleted <= |Fast(start, job.steps)|
    ensures if job.limit.Some? && deleted >= job.limit.value then deleted == job.limit.value
            else pages == start - Fast(start, job.steps) && deleted == |Fast(start, job.steps)|
  {
    SubsetSize(start - pages, Fast(start, job.steps));
    SoundWithin(pages, vectors, deleted, job, start);
    SoundCount(pages, vectors, deleted, job, start);
    SoundLimit(pages, vectors, deleted, job, start);
    LocaleUntouched(pages, job, start);
    hide Sound, NoOrphans, LocaleOnly;
    if Cleared(pages, job.steps, |job.steps|) {
      ClearedOfFast(pages, job, start);
    }
    hide Fast, Cleared;
    if !(job.limit.Some? && deleted >= job.limit.value) {
      assert start - pages == Fast(start, job.steps);
      assert pages == start - Fast(start, job.steps);
    }
  }
}
