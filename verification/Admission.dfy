/**
 The page loop of an index run (`src/geek_crawler_rag/indexer.py`): which chunks are admitted, how
 pages are counted, and how admitted chunks are flushed to the embedder.
 */
module Admission {
  import opened Sequences

  /** A chunk and the digest of the text it embeds, "" when it carries none. */
  datatype Chunk = Chunk(text: string, digest: string)

  datatype Reason = Locale | PageFailure | HttpError | Sitemap | Empty | NonEnglish

  /** What the readers make of a page: refused outright, nothing to index, or chunks and dropped stubs. */
  datatype Reading =
    | Refused(reason: Reason)
    | Chunked(chunks: seq<Chunk>, stubs: nat)

  datatype CrawlPage = CrawlPage(id: string, reading: Reading)

  function ChunksOf(page: CrawlPage): seq<Chunk> {
    if page.reading.Chunked? then page.reading.chunks else []
  }

  predicate Carries(page: CrawlPage, digest: string) {
    exists k | 0 <= k < |ChunksOf(page)| :: ChunksOf(page)[k].digest == digest
  }

  /** The first page that carries the digest, or the number of pages. */
  function FirstCarrier(pages: seq<CrawlPage>, digest: string): (i: nat)
    ensures i <= |pages|
    decreases |pages|
  {
    if pages == [] then 0
    else
      var i := FirstCarrier(pages[..|pages| - 1], digest);
      if i < |pages| - 1 || Carries(pages[|pages| - 1], digest) then i else |pages|
  }

  lemma {:induction false} FirstCarrierIs(pages: seq<CrawlPage>, digest: string)
    ensures var i := FirstCarrier(pages, digest);
            && (i < |pages| ==> Carries(pages[i], digest))
            && forall j | 0 <= j < i :: !Carries(pages[j], digest)
    decreases |pages|
  {
    if pages != [] {
      FirstCarrierIs(pages[..|pages| - 1], digest);
    }
  }

  lemma FirstCarrierStep(pages: seq<CrawlPage>, page: CrawlPage, digest: string)
    ensures FirstCarrier(pages + [page], digest)
         == var i := FirstCarrier(pages, digest);
            if i < |pages| || Carries(page, digest) then i else |pages| + 1
  {
    assert (pages + [page])[..|pages|] == pages;
  }

  lemma {:induction false} FirstCarrierStable(pages: seq<CrawlPage>, n: nat, digest: string)
    requires n <= |pages| && FirstCarrier(pages[..n], digest) < n
    ensures FirstCarrier(pages, digest) == FirstCarrier(pages[..n], digest)
    decreases |pages| - n
  {
    if n < |pages| {
      assert pages[..n + 1] == pages[..n] + [pages[n]];
      FirstCarrierStep(pages[..n], pages[n], digest);
      FirstCarrierStable(pages, n + 1, digest);
    } else {
      assert pages[..n] == pages;
    }
  }

  /** A chunk of page `i` is kept: it has no digest, or the first page carrying its text is this one. */
  predicate Kept(pages: seq<CrawlPage>, i: nat, chunk: Chunk)
    requires i < |pages|
  {
    chunk.digest == "" ||
    var first := FirstCarrier(pages, chunk.digest);
    first < |pages| && pages[first].id == pages[i].id
  }

  function Selected(chunks: seq<Chunk>, keep: Chunk -> bool): seq<Chunk>
    decreases |chunks|
  {
    if chunks == [] then []
    else
      var front, last := Selected(chunks[..|chunks| - 1], keep), chunks[|chunks| - 1];
      if keep(last) then front + [last] else front
  }

  function KeptOf(pages: seq<CrawlPage>, i: nat): seq<Chunk>
    requires i < |pages|
  {
    Selected(ChunksOf(pages[i]), chunk => Kept(pages, i, chunk))
  }

  /** The chunks kept from the first `n` pages, in order. */
  function KeptUpTo(pages: seq<CrawlPage>, n: nat): seq<Chunk>
    requires n <= |pages|
  {
    if n == 0 then [] else KeptUpTo(pages, n - 1) + KeptOf(pages, n - 1)
  }

  function TotalUpTo(pages: seq<CrawlPage>, n: nat): nat
    requires n <= |pages|
  {
    if n == 0 then 0 else TotalUpTo(pages, n - 1) + |ChunksOf(pages[n - 1])|
  }

  // ---- What the report counts ----

  datatype Outcome = English | Unusable | OtherLanguage | NothingToRead

  predicate EndsAs(page: CrawlPage, outcome: Outcome) {
    match outcome
    case English => page.reading.Chunked?
    case Unusable => page.reading.Refused?
    case OtherLanguage => page.reading == Refused(NonEnglish)
    case NothingToRead => page.reading == Refused(Empty)
  }

  /** How many pages end one way. */
  function PagesAs(pages: seq<CrawlPage>, outcome: Outcome): nat {
    if pages == [] then 0
    else
      PagesAs(pages[..|pages| - 1], outcome) + if EndsAs(pages[|pages| - 1], outcome) then 1 else 0
  }

  /** The stub chunks dropped from pages that were read. */
  function StubsOf(pages: seq<CrawlPage>): nat {
    if pages == [] then 0
    else
      var last := pages[|pages| - 1];
      StubsOf(pages[..|pages| - 1]) + if last.reading.Chunked? then last.reading.stubs else 0
  }

  lemma CountStep(pages: seq<CrawlPage>, n: nat)
    requires n < |pages|
    ensures forall outcome ::
              PagesAs(pages[..n + 1], outcome)
              == PagesAs(pages[..n], outcome) + if EndsAs(pages[n], outcome) then 1 else 0
    ensures StubsOf(pages[..n + 1])
         == StubsOf(pages[..n]) + if pages[n].reading.Chunked? then pages[n].reading.stubs else 0
  {
    hide EndsAs;
    assert pages[..n + 1][..n] == pages[..n];
  }

  // ---- The loop ----

  /** Digest to owning page, after the first `n` pages. */
  ghost predicate Owns(pages: seq<CrawlPage>, n: nat, owners: map<string, string>)
    requires n <= |pages|
  {
    && (forall d :: d in owners <==> d != "" && FirstCarrier(pages[..n], d) < n)
    && forall d | d in owners && FirstCarrier(pages[..n], d) < n :: owners[d] == pages[FirstCarrier(pages[..n], d)].id
  }

  /** What the owner map says of a chunk of the next page is what the whole run says. */
  lemma OwnerDecides(pages: seq<CrawlPage>, n: nat, owners: map<string, string>, chunk: Chunk)
    requires n < |pages| && Owns(pages, n, owners) && chunk in ChunksOf(pages[n])
    ensures Kept(pages, n, chunk) <==> chunk.digest !in owners || owners[chunk.digest] == pages[n].id
  {
    if chunk.digest != "" {
      var d := chunk.digest;
      assert pages[..n + 1] == pages[..n] + [pages[n]];
      FirstCarrierStep(pages[..n], pages[n], d);
      FirstCarrierStable(pages, n + 1, d);
    }
  }

  /** The chunks of one page decided by the owner map, and the map after them. */
  function Admit(chunks: seq<Chunk>, id: string, owners: map<string, string>): seq<Chunk> {
    Selected(chunks, (chunk: Chunk) => chunk.digest !in owners || owners[chunk.digest] == id)
  }

  function Claim(kept: seq<Chunk>, id: string, owners: map<string, string>): map<string, string>
    decreases |kept|
  {
    if kept == [] then owners
    else
      var m, d := Claim(kept[..|kept| - 1], id, owners), kept[|kept| - 1].digest;
      if d == "" || d in m then m else m[d := id]
  }

  lemma {:induction false} ClaimIs(kept: seq<Chunk>, id: string, owners: map<string, string>)
    ensures var m := Claim(kept, id, owners);
            && (forall d :: d in m <==> d in owners || (d != "" && exists k | 0 <= k < |kept| :: kept[k].digest == d))
            && (forall d | d in m :: m[d] == if d in owners then owners[d] else id)
    decreases |kept|
  {
    if kept != [] {
      var front := kept[..|kept| - 1];
      ClaimIs(front, id, owners);
      var m := Claim(kept, id, owners);
      forall d ensures d in m <==> d in owners || (d != "" && exists k | 0 <= k < |kept| :: kept[k].digest == d) {
        if d in Claim(front, id, owners) && d !in owners {
          var k :| 0 <= k < |front| && front[k].digest == d;
          assert kept[k].digest == d;
        }
        if k :| 0 <= k < |kept| && kept[k].digest == d {
          assert k < |front| ==> front[k].digest == d;
        }
      }
    }
  }

  lemma {:induction false} SelectedHas(chunks: seq<Chunk>, keep: Chunk -> bool)
    ensures |Selected(chunks, keep)| <= |chunks|
    ensures forall chunk :: chunk in Selected(chunks, keep) <==> chunk in chunks && keep(chunk)
    decreases |chunks|
  {
    if chunks != [] {
      SelectedHas(chunks[..|chunks| - 1], keep);
      assert chunks == chunks[..|chunks| - 1] + [chunks[|chunks| - 1]];
    }
  }

  lemma {:induction false} SelectedSame(chunks: seq<Chunk>, a: Chunk -> bool, b: Chunk -> bool)
    requires forall chunk | chunk in chunks :: a(chunk) == b(chunk)
    ensures Selected(chunks, a) == Selected(chunks, b)
    decreases |chunks|
  {
    if chunks != [] {
      assert chunks == chunks[..|chunks| - 1] + [chunks[|chunks| - 1]];
      SelectedSame(chunks[..|chunks| - 1], a, b);
    }
  }

  /** `_admit_page_nodes` keeps of the next page exactly what the run as a whole keeps. */
  lemma AdmitIsKept(pages: seq<CrawlPage>, n: nat, owners: map<string, string>)
    requires n < |pages| && Owns(pages, n, owners)
    ensures Admit(ChunksOf(pages[n]), pages[n].id, owners) == KeptOf(pages, n)
  {
    forall chunk | chunk in ChunksOf(pages[n])
      ensures Kept(pages, n, chunk) <==> chunk.digest !in owners || owners[chunk.digest] == pages[n].id
    {
      OwnerDecides(pages, n, owners, chunk);
    }
    SelectedSame(ChunksOf(pages[n]), (chunk: Chunk) => chunk.digest !in owners || owners[chunk.digest] == pages[n].id,
                 chunk => Kept(pages, n, chunk));
  }

  /** A digest has an owner after page `n` exactly when some page up to it carries it. */
  lemma OwnedIffCarried(pages: seq<CrawlPage>, n: nat, owners: map<string, string>, d: string)
    requires n < |pages| && Owns(pages, n, owners)
    ensures var kept := Admit(ChunksOf(pages[n]), pages[n].id, owners);
            d in Claim(kept, pages[n].id, owners) <==> d != "" && FirstCarrier(pages[..n + 1], d) < n + 1
  {
    var chunks, id := ChunksOf(pages[n]), pages[n].id;
    var kept := Admit(chunks, id, owners);
    ClaimIs(kept, id, owners);
    SelectedHas(chunks, (chunk: Chunk) => chunk.digest !in owners || owners[chunk.digest] == id);
    assert pages[..n + 1] == pages[..n] + [pages[n]];
    FirstCarrierStep(pages[..n], pages[n], d);
    if d !in owners && Carries(pages[n], d) {
      var k :| 0 <= k < |chunks| && chunks[k].digest == d;
      assert chunks[k] in kept;
    }
    if k :| 0 <= k < |kept| && kept[k].digest == d {
      assert kept[k] in chunks;
    }
  }

  /** ... and its owner is then the first of them. */
  lemma OwnerIsFirst(pages: seq<CrawlPage>, n: nat, owners: map<string, string>, d: string)
    requires n < |pages| && Owns(pages, n, owners)
    requires d in Claim(Admit(ChunksOf(pages[n]), pages[n].id, owners), pages[n].id, owners)
    requires FirstCarrier(pages[..n + 1], d) < n + 1
    ensures Claim(Admit(ChunksOf(pages[n]), pages[n].id, owners), pages[n].id, owners)[d]
         == pages[FirstCarrier(pages[..n + 1], d)].id
  {
    hide Admit;
    OwnedIffCarried(pages, n, owners, d);
    ClaimIs(Admit(ChunksOf(pages[n]), pages[n].id, owners), pages[n].id, owners);
    assert pages[..n + 1] == pages[..n] + [pages[n]];
    FirstCarrierStep(pages[..n], pages[n], d);
  }

  lemma ClaimKeepsOwns(pages: seq<CrawlPage>, n: nat, owners: map<string, string>)
    requires n < |pages| && Owns(pages, n, owners)
    ensures Owns(pages, n + 1, Claim(Admit(ChunksOf(pages[n]), pages[n].id, owners), pages[n].id, owners))
  {
    hide Admit, Claim, FirstCarrier;
    var claimed := Claim(Admit(ChunksOf(pages[n]), pages[n].id, owners), pages[n].id, owners);
    forall d ensures d in claimed <==> d != "" && FirstCarrier(pages[..n + 1], d) < n + 1 {
      OwnedIffCarried(pages, n, owners, d);
    }
    forall d | d in claimed && FirstCarrier(pages[..n + 1], d) < n + 1
      ensures claimed[d] == pages[FirstCarrier(pages[..n + 1], d)].id
    {
      OwnerIsFirst(pages, n, owners, d);
    }
  }

  /** A page without chunks changes no owner. */
  lemma NoChunksKeepOwns(pages: seq<CrawlPage>, n: nat, owners: map<string, string>)
    requires n < |pages| && Owns(pages, n, owners) && ChunksOf(pages[n]) == []
    ensures Owns(pages, n + 1, owners)
  {
    ClaimKeepsOwns(pages, n, owners);
  }

  class RunStatus {
    var pagesSeen: nat
    var pagesEnglish: nat
    var skippedUnusable: nat
    var skippedLang: nat
    var skippedEmpty: nat
    var skippedRepeat: nat
    var skippedStub: nat

    constructor ()
      ensures pagesSeen == 0 && pagesEnglish == 0 && skippedUnusable == 0 && skippedLang == 0 && skippedEmpty == 0
      ensures skippedRepeat == 0 && skippedStub == 0
    {
      pagesSeen, pagesEnglish, skippedUnusable, skippedLang, skippedEmpty := 0, 0, 0, 0, 0;
      skippedRepeat, skippedStub := 0, 0;
    }

    /** Every page seen was read or skipped, and a skip is counted under at most one content reason. */
    ghost predicate Balanced()
      reads this
    {
      pagesSeen == pagesEnglish + skippedUnusable && skippedLang + skippedEmpty <= skippedUnusable
    }

    /** The counters say how the pages ended. */
    ghost predicate Reports(pages: seq<CrawlPage>)
      reads this
    {
      && pagesSeen == |pages| && pagesEnglish == PagesAs(pages, English)
      && skippedUnusable == PagesAs(pages, Unusable)
      && skippedLang == PagesAs(pages, OtherLanguage) && skippedEmpty == PagesAs(pages, NothingToRead)
      && skippedStub == StubsOf(pages)
    }

    /** `_skip_unusable`. */
    method SkipUnusable(reason: Reason)
      modifies this
      ensures skippedUnusable == old(skippedUnusable) + 1
      ensures skippedLang == old(skippedLang) + (if reason == NonEnglish then 1 else 0)
      ensures skippedEmpty == old(skippedEmpty) + (if reason == Empty then 1 else 0)
      ensures pagesSeen == old(pagesSeen) && pagesEnglish == old(pagesEnglish)
      ensures skippedRepeat == old(skippedRepeat) && skippedStub == old(skippedStub)
    {
      skippedUnusable := skippedUnusable + 1;
      if reason == NonEnglish {
        skippedLang := skippedLang + 1;
      } else if !(reason == Locale || reason == PageFailure || reason == HttpError || reason == Sitemap) {
        skippedEmpty := skippedEmpty + 1;
      }
    }
  }

  /** `_admit_page_nodes`: what is kept and what is skipped make up the page. */
  method AdmitPageNodes(id: string, chunks: seq<Chunk>, owners: map<string, string>, status: RunStatus)
    returns (kept: seq<Chunk>, claimed: map<string, string>)
    modifies status`skippedRepeat
    ensures kept == Admit(chunks, id, owners) && claimed == Claim(kept, id, owners)
    ensures |kept| + (status.skippedRepeat - old(status.skippedRepeat)) == |chunks|
  {
    kept := [];
    for k := 0 to |chunks|
      invariant kept == Admit(chunks[..k], id, owners)
      invariant |kept| + (status.skippedRepeat - old(status.skippedRepeat)) == k
    {
      assert chunks[..k + 1][..k] == chunks[..k];
      var digest := chunks[k].digest;
      if digest in owners && owners[digest] != id {
        status.skippedRepeat := status.skippedRepeat + 1;
      } else {
        kept := kept + [chunks[k]];
      }
    }
    assert chunks[..|chunks|] == chunks;
    claimed := owners;
    for k := 0 to |kept|
      invariant claimed == Claim(kept[..k], id, owners)
    {
      assert kept[..k + 1][..k] == kept[..k];
      var digest := kept[k].digest;
      if digest != "" && digest !in claimed {
        claimed := claimed[digest := id];
      }
    }
    assert kept[..|kept|] == kept;
  }

  /** What has been flushed and what is waiting are the kept chunks of the pages done, in order. */
  predicate Flushing(pages: seq<CrawlPage>, n: nat, flushed: seq<seq<Chunk>>, pending: seq<Chunk>)
    requires n <= |pages|
  {
    Concat(flushed) + pending == KeptUpTo(pages, n)
  }

  lemma MoreWaiting(pages: seq<CrawlPage>, n: nat, flushed: seq<seq<Chunk>>, pending: seq<Chunk>, kept: seq<Chunk>)
    requires n < |pages| && Flushing(pages, n, flushed, pending) && kept == KeptOf(pages, n)
    ensures Flushing(pages, n + 1, flushed, pending + kept)
    ensures |KeptUpTo(pages, n + 1)| == |KeptUpTo(pages, n)| + |kept|
    ensures TotalUpTo(pages, n + 1) == TotalUpTo(pages, n) + |ChunksOf(pages[n])|
  {
    hide KeptOf, Concat;
    assert Concat(flushed) + (pending + kept) == KeptUpTo(pages, n) + kept;
  }

  lemma NothingWaits(pages: seq<CrawlPage>, n: nat, flushed: seq<seq<Chunk>>, pending: seq<Chunk>)
    requires n <= |pages| && Flushing(pages, n, flushed, pending)
    ensures Flushing(pages, n, flushed + [pending], [])
    ensures Concat(flushed) <= KeptUpTo(pages, n) && (pending == [] ==> Concat(flushed) == KeptUpTo(pages, n))
  {
    hide KeptOf, KeptUpTo;
    ConcatStep(flushed, pending);
  }

  /** Whether the loop flushes after page `n`. */
  predicate FlushesAt(pages: seq<CrawlPage>, batchSize: nat, n: nat)
    requires n < |pages|
    decreases n, 1
  {
    pages[n].reading.Chunked? && Waiting(pages, batchSize, n) + |KeptOf(pages, n)| >= batchSize
  }

  /** How many chunks wait to be flushed after `n` pages. */
  function Waiting(pages: seq<CrawlPage>, batchSize: nat, n: nat): nat
    requires n <= |pages|
    decreases n, 0
  {
    if n == 0 || FlushesAt(pages, batchSize, n - 1) then 0
    else Waiting(pages, batchSize, n - 1) + |KeptOf(pages, n - 1)|
  }

  /** Checkpoints passed in the first `n` pages: one a page and one a flush. */
  function Passed(pages: seq<CrawlPage>, batchSize: nat, n: nat): nat
    requires n <= |pages|
  {
    if n == 0 then 0
    else Passed(pages, batchSize, n - 1) + if FlushesAt(pages, batchSize, n - 1) then 2 else 1
  }

  /** All checkpoints of the loop, the one before a last flush included. */
  function Checkpoints(pages: seq<CrawlPage>, batchSize: nat): nat {
    Passed(pages, batchSize, |pages|) + if Waiting(pages, batchSize, |pages|) > 0 then 1 else 0
  }

  lemma {:induction false} PassedGrows(pages: seq<CrawlPage>, batchSize: nat, n: nat)
    requires n <= |pages|
    ensures Passed(pages, batchSize, n) + (|pages| - n) <= Passed(pages, batchSize, |pages|)
    decreases |pages| - n
  {
    hide FlushesAt;
    if n < |pages| {
      PassedGrows(pages, batchSize, n + 1);
    }
  }

  /** What one page adds. */
  lemma PageStep(pages: seq<CrawlPage>, batchSize: nat, n: nat)
    requires n < |pages|
    ensures FlushesAt(pages, batchSize, n)
       <==> pages[n].reading.Chunked? && Waiting(pages, batchSize, n) + |KeptOf(pages, n)| >= batchSize
    ensures Passed(pages, batchSize, n + 1)
         == Passed(pages, batchSize, n) + if FlushesAt(pages, batchSize, n) then 2 else 1
    ensures Waiting(pages, batchSize, n + 1)
         == if FlushesAt(pages, batchSize, n) then 0 else Waiting(pages, batchSize, n) + |KeptOf(pages, n)|
    ensures Passed(pages, batchSize, n + 1) <= Checkpoints(pages, batchSize)
  {
    hide KeptOf;
    PassedGrows(pages, batchSize, n + 1);
  }

  lemma LastFlush(pages: seq<CrawlPage>, batchSize: nat)
    ensures Checkpoints(pages, batchSize)
         == Passed(pages, batchSize, |pages|) + if Waiting(pages, batchSize, |pages|) > 0 then 1 else 0
    ensures Passed(pages, batchSize, 0) == 0 && Waiting(pages, batchSize, 0) == 0
  {
    hide FlushesAt;
  }

  /**
   The page loop of `_index_run`. A kill is noticed after `checkpoints` checkpoints, exactly if the loop has
   more. Then, as at the end, the counters report how the pages seen ended, and balance, and what was flushed
   is a prefix of the kept chunks, in batches no smaller than the size but for what is left at the end; an
   uninterrupted loop flushes them all.
   */
  method IndexPages(pages: seq<CrawlPage>, batchSize: nat, checkpoints: nat)
    returns (killed: bool, status: RunStatus, flushed: seq<seq<Chunk>>)
    ensures fresh(status) && status.Balanced() && status.pagesSeen <= |pages|
    ensures status.Reports(pages[..status.pagesSeen])
    ensures Concat(flushed) <= KeptUpTo(pages, status.pagesSeen)
    ensures |KeptUpTo(pages, status.pagesSeen)| + status.skippedRepeat == TotalUpTo(pages, status.pagesSeen)
    ensures killed <==> checkpoints < Checkpoints(pages, batchSize)
    ensures Batched(flushed, batchSize, killed)
    ensures !killed ==> |flushed| == Checkpoints(pages, batchSize) - |pages|
    ensures !killed ==> status.pagesSeen == |pages| && Concat(flushed) == KeptUpTo(pages, |pages|)
  {
    hide Owns, Kept, KeptOf, Admit, Claim, Concat, Passed, Waiting, FlushesAt, Checkpoints, PagesAs, StubsOf,
      Batched, Flushing, KeptUpTo, TotalUpTo, FirstCarrier;
    status := new RunStatus();
    flushed := [];
    var pending: seq<Chunk> := [];
    var owners: map<string, string> := map[];
    var left: nat := checkpoints;
    AtTheStart(pages);
    LastFlush(pages, batchSize);
    assert pages[..|pages|] == pages;
    for n := 0 to |pages|
      invariant fresh(status) && status.Balanced() && status.pagesSeen == n
      invariant status.Reports(pages[..n])
      invariant Owns(pages, n, owners) && Flushing(pages, n, flushed, pending)
      invariant |flushed| + n == Passed(pages, batchSize, n) && Batched(flushed, batchSize, true)
      invariant |KeptUpTo(pages, n)| + status.skippedRepeat == TotalUpTo(pages, n)
      invariant left + Passed(pages, batchSize, n) == checkpoints && |pending| == Waiting(pages, batchSize, n)
    {
      PageStep(pages, batchSize, n);
      CountStep(pages, n);
      NothingWaits(pages, n, flushed, pending);
      if left == 0 {
        return true, status, flushed;
      }
      left := left - 1;
      var page := pages[n];
      status.pagesSeen := status.pagesSeen + 1;
      match page.reading {
        case Refused(reason) =>
          status.SkipUnusable(reason);
          NoChunksKeepOwns(pages, n, owners);
          NothingKept(pages, n);
          MoreWaiting(pages, n, flushed, pending, []);
          assert pending + [] == pending;
        case Chunked(chunks, stubs) =>
          status.pagesEnglish := status.pagesEnglish + 1;
          status.skippedStub := status.skippedStub + stubs;
          AdmitIsKept(pages, n, owners);
          ClaimKeepsOwns(pages, n, owners);
          var kept;
          kept, owners := AdmitPageNodes(page.id, chunks, owners, status);
          MoreWaiting(pages, n, flushed, pending, kept);
          pending := pending + kept;
          if |pending| >= batchSize {
            NothingWaits(pages, n + 1, flushed, pending);
            if left == 0 {
              return true, status, flushed;
            }
            left := left - 1;
            BatchedStep(flushed, batchSize, pending);
            flushed := flushed + [pending];
            pending := [];
          }
      }
    }
    BatchedStep(flushed, batchSize, pending);
    NothingWaits(pages, |pages|, flushed, pending);
    if pending != [] {
      if left == 0 {
        return true, status, flushed;
      }
      NothingWaits(pages, |pages|, flushed + [pending], []);
      flushed := flushed + [pending];
    }
    killed := false;
  }

  /** Every batch, or every one but the last, holds at least `size` chunks. */
  predicate Batched(flushed: seq<seq<Chunk>>, size: nat, all: bool) {
    forall j | 0 <= j < |flushed| :: |flushed[j]| >= size || (!all && j == |flushed| - 1)
  }

  lemma BatchedStep(flushed: seq<seq<Chunk>>, size: nat, batch: seq<Chunk>)
    requires Batched(flushed, size, true)
    ensures Batched(flushed + [batch], size, |batch| >= size) && Batched(flushed, size, false)
    ensures Batched(flushed + [batch], size, false)
  {
  }

  lemma AtTheStart(pages: seq<CrawlPage>)
    ensures Owns(pages, 0, map[]) && Flushing(pages, 0, [], [])
    ensures |KeptUpTo(pages, 0)| == 0 == TotalUpTo(pages, 0) && forall size :: Batched([], size, true)
    ensures StubsOf(pages[..0]) == 0 && forall outcome :: PagesAs(pages[..0], outcome) == 0
  {
  }

  lemma NothingKept(pages: seq<CrawlPage>, n: nat)
    requires n < |pages| && ChunksOf(pages[n]) == []
    ensures KeptOf(pages, n) == []
  {
  }

  // ---- What the run keeps ----

  predicate DistinctIds(pages: seq<CrawlPage>) {
    forall i, j | 0 <= i < j < |pages| :: pages[i].id != pages[j].id
  }

  /** Over pages with ids of their own, all kept chunks of one text are on the first page that carries it. */
  lemma FirstPageOwns(pages: seq<CrawlPage>, i: nat, chunk: Chunk)
    requires DistinctIds(pages) && i < |pages| && chunk.digest != "" && chunk in ChunksOf(pages[i])
    ensures chunk in KeptOf(pages, i) <==> i == FirstCarrier(pages, chunk.digest)
  {
    FirstCarrierIs(pages, chunk.digest);
    CarrierNotLater(pages, i, chunk);
    SelectedHas(ChunksOf(pages[i]), c => Kept(pages, i, c));
  }

  lemma CarrierNotLater(pages: seq<CrawlPage>, i: nat, chunk: Chunk)
    requires i < |pages| && chunk in ChunksOf(pages[i])
    ensures FirstCarrier(pages, chunk.digest) <= i
  {
    FirstCarrierIs(pages, chunk.digest);
    var k :| 0 <= k < |ChunksOf(pages[i])| && ChunksOf(pages[i])[k] == chunk;
    assert Carries(pages[i], chunk.digest);
  }

  /** No text is lost: a dropped chunk's text was kept from an earlier page, whatever the page ids. */
  lemma DroppedWasKept(pages: seq<CrawlPage>, i: nat, chunk: Chunk) returns (first: nat, twin: Chunk)
    requires i < |pages| && chunk in ChunksOf(pages[i]) && chunk !in KeptOf(pages, i)
    ensures first < i && twin in KeptOf(pages, first) && twin.digest == chunk.digest
  {
    first := FirstCarrier(pages, chunk.digest);
    FirstCarrierIs(pages, chunk.digest);
    CarrierNotLater(pages, i, chunk);
    SelectedHas(ChunksOf(pages[i]), c => Kept(pages, i, c));
    SelectedHas(ChunksOf(pages[first]), c => Kept(pages, first, c));
    var k :| 0 <= k < |ChunksOf(pages[first])| && ChunksOf(pages[first])[k].digest == chunk.digest;
    twin := ChunksOf(pages[first])[k];
  }
}
