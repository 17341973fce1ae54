/**
 Embedding with deduplication and a cache (`src/geek_crawler_rag/llama_engine.py` over
 `vector_cache.py`): however the cache answers, a node gets the vector of its own text.
 */
module EmbeddingCache {
  import opened Wrappers
  import opened Sequences
  import opened Text
  import opened EmbeddingBatching

  type Vec = seq<real>

  /** The embedding model, pointwise on texts, its token count, and the cleaning done before it. */
  datatype Model = Model(name: string, clean: string -> string, embed: string -> Vec, count: string -> nat)

  /** The vector a text stands for. */
  function VectorOf(m: Model, text: string): Vec {
    m.embed(m.clean(text))
  }

  function Vectors(m: Model, texts: seq<string>): seq<Vec> {
    seq(|texts|, i requires 0 <= i < |texts| => VectorOf(m, texts[i]))
  }

  predicate Blank(text: string) {
    Strip(text) == ""
  }

  /** What is left of the texts to embed: cleaned, and the blank ones dropped. */
  function Kept(m: Model, texts: seq<string>): seq<string>
    decreases |texts|
  {
    if texts == [] then []
    else
      var front, text := Kept(m, texts[..|texts| - 1]), m.clean(texts[|texts| - 1]);
      if Blank(text) then front else front + [text]
  }

  function EmbedAll(m: Model, texts: seq<string>): seq<Vec> {
    seq(|texts|, i requires 0 <= i < |texts| => m.embed(texts[i]))
  }

  /** What embedding these texts raises: nothing is split if none is left, else what the split raises. */
  function Refusal(m: Model, limits: Limits, texts: seq<string>): Option<BatchError> {
    var kept := Kept(m, texts);
    if kept == [] then None
    else if limits.maxItems <= 0 || limits.maxTokens <= 0 then Some(LimitsNotPositive)
    else
      match FirstTooLong(m.count, limits, kept)
      case Some(text) => Some(InputTooLong(Weight(m.count, text)))
      case None => None
  }

  predicate NoneBlank(m: Model, texts: seq<string>) {
    forall i | 0 <= i < |texts| :: !Blank(m.clean(texts[i]))
  }

  function Cleaned(m: Model, texts: seq<string>): seq<string> {
    seq(|texts|, i requires 0 <= i < |texts| => m.clean(texts[i]))
  }

  lemma KeptStep(m: Model, texts: seq<string>, text: string)
    ensures Kept(m, texts + [text])
         == if Blank(m.clean(text)) then Kept(m, texts) else Kept(m, texts) + [m.clean(text)]
  {
    assert (texts + [text])[..|texts|] == texts;
  }

  /** Nothing is dropped exactly when no text is blank. */
  lemma {:induction false} KeptWhole(m: Model, texts: seq<string>)
    ensures |Kept(m, texts)| <= |texts|
    ensures |Kept(m, texts)| == |texts| <==> NoneBlank(m, texts)
    ensures NoneBlank(m, texts) ==> Kept(m, texts) == Cleaned(m, texts)
    decreases |texts|
  {
    hide Blank;
    if texts != [] {
      var front, last := texts[..|texts| - 1], texts[|texts| - 1];
      assert texts == front + [last];
      KeptWhole(m, front);
      KeptStep(m, front, last);
      assert NoneBlank(m, texts) <==> NoneBlank(m, front) && !Blank(m.clean(last));
    }
  }

  // ---- The cache ----

  /** One stored document. */
  datatype Stored = NotAVector | Vector(values: Vec)

  /** Documents by model and text; the digest in the key tells all of these apart. */
  type Entries = map<(string, string), Stored>

  predicate Hit(entries: Entries, model: string, dimensions: nat, text: string) {
    (model, text) in entries && entries[(model, text)].Vector? && |entries[(model, text)].values| == dimensions
  }

  /** Every entry this model would read back is the model's own vector for its text. */
  ghost predicate Truthful(entries: Entries, m: Model, dimensions: nat) {
    forall text | Hit(entries, m.name, dimensions, text) :: entries[(m.name, text)].values == VectorOf(m, text)
  }

  /** What a lookup of these texts finds. */
  function Known(entries: Entries, model: string, dimensions: nat, texts: seq<string>): map<string, Vec> {
    map t | t in texts && Hit(entries, model, dimensions, t) :: entries[(model, t)].values
  }

  /** A vector of these that is new to the documents and of the right width. */
  predicate IsInserted(before: Entries, model: string, dimensions: nat, vectors: map<string, Vec>, landed: set<string>,
                       key: (string, string))
  {
    && key !in before && key.0 == model
    && key.1 in vectors && key.1 in landed && |vectors[key.1]| == dimensions
  }

  /** `after` is what an insert-only write of which only the texts in `landed` got through makes of `before`. */
  ghost predicate Inserted(before: Entries, after: Entries, model: string, dimensions: nat, vectors: map<string, Vec>,
                           landed: set<string>)
  {
    && (forall key :: key in after <==> key in before || IsInserted(before, model, dimensions, vectors, landed, key))
    && (forall key | key in before && key in after :: after[key] == before[key])
    && (forall key | key in after && key !in before && key.1 in vectors :: after[key] == Vector(vectors[key.1]))
  }

  class VectorCache {
    const model: string
    const dimensions: nat
    var entries: Entries
    var hits: nat
    var misses: nat

    constructor (model: string, dimensions: nat, entries: Entries)
      ensures this.model == model && this.dimensions == dimensions && this.entries == entries
      ensures hits == 0 && misses == 0
    {
      this.model, this.dimensions, this.entries := model, dimensions, entries;
      hits, misses := 0, 0;
    }

    /** `get_many`; a read that fails finds nothing and counts nothing. */
    method GetMany(texts: seq<string>, readable: bool) returns (found: map<string, Vec>)
      modifies this`hits, this`misses
      ensures found == if readable then Known(entries, model, dimensions, texts) else map[]
      ensures readable ==> hits == old(hits) + |found| && hits + misses == old(hits) + old(misses) + |Dedup(texts)|
      ensures !readable ==> hits == old(hits) && misses == old(misses)
    {
      if !readable {
        return map[];
      }
      var wanted := Dedup(texts);
      found := Lookup(wanted);
      SameKnown(entries, model, dimensions, texts);
      hits := hits + |found|;
      misses := misses + (|wanted| - |found|);
    }

    /** The `find` and the reading of its answer. */
    method Lookup(wanted: seq<string>) returns (found: map<string, Vec>)
      ensures found == Known(entries, model, dimensions, wanted) && |found| <= |wanted|
    {
      hide Known;
      found := map[];
      assert found == Known(entries, model, dimensions, wanted[..0]) by { NothingKnown(entries, model, dimensions); }
      for i := 0 to |wanted|
        invariant found == Known(entries, model, dimensions, wanted[..i]) && |found| <= i
      {
        var text := wanted[i];
        KnownStep(entries, model, dimensions, wanted[..i], text);
        assert wanted[..i + 1] == wanted[..i] + [text];
        if (model, text) in entries {
          var stored := entries[(model, text)];
          if stored.Vector? && |stored.values| == dimensions {
            found := found[text := stored.values];
          }
        }
      }
      assert wanted[..|wanted|] == wanted;
    }

    /** `put_many`: it never overwrites, and a write that fails in part leaves out what did not land. */
    method PutMany(vectors: map<string, Vec>, landed: set<string>)
      modifies this`entries
      ensures Inserted(old(entries), entries, model, dimensions, vectors, landed)
    {
      hide Inserted;
      var pending := vectors.Keys * landed;
      ghost var done: set<string> := {};
      NothingInserted(entries, model, dimensions, vectors);
      while pending != {}
        invariant pending + done == vectors.Keys * landed && pending !! done
        invariant Inserted(old(entries), entries, model, dimensions, vectors, done)
        decreases |pending|
      {
        var text :| text in pending;
        InsertedStep(old(entries), entries, model, dimensions, vectors, done, text);
        pending := pending - {text};
        done := done + {text};
        if |vectors[text]| == dimensions && (model, text) !in entries {
          entries := entries[(model, text) := Vector(vectors[text])];
        }
      }
      assert done == vectors.Keys * landed;
      OnlyWritten(old(entries), entries, model, dimensions, vectors, landed);
    }
  }

  lemma NothingKnown(entries: Entries, model: string, dimensions: nat)
    ensures Known(entries, model, dimensions, []) == map[]
  {
  }

  lemma KnownStep(entries: Entries, model: string, dimensions: nat, texts: seq<string>, text: string)
    ensures Known(entries, model, dimensions, texts + [text])
         == if Hit(entries, model, dimensions, text)
            then Known(entries, model, dimensions, texts)[text := entries[(model, text)].values]
            else Known(entries, model, dimensions, texts)
  {
  }

  lemma SameKnown(entries: Entries, model: string, dimensions: nat, texts: seq<string>)
    ensures Known(entries, model, dimensions, Dedup(texts)) == Known(entries, model, dimensions, texts)
  {
    DedupKeeps(texts);
  }

  lemma NothingInserted(entries: Entries, model: string, dimensions: nat, vectors: map<string, Vec>)
    ensures Inserted(entries, entries, model, dimensions, vectors, {})
  {
  }

  lemma InsertedStep(before: Entries, entries: Entries, model: string, dimensions: nat, vectors: map<string, Vec>,
                     done: set<string>, text: string)
    requires text in vectors && text !in done && Inserted(before, entries, model, dimensions, vectors, done)
    ensures Inserted(before,
                     if |vectors[text]| == dimensions && (model, text) !in entries
                     then entries[(model, text) := Vector(vectors[text])] else entries,
                     model, dimensions, vectors, done + {text})
  {
  }

  /** What lands only matters among the texts being written. */
  lemma OnlyWritten(before: Entries, after: Entries, model: string, dimensions: nat, vectors: map<string, Vec>,
                    landed: set<string>)
    requires Inserted(before, after, model, dimensions, vectors, vectors.Keys * landed)
    ensures Inserted(before, after, model, dimensions, vectors, landed)
  {
    assert forall key :: IsInserted(before, model, dimensions, vectors, vectors.Keys * landed, key)
                    <==> IsInserted(before, model, dimensions, vectors, landed, key);
  }

  /** Entries are only ever added. */
  lemma InsertedKeeps(before: Entries, after: Entries, model: string, dimensions: nat, vectors: map<string, Vec>,
                      landed: set<string>)
    requires Inserted(before, after, model, dimensions, vectors, landed)
    ensures forall key | key in before :: key in after && after[key] == before[key]
  {
  }

  /** Writing the model's own vectors keeps the cache truthful, whatever part of the write lands. */
  lemma InsertedTruthful(before: Entries, after: Entries, m: Model, dimensions: nat, vectors: map<string, Vec>,
                         landed: set<string>)
    requires Truthful(before, m, dimensions) && Inserted(before, after, m.name, dimensions, vectors, landed)
    requires forall t | t in vectors :: vectors[t] == VectorOf(m, t)
    ensures Truthful(after, m, dimensions)
  {
    hide VectorOf;
    forall t | Hit(after, m.name, dimensions, t) ensures after[(m.name, t)].values == VectorOf(m, t) {
      if (m.name, t) in before {
        assert Hit(before, m.name, dimensions, t);
      }
    }
  }

  // ---- The engine ----

  /** The distinct texts the cache has no vector for. */
  function Missing(texts: seq<string>, found: set<string>): seq<string>
    decreases |texts|
  {
    if texts == [] then []
    else
      var front, last := Missing(texts[..|texts| - 1], found), texts[|texts| - 1];
      if last in found then front else front + [last]
  }

  lemma {:induction false} MissingIs(texts: seq<string>, found: set<string>)
    ensures forall t :: t in Missing(texts, found) <==> t in texts && t !in found
    ensures Distinct(texts) ==> Distinct(Missing(texts, found))
    decreases |texts|
  {
    if texts != [] {
      MissingIs(texts[..|texts| - 1], found);
      assert texts == texts[..|texts| - 1] + [texts[|texts| - 1]];
    }
  }

  /** The distinct texts a lookup leaves to embed. */
  function Unknown(entries: Entries, m: Model, dimensions: nat, texts: seq<string>, readable: bool): seq<string> {
    Missing(Dedup(texts), (if readable then Known(entries, m.name, dimensions, texts) else map[]).Keys)
  }

  /** What embedding with the cache raises: over the unknown texts, or over all of them if it is done by position. */
  function DedupRefusal(m: Model, limits: Limits, missing: seq<string>, texts: seq<string>): Option<BatchError> {
    if Refusal(m, limits, missing).Some? || NoneBlank(m, missing) then Refusal(m, limits, missing)
    else Refusal(m, limits, texts)
  }

  class Engine {
    const m: Model
    const limits: Limits
    const cache: VectorCache
    /** History: every text handed to the model. */
    ghost var submitted: seq<string>

    constructor (m: Model, limits: Limits, cache: VectorCache)
      requires cache.model == m.name
      ensures this.m == m && this.limits == limits && this.cache == cache && submitted == []
    {
      this.m, this.limits, this.cache, submitted := m, limits, cache, [];
    }

    /** `embed_texts`: the vectors of the cleaned, non-blank texts, batch by batch. */
    method EmbedTexts(texts: seq<string>) returns (r: Result<seq<Vec>, BatchError>)
      modifies this`submitted
      ensures match Refusal(m, limits, texts)
              case Some(e) => r == Err(e) && submitted == old(submitted)
              case None => r == Ok(EmbedAll(m, Kept(m, texts))) && submitted == old(submitted) + Kept(m, texts)
    {
      hide Kept, FirstTooLong, Greedy, Concat, Counted;
      var filtered := CleanedNonBlank(m, texts);
      if filtered == [] {
        assert EmbedAll(m, filtered) == [];
        assert submitted == old(submitted) + filtered;
        return Ok([]);
      }
      var split := PartitionEmbeddingBatches(m.count, limits, filtered);
      if split.Err? {
        return Err(split.error);
      }
      GreedyHoldsAll(m, limits, split.value, filtered);
      var vectors := EmbedBatches(split.value);
      return Ok(vectors);
    }

    method EmbedBatches(batches: seq<Batch>) returns (embeddings: seq<Vec>)
      modifies this`submitted
      ensures embeddings == EmbedAll(m, Concat(Texts(batches)))
      ensures submitted == old(submitted) + Concat(Texts(batches))
    {
      hide Concat;
      ghost var parts := Texts(batches);
      embeddings := [];
      NoParts();
      assert parts[..0] == [];
      for i := 0 to |batches|
        invariant embeddings == EmbedAll(m, Concat(parts[..i])) && submitted == old(submitted) + Concat(parts[..i])
      {
        assert parts[..i + 1] == parts[..i] + [parts[i]];
        ConcatStep(parts[..i], parts[i]);
        var vectors := EmbedBatch(batches[i]);
        embeddings := embeddings + vectors;
      }
      assert parts[..|parts|] == parts;
    }

    method EmbedBatch(batch: Batch) returns (vectors: seq<Vec>)
      modifies this`submitted
      ensures vectors == EmbedAll(m, batch.texts) && submitted == old(submitted) + batch.texts
    {
      submitted := submitted + batch.texts;
      vectors := seq(|batch.texts|, i requires 0 <= i < |batch.texts| => m.embed(batch.texts[i]));
    }

    /** Embed and store the unknown texts; `None` when the answer does not line up with them. */
    method EmbedMissing(missing: seq<string>, landed: set<string>)
      returns (r: Result<Option<map<string, Vec>>, BatchError>)
      requires cache.model == m.name && Truthful(cache.entries, m, cache.dimensions) && Distinct(missing)
      modifies this`submitted, cache
      ensures Truthful(cache.entries, m, cache.dimensions)
      ensures forall key | key in old(cache.entries) :: key in cache.entries
               && cache.entries[key] == old(cache.entries)[key]
      ensures match Refusal(m, limits, missing)
              case Some(e) => r == Err(e) && submitted == old(submitted) && cache.entries == old(cache.entries)
              case None =>
                r.Ok? && (r.value.Some? <==> NoneBlank(m, missing)) && submitted == old(submitted) + Kept(m, missing)
      ensures r.Ok? && r.value.Some? ==>
                && (forall t :: t in r.value.value <==> t in missing)
                && (forall t | t in missing :: r.value.value[t] == VectorOf(m, t))
                && submitted == old(submitted) + Cleaned(m, missing)
    {
      hide Kept, FirstTooLong, Truthful, Inserted, NoneBlank, VectorOf, Refusal;
      KeptWhole(m, missing);
      NothingKept(m);
      if missing == [] {
        NothingRefused(m, limits);
        assert submitted == old(submitted) + [];
        return Ok(Some(map[]));
      }
      var vectors := EmbedTexts(missing);
      if vectors.Err? {
        return Err(vectors.error);
      }
      if |vectors.value| != |missing| {
        return Ok(None);
      }
      var embedded := Zip(missing, vectors.value);
      OwnVectors(m, missing, vectors.value);
      cache.PutMany(embedded, landed);
      InsertedTruthful(old(cache.entries), cache.entries, m, cache.dimensions, embedded, landed);
      InsertedKeeps(old(cache.entries), cache.entries, m.name, cache.dimensions, embedded, landed);
      return Ok(Some(embedded));
    }

    /**
     `_embed_deduplicated`. With a truthful cache, whichever texts it knows, every text gets its own
     vector in its own position; each distinct unknown text is embedded once; and if one of those turns out
     blank, the texts are embedded again by position, without the cache.
     */
    method EmbedDeduplicated(texts: seq<string>, readable: bool, landed: set<string>)
      returns (r: Result<seq<Vec>, BatchError>)
      requires cache.model == m.name && Truthful(cache.entries, m, cache.dimensions)
      modifies this`submitted, cache
      ensures Truthful(cache.entries, m, cache.dimensions)
      ensures forall key | key in old(cache.entries) :: key in cache.entries
               && cache.entries[key] == old(cache.entries)[key]
      ensures var missing := Unknown(old(cache.entries), m, cache.dimensions, texts, readable);
              match DedupRefusal(m, limits, missing, texts)
              case Some(e) => r == Err(e)
              case None =>
                if NoneBlank(m, missing)
                then r == Ok(Vectors(m, texts)) && submitted == old(submitted) + Cleaned(m, missing)
                else r == Ok(EmbedAll(m, Kept(m, texts)))
                     && submitted == old(submitted) + Kept(m, missing) + Kept(m, texts)
      ensures NoneBlank(m, texts) ==>
                NoneBlank(m, Unknown(old(cache.entries), m, cache.dimensions, texts, readable))
    {
      hide Kept, FirstTooLong, Truthful, Known, NoneBlank, VectorOf, Vectors, Refusal, Dedup, Missing, Cleaned,
           EmbedAll;
      var unique := Dedup(texts);
      DedupKeeps(texts);
      SameKnown(cache.entries, m.name, cache.dimensions, texts);
      KnownTruthful(cache.entries, m, cache.dimensions, texts);
      var cached := cache.GetMany(unique, readable);
      var missing := MissingFrom(unique, cached);
      MissingIs(unique, cached.Keys);
      MissingOf(m, texts, missing);
      var outcome := EmbedMissing(missing, landed);
      if outcome.Err? {
        return Err(outcome.error);
      }
      if outcome.value.None? {
        r := EmbedTexts(texts);
        return;
      }
      return Ok(Recombine(m, texts, cached, outcome.value.value));
    }

    /** `embed_and_upsert`: what is written is each text that is not blank, cleaned, with its own vector. */
    method EmbedAndUpsert(raw: seq<string>, readable: bool, landed: set<string>)
      returns (r: Result<seq<(string, Vec)>, BatchError>)
      requires cache.model == m.name && Truthful(cache.entries, m, cache.dimensions)
      requires forall t :: m.clean(m.clean(t)) == m.clean(t)
      modifies this`submitted, cache
      ensures Truthful(cache.entries, m, cache.dimensions)
      ensures var missing := Unknown(old(cache.entries), m, cache.dimensions, Kept(m, raw), readable);
              match Refusal(m, limits, missing)
              case Some(e) => r == Err(e)
              case None => r.Ok?
      ensures r.Ok? ==>
                && |r.value| == |Kept(m, raw)|
                && forall i | 0 <= i < |r.value| :: r.value[i] == (Kept(m, raw)[i], m.embed(Kept(m, raw)[i]))
    {
      hide Kept, FirstTooLong, Truthful, Inserted, Known, NoneBlank, Refusal, Unknown;
      var keep := CleanedNonBlank(m, raw);
      if keep == [] {
        NothingUnknown(cache.entries, m, limits, cache.dimensions, readable);
        return Ok([]);
      }
      KeptIsClean(m, raw);
      var vectors := EmbedDeduplicated(keep, readable, landed);
      if vectors.Err? {
        return Err(vectors.error);
      }
      return Ok(seq(|keep|, i requires 0 <= i < |keep| => (keep[i], vectors.value[i])));
    }
  }

  lemma NothingRefused(m: Model, limits: Limits)
    ensures Refusal(m, limits, []) == None && NoneBlank(m, []) && Cleaned(m, []) == []
  {
  }

  lemma NothingUnknown(entries: Entries, m: Model, limits: Limits, dimensions: nat, readable: bool)
    ensures Refusal(m, limits, Unknown(entries, m, dimensions, [], readable)) == None
  {
  }

  method CleanedNonBlank(m: Model, texts: seq<string>) returns (filtered: seq<string>)
    ensures filtered == Kept(m, texts)
  {
    hide Kept, Strip;
    filtered := [];
    NothingKept(m);
    assert texts[..0] == [];
    for i := 0 to |texts|
      invariant filtered == Kept(m, texts[..i])
    {
      KeptStep(m, texts[..i], texts[i]);
      assert texts[..i + 1] == texts[..i] + [texts[i]];
      var text := m.clean(texts[i]);
      if Strip(text) != "" {
        filtered := filtered + [text];
      }
    }
    assert texts[..|texts|] == texts;
  }

  /** Every text gets the vector found or made for it, in the texts' own order. */
  function Recombine(m: Model, texts: seq<string>, cached: map<string, Vec>, embedded: map<string, Vec>): (r: seq<Vec>)
    requires forall t | t in texts :: t in cached || t in embedded
    requires forall t | t in cached :: cached[t] == VectorOf(m, t)
    requires forall t | t in embedded :: embedded[t] == VectorOf(m, t)
    ensures r == Vectors(m, texts)
  {
    var byText := cached + embedded;
    seq(|texts|, i requires 0 <= i < |texts| => byText[texts[i]])
  }

  lemma GreedyHoldsAll(m: Model, limits: Limits, batches: seq<Batch>, texts: seq<string>)
    requires Greedy(m.count, limits, Texts(batches), texts)
    ensures Concat(Texts(batches)) == texts
  {
  }

  lemma NoParts()
    ensures Concat<string>([]) == []
  {
  }

  lemma NothingKept(m: Model)
    ensures Kept(m, []) == []
  {
  }

  lemma KnownTruthful(entries: Entries, m: Model, dimensions: nat, texts: seq<string>)
    requires Truthful(entries, m, dimensions)
    ensures forall t | t in Known(entries, m.name, dimensions, texts) ::
              t in texts && Known(entries, m.name, dimensions, texts)[t] == VectorOf(m, t)
  {
  }

  lemma OwnVectors(m: Model, missing: seq<string>, vectors: seq<Vec>)
    requires Distinct(missing) && |vectors| == |missing| && vectors == EmbedAll(m, Cleaned(m, missing))
    ensures forall t | t in missing :: Zip(missing, vectors)[t] == VectorOf(m, t)
  {
  }

  lemma MissingOf(m: Model, texts: seq<string>, missing: seq<string>)
    requires forall t | t in missing :: t in texts
    ensures NoneBlank(m, texts) ==> NoneBlank(m, missing)
  {
    hide Blank;
    if NoneBlank(m, texts) {
      forall i | 0 <= i < |missing| ensures !Blank(m.clean(missing[i])) {
        assert missing[i] in texts;
      }
    }
  }

  method MissingFrom(unique: seq<string>, cached: map<string, Vec>) returns (missing: seq<string>)
    ensures missing == Missing(unique, cached.Keys)
  {
    missing := [];
    for i := 0 to |unique|
      invariant missing == Missing(unique[..i], cached.Keys)
    {
      assert unique[..i + 1][..i] == unique[..i];
      if unique[i] !in cached {
        missing := missing + [unique[i]];
      }
    }
    assert unique[..|unique|] == unique;
  }

  function Zip(texts: seq<string>, vectors: seq<Vec>): (r: map<string, Vec>)
    requires |vectors| == |texts| && Distinct(texts)
    ensures forall t :: t in r <==> t in texts
    ensures forall i | 0 <= i < |texts| :: r[texts[i]] == vectors[i]
    decreases |texts|
  {
    if texts == [] then map[]
    else
      assert texts == texts[..|texts| - 1] + [texts[|texts| - 1]];
      Zip(texts[..|texts| - 1], vectors[..|texts| - 1])[texts[|texts| - 1] := vectors[|texts| - 1]]
  }

  /** Texts cleaned once are neither changed nor dropped by cleaning them again. */
  lemma {:induction false} KeptIsClean(m: Model, raw: seq<string>)
    requires forall t :: m.clean(m.clean(t)) == m.clean(t)
    ensures NoneBlank(m, Kept(m, raw))
    ensures forall i | 0 <= i < |Kept(m, raw)| :: m.clean(Kept(m, raw)[i]) == Kept(m, raw)[i]
    decreases |raw|
  {
    hide Blank;
    if raw != [] {
      KeptIsClean(m, raw[..|raw| - 1]);
    }
  }
}
