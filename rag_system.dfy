/** The in-memory knowledge base that backs retrieval-augmented generation: two
    parallel lists, the entries and their embeddings, seeded with seven data-quality
    patterns, and a top-n retrieval by similarity to a query. The sentence encoder
    and the cosine similarity are parameters. */
module RagSystem {
  import opened JsonData
  import opened Sorting

  type Embedding = seq<real>

  /** `SentenceTransformer('all-MiniLM-L6-v2').encode` */
  type Encoder = string -> Embedding

  /** `np.dot(q, e) / (np.linalg.norm(q) * np.linalg.norm(e))` */
  type Similarity = (Embedding, Embedding) -> real

  /** A knowledge-base entry: `{'id', 'text', 'metadata'}`. */
  datatype Entry = Entry(id: string, text: string, metadata: Object)

  /** A retrieved entry: a copy of the entry with its `similarity` added. */
  datatype Hit = Hit(id: string, text: string, metadata: Object, similarity: real)

  /** One curated item of `_initialize_knowledge_base`: its id and the position of
      its texts in the table below. */
  datatype Seed = Seed(id: string, item: nat)

  function Seeds(): seq<Seed> {
    [ Seed("completeness_1", 0), Seed("completeness_2", 1), Seed("consistency_1", 2),
      Seed("outlier_1", 3), Seed("uniqueness_1", 4), Seed("accuracy_1", 5),
      Seed("timeliness_1", 6) ]
  }

  /** The pattern, diagnosis, solution and risk of each curated item, by position. */
  function ItemTexts(item: nat): (string, string, string, string) {
    if item == 0 then
      ("High missing rate in single column",
       "Column may be optional or recently added",
       "Impute using median/mode or create indicator variable",
       "Medium - may lose information if dropped")
    else if item == 1 then
      ("Correlated missing values across multiple columns",
       "Systematic data collection issue or conditional logic",
       "Investigate data source, consider multivariate imputation",
       "High - indicates structural problem")
    else if item == 2 then
      ("Multiple formats for same data type",
       "Inconsistent data entry or multiple data sources",
       "Standardize format using regex/parsing rules",
       "Low - can be automated safely")
    else if item == 3 then
      ("Extreme values in bounded field",
       "Data entry error or measurement error",
       "Cap/floor values, investigate source",
       "Medium - may be legitimate extreme cases")
    else if item == 4 then
      ("Duplicate records with minor variations",
       "Fuzzy duplicates from data entry or merging",
       "Use fuzzy matching (Levenshtein distance) for deduplication",
       "High - incorrect merging loses data")
    else if item == 5 then
      ("Values outside expected range",
       "Data entry errors or system glitches",
       "Apply range validation and outlier detection",
       "Medium - some outliers may be valid")
    else
      ("Outdated or stale data",
       "Delayed data pipeline or collection issues",
       "Implement automated data refresh schedules",
       "Low - straightforward fix")
  }

  function Pattern(s: Seed): string { ItemTexts(s.item).0 }
  function Diagnosis(s: Seed): string { ItemTexts(s.item).1 }
  function Solution(s: Seed): string { ItemTexts(s.item).2 }
  function Risk(s: Seed): string { ItemTexts(s.item).3 }

  /** The text an item is embedded by. */
  function SeedText(s: Seed): string {
    Pattern(s) + " | " + Diagnosis(s) + " | " + Solution(s)
  }

  /** The item itself, stored as the entry's metadata. */
  function SeedMetadata(s: Seed): Object {
    map[
      "id" := JStr(s.id),
      "pattern" := JStr(Pattern(s)),
      "diagnosis" := JStr(Diagnosis(s)),
      "solution" := JStr(Solution(s)),
      "risk" := JStr(Risk(s))]
  }

  function SeedEntry(s: Seed): Entry {
    Entry(s.id, SeedText(s), SeedMetadata(s))
  }

  /** The entries the seeding adds, in the listed order. */
  function SeedEntries(seeds: seq<Seed>): seq<Entry> {
    if seeds == [] then [] else SeedEntries(seeds[..|seeds| - 1]) + [SeedEntry(seeds[|seeds| - 1])]
  }

  /** Seeding adds seven entries, one per curated item in the listed order, each
      embedded by its "pattern | diagnosis | solution" text and carrying the item as
      metadata. */
  lemma {:induction false} SeedEntriesLayout(seeds: seq<Seed>)
    ensures |SeedEntries(seeds)| == |seeds|
    ensures forall i :: 0 <= i < |seeds| ==>
      && SeedEntries(seeds)[i].id == seeds[i].id
      && SeedEntries(seeds)[i].text == Pattern(seeds[i]) + " | " + Diagnosis(seeds[i]) + " | " + Solution(seeds[i])
      && SeedEntries(seeds)[i].metadata == SeedMetadata(seeds[i])
  {
    if seeds != [] {
      SeedEntriesLayout(seeds[..|seeds| - 1]);
    }
  }

  /** The entries carry the items' ids, in order. */
  lemma {:induction false} SeedEntryIds(seeds: seq<Seed>)
    ensures |SeedEntries(seeds)| == |seeds|
    ensures forall i :: 0 <= i < |seeds| ==> SeedEntries(seeds)[i].id == seeds[i].id
  {
    if seeds != [] {
      SeedEntryIds(seeds[..|seeds| - 1]);
    }
  }

  lemma SeedIds()
    ensures |Seeds()| == 7
    ensures |SeedEntries(Seeds())| == 7
    ensures forall i :: 0 <= i < 7 ==> SeedEntries(Seeds())[i].id == [
      "completeness_1", "completeness_2", "consistency_1", "outlier_1",
      "uniqueness_1", "accuracy_1", "timeliness_1"][i]
  {
    var ids := ["completeness_1", "completeness_2", "consistency_1", "outlier_1",
      "uniqueness_1", "accuracy_1", "timeliness_1"];
    assert forall i :: 0 <= i < 7 ==> Seeds()[i].id == ids[i];
    SeedEntryIds(Seeds());
  }

  /** `similarities`: each embedding's position with its similarity to the query. */
  function Scores(embeddings: seq<Embedding>, query: Embedding, sim: Similarity): seq<(int, real)> {
    seq(|embeddings|, i requires 0 <= i < |embeddings| => (i, sim(query, embeddings[i])))
  }

  /** The length of Python's `xs[:n]` for a list of length `len`. */
  function PrefixLength(len: nat, n: int): (m: nat)
    ensures m <= len
    ensures n >= 0 ==> m == (if n < len then n else len)
    ensures n < 0 ==> m == (if len + n > 0 then len + n else 0)
  {
    if n >= 0 then (if n < len then n else len)
    else if len + n > 0 then len + n else 0
  }

  /** The positions sorted by similarity, best first, ties in insertion order. */
  function Ranked(embeddings: seq<Embedding>, query: Embedding, sim: Similarity): (r: seq<(int, real)>)
    ensures |r| == |embeddings|
    ensures forall k :: 0 <= k < |r| ==> 0 <= r[k].0 < |embeddings| && r[k].1 == sim(query, embeddings[r[k].0])
    ensures SortedDesc(r)
  {
    var scores := Scores(embeddings, query, sim);
    SortDescSameEntries(scores);
    SortDesc(scores)
  }

  function Copy(e: Entry, similarity: real): Hit {
    Hit(e.id, e.text, e.metadata, similarity)
  }

  /** `retrieve_relevant_knowledge`: the first `n_results` entries by similarity. */
  function Retrieved(entries: seq<Entry>, embeddings: seq<Embedding>, query: Embedding, n: int, sim: Similarity): (r: seq<Hit>)
    requires |entries| == |embeddings|
    ensures entries == [] ==> r == []
    ensures |r| == PrefixLength(|entries|, n)
    ensures forall i, j :: 0 <= i < j < |r| ==> r[i].similarity >= r[j].similarity
  {
    if entries == [] then []
    else
      var ranked := Ranked(embeddings, query, sim);
      var m := PrefixLength(|ranked|, n);
      seq(m, k requires 0 <= k < m => Copy(entries[ranked[k].0], ranked[k].1))
  }

  /** Each hit is a copy of a different entry with that entry's similarity, and hits
      of equal similarity come in insertion order. */
  lemma RetrievedHits(entries: seq<Entry>, embeddings: seq<Embedding>, query: Embedding, n: int, sim: Similarity)
    requires |entries| == |embeddings| && entries != []
    ensures var r, ranked := Retrieved(entries, embeddings, query, n, sim), Ranked(embeddings, query, sim);
      && (forall k :: 0 <= k < |r| ==>
            r[k] == Copy(entries[ranked[k].0], sim(query, embeddings[ranked[k].0])))
      && (forall i, j :: 0 <= i < j < |r| ==> ranked[i].0 != ranked[j].0)
      && (forall i, j :: 0 <= i < j < |r| && r[i].similarity == r[j].similarity ==> ranked[i].0 < ranked[j].0)
  {
    SortDescTies(Scores(embeddings, query, sim));
    RankedDistinct(embeddings, query, sim);
  }

  /** The positions of the entries `retrieve_relevant_knowledge` returns. */
  function HitPositions(embeddings: seq<Embedding>, query: Embedding, n: int, sim: Similarity): set<int> {
    var ranked := Ranked(embeddings, query, sim);
    set k | 0 <= k < PrefixLength(|ranked|, n) :: ranked[k].0
  }

  /** The hits are the most similar entries: every entry left out is no more similar
      than any hit, and one exactly as similar as a hit was stored after it. */
  lemma RetrievedTopN(entries: seq<Entry>, embeddings: seq<Embedding>, query: Embedding, n: int, sim: Similarity)
    requires |entries| == |embeddings| && entries != []
    ensures var r, ranked := Retrieved(entries, embeddings, query, n, sim), Ranked(embeddings, query, sim);
      forall i, k :: 0 <= i < |entries| && i !in HitPositions(embeddings, query, n, sim) && 0 <= k < |r| ==>
        && sim(query, embeddings[i]) <= r[k].similarity
        && (sim(query, embeddings[i]) == r[k].similarity ==> ranked[k].0 < i)
  {
    var scores := Scores(embeddings, query, sim);
    var ranked := Ranked(embeddings, query, sim);
    var r := Retrieved(entries, embeddings, query, n, sim);
    SortDescSameEntries(scores);
    SortDescTies(scores);
    forall i, k | 0 <= i < |entries| && i !in HitPositions(embeddings, query, n, sim) && 0 <= k < |r|
      ensures sim(query, embeddings[i]) <= r[k].similarity
      ensures sim(query, embeddings[i]) == r[k].similarity ==> ranked[k].0 < i
    {
      assert scores[i] in ranked;
      var p :| 0 <= p < |ranked| && ranked[p] == scores[i];
      assert k < p;
    }
  }

  /** No position is ranked twice. */
  lemma RankedDistinct(embeddings: seq<Embedding>, query: Embedding, sim: Similarity)
    ensures var ranked := Ranked(embeddings, query, sim);
      forall i, j :: 0 <= i < j < |ranked| ==> ranked[i].0 != ranked[j].0
  {
    var scores := Scores(embeddings, query, sim);
    var ranked := Ranked(embeddings, query, sim);
    SortDescPermutes(scores);
    forall i, j | 0 <= i < j < |ranked| ensures ranked[i].0 != ranked[j].0 {
      if ranked[i].0 == ranked[j].0 {
        TwiceCounted(ranked, i, j);
        ScoresOnce(embeddings, query, sim, ranked[i]);
      }
    }
  }

  lemma TwiceCounted<T>(s: seq<T>, i: nat, j: nat)
    requires i < j < |s| && s[i] == s[j]
    ensures multiset(s)[s[i]] >= 2
  {
    assert s == s[..i] + [s[i]] + s[i + 1..j] + [s[j]] + s[j + 1..];
  }

  /** A pair occurs at most once among the scores. */
  lemma ScoresOnce(embeddings: seq<Embedding>, query: Embedding, sim: Similarity, x: (int, real))
    ensures multiset(Scores(embeddings, query, sim))[x] <= 1
  {
    var scores := Scores(embeddings, query, sim);
    if 0 <= x.0 < |scores| {
      var i := x.0;
      var before, after := scores[..i], scores[i + 1..];
      assert scores == before + [scores[i]] + after;
      assert forall k :: 0 <= k < |before| ==> before[k].0 == k;
      assert forall k :: 0 <= k < |after| ==> after[k].0 == i + 1 + k;
      assert x !in before && x !in after;
    } else {
      assert x !in scores;
    }
  }

  /** `RAGSystem`: the entries and the embedding of each entry's text. */
  class KnowledgeBase {
    const encode: Encoder
    var entries: seq<Entry>
    var embeddings: seq<Embedding>

    /** The two lists have equal length, and each embedding is that of its entry's
        text. */
    predicate Valid()
      reads this
    {
      && |entries| == |embeddings|
      && forall i :: 0 <= i < |entries| ==> embeddings[i] == encode(entries[i].text)
    }

    /** `__init__`: an empty knowledge base, then seeded. */
    constructor (encode: Encoder)
      ensures this.encode == encode
      ensures Valid()
      ensures entries == SeedEntries(Seeds())
    {
      this.encode := encode;
      entries := [];
      embeddings := [];
      new;
      assert Valid();
      InitializeKnowledgeBase();
      assert entries == [] + SeedEntries(Seeds());
    }

    /** `_initialize_knowledge_base`: adds the curated items in order. */
    method InitializeKnowledgeBase()
      requires Valid()
      modifies this
      ensures Valid()
      ensures entries == old(entries) + SeedEntries(Seeds())
    {
      AddSeeds(Seeds());
    }

    /** The loop of `_initialize_knowledge_base`, over the given items. */
    method AddSeeds(seeds: seq<Seed>)
      requires Valid()
      modifies this
      ensures Valid()
      ensures entries == old(entries) + SeedEntries(seeds)
    {
      var i := 0;
      while i < |seeds|
        invariant 0 <= i <= |seeds|
        invariant Valid()
        invariant entries == old(entries) + SeedEntries(seeds[..i])
      {
        assert seeds[..i + 1][..i] == seeds[..i];
        AddKnowledge(seeds[i].id, SeedText(seeds[i]), SeedMetadata(seeds[i]));
        i := i + 1;
      }
      assert seeds[..|seeds|] == seeds;
    }

    /** `add_knowledge`: one entry and its embedding, appended to both lists. */
    method AddKnowledge(id: string, text: string, metadata: Object)
      requires Valid()
      modifies this
      ensures Valid()
      ensures entries == old(entries) + [Entry(id, text, metadata)]
      ensures embeddings == old(embeddings) + [encode(text)]
    {
      entries := entries + [Entry(id, text, metadata)];
      embeddings := embeddings + [encode(text)];
    }

    /** `retrieve_relevant_knowledge`: nothing is stored or changed. */
    method RetrieveRelevantKnowledge(query: string, n: int, sim: Similarity) returns (hits: seq<Hit>)
      requires Valid()
      ensures hits == Retrieved(entries, embeddings, encode(query), n, sim)
    {
      if entries == [] {
        return [];
      }
      var q := encode(query);
      var similarities: seq<(int, real)> := [];
      var i := 0;
      while i < |embeddings|
        invariant 0 <= i <= |embeddings|
        invariant |similarities| == i
        invariant forall j :: 0 <= j < i ==> similarities[j] == (j, sim(q, embeddings[j]))
      {
        similarities := similarities + [(i, sim(q, embeddings[i]))];
        i := i + 1;
      }
      assert similarities == Scores(embeddings, q, sim);
      var ranked := SortDesc(similarities);
      assert ranked == Ranked(embeddings, q, sim);
      var m := PrefixLength(|ranked|, n);
      hits := [];
      var k := 0;
      while k < m
        invariant 0 <= k <= m
        invariant |hits| == k
        invariant forall j :: 0 <= j < k ==> hits[j] == Copy(entries[ranked[j].0], ranked[j].1)
      {
        hits := hits + [Copy(entries[ranked[k].0], ranked[k].1)];
        k := k + 1;
      }
    }
  }
}
