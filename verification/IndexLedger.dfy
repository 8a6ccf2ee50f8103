/** What indexing means: pages, the ledger of a run, and the effect of concluding one page. */
module IndexLedger {
  import opened Wrappers
  import Embedding

  type Vector = Embedding.Vector
  type Vectors = seq<Option<Vector>>

  /** A quality chunk with its section path and the prefixed text that is embedded. */
  datatype Chunk = Chunk(text: string, path: seq<string>, embedText: string)

  /** What reading, preparing and splitting one page gives. */
  datatype Content = Unreadable | Rejected(reason: string) | Unsplittable | Split(chunks: seq<Chunk>)

  datatype Page = Page(source: string, filename: string, content: Content)

  datatype Point = Point(source: string, filename: string, chunk: Chunk, vector: Vector, hybrid: bool)

  /** The configuration of a run and its oracles: the answers of the embedder (by call number),
      of `should_cancel` (by poll number) and of the vector store (by send number). */
  datatype Env = Env(
    digest: string -> string,
    embed: (nat, seq<string>) -> Outcome<Vectors>,
    cancels: nat -> bool,
    accepts: nat -> bool,
    hybrid: bool,
    batchSize: nat,
    windowChunks: nat)

  /** The embedder is a function of the texts, and part of an answered list embeds to the
      same part of the answer. */
  ghost predicate SliceClosed(env: Env) {
    && (forall n: nat, texts: seq<string> :: env.embed(n, texts) == env.embed(0, texts))
    && (forall a: seq<string>, b: seq<string>, c: seq<string> :: env.embed(0, a + b + c).Ok? ==>
          && |env.embed(0, a + b + c).value| == |a| + |b| + |c|
          && env.embed(0, b) == Ok(env.embed(0, a + b + c).value[|a|..|a| + |b|]))
  }

  /** The counters a run keeps. The last three are bookkeeping of this model: the points
      handed to the upsert buffer, the surviving chunks of pages with a wrong dimension, and the
      chunks of pages that were never embedded. */
  datatype Ledger = Ledger(
    indexed: nat, skipped: nat, reasons: map<string, nat>,
    deduped: nat, dropped: nat, totalChunks: nat,
    seen: set<string>, firstDim: Option<nat>, hybrid: bool,
    emitted: seq<Point>, mismatched: nat, unembedded: nat)

  const REASONS := [
    "read_error", "too_short", "filename_excluded", "content_excluded", "empty_after_prepare",
    "chunk_failed", "no_valid_chunks", "embed_failed", "dim_mismatch", "other"]

  function ZeroReasons(): map<string, nat> {
    map r | r in REASONS :: 0
  }

  function Empty(): Ledger {
    Ledger(0, 0, ZeroReasons(), 0, 0, 0, {}, None, false, [], 0, 0)
  }

  // --- Skipping a page ---

  /** An unknown reason is counted as "other". */
  function Bump(reasons: map<string, nat>, reason: string): map<string, nat> {
    if reason in reasons then reasons[reason := reasons[reason] + 1]
    else reasons["other" := (if "other" in reasons then reasons["other"] else 0) + 1]
  }

  function Skip(ledger: Ledger, reason: string): Ledger {
    ledger.(skipped := ledger.skipped + 1, reasons := Bump(ledger.reasons, reason))
  }

  /** The reason for which a page is skipped before it is ever embedded. */
  function EarlyReason(page: Page): Option<string> {
    match page.content
    case Unreadable => Some("read_error")
    case Rejected(reason) => Some(if reason == "" then "other" else reason)
    case Unsplittable => Some("chunk_failed")
    case Split(chunks) => if chunks == [] then Some("no_valid_chunks") else None
  }

  predicate IsPrepared(page: Page) {
    page.content.Split? && page.content.chunks != []
  }

  function Chunks(page: Page): seq<Chunk> {
    if page.content.Split? then page.content.chunks else []
  }

  function Texts(page: Page): (r: seq<string>)
    ensures |r| == |Chunks(page)|
  {
    seq(|Chunks(page)|, i requires 0 <= i < |Chunks(page)| => Chunks(page)[i].embedText)
  }

  // --- Storing a page ---

  /** The chunks that were embedded, with their vectors. */
  function Survivors(chunks: seq<Chunk>, vectors: Vectors): (r: seq<(Chunk, Vector)>)
    ensures |r| <= |chunks|
  {
    if chunks == [] || vectors == [] then []
    else (if vectors[0].Some? then [(chunks[0], vectors[0].value)] else []) + Survivors(chunks[1..], vectors[1..])
  }

  /** The first half of storing a page: dropped chunks are counted, and the first page with a
      vector fixes the dimension of the collection. */
  function Admit(env: Env, ledger: Ledger, page: Page, vectors: Vectors): Ledger {
    var pairs := Survivors(Chunks(page), vectors);
    var counted := ledger.(dropped := ledger.dropped + |Chunks(page)| - |pairs|);
    if pairs != [] && ledger.firstDim.None? then
      counted.(firstDim := Some(|pairs[0].1|), hybrid := env.hybrid)
    else counted
  }

  function AddChunk(env: Env, ledger: Ledger, page: Page, pair: (Chunk, Vector)): Ledger {
    var key := env.digest(pair.0.text);
    if key in ledger.seen then ledger.(deduped := ledger.deduped + 1)
    else ledger.(
      seen := ledger.seen + {key},
      emitted := ledger.emitted + [Point(page.source, page.filename, pair.0, pair.1, ledger.hybrid)],
      totalChunks := ledger.totalChunks + 1)
  }

  function AddChunks(env: Env, ledger: Ledger, page: Page, pairs: seq<(Chunk, Vector)>): Ledger {
    if pairs == [] then ledger
    else AddChunk(env, AddChunks(env, ledger, page, pairs[..|pairs| - 1]), page, pairs[|pairs| - 1])
  }

  /** The second half: the chunks go in, unless the page has the wrong dimension. */
  function Commit(env: Env, ledger: Ledger, page: Page, pairs: seq<(Chunk, Vector)>): Ledger
    requires pairs != []
  {
    if Some(|pairs[0].1|) != ledger.firstDim then
      Skip(ledger, "dim_mismatch").(mismatched := ledger.mismatched + |pairs|)
    else
      var added := AddChunks(env, ledger, page, pairs);
      added.(indexed := added.indexed + 1)
  }

  function Unembed(ledger: Ledger, page: Page): Ledger {
    Skip(ledger, "embed_failed").(unembedded := ledger.unembedded + |Chunks(page)|)
  }

  function Store(env: Env, ledger: Ledger, page: Page, vectors: Vectors): Ledger {
    if vectors == [] then Unembed(ledger, page)
    else
      var pairs := Survivors(Chunks(page), vectors);
      var admitted := Admit(env, ledger, page, vectors);
      if pairs == [] then Skip(admitted, "embed_failed") else Commit(env, admitted, page, pairs)
  }

  // --- Runs as sequences of concluded pages ---

  /** How a page was concluded. */
  datatype Event =
    | Skipped(page: Page, reason: string)
    | EmbedFailed(page: Page)
    | Stored(page: Page, vectors: Vectors)

  function Apply(env: Env, ledger: Ledger, event: Event): Ledger {
    match event
    case Skipped(_, reason) => Skip(ledger, reason)
    case EmbedFailed(page) => Unembed(ledger, page)
    case Stored(page, vectors) => Store(env, ledger, page, vectors)
  }

  function ReplayFrom(env: Env, ledger: Ledger, events: seq<Event>): Ledger {
    if events == [] then ledger
    else Apply(env, ReplayFrom(env, ledger, events[..|events| - 1]), events[|events| - 1])
  }

  function Replay(env: Env, events: seq<Event>): Ledger {
    ReplayFrom(env, Empty(), events)
  }

  /** Page-at-a-time indexing of one page: its texts alone are embedded in one call. */
  function Alone(env: Env, page: Page): Event {
    if EarlyReason(page).Some? then Skipped(page, EarlyReason(page).value)
    else
      match env.embed(0, Texts(page))
      case Ok(vectors) => Stored(page, vectors)
      case Raised => EmbedFailed(page)
  }

  function AllAlone(env: Env, pages: seq<Page>): (r: seq<Event>)
    ensures |r| == |pages|
  {
    seq(|pages|, i requires 0 <= i < |pages| => Alone(env, pages[i]))
  }

  /** The reference: every page indexed on its own, in order. */
  function OneByOne(env: Env, pages: seq<Page>): Ledger {
    Replay(env, AllAlone(env, pages))
  }

  // --- The two interleaved parts of a run ---

  function SkipReasons(events: seq<Event>): seq<string> {
    if events == [] then []
    else
      var last := events[|events| - 1];
      SkipReasons(events[..|events| - 1]) + if last.Skipped? then [last.reason] else []
  }

  function Embeds(events: seq<Event>): seq<Event> {
    if events == [] then []
    else
      var last := events[|events| - 1];
      Embeds(events[..|events| - 1]) + if last.Skipped? then [] else [last]
  }

  function PagesOf(events: seq<Event>): (r: seq<Page>)
    ensures |r| == |events|
  {
    seq(|events|, i requires 0 <= i < |events| => events[i].page)
  }

  function EarlyReasons(pages: seq<Page>): seq<string> {
    if pages == [] then []
    else
      var last := EarlyReason(pages[|pages| - 1]);
      EarlyReasons(pages[..|pages| - 1]) + if last.Some? then [last.value] else []
  }

  function Prepared(pages: seq<Page>): (r: seq<Page>)
    ensures forall p :: p in r ==> EarlyReason(p).None? && p in pages
  {
    if pages == [] then []
    else
      var last := pages[|pages| - 1];
      Prepared(pages[..|pages| - 1]) + if EarlyReason(last).Some? then [] else [last]
  }

  function ChunkCount(pages: seq<Page>): nat {
    if pages == [] then 0 else ChunkCount(pages[..|pages| - 1]) + |Chunks(pages[|pages| - 1])|
  }
}
