/** `create_collection_from_sources`: the windowed indexing run over the candidate pages. */
module Indexer {
  import opened Wrappers
  import opened IndexLedger
  import opened IndexTheorems
  import Embedding

  /** What a progress callback is shown: the processed page count and the counters. */
  datatype Snapshot = Snapshot(processed: nat, ledger: Ledger)

  /** A snapshot whose pages add up. */
  type BalancedSnapshot = s: Snapshot | Balanced(s.ledger, s.processed)
    ghost witness Snapshot(0, Empty().(reasons := map[]))

  /** A page whose storing was cut short by a cancel, after its chunks were admitted. */
  datatype Torn = Torn(page: Page, vectors: Vectors)

  /** One of the polls from number `from` on, before number `to`, was answered with a cancel. */
  ghost predicate TruePoll(cancels: nat -> bool, from: nat, to: nat) {
    exists k: nat :: from <= k < to && cancels(k)
  }

  lemma OnePoll(cancels: nat -> bool, from: nat, n: nat)
    requires from <= n
    ensures TruePoll(cancels, from, n + 1) <==> TruePoll(cancels, from, n) || cancels(n)
  {
  }

  lemma MorePolls(cancels: nat -> bool, from: nat, mid: nat, to: nat)
    requires from <= mid <= to
    ensures TruePoll(cancels, from, to) <==> TruePoll(cancels, from, mid) || TruePoll(cancels, mid, to)
  {
  }

  lemma NoPoll(cancels: nat -> bool, n: nat)
    ensures !TruePoll(cancels, n, n)
  {
  }

  class IndexRun {
    const env: Env

    /** Whether the guarantees may rely on the embedder being slice-closed. */
    ghost const pure: bool

    // The counters of the `stats` dict.
    var indexedPages: nat
    var skippedPages: nat
    var skipReasons: map<string, nat>
    var totalChunks: nat
    var dedupedChunks: nat
    var embedDroppedChunks: nat
    var preparedPages: nat
    var preparedChunks: nat
    var failedSends: nat
    var cancelled: bool

    // The locals shared by the inner functions.
    var processed: nat
    var firstDim: Option<nat>
    var effectiveHybrid: bool
    var seenChunkKeys: set<string>
    var upsertBatch: seq<Point>
    var pendingPages: seq<Page>

    // How many answers each oracle has given.
    var polls: nat
    var sends: nat
    var embedCalls: nat

    // The history that the guarantees speak of.
    ghost var events: seq<Event>
    ghost var emitted: seq<Point>
    ghost var acknowledged: seq<Point>
    ghost var abandoned: seq<Page>
    ghost var torn: Option<Torn>
    ghost var mismatched: nat
    ghost var unembedded: nat
    ghost var published: seq<BalancedSnapshot>

    /** The counters, read as a ledger. */
    ghost function View(): Ledger
      reads this`indexedPages, this`skippedPages, this`skipReasons, this`dedupedChunks, this`embedDroppedChunks
      reads this`totalChunks, this`seenChunkKeys, this`firstDim, this`effectiveHybrid
      reads this`emitted, this`mismatched, this`unembedded
    {
      Ledger(indexedPages, skippedPages, skipReasons, dedupedChunks, embedDroppedChunks, totalChunks,
             seenChunkKeys, firstDim, effectiveHybrid, emitted, mismatched, unembedded)
    }

    /** What the counters should be: those of the concluded pages, plus the first half of a torn page. */
    ghost function Expected(): Ledger
      reads this`events, this`torn
    {
      match torn
      case None => Replay(env, events)
      case Some(t) => Admit(env, Replay(env, events), t.page, t.vectors)
    }

    ghost predicate Consistent()
      reads this`indexedPages, this`skippedPages, this`skipReasons, this`dedupedChunks, this`embedDroppedChunks
      reads this`totalChunks, this`seenChunkKeys, this`firstDim, this`effectiveHybrid
      reads this`emitted, this`mismatched, this`unembedded, this`events, this`torn
    {
      View() == Expected()
    }

    /** Acknowledged points followed by the buffer are the emitted points, in order. */
    ghost predicate Buffered()
      reads this`acknowledged, this`upsertBatch, this`emitted
    {
      acknowledged + upsertBatch == emitted
    }

    /** With an embedder that is a function of the texts, every page was concluded as it would be
        alone; and it was processed once. */
    ghost predicate Faithful()
      reads this`processed, this`events
    {
      && processed == |events|
      && (pure ==> AsAlone(env, events))
    }

    /** The run is cancelled if and only if a poll was answered so. */
    ghost predicate Polled()
      reads this`cancelled, this`polls
    {
      cancelled <==> TruePoll(env.cancels, 0, polls)
    }

    ghost predicate Valid()
      reads this`indexedPages, this`skippedPages, this`skipReasons, this`dedupedChunks, this`embedDroppedChunks
      reads this`totalChunks, this`seenChunkKeys, this`firstDim, this`effectiveHybrid
      reads this`emitted, this`mismatched, this`unembedded, this`events, this`torn
      reads this`acknowledged, this`upsertBatch, this`processed, this`cancelled, this`polls
    {
      && Consistent() && Buffered() && Faithful() && Polled()
      && (torn.Some? ==> cancelled)
    }

    constructor (env: Env, ghost pure: bool)
      ensures Valid()
      ensures this.env == env && this.pure == pure
      ensures events == [] && pendingPages == [] && abandoned == [] && torn.None? && !cancelled
      ensures preparedPages == preparedChunks == 0 && upsertBatch == [] && polls == 0
    {
      this.env := env;
      this.pure := pure;
      indexedPages, skippedPages, skipReasons := 0, 0, ZeroReasons();
      totalChunks, dedupedChunks, embedDroppedChunks, preparedPages, preparedChunks, failedSends := 0, 0, 0, 0, 0, 0;
      cancelled, processed, firstDim, effectiveHybrid := false, 0, None, false;
      seenChunkKeys, upsertBatch, pendingPages := {}, [], [];
      polls, sends, embedCalls := 0, 0, 0;
      events, emitted, acknowledged, abandoned, torn := [], [], [], [], None;
      mismatched, unembedded, published := 0, 0, [];
    }

    /** Each poll takes the next answer of the oracle. */
    method ShouldCancel() returns (r: bool)
      modifies this`polls
      ensures r == env.cancels(old(polls)) && polls == old(polls) + 1
    {
      r := env.cancels(polls);
      polls := polls + 1;
    }

    /** `on_progress`: every snapshot that is shown is balanced. */
    ghost method Publish()
      requires Balanced(View(), processed)
      modifies this`published
      ensures published == old(published) + [Snapshot(processed, View())]
    {
      published := published + [Snapshot(processed, View())];
    }

    /** Poll for a cancel; if there is one, mark the run cancelled and show progress. */
    method Cancel() returns (stop: bool)
      requires Valid()
      modifies this`polls, this`cancelled, this`published
      ensures Valid() && stop == env.cancels(old(polls)) && polls == old(polls) + 1
      ensures cancelled == (old(cancelled) || stop)
      ensures published == old(published) + if stop then [Snapshot(processed, View())] else []
    {
      hide View, Expected, Balanced, TruePoll;
      ViewIsBalanced();
      OnePoll(env.cancels, 0, polls);
      stop := ShouldCancel();
      if stop {
        cancelled := true;
        Publish();
      }
    }

    lemma ViewIsBalanced()
      requires Valid()
      ensures Balanced(View(), processed)
    {
      ReplayIsBalanced(env, events);
    }

    /** Show progress without having changed a counter. */
    method Report()
      requires Valid()
      modifies this`published
      ensures published == old(published) + [Snapshot(processed, View())]
    {
      hide Valid, View, Balanced;
      ViewIsBalanced();
      Publish();
    }

    method RecordPageSkip(reason: string)
      modifies this`skippedPages, this`skipReasons
      ensures View() == Skip(old(View()), reason)
    {
      skippedPages := skippedPages + 1;
      if reason in skipReasons {
        skipReasons := skipReasons[reason := skipReasons[reason] + 1];
      } else {
        skipReasons := skipReasons["other" := (if "other" in skipReasons then skipReasons["other"] else 0) + 1];
      }
    }

    /** All is in order but that one more page, concluded as `event` says, is already counted. */
    ghost predicate Concluding(event: Event, view: Ledger)
      reads this`events, this`torn, this`acknowledged, this`upsertBatch
      reads this`emitted, this`processed, this`cancelled, this`polls
    {
      && torn.None? && Buffered() && Faithful() && Polled()
      && view == Apply(env, Replay(env, events), event)
      && (pure ==> event == Alone(env, event.page))
    }

    /** Count the page and show progress. `event` says how the page was concluded. */
    method MarkPageProcessed(ghost event: Event)
      requires Concluding(event, View())
      modifies this`processed, this`events, this`published
      ensures Valid() && events == old(events) + [event] && processed == old(processed) + 1
      ensures published == old(published) + [Snapshot(processed, View())]
    {
      hide View, Apply, Balanced, Polled, Buffered, Alone, Replay, AsAlone;
      ReplayOneMore(env, events, event);
      if pure { AsAloneOneMore(env, events, event); }
      processed := processed + 1;
      events := events + [event];
      ViewIsBalanced();
      Publish();
    }

    /** Send the buffer when it is due; a failed send keeps it for the next attempt. */
    method FlushUpsertBatch(final: bool)
      requires Buffered()
      modifies this`upsertBatch, this`sends, this`failedSends, this`acknowledged
      ensures Buffered()
      ensures var due := old(upsertBatch) != [] && (final || |old(upsertBatch)| >= env.batchSize);
              && sends == old(sends) + (if due then 1 else 0)
              && (due && env.accepts(old(sends)) ==>
                   upsertBatch == [] && acknowledged == emitted && failedSends == old(failedSends))
              && (due && !env.accepts(old(sends)) ==>
                   upsertBatch == old(upsertBatch) && failedSends == old(failedSends) + 1)
              && (!due ==> upsertBatch == old(upsertBatch) && failedSends == old(failedSends))
    {
      if upsertBatch == [] { return; }
      if !final && |upsertBatch| < env.batchSize { return; }
      var accepted := env.accepts(sends);
      sends := sends + 1;
      if accepted {
        acknowledged := acknowledged + upsertBatch;
        upsertBatch := [];
      } else {
        failedSends := failedSends + 1;
      }
    }

    /** One chunk: a duplicate is counted, anything else goes to the upsert buffer. */
    method AddPageChunk(page: Page, pair: (Chunk, Vector))
      requires Buffered()
      modifies this`dedupedChunks, this`seenChunkKeys, this`emitted, this`upsertBatch, this`totalChunks
      ensures Buffered() && View() == AddChunk(env, old(View()), page, pair)
    {
      var dedupKey := env.digest(pair.0.text);
      if dedupKey in seenChunkKeys {
        dedupedChunks := dedupedChunks + 1;
      } else {
        seenChunkKeys := seenChunkKeys + {dedupKey};
        var point := Point(page.source, page.filename, pair.0, pair.1, effectiveHybrid);
        upsertBatch := upsertBatch + [point];
        emitted := emitted + [point];
        totalChunks := totalChunks + 1;
      }
    }

    /** The chunk loop of a stored page. */
    method AddPageChunks(page: Page, pairs: seq<(Chunk, Vector)>)
      requires Buffered()
      modifies this`dedupedChunks, this`seenChunkKeys, this`emitted, this`upsertBatch, this`totalChunks
      ensures Buffered() && View() == AddChunks(env, old(View()), page, pairs)
    {
      hide View, Buffered, AddChunk;
      ghost var start := View();
      for k := 0 to |pairs|
        invariant Buffered() && View() == AddChunks(env, start, page, pairs[..k])
      {
        assert pairs[..k + 1][..k] == pairs[..k];
        AddPageChunk(page, pairs[k]);
      }
      assert pairs[..|pairs|] == pairs;
    }

    /** Skip a page for good: count it under its reason, then as processed. */
    method SkipPage(reason: string, ghost event: Event)
      requires Concluding(event, Skip(View(), reason))
      modifies this`skippedPages, this`skipReasons, this`processed, this`events, this`published
      ensures Valid() && events == old(events) + [event] && processed == old(processed) + 1
      ensures published == old(published) + [Snapshot(processed, View())]
    {
      hide View, Skip, Concluding, Valid;
      RecordPageSkip(reason);
      MarkPageProcessed(event);
    }

    /** Everything but the page being stored is in order: its first half is in the counters. */
    ghost predicate Admitted(page: Page, embeddings: Vectors)
      reads this`indexedPages, this`skippedPages, this`skipReasons, this`dedupedChunks, this`embedDroppedChunks
      reads this`totalChunks, this`seenChunkKeys, this`firstDim, this`effectiveHybrid
      reads this`emitted, this`mismatched, this`unembedded, this`events, this`torn
      reads this`acknowledged, this`upsertBatch, this`processed, this`cancelled, this`polls
    {
      && torn.None? && Buffered() && Faithful() && Polled()
      && View() == Admit(env, Replay(env, events), page, embeddings)
      && embeddings != [] && Survivors(Chunks(page), embeddings) != []
      && (pure ==> Stored(page, embeddings) == Alone(env, page))
    }

    lemma AdmittedIsBalanced(page: Page, embeddings: Vectors)
      requires Admitted(page, embeddings)
      ensures Balanced(View(), processed)
    {
      ReplayIsBalanced(env, events);
    }

    /** The report and the second poll for a cancel; a cancel leaves the page torn. */
    method PollWhileSaving(page: Page, embeddings: Vectors) returns (stop: bool)
      requires Admitted(page, embeddings)
      modifies this`polls, this`cancelled, this`published, this`torn
      ensures stop == env.cancels(old(polls)) && polls == old(polls) + 1
      ensures cancelled == (old(cancelled) || stop)
      ensures published == old(published) + (if stop then [Snapshot(processed, View()), Snapshot(processed, View())]
                                             else [Snapshot(processed, View())])
      ensures if stop then Valid() && torn == Some(Torn(page, embeddings)) else Admitted(page, embeddings)
    {
      hide View, Admit, Balanced, TruePoll, Buffered, Faithful, Survivors, Alone, Replay, Chunks;
      AdmittedIsBalanced(page, embeddings);
      Publish();
      OnePoll(env.cancels, 0, polls);
      stop := ShouldCancel();
      if stop {
        torn := Some(Torn(page, embeddings));
        cancelled := true;
        Publish();
      }
    }

    /** Add the chunks of a page, send the buffer if it is full, and count the page. */
    method AddPage(page: Page, embeddedPairs: seq<(Chunk, Vector)>)
      requires Buffered() && embeddedPairs != [] && Some(|embeddedPairs[0].1|) == firstDim
      modifies this`dedupedChunks, this`seenChunkKeys, this`emitted
      modifies this`upsertBatch, this`totalChunks, this`indexedPages
      modifies this`sends, this`failedSends, this`acknowledged
      ensures Buffered() && View() == Commit(env, old(View()), page, embeddedPairs)
    {
      hide Buffered, AddChunks;
      AddPageChunks(page, embeddedPairs);
      FlushUpsertBatch(false);
      indexedPages := indexedPages + 1;
    }

    /** The rest of storing, once the dimension is right and no cancel came: add the chunks, send
        the buffer if it is full. */
    method SaveAdmittedPage(page: Page, embeddings: Vectors, embeddedPairs: seq<(Chunk, Vector)>)
      requires Admitted(page, embeddings) && embeddedPairs == Survivors(Chunks(page), embeddings)
      requires Some(|embeddedPairs[0].1|) == firstDim
      modifies this`published, this`processed, this`events
      modifies this`dedupedChunks, this`seenChunkKeys, this`emitted
      modifies this`upsertBatch, this`totalChunks, this`indexedPages
      modifies this`sends, this`failedSends, this`acknowledged
      ensures Valid() && torn.None? && events == old(events) + [Stored(page, embeddings)]
    {
      hide View, Commit, Admit, Replay, Polled, Survivors, Alone, Chunks, Valid, Buffered, Faithful;
      CommitIsStored(env, Replay(env, events), page, embeddings);
      AddPage(page, embeddedPairs);
      MarkPageProcessed(Stored(page, embeddings));
    }

    /** Count what the embedder dropped; the first page with a vector fixes the dimension. */
    method CountDropped(page: Page, embeddings: Vectors) returns (embeddedPairs: seq<(Chunk, Vector)>)
      modifies this`embedDroppedChunks, this`firstDim, this`effectiveHybrid
      ensures embeddedPairs == Survivors(Chunks(page), embeddings)
      ensures exists places :: PairsAt(Chunks(page), embeddings, places, embeddedPairs)
      ensures View() == Admit(env, old(View()), page, embeddings)
    {
      hide Survivors, Chunks, PairsAt;
      embeddedPairs := Survivors(Chunks(page), embeddings);
      ghost var places := SurvivorsKeepTheirVectors(Chunks(page), embeddings);
      embedDroppedChunks := embedDroppedChunks + (|Chunks(page)| - |embeddedPairs|);
      if embeddedPairs != [] && firstDim.None? {
        firstDim := Some(|embeddedPairs[0].1|);
        effectiveHybrid := env.hybrid;
      }
    }

    /** Skip a page whose chunks were not embedded. */
    method SkipUnembedded(page: Page, ghost event: Event)
      requires Valid() && torn.None? && Apply(env, Expected(), event) == Unembed(Expected(), page)
      requires pure ==> event == Alone(env, event.page)
      modifies this`published, this`skippedPages, this`skipReasons, this`processed, this`events, this`unembedded
      ensures Valid() && events == old(events) + [event]
    {
      hide Replay, Apply, Alone, Polled, Buffered, Faithful;
      unembedded := unembedded + |Chunks(page)|;
      SkipPage("embed_failed", event);
    }

    /** Skip an admitted page none of whose chunks survived, or whose dimension is wrong. */
    method SkipAdmitted(page: Page, embeddings: Vectors, reason: string, lost: nat)
      requires torn.None? && Buffered() && Faithful() && Polled()
      requires var admitted := Admit(env, Expected(), page, embeddings);
               View() == admitted &&
                 Apply(env, Expected(), Stored(page, embeddings)) == Lost(Skip(admitted, reason), lost)
      requires pure ==> Stored(page, embeddings) == Alone(env, page)
      modifies this`published, this`skippedPages, this`skipReasons, this`processed, this`events, this`mismatched
      ensures Valid() && events == old(events) + [Stored(page, embeddings)]
    {
      hide Replay, Apply, Alone, Polled, Buffered, Faithful, Admit;
      mismatched := mismatched + lost;
      SkipPage(reason, Stored(page, embeddings));
    }

    /** The checks before saving: an empty reply, no surviving chunk, or a wrong dimension skips the
        page. `done` says that this settled it. */
    method AdmitPage(page: Page, embeddings: Vectors) returns (done: bool, embeddedPairs: seq<(Chunk, Vector)>)
      requires Valid() && torn.None? && IsPrepared(page)
      requires pure ==> Stored(page, embeddings) == Alone(env, page)
      modifies this`published, this`skippedPages, this`skipReasons, this`processed, this`events
      modifies this`embedDroppedChunks, this`firstDim, this`effectiveHybrid, this`mismatched, this`unembedded
      ensures done == Settles(env, old(Expected()), page, embeddings)
      ensures done ==> Valid() && events == old(events) + [Stored(page, embeddings)]
      ensures !done ==> events == old(events) && Admitted(page, embeddings)
      ensures !done ==> embeddedPairs == Survivors(Chunks(page), embeddings) && Some(|embeddedPairs[0].1|) == firstDim
    {
      hide Replay, Alone, Polled, Buffered, Faithful, Survivors, Chunks, Admit, Apply, Settles;
      ghost var before := Expected();
      SettledPage(env, before, page, embeddings);
      embeddedPairs := [];
      if embeddings == [] {
        SkipUnembedded(page, Stored(page, embeddings));
        return true, [];
      }
      embeddedPairs := CountDropped(page, embeddings);
      assert Some(firstDim) == Some(Admit(env, before, page, embeddings).firstDim);
      if embeddedPairs == [] {
        SkipAdmitted(page, embeddings, "embed_failed", 0);
        return true, [];
      }
      if Some(|embeddedPairs[0].1|) != firstDim {
        SkipAdmitted(page, embeddings, "dim_mismatch", |embeddedPairs|);
        return true, [];
      }
      done := false;
    }

    /** Store one embedded page. A cancel is honoured before anything is counted, and once more
        after the page was admitted but before any of its chunks goes in. */
    method StoreEmbeddedPage(page: Page, embeddings: Vectors) returns (go: bool)
      requires Valid() && torn.None? && IsPrepared(page)
      requires pure ==> Stored(page, embeddings) == Alone(env, page)
      modifies this`polls, this`cancelled, this`published, this`skippedPages
      modifies this`skipReasons, this`processed, this`events
      modifies this`embedDroppedChunks, this`firstDim, this`effectiveHybrid, this`torn, this`mismatched, this`unembedded
      modifies this`dedupedChunks, this`seenChunkKeys, this`emitted
      modifies this`upsertBatch, this`totalChunks, this`indexedPages
      modifies this`sends, this`failedSends, this`acknowledged
      ensures Valid() && old(polls) < polls <= old(polls) + 2 && (go <==> !TruePoll(env.cancels, old(polls), polls))
      ensures go ==> events == old(events) + [Stored(page, embeddings)] && torn.None? && cancelled == old(cancelled)
      ensures !go ==> cancelled && events == old(events) && (torn.None? || torn == Some(Torn(page, embeddings)))
    {
      hide Valid, Admitted, Expected, Settles, TruePoll, Alone, Survivors, Chunks, View, IsPrepared;
      NoPoll(env.cancels, polls);
      OnePoll(env.cancels, polls, polls);
      OnePoll(env.cancels, polls, polls + 1);
      var stop := Cancel();
      if stop { return false; }
      var done, embeddedPairs := AdmitPage(page, embeddings);
      if done { return true; }
      stop := PollWhileSaving(page, embeddings);
      if stop { return false; }
      SaveAdmittedPage(page, embeddings, embeddedPairs);
      go := true;
    }

    method CallEmbedder(texts: seq<string>) returns (r: Outcome<Vectors>)
      modifies this`embedCalls
      ensures r == env.embed(old(embedCalls), texts) && embedCalls == old(embedCalls) + 1
    {
      r := env.embed(embedCalls, texts);
      embedCalls := embedCalls + 1;
    }

    /** The first `done` conclusions were reached. If not all were, a cancel was seen and the pages of
        the others are abandoned; a torn page is the first of them. */
    ghost predicate Settled(start: seq<Event>, conclusions: seq<Event>, pages: seq<Page>, done: nat, go: bool)
      requires done <= |pages| == |conclusions|
      reads this`events, this`abandoned, this`torn, this`cancelled
    {
      && events == start + conclusions[..done]
      && if go then done == |pages| && torn.None? && abandoned == []
         else cancelled && abandoned == pages[done..] &&
                (torn.Some? ==> abandoned != [] && abandoned[0] == torn.value.page)
    }

    /** The window was embedded in one call; its pages take their slices of the result. */
    method StoreWindow(pages: seq<Page>, embeddings: Vectors) returns (go: bool, ghost done: nat)
      requires Valid() && torn.None? && abandoned == []
      requires forall p :: p in pages ==> IsPrepared(p)
      requires pure ==> SliceClosed(env) && env.embed(0, AllTexts(pages)) == Ok(embeddings)
      modifies this`polls, this`cancelled, this`published, this`skippedPages
      modifies this`skipReasons, this`processed, this`events
      modifies this`embedDroppedChunks, this`firstDim, this`effectiveHybrid, this`torn, this`mismatched, this`unembedded
      modifies this`dedupedChunks, this`seenChunkKeys, this`emitted
      modifies this`upsertBatch, this`totalChunks, this`indexedPages
      modifies this`sends, this`failedSends, this`acknowledged, this`abandoned
      ensures Valid() && done <= |pages| && Settled(old(events), Slices(pages, embeddings), pages, done, go)
      ensures old(polls) <= polls <= old(polls) + 2 * |pages| && (go <==> !TruePoll(env.cancels, old(polls), polls))
      ensures go ==> cancelled == old(cancelled)
    {
      hide Valid, TruePoll, SliceClosed, Slice, Slices, Alone, AllTexts, Texts, IsPrepared, Settled;
      ghost var start, conclusions := events, Slices(pages, embeddings);
      var offset := 0;
      NoPoll(env.cancels, polls);
      assert conclusions[..0] == [] && start + [] == start;
      NoTexts(pages);
      for k := 0 to |pages|
        invariant Valid() && torn.None? && abandoned == [] && cancelled == old(cancelled)
        invariant events == start + conclusions[..k] && offset == |AllTexts(pages[..k])|
        invariant old(polls) <= polls <= old(polls) + 2 * k && !TruePoll(env.cancels, old(polls), polls)
      {
        ghost var asked := polls;
        SlicesAt(pages, embeddings, k);
        var pageEmbeddings := Slice(embeddings, offset, offset + |Texts(pages[k])|);
        if pure { PageSlice(env, pages, k, embeddings); }
        var stored := StoreEmbeddedPage(pages[k], pageEmbeddings);
        MorePolls(env.cancels, old(polls), asked, polls);
        if !stored {
          abandoned := pages[k..];
          CutShort(start, conclusions, pages, k);
          return false, k;
        }
        OneMore(start, conclusions, k);
        TextsOneMore(pages, k);
        offset := offset + |Texts(pages[k])|;
      }
      AllStored(start, conclusions, pages);
      return true, |pages|;
    }

    lemma CutShort(start: seq<Event>, conclusions: seq<Event>, pages: seq<Page>, k: nat)
      requires k < |pages| == |conclusions| && events == start + conclusions[..k]
      requires cancelled && abandoned == pages[k..] && (torn.Some? ==> torn.value.page == pages[k])
      ensures Settled(start, conclusions, pages, k, false)
    {
    }

    lemma AllStored(start: seq<Event>, conclusions: seq<Event>, pages: seq<Page>)
      requires |pages| == |conclusions| && events == start + conclusions[..|pages|] && torn.None? && abandoned == []
      ensures Settled(start, conclusions, pages, |pages|, true)
    {
    }

    /** One page in a call of its own; a page whose call fails is skipped. */
    method EmbedAndStorePage(page: Page) returns (go: bool)
      requires Valid() && torn.None? && IsPrepared(page)
      requires pure ==> SliceClosed(env)
      modifies this`polls, this`cancelled, this`published, this`skippedPages
      modifies this`skipReasons, this`processed, this`events
      modifies this`embedDroppedChunks, this`firstDim, this`effectiveHybrid, this`torn, this`mismatched, this`unembedded
      modifies this`dedupedChunks, this`seenChunkKeys, this`emitted
      modifies this`upsertBatch, this`totalChunks, this`indexedPages
      modifies this`sends, this`failedSends, this`acknowledged, this`embedCalls
      ensures Valid() && embedCalls == old(embedCalls) + 1
      ensures old(polls) <= polls <= old(polls) + 2 && (go <==> !TruePoll(env.cancels, old(polls), polls))
      ensures go ==> events == old(events) + [OwnCall(env, old(embedCalls), page)]
      ensures go ==> torn.None? && cancelled == old(cancelled)
      ensures !go ==> cancelled && events == old(events) && (torn.Some? ==> torn.value.page == page)
    {
      hide Valid, TruePoll, SliceClosed, Replay, Unembed;
      NoPoll(env.cancels, polls);
      if pure { OwnCallIsAlone(env, embedCalls, page); }
      var reply := CallEmbedder(Texts(page));
      if reply.Raised? {
        SkipUnembedded(page, EmbedFailed(page));
        go := true;
      } else {
        go := StoreEmbeddedPage(page, reply.value);
      }
    }

    /** The window call failed: every page is embedded in a call of its own. */
    method StoreOneByOne(pages: seq<Page>) returns (go: bool, ghost done: nat)
      requires Valid() && torn.None? && abandoned == []
      requires forall p :: p in pages ==> IsPrepared(p)
      requires pure ==> SliceClosed(env)
      modifies this`polls, this`cancelled, this`published, this`skippedPages
      modifies this`skipReasons, this`processed, this`events
      modifies this`embedDroppedChunks, this`firstDim, this`effectiveHybrid, this`torn, this`mismatched, this`unembedded
      modifies this`dedupedChunks, this`seenChunkKeys, this`emitted
      modifies this`upsertBatch, this`totalChunks, this`indexedPages
      modifies this`sends, this`failedSends, this`acknowledged, this`abandoned, this`embedCalls
      ensures Valid() && done <= |pages| && Settled(old(events), OwnCalls(env, old(embedCalls), pages), pages, done, go)
      ensures embedCalls == old(embedCalls) + done + if go then 0 else 1
      ensures old(polls) <= polls <= old(polls) + 2 * |pages| && (go <==> !TruePoll(env.cancels, old(polls), polls))
      ensures go ==> cancelled == old(cancelled)
    {
      hide Valid, TruePoll, SliceClosed, OwnCall, IsPrepared, Settled;
      ghost var start, conclusions := events, OwnCalls(env, embedCalls, pages);
      NoPoll(env.cancels, polls);
      assert conclusions[..0] == [] && start + [] == start;
      for k := 0 to |pages|
        invariant Valid() && torn.None? && abandoned == [] && cancelled == old(cancelled)
        invariant events == start + conclusions[..k] && embedCalls == old(embedCalls) + k
        invariant old(polls) <= polls <= old(polls) + 2 * k && !TruePoll(env.cancels, old(polls), polls)
      {
        ghost var asked := polls;
        var stored := EmbedAndStorePage(pages[k]);
        MorePolls(env.cancels, old(polls), asked, polls);
        if !stored {
          abandoned := pages[k..];
          CutShort(start, conclusions, pages, k);
          return false, k;
        }
        OneMore(start, conclusions, k);
      }
      AllStored(start, conclusions, pages);
      return true, |pages|;
    }

    /** Embed the window in one call, or page by page when that fails, and store its pages. */
    method EmbedWindow(pages: seq<Page>) returns (go: bool, ghost done: nat)
      requires Valid() && torn.None? && abandoned == []
      requires forall p :: p in pages ==> IsPrepared(p)
      requires pure ==> SliceClosed(env)
      modifies this`polls, this`cancelled, this`published, this`skippedPages
      modifies this`skipReasons, this`processed, this`events
      modifies this`embedDroppedChunks, this`firstDim, this`effectiveHybrid, this`torn, this`mismatched, this`unembedded
      modifies this`dedupedChunks, this`seenChunkKeys, this`emitted
      modifies this`upsertBatch, this`totalChunks, this`indexedPages
      modifies this`sends, this`failedSends, this`acknowledged, this`abandoned, this`embedCalls
      ensures Valid() && done <= |pages|
      ensures Settled(old(events), Conclusions(env, old(embedCalls), pages), pages, done, go)
      ensures embedCalls == old(embedCalls) + 1 +
                            if env.embed(old(embedCalls), AllTexts(pages)).Ok? then 0 else done + if go then 0 else 1
      ensures old(polls) <= polls <= old(polls) + 2 * |pages| && (go <==> !TruePoll(env.cancels, old(polls), polls))
      ensures go ==> cancelled == old(cancelled)
    {
      hide Valid, TruePoll, AllTexts, OwnCalls, Slices, Settled, IsPrepared;
      var allTexts := CollectTexts(pages);
      Report();
      if pure { SameAnswer(env, embedCalls, allTexts); }
      var reply := CallEmbedder(allTexts);
      if reply.Raised? {
        go, done := StoreOneByOne(pages);
      } else {
        go, done := StoreWindow(pages, reply.value);
      }
    }

    /** Embed and store the pages: those that a cancel kept from being stored are abandoned. */
    method ConcludeWindow(pages: seq<Page>) returns (go: bool)
      requires Valid() && torn.None? && abandoned == []
      requires forall p :: p in pages ==> IsPrepared(p)
      requires pure ==> SliceClosed(env)
      modifies this`polls, this`cancelled, this`published, this`skippedPages
      modifies this`skipReasons, this`processed, this`events
      modifies this`embedDroppedChunks, this`firstDim, this`effectiveHybrid, this`torn, this`mismatched, this`unembedded
      modifies this`dedupedChunks, this`seenChunkKeys, this`emitted
      modifies this`upsertBatch, this`totalChunks, this`indexedPages
      modifies this`sends, this`failedSends, this`acknowledged, this`abandoned, this`embedCalls
      ensures Valid() && old(polls) <= polls <= old(polls) + 2 * |pages|
      ensures (go <==> !TruePoll(env.cancels, old(polls), polls))
      ensures PagesOf(Embeds(events)) + abandoned == PagesOf(Embeds(old(events))) + pages
      ensures SkipReasons(events) == SkipReasons(old(events))
      ensures if go then torn.None? && abandoned == [] && cancelled == old(cancelled)
              else cancelled && (torn.Some? ==> abandoned != [] && abandoned[0] == torn.value.page)
    {
      hide Valid, TruePoll, Conclusions, SliceClosed, IsPrepared, PagesOf, Embeds, SkipReasons, Concludes, Settled;
      hide AllTexts;
      ghost var start, conclusions := events, Conclusions(env, embedCalls, pages);
      TheseConclude(env, embedCalls, pages);
      ghost var done: nat;
      go, done := EmbedWindow(pages);
      WindowMoved(start, conclusions, pages, done, go);
    }

    /** Embed and store the window of pending pages. The window is empty afterwards: what a cancel
        kept from being stored is abandoned. */
    method FlushPendingPages() returns (go: bool)
      requires Valid() && Orderly()
      requires forall p :: p in pendingPages ==> IsPrepared(p)
      requires pendingPages != [] ==> torn.None?
      requires pure ==> SliceClosed(env)
      modifies this`polls, this`cancelled, this`published, this`skippedPages
      modifies this`skipReasons, this`processed, this`events
      modifies this`embedDroppedChunks, this`firstDim, this`effectiveHybrid, this`torn, this`mismatched, this`unembedded
      modifies this`dedupedChunks, this`seenChunkKeys, this`emitted
      modifies this`upsertBatch, this`totalChunks, this`indexedPages
      modifies this`sends, this`failedSends, this`acknowledged, this`abandoned, this`embedCalls, this`pendingPages
      ensures Valid() && Orderly() && pendingPages == []
      ensures old(polls) <= polls <= old(polls) + 3 * |old(pendingPages)|
      ensures go <==> !TruePoll(env.cancels, old(polls), polls)
      ensures go ==> abandoned == old(abandoned) && torn == old(torn) && cancelled == old(cancelled)
      ensures !go ==> cancelled
      ensures PagesOf(Embeds(events)) + abandoned == PagesOf(Embeds(old(events))) + (old(abandoned) + old(pendingPages))
      ensures SkipReasons(events) == SkipReasons(old(events))
    {
      hide Valid, TruePoll, SliceClosed, IsPrepared, PagesOf, Embeds, SkipReasons;
      NoPoll(env.cancels, polls);
      if pendingPages == [] {
        assert abandoned + pendingPages == abandoned;
        return true;
      }
      OnePoll(env.cancels, polls, polls);
      assert abandoned + pendingPages == pendingPages;
      var stop := Cancel();
      if stop {
        abandoned := pendingPages;
        go := false;
      } else {
        ghost var asked := polls;
        go := ConcludeWindow(pendingPages);
        MorePolls(env.cancels, old(polls), asked, polls);
      }
      pendingPages := [];
    }

    /** The pages of a window are embedded or abandoned, in order. */
    lemma WindowMoved(start: seq<Event>, conclusions: seq<Event>, pages: seq<Page>, done: nat, go: bool)
      requires done <= |pages| == |conclusions| && Concludes(conclusions, pages)
      requires Settled(start, conclusions, pages, done, go)
      ensures PagesOf(Embeds(events)) + abandoned == PagesOf(Embeds(start)) + pages
      ensures SkipReasons(events) == SkipReasons(start)
      ensures if go then torn.None? && abandoned == []
              else cancelled && (torn.Some? ==> abandoned != [] && abandoned[0] == torn.value.page)
    {
      hide PagesOf, Embeds, SkipReasons, Concludes;
      EmbeddedBy(start, conclusions, pages, done);
      Moved(PagesOf(Embeds(start)), pages, done);
      if go { assert pages[done..] == []; }
    }

    /** Embedded and abandoned pages together are what was pending. */
    lemma Moved(start: seq<Page>, pages: seq<Page>, done: nat)
      requires done <= |pages|
      ensures start + pages[..done] + pages[done..] == start + pages
    {
    }

    /** Where the run stands after it looked at the first `reached` pages. */
    ghost predicate Progress(pages: seq<Page>, reached: nat)
      requires reached <= |pages|
      reads this`events, this`abandoned, this`pendingPages, this`preparedPages, this`preparedChunks
    {
      && Covers(events, abandoned + pendingPages, pages[..reached])
      && preparedPages == |Prepared(pages[..reached])|
      && preparedChunks == ChunkCount(Prepared(pages[..reached]))
    }

    /** Skip a page before it is embedded. */
    method SkipEarly(page: Page, reason: string)
      requires Valid() && torn.None? && EarlyReason(page) == Some(reason)
      modifies this`published, this`skippedPages, this`skipReasons, this`processed, this`events
      ensures Valid() && events == old(events) + [Skipped(page, reason)]
    {
      hide View, Skip, Replay, Polled, Buffered, Faithful;
      SkipPage(reason, Skipped(page, reason));
    }

    /** Read, prepare and split one page: skip it, or append it to the window. */
    method ConsiderPage(page: Page)
      requires Valid() && torn.None?
      modifies this`published, this`skippedPages, this`skipReasons, this`processed, this`events
      modifies this`pendingPages, this`preparedPages, this`preparedChunks
      ensures Valid()
      ensures match EarlyReason(page)
              case Some(reason) =>
                && events == old(events) + [Skipped(page, reason)] && pendingPages == old(pendingPages)
                && preparedPages == old(preparedPages) && preparedChunks == old(preparedChunks)
              case None =>
                && events == old(events) && pendingPages == old(pendingPages) + [page]
                && preparedPages == old(preparedPages) + 1 && preparedChunks == old(preparedChunks) + |Chunks(page)|
    {
      hide Valid, View;
      Report();
      match page.content {
        case Unreadable =>
          SkipEarly(page, "read_error");
        case Rejected(prepReason) =>
          var reason := if prepReason == "" then "other" else prepReason;
          SkipEarly(page, reason);
        case Unsplittable =>
          SkipEarly(page, "chunk_failed");
        case Split(chunks) =>
          if chunks == [] {
            SkipEarly(page, "no_valid_chunks");
          } else {
            preparedPages := preparedPages + 1;
            preparedChunks := preparedChunks + |chunks|;
            pendingPages := pendingPages + [page];
            Report();
          }
      }
    }

    method PendingChunkCount() returns (n: nat)
      ensures n == ChunkCount(pendingPages)
    {
      n := 0;
      for k := 0 to |pendingPages|
        invariant n == ChunkCount(pendingPages[..k])
      {
        assert pendingPages[..k + 1][..k] == pendingPages[..k];
        n := n + |Chunks(pendingPages[k])|;
      }
      assert pendingPages[..|pendingPages|] == pendingPages;
    }

    /** One turn of the page loop, up to the check of the window. */
    method TakePage(pages: seq<Page>, i: nat)
      requires Valid() && torn.None? && i < |pages| && abandoned == [] && Progress(pages, i)
      modifies this`published, this`skippedPages, this`skipReasons, this`processed, this`events
      modifies this`pendingPages, this`preparedPages, this`preparedChunks
      ensures |pendingPages| <= |old(pendingPages)| + 1
      ensures Valid() && Progress(pages, i + 1) && torn.None? && abandoned == [] && cancelled == old(cancelled)
    {
      hide Valid, Covers, EarlyReason, Chunks, Prepared, ChunkCount;
      PreparedOneMore(pages, i);
      assert abandoned + pendingPages == pendingPages;
      CoversOneMore(events, pendingPages, pages, i);
      ConsiderPage(pages[i]);
      assert abandoned + pendingPages == pendingPages;
    }

    /** The torn page, if any, is the first abandoned one; and while pages are pending nothing
        was abandoned yet. */
    ghost predicate Orderly()
      reads this`torn, this`abandoned, this`pendingPages, this`cancelled
    {
      && (torn.Some? ==> abandoned != [] && abandoned[0] == torn.value.page)
      && (abandoned != [] ==> pendingPages == [] && cancelled)
    }

    /** Flushing the window moves pages from pending to embedded or abandoned. */
    method FlushKeepsProgress(ghost pages: seq<Page>, ghost reached: nat) returns (go: bool)
      requires Valid() && Orderly() && reached <= |pages| && Progress(pages, reached)
      requires pure ==> SliceClosed(env)
      modifies this`polls, this`cancelled, this`published, this`skippedPages
      modifies this`skipReasons, this`processed, this`events
      modifies this`embedDroppedChunks, this`firstDim, this`effectiveHybrid, this`torn, this`mismatched, this`unembedded
      modifies this`dedupedChunks, this`seenChunkKeys, this`emitted
      modifies this`upsertBatch, this`totalChunks, this`indexedPages
      modifies this`sends, this`failedSends, this`acknowledged, this`abandoned, this`embedCalls, this`pendingPages
      ensures Valid() && Orderly() && Progress(pages, reached) && pendingPages == []
      ensures old(polls) <= polls <= old(polls) + 3 * |old(pendingPages)|
      ensures go <==> !TruePoll(env.cancels, old(polls), polls)
      ensures go ==> abandoned == old(abandoned) && torn == old(torn) && cancelled == old(cancelled)
      ensures !go ==> cancelled
    {
      hide Valid, TruePoll, SliceClosed, IsPrepared, PagesOf, Embeds, SkipReasons, Prepared, EarlyReasons, ChunkCount;
      PendingArePrepared(events, abandoned, pendingPages, pages[..reached]);
      go := FlushPendingPages();
      assert abandoned + pendingPages == abandoned;
    }

    /** Flush the window once it holds enough chunks; otherwise leave everything as it is. */
    method FlushFullWindow(ghost pages: seq<Page>, ghost reached: nat) returns (go: bool)
      requires Valid() && Orderly() && torn.None? && abandoned == [] && !cancelled
      requires reached <= |pages| && Progress(pages, reached)
      requires pure ==> SliceClosed(env)
      modifies this`polls, this`cancelled, this`published, this`skippedPages
      modifies this`skipReasons, this`processed, this`events
      modifies this`embedDroppedChunks, this`firstDim, this`effectiveHybrid, this`torn, this`mismatched, this`unembedded
      modifies this`dedupedChunks, this`seenChunkKeys, this`emitted
      modifies this`upsertBatch, this`totalChunks, this`indexedPages
      modifies this`sends, this`failedSends, this`acknowledged, this`abandoned, this`embedCalls, this`pendingPages
      ensures Valid() && Orderly() && Progress(pages, reached)
      ensures if ChunkCount(old(pendingPages)) >= env.windowChunks then pendingPages == [] else unchanged(this)
      ensures old(polls) <= polls && polls + 3 * |pendingPages| <= old(polls) + 3 * |old(pendingPages)|
      ensures (go <==> !TruePoll(env.cancels, old(polls), polls))
      ensures if go then torn.None? && abandoned == [] && !cancelled else cancelled
    {
      hide Valid, TruePoll, SliceClosed, Progress, ChunkCount;
      NoPoll(env.cancels, polls);
      var pending := PendingChunkCount();
      if pending >= env.windowChunks {
        go := FlushKeepsProgress(pages, reached);
      } else {
        go := true;
      }
    }

    /** One turn of the page loop: poll for a cancel, take the page, flush a full window. */
    method Turn(pages: seq<Page>, i: nat) returns (go: bool, ghost reached: nat)
      requires Valid() && Orderly() && torn.None? && abandoned == [] && !cancelled
      requires i < |pages| && Progress(pages, i)
      requires pure ==> SliceClosed(env)
      modifies this`polls, this`cancelled, this`published, this`skippedPages
      modifies this`skipReasons, this`processed, this`events
      modifies this`embedDroppedChunks, this`firstDim, this`effectiveHybrid, this`torn, this`mismatched, this`unembedded
      modifies this`dedupedChunks, this`seenChunkKeys, this`emitted
      modifies this`upsertBatch, this`totalChunks, this`indexedPages
      modifies this`sends, this`failedSends, this`acknowledged, this`abandoned, this`embedCalls, this`pendingPages
      modifies this`preparedPages, this`preparedChunks
      ensures Valid() && Orderly() && reached <= |pages| && Progress(pages, reached)
      ensures reached == (if env.cancels(old(polls)) then i else i + 1) && (go ==> reached == i + 1)
      ensures old(polls) < polls && polls + 3 * |pendingPages| <= old(polls) + 3 * |old(pendingPages)| + 4
      ensures (go <==> !TruePoll(env.cancels, old(polls), polls))
      ensures if go then torn.None? && abandoned == [] && !cancelled else cancelled
    {
      hide Valid, TruePoll, SliceClosed, Progress, IsPrepared;
      NoPoll(env.cancels, polls);
      OnePoll(env.cancels, polls, polls);
      var stop := Cancel();
      if stop { return false, i; }
      ghost var asked := polls;
      TakePage(pages, i);
      go, reached := true, i + 1;
      if IsPrepared(pages[i]) {
        go := FlushFullWindow(pages, i + 1);
        MorePolls(env.cancels, old(polls), asked, polls);
      }
    }

    /** The loop over the candidate pages. */
    method PageLoop(pages: seq<Page>) returns (ghost reached: nat)
      requires Valid() && Orderly() && torn.None? && abandoned == [] && !cancelled && Progress(pages, 0)
      requires pure ==> SliceClosed(env)
      modifies this
      ensures Valid() && Orderly() && reached <= |pages| && Progress(pages, reached)
      ensures !cancelled ==> reached == |pages|
      ensures old(polls) <= polls && (pages != [] ==> old(polls) < polls)
      ensures polls + 3 * |pendingPages| <= old(polls) + 3 * |old(pendingPages)| + 4 * |pages|
    {
      hide Valid, TruePoll, SliceClosed, Progress;
      reached := 0;
      var i := 0;
      while i < |pages|
        invariant 0 <= i <= |pages| && reached == i && polls >= old(polls) + i
        invariant polls + 3 * |pendingPages| <= old(polls) + 3 * |old(pendingPages)| + 4 * i
        invariant Valid() && Orderly() && torn.None? && abandoned == [] && !cancelled && Progress(pages, i)
      {
        var go;
        go, reached := Turn(pages, i);
        if !go { return; }
        i := i + 1;
      }
    }

    /** How many chunks of abandoned pages are in no counter: those of a torn page that were
        dropped are already counted. */
    ghost function Missing(): int
      reads this`abandoned, this`torn
    {
      ChunkCount(abandoned) -
      match torn
      case None => 0
      case Some(t) => |Chunks(t.page)| - |Survivors(Chunks(t.page), t.vectors)|
    }

    /** The whole run. */
    method Run(pages: seq<Page>) returns (ghost reached: nat)
      requires Valid() && events == [] && pendingPages == [] && abandoned == [] && torn.None? && !cancelled
      requires preparedPages == preparedChunks == 0 && upsertBatch == []
      requires pure ==> SliceClosed(env)
      modifies this
      ensures Valid() && reached <= |pages| && Progress(pages, reached) && pendingPages == []
      // The run is cancelled if and only if one of its polls was answered so.
      ensures cancelled <==> exists k: nat :: k < polls && env.cancels(k)
      // It asks at least once if there are pages, and at most four times a page.
      ensures pages != [] ==> polls > old(polls)
      ensures polls <= old(polls) + 4 * |pages|
      // A run that was not cancelled processed every page, and with a well-behaved embedder its
      // ledger is that of indexing the pages one by one.
      ensures !cancelled ==> reached == |pages| && abandoned == [] && torn.None? && processed == |pages|
      ensures !cancelled && pure ==> View() == OneByOne(env, pages)
      // So it is for every run that nobody cancels.
      ensures (forall k: nat :: !env.cancels(k)) ==>
                reached == |pages| && processed == |pages| && (pure ==> View() == OneByOne(env, pages))
      // No chunk is lost, however the run ended.
      ensures preparedChunks == Accounted(View()) + Missing()
      // Emitted points are distinct, and were all acknowledged unless the last send failed.
      ensures Deduplicated(env, View())
      ensures acknowledged == emitted || (sends > 0 && !env.accepts(sends - 1))
    {
      hide Valid, SliceClosed, OneByOne, Accounted, Deduplicated, Missing, View, TruePoll;
      reached := 0;
      NothingYet(pages);
      if pages != [] {
        reached := PageLoop(pages);
        Finish(pages, reached);
      }
      Summary(pages, reached);
      PollsTell();
    }

    /** At the start of a run. */
    lemma NothingYet(pages: seq<Page>)
      requires Valid() && events == [] && pendingPages == [] && abandoned == [] && torn.None? && !cancelled
      requires preparedPages == preparedChunks == 0 && upsertBatch == []
      ensures Orderly() && Progress(pages, 0) && acknowledged == emitted
    {
    }

    lemma PollsTell()
      requires Valid()
      ensures cancelled <==> exists k: nat :: k < polls && env.cancels(k)
    {
    }

    /** After the loop: what is pending is flushed, then what is left in the buffer. */
    method Finish(ghost pages: seq<Page>, ghost reached: nat)
      requires Valid() && Orderly() && reached <= |pages| && Progress(pages, reached)
      requires pure ==> SliceClosed(env)
      modifies this`polls, this`cancelled, this`published, this`skippedPages
      modifies this`skipReasons, this`processed, this`events
      modifies this`embedDroppedChunks, this`firstDim, this`effectiveHybrid, this`torn, this`mismatched, this`unembedded
      modifies this`dedupedChunks, this`seenChunkKeys, this`emitted
      modifies this`upsertBatch, this`totalChunks, this`indexedPages
      modifies this`sends, this`failedSends, this`acknowledged, this`abandoned, this`embedCalls, this`pendingPages
      ensures Valid() && Orderly() && Progress(pages, reached) && pendingPages == []
      ensures old(polls) <= polls <= old(polls) + 3 * |old(pendingPages)| && (!cancelled ==> !old(cancelled))
      ensures acknowledged == emitted || (sends > 0 && !env.accepts(sends - 1))
    {
      hide TruePoll, SliceClosed, Progress, Consistent, Faithful, Polled;
      var go := FlushKeepsProgress(pages, reached);
      FlushUpsertBatch(true);
    }

    lemma Summary(pages: seq<Page>, reached: nat)
      requires Valid() && Orderly() && reached <= |pages| && Progress(pages, reached) && pendingPages == []
      requires !cancelled ==> reached == |pages|
      ensures !cancelled ==> abandoned == [] && torn.None? && processed == |pages|
      ensures !cancelled && pure ==> View() == OneByOne(env, pages)
      ensures preparedChunks == Accounted(View()) + Missing()
      ensures Deduplicated(env, View())
    {
      ChunksAreCounted(pages, reached);
      DistinctPoints();
      if !cancelled { AllConcluded(pages); }
    }

    /** Emitted points are distinct. */
    lemma DistinctPoints()
      requires Valid()
      ensures Deduplicated(env, View())
    {
      hide Accounted, Replay;
      ReplayDeduplicates(env, events);
    }

    /** Every chunk of a prepared page was counted, or is missing with an abandoned page. */
    lemma ChunksAreCounted(pages: seq<Page>, reached: nat)
      requires Valid() && Orderly() && reached <= |pages| && Progress(pages, reached) && pendingPages == []
      ensures preparedChunks == Accounted(View()) + Missing()
    {
      hide Replay, Polled, Faithful, Buffered, PagesOf, Embeds, Survivors, Chunks, ChunkCount, EarlyReasons;
      hide SkipReasons, Prepared;
      ReplayAccounts(env, events);
      assert abandoned + pendingPages == abandoned;
      ChunkCountAppend(PagesOf(Embeds(events)), abandoned);
    }

    /** A run that was not cancelled concluded every page. */
    lemma AllConcluded(pages: seq<Page>)
      requires Valid() && Orderly() && Progress(pages, |pages|) && pendingPages == [] && !cancelled
      ensures abandoned == [] && torn.None? && processed == |pages|
      ensures pure ==> View() == OneByOne(env, pages)
    {
      hide Replay, OneByOne, Polled, Buffered;
      assert pages[..|pages|] == pages;
      assert PagesOf(Embeds(events)) + (abandoned + pendingPages) == PagesOf(Embeds(events));
      PartsCount(events);
      PagesCount(pages);
      if pure { SameConclusionsSameLedger(env, events, pages); }
    }
  }

  // --- How pages are concluded ---

  function Lost(ledger: Ledger, chunks: nat): Ledger {
    ledger.(mismatched := ledger.mismatched + chunks)
  }

  /** The page is skipped when it is admitted: nothing was embedded, or the dimension is wrong. */
  predicate Settles(env: Env, ledger: Ledger, page: Page, embeddings: Vectors) {
    var pairs := Survivors(Chunks(page), embeddings);
    embeddings == [] || pairs == [] || Admit(env, ledger, page, embeddings).firstDim != Some(|pairs[0].1|)
  }

  /** What storing a page comes to. */
  lemma SettledPage(env: Env, before: Ledger, page: Page, embeddings: Vectors)
    ensures var pairs, admitted := Survivors(Chunks(page), embeddings), Admit(env, before, page, embeddings);
            var after := Apply(env, before, Stored(page, embeddings));
            if embeddings == [] then Settles(env, before, page, embeddings) && after == Unembed(before, page)
            else if pairs == [] then
              Settles(env, before, page, embeddings) && after == Lost(Skip(admitted, "embed_failed"), 0)
            else if Some(|pairs[0].1|) != admitted.firstDim then
              Settles(env, before, page, embeddings) && after == Lost(Skip(admitted, "dim_mismatch"), |pairs|)
            else !Settles(env, before, page, embeddings)
  {
  }

  lemma CommitIsStored(env: Env, before: Ledger, page: Page, embeddings: Vectors)
    requires embeddings != [] && Survivors(Chunks(page), embeddings) != []
    ensures Commit(env, Admit(env, before, page, embeddings), page, Survivors(Chunks(page), embeddings))
            == Apply(env, before, Stored(page, embeddings))
  {
  }

  /** A window embedded in one call: each page is stored with its slice of the result. */
  function Slices(pages: seq<Page>, embeddings: Vectors): (r: seq<Event>)
    ensures |r| == |pages|
  {
    seq(|pages|, k requires 0 <= k < |pages| =>
      var offset := |AllTexts(pages[..k])|;
      Stored(pages[k], Slice(embeddings, offset, offset + |Texts(pages[k])|)))
  }

  lemma SlicesAt(pages: seq<Page>, embeddings: Vectors, k: nat)
    requires k < |pages|
    ensures var offset := |AllTexts(pages[..k])|;
            Slices(pages, embeddings)[k] == Stored(pages[k], Slice(embeddings, offset, offset + |Texts(pages[k])|))
  {
  }

  /** A page in a call of its own, the embedder's call number `n`. */
  function OwnCall(env: Env, n: nat, page: Page): Event {
    match env.embed(n, Texts(page))
    case Ok(vectors) => Stored(page, vectors)
    case Raised => EmbedFailed(page)
  }

  /** Pages in calls of their own, from call number `n` on. */
  function OwnCalls(env: Env, n: nat, pages: seq<Page>): (r: seq<Event>)
    ensures |r| == |pages| && forall k :: 0 <= k < |pages| ==> r[k] == OwnCall(env, n + k, pages[k])
  {
    seq(|pages|, k requires 0 <= k < |pages| => OwnCall(env, n + k, pages[k]))
  }

  /** How a window is concluded: in call number `n`, or page by page if that fails. */
  function Conclusions(env: Env, n: nat, pages: seq<Page>): (r: seq<Event>)
    ensures |r| == |pages|
  {
    match env.embed(n, AllTexts(pages))
    case Ok(embeddings) => Slices(pages, embeddings)
    case Raised => OwnCalls(env, n + 1, pages)
  }

  /** The events conclude these pages, each through the embedder. */
  ghost predicate Concludes(events: seq<Event>, pages: seq<Page>) {
    |events| == |pages| && forall k :: 0 <= k < |pages| ==> events[k].page == pages[k] && !events[k].Skipped?
  }

  lemma TheseConclude(env: Env, n: nat, pages: seq<Page>)
    ensures Concludes(Conclusions(env, n, pages), pages)
  {
  }

  /** They add their pages to those that reached a conclusion through the embedder. */
  lemma {:induction false} EmbeddedBy(start: seq<Event>, conclusions: seq<Event>, pages: seq<Page>, done: nat)
    requires Concludes(conclusions, pages) && done <= |pages|
    ensures PagesOf(Embeds(start + conclusions[..done])) == PagesOf(Embeds(start)) + pages[..done]
    ensures SkipReasons(start + conclusions[..done]) == SkipReasons(start)
  {
    hide Embeds, SkipReasons, PagesOf;
    if done == 0 {
      assert start + conclusions[..0] == start;
      assert PagesOf(Embeds(start)) + pages[..0] == PagesOf(Embeds(start));
    } else {
      var before, event := start + conclusions[..done - 1], conclusions[done - 1];
      EmbeddedBy(start, conclusions, pages, done - 1);
      OneMore(start, conclusions, done - 1);
      EventsSnoc(before, event);
      assert SkipReasons(before) + [] == SkipReasons(before);
      assert pages[..done] == pages[..done - 1] + [pages[done - 1]];
    }
  }

  lemma OneMore<T>(start: seq<T>, more: seq<T>, k: nat)
    requires k < |more|
    ensures start + more[..k] + [more[k]] == start + more[..k + 1]
  {
  }

  lemma NoTexts(pages: seq<Page>)
    ensures AllTexts(pages[..0]) == []
  {
  }

  lemma TextsOneMore(pages: seq<Page>, k: nat)
    requires k < |pages|
    ensures |AllTexts(pages[..k + 1])| == |AllTexts(pages[..k])| + |Texts(pages[k])|
  {
    assert pages[..k + 1][..k] == pages[..k];
  }

  /** With an embedder that is a function of its texts, a page in its own call is concluded as alone. */
  lemma OwnCallIsAlone(env: Env, n: nat, page: Page)
    requires SliceClosed(env) && IsPrepared(page)
    ensures OwnCall(env, n, page) == Alone(env, page)
  {
  }

  lemma SameAnswer(env: Env, n: nat, texts: seq<string>)
    requires SliceClosed(env)
    ensures env.embed(n, texts) == env.embed(0, texts)
  {
  }

  method CollectTexts(pages: seq<Page>) returns (texts: seq<string>)
    ensures texts == AllTexts(pages)
  {
    texts := [];
    for k := 0 to |pages|
      invariant texts == AllTexts(pages[..k])
    {
      assert pages[..k + 1][..k] == pages[..k];
      texts := texts + Texts(pages[k]);
    }
    assert pages[..|pages|] == pages;
  }

  // --- Slicing a window ---

  /** A list slice in Python's sense: bounds past the end are cut off. */
  function Slice<T>(s: seq<T>, lo: nat, hi: nat): seq<T>
    requires lo <= hi
  {
    var from := if lo < |s| then lo else |s|;
    var to := if hi < |s| then hi else |s|;
    s[from..to]
  }

  function AllTexts(pages: seq<Page>): seq<string> {
    if pages == [] then [] else AllTexts(pages[..|pages| - 1]) + Texts(pages[|pages| - 1])
  }

  lemma {:induction false} AllTextsAppend(a: seq<Page>, b: seq<Page>)
    ensures AllTexts(a + b) == AllTexts(a) + AllTexts(b)
  {
    if b == [] {
      assert a + b == a;
    } else {
      var front, last := b[..|b| - 1], b[|b| - 1];
      AllTextsAppend(a, front);
      assert (a + b)[..|a + b| - 1] == a + front && (a + b)[|a + b| - 1] == last;
      AppendIsAssociative(AllTexts(a), AllTexts(front), Texts(last));
    }
  }

  lemma {:induction false} AllTextsAround(pages: seq<Page>, k: nat)
    requires k < |pages|
    ensures AllTexts(pages) == AllTexts(pages[..k]) + Texts(pages[k]) + AllTexts(pages[k + 1..])
  {
    AllTextsAppend(pages[..k + 1], pages[k + 1..]);
    assert pages == pages[..k + 1] + pages[k + 1..];
    assert pages[..k + 1][..k] == pages[..k];
  }

  lemma SliceInside<T>(s: seq<T>, lo: nat, hi: nat)
    requires lo <= hi <= |s|
    ensures Slice(s, lo, hi) == s[lo..hi]
  {
  }

  lemma PartAlone(env: Env, a: seq<string>, b: seq<string>, c: seq<string>, embeddings: Vectors)
    requires SliceClosed(env) && env.embed(0, a + b + c) == Ok(embeddings)
    ensures |embeddings| == |a| + |b| + |c| && env.embed(0, b) == Ok(embeddings[|a|..|a| + |b|])
  {
  }

  /** A page's slice of the window's embeddings is what it would get alone. */
  lemma PageSlice(env: Env, pages: seq<Page>, k: nat, embeddings: Vectors)
    requires SliceClosed(env) && env.embed(0, AllTexts(pages)) == Ok(embeddings)
    requires k < |pages| && IsPrepared(pages[k])
    ensures var offset := |AllTexts(pages[..k])|;
            Alone(env, pages[k]) == Stored(pages[k], Slice(embeddings, offset, offset + |Texts(pages[k])|))
  {
    hide SliceClosed, AllTexts, Texts, Slice;
    var a, b, c := AllTexts(pages[..k]), Texts(pages[k]), AllTexts(pages[k + 1..]);
    AllTextsAround(pages, k);
    PartAlone(env, a, b, c, embeddings);
    SliceInside(embeddings, |a|, |a| + |b|);
  }

  // --- What the reference does not depend on ---

  lemma {:induction false} AddChunksIgnoresTuning(env: Env, tuned: Env, ledger: Ledger, page: Page,
                                                  pairs: seq<(Chunk, Vector)>)
    requires tuned.digest == env.digest
    ensures AddChunks(tuned, ledger, page, pairs) == AddChunks(env, ledger, page, pairs)
  {
    if pairs != [] { AddChunksIgnoresTuning(env, tuned, ledger, page, pairs[..|pairs| - 1]); }
  }

  lemma {:induction false} ReplayIgnoresTuning(env: Env, tuned: Env, events: seq<Event>)
    requires tuned.digest == env.digest && tuned.hybrid == env.hybrid
    ensures Replay(tuned, events) == Replay(env, events)
  {
    if events != [] {
      var last := events[|events| - 1];
      var before := Replay(env, events[..|events| - 1]);
      ReplayIgnoresTuning(env, tuned, events[..|events| - 1]);
      ApplyIgnoresTuning(env, tuned, before, last);
    }
  }

  lemma ApplyIgnoresTuning(env: Env, tuned: Env, before: Ledger, event: Event)
    requires tuned.digest == env.digest && tuned.hybrid == env.hybrid
    ensures Apply(tuned, before, event) == Apply(env, before, event)
  {
    hide Survivors, AddChunks, Skip, Chunks;
    if event.Stored? {
      AddChunksIgnoresTuning(env, tuned, Admit(env, before, event.page, event.vectors), event.page,
        Survivors(Chunks(event.page), event.vectors));
    }
  }

  /** The ledger that an uncancelled run ends with is the same for every window size, every upsert
      batch size and whatever sends fail. */
  lemma TuningDoesNotMatter(env: Env, pages: seq<Page>, batchSize: nat, windowChunks: nat, accepts: nat -> bool,
                            cancels: nat -> bool)
    ensures var tuned :=
              env.(batchSize := batchSize, windowChunks := windowChunks, accepts := accepts, cancels := cancels);
            OneByOne(tuned, pages) == OneByOne(env, pages)
  {
    var tuned := env.(batchSize := batchSize, windowChunks := windowChunks, accepts := accepts, cancels := cancels);
    assert AllAlone(tuned, pages) == AllAlone(env, pages);
    ReplayIgnoresTuning(env, tuned, AllAlone(env, pages));
  }

  /** The adaptive embedder is slice-closed, so a run that embeds through it may use windows. */
  lemma AdaptiveEmbedderIsSliceClosed(env: Env, provider: Embedding.Provider, profile: Embedding.Profile, maxChars: nat,
                                      size: nat)
    requires size > 0 && Embedding.Honours(provider, profile) && Embedding.MonotoneOverflow(profile)
    requires forall n: nat, texts: seq<string> ::
               env.embed(n, texts) == Embedding.Embeddings(provider, texts, maxChars, size)
    ensures SliceClosed(env)
  {
    forall a: seq<string>, b: seq<string>, c: seq<string> | env.embed(0, a + b + c).Ok?
      ensures |env.embed(0, a + b + c).value| == |a| + |b| + |c|
      ensures env.embed(0, b) == Ok(env.embed(0, a + b + c).value[|a|..|a| + |b|])
    {
      Embedding.EmbeddingsAreSliceClosed(provider, profile, a, b, c, maxChars, size);
    }
  }
}
