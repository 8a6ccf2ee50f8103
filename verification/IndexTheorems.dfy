/** Properties of the indexing ledger: order of skips, balance, conservation, deduplication. */
module IndexTheorems {
  import opened Wrappers
  import opened IndexLedger
  import opened MapSum

  // --- Skips commute with everything ---

  lemma BumpCommutes(reasons: map<string, nat>, a: string, b: string)
    ensures Bump(Bump(reasons, a), b) == Bump(Bump(reasons, b), a)
  {
  }

  lemma {:induction false} AddChunksAfterSkip(env: Env, ledger: Ledger, page: Page, pairs: seq<(Chunk, Vector)>,
                                              reason: string)
    ensures AddChunks(env, Skip(ledger, reason), page, pairs) == Skip(AddChunks(env, ledger, page, pairs), reason)
  {
    if pairs != [] {
      AddChunksAfterSkip(env, ledger, page, pairs[..|pairs| - 1], reason);
    }
  }

  /** When a page is skipped does not matter to what the other pages do. */
  lemma ApplyAfterSkip(env: Env, ledger: Ledger, event: Event, reason: string)
    ensures Apply(env, Skip(ledger, reason), event) == Skip(Apply(env, ledger, event), reason)
  {
    match event
    case Skipped(_, other) => SkipAfterSkip(ledger, other, reason);
    case EmbedFailed(page) => SkipAfterSkip(ledger, "embed_failed", reason);
    case Stored(page, vectors) =>
      if vectors == [] {
        SkipAfterSkip(ledger, "embed_failed", reason);
      } else {
        var pairs := Survivors(Chunks(page), vectors);
        var admitted := Admit(env, ledger, page, vectors);
        assert Admit(env, Skip(ledger, reason), page, vectors) == Skip(admitted, reason);
        if pairs == [] {
          SkipAfterSkip(admitted, "embed_failed", reason);
        } else {
          CommitAfterSkip(env, admitted, page, pairs, reason);
        }
      }
  }

  lemma SkipAfterSkip(ledger: Ledger, a: string, b: string)
    ensures Skip(Skip(ledger, b), a) == Skip(Skip(ledger, a), b)
  {
    BumpCommutes(ledger.reasons, a, b);
  }

  lemma CommitAfterSkip(env: Env, ledger: Ledger, page: Page, pairs: seq<(Chunk, Vector)>, reason: string)
    requires pairs != []
    ensures Commit(env, Skip(ledger, reason), page, pairs) == Skip(Commit(env, ledger, page, pairs), reason)
  {
    SkipAfterSkip(ledger, "dim_mismatch", reason);
    AddChunksAfterSkip(env, ledger, page, pairs, reason);
  }

  function SkipAll(ledger: Ledger, reasons: seq<string>): Ledger {
    if reasons == [] then ledger
    else Skip(SkipAll(ledger, reasons[..|reasons| - 1]), reasons[|reasons| - 1])
  }

  lemma {:induction false} ApplyAfterSkipAll(env: Env, ledger: Ledger, event: Event, reasons: seq<string>)
    ensures Apply(env, SkipAll(ledger, reasons), event) == SkipAll(Apply(env, ledger, event), reasons)
  {
    if reasons != [] {
      var init := reasons[..|reasons| - 1];
      ApplyAfterSkip(env, SkipAll(ledger, init), event, reasons[|reasons| - 1]);
      ApplyAfterSkipAll(env, ledger, event, init);
    }
  }

  /** A run is its embedded pages, in order, followed by its skips. */
  lemma {:induction false} ReplayNormalForm(env: Env, events: seq<Event>)
    ensures Replay(env, events) == SkipAll(Replay(env, Embeds(events)), SkipReasons(events))
  {
    if events != [] {
      var init, last := events[..|events| - 1], events[|events| - 1];
      ReplayNormalForm(env, init);
      if last.Skipped? {
        assert (SkipReasons(init) + [last.reason])[..|SkipReasons(init)|] == SkipReasons(init);
        assert Embeds(init) + [] == Embeds(init);
      } else {
        assert (Embeds(init) + [last])[..|Embeds(init)|] == Embeds(init);
        ApplyAfterSkipAll(env, Replay(env, Embeds(init)), last, SkipReasons(init));
        assert SkipReasons(init) + [] == SkipReasons(init);
      }
    }
  }

  lemma {:induction false} AloneParts(env: Env, pages: seq<Page>)
    ensures SkipReasons(AllAlone(env, pages)) == EarlyReasons(pages)
    ensures Embeds(AllAlone(env, pages)) == AllAlone(env, Prepared(pages))
  {
    if pages != [] {
      var init, last := pages[..|pages| - 1], pages[|pages| - 1];
      AloneParts(env, init);
      assert AllAlone(env, pages)[..|pages| - 1] == AllAlone(env, init);
      assert AllAlone(env, Prepared(init) + [last]) == AllAlone(env, Prepared(init)) + [Alone(env, last)];
    } else {
      assert AllAlone(env, pages) == [];
    }
  }

  lemma {:induction false} EmbedsAreEvents(events: seq<Event>)
    ensures forall e :: e in Embeds(events) ==> e in events && !e.Skipped?
  {
    if events != [] { EmbedsAreEvents(events[..|events| - 1]); }
  }

  lemma PreparedSnoc(pages: seq<Page>, i: nat)
    requires i < |pages|
    ensures Prepared(pages[..i + 1]) == Prepared(pages[..i]) + if EarlyReason(pages[i]).None? then [pages[i]] else []
    ensures EarlyReasons(pages[..i + 1]) ==
              EarlyReasons(pages[..i]) + if EarlyReason(pages[i]).None? then [] else [EarlyReason(pages[i]).value]
    ensures ChunkCount(Prepared(pages[..i + 1])) ==
              ChunkCount(Prepared(pages[..i])) + if EarlyReason(pages[i]).None? then |Chunks(pages[i])| else 0
  {
    assert pages[..i + 1][..i] == pages[..i];
    var before := Prepared(pages[..i]);
    assert (before + [pages[i]])[..|before|] == before;
    assert before + [] == before;
  }

  lemma EventsSnoc(events: seq<Event>, event: Event)
    ensures Embeds(events + [event]) == Embeds(events) + if event.Skipped? then [] else [event]
    ensures SkipReasons(events + [event]) == SkipReasons(events) + if event.Skipped? then [event.reason] else []
    ensures PagesOf(Embeds(events + [event])) == PagesOf(Embeds(events)) + if event.Skipped? then [] else [event.page]
  {
    assert (events + [event])[..|events|] == events;
  }

  /** The events conclude `pages` except `rest`: of the prepared pages, in order, first come those
      that were embedded, then the rest; every other page was skipped. */
  ghost predicate Covers(events: seq<Event>, rest: seq<Page>, pages: seq<Page>) {
    && PagesOf(Embeds(events)) + rest == Prepared(pages)
    && SkipReasons(events) == EarlyReasons(pages)
  }

  lemma AppendIsAssociative<T>(a: seq<T>, b: seq<T>, c: seq<T>)
    ensures a + (b + c) == (a + b) + c
  {
  }

  lemma CoversSkipped(events: seq<Event>, rest: seq<Page>, pages: seq<Page>, i: nat, reason: string)
    requires i < |pages| && Covers(events, rest, pages[..i]) && EarlyReason(pages[i]) == Some(reason)
    ensures Covers(events + [Skipped(pages[i], reason)], rest, pages[..i + 1])
  {
    PreparedSnoc(pages, i);
    EventsSnoc(events, Skipped(pages[i], reason));
    assert PagesOf(Embeds(events)) + [] == PagesOf(Embeds(events));
    assert Prepared(pages[..i]) + [] == Prepared(pages[..i]);
  }

  lemma CoversPending(events: seq<Event>, rest: seq<Page>, pages: seq<Page>, i: nat)
    requires i < |pages| && Covers(events, rest, pages[..i]) && EarlyReason(pages[i]).None?
    ensures Covers(events, rest + [pages[i]], pages[..i + 1])
  {
    PreparedSnoc(pages, i);
    AppendIsAssociative(PagesOf(Embeds(events)), rest, [pages[i]]);
    assert EarlyReasons(pages[..i]) + [] == EarlyReasons(pages[..i]);
  }

  /** One more page is either skipped at once or pending. */
  lemma CoversOneMore(events: seq<Event>, rest: seq<Page>, pages: seq<Page>, i: nat)
    requires i < |pages| && Covers(events, rest, pages[..i])
    ensures match EarlyReason(pages[i])
            case None => Covers(events, rest + [pages[i]], pages[..i + 1])
            case Some(reason) => Covers(events + [Skipped(pages[i], reason)], rest, pages[..i + 1])
  {
    match EarlyReason(pages[i])
    case None => CoversPending(events, rest, pages, i);
    case Some(reason) => CoversSkipped(events, rest, pages, i, reason);
  }

  lemma PreparedOneMore(pages: seq<Page>, i: nat)
    requires i < |pages|
    ensures |Prepared(pages[..i + 1])| == |Prepared(pages[..i])| + if EarlyReason(pages[i]).None? then 1 else 0
    ensures ChunkCount(Prepared(pages[..i + 1])) ==
              ChunkCount(Prepared(pages[..i])) + if EarlyReason(pages[i]).None? then |Chunks(pages[i])| else 0
  {
    PreparedSnoc(pages, i);
  }

  lemma PendingArePrepared(events: seq<Event>, done: seq<Page>, pending: seq<Page>, pages: seq<Page>)
    requires Covers(events, done + pending, pages)
    ensures forall p :: p in pending ==> IsPrepared(p)
  {
    forall p | p in pending ensures IsPrepared(p) {
      assert p in done + pending;
      assert p in Prepared(pages);
    }
  }

  lemma {:induction false} PartsCount(events: seq<Event>)
    ensures |events| == |Embeds(events)| + |SkipReasons(events)|
  {
    if events != [] { PartsCount(events[..|events| - 1]); }
  }

  lemma {:induction false} PagesCount(pages: seq<Page>)
    ensures |pages| == |Prepared(pages)| + |EarlyReasons(pages)|
  {
    if pages != [] { PagesCount(pages[..|pages| - 1]); }
  }

  lemma {:induction false} ChunkCountAppend(a: seq<Page>, b: seq<Page>)
    ensures ChunkCount(a + b) == ChunkCount(a) + ChunkCount(b)
  {
    if b == [] {
      assert a + b == a;
    } else {
      ChunkCountAppend(a, b[..|b| - 1]);
      assert (a + b)[..|a + b| - 1] == a + b[..|b| - 1];
    }
  }

  /** Every event is what its page would come to alone. */
  ghost predicate AsAlone(env: Env, events: seq<Event>) {
    forall e :: e in events ==> e == Alone(env, e.page)
  }

  lemma AsAloneOneMore(env: Env, events: seq<Event>, event: Event)
    requires AsAlone(env, events) && event == Alone(env, event.page)
    ensures AsAlone(env, events + [event])
  {
  }

  lemma ReplayOneMore(env: Env, events: seq<Event>, event: Event)
    ensures Replay(env, events + [event]) == Apply(env, Replay(env, events), event)
  {
  }

  /** A run that concluded the same pages, each as it would conclude alone, in an order that
      may only have moved the skips, has the ledger of page-at-a-time indexing. */
  lemma {:induction false} SameConclusionsSameLedger(env: Env, events: seq<Event>, pages: seq<Page>)
    requires SkipReasons(events) == EarlyReasons(pages)
    requires PagesOf(Embeds(events)) == Prepared(pages)
    requires AsAlone(env, events)
    ensures Replay(env, events) == OneByOne(env, pages)
  {
    ReplayNormalForm(env, events);
    ReplayNormalForm(env, AllAlone(env, pages));
    AloneParts(env, pages);
    EmbedsAreEvents(events);
    var embeds := Embeds(events);
    forall i | 0 <= i < |embeds| ensures embeds[i] == Alone(env, Prepared(pages)[i]) {
      assert embeds[i] in embeds;
      assert PagesOf(embeds)[i] == embeds[i].page;
    }
    assert embeds == AllAlone(env, Prepared(pages));
  }

  // --- The page ledger ---

  /** Every page so far was indexed or skipped, and the skip reasons account for the skipped. */
  ghost predicate Balanced(ledger: Ledger, processed: nat) {
    && processed == ledger.indexed + ledger.skipped
    && Sum(ledger.reasons) == ledger.skipped
  }

  lemma SkipStaysBalanced(ledger: Ledger, processed: nat, reason: string)
    requires Balanced(ledger, processed)
    ensures Balanced(Skip(ledger, reason), processed + 1)
  {
    var key := if reason in ledger.reasons then reason else "other";
    SumSet(ledger.reasons, key, (if key in ledger.reasons then ledger.reasons[key] else 0) + 1);
  }

  lemma {:induction false} AddChunksKeepsPages(env: Env, ledger: Ledger, page: Page, pairs: seq<(Chunk, Vector)>)
    ensures var r := AddChunks(env, ledger, page, pairs);
            r.(deduped := ledger.deduped, seen := ledger.seen, emitted := ledger.emitted,
              totalChunks := ledger.totalChunks) == ledger
  {
    if pairs != [] { AddChunksKeepsPages(env, ledger, page, pairs[..|pairs| - 1]); }
  }

  lemma ApplyStaysBalanced(env: Env, ledger: Ledger, processed: nat, event: Event)
    requires Balanced(ledger, processed)
    ensures Balanced(Apply(env, ledger, event), processed + 1)
  {
    match event
    case Skipped(_, reason) => SkipStaysBalanced(ledger, processed, reason);
    case EmbedFailed(page) => SkipStaysBalanced(ledger, processed, "embed_failed");
    case Stored(page, vectors) =>
      var pairs := Survivors(Chunks(page), vectors);
      if vectors == [] {
        SkipStaysBalanced(ledger, processed, "embed_failed");
      } else if pairs == [] {
        SkipStaysBalanced(Admit(env, ledger, page, vectors), processed, "embed_failed");
      } else {
        CommitStaysBalanced(env, Admit(env, ledger, page, vectors), processed, page, pairs);
      }
  }

  lemma CommitStaysBalanced(env: Env, ledger: Ledger, processed: nat, page: Page, pairs: seq<(Chunk, Vector)>)
    requires Balanced(ledger, processed) && pairs != []
    ensures Balanced(Commit(env, ledger, page, pairs), processed + 1)
  {
    SkipStaysBalanced(ledger, processed, "dim_mismatch");
    AddChunksKeepsPages(env, ledger, page, pairs);
  }

  lemma {:induction false} ReplayIsBalanced(env: Env, events: seq<Event>)
    ensures Balanced(Replay(env, events), |events|)
  {
    if events == [] {
      SumZeros(ZeroReasons());
    } else {
      ReplayIsBalanced(env, events[..|events| - 1]);
      ApplyStaysBalanced(env, Replay(env, events[..|events| - 1]), |events| - 1, events[|events| - 1]);
    }
  }

  // --- The chunk ledger ---

  /** Where the chunks of the concluded pages went. */
  function Accounted(ledger: Ledger): nat {
    ledger.totalChunks + ledger.deduped + ledger.dropped + ledger.mismatched + ledger.unembedded
  }

  lemma {:induction false} AddChunksAccounts(env: Env, ledger: Ledger, page: Page, pairs: seq<(Chunk, Vector)>)
    ensures var r := AddChunks(env, ledger, page, pairs);
            r.totalChunks + r.deduped == ledger.totalChunks + ledger.deduped + |pairs|
  {
    if pairs != [] { AddChunksAccounts(env, ledger, page, pairs[..|pairs| - 1]); }
  }

  lemma ApplyAccounts(env: Env, ledger: Ledger, event: Event)
    ensures Accounted(Apply(env, ledger, event)) ==
            Accounted(ledger) + if event.Skipped? then 0 else |Chunks(event.page)|
  {
    if event.Stored? {
      var pairs := Survivors(Chunks(event.page), event.vectors);
      var admitted := Admit(env, ledger, event.page, event.vectors);
      AddChunksAccounts(env, admitted, event.page, pairs);
      AddChunksKeepsPages(env, admitted, event.page, pairs);
    }
  }

  /** Conservation: every chunk of a page that reached the embedder was stored, found to be a
      duplicate, dropped by the embedder, of the wrong dimension, or never embedded. */
  lemma {:induction false} ReplayAccounts(env: Env, events: seq<Event>)
    ensures Accounted(Replay(env, events)) == ChunkCount(PagesOf(Embeds(events)))
  {
    if events == [] {
      assert PagesOf(Embeds(events)) == [];
    } else {
      hide Accounted, Apply, Replay, PagesOf, Embeds, ChunkCount, Chunks;
      var init, last := events[..|events| - 1], events[|events| - 1];
      assert events == init + [last];
      ReplayAccounts(env, init);
      ApplyAccounts(env, Replay(env, init), last);
      ReplayOneMore(env, init, last);
      EventsSnoc(init, last);
      ChunkCountSnoc(PagesOf(Embeds(init)), last.page);
    }
  }

  lemma ChunkCountSnoc(pages: seq<Page>, page: Page)
    ensures ChunkCount(pages + [page]) == ChunkCount(pages) + |Chunks(page)| && pages + [] == pages
  {
  }

  // --- Deduplication ---

  ghost predicate Distinct<T(!new)>(s: seq<T>) {
    forall i, j :: 0 <= i < j < |s| ==> s[i] != s[j]
  }

  function Key(env: Env, point: Point): string { env.digest(point.chunk.text) }

  function Keys(env: Env, points: seq<Point>): (r: seq<string>)
    ensures |r| == |points|
  {
    seq(|points|, i requires 0 <= i < |points| => Key(env, points[i]))
  }

  ghost predicate Deduplicated(env: Env, ledger: Ledger) {
    && Distinct(Keys(env, ledger.emitted))
    && (set k | k in Keys(env, ledger.emitted)) == ledger.seen
    && |ledger.emitted| == ledger.totalChunks == |ledger.seen|
  }

  lemma AddChunkDeduplicates(env: Env, ledger: Ledger, page: Page, pair: (Chunk, Vector))
    requires Deduplicated(env, ledger)
    ensures Deduplicated(env, AddChunk(env, ledger, page, pair))
  {
    var key := env.digest(pair.0.text);
    var r := AddChunk(env, ledger, page, pair);
    if key !in ledger.seen {
      var before := Keys(env, ledger.emitted);
      assert Keys(env, r.emitted) == before + [key];
      assert key !in before;
      assert (set k | k in before + [key]) == (set k | k in before) + {key};
    }
  }

  lemma {:induction false} AddChunksDeduplicates(env: Env, ledger: Ledger, page: Page, pairs: seq<(Chunk, Vector)>)
    requires Deduplicated(env, ledger)
    ensures Deduplicated(env, AddChunks(env, ledger, page, pairs))
  {
    if pairs != [] {
      AddChunksDeduplicates(env, ledger, page, pairs[..|pairs| - 1]);
      AddChunkDeduplicates(env, AddChunks(env, ledger, page, pairs[..|pairs| - 1]), page, pairs[|pairs| - 1]);
    }
  }

  /** Over a whole run, emitted points have pairwise distinct keys, and there are as many of
      them as `total_chunks` says and as many as keys were seen. */
  lemma {:induction false} ReplayDeduplicates(env: Env, events: seq<Event>)
    ensures Deduplicated(env, Replay(env, events))
  {
    hide Apply;
    if events == [] {
      assert Keys(env, []) == [];
    } else {
      hide Deduplicated;
      var before := Replay(env, events[..|events| - 1]);
      ReplayDeduplicates(env, events[..|events| - 1]);
      var last := events[|events| - 1];
      ApplyDeduplicates(env, before, last);
    }
  }

  lemma ApplyDeduplicates(env: Env, before: Ledger, event: Event)
    requires Deduplicated(env, before)
    ensures Deduplicated(env, Apply(env, before, event))
  {
    hide Keys, Distinct, Survivors, AddChunks, Chunks, Bump;
    if event.Stored? {
      var admitted := Admit(env, before, event.page, event.vectors);
      assert Deduplicated(env, admitted);
      AddChunksDeduplicates(env, admitted, event.page, Survivors(Chunks(event.page), event.vectors));
    }
  }

  // --- Page atomicity ---

  function KeyOf(env: Env, pair: (Chunk, Vector)): string { env.digest(pair.0.text) }

  /** Pair `i` is the first of its key, and the key was not seen before. */
  predicate IsFirst(env: Env, seen: set<string>, pairs: seq<(Chunk, Vector)>, i: nat)
    requires i < |pairs|
  {
    KeyOf(env, pairs[i]) !in seen && forall j :: 0 <= j < i ==> KeyOf(env, pairs[j]) != KeyOf(env, pairs[i])
  }

  /** The places of the pairs that go in. */
  function Firsts(env: Env, seen: set<string>, pairs: seq<(Chunk, Vector)>): (r: seq<nat>)
    ensures forall k :: 0 <= k < |r| ==> r[k] < |pairs|
  {
    if pairs == [] then []
    else
      var n := |pairs| - 1;
      Firsts(env, seen, pairs[..n]) + if IsFirst(env, seen, pairs, n) then [n] else []
  }

  /** They are the first occurrences of the unseen keys: all of them, once each and in order. */
  lemma {:induction false} FirstsAreAllInOrder(env: Env, seen: set<string>, pairs: seq<(Chunk, Vector)>)
    ensures var r := Firsts(env, seen, pairs);
            && (forall i :: 0 <= i < |pairs| ==> (i in r <==> IsFirst(env, seen, pairs, i)))
            && (forall j, k :: 0 <= j < k < |r| ==> r[j] < r[k])
  {
    if pairs != [] {
      var n := |pairs| - 1;
      var init, before := pairs[..n], Firsts(env, seen, pairs[..n]);
      FirstsAreAllInOrder(env, seen, init);
      forall i | 0 <= i < n ensures IsFirst(env, seen, pairs, i) == IsFirst(env, seen, init, i) {
        assert init[i] == pairs[i] && forall j :: 0 <= j < i ==> init[j] == pairs[j];
      }
    }
  }

  /** The keys of the pairs that go in are just the keys not seen before. */
  lemma {:induction false} FirstsCoverTheKeys(env: Env, seen: set<string>, pairs: seq<(Chunk, Vector)>, i: nat)
    returns (k: nat)
    requires i < |pairs| && KeyOf(env, pairs[i]) !in seen
    ensures k <= i && k in Firsts(env, seen, pairs) && KeyOf(env, pairs[k]) == KeyOf(env, pairs[i])
  {
    if IsFirst(env, seen, pairs, i) {
      FirstsAreAllInOrder(env, seen, pairs);
      k := i;
    } else {
      var j :| 0 <= j < i && KeyOf(env, pairs[j]) == KeyOf(env, pairs[i]);
      k := FirstsCoverTheKeys(env, seen, pairs, j);
    }
  }

  function PointsOf(page: Page, pairs: seq<(Chunk, Vector)>, places: seq<nat>, hybrid: bool): (r: seq<Point>)
    requires forall k :: 0 <= k < |places| ==> places[k] < |pairs|
    ensures |r| == |places|
  {
    seq(|places|, k requires 0 <= k < |places| =>
      Point(page.source, page.filename, pairs[places[k]].0, pairs[places[k]].1, hybrid))
  }

  /** What a stored page adds: the points of the first occurrences of its unseen keys, all of them and
      in order, and nothing else; every other pair is counted as a duplicate. */
  ghost predicate AddsExactly(env: Env, before: Ledger, after: Ledger, page: Page, pairs: seq<(Chunk, Vector)>,
                              hybrid: bool) {
    var places := Firsts(env, before.seen, pairs);
    && after.emitted == before.emitted + PointsOf(page, pairs, places, hybrid)
    && after.seen == before.seen + (set i | 0 <= i < |pairs| :: KeyOf(env, pairs[i]))
    && after.totalChunks == before.totalChunks + |places|
    && after.deduped == before.deduped + |pairs| - |places|
  }

  lemma KeysOfOneMore(env: Env, pairs: seq<(Chunk, Vector)>)
    requires pairs != []
    ensures var init, last := pairs[..|pairs| - 1], pairs[|pairs| - 1];
            (set i | 0 <= i < |pairs| :: KeyOf(env, pairs[i])) ==
            (set i | 0 <= i < |init| :: KeyOf(env, init[i])) + {KeyOf(env, last)}
  {
  }

  lemma PointsOfOneMore(page: Page, pairs: seq<(Chunk, Vector)>, places: seq<nat>, hybrid: bool)
    requires pairs != [] && forall k :: 0 <= k < |places| ==> places[k] < |pairs| - 1
    ensures var n := |pairs| - 1;
            && PointsOf(page, pairs, places, hybrid) == PointsOf(page, pairs[..n], places, hybrid)
            && PointsOf(page, pairs, places + [n], hybrid) ==
               PointsOf(page, pairs[..n], places, hybrid) +
                 [Point(page.source, page.filename, pairs[n].0, pairs[n].1, hybrid)]
  {
  }

  lemma {:induction false} AddChunksAddsExactly(env: Env, ledger: Ledger, page: Page, pairs: seq<(Chunk, Vector)>)
    ensures AddsExactly(env, ledger, AddChunks(env, ledger, page, pairs), page, pairs, ledger.hybrid)
  {
    if pairs == [] {
      assert ledger.emitted + [] == ledger.emitted;
    } else {
      var init, n := pairs[..|pairs| - 1], |pairs| - 1;
      AddChunksAddsExactly(env, ledger, page, init);
      AddChunksKeepsPages(env, ledger, page, init);
      KeysOfOneMore(env, pairs);
      PointsOfOneMore(page, pairs, Firsts(env, ledger.seen, init), ledger.hybrid);
      UnseenIsFirst(env, ledger.seen, pairs);
    }
  }

  /** The last pair goes in just when its key is neither seen nor among the keys before it. */
  lemma UnseenIsFirst(env: Env, seen: set<string>, pairs: seq<(Chunk, Vector)>)
    requires pairs != []
    ensures var n := |pairs| - 1;
            IsFirst(env, seen, pairs, n) <==>
            KeyOf(env, pairs[n]) !in seen + (set i | 0 <= i < |pairs[..n]| :: KeyOf(env, pairs[..n][i]))
  {
  }

  /** The places of the chunks that have a vector, in order, and the pairs they make with it. */
  ghost predicate PairsAt(chunks: seq<Chunk>, vectors: Vectors, places: seq<nat>, pairs: seq<(Chunk, Vector)>) {
    && |places| == |pairs|
    && (forall i: nat :: i in places <==> HasVector(chunks, vectors, i))
    && (forall j, k :: 0 <= j < k < |places| ==> places[j] < places[k])
    && (forall k :: 0 <= k < |places| ==> PairAt(chunks, vectors, places[k], pairs[k]))
  }

  predicate HasVector(chunks: seq<Chunk>, vectors: Vectors, i: nat) {
    i < |chunks| && i < |vectors| && vectors[i].Some?
  }

  /** The pair is chunk `i` with the vector that was answered for it. */
  predicate PairAt(chunks: seq<Chunk>, vectors: Vectors, i: nat, pair: (Chunk, Vector)) {
    HasVector(chunks, vectors, i) && pair == (chunks[i], vectors[i].value)
  }

  /** A chunk survives if and only if it has a vector, and then with that vector: all of them, once each
      and in order. */
  lemma {:induction false} SurvivorsKeepTheirVectors(chunks: seq<Chunk>, vectors: Vectors) returns (places: seq<nat>)
    ensures PairsAt(chunks, vectors, places, Survivors(chunks, vectors))
  {
    if chunks == [] || vectors == [] {
      places := [];
    } else {
      hide PairsAt;
      var rest := SurvivorsKeepTheirVectors(chunks[1..], vectors[1..]);
      places := PairsWithFirst(chunks, vectors, rest, Survivors(chunks[1..], vectors[1..]));
    }
  }

  lemma PairsWithFirst(chunks: seq<Chunk>, vectors: Vectors, rest: seq<nat>, pairs: seq<(Chunk, Vector)>)
    returns (places: seq<nat>)
    requires chunks != [] && vectors != [] && PairsAt(chunks[1..], vectors[1..], rest, pairs)
    ensures PairsAt(chunks, vectors, places,
                    (if vectors[0].Some? then [(chunks[0], vectors[0].value)] else []) + pairs)
  {
    hide PairAt, HasVector;
    PairsShift(chunks, vectors, rest, pairs);
    places := Shifted(rest);
    FirstPair(chunks, vectors);
    if vectors[0].Some? {
      PairsCons(chunks, vectors, places, pairs, (chunks[0], vectors[0].value));
      places := [0] + places;
    } else {
      assert [] + pairs == pairs;
    }
  }

  lemma FirstPair(chunks: seq<Chunk>, vectors: Vectors)
    requires chunks != [] && vectors != []
    ensures HasVector(chunks, vectors, 0) <==> vectors[0].Some?
    ensures vectors[0].Some? ==> PairAt(chunks, vectors, 0, (chunks[0], vectors[0].value))
  {
  }

  lemma PairsCons(chunks: seq<Chunk>, vectors: Vectors, tail: seq<nat>, pairs: seq<(Chunk, Vector)>,
                  pair: (Chunk, Vector))
    requires |tail| == |pairs| && forall i: nat :: i in tail <==> i > 0 && HasVector(chunks, vectors, i)
    requires forall j, k :: 0 <= j < k < |tail| ==> tail[j] < tail[k]
    requires forall k :: 0 <= k < |tail| ==> PairAt(chunks, vectors, tail[k], pairs[k])
    requires HasVector(chunks, vectors, 0) && PairAt(chunks, vectors, 0, pair)
    ensures PairsAt(chunks, vectors, [0] + tail, [pair] + pairs)
  {
    hide PairAt, HasVector;
    var places := [0] + tail;
    forall i: nat ensures i in places <==> HasVector(chunks, vectors, i) {
      assert i in places <==> i == 0 || i in tail;
    }
    forall k | 0 <= k < |tail| ensures tail[k] > 0 { assert tail[k] in tail; }
  }

  function Shifted(places: seq<nat>): (r: seq<nat>)
    ensures |r| == |places| && forall k :: 0 <= k < |r| ==> r[k] == places[k] + 1
  {
    seq(|places|, k requires 0 <= k < |places| => places[k] + 1)
  }

  /** The pairs behind the first chunk are as far behind it in the whole. */
  lemma PairsShift(chunks: seq<Chunk>, vectors: Vectors, places: seq<nat>, pairs: seq<(Chunk, Vector)>)
    requires chunks != [] && vectors != [] && PairsAt(chunks[1..], vectors[1..], places, pairs)
    ensures forall i: nat :: i in Shifted(places) <==> i > 0 && HasVector(chunks, vectors, i)
    ensures forall k :: 0 <= k < |places| ==> PairAt(chunks, vectors, Shifted(places)[k], pairs[k])
  {
    forall i: nat ensures i in Shifted(places) <==> i > 0 && HasVector(chunks, vectors, i) {
      if i > 0 && HasVector(chunks, vectors, i) {
        assert HasVector(chunks[1..], vectors[1..], i - 1);
        var k :| 0 <= k < |places| && places[k] == i - 1;
        assert Shifted(places)[k] == i;
      }
      if i in Shifted(places) {
        var k :| 0 <= k < |places| && Shifted(places)[k] == i;
        assert PairAt(chunks[1..], vectors[1..], places[k], pairs[k]);
      }
    }
    forall k | 0 <= k < |places| ensures PairAt(chunks, vectors, Shifted(places)[k], pairs[k]) {
      assert PairAt(chunks[1..], vectors[1..], places[k], pairs[k]);
    }
  }

  /** What storing a page does to the whole ledger. A page is counted indexed exactly when it is stored
      with the run's dimension, and then it contributes all of its surviving chunks that are not yet
      seen; otherwise it contributes none and is skipped under one reason. */
  lemma StoringIsAllOrNothing(env: Env, ledger: Ledger, page: Page, vectors: Vectors)
    ensures var after := Store(env, ledger, page, vectors);
            var pairs := Survivors(Chunks(page), vectors);
            var lost := |Chunks(page)| - |pairs|;
            if vectors == [] then
              SkippedAs(ledger, after, "embed_failed") && after.unembedded == ledger.unembedded + |Chunks(page)|
              && after.dropped == ledger.dropped && after.mismatched == ledger.mismatched
              && after.firstDim == ledger.firstDim && after.hybrid == ledger.hybrid
            else if pairs == [] then
              SkippedAs(ledger, after, "embed_failed") && after.dropped == ledger.dropped + |Chunks(page)|
              && after.unembedded == ledger.unembedded && after.mismatched == ledger.mismatched
              && after.firstDim == ledger.firstDim && after.hybrid == ledger.hybrid
            else if ledger.firstDim.Some? && ledger.firstDim != Some(|pairs[0].1|) then
              SkippedAs(ledger, after, "dim_mismatch") && after.dropped == ledger.dropped + lost
              && after.unembedded == ledger.unembedded && after.mismatched == ledger.mismatched + |pairs|
              && after.firstDim == ledger.firstDim && after.hybrid == ledger.hybrid
            else
              && after.indexed == ledger.indexed + 1
              && after.skipped == ledger.skipped && after.reasons == ledger.reasons
              && after.dropped == ledger.dropped + lost
              && after.unembedded == ledger.unembedded && after.mismatched == ledger.mismatched
              && after.firstDim == Some(|pairs[0].1|)
              && after.hybrid == (if ledger.firstDim.None? then env.hybrid else ledger.hybrid)
              && AddsExactly(env, ledger, after, page, pairs, after.hybrid)
  {
    var pairs := Survivors(Chunks(page), vectors);
    var admitted := Admit(env, ledger, page, vectors);
    NoSurvivors(Chunks(page));
    AddChunksAddsExactly(env, admitted, page, pairs);
    AddChunksKeepsPages(env, admitted, page, pairs);
    SkipCountsOne(ledger, "embed_failed");
    SkipCountsOne(admitted, "embed_failed");
    SkipCountsOne(admitted, "dim_mismatch");
  }

  lemma NoSurvivors(chunks: seq<Chunk>)
    ensures Survivors(chunks, []) == []
  {
  }

  /** One page more is skipped, under this reason, and no point, key or indexed page is added. */
  ghost predicate SkippedAs(before: Ledger, after: Ledger, reason: string) {
    && after.indexed == before.indexed && after.skipped == before.skipped + 1
    && RaisedOnly(before.reasons, after.reasons, if reason in before.reasons then reason else "other")
    && after.emitted == before.emitted && after.seen == before.seen
    && after.totalChunks == before.totalChunks && after.deduped == before.deduped
  }

  /** One counter is one higher, and all others are what they were. */
  ghost predicate RaisedOnly(before: map<string, nat>, after: map<string, nat>, key: string) {
    && after.Keys == before.Keys + {key}
    && after[key] == (if key in before then before[key] else 0) + 1
    && forall k :: k in before && k != key ==> after[k] == before[k]
  }

  /** A skip raises the counter of its reason, or of "other" if that is no counter, and nothing else. */
  lemma SkipCountsOne(ledger: Ledger, reason: string)
    ensures SkippedAs(ledger, Skip(ledger, reason), reason)
    ensures var after := Skip(ledger, reason);
            && after.dropped == ledger.dropped && after.mismatched == ledger.mismatched
            && after.unembedded == ledger.unembedded
            && after.firstDim == ledger.firstDim && after.hybrid == ledger.hybrid
  {
  }

  /** The counter under which a page without chunks is skipped, told from its content. */
  ghost predicate SkippedUnder(page: Page, key: string) {
    match page.content
    case Unreadable => key == "read_error"
    case Rejected(reason) => key == if reason in REASONS then reason else "other"
    case Unsplittable => key == "chunk_failed"
    case Split(chunks) => chunks == [] && key == "no_valid_chunks"
  }

  lemma ListedReasons(reason: string)
    ensures reason in ZeroReasons() <==> reason in REASONS
    ensures reason in {"read_error", "chunk_failed", "no_valid_chunks", "other"} ==> reason in REASONS
    ensures "" !in REASONS
  {
    assert REASONS[0] == "read_error" && REASONS[5] == "chunk_failed";
    assert REASONS[6] == "no_valid_chunks" && REASONS[9] == "other";
    assert forall r :: r in REASONS ==> r != "";
  }

  /** A page without chunks is skipped before it is embedded: its counter is one higher, and no other. A page
      with chunks is not. */
  lemma EarlySkips(env: Env, ledger: Ledger, page: Page)
    requires ledger.reasons.Keys == ZeroReasons().Keys
    ensures IsPrepared(page) <==> !Alone(env, page).Skipped?
    ensures !IsPrepared(page) ==>
              exists key ::
                && SkippedUnder(page, key)
                && RaisedOnly(ledger.reasons, Apply(env, ledger, Alone(env, page)).reasons, key)
  {
    if !IsPrepared(page) {
      var reason := EarlyReason(page).value;
      ListedReasons(reason);
      ListedReasons("other");
      if page.content.Rejected? { ListedReasons(page.content.reason); }
      SkipCountsOne(ledger, reason);
      assert SkippedUnder(page, if reason in ledger.reasons then reason else "other");
    }
  }

  /** Every emitted point comes from a stored page, and holds one of its chunks with the vector that was
      answered for just this chunk: a page that was abandoned contributed none. */
  lemma {:induction false} PointsComeFromStoredPages(env: Env, events: seq<Event>, k: nat) returns (i: nat, j: nat)
    requires k < |Replay(env, events).emitted|
    ensures i < |events| && ComesFrom(Replay(env, events).emitted[k], events[i], j)
  {
    var init, last := events[..|events| - 1], events[|events| - 1];
    var before := Replay(env, init);
    LastAddsPoints(env, before, last);
    if k < |before.emitted| {
      i, j := PointsComeFromStoredPages(env, init, k);
      assert events[i] == init[i];
    } else {
      i := |events| - 1;
      j := PointOfPage(env, before, last, k);
    }
  }

  /** The point holds chunk `j` of the stored page, and its vector. */
  ghost predicate ComesFrom(point: Point, event: Event, j: nat) {
    && event.Stored? && event.page.source == point.source && event.page.filename == point.filename
    && PairAt(Chunks(event.page), event.vectors, j, (point.chunk, point.vector))
  }

  lemma LastAddsPoints(env: Env, before: Ledger, event: Event)
    ensures before.emitted <= Apply(env, before, event).emitted
    ensures !event.Stored? ==> Apply(env, before, event).emitted == before.emitted
  {
    if event.Stored? { StoringIsAllOrNothing(env, before, event.page, event.vectors); }
  }

  lemma PointOfPage(env: Env, before: Ledger, event: Event, k: nat) returns (j: nat)
    requires |before.emitted| <= k < |Apply(env, before, event).emitted|
    ensures ComesFrom(Apply(env, before, event).emitted[k], event, j)
  {
    hide Store, Survivors, Firsts, Chunks, RaisedOnly, HasVector;
    LastAddsPoints(env, before, event);
    StoringIsAllOrNothing(env, before, event.page, event.vectors);
    var pairs := Survivors(Chunks(event.page), event.vectors);
    var places := SurvivorsKeepTheirVectors(Chunks(event.page), event.vectors);
    var n := Firsts(env, before.seen, pairs)[k - |before.emitted|];
    j := places[n];
    assert PairAt(Chunks(event.page), event.vectors, places[n], pairs[n]);
  }
}
