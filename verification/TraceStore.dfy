/** The in-memory store of live proxy traces: the current trace, the ring of recent snapshots, the
    active traces with their time stamps, and the live token counts merged from two writers. */
module TraceStore {
  import opened Wrappers
  import Bookkeeping

  const RING_SIZE := 80
  const TTL_MS := 45000
  const GRACE_MS := 2000
  const TAIL_CHARS := 200

  datatype Preview = Preview(tail: string, truncated: bool)
  datatype Estimates = Estimates(prompt: Option<int>, completion: Option<int>, total: Option<int>)
  datatype Bucket = Bucket(estimates: Option<Estimates>, chatStream: bool, preview: Option<Preview>)

  /** The parts of a trace dict that the store looks at. `key` is its stripped trace id, or else its
      stripped chain id, or else "unknown"; `body` stands for all the other parts. */
  datatype Trace = Trace(
    key: string, ollama: Option<Bucket>, provider: Option<Bucket>,
    error: bool, responseError: bool, latency: Option<int>, body: string)

  /** A trace dict that a caller owns and the store keeps a reference to. */
  class TraceBox {
    var trace: Trace
    constructor (trace: Trace)
      ensures this.trace == trace
    {
      this.trace := trace;
    }
  }

  predicate Complete(trace: Trace) {
    trace.error || trace.responseError || trace.latency.Some?
  }

  function Max(a: int, b: int): int { if a < b then b else a }

  // --- Patches of one trace ---

  function NewBucket(bucket: Option<Bucket>): Bucket {
    if bucket.Some? then bucket.value else Bucket(None, false, None)
  }

  /** `_patch_live_token_estimates`. */
  function PatchTokens(trace: Trace, completion: Option<int>, prompt: Option<int>): Trace {
    var bucket := NewBucket(trace.ollama);
    var current := if bucket.estimates.Some? then bucket.estimates.value else Estimates(None, None, None);
    var p := if prompt.Some? then Some(Max(0, prompt.value)) else current.prompt;
    var c := if completion.Some? then Some(Max(0, completion.value)) else current.completion;
    var t := if p.Some? && c.Some? then Some(p.value + c.value) else current.total;
    trace.(ollama := Some(bucket.(estimates := Some(Estimates(p, c, t)), chatStream := true)))
  }

  function PatchPreview(trace: Trace, preview: Preview): Trace {
    trace.(ollama := Some(NewBucket(trace.ollama).(preview := Some(preview))))
  }

  function WithoutPreview(bucket: Option<Bucket>): Option<Bucket> {
    if bucket.Some? then Some(bucket.value.(preview := None)) else None
  }

  /** `_strip_live_preview_fields`. */
  function Stripped(trace: Trace): Trace {
    trace.(ollama := WithoutPreview(trace.ollama), provider := WithoutPreview(trace.provider))
  }

  predicate HasNoPreview(trace: Trace) {
    && (trace.ollama.Some? ==> trace.ollama.value.preview.None?)
    && (trace.provider.Some? ==> trace.provider.value.preview.None?)
  }

  /** What a trace holds beside its buckets. */
  predicate SameRest(a: Trace, b: Trace) {
    a.key == b.key && a.error == b.error && a.responseError == b.responseError && a.latency == b.latency &&
    a.body == b.body
  }

  /** The same bucket, but for its preview. */
  predicate SameCounts(a: Option<Bucket>, b: Option<Bucket>) {
    && (a.Some? <==> b.Some?)
    && (a.Some? ==> a.value.estimates == b.value.estimates && a.value.chatStream == b.value.chatStream)
  }

  /** A stripped trace has no preview, and everything else that it had. */
  lemma StrippedHasNone(trace: Trace)
    ensures HasNoPreview(Stripped(trace)) && SameRest(trace, Stripped(trace))
    ensures SameCounts(trace.ollama, Stripped(trace).ollama) && SameCounts(trace.provider, Stripped(trace).provider)
  {
  }

  /** A patched preview is shown, and all else stays: a bucket that was missing has no counts. */
  lemma PatchedPreview(trace: Trace, preview: Preview)
    ensures var after := PatchPreview(trace, preview);
            && PreviewOf(after) == Some(preview) && SameRest(trace, after) && after.provider == trace.provider
            && (trace.ollama.Some? ==> SameCounts(trace.ollama, after.ollama))
            && (trace.ollama.None? ==> after.ollama.value.estimates.None? && !after.ollama.value.chatStream)
  {
  }

  /** The estimates that a patch leaves: no given count is negative, what is not given stays, the total is that
      of both counts, and nothing but the first bucket changes. */
  lemma PatchedEstimates(trace: Trace, completion: Option<int>, prompt: Option<int>)
    ensures var after := PatchTokens(trace, completion, prompt);
            && after.ollama.Some? && after.ollama.value.estimates.Some? && after.ollama.value.chatStream
            && SameRest(trace, after) && after.provider == trace.provider
            && (trace.ollama.Some? ==> after.ollama.value.preview == trace.ollama.value.preview)
    ensures var e := PatchTokens(trace, completion, prompt).ollama.value.estimates.value;
            && (prompt.Some? ==> e.prompt == Some(if prompt.value < 0 then 0 else prompt.value))
            && (completion.Some? ==> e.completion == Some(if completion.value < 0 then 0 else completion.value))
            && (e.prompt.Some? && e.completion.Some? ==> e.total == Some(e.prompt.value + e.completion.value))
    ensures trace.ollama.Some? && trace.ollama.value.estimates.Some? ==>
              var e, was := PatchTokens(trace, completion, prompt).ollama.value.estimates.value,
                            trace.ollama.value.estimates.value;
              && (prompt.None? ==> e.prompt == was.prompt) && (completion.None? ==> e.completion == was.completion)
              && (e.prompt.None? || e.completion.None? ==> e.total == was.total)
  {
  }

  /** `_estimated_completion_tokens`: the count that a reader of the trace is shown. */
  function Shown(trace: Trace): Option<int> {
    var bucket := if trace.ollama.Some? then trace.ollama else trace.provider;
    if bucket.None? || bucket.value.estimates.None? then None
    else
      var n := bucket.value.estimates.value.completion;
      if n.Some? && n.value >= 0 then n else None
  }

  /** The count a trace has after a live update: never less than the live count it had. */
  function RaisedCount(live: map<string, int>, tid: string, completion: int): (r: int)
    ensures r >= 0 && r >= completion && (tid != "" && tid in live ==> r >= live[tid])
    ensures r == 0 || r == completion || (tid != "" && tid in live && r == live[tid])
  {
    if tid != "" && tid in live then Max(live[tid], Max(0, completion)) else Max(0, completion)
  }

  lemma PatchedCountIsShown(previews: map<string, Preview>, trace: Trace, tokens: int, prompt: Option<int>)
    requires tokens >= 0
    ensures Shown(MergePreview(previews, PatchTokens(trace, Some(tokens), prompt))) == Some(tokens)
  {
  }

  // --- Merging the live writers into a trace ---

  function MergedCount(live: map<string, int>, trace: Trace): Option<int> {
    if trace.key !in live then None
    else if Shown(trace).None? then Some(live[trace.key])
    else Some(Max(live[trace.key], Shown(trace).value))
  }

  /** `_merge_live_progress`: the larger count goes to both the trace and the live table. */
  function MergeLive(live: map<string, int>, trace: Trace): map<string, int> {
    if MergedCount(live, trace).Some? then live[trace.key := MergedCount(live, trace).value] else live
  }

  function MergeTokens(live: map<string, int>, trace: Trace): Trace {
    if MergedCount(live, trace).Some? then PatchTokens(trace, MergedCount(live, trace), None) else trace
  }

  function MergePreview(previews: map<string, Preview>, trace: Trace): Trace {
    if trace.key in previews then PatchPreview(trace, previews[trace.key]) else trace
  }

  /** `_normalize_visible_tail`: at most the last 200 characters. */
  function NormalizeTail(tail: string): (r: Preview)
    ensures |r.tail| <= |tail| && r.tail == tail[|tail| - |r.tail|..] && |r.tail| <= TAIL_CHARS
    ensures (r.truncated <==> |r.tail| < |tail|) && (r.truncated ==> |r.tail| == TAIL_CHARS)
  {
    if |tail| <= TAIL_CHARS then Preview(tail, false) else Preview(tail[|tail| - TAIL_CHARS..], true)
  }

  predicate Expired(trace: Trace, updated: int, now: int) {
    now - updated > TTL_MS || (Complete(trace) && now - updated > GRACE_MS)
  }

  /** A running trace expires after its time to live, a complete one after its grace. */
  lemma ExpiresAfter(trace: Trace, updated: int, now: int)
    ensures Expired(trace, updated, now) <==> now > updated + (if Complete(trace) then GRACE_MS else TTL_MS)
    ensures Complete(trace) <==> trace.error || trace.responseError || trace.latency != None
  {
  }

  /** Live counts only grow, for every key that stays. */
  ghost predicate Grown(before: map<string, int>, after: map<string, int>) {
    forall k :: k in before && k in after ==> before[k] <= after[k]
  }

  /** The tables of live traces, and the last count shown for each key since its live count came to be.
      What belongs to one key is dropped together. */
  datatype LiveState = LiveState(active: map<string, Trace>, activeUpdated: map<string, int>,
                                 live: map<string, int>, previews: map<string, Preview>, lastShown: map<string, int>)

  function Dropped(s: LiveState, gone: set<string>): LiveState {
    LiveState(s.active - gone, s.activeUpdated - gone, s.live - gone, s.previews - gone, s.lastShown - gone)
  }

  /** The active traces that outlived their time. */
  function Overdue(s: LiveState, now: int): set<string> {
    set k | k in s.active && (k in s.activeUpdated ==> Expired(s.active[k], s.activeUpdated[k], now))
  }

  /** `_prune_active_traces`: exactly the overdue traces go, with all that belongs to them. */
  function Pruned(s: LiveState, now: int): LiveState {
    Dropped(s, Overdue(s, now))
  }

  /** A trace that is set: its merged count goes to the live table, its copy becomes active. */
  function Recorded(s: LiveState, trace: Trace, now: int): LiveState {
    var copy := MergePreview(s.previews, MergeTokens(s.live, trace));
    s.(live := MergeLive(s.live, trace), active := s.active[copy.key := copy],
      activeUpdated := s.activeUpdated[copy.key := now])
  }

  /** A live update: the count is raised, and a new visible tail replaces the old one. */
  function CountRaised(s: LiveState, tid: string, completion: int, tail: Option<string>, truncated: bool): LiveState {
    if tid == "" then s
    else
      s.(live := s.live[tid := RaisedCount(s.live, tid, completion)],
         previews := if tail.None? then s.previews
                     else
                       var preview := NormalizeTail(tail.value);
                       s.previews[tid := Preview(preview.tail, preview.truncated || truncated)])
  }

  /** Its active trace shows the count and is fresh again. */
  function Patched(s: LiveState, tid: string, tokens: int, prompt: Option<int>, now: int): LiveState {
    if tid == "" || tid !in s.active then s
    else
      s.(active := s.active[tid := MergePreview(s.previews, PatchTokens(s.active[tid], Some(tokens), prompt))],
         activeUpdated := s.activeUpdated[tid := now])
  }

  /** `update_live_stream_progress` as a whole. */
  function Updated(s: LiveState, tid: string, completion: int, prompt: Option<int>, tail: Option<string>,
                   truncated: bool, now: int): LiveState {
    var raised := CountRaised(s, tid, completion, tail, truncated);
    Pruned(Patched(raised, tid, RaisedCount(s.live, tid, completion), prompt, now), now)
  }

  /** An active trace is read: its live count becomes the merged one, and that is what was shown. */
  function ReadKey(s: LiveState, key: string): LiveState {
    if key !in s.active || key !in s.live then s
    else
      var shown := Max(s.live[key], if Shown(s.active[key]).Some? then Shown(s.active[key]).value else s.live[key]);
      s.(live := s.live[key := shown], lastShown := s.lastShown[key := shown])
  }

  function ReadKeys(s: LiveState, keys: seq<string>): LiveState {
    if keys == [] then s else ReadKey(ReadKeys(s, keys[..|keys| - 1]), keys[|keys| - 1])
  }

  /** Reading some traces leaves the tables of the others alone. */
  lemma {:induction false} ReadLeavesOthers(s: LiveState, keys: seq<string>, k: string)
    ensures var after := ReadKeys(s, keys);
            && after.active == s.active && after.activeUpdated == s.activeUpdated && after.previews == s.previews
            && (k in after.live <==> k in s.live)
            && (k !in keys && k in s.live ==> after.live[k] == s.live[k])
            && (k !in keys ==> (k in after.lastShown <==> k in s.lastShown))
            && (k !in keys && k in s.lastShown ==> after.lastShown[k] == s.lastShown[k])
  {
    if keys != [] { ReadLeavesOthers(s, keys[..|keys| - 1], k); }
  }

  lemma ReadNothing(s: LiveState)
    ensures forall keys: seq<string> :: ReadKeys(s, keys[..0]) == s
  {
  }

  lemma ReadOneMore(s: LiveState, keys: seq<string>, i: nat)
    requires i < |keys|
    ensures ReadKeys(s, keys[..i + 1]) == ReadKey(ReadKeys(s, keys[..i]), keys[i])
  {
    assert keys[..i + 1][..i] == keys[..i];
  }

  lemma {:induction false} ReadGrows(s: LiveState, keys: seq<string>)
    ensures Grown(s.live, ReadKeys(s, keys).live)
  {
    if keys != [] {
      ReadGrows(s, keys[..|keys| - 1]);
      forall k | k in s.live && k in ReadKeys(s, keys).live ensures s.live[k] <= ReadKeys(s, keys).live[k] {
        ReadLeavesOthers(s, keys[..|keys| - 1], k);
      }
    }
  }

  /** `k` has the same entries in all tables. */
  ghost predicate SameFor(a: LiveState, b: LiveState, k: string) {
    && (k in a.active <==> k in b.active) && (k in a.active ==> a.active[k] == b.active[k])
    && (k in a.activeUpdated <==> k in b.activeUpdated)
    && (k in a.activeUpdated ==> a.activeUpdated[k] == b.activeUpdated[k])
    && (k in a.live <==> k in b.live) && (k in a.live ==> a.live[k] == b.live[k])
    && (k in a.previews <==> k in b.previews) && (k in a.previews ==> a.previews[k] == b.previews[k])
    && (k in a.lastShown <==> k in b.lastShown) && (k in a.lastShown ==> a.lastShown[k] == b.lastShown[k])
  }

  /** What is not overdue keeps every entry. */
  lemma PruneKeeps(s: LiveState, now: int, k: string)
    requires k !in Overdue(s, now)
    ensures SameFor(s, Pruned(s, now), k)
  {
  }

  /** What is overdue leaves no entry behind. */
  lemma PruneDrops(s: LiveState, now: int, k: string)
    requires k in Overdue(s, now)
    ensures var after := Pruned(s, now);
            k !in after.active && k !in after.activeUpdated && k !in after.live && k !in after.previews &&
            k !in after.lastShown
  {
  }

  /** A live update changes nothing of any other trace that is not overdue. */
  lemma UpdateKeepsOthers(s: LiveState, tid: string, completion: int, prompt: Option<int>,
                                             tail: Option<string>, truncated: bool, now: int, k: string)
    requires k != tid && k !in Overdue(s, now)
    ensures SameFor(s, Updated(s, tid, completion, prompt, tail, truncated, now), k)
  {
    var patched := Patched(CountRaised(s, tid, completion, tail, truncated), tid, RaisedCount(s.live, tid, completion),
      prompt, now);
    PruneKeeps(patched, now, k);
  }

  /** The updated trace shows the raised count, is fresh, and its live count is the one shown. */
  lemma UpdateShowsCount(s: LiveState, tid: string, completion: int, prompt: Option<int>,
                                            tail: Option<string>, truncated: bool, now: int)
    requires tid != "" && tid in s.active
    ensures var after := Updated(s, tid, completion, prompt, tail, truncated, now);
            && tid in after.active && tid in after.live && after.live[tid] == RaisedCount(s.live, tid, completion)
            && Shown(after.active[tid]) == Some(after.live[tid])
            && tid in after.activeUpdated && after.activeUpdated[tid] == now
            && (tid in s.live ==> s.live[tid] <= after.live[tid])
  {
    var raised := CountRaised(s, tid, completion, tail, truncated);
    var tokens := RaisedCount(s.live, tid, completion);
    assert tokens >= 0;
    PatchedCountIsShown(raised.previews, s.active[tid], tokens, prompt);
    var patched := Patched(raised, tid, tokens, prompt, now);
    assert !Expired(patched.active[tid], now, now);
    PruneKeeps(patched, now, tid);
  }

  /** The preview that the first bucket of a trace shows. */
  function PreviewOf(trace: Trace): Option<Preview> {
    if trace.ollama.Some? then trace.ollama.value.preview else None
  }

  /** An update with a visible tail shows its end in the active trace; one without leaves the last one there. */
  lemma UpdateShowsTail(s: LiveState, tid: string, completion: int, prompt: Option<int>, tail: Option<string>,
                        truncated: bool, now: int)
    requires tid != "" && tid in s.active && s.active[tid].key == tid
    ensures var after := Updated(s, tid, completion, prompt, tail, truncated, now);
            && tid in after.active && SameRest(after.active[tid], s.active[tid])
            && (tail.None? ==> (tid in after.previews <==> tid in s.previews))
            && (tail.None? && tid in s.previews ==> after.previews[tid] == s.previews[tid])
            && (tid in after.previews ==> PreviewOf(after.active[tid]) == Some(after.previews[tid]))
            && (tid !in after.previews ==> PreviewOf(after.active[tid]) == PreviewOf(s.active[tid]))
    ensures tail.Some? ==>
              var after := Updated(s, tid, completion, prompt, tail, truncated, now);
              && tid in after.previews
              && after.previews[tid].tail == NormalizeTail(tail.value).tail
              && (after.previews[tid].truncated <==> truncated || |tail.value| > TAIL_CHARS)
  {
    hide Pruned, Overdue;
    var raised := CountRaised(s, tid, completion, tail, truncated);
    var tokens := RaisedCount(s.live, tid, completion);
    var patched := Patched(raised, tid, tokens, prompt, now);
    PatchedEstimates(s.active[tid], Some(tokens), prompt);
    FreshIsKept(patched, tid, now);
  }

  /** What was updated just now stays. */
  lemma FreshIsKept(s: LiveState, key: string, now: int)
    requires key in s.activeUpdated && s.activeUpdated[key] == now
    ensures SameFor(s, Pruned(s, now), key)
  {
  }

  /** A trace that is set becomes the active one of its key, is fresh, and shows the larger of its own count and
      the live one, which is the live count from then on; its preview is that of the live table. */
  lemma RecordShowsTrace(s: LiveState, trace: Trace, now: int)
    requires trace.key in s.live ==> s.live[trace.key] >= 0
    ensures var after := Pruned(Recorded(s, trace, now), now);
            && trace.key in after.active && SameRest(after.active[trace.key], trace)
            && trace.key in after.activeUpdated && after.activeUpdated[trace.key] == now
            && (trace.key in after.live <==> trace.key in s.live)
            && (trace.key in s.live ==>
                  && Shown(after.active[trace.key]) == Some(after.live[trace.key])
                  && after.live[trace.key] >= s.live[trace.key]
                  && (Shown(trace).Some? ==> after.live[trace.key] >= Shown(trace).value)
                  && (after.live[trace.key] == s.live[trace.key] || Shown(trace) == Some(after.live[trace.key])))
            && (trace.key !in s.live && trace.key !in s.previews ==> after.active[trace.key] == trace)
            && (trace.key in s.previews ==> PreviewOf(after.active[trace.key]) == Some(s.previews[trace.key]))
  {
    hide Pruned, Overdue;
    if trace.key in s.live {
      MergeAgrees(s.live, s.previews, trace);
      PatchedEstimates(trace, MergedCount(s.live, trace), None);
    }
    FreshIsKept(Recorded(s, trace, now), trace.key, now);
  }

  /** Setting a trace changes nothing of any other trace that is not overdue. */
  lemma RecordKeepsOthers(s: LiveState, trace: Trace, now: int, k: string)
    requires k != trace.key && k !in Overdue(s, now)
    ensures SameFor(s, Pruned(Recorded(s, trace, now), now), k)
  {
    PruneKeeps(Recorded(s, trace, now), now, k);
  }

  /** Exactly the artifacts within their time to live stay, unchanged. */
  ghost predicate ArtifactsPruned(before: map<string, string>, beforeUpdated: map<string, int>,
                            after: map<string, string>, afterUpdated: map<string, int>, now: int)
    requires before.Keys == beforeUpdated.Keys && after.Keys == afterUpdated.Keys
  {
    && (forall k :: k in after <==> k in before && now - beforeUpdated[k] <= TTL_MS)
    && (forall k :: k in after ==> after[k] == before[k] && afterUpdated[k] == beforeUpdated[k])
  }

  class Store {
    var current: TraceBox?
    var ring: seq<Trace>
    var active: map<string, Trace>
    var activeUpdated: map<string, int>
    var live: map<string, int>
    var previews: map<string, Preview>
    var artifacts: map<string, string>
    var artifactsUpdated: map<string, int>

    /** The stripped snapshots since the last clear, and the last count shown for each key since
        its live count came to be. */
    ghost var snapshots: seq<Trace>
    ghost var lastShown: map<string, int>

    ghost predicate ActiveFits()
      reads this`active, this`activeUpdated
    {
      && active.Keys == activeUpdated.Keys
      && forall k :: k in active ==> active[k].key == k
    }

    ghost predicate RingFits()
      reads this`ring, this`snapshots
    {
      && ring == Bookkeeping.Last(snapshots, RING_SIZE)
      && forall t :: t in snapshots ==> HasNoPreview(t)
    }

    ghost predicate LiveFits()
      reads this`live, this`lastShown
    {
      && (forall k :: k in live ==> live[k] >= 0)
      && (forall k :: k in lastShown ==> k in live && lastShown[k] <= live[k])
    }

    ghost predicate Valid()
      reads this
    {
      ActiveFits() && RingFits() && LiveFits() && artifacts.Keys == artifactsUpdated.Keys
    }

    constructor ()
      ensures Valid() && snapshots == [] && current == null
    {
      current, ring, active, activeUpdated, live, previews := null, [], map[], map[], map[], map[];
      artifacts, artifactsUpdated, snapshots, lastShown := map[], map[], [], map[];
    }

    // --- Pruning ---

    ghost function State(): LiveState
      reads this`active, this`activeUpdated, this`live, this`previews, this`lastShown
    {
      LiveState(active, activeUpdated, live, previews, lastShown)
    }

    /** `_drop_active_trace`. */
    method DropActiveTrace(key: string)
      requires ActiveFits() && LiveFits()
      modifies this`active, this`activeUpdated, this`live, this`previews, this`lastShown
      ensures ActiveFits() && LiveFits() && State() == Dropped(old(State()), {key})
    {
      active := active - {key};
      activeUpdated := activeUpdated - {key};
      live := live - {key};
      previews := previews - {key};
      lastShown := lastShown - {key};
    }

    /** `_prune_active_traces`: exactly the expired traces go, with all of their live state. */
    method PruneActiveTraces(now: int)
      requires ActiveFits() && LiveFits()
      modifies this`active, this`activeUpdated, this`live, this`previews, this`lastShown
      ensures ActiveFits() && LiveFits() && State() == Pruned(old(State()), now)
      ensures Overdue(State(), now) == {}
    {
      hide Complete, LiveFits;
      ghost var before := State();
      ghost var overdue := Overdue(before, now);
      ghost var gone: set<string> := {};
      var keys := active.Keys;
      NothingDropped(before);
      while keys != {}
        invariant ActiveFits() && LiveFits() && keys <= active.Keys && State() == Dropped(before, gone)
        invariant gone == overdue - keys
        decreases |keys|
      {
        var key :| key in keys;
        assert active[key] == before.active[key] && activeUpdated[key] == before.activeUpdated[key];
        assert key in overdue <==> Expired(active[key], activeUpdated[key], now);
        LookAtOneMore(overdue, keys, key);
        keys := keys - {key};
        if Expired(active[key], activeUpdated[key], now) {
          DroppedOneMore(before, gone, key);
          DropActiveTrace(key);
          gone := gone + {key};
        }
      }
      assert gone == overdue;
      NoneOverdue(before, now);
    }

    /** `_prune_response_artifacts`. */
    method PruneArtifacts(now: int)
      requires artifacts.Keys == artifactsUpdated.Keys
      modifies this`artifacts, this`artifactsUpdated
      ensures artifacts.Keys == artifactsUpdated.Keys
      ensures ArtifactsPruned(old(artifacts), old(artifactsUpdated), artifacts, artifactsUpdated, now)
    {
      var keys := artifacts.Keys;
      while keys != {}
        invariant artifacts.Keys == artifactsUpdated.Keys && keys <= artifacts.Keys
        invariant forall k :: k in artifacts <==>
                    k in old(artifacts) && (k in keys || now - old(artifactsUpdated)[k] <= TTL_MS)
        invariant forall k :: k in artifacts ==>
                    artifacts[k] == old(artifacts)[k] && artifactsUpdated[k] == old(artifactsUpdated)[k]
        decreases |keys|
      {
        var key :| key in keys;
        keys := keys - {key};
        if now - artifactsUpdated[key] > TTL_MS {
          artifacts := artifacts - {key};
          artifactsUpdated := artifactsUpdated - {key};
        }
      }
    }

    // --- The two writers ---

    /** `set_current_trace`, the part for a trace: the caller's dict is patched, a stripped copy goes
        into the ring, and a copy with the visible tail becomes active. */
    method RecordTrace(box: TraceBox, now: int)
      requires Valid()
      modifies this`live, this`snapshots, this`ring, this`active, this`activeUpdated, box
      ensures Valid() && Grown(old(live), live) && live.Keys == old(live).Keys
      ensures box.trace == MergeTokens(old(live), old(box.trace))
      ensures snapshots == old(snapshots) + [Stripped(box.trace)]
      ensures State() == Recorded(old(State()), old(box.trace), now)
    {
      hide Shown, MergeTokens, MergePreview, MergeLive, Stripped, RingFits, LiveFits;
      var merged := MergeIntoLive(box.trace);
      box.trace := merged;
      StrippedHasNone(merged);
      PushSnapshot(Stripped(merged));
      var activeCopy := MergePreview(previews, merged);
      active := active[activeCopy.key := activeCopy];
      activeUpdated := activeUpdated[activeCopy.key := now];
    }

    /** `_merge_live_progress`. */
    method MergeIntoLive(trace: Trace) returns (merged: Trace)
      requires LiveFits()
      modifies this`live
      ensures merged == MergeTokens(old(live), trace) && live == MergeLive(old(live), trace)
      ensures LiveFits() && Grown(old(live), live) && live.Keys == old(live).Keys
      ensures merged.key == trace.key
    {
      merged := MergeTokens(live, trace);
      live := MergeLive(live, trace);
    }

    /** `deque.append` with `maxlen=80`. */
    method PushSnapshot(snapshot: Trace)
      requires RingFits() && HasNoPreview(snapshot)
      modifies this`ring, this`snapshots
      ensures RingFits() && snapshots == old(snapshots) + [snapshot]
    {
      snapshots := snapshots + [snapshot];
      ring := ring + [snapshot];
      if |ring| > RING_SIZE {
        ring := ring[1..];
      }
    }

    /** `set_current_trace`. */
    method SetCurrentTrace(box: TraceBox?, now: int)
      requires Valid()
      modifies this, box
      ensures Valid() && Overdue(State(), now) == {} && current == box && Grown(old(live), live)
      ensures box == null ==> snapshots == old(snapshots) && State() == Pruned(old(State()), now)
      ensures box != null ==> box.trace == MergeTokens(old(live), old(box.trace))
      ensures box != null ==> snapshots == old(snapshots) + [Stripped(box.trace)]
      ensures box != null ==> State() == Pruned(Recorded(old(State()), old(box.trace), now), now)
      ensures ArtifactsPruned(old(artifacts), old(artifactsUpdated), artifacts, artifactsUpdated, now)
    {
      hide Recorded, Overdue, MergeTokens, Stripped, RingFits, LiveFits, ActiveFits, ArtifactsPruned;
      current := box;
      if box != null {
        RecordTrace(box, now);
      }
      PruneActiveTraces(now);
      PruneArtifacts(now);
    }

    /** The live tables of `update_live_stream_progress`: the count never goes down. */
    method RaiseLiveCount(tid: string, tokens: int, visibleTail: Option<string>, tailTruncated: bool)
      returns (raised: int)
      requires LiveFits() && tokens >= 0 && tid != ""
      modifies this`live, this`previews
      ensures LiveFits() && Grown(old(live), live) && raised == RaisedCount(old(live), tid, tokens)
      ensures State() == CountRaised(old(State()), tid, tokens, visibleTail, tailTruncated)
    {
      var prev := if tid in live then live[tid] else 0;
      raised := Max(prev, tokens);
      live := live[tid := raised];
      if visibleTail.Some? {
        var preview := NormalizeTail(visibleTail.value);
        previews := previews[tid := Preview(preview.tail, preview.truncated || tailTruncated)];
      }
    }

    /** `update_live_stream_progress`. `tid` is the stripped trace id, empty if there is none. */
    method UpdateLiveStreamProgress(tid: string, completion: int, prompt: Option<int>,
                                    visibleTail: Option<string>, tailTruncated: bool, now: int)
      requires Valid()
      modifies this`live, this`previews, this`active, this`activeUpdated, this`lastShown, current
      ensures Valid() && Overdue(State(), now) == {} && Grown(old(live), live)
      ensures State() == Updated(old(State()), tid, completion, prompt, visibleTail, tailTruncated, now)
      ensures current != null ==>
                current.trace == if tid == "" || old(current.trace).key == tid
                                 then MergePreview(
                                        CountRaised(old(State()), tid, completion, visibleTail, tailTruncated).previews,
                                        PatchTokens(old(current.trace), Some(RaisedCount(old(live), tid, completion)),
                                                    prompt))
                                 else old(current.trace)
    {
      hide RingFits, ActiveFits, LiveFits, PatchTokens, MergePreview, Overdue, CountRaised, RaisedCount, Patched;
      hide Pruned, Updated;
      var tokens := Max(0, completion);
      ghost var start := State();
      CountRaisedBySame(start, tid, completion, visibleTail, tailTruncated);
      NothingWithoutId(start, tid, completion, prompt, visibleTail, tailTruncated, now);
      if tid != "" {
        tokens := RaiseLiveCount(tid, tokens, visibleTail, tailTruncated);
      }
      PatchCurrent(tid, tokens, prompt);
      if tid != "" { PatchActive(tid, tokens, prompt, now); }
      PruneActiveTraces(now);
      UpdatedParts(start, tid, completion, prompt, visibleTail, tailTruncated, now);
      UpdatedGrows(start, tid, completion, prompt, visibleTail, tailTruncated, now);
    }

    /** The dict that the caller holds is patched in place, if it is the trace that is updated. */
    method PatchCurrent(tid: string, tokens: int, prompt: Option<int>)
      modifies current
      ensures current != null ==>
                current.trace == if tid == "" || old(current.trace).key == tid
                                 then MergePreview(previews, PatchTokens(old(current.trace), Some(tokens), prompt))
                                 else old(current.trace)
    {
      if current != null && (tid == "" || current.trace.key == tid) {
        current.trace := MergePreview(previews, PatchTokens(current.trace, Some(tokens), prompt));
      }
    }

    /** The active trace gets the new counts and is fresh again. */
    method PatchActive(tid: string, tokens: int, prompt: Option<int>, now: int)
      requires Valid() && tid != ""
      modifies this`active, this`activeUpdated
      ensures Valid() && State() == Patched(old(State()), tid, tokens, prompt, now)
    {
      if tid in active {
        active := active[tid := MergePreview(previews, PatchTokens(active[tid], Some(tokens), prompt))];
        activeUpdated := activeUpdated[tid := now];
      }
    }

    // --- Reading ---

    /** Merge the live state into a trace that is about to be shown. Once there is a live count for
        it, the count shown is the live one, and never below what was shown before. */
    method MergeForRead(trace: Trace) returns (shown: Trace)
      requires LiveFits()
      modifies this`live, this`lastShown
      ensures LiveFits() && Grown(old(live), live) && live.Keys == old(live).Keys
      ensures shown == MergePreview(previews, MergeTokens(old(live), trace)) && shown.key == trace.key
      ensures live == MergeLive(old(live), trace)
      ensures trace.key in active && active[trace.key] == trace ==> State() == ReadKey(old(State()), trace.key)
      ensures trace.key in live ==> Shown(shown) == Some(live[trace.key])
      ensures trace.key in old(lastShown) ==> trace.key in live && old(lastShown)[trace.key] <= live[trace.key]
      ensures forall k :: k in live && k != trace.key ==> live[k] == old(live)[k]
      ensures lastShown == if trace.key in live then old(lastShown)[trace.key := live[trace.key]] else old(lastShown)
    {
      if trace.key in live { MergeAgrees(live, previews, trace); }
      var merged := MergeIntoLive(trace);
      if trace.key in live { lastShown := lastShown[trace.key := live[trace.key]]; }
      shown := MergePreview(previews, merged);
    }

    /** `get_current_trace` patches the kept dict in place. */
    method GetCurrentTrace() returns (box: TraceBox?)
      requires Valid()
      modifies this`live, this`lastShown, current
      ensures Valid() && box == current && Grown(old(live), live) && live.Keys == old(live).Keys
      ensures box != null && box.trace.key in live ==> Shown(box.trace) == Some(live[box.trace.key])
      ensures box != null && box.trace.key in old(lastShown) ==>
                box.trace.key in live && old(lastShown)[box.trace.key] <= live[box.trace.key]
    {
      if current != null {
        var shown := MergeForRead(current.trace);
        current.trace := shown;
      }
      box := current;
    }

    /** The key of `keys` that was updated first. */
    method OldestKey(keys: set<string>) returns (key: string)
      requires keys != {} && keys <= activeUpdated.Keys
      ensures key in keys && forall k :: k in keys ==> activeUpdated[key] <= activeUpdated[k]
    {
      key :| key in keys;
      var left := keys - {key};
      while left != {}
        invariant key in keys && left <= keys
        invariant forall k :: k in keys && k !in left ==> activeUpdated[key] <= activeUpdated[k]
        decreases |left|
      {
        var k :| k in left;
        left := left - {k};
        if activeUpdated[k] < activeUpdated[key] { key := k; }
      }
    }

    /** The active keys, each once, oldest-updated first. */
    ghost predicate InOrder(keys: seq<string>)
      requires ActiveFits()
      reads this`active, this`activeUpdated
    {
      && (forall k :: k in keys <==> k in active)
      && (forall i, j :: 0 <= i < j < |keys| ==> keys[i] != keys[j] && activeUpdated[keys[i]] <= activeUpdated[keys[j]])
    }

    method KeysByAge() returns (keys: seq<string>)
      requires ActiveFits()
      ensures InOrder(keys)
    {
      keys := [];
      var left := active.Keys;
      while left != {}
        invariant left <= active.Keys
        invariant forall k :: k in keys <==> k in active && k !in left
        invariant forall i, j :: 0 <= i < j < |keys| ==>
                    keys[i] != keys[j] && activeUpdated[keys[i]] <= activeUpdated[keys[j]]
        invariant forall k, l :: k in keys && l in left ==> activeUpdated[k] <= activeUpdated[l]
        decreases |left|
      {
        var key := OldestKey(left);
        assert forall i :: 0 <= i < |keys| ==> keys[i] in keys;
        keys := keys + [key];
        left := left - {key};
      }
    }

    /** `get_active_traces`: copies of the unexpired active traces, oldest-updated first, each once,
        with the live counts merged in. */
    method GetActiveTraces(now: int) returns (out: seq<Trace>, ghost keys: seq<string>)
      requires Valid()
      modifies this`active, this`activeUpdated, this`live, this`previews, this`lastShown
      ensures Valid() && Overdue(State(), now) == {} && InOrder(keys) && Grown(old(live), live)
      ensures State() == ReadKeys(Pruned(old(State()), now), keys)
      ensures |out| == |keys|
      ensures forall i :: 0 <= i < |out| ==>
                out[i] == MergePreview(previews, MergeTokens(Pruned(old(State()), now).live, active[keys[i]]))
    {
      hide MergePreview, MergeTokens, RingFits, Dropped, ReadKey, Expired, ReadKeys, Pruned, Overdue, Grown;
      ghost var start := State();
      PruneActiveTraces(now);
      var order := KeysByAge();
      keys := order;
      out := MergeAllForRead(order);
      ReadPruned(start, now, keys);
    }

    method MergeAllForRead(keys: seq<string>) returns (out: seq<Trace>)
      requires ActiveFits() && LiveFits() && InOrder(keys)
      modifies this`live, this`lastShown
      ensures LiveFits() && State() == ReadKeys(old(State()), keys)
      ensures |out| == |keys|
      ensures forall i :: 0 <= i < |out| ==> out[i] == MergePreview(previews, MergeTokens(old(live), active[keys[i]]))
    {
      hide Shown, MergeTokens, MergePreview, ReadKey, ReadKeys, LiveFits, Grown, Max;
      ReadNothing(State());
      out := [];
      ghost var start := State();
      for i := 0 to |keys|
        invariant LiveFits() && State() == ReadKeys(start, keys[..i])
        invariant |out| == i
        invariant forall j :: 0 <= j < i ==> out[j] == MergePreview(previews, MergeTokens(start.live, active[keys[j]]))
      {
        ReadOneMore(start, keys, i);
        assert keys[i] in active;
        ReadLeavesOthers(start, keys[..i], keys[i]);
        SameMerge(start.live, live, active[keys[i]]);
        var shown := MergeForRead(active[keys[i]]);
        out := out + [shown];
      }
      assert keys[..|keys|] == keys;
    }

    // --- Artifacts and the rest ---

    /** `set_response_artifacts`, for the non-blank keys of a reply. */
    method SetResponseArtifacts(keys: seq<string>, payload: string, now: int)
      requires Valid()
      modifies this`artifacts, this`artifactsUpdated, this`active, this`activeUpdated
      modifies this`live, this`previews, this`lastShown
      ensures Valid() && State() == if keys == [] then old(State()) else Pruned(old(State()), now)
      ensures keys == [] ==> artifacts == old(artifacts) && artifactsUpdated == old(artifactsUpdated)
      ensures forall k :: k in keys ==> k in artifacts && artifacts[k] == payload && artifactsUpdated[k] == now
      ensures keys != [] ==> forall k :: k !in keys ==>
                (k in artifacts <==> k in old(artifacts) && now - old(artifactsUpdated)[k] <= TTL_MS)
      ensures forall k :: k in artifacts && k !in keys ==>
                artifacts[k] == old(artifacts)[k] && artifactsUpdated[k] == old(artifactsUpdated)[k]
    {
      hide Pruned, Overdue, ActiveFits, RingFits, LiveFits;
      if keys == [] { return; }
      StoreArtifacts(keys, payload, now);
      PruneActiveTraces(now);
      PruneArtifacts(now);
    }

    method StoreArtifacts(keys: seq<string>, payload: string, now: int)
      requires artifacts.Keys == artifactsUpdated.Keys
      modifies this`artifacts, this`artifactsUpdated
      ensures artifacts.Keys == artifactsUpdated.Keys
      ensures forall k :: k in artifacts <==> k in keys || k in old(artifacts)
      ensures forall k :: k in artifacts ==> artifacts[k] == if k in keys then payload else old(artifacts)[k]
      ensures forall k :: k in artifacts ==> artifactsUpdated[k] == if k in keys then now else old(artifactsUpdated)[k]
    {
      for i := 0 to |keys|
        invariant artifacts.Keys == artifactsUpdated.Keys
        invariant forall k :: k in artifacts <==> k in keys[..i] || k in old(artifacts)
        invariant forall k :: k in artifacts ==> artifacts[k] == if k in keys[..i] then payload else old(artifacts)[k]
        invariant forall k :: k in artifacts ==>
                    artifactsUpdated[k] == if k in keys[..i] then now else old(artifactsUpdated)[k]
      {
        assert keys[..i + 1] == keys[..i] + [keys[i]];
        artifacts := artifacts[keys[i] := payload];
        artifactsUpdated := artifactsUpdated[keys[i] := now];
      }
      assert keys[..|keys|] == keys;
    }

    /** `get_response_artifacts`: a payload no older than its time to live, or nothing. `lookup` is
        the stripped key. */
    method GetResponseArtifacts(lookup: string, now: int) returns (payload: Option<string>)
      requires Valid()
      modifies this`artifacts, this`artifactsUpdated, this`active, this`activeUpdated
      modifies this`live, this`previews, this`lastShown
      ensures Valid() && State() == if lookup == "" then old(State()) else Pruned(old(State()), now)
      ensures payload == if lookup != "" && lookup in old(artifacts) && now - old(artifactsUpdated)[lookup] <= TTL_MS
                         then Some(old(artifacts)[lookup]) else None
    {
      if lookup == "" { return None; }
      PruneActiveTraces(now);
      PruneArtifacts(now);
      payload := if lookup in artifacts then Some(artifacts[lookup]) else None;
    }

    /** `clear_proxy_trace_buffer`: the active traces stay. */
    method ClearProxyTraceBuffer()
      requires Valid()
      modifies this`ring, this`live, this`previews, this`artifacts
      modifies this`artifactsUpdated, this`snapshots, this`lastShown
      ensures Valid() && snapshots == [] && ring == [] && live == map[] && previews == map[]
      ensures artifacts == map[] && artifactsUpdated == map[]
    {
      ring, live, previews, artifacts, artifactsUpdated := [], map[], map[], map[], map[];
      snapshots, lastShown := [], map[];
    }

    /** `recent_proxy_traces`: the last `limit` snapshots, at least one and at most what the ring holds. */
    method RecentProxyTraces(limit: int) returns (out: seq<Trace>)
      requires Valid()
      ensures out ==
              Bookkeeping.Last(snapshots, if limit < 1 then 1 else if limit > RING_SIZE then RING_SIZE else limit)
      ensures forall t :: t in out ==> HasNoPreview(t)
    {
      out := Bookkeeping.Last(ring, if limit < 1 then 1 else limit);
      assert forall t :: t in out ==> t in ring;
      assert forall t :: t in ring ==> t in snapshots;
    }
  }

  lemma LookAtOneMore<K>(expired: set<K>, keys: set<K>, key: K)
    requires key in keys
    ensures expired - (keys - {key}) == if key in expired then (expired - keys) + {key} else expired - keys
  {
  }

  lemma RemoveOneMore<K, V>(m: map<K, V>, gone: set<K>, key: K)
    ensures (m - gone) - {key} == m - (gone + {key})
  {
  }

  lemma DroppedOneMore(s: LiveState, gone: set<string>, key: string)
    ensures Dropped(Dropped(s, gone), {key}) == Dropped(s, gone + {key})
  {
    RemoveOneMore(s.active, gone, key);
    RemoveOneMore(s.activeUpdated, gone, key);
    RemoveOneMore(s.live, gone, key);
    RemoveOneMore(s.previews, gone, key);
    RemoveOneMore(s.lastShown, gone, key);
  }

  lemma RemoveNothing<K, V>(m: map<K, V>)
    ensures m - {} == m
  {
  }

  lemma NothingDropped(s: LiveState)
    ensures Dropped(s, {}) == s
  {
    RemoveNothing(s.active);
    RemoveNothing(s.activeUpdated);
    RemoveNothing(s.live);
    RemoveNothing(s.previews);
    RemoveNothing(s.lastShown);
  }

  /** After pruning nothing is overdue. */
  lemma NoneOverdue(s: LiveState, now: int)
    requires s.active.Keys == s.activeUpdated.Keys
    ensures Overdue(Pruned(s, now), now) == {}
  {
  }

  lemma PrunedGrows(s: LiveState, now: int)
    ensures Grown(s.live, Pruned(s, now).live)
  {
  }

  lemma UpdatedGrows(s: LiveState, tid: string, completion: int, prompt: Option<int>, tail: Option<string>,
                     truncated: bool, now: int)
    ensures Grown(s.live, Updated(s, tid, completion, prompt, tail, truncated, now).live)
  {
    PrunedGrows(Patched(CountRaised(s, tid, completion, tail, truncated), tid, RaisedCount(s.live, tid, completion),
      prompt, now), now);
  }

  /** Pruning and then reading. */
  lemma ReadPruned(s: LiveState, now: int, keys: seq<string>)
    ensures var pruned := Pruned(s, now);
            var after := ReadKeys(pruned, keys);
            && Grown(s.live, after.live) && Overdue(after, now) == Overdue(pruned, now)
            && after.active == pruned.active && after.activeUpdated == pruned.activeUpdated
            && after.previews == pruned.previews
  {
    var pruned := Pruned(s, now);
    PrunedGrows(s, now);
    ReadGrows(pruned, keys);
    ReadLeavesOthers(pruned, keys, "");
    forall k | k in ReadKeys(pruned, keys).live ensures k in pruned.live {
      ReadLeavesOthers(pruned, keys, k);
    }
  }

  /** A merge looks only at the trace's own count. */
  lemma SameMerge(live: map<string, int>, other: map<string, int>, trace: Trace)
    requires trace.key in live <==> trace.key in other
    requires trace.key in live ==> live[trace.key] == other[trace.key]
    ensures MergeTokens(live, trace) == MergeTokens(other, trace)
  {
  }

  /** What a reader of an active trace is shown is its live count from then on, and never less than
      what was shown before. */
  lemma {:induction false} ShownIsLive(s: LiveState, keys: seq<string>, i: nat, previews: map<string, Preview>)
    requires i < |keys| && (forall j :: 0 <= j < |keys| && j != i ==> keys[j] != keys[i])
    requires keys[i] in s.active && s.active[keys[i]].key == keys[i] && keys[i] in s.live && s.live[keys[i]] >= 0
    requires keys[i] in s.lastShown ==> s.lastShown[keys[i]] <= s.live[keys[i]]
    ensures var shown := MergePreview(previews, MergeTokens(s.live, s.active[keys[i]]));
            var after := ReadKeys(s, keys);
            && keys[i] in after.live && Shown(shown) == Some(after.live[keys[i]])
            && keys[i] in after.lastShown && after.lastShown[keys[i]] == after.live[keys[i]]
            && (keys[i] in s.lastShown ==> s.lastShown[keys[i]] <= after.live[keys[i]])
    decreases |keys|
  {
    var n := |keys| - 1;
    MergeAgrees(s.live, previews, s.active[keys[i]]);
    ReadLeavesOthers(s, keys[..n], keys[i]);
    if i < n { ShownIsLive(s, keys[..n], i, previews); }
  }

  /** Without a trace id only the trace of the caller is patched. */
  lemma NothingWithoutId(s: LiveState, tid: string, completion: int, prompt: Option<int>,
                                            tail: Option<string>, truncated: bool, now: int)
    ensures tid == "" ==>
              CountRaised(s, tid, completion, tail, truncated) == s &&
                RaisedCount(s.live, tid, completion) == Max(0, completion)
    ensures tid == "" ==> Patched(s, tid, Max(0, completion), prompt, now) == s
  {
  }

  lemma UpdatedParts(s: LiveState, tid: string, completion: int, prompt: Option<int>,
                                        tail: Option<string>, truncated: bool, now: int)
    ensures Updated(s, tid, completion, prompt, tail, truncated, now) ==
            Pruned(Patched(CountRaised(s, tid, completion, tail, truncated), tid, RaisedCount(s.live, tid, completion),
              prompt, now), now)
  {
  }

  /** Clamping a negative count first makes no difference. */
  lemma CountRaisedBySame(s: LiveState, tid: string, completion: int, tail: Option<string>, truncated: bool)
    ensures CountRaised(s, tid, Max(0, completion), tail, truncated) == CountRaised(s, tid, completion, tail, truncated)
    ensures RaisedCount(s.live, tid, Max(0, completion)) == RaisedCount(s.live, tid, completion)
  {
  }

  // --- What the merges keep ---

  /** After a merge the trace shows exactly the live count, under the same key, and neither writer's
      count was lost. */
  lemma MergeAgrees(live: map<string, int>, previews: map<string, Preview>, trace: Trace)
    requires trace.key in live && live[trace.key] >= 0
    ensures var shown := MergePreview(previews, MergeTokens(live, trace));
            && shown.key == trace.key
            && Shown(shown) == Some(MergeLive(live, trace)[trace.key])
            && MergeLive(live, trace)[trace.key] >= live[trace.key]
            && (Shown(trace).Some? ==> MergeLive(live, trace)[trace.key] >= Shown(trace).value)
  {
    var n := MergedCount(live, trace).value;
    var merged := PatchTokens(trace, Some(n), None);
    assert Shown(merged) == Some(n);
    assert MergeTokens(live, trace) == merged;
  }

  /** Merging twice changes nothing more. */
  lemma MergeIsIdempotent(live: map<string, int>, trace: Trace)
    requires trace.key in live && live[trace.key] >= 0
    ensures MergeLive(MergeLive(live, trace), MergeTokens(live, trace)) == MergeLive(live, trace)
    ensures MergeTokens(MergeLive(live, trace), MergeTokens(live, trace)) == MergeTokens(live, trace)
  {
    MergeAgrees(live, map[], trace);
    var n := MergedCount(live, trace).value;
    var merged := PatchTokens(trace, Some(n), None);
    assert MergedCount(MergeLive(live, trace), merged) == Some(n);
    assert PatchTokens(merged, Some(n), None) == merged;
  }
}
