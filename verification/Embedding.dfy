/** `get_embeddings_simple`: embed a list of texts through a provider that refuses batches which
    overflow its context. Refused batches are halved, refused single texts are clipped. */
module Embedding {
  import opened Wrappers
  import opened Clipping

  type Vector = seq<real>

  /** What one provider call does. */
  datatype Reply = Returned(vectors: seq<Vector>) | RaisedContextLength | RaisedOther

  /** The provider, as a function of the batch it is given. */
  type Provider = seq<string> -> Reply

  const RETRY_LIMITS: seq<nat> := [1200, 900, 600, 360]

  function Min(a: nat, b: nat): nat { if a < b then a else b }

  /** One runtime call; a reply of the wrong length is an error of its own. */
  function EmbedBatch(provider: Provider, batch: seq<string>): Reply {
    var reply := provider(batch);
    if reply.Returned? && |reply.vectors| != |batch| then RaisedOther else reply
  }

  /** A reply counts only with one vector for each text; any other number is an error, and errors stay what they
      are. */
  lemma BatchReplies(provider: Provider, batch: seq<string>)
    ensures EmbedBatch(provider, batch) == RaisedContextLength <==> provider(batch) == RaisedContextLength
    ensures forall vectors :: EmbedBatch(provider, batch) == Returned(vectors) <==>
              provider(batch) == Returned(vectors) && |vectors| == |batch|
  {
  }

  function RetryClips(provider: Provider, text: string, limits: seq<nat>): Outcome<Option<Vector>> {
    if limits == [] then Ok(None)
    else
      match EmbedBatch(provider, [Clip(text, Min(|text|, limits[0]))])
      case Returned(vectors) => Ok(Some(vectors[0]))
      case RaisedContextLength => RetryClips(provider, text, limits[1..])
      case RaisedOther => Raised
  }

  /** The retry loop over shrinking clips of one text. */
  method EmbedOneWithContextRetry(provider: Provider, text: string) returns (r: Outcome<Option<Vector>>)
    ensures r == RetryClips(provider, text, RETRY_LIMITS)
  {
    var i := 0;
    while i < |RETRY_LIMITS|
      invariant 0 <= i <= |RETRY_LIMITS|
      invariant RetryClips(provider, text, RETRY_LIMITS) == RetryClips(provider, text, RETRY_LIMITS[i..])
    {
      var clipped := ClipTextForEmbedding(text, Min(|text|, RETRY_LIMITS[i]));
      match EmbedBatch(provider, [clipped])
      case Returned(vectors) => return Ok(Some(vectors[0]));
      case RaisedOther => return Raised;
      case RaisedContextLength =>
      i := i + 1;
    }
    r := Ok(None);
  }

  function Somes(vectors: seq<Vector>): seq<Option<Vector>> {
    seq(|vectors|, i requires 0 <= i < |vectors| => Some(vectors[i]))
  }

  function Append<T>(a: Outcome<seq<T>>, b: Outcome<seq<T>>): Outcome<seq<T>> {
    if a.Ok? && b.Ok? then Ok(a.value + b.value) else Raised
  }

  /** The recursive halving of refused batches. */
  function EmbedAdaptive(provider: Provider, batch: seq<string>): Outcome<seq<Option<Vector>>>
    requires batch != []
    decreases |batch|
  {
    match EmbedBatch(provider, batch)
    case Returned(vectors) => Ok(Somes(vectors))
    case RaisedOther => Raised
    case RaisedContextLength =>
      if |batch| == 1 then
        match RetryClips(provider, batch[0], RETRY_LIMITS)
        case Ok(entry) => Ok([entry])
        case Raised => Raised
      else
        var mid := |batch| / 2;
        Append(EmbedAdaptive(provider, batch[..mid]), EmbedAdaptive(provider, batch[mid..]))
  }

  // --- The provider's promise ---

  /** What is assumed of a provider: each text has its own vector, a set of texts can break it,
      and otherwise a batch is refused exactly when it does not fit. */
  datatype Profile = Profile(vector: string -> Vector, faulty: string -> bool, fits: seq<string> -> bool)

  ghost predicate Honours(provider: Provider, profile: Profile) {
    forall batch: seq<string> :: batch != [] ==>
      EmbedBatch(provider, batch) ==
        if exists t :: t in batch && profile.faulty(t) then RaisedOther
        else if profile.fits(batch) then Returned(seq(|batch|, i requires 0 <= i < |batch| => profile.vector(batch[i])))
        else RaisedContextLength
  }

  /** A batch that contains an overflowing batch overflows too. */
  ghost predicate MonotoneOverflow(profile: Profile) {
    forall a: seq<string>, b: seq<string>, c: seq<string> :: profile.fits(a + b + c) ==> profile.fits(b)
  }

  // --- The meaning: every text on its own ---

  function FirstFittingClip(profile: Profile, text: string, limits: seq<nat>): Outcome<Option<Vector>> {
    if limits == [] then Ok(None)
    else
      var clip := Clip(text, Min(|text|, limits[0]));
      if profile.faulty(clip) then Raised
      else if profile.fits([clip]) then Ok(Some(profile.vector(clip)))
      else FirstFittingClip(profile, text, limits[1..])
  }

  /** The clip that retry `k` sends. */
  function Retry(text: string, limits: seq<nat>, k: nat): string
    requires k < |limits|
  {
    Clip(text, Min(|text|, limits[k]))
  }

  /** The retries go on while clips overflow; the first that does not decides: it breaks the provider or
      gives its vector. There is no entry only where every clip overflows. */
  lemma {:induction false} FirstClipThatFits(profile: Profile, text: string, limits: seq<nat>) returns (k: nat)
    ensures k <= |limits|
    ensures forall j :: 0 <= j < k ==>
              !profile.faulty(Retry(text, limits, j)) && !profile.fits([Retry(text, limits, j)])
    ensures k == |limits| ==> FirstFittingClip(profile, text, limits) == Ok(None)
    ensures k < |limits| ==>
              var clip := Retry(text, limits, k);
              if profile.faulty(clip) then FirstFittingClip(profile, text, limits) == Raised
              else profile.fits([clip]) && FirstFittingClip(profile, text, limits) == Ok(Some(profile.vector(clip)))
  {
    hide Clip, Retry;
    if limits == [] {
      k := 0;
    } else {
      FirstRetry(text, limits);
      var clip := Retry(text, limits, 0);
      if profile.faulty(clip) || profile.fits([clip]) {
        k := 0;
      } else {
        k := FirstClipThatFits(profile, text, limits[1..]);
        RetriesShift(text, limits, k);
        k := k + 1;
      }
    }
  }

  lemma FirstRetry(text: string, limits: seq<nat>)
    requires limits != []
    ensures Retry(text, limits, 0) == Clip(text, Min(|text|, limits[0]))
  {
  }

  lemma RetriesShift(text: string, limits: seq<nat>, k: nat)
    requires k < |limits|
    ensures forall j :: 0 < j <= k ==> Retry(text, limits, j) == Retry(text, limits[1..], j - 1)
    ensures k + 1 < |limits| ==> Retry(text, limits, k + 1) == Retry(text, limits[1..], k)
  {
  }

  /** The full embedding of a text that fits alone, else that of its first fitting clip, else None. */
  function Entry(profile: Profile, text: string): Outcome<Option<Vector>> {
    if profile.faulty(text) then Raised
    else if profile.fits([text]) then Ok(Some(profile.vector(text)))
    else FirstFittingClip(profile, text, RETRY_LIMITS)
  }

  function EntryOf(profile: Profile): string -> Outcome<Option<Vector>> {
    text => Entry(profile, text)
  }

  /** `r` is the list of what `entry` gives for each text, or raises because one of them does. */
  ghost predicate Each<T>(entry: string -> Outcome<T>, texts: seq<string>, r: Outcome<seq<T>>) {
    match r
    case Ok(entries) =>
      && |entries| == |texts|
      && forall i :: 0 <= i < |texts| ==> entry(texts[i]) == Ok(entries[i])
    case Raised =>
      exists i :: 0 <= i < |texts| && entry(texts[i]).Raised?
  }

  ghost predicate Pointwise(profile: Profile, texts: seq<string>, r: Outcome<seq<Option<Vector>>>) {
    Each(EntryOf(profile), texts, r)
  }

  /** What a provider that honours its profile answers to one text. */
  lemma RetriedAlone(provider: Provider, profile: Profile, text: string)
    requires Honours(provider, profile)
    ensures EmbedBatch(provider, [text]) ==
            if profile.faulty(text) then RaisedOther
            else if profile.fits([text]) then Returned([profile.vector(text)])
            else RaisedContextLength
  {
    assert text in [text];
    assert seq(1, i requires 0 <= i < 1 => profile.vector([text][i])) == [profile.vector(text)];
  }

  lemma {:induction false} RetryFindsFirstFittingClip(provider: Provider, profile: Profile, text: string,
                                                      limits: seq<nat>)
    requires Honours(provider, profile)
    ensures RetryClips(provider, text, limits) == FirstFittingClip(profile, text, limits)
  {
    if limits != [] {
      RetriedAlone(provider, profile, Clip(text, Min(|text|, limits[0])));
      RetryFindsFirstFittingClip(provider, profile, text, limits[1..]);
    }
  }

  lemma PartFits(profile: Profile, batch: seq<string>, i: nat)
    requires MonotoneOverflow(profile) && profile.fits(batch) && i < |batch|
    ensures profile.fits([batch[i]])
  {
    assert batch == batch[..i] + [batch[i]] + batch[i + 1..];
  }

  lemma EachAppend<T>(entry: string -> Outcome<T>, left: seq<string>, right: seq<string>, a: Outcome<seq<T>>,
                      b: Outcome<seq<T>>)
    requires Each(entry, left, a) && Each(entry, right, b)
    ensures Each(entry, left + right, Append(a, b))
  {
    if a.Raised? {
      var i :| 0 <= i < |left| && entry(left[i]).Raised?;
      assert (left + right)[i] == left[i];
    } else if b.Raised? {
      var i :| 0 <= i < |right| && entry(right[i]).Raised?;
      assert (left + right)[|left| + i] == right[i];
    }
  }

  lemma EachIsUnique<T>(entry: string -> Outcome<T>, texts: seq<string>, a: Outcome<seq<T>>, b: Outcome<seq<T>>)
    requires Each(entry, texts, a) && Each(entry, texts, b)
    ensures a == b
  {
    if a.Ok? && b.Ok? {
      forall i | 0 <= i < |texts| ensures a.value[i] == b.value[i] {
        assert Ok(a.value[i]) == entry(texts[i]) == Ok(b.value[i]);
      }
      assert a.value == b.value;
    }
  }

  lemma BatchThatFits(profile: Profile, batch: seq<string>, vectors: seq<Vector>)
    requires MonotoneOverflow(profile) && profile.fits(batch)
    requires !exists t :: t in batch && profile.faulty(t)
    requires vectors == seq(|batch|, i requires 0 <= i < |batch| => profile.vector(batch[i]))
    ensures Pointwise(profile, batch, Ok(Somes(vectors)))
  {
    forall i | 0 <= i < |batch| ensures Entry(profile, batch[i]) == Ok(Somes(vectors)[i]) {
      PartFits(profile, batch, i);
      assert batch[i] in batch;
    }
  }

  lemma SingleThatOverflows(provider: Provider, profile: Profile, text: string)
    requires Honours(provider, profile)
    requires !profile.faulty(text) && !profile.fits([text])
    ensures RetryClips(provider, text, RETRY_LIMITS) == Entry(profile, text)
  {
    RetryFindsFirstFittingClip(provider, profile, text, RETRY_LIMITS);
  }

  /** Halving never changes the meaning of a batch. */
  lemma {:induction false} AdaptiveIsPointwise(provider: Provider, profile: Profile, batch: seq<string>)
    requires Honours(provider, profile) && MonotoneOverflow(profile) && batch != []
    ensures Pointwise(profile, batch, EmbedAdaptive(provider, batch))
    decreases |batch|
  {
    if EmbedBatch(provider, batch).RaisedContextLength? && |batch| > 1 {
      var mid := |batch| / 2;
      AdaptiveIsPointwise(provider, profile, batch[..mid]);
      AdaptiveIsPointwise(provider, profile, batch[mid..]);
      HalvesAreWhole(provider, EntryOf(profile), batch);
    } else {
      UnhalvedIsPointwise(provider, profile, batch);
    }
  }

  lemma HalvesAreWhole(provider: Provider, entry: string -> Outcome<Option<Vector>>, batch: seq<string>)
    requires EmbedBatch(provider, batch).RaisedContextLength? && |batch| > 1
    requires Each(entry, batch[..|batch| / 2], EmbedAdaptive(provider, batch[..|batch| / 2]))
    requires Each(entry, batch[|batch| / 2..], EmbedAdaptive(provider, batch[|batch| / 2..]))
    ensures Each(entry, batch, EmbedAdaptive(provider, batch))
  {
    var mid := |batch| / 2;
    var a := EmbedAdaptive(provider, batch[..mid]);
    var b := EmbedAdaptive(provider, batch[mid..]);
    assert EmbedAdaptive(provider, batch) == Append(a, b);
    JoinedHalves(entry, batch, mid, a, b);
  }

  lemma JoinedHalves<T>(entry: string -> Outcome<T>, texts: seq<string>, mid: nat, a: Outcome<seq<T>>,
                        b: Outcome<seq<T>>)
    requires mid <= |texts| && Each(entry, texts[..mid], a) && Each(entry, texts[mid..], b)
    ensures Each(entry, texts, Append(a, b))
  {
    EachAppend(entry, texts[..mid], texts[mid..], a, b);
    assert texts == texts[..mid] + texts[mid..];
  }

  lemma UnhalvedIsPointwise(provider: Provider, profile: Profile, batch: seq<string>)
    requires Honours(provider, profile) && MonotoneOverflow(profile) && batch != []
    requires EmbedBatch(provider, batch).RaisedContextLength? ==> |batch| == 1
    ensures Pointwise(profile, batch, EmbedAdaptive(provider, batch))
  {
    hide RetryClips, Entry, MonotoneOverflow;
    match EmbedBatch(provider, batch)
    case Returned(vectors) =>
      BatchThatFits(profile, batch, vectors);
    case RaisedOther =>
      var i :| 0 <= i < |batch| && profile.faulty(batch[i]);
      FaultyEntry(profile, batch[i]);
    case RaisedContextLength =>
      assert batch == [batch[0]] && batch[0] in batch;
      SingleThatOverflows(provider, profile, batch[0]);
      assert EntryOf(profile)(batch[0]) == RetryClips(provider, batch[0], RETRY_LIMITS);
  }

  lemma FaultyEntry(profile: Profile, text: string)
    requires profile.faulty(text)
    ensures EntryOf(profile)(text).Raised?
  {
  }

  // --- Batches and workers ---

  function ClipAll(texts: seq<string>, maxChars: nat): (r: seq<string>)
    ensures |r| == |texts|
  {
    seq(|texts|, i requires 0 <= i < |texts| => Clip(texts[i], maxChars))
  }

  predicate NonEmpty(batches: seq<seq<string>>) {
    forall i :: 0 <= i < |batches| ==> batches[i] != []
  }

  /** Consecutive slices of at most `size` texts. */
  function Batches(texts: seq<string>, size: nat): (r: seq<seq<string>>)
    requires size > 0
    ensures NonEmpty(r)
    decreases |texts|
  {
    if texts == [] then []
    else [texts[..Min(size, |texts|)]] + Batches(texts[Min(size, |texts|)..], size)
  }

  function Concat<T>(parts: seq<Outcome<seq<T>>>): Outcome<seq<T>> {
    if parts == [] then Ok([]) else Append(parts[0], Concat(parts[1..]))
  }

  lemma {:induction false} ConcatSnoc<T>(parts: seq<Outcome<seq<T>>>, last: Outcome<seq<T>>)
    ensures Concat(parts + [last]) == Append(Concat(parts), last)
  {
    if parts != [] {
      assert (parts + [last])[1..] == parts[1..] + [last];
      ConcatSnoc(parts[1..], last);
      if parts[0].Ok? && Concat(parts[1..]).Ok? && last.Ok? {
        assert parts[0].value + (Concat(parts[1..]).value + last.value) ==
                 parts[0].value + Concat(parts[1..]).value + last.value;
      }
    } else {
      assert parts + [last] == [last];
      assert [last][1..] == [];
      assert last.Ok? ==> last.value + [] == last.value == [] + last.value;
    }
  }

  lemma {:induction false} RaisedPartRaises<T>(parts: seq<Outcome<seq<T>>>, i: nat)
    requires i < |parts| && parts[i].Raised?
    ensures Concat(parts).Raised?
  {
    if i > 0 { RaisedPartRaises(parts[1..], i - 1); }
  }

  function EmbedEach(provider: Provider, batches: seq<seq<string>>): (r: seq<Outcome<seq<Option<Vector>>>>)
    requires NonEmpty(batches)
    ensures |r| == |batches|
  {
    seq(|batches|, i requires 0 <= i < |batches| => EmbedAdaptive(provider, batches[i]))
  }

  /** One worker: the batches are embedded one after another, and the first error ends the loop. */
  method EmbedAllSequential(provider: Provider, batches: seq<seq<string>>) returns (r: Outcome<seq<Option<Vector>>>)
    requires NonEmpty(batches)
    ensures r == Concat(EmbedEach(provider, batches))
  {
    var out: seq<Option<Vector>> := [];
    ghost var each := EmbedEach(provider, batches);
    for k := 0 to |batches|
      invariant Concat(each[..k]) == Ok(out)
    {
      var vectors := EmbedAdaptive(provider, batches[k]);
      assert each[..k + 1] == each[..k] + [vectors];
      ConcatSnoc(each[..k], vectors);
      if vectors.Raised? {
        RaisedPartRaises(each, k);
        return Raised;
      }
      out := out + vectors.value;
    }
    assert each[..|batches|] == each;
    r := Ok(out);
  }

  /** Several workers: the batches finish in any order, and their results are read back in batch
      order. `finishing` is the order in which the pool happens to finish them. */
  method EmbedAllParallel(provider: Provider, batches: seq<seq<string>>, finishing: seq<nat>)
    returns (r: Outcome<seq<Option<Vector>>>)
    requires NonEmpty(batches)
    requires forall i :: 0 <= i < |batches| ==> i in finishing
    ensures r == Concat(EmbedEach(provider, batches))
  {
    var slots: map<nat, Outcome<seq<Option<Vector>>>> := map[];
    for k := 0 to |finishing|
      invariant forall i :: i in slots ==> 0 <= i < |batches| && slots[i] == EmbedAdaptive(provider, batches[i])
      invariant forall j :: 0 <= j < k && finishing[j] < |batches| ==> finishing[j] in slots
    {
      if finishing[k] < |batches| {
        slots := slots[finishing[k] := EmbedAdaptive(provider, batches[finishing[k]])];
      }
    }
    var out: seq<Option<Vector>> := [];
    ghost var each := EmbedEach(provider, batches);
    for k := 0 to |batches|
      invariant Concat(each[..k]) == Ok(out)
    {
      assert k in finishing;
      var vectors := slots[k];
      assert each[..k + 1] == each[..k] + [vectors];
      ConcatSnoc(each[..k], vectors);
      if vectors.Raised? {
        RaisedPartRaises(each, k);
        return Raised;
      }
      out := out + vectors.value;
    }
    assert each[..|batches|] == each;
    r := Ok(out);
  }

  /** The whole call, as a function of the texts, the clip length and the batch size. */
  function Embeddings(provider: Provider, texts: seq<string>, maxChars: nat,
                      batchSize: nat): Outcome<seq<Option<Vector>>>
    requires batchSize > 0
  {
    Concat(EmbedEach(provider, Batches(ClipAll(texts, maxChars), batchSize)))
  }

  /** Every text, clipped, has the entry that it would have alone; the call raises only because one of
      the clipped texts does. */
  ghost predicate EmbedsClips(profile: Profile, texts: seq<string>, maxChars: nat, r: Outcome<seq<Option<Vector>>>) {
    match r
    case Ok(entries) =>
      && |entries| == |texts|
      && forall i :: 0 <= i < |texts| ==> Entry(profile, Clip(texts[i], maxChars)) == Ok(entries[i])
    case Raised =>
      exists i :: 0 <= i < |texts| && Entry(profile, Clip(texts[i], maxChars)).Raised?
  }

  lemma ClippedEach(profile: Profile, texts: seq<string>, maxChars: nat, r: Outcome<seq<Option<Vector>>>)
    requires Pointwise(profile, ClipAll(texts, maxChars), r)
    ensures EmbedsClips(profile, texts, maxChars, r)
  {
    hide Clip, Entry;
    var clipped := ClipAll(texts, maxChars);
    forall i | 0 <= i < |texts| ensures EntryOf(profile)(clipped[i]) == Entry(profile, Clip(texts[i], maxChars)) {
    }
  }

  /** `finishing` only matters when the pool is used. */
  method GetEmbeddings(provider: Provider, texts: seq<string>, maxChars: nat, batchSizeSetting: int, workers: int,
                       finishing: seq<nat>)
    returns (r: Outcome<seq<Option<Vector>>>)
    requires forall i :: 0 <= i < |texts| ==> i in finishing
    ensures r == Embeddings(provider, texts, maxChars, if batchSizeSetting < 1 then 1 else batchSizeSetting)
    ensures forall profile :: Honours(provider, profile) && MonotoneOverflow(profile) ==>
              EmbedsClips(profile, texts, maxChars, r)
  {
    hide Honours, MonotoneOverflow, EmbedsClips, Pointwise;
    forall profile | Honours(provider, profile) && MonotoneOverflow(profile)
      ensures EmbedsClips(profile, texts, maxChars,
                          Embeddings(provider, texts, maxChars, if batchSizeSetting < 1 then 1 else batchSizeSetting))
    {
      EmbeddingsArePointwise(provider, profile, texts, maxChars,
                             if batchSizeSetting < 1 then 1 else batchSizeSetting, 1);
    }
    if texts == [] { return Ok([]); }
    var batchSize := if batchSizeSetting < 1 then 1 else batchSizeSetting;
    var workerCount := if workers < 1 then 1 else if workers > 8 then 8 else workers;
    var batches := Batches(ClipAll(texts, maxChars), batchSize);
    BatchesAreNoMoreThanTexts(ClipAll(texts, maxChars), batchSize);
    if workerCount <= 1 || |batches| <= 1 {
      r := EmbedAllSequential(provider, batches);
    } else {
      r := EmbedAllParallel(provider, batches, finishing);
    }
  }

  lemma {:induction false} BatchesAreNoMoreThanTexts(texts: seq<string>, size: nat)
    requires size > 0
    ensures |Batches(texts, size)| <= |texts|
    decreases |texts|
  {
    if texts != [] { BatchesAreNoMoreThanTexts(texts[Min(size, |texts|)..], size); }
  }

  lemma {:induction false} BatchedIsPointwise(provider: Provider, profile: Profile, texts: seq<string>, size: nat)
    requires Honours(provider, profile) && MonotoneOverflow(profile) && size > 0
    ensures Pointwise(profile, texts, Concat(EmbedEach(provider, Batches(texts, size))))
    decreases |texts|
  {
    hide Honours, MonotoneOverflow, EmbedAdaptive, EntryOf;
    if texts == [] {
      assert Batches(texts, size) == [];
    } else {
      var n := Min(size, |texts|);
      var rest := Batches(texts[n..], size);
      AdaptiveIsPointwise(provider, profile, texts[..n]);
      BatchedIsPointwise(provider, profile, texts[n..], size);
      assert EmbedEach(provider, Batches(texts, size))[1..] == EmbedEach(provider, rest);
      JoinedHalves(EntryOf(profile), texts, n, EmbedAdaptive(provider, texts[..n]), Concat(EmbedEach(provider, rest)));
    }
  }

  /** The main result: the output is that of embedding every clipped text on its own, whatever
      the batch size; so no two batch sizes differ. */
  lemma EmbeddingsArePointwise(provider: Provider, profile: Profile, texts: seq<string>, maxChars: nat, size: nat,
                               otherSize: nat)
    requires Honours(provider, profile) && MonotoneOverflow(profile) && size > 0 && otherSize > 0
    ensures EmbedsClips(profile, texts, maxChars, Embeddings(provider, texts, maxChars, size))
    ensures Embeddings(provider, texts, maxChars, size) == Embeddings(provider, texts, maxChars, otherSize)
  {
    hide Honours, MonotoneOverflow, EmbedsClips, ClipAll, EntryOf;
    var clipped := ClipAll(texts, maxChars);
    BatchedIsPointwise(provider, profile, clipped, size);
    BatchedIsPointwise(provider, profile, clipped, otherSize);
    ClippedEach(profile, texts, maxChars, Embeddings(provider, texts, maxChars, size));
    EachIsUnique(EntryOf(profile), clipped, Embeddings(provider, texts, maxChars, size),
      Embeddings(provider, texts, maxChars, otherSize));
  }

  /** A part of a list that embeds, embeds to the same part of the result: what lets a window of
      pages be embedded in one call and sliced back. */
  lemma EmbeddingsAreSliceClosed(provider: Provider, profile: Profile, before: seq<string>, part: seq<string>,
                                 after: seq<string>, maxChars: nat, size: nat)
    requires Honours(provider, profile) && MonotoneOverflow(profile) && size > 0
    requires Embeddings(provider, before + part + after, maxChars, size).Ok?
    ensures |Embeddings(provider, before + part + after, maxChars, size).value| == |before| + |part| + |after|
    ensures Embeddings(provider, part, maxChars, size) ==
            Ok(Embeddings(provider, before + part + after, maxChars, size).value[|before|..|before| + |part|])
  {
    var embed := texts => Embeddings(provider, texts, maxChars, size);
    forall texts ensures Each(EntryOf(profile), ClipAll(texts, maxChars), embed(texts)) {
      BatchedIsPointwise(provider, profile, ClipAll(texts, maxChars), size);
    }
    PointwiseIsSliceClosed(EntryOf(profile), embed, before, part, after, maxChars);
  }

  lemma PointwiseIsSliceClosed<T>(entry: string -> Outcome<T>, embed: seq<string> -> Outcome<seq<T>>,
                                                     before: seq<string>, part: seq<string>, after: seq<string>,
                                                     maxChars: nat)
    requires forall texts :: Each(entry, ClipAll(texts, maxChars), embed(texts))
    requires embed(before + part + after).Ok?
    ensures |embed(before + part + after).value| == |before| + |part| + |after|
    ensures embed(part) == Ok(embed(before + part + after).value[|before|..|before| + |part|])
  {
    var whole := before + part + after;
    ClipAllOfPart(before, part, after, maxChars);
    PartOfEach(entry, ClipAll(whole, maxChars), ClipAll(part, maxChars), embed(whole), embed(part),
               |before|, |before| + |part|);
  }

  lemma ClipAllOfPart(before: seq<string>, part: seq<string>, after: seq<string>, maxChars: nat)
    ensures ClipAll(before + part + after, maxChars)[|before|..|before| + |part|] == ClipAll(part, maxChars)
  {
  }

  lemma PartOfEach<T>(entry: string -> Outcome<T>, whole: seq<string>, mine: seq<string>, a: Outcome<seq<T>>,
                      b: Outcome<seq<T>>, lo: nat, hi: nat)
    requires Each(entry, whole, a) && Each(entry, mine, b) && a.Ok?
    requires lo <= hi <= |whole| && whole[lo..hi] == mine
    ensures |a.value| == |whole| && b == Ok(a.value[lo..hi])
  {
    EachOfPart(entry, whole, a.value, lo, hi);
    EachIsUnique(entry, mine, b, Ok(a.value[lo..hi]));
  }

  lemma EachOfPart<T>(entry: string -> Outcome<T>, texts: seq<string>, entries: seq<T>, lo: nat, hi: nat)
    requires Each(entry, texts, Ok(entries)) && lo <= hi <= |texts|
    ensures Each(entry, texts[lo..hi], Ok(entries[lo..hi]))
  {
    forall i | 0 <= i < hi - lo ensures entry(texts[lo..hi][i]) == Ok(entries[lo..hi][i]) {
      assert texts[lo..hi][i] == texts[lo + i];
    }
  }
}
