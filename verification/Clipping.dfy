/** `clip_text_for_embedding`: clip an embedding input at a readable boundary and
    drop a Markdown code fence that the clip left open. */
module Clipping {
  import opened Text

  const FENCE := "```"

  /** A position to break at, and how many characters of the separator to keep. */
  datatype Break = Break(separator: string, keep: nat)

  // The separators, the most readable first.
  const PARAGRAPH := "\n\n"
  const LINE := "\n"
  const SENTENCE := ". "
  const WORD := " "

  const BREAKS := [Break(PARAGRAPH, 0), Break(LINE, 0), Break(SENTENCE, 1), Break(WORD, 0)]

  /** The earliest offset at which breaking is accepted. */
  function MinBreak(limit: nat): nat {
    var share := limit * 55 / 100;
    if share < 160 then 160 else share
  }

  /** The text up to the best break in `clipped`: the first separator of `breaks` whose last
      occurrence is not too early. */
  function AtBreak(clipped: string, breaks: seq<Break>, minBreak: nat): (r: string)
    requires forall b :: b in breaks ==> b.keep <= |b.separator|
    requires RStrip(clipped) == clipped
    ensures |r| <= |clipped| && r == clipped[..|r|]
    ensures RStrip(r) == r
    decreases |breaks|
  {
    if breaks == [] then clipped
    else
      var idx := RFind(clipped, breaks[0].separator);
      if idx >= minBreak then RStrip(clipped[..idx + breaks[0].keep])
      else AtBreak(clipped, breaks[1..], minBreak)
  }

  /** What is left of the first `limit` characters before the fence is looked at. */
  function Draft(text: string, limit: nat): (r: string)
    requires |text| > limit
    ensures |r| <= limit && r == text[..|r|] && RStrip(r) == r
  {
    AtBreak(RStrip(text[..limit]), BREAKS, MinBreak(limit))
  }

  /** An odd number of fence markers: the last one opens a block that the clip cut off. */
  predicate OpenFence(s: string) {
    Count(s, FENCE) % 2 == 1
  }

  function WithoutOpenFence(draft: string): (r: string)
    requires RStrip(draft) == draft
    ensures |r| <= |draft| && r == draft[..|r|] && RStrip(r) == r
  {
    var idx := RFind(draft, FENCE);
    if OpenFence(draft) && idx > 0 then RStrip(draft[..idx]) else draft
  }

  /** The clipped text. */
  function Clip(text: string, limit: nat): string {
    if |text| <= limit then text
    else
      var clipped := WithoutOpenFence(Draft(text, limit));
      if clipped != [] then clipped else Strip(text[..limit])
  }

  /** The text before the last `separator`, with `keep` of its characters. */
  function Before(head: string, separator: string, keep: nat): string
    requires RFind(head, separator) >= 0 && keep <= |separator|
  {
    head[..RFind(head, separator) + keep]
  }

  /** The loop over the breakpoints; `clipped` is only rebound by the break that is taken, the first whose
      last occurrence is not too early. */
  method CutAtBreak(draft: string, breaks: seq<Break>, minBreak: nat) returns (clipped: string, ghost taken: nat)
    requires RStrip(draft) == draft && forall b :: b in breaks ==> b.keep <= |b.separator|
    ensures clipped == AtBreak(draft, breaks, minBreak)
    ensures taken <= |breaks| && forall j :: 0 <= j < taken ==> RFind(draft, breaks[j].separator) < minBreak
    ensures if taken == |breaks| then clipped == draft
            else RFind(draft, breaks[taken].separator) >= minBreak
                 && clipped == RStrip(Before(draft, breaks[taken].separator, breaks[taken].keep))
  {
    hide RStrip, RFind;
    clipped := draft;
    var i := 0;
    taken := |breaks|;
    while i < |breaks|
      invariant 0 <= i <= |breaks| && taken == |breaks|
      invariant clipped == draft
      invariant AtBreak(draft, breaks, minBreak) == AtBreak(draft, breaks[i..], minBreak)
      invariant forall j :: 0 <= j < i ==> RFind(draft, breaks[j].separator) < minBreak
    {
      var idx := RFind(clipped, breaks[i].separator);
      if idx >= minBreak {
        clipped := RStrip(clipped[..idx + breaks[i].keep]);
        taken := i;
        break;
      }
      assert breaks[i..][1..] == breaks[i + 1..];
      i := i + 1;
    }
  }

  /** The routine itself: the draft is rebound by the break, then by the fence cut. */
  method ClipTextForEmbedding(text: string, limit: nat) returns (r: string)
    ensures r == Clip(text, limit)
  {
    if |text| <= limit { return text; }
    var clipped, _ := CutAtBreak(RStrip(text[..limit]), BREAKS, MinBreak(limit));
    if Count(clipped, FENCE) % 2 != 0 {
      var fenceIdx := RFind(clipped, FENCE);
      if fenceIdx > 0 {
        clipped := RStrip(clipped[..fenceIdx]);
      }
    }
    r := if clipped != [] then clipped else Strip(text[..limit]);
  }

  // --- Greedy counting against the last occurrence ---

  /** Nothing left to count past the last occurrence. */
  lemma {:induction false} NothingToCount(s: string, p: string, i: nat)
    requires p != []
    requires forall j :: i <= j ==> !OccursAt(s, p, j)
    ensures CountFrom(s, p, i) == 0
    decreases |s| - i
  {
    if i + |p| <= |s| {
      NothingToCount(s, p, i + 1);
    }
  }

  /** From a point at most one pattern before the last occurrence, the greedy count is one. */
  lemma {:induction false} OneToCount(s: string, p: string, i: nat, last: nat)
    requires p != [] && OccursAt(s, p, last) && i <= last < i + |p|
    requires forall j :: last < j ==> !OccursAt(s, p, j)
    ensures CountFrom(s, p, i) == 1
    decreases last - i
  {
    if OccursAt(s, p, i) {
      NothingToCount(s, p, i + |p|);
    } else {
      OneToCount(s, p, i + 1, last);
    }
  }

  /** Cutting at the last occurrence removes exactly one from the greedy count, although the
      greedy scan need not choose the last occurrence itself (four backticks in a row). */
  lemma {:induction false} CutAtLastCountsOneLess(s: string, p: string, i: nat, last: nat)
    requires p != [] && OccursAt(s, p, last) && i <= last
    requires forall j :: last < j ==> !OccursAt(s, p, j)
    ensures CountFrom(s, p, i) == CountFrom(s[..last], p, i) + 1
    decreases last - i
  {
    if last < i + |p| {
      OneToCount(s, p, i, last);
    } else {
      assert s[..last][i..i + |p|] == s[i..i + |p|];
      CutAtLastCountsOneLess(s, p, if OccursAt(s, p, i) then i + |p| else i + 1, last);
    }
  }

  /** The count only sees the part of a text that holds all the occurrences. */
  lemma {:induction false} CountOfHoldingPrefix(s: string, n: nat, p: string, i: nat)
    requires p != [] && n <= |s|
    requires forall j :: OccursAt(s, p, j) ==> j + |p| <= n
    ensures CountFrom(s[..n], p, i) == CountFrom(s, p, i)
    decreases |s| - i
  {
    if i + |p| <= n {
      assert s[..n][i..i + |p|] == s[i..i + |p|];
      CountOfHoldingPrefix(s, n, p, if OccursAt(s, p, i) then i + |p| else i + 1);
    } else {
      NothingToCount(s, p, i);
    }
  }

  lemma FencesSurviveRStrip(s: string)
    ensures Count(RStrip(s), FENCE) == Count(s, FENCE)
  {
    forall j | OccursAt(s, FENCE, j) ensures j + |FENCE| <= |RStrip(s)| {
      assert s[j..j + 3][2] == FENCE[2];
    }
    CountOfHoldingPrefix(s, |RStrip(s)|, FENCE, 0);
  }

  /** Leading characters that start no occurrence do not matter to the count. */
  lemma {:induction false} CountSkipsPrefix(s: string, n: nat, p: string, i: nat)
    requires p != [] && n <= |s|
    ensures CountFrom(s[n..], p, i) == CountFrom(s, p, i + n)
    decreases |s| - i
  {
    if i + |p| <= |s| - n {
      assert s[n..][i..i + |p|] == s[i + n..i + n + |p|];
      CountSkipsPrefix(s, n, p, if OccursAt(s[n..], p, i) then i + |p| else i + 1);
    }
  }

  lemma {:induction false} CountFromFirstCandidate(s: string, p: string, i: nat, n: nat)
    requires p != [] && i <= n
    requires forall j :: i <= j < n ==> !OccursAt(s, p, j)
    ensures CountFrom(s, p, i) == CountFrom(s, p, n)
    decreases n - i
  {
    if i < n {
      if i + |p| <= |s| { CountFromFirstCandidate(s, p, i + 1, n); }
    }
  }

  lemma NoMarkerAtSpace(s: string, j: nat)
    requires j < |s| && IsSpace(s[j])
    ensures !OccursAt(s, FENCE, j)
  {
  }

  lemma FencesSurviveStrip(s: string)
    ensures Count(Strip(s), FENCE) == Count(s, FENCE)
  {
    FencesSurviveRStrip(s);
    var t := RStrip(s);
    SpacesDoNotCount(t, |t| - |LStrip(t)|);
  }

  lemma SpacesDoNotCount(t: string, n: nat)
    requires n <= |t| && forall j :: 0 <= j < n ==> IsSpace(t[j])
    ensures Count(t[n..], FENCE) == Count(t, FENCE)
  {
    forall j | 0 <= j < n ensures !OccursAt(t, FENCE, j) {
      NoMarkerAtSpace(t, j);
    }
    CountFromFirstCandidate(t, FENCE, 0, n);
    CountSkipsPrefix(t, n, FENCE, 0);
  }

  // --- What clipping guarantees ---

  /** The drafts that the fence cut does not repair. Either the text before the last marker is
      blank, so that there is nothing to cut back to (the marker is the very first thing) or the
      fallback returns the whole head; or the break itself left nothing (over 160 leading blanks),
      and the fallback again returns the whole head. The head's own fences may be unbalanced. */
  predicate Unrepairable(text: string, limit: nat)
    requires |text| > limit
  {
    var draft := Draft(text, limit);
    if draft == [] then OpenFence(text[..limit])
    else
      && OpenFence(draft)
      && var idx := RFind(draft, FENCE);
         idx == 0 || (idx > 0 && Blank(draft[..idx]) && OpenFence(text[..limit]))
  }

  /** The least break offset is 160, or 55 percent of the limit, rounded down, if that is more. */
  lemma LeastBreak(limit: nat)
    ensures var m := MinBreak(limit);
            160 <= m && 55 * limit < 100 * (m + 1) && (m == 160 || 100 * m <= 55 * limit)
  {
  }

  /** Where a text is cut: at the last end of a paragraph, else of a line, else of a sentence, else of a
      word, taking the first of these that does not come too early; a full stop stays. */
  lemma DraftEndsAtBreak(text: string, limit: nat)
    requires |text| > limit
    ensures var head, m, draft := RStrip(text[..limit]), MinBreak(limit), Draft(text, limit);
            if RFind(head, PARAGRAPH) >= m then draft == RStrip(Before(head, PARAGRAPH, 0))
            else if RFind(head, LINE) >= m then draft == RStrip(Before(head, LINE, 0))
            else if RFind(head, SENTENCE) >= m then draft == RStrip(Before(head, SENTENCE, 1))
            else if RFind(head, WORD) >= m then draft == RStrip(Before(head, WORD, 0))
            else draft == head
  {
    hide RStrip, RFind, MinBreak, AtBreak;
    FourBreaks(RStrip(text[..limit]), MinBreak(limit));
  }

  /** The four breaks, one after the other. */
  lemma FourBreaks(head: string, m: nat)
    requires RStrip(head) == head
    ensures AtBreak(head, BREAKS, m) ==
            if RFind(head, PARAGRAPH) >= m then RStrip(Before(head, PARAGRAPH, 0))
            else if RFind(head, LINE) >= m then RStrip(Before(head, LINE, 0))
            else if RFind(head, SENTENCE) >= m then RStrip(Before(head, SENTENCE, 1))
            else if RFind(head, WORD) >= m then RStrip(Before(head, WORD, 0))
            else head
  {
    hide RStrip, RFind, AtBreak;
    var p, l, b, w := Break(PARAGRAPH, 0), Break(LINE, 0), Break(SENTENCE, 1), Break(WORD, 0);
    assert BREAKS == [p] + ([l] + ([b] + ([w] + [])));
    NoneIsLeft(head, m);
    NextBreak(head, w, [], m);
    NextBreak(head, b, [w] + [], m);
    NextBreak(head, l, [b] + ([w] + []), m);
    NextBreak(head, p, [l] + ([b] + ([w] + [])), m);
  }

  lemma NoneIsLeft(head: string, m: nat)
    requires RStrip(head) == head
    ensures AtBreak(head, [], m) == head
  {
  }

  lemma NextBreak(head: string, b: Break, rest: seq<Break>, m: nat)
    requires RStrip(head) == head && forall c :: c in [b] + rest ==> c.keep <= |c.separator|
    ensures AtBreak(head, [b] + rest, m) ==
            if RFind(head, b.separator) >= m then RStrip(Before(head, b.separator, b.keep)) else AtBreak(head, rest, m)
  {
    assert ([b] + rest)[1..] == rest;
    forall c | c in rest ensures c in [b] + rest {}
  }

  /** What the clipped text is: the draft without the block that its last marker opens, if it has an odd
      number of markers and something stands before the last; and the whole head where nothing is left. */
  lemma ClipIsDraft(text: string, limit: nat)
    requires |text| > limit
    ensures var draft := Draft(text, limit);
            var idx := RFind(draft, FENCE);
            Clip(text, limit) ==
            if OpenFence(draft) && idx > 0 then
              if Blank(draft[..idx]) then Strip(text[..limit]) else RStrip(draft[..idx])
            else if draft == [] then Strip(text[..limit]) else draft
  {
    hide Draft, OpenFence, Strip;
    var draft := Draft(text, limit);
    var idx := RFind(draft, FENCE);
    if idx > 0 { BlankIff(draft[..idx]); }
  }

  lemma BlankIff(s: string)
    ensures Blank(s) <==> RStrip(s) == ""
  {
    if Blank(s) { RStripIs(s, "", s); }
  }

  lemma CutBalances(draft: string)
    requires OpenFence(draft)
    ensures RFind(draft, FENCE) >= 0
    ensures !OpenFence(RStrip(draft[..RFind(draft, FENCE)]))
  {
    if RFind(draft, FENCE) < 0 { NothingToCount(draft, FENCE, 0); }
    var idx := RFind(draft, FENCE);
    CutAtLastCountsOneLess(draft, FENCE, 0, idx);
    FencesSurviveRStrip(draft[..idx]);
  }

  /** A really clipped text has balanced fences exactly when its draft was repairable. */
  lemma ClipBalancesFences(text: string, limit: nat)
    requires |text| > limit
    ensures !OpenFence(Clip(text, limit)) <==> !Unrepairable(text, limit)
  {
    var draft := Draft(text, limit);
    FencesSurviveStrip(text[..limit]);
    if OpenFence(draft) {
      CutBalances(draft);
      var idx := RFind(draft, FENCE);
      assert RStrip(draft[..idx]) == [] <==> Blank(draft[..idx]);
    }
  }

  /** A piece of the first `limit` characters with no whitespace at its end, which clipping at
      the same limit leaves alone. */
  lemma ClipIsStablePiece(text: string, limit: nat)
    requires |text| > limit
    ensures Occurs(text[..limit], Clip(text, limit))
    ensures Clip(text, limit) != [] ==> !IsSpace(Clip(text, limit)[|Clip(text, limit)| - 1])
    ensures Clip(Clip(text, limit), limit) == Clip(text, limit)
    ensures Clip(text, limit) == [] <==> Blank(text[..limit])
  {
    hide Clip, Draft, WithoutOpenFence, Occurs, Blank, IsSpace;
    var head := text[..limit];
    var clipped := WithoutOpenFence(Draft(text, limit));
    var r := Clip(text, limit);
    ClipIsFromHead(text, limit, clipped);
    if clipped != [] {
      PrefixOccurs(head, clipped);
    } else {
      StripOccurs(head);
    }
    ShortIsKept(r, limit);
  }

  lemma ClipIsFromHead(text: string, limit: nat, clipped: string)
    requires |text| > limit && clipped == WithoutOpenFence(Draft(text, limit))
    ensures Clip(text, limit) == if clipped != [] then clipped else Strip(text[..limit])
    ensures |clipped| <= limit && clipped == text[..limit][..|clipped|] && RStrip(clipped) == clipped
    ensures |Strip(text[..limit])| <= limit
  {
  }

  lemma ShortIsKept(s: string, limit: nat)
    requires |s| <= limit
    ensures Clip(s, limit) == s
  {
  }

  /** A prefix that is its own `rstrip`. */
  lemma PrefixOccurs(head: string, clipped: string)
    requires clipped != [] && |clipped| <= |head| && clipped == head[..|clipped|] && RStrip(clipped) == clipped
    ensures Occurs(head, clipped) && !IsSpace(clipped[|clipped| - 1]) && !Blank(head)
  {
    assert OccursAt(head, clipped, 0);
    assert head[|clipped| - 1] == clipped[|clipped| - 1];
  }

  lemma StripOccurs(head: string)
    ensures Occurs(head, Strip(head)) && (Strip(head) == [] <==> Blank(head))
    ensures Strip(head) != [] ==> !IsSpace(Strip(head)[|Strip(head)| - 1])
  {
    hide IsSpace;
    var t := RStrip(head);
    var r := LStrip(t);
    var k := |t| - |r|;
    assert OccursAt(head, r, k);
    if r != [] { assert head[k] == r[0]; }
  }

  /** Not every clipped text is balanced: a marker at the very start stays. */
  lemma LeadingFenceStaysOpen(text: string)
    requires |text| > 3 && text[..3] == FENCE
    ensures OpenFence(Clip(text, 3))
  {
    var head := text[..3];
    MarkerAlone(head);
    assert AtBreak(head, BREAKS, MinBreak(3)) == head by { NoBreakSoEarly(head, BREAKS, MinBreak(3)); }
    assert Draft(text, 3) == head;
    assert RFind(head, FENCE) == 0;
  }

  lemma MarkerAlone(head: string)
    requires head == FENCE
    ensures RStrip(head) == head && OpenFence(head) && OccursAt(head, FENCE, 0)
  {
  }

  /** A break that would leave less than the least length is not taken. */
  lemma {:induction false} NoBreakSoEarly(clipped: string, breaks: seq<Break>, minBreak: nat)
    requires forall b :: b in breaks ==> b.keep <= |b.separator| && b.separator != ""
    requires RStrip(clipped) == clipped && |clipped| <= minBreak
    ensures AtBreak(clipped, breaks, minBreak) == clipped
    decreases |breaks|
  {
    if breaks != [] { NoBreakSoEarly(clipped, breaks[1..], minBreak); }
  }

  /** `n` blanks and then one marker: the last blank is the only break. */
  predicate BlankLead(head: string, n: nat) {
    && |head| == n + 3
    && (forall i :: 0 <= i < n ==> head[i] == ' ')
    && head[n] == head[n + 1] == head[n + 2] == '`'
  }

  lemma BlankLeadBreak(head: string, n: nat)
    requires n > 160 && BlankLead(head, n)
    ensures AtBreak(RStrip(head), BREAKS, 160) == []
  {
    assert RStrip(head) == head;
    OnlyBlankBreaks(head, n);
    FourBreaks(head, 160);
    assert Blank(head[..n - 1]);
    BlankIff(head[..n - 1]);
  }

  lemma OnlyBlankBreaks(head: string, n: nat)
    requires n > 0 && BlankLead(head, n)
    ensures RFind(head, PARAGRAPH) == -1 && RFind(head, LINE) == -1 && RFind(head, SENTENCE) == -1
    ensures RFind(head, WORD) == n - 1
  {
    assert forall j, k :: 0 <= j <= k <= |head| ==> (k > j ==> head[j..k][0] == head[j]);
    assert OccursAt(head, " ", n - 1);
    assert forall j :: OccursAt(head, " ", j) ==> head[j..j + 1][0] == ' ';
  }

  lemma BlankLeadOpen(head: string, n: nat)
    requires BlankLead(head, n)
    ensures OpenFence(head)
  {
    assert head[n..n + 3] == FENCE;
    forall j | OccursAt(head, FENCE, j) ensures j == n {
      assert head[j..j + 3][0] == '`';
    }
    CountFromFirstCandidate(head, FENCE, 0, n);
    NothingToCount(head, FENCE, n + 3);
  }

  /** Nor is it enough that the draft has balanced fences: 170 blanks before a marker make the
      draft empty, and the fallback returns the marker. */
  lemma BlankLeadStaysOpen(text: string)
    requires |text| > 173 && BlankLead(text[..173], 170)
    ensures Draft(text, 173) == [] && OpenFence(Clip(text, 173))
  {
    var head := text[..173];
    BlankLeadBreak(head, 170);
    BlankLeadOpen(head, 170);
    FencesSurviveStrip(head);
  }
}
