/** The Codex profile file: one section is removed and two are written into a text that the user may
    have edited. */
module CodexProfile {
  import opened Wrappers
  import opened Text
  import opened TextLines
  import opened Sections

  // --- The text operations ---

  /** The text behind the section whose header ends where `rest` begins: from the next "\n[" on,
      without its newline. */
  function Behind(rest: string): Option<string> {
    var end := Find(rest, "\n[");
    if end >= 0 then Some(rest[end + 1..]) else None
  }

  /** `_remove_section`. */
  function RemoveSection(text: string, header: string): string {
    var idx := Find(text, header);
    if idx < 0 then text else
    Rejoined(text[..idx], Behind(text[idx + |header|..]))
  }

  /** The text before a removed section put together with the text behind it. */
  function Rejoined(before: string, behind: Option<string>): string {
    if behind.Some? then before + behind.value
    else RStrip(before) + if Strip(before) != "" then "\n" else ""
  }

  /** One round of the loop of `write_codex_profile`. */
  function Upsert(text: string, header: string, block: string): string {
    var idx := Find(text, header);
    if idx >= 0 then
      var behind := Behind(text[idx + |header|..]);
      text[..idx] + (block + if behind.Some? then behind.value else "")
    else
      Spaced(text) + block
  }

  /** The text closed with a newline and followed by an empty line, unless it is empty. */
  function Spaced(text: string): string {
    if text == "" then "" else if text[|text| - 1] == '\n' then text + "\n" else text + "\n" + "\n"
  }

  /** `end` is where the section that `rest` continues stops: at the first newline that a bracket follows. */
  ghost predicate EndsAt(rest: string, end: nat) {
    OccursAt(rest, "\n[", end) && forall k: nat :: k < end ==> !OccursAt(rest, "\n[", k)
  }

  /** The place of the first header, and what stands behind it. */
  ghost predicate FirstAt(text: string, header: string, before: string, rest: string) {
    && text == before + (header + rest)
    && forall k: nat :: k < |before| ==> !OccursAt(text, header, k)
  }

  lemma FirstIsFound(text: string, header: string, before: string, rest: string)
    requires FirstAt(text, header, before, rest)
    ensures Find(text, header) == |before| && text[..|before|] == before && text[|before| + |header|..] == rest
  {
    assert text[|before|..|before| + |header|] == header;
    assert OccursAt(text, header, |before|);
  }

  /** In the middle of a text: the section goes, or becomes the block, and everything around it stays. */
  lemma CutInTheMiddle(text: string, header: string, block: string, before: string, rest: string, end: nat)
    requires FirstAt(text, header, before, rest) && EndsAt(rest, end)
    ensures RemoveSection(text, header) == before + rest[end + 1..]
    ensures Upsert(text, header, block) == before + (block + rest[end + 1..])
  {
    hide *;
    CutAtFirst(text, header, block, before, rest);
    EndIsFound(rest, end);
    MiddleRejoined(before, rest[end + 1..]);
  }

  lemma MiddleRejoined(before: string, behind: string)
    ensures Rejoined(before, Some(behind)) == before + behind
  {
  }

  lemma CutAtFirst(text: string, header: string, block: string, before: string, rest: string)
    requires FirstAt(text, header, before, rest)
    ensures RemoveSection(text, header) == Rejoined(before, Behind(rest))
    ensures Upsert(text, header, block) == before + (block + if Behind(rest).Some? then Behind(rest).value else "")
  {
    hide Find, FirstAt, Behind, Rejoined;
    FirstIsFound(text, header, before, rest);
  }

  lemma EndIsFound(rest: string, end: nat)
    requires EndsAt(rest, end)
    ensures end + 1 < |rest| && Behind(rest) == Some(rest[end + 1..])
  {
    assert Find(rest, "\n[") == end;
  }

  /** At the end of a text: the section becomes the block; or it goes, and what is left before it ends in one
      newline behind something visible. */
  lemma CutAtTheEnd(text: string, header: string, block: string, before: string, rest: string)
    requires FirstAt(text, header, before, rest) && !Occurs(rest, "\n[")
    ensures Upsert(text, header, block) == before + block
    ensures EndsInOneNewline(before, RemoveSection(text, header))
  {
    hide *;
    CutAtFirst(text, header, block, before, rest);
    NothingBehind(rest);
    EndIsTidied(before);
    assert block + "" == block;
  }

  lemma NothingBehind(rest: string)
    requires !Occurs(rest, "\n[")
    ensures Behind(rest) == None
  {
  }

  /** What is left of a text in front of a last section: nothing, if it is blank, or the text up to its last
      visible character, and one newline. */
  ghost predicate EndsInOneNewline(before: string, r: string) {
    if Blank(before) then r == ""
    else
      exists kept, lost :: before == kept + lost && Blank(lost) && kept != "" && !IsSpace(kept[|kept| - 1]) &&
        r == kept + "\n"
  }

  lemma EndIsTidied(before: string)
    ensures EndsInOneNewline(before, Rejoined(before, None))
  {
    StripIsBlank(before);
    var kept := RStrip(before);
    assert before == kept + before[|kept|..];
    assert "" + "" == "";
  }

  lemma StripIsBlank(s: string)
    ensures Strip(s) == "" <==> Blank(s)
    ensures RStrip(s) == "" <==> Blank(s)
  {
    if Blank(s) { RStripIs(s, "", s); }
  }

  /** Where the header is missing the block is appended: behind an empty line, unless the text was empty. */
  lemma AppendsTheBlock(text: string, header: string, block: string) returns (gap: string)
    requires !Occurs(text, header)
    ensures RemoveSection(text, header) == text && Upsert(text, header, block) == text + gap + block
    ensures text == "" ==> gap == ""
    ensures text != "" ==> gap == if text[|text| - 1] == '\n' then "\n" else "\n\n"
  {
    gap := if text == "" then "" else if text[|text| - 1] == '\n' then "\n" else "\n\n";
    assert text + "\n" + "\n" == text + "\n\n";
    assert text + "" == text;
  }

  // --- The same on sections ---

  function RemovePiece(pieces: seq<string>, h: string): seq<string> {
    var i := Index(pieces, h);
    if i.None? then pieces else Without(pieces, i.value)
  }

  function Without(pieces: seq<string>, i: nat): seq<string>
    requires i < |pieces|
  {
    if i < |pieces| - 1 then pieces[..i] + pieces[i + 1..] else Trimmed(pieces[..i])
  }

  function Trimmed(pieces: seq<string>): seq<string> {
    if pieces == [] || Blank(pieces[|pieces| - 1]) then []
    else pieces[..|pieces| - 1] + [RStrip(pieces[|pieces| - 1]) + "\n"]
  }

  function UpsertPiece(pieces: seq<string>, h: string, block: string): seq<string> {
    var i := Index(pieces, h);
    if i.Some? then pieces[i.value := block] else Appended(pieces, block)
  }

  function Appended(pieces: seq<string>, block: string): seq<string> {
    if pieces == [] then [block]
    else pieces[..|pieces| - 1] + [Spaced(pieces[|pieces| - 1]), block]
  }

  /** A block that can stand for the section of `h`. */
  predicate IsBlock(block: string, h: string) {
    && IsPiece(block) && block[0] == '[' && block[|block| - 1] == '\n'
    && StartsWith(block, h) && Only(block, h)
  }

  // --- Both agree ---

  lemma BehindIsCut(rest: string)
    ensures Behind(rest) == if Cut(rest) < |rest| then Some(rest[Cut(rest)..]) else None
  {
    hide OccursAt, BreakAt, Cut;
    var n := Cut(rest);
    forall k: nat ensures OccursAt(rest, "\n[", k) <==> BreakAt(rest, k) { BreakOccurs(rest, k); }
    CutIsFirstBreak(rest);
    if n < |rest| {
      FindIs(rest, "\n[", n - 1);
    }
  }

  lemma BreakOccurs(s: string, k: nat)
    ensures OccursAt(s, "\n[", k) <==> BreakAt(s, k)
  {
    if k + 2 <= |s| { assert s[k..k + 2] == [s[k], s[k + 1]]; }
  }

  /** A section ends behind the first newline that a bracket follows. */
  lemma {:induction false} CutIsFirstBreak(s: string)
    ensures forall k: nat :: k < Cut(s) - 1 ==> !BreakAt(s, k)
    ensures if Cut(s) < |s| then BreakAt(s, Cut(s) - 1) else forall k: nat :: !BreakAt(s, k)
  {
    forall k: nat | k < Cut(s) - 1 ensures !BreakAt(s, k) {
      var j := k + 1;
      assert !(s[j - 1] == '\n' && s[j] == '[');
    }
  }

  predicate BreakAt(s: string, k: nat) {
    k + 1 < |s| && s[k] == '\n' && s[k + 1] == '['
  }

  lemma CutsAfterHeader(a: string, h: string, rest: string)
    requires IsPiece(a) && StartsWith(a, h) && IsHeader(h) && (rest == "" || (a[|a| - 1] == '\n' && rest[0] == '['))
    ensures Cut(a[|h|..] + rest) == |a| - |h|
  {
    var x := a[|h|..];
    var s := x + rest;
    assert a[..|h|][|h| - 1] == a[|h| - 1];
    forall k | 0 < k < |x| ensures !(s[k - 1] == '\n' && s[k] == '[') {
      assert s[k - 1] == a[|h| + k - 1] && s[k] == a[|h| + k];
    }
    CutIs(s, |x|);
  }

  /** The text behind a section, seen from the end of its header. */
  lemma BehindSection(before: string, a: string, after: string, h: string)
    requires IsPiece(a) && StartsWith(a, h) && IsHeader(h) && (after == "" || (a[|a| - 1] == '\n' && after[0] == '['))
    ensures var text := before + (a + after);
            && |before| + |h| <= |text| && text[..|before|] == before
            && Behind(text[|before| + |h|..]) == if after != "" then Some(after) else None
  {
    var text, rest := before + (a + after), a[|h|..] + after;
    CutsAfterHeader(a, h, after);
    assert text[|before| + |h|..] == rest;
    BehindIsCut(rest);
    assert rest[|a| - |h|..] == after;
  }

  /** The text around the section of a header. */
  lemma Around(pieces: seq<string>, h: string, i: nat)
    requires WellCut(pieces) && Clean(pieces, h) && IsHeader(h) && Index(pieces, h) == Some(i)
    ensures var text, idx := Join(pieces), |Join(pieces[..i])|;
            && Find(text, h) == idx && idx + |h| <= |text| && text[..idx] == Join(pieces[..i])
            && Behind(text[idx + |h|..]) == if i < |pieces| - 1 then Some(Join(pieces[i + 1..])) else None
  {
    hide Find, Behind, Join, Clean, IsHeader;
    var before, a, after := Join(pieces[..i]), pieces[i], Join(pieces[i + 1..]);
    FindFindsSection(pieces, h);
    JoinAround(pieces, i);
    SuffixIsWellCut(pieces, i);
    BehindSection(before, a, after, h);
    assert Join(pieces) == before + (a + after);
  }

  lemma {:induction false} JoinAround(pieces: seq<string>, i: nat)
    requires i < |pieces|
    ensures Join(pieces) == Join(pieces[..i]) + (pieces[i] + Join(pieces[i + 1..]))
  {
    JoinCat(pieces[..i], pieces[i..]);
    assert pieces == pieces[..i] + pieces[i..];
    assert pieces[i..][1..] == pieces[i + 1..];
  }

  lemma SuffixIsWellCut(pieces: seq<string>, i: nat)
    requires WellCut(pieces) && i < |pieces|
    ensures var after := Join(pieces[i + 1..]);
            if i == |pieces| - 1 then after == ""
            else after != "" && after[0] == '[' && pieces[i][|pieces[i]| - 1] == '\n'
  {
  }

  lemma UpsertAt(text: string, h: string, block: string, idx: nat, after: string)
    requires Find(text, h) == idx && idx + |h| <= |text|
    requires Behind(text[idx + |h|..]) == Some(after) || (Behind(text[idx + |h|..]) == None && after == "")
    ensures Upsert(text, h, block) == text[..idx] + (block + after)
  {
  }

  lemma UpsertNew(text: string, h: string, block: string)
    requires Find(text, h) == -1
    ensures Upsert(text, h, block) == Spaced(text) + block
  {
  }

  lemma ReplacedJoin(pieces: seq<string>, i: nat, block: string)
    requires i < |pieces|
    ensures Join(pieces[i := block]) == Join(pieces[..i]) + (block + Join(pieces[i + 1..]))
  {
    var changed := pieces[i := block];
    JoinAround(changed, i);
    assert changed[..i] == pieces[..i] && changed[i + 1..] == pieces[i + 1..];
  }

  lemma UpsertAgrees(pieces: seq<string>, h: string, block: string)
    requires WellCut(pieces) && Clean(pieces, h) && IsHeader(h)
    ensures Upsert(Join(pieces), h, block) == Join(UpsertPiece(pieces, h, block))
  {
    hide Find, Upsert, Behind, Join, Spaced, Clean, WellCut, IsHeader;
    var r := Index(pieces, h);
    if r.Some? {
      var i := r.value;
      Around(pieces, h, i);
      SuffixIsWellCut(pieces, i);
      ReplacedJoin(pieces, i, block);
      UpsertAt(Join(pieces), h, block, |Join(pieces[..i])|, Join(pieces[i + 1..]));
    } else {
      FindFindsSection(pieces, h);
      UpsertNew(Join(pieces), h, block);
      AppendAgrees(pieces, block);
    }
  }

  lemma AppendAgrees(pieces: seq<string>, block: string)
    requires WellCut(pieces)
    ensures Spaced(Join(pieces)) + block == Join(Appended(pieces, block))
  {
    if pieces == [] {
      JoinOne(block);
      assert "" + block == block;
    } else {
      var n := |pieces| - 1;
      var front, last := pieces[..n], pieces[n];
      JoinLast(front, last);
      assert pieces == front + [last];
      assert Spaced(Join(front) + last) == Join(front) + Spaced(last);
      JoinTwo(Spaced(last), block);
      JoinCat(front, [Spaced(last), block]);
      assert Join(front) + Spaced(last) + block == Join(front) + (Spaced(last) + block);
    }
  }

  lemma JoinLast(front: seq<string>, last: string)
    ensures Join(front + [last]) == Join(front) + last
  {
    JoinCat(front, [last]);
    JoinOne(last);
  }

  lemma JoinTwo(a: string, b: string)
    ensures Join([a, b]) == a + b
  {
    JoinOne(b);
    assert [a, b][1..] == [b];
  }

  lemma RemoveAt(text: string, h: string, idx: nat, before: string, behind: Option<string>, result: string)
    requires Find(text, h) == idx && idx + |h| <= |text|
    requires text[..idx] == before && Behind(text[idx + |h|..]) == behind && Rejoined(before, behind) == result
    ensures RemoveSection(text, h) == result
  {
    hide Find, Behind, Rejoined;
  }

  lemma RemoveAgrees(pieces: seq<string>, h: string)
    requires WellCut(pieces) && Clean(pieces, h) && IsHeader(h)
    ensures RemoveSection(Join(pieces), h) == Join(RemovePiece(pieces, h))
  {
    var r := Index(pieces, h);
    if r.Some? {
      var i := r.value;
      var behind := if i < |pieces| - 1 then Some(Join(pieces[i + 1..])) else None;
      Around(pieces, h, i);
      RejoinedAgrees(pieces, i);
      RemoveAt(Join(pieces), h, |Join(pieces[..i])|, Join(pieces[..i]), behind, Join(Without(pieces, i)));
    } else {
      FindFindsSection(pieces, h);
    }
  }

  lemma RejoinedAgrees(pieces: seq<string>, i: nat)
    requires WellCut(pieces) && i < |pieces|
    ensures Rejoined(Join(pieces[..i]), if i < |pieces| - 1 then Some(Join(pieces[i + 1..])) else None)
            == Join(Without(pieces, i))
  {
    if i < |pieces| - 1 {
      JoinCat(pieces[..i], pieces[i + 1..]);
    } else {
      PrefixIsWellCut(pieces, i);
      TrimAgrees(pieces[..i]);
    }
  }

  lemma PrefixIsWellCut(pieces: seq<string>, i: nat)
    requires WellCut(pieces) && i <= |pieces|
    ensures WellCut(pieces[..i])
  {
  }

  lemma TrimAgrees(pieces: seq<string>)
    requires WellCut(pieces)
    ensures RStrip(Join(pieces)) + (if Strip(Join(pieces)) != "" then "\n" else "") == Join(Trimmed(pieces))
  {
    hide IsSpace, WellCut, Blank;
    if pieces == [] {
      assert Strip("") == "";
    } else {
      var n := |pieces| - 1;
      var front, last := pieces[..n], pieces[n];
      assert pieces == front + [last];
      JoinLast(front, last);
      if Blank(last) {
        OnlyFirstIsBlank(pieces);
        BlankText(last);
      } else {
        TrimText(Join(front), last);
        JoinLast(front, RStrip(last) + "\n");
      }
    }
  }

  lemma OnlyFirstIsBlank(pieces: seq<string>)
    requires WellCut(pieces) && pieces != [] && Blank(pieces[|pieces| - 1])
    ensures |pieces| == 1 && Join(pieces) == pieces[0]
  {
  }

  lemma BlankText(s: string)
    requires Blank(s)
    ensures RStrip(s) == "" && Strip(s) == ""
  {
  }

  lemma TrimText(front: string, last: string)
    requires !Blank(last)
    ensures RStrip(front + last) + (if Strip(front + last) != "" then "\n" else "") == front + (RStrip(last) + "\n")
  {
    var t := RStrip(last);
    assert t != "";
    var w := last[|t|..];
    assert front + last == front + t + w;
    RStripIs(front + last, front + t, w);
    StripOfVisible(front + last);
  }

  lemma StripOfVisible(s: string)
    requires RStrip(s) != ""
    ensures Strip(s) != ""
  {
  }

  // --- What the operations keep of the cutting ---

  lemma RemoveKeepsCut(pieces: seq<string>, h: string)
    requires WellCut(pieces)
    ensures WellCut(RemovePiece(pieces, h))
  {
    var r := Index(pieces, h);
    if r.Some? {
      if r.value < |pieces| - 1 {
        DropKeepsCut(pieces, r.value);
      } else {
        PrefixIsWellCut(pieces, r.value);
        TrimKeepsCut(pieces[..r.value]);
      }
    }
  }

  lemma DropKeepsCut(pieces: seq<string>, i: nat)
    requires WellCut(pieces) && i < |pieces| - 1
    ensures WellCut(pieces[..i] + pieces[i + 1..])
  {
  }

  lemma TrimKeepsCut(pieces: seq<string>)
    requires WellCut(pieces)
    ensures WellCut(Trimmed(pieces))
  {
    if pieces != [] && !Blank(pieces[|pieces| - 1]) {
      TrimmedPiece(pieces[|pieces| - 1]);
      LastFits(pieces, RStrip(pieces[|pieces| - 1]) + "\n");
    }
  }

  lemma LastFits(pieces: seq<string>, a: string)
    requires WellCut(pieces) && pieces != [] && IsPiece(a) && a[0] == pieces[|pieces| - 1][0]
    ensures WellCut(pieces[..|pieces| - 1] + [a])
  {
  }

  lemma OneMoreFits(pieces: seq<string>, a: string)
    requires WellCut(pieces) && IsPiece(a) && a[0] == '['
    requires pieces != [] ==> pieces[|pieces| - 1][|pieces[|pieces| - 1]| - 1] == '\n'
    ensures WellCut(pieces + [a])
  {
  }

  lemma BlockFits(pieces: seq<string>, i: nat, a: string)
    requires WellCut(pieces) && i < |pieces| && IsPiece(a) && a[0] == '[' && a[|a| - 1] == '\n'
    ensures WellCut(pieces[i := a])
  {
  }

  lemma TrimmedPiece(a: string)
    requires IsPiece(a) && !Blank(a)
    ensures IsPiece(RStrip(a) + "\n") && (RStrip(a) + "\n")[0] == a[0]
  {
  }

  lemma SpacedPiece(a: string)
    requires IsPiece(a)
    ensures IsPiece(Spaced(a)) && Spaced(a)[0] == a[0] && Spaced(a)[|Spaced(a)| - 1] == '\n'
  {
  }

  lemma UpsertKeepsCut(pieces: seq<string>, h: string, block: string)
    requires WellCut(pieces) && IsBlock(block, h)
    ensures WellCut(UpsertPiece(pieces, h, block))
  {
    var i := Index(pieces, h);
    if i.Some? {
      BlockFits(pieces, i.value, block);
    } else if pieces == [] {
      OneMoreFits([], block);
      assert [] + [block] == [block];
    } else {
      var n := |pieces| - 1;
      SpacedPiece(pieces[n]);
      LastFits(pieces, Spaced(pieces[n]));
      OneMoreFits(pieces[..n] + [Spaced(pieces[n])], block);
      assert pieces[..n] + [Spaced(pieces[n])] + [block] == Appended(pieces, block);
    }
  }

  // --- What they keep of the headers ---

  lemma SameStart(a: string, b: string, h: string, n: nat)
    requires IsHeader(h) && n <= |a| && n <= |b| && a[..n] == b[..n]
    requires forall k :: n <= k < |a| ==> IsSpace(a[k])
    requires forall k :: n <= k < |b| ==> IsSpace(b[k])
    ensures StartsWith(a, h) == StartsWith(b, h)
    ensures Only(a, h) ==> Only(b, h)
  {
    assert !IsSpace(h[|h| - 1]);
    forall k | 0 <= k < |b| && OccursAt(b, h, k) ensures k + |h| <= n && OccursAt(a, h, k) {
      assert b[k..k + |h|][|h| - 1] == b[k + |h| - 1];
      assert b[k..k + |h|] == b[..n][k..k + |h|] == a[k..k + |h|];
    }
    forall k | 0 <= k < |a| && OccursAt(a, h, k) ensures k + |h| <= n && OccursAt(b, h, k) {
      assert a[k..k + |h|][|h| - 1] == a[k + |h| - 1];
      assert a[k..k + |h|] == a[..n][k..k + |h|] == b[k..k + |h|];
    }
  }

  lemma SpacedStart(a: string, h: string)
    requires IsHeader(h) && a != ""
    ensures StartsWith(Spaced(a), h) == StartsWith(a, h) && (Only(a, h) ==> Only(Spaced(a), h))
  {
    assert Spaced(a)[..|a|] == a[..|a|];
    SameStart(a, Spaced(a), h, |a|);
  }

  lemma TrimmedStart(a: string, h: string)
    requires IsHeader(h)
    ensures StartsWith(RStrip(a) + "\n", h) == StartsWith(a, h) && (Only(a, h) ==> Only(RStrip(a) + "\n", h))
  {
    var r := RStrip(a);
    assert (r + "\n")[..|r|] == r == a[..|r|];
    SameStart(a, r + "\n", h, |r|);
  }

  /** The header occurs nowhere. */
  predicate Free(a: string, h: string) {
    forall k :: 0 <= k < |a| ==> !OccursAt(a, h, k)
  }

  lemma RemoveKeepsClean(pieces: seq<string>, h: string, g: string)
    requires WellCut(pieces) && Clean(pieces, g) && IsHeader(g)
    ensures Clean(RemovePiece(pieces, h), g)
  {
    hide Clean, WellCut, IsHeader;
    var r := Index(pieces, h);
    if r.Some? {
      if r.value < |pieces| - 1 {
        DropKeepsClean(pieces, r.value, g);
      } else {
        PrefixIsClean(pieces, r.value, g);
        TrimKeepsClean(pieces[..r.value], g);
      }
    }
  }

  lemma PrefixIsClean(pieces: seq<string>, i: nat, g: string)
    requires Clean(pieces, g) && i <= |pieces|
    ensures Clean(pieces[..i], g)
  {
  }

  lemma TrimKeepsClean(pieces: seq<string>, g: string)
    requires Clean(pieces, g) && IsHeader(g)
    ensures Clean(Trimmed(pieces), g)
  {
    if pieces != [] {
      var last := pieces[|pieces| - 1];
      TrimmedStart(last, g);
      LastKeepsClean(pieces, RStrip(last) + "\n", g);
    }
  }

  lemma DropKeepsClean(pieces: seq<string>, i: nat, g: string)
    requires Clean(pieces, g) && i < |pieces|
    ensures Clean(pieces[..i] + pieces[i + 1..], g)
  {
  }

  lemma LastKeepsClean(pieces: seq<string>, last: string, g: string)
    requires Clean(pieces, g) && pieces != [] && Only(last, g)
    requires StartsWith(last, g) ==> StartsWith(pieces[|pieces| - 1], g)
    ensures Clean(pieces[..|pieces| - 1] + [last], g)
  {
  }

  lemma UpsertKeepsClean(pieces: seq<string>, h: string, block: string, g: string)
    requires WellCut(pieces) && Clean(pieces, g) && IsHeader(g) && IsBlock(block, h) && (g == h || Free(block, g))
    ensures Clean(UpsertPiece(pieces, h, block), g)
  {
    BlockHolds(block, h, g);
    hide IsHeader, IsBlock, Free, Only, StartsWith, Clean, Spaced;
    var r := Index(pieces, h);
    if r.Some? {
      SetKeepsClean(pieces, r.value, block, g);
    } else {
      NewStart(pieces, h, block, g);
      AppendedIsClean(pieces, block, g);
    }
  }

  /** A new section's header begins no other section. */
  lemma NewStart(pieces: seq<string>, h: string, block: string, g: string)
    requires Index(pieces, h).None? && (StartsWith(block, g) ==> g == h)
    ensures StartsWith(block, g) ==> forall i :: 0 <= i < |pieces| ==> !StartsWith(pieces[i], g)
  {
  }

  lemma AppendedIsClean(pieces: seq<string>, block: string, g: string)
    requires WellCut(pieces) && Clean(pieces, g) && IsHeader(g) && Only(block, g)
    requires StartsWith(block, g) ==> forall i :: 0 <= i < |pieces| ==> !StartsWith(pieces[i], g)
    ensures Clean(Appended(pieces, block), g)
  {
    hide IsHeader, Only, StartsWith, Clean, Spaced;
    if pieces == [] {
      AppendKeepsClean(pieces, block, g);
      assert pieces + [block] == [block];
    } else {
      var n := |pieces| - 1;
      var front := pieces[..n] + [Spaced(pieces[n])];
      SpacedStart(pieces[n], g);
      LastIsOnly(pieces, g);
      LastKeepsClean(pieces, Spaced(pieces[n]), g);
      assert forall k :: 0 <= k < n ==> front[k] == pieces[k];
      AppendKeepsClean(front, block, g);
      assert front + [block] == Appended(pieces, block);
    }
  }

  /** A block holds its own header and no other. */
  lemma BlockHolds(block: string, h: string, g: string)
    requires IsHeader(g) && IsBlock(block, h) && (g == h || Free(block, g))
    ensures Only(block, g) && (StartsWith(block, g) ==> g == h)
  {
  }

  lemma LastIsOnly(pieces: seq<string>, g: string)
    requires Clean(pieces, g) && pieces != []
    ensures Only(pieces[|pieces| - 1], g)
  {
  }

  lemma SetKeepsClean(pieces: seq<string>, i: nat, block: string, g: string)
    requires Clean(pieces, g) && i < |pieces| && Only(block, g) && (StartsWith(block, g) ==> StartsWith(pieces[i], g))
    ensures Clean(pieces[i := block], g)
  {
  }

  lemma AppendKeepsClean(pieces: seq<string>, block: string, g: string)
    requires Clean(pieces, g) && Only(block, g)
    requires StartsWith(block, g) ==> forall i :: 0 <= i < |pieces| ==> !StartsWith(pieces[i], g)
    ensures Clean(pieces + [block], g)
  {
  }

  // --- Where the sections stand afterwards ---

  lemma RemoveClears(pieces: seq<string>, h: string)
    requires WellCut(pieces) && Clean(pieces, h) && IsHeader(h)
    ensures Index(RemovePiece(pieces, h), h) == None
  {
    var r := Index(pieces, h);
    if r.Some? {
      if r.value < |pieces| - 1 {
        DropClears(pieces, h, r.value);
      } else {
        TrimClears(pieces[..r.value], h);
      }
    }
  }

  lemma DropClears(pieces: seq<string>, h: string, i: nat)
    requires Clean(pieces, h) && i < |pieces| && StartsWith(pieces[i], h)
    ensures Index(pieces[..i] + pieces[i + 1..], h) == None
  {
  }

  lemma TrimClears(pieces: seq<string>, h: string)
    requires IsHeader(h) && forall k :: 0 <= k < |pieces| ==> !StartsWith(pieces[k], h)
    ensures Index(Trimmed(pieces), h) == None
  {
  }

  /** A written section stands where its header is found. */
  lemma UpsertSets(pieces: seq<string>, h: string, block: string)
    requires WellCut(pieces) && Clean(pieces, h) && IsHeader(h) && IsBlock(block, h)
    ensures var u := UpsertPiece(pieces, h, block);
            Index(u, h).Some? && u[Index(u, h).value] == block
    ensures Index(pieces, h).Some? ==> Index(UpsertPiece(pieces, h, block), h) == Index(pieces, h)
    ensures Index(pieces, h).None? ==> Index(UpsertPiece(pieces, h, block), h) == Some(|pieces|)
  {
    var u := UpsertPiece(pieces, h, block);
    UpsertKeepsClean(pieces, h, block, h);
    IndexIs(u, h, if Index(pieces, h).Some? then Index(pieces, h).value else |pieces|);
  }

  /** The sections of other headers stay where they are, and are changed only by white space at the
      end of the text. */
  lemma UpsertLeaves(pieces: seq<string>, h: string, block: string, g: string)
    requires WellCut(pieces) && Clean(pieces, g) && IsHeader(g) && IsBlock(block, h) && Free(block, g)
    requires Index(pieces, h).Some? ==> !StartsWith(pieces[Index(pieces, h).value], g)
    ensures var u := UpsertPiece(pieces, h, block);
            && Index(u, g) == Index(pieces, g)
            && (Index(u, g).Some? ==>
                  var k := Index(u, g).value;
                  u[k] == if Index(pieces, h).None? && k == |pieces| - 1 then Spaced(pieces[k]) else pieces[k])
  {
    var u := UpsertPiece(pieces, h, block);
    UpsertKeepsClean(pieces, h, block, g);
    if Index(pieces, h).None? && pieces != [] { SpacedStart(pieces[|pieces| - 1], g); }
    assert !StartsWith(block, g);
    var r := Index(pieces, g);
    if r.Some? {
      IndexIs(u, g, r.value);
    }
  }

  // --- Writing the profile ---

  /** The headers and the blocks of the profile that is written. */
  datatype Profile = Profile(windows: string, profile: string, provider: string, profileBlock: string,
                             providerBlock: string)

  predicate Sound(p: Profile) {
    && IsHeader(p.windows) && IsHeader(p.profile) && IsHeader(p.provider)
    && IsBlock(p.profileBlock, p.profile) && Free(p.profileBlock, p.windows) && Free(p.profileBlock, p.provider)
    && IsBlock(p.providerBlock, p.provider) && Free(p.providerBlock, p.windows) && Free(p.providerBlock, p.profile)
  }

  // The blocks that are written are sound.

  /** The lines, each closed with a newline. */
  function LinesOf(lines: seq<string>): string {
    if lines == [] then "" else lines[0] + "\n" + LinesOf(lines[1..])
  }

  /** `_section_block`. */
  function SectionBlock(header: string, lines: seq<string>): string {
    header + ("\n" + LinesOf(lines))
  }

  /** A header with brackets only at its ends. */
  predicate PlainHeader(h: string) {
    IsHeader(h) && (forall k :: 0 < k < |h| ==> h[k] != '[') && (forall k :: 0 <= k < |h| - 1 ==> h[k] != ']')
  }

  /** A line of a section that holds none of the headers. */
  predicate PlainLine(line: string, hs: seq<string>) {
    && '\n' !in line && (line != "" ==> line[0] != '[')
    && forall i :: 0 <= i < |hs| ==> Free(line, hs[i])
  }

  predicate PlainLines(lines: seq<string>, hs: seq<string>) {
    forall i :: 0 <= i < |lines| ==> PlainLine(lines[i], hs)
  }

  /** No header is found in the lines, and none of them begins with a bracket. */
  lemma {:induction false} LinesAreFree(lines: seq<string>, hs: seq<string>, h: string)
    requires PlainLines(lines, hs) && h in hs && IsHeader(h)
    ensures var text := LinesOf(lines);
            && Free(text, h) && (text != "" ==> text[0] != '[' && text[|text| - 1] == '\n')
            && forall k :: 0 < k < |text| ==> !(text[k - 1] == '\n' && text[k] == '[')
  {
    if lines != [] {
      var first, rest := lines[0] + "\n", LinesOf(lines[1..]);
      LinesAreFree(lines[1..], hs, h);
      assert PlainLine(lines[0], hs);
      ClosedIsFree(lines[0], h);
      FreeTogether(first, rest, h);
      NoBreakTogether(lines[0], rest);
    }
  }

  lemma ClosedIsFree(line: string, h: string)
    requires Free(line, h) && IsHeader(h)
    ensures Free(line + "\n", h)
  {
    var s := line + "\n";
    forall k | 0 <= k < |s| ensures !OccursAt(s, h, k) {
      OccursInPart(line, "\n", h, k);
      if k + |h| == |s| { assert s[k..k + |h|][|h| - 1] == '\n'; }
    }
  }

  lemma FreeTogether(a: string, rest: string, h: string)
    requires Free(a, h) && Free(rest, h) && IsHeader(h) && a != "" && a[|a| - 1] == '\n'
    ensures Free(a + rest, h)
  {
    forall k | 0 <= k < |a + rest| ensures !OccursAt(a + rest, h, k) {
      OccursInPart(a, rest, h, k);
      if k < |a| < k + |h| { NotAcross(a, rest, h, k); }
    }
  }

  lemma NoBreakTogether(line: string, rest: string)
    requires '\n' !in line && (line != "" ==> line[0] != '[')
    requires rest != "" ==> rest[0] != '[' && rest[|rest| - 1] == '\n'
    requires forall k :: 0 < k < |rest| ==> !(rest[k - 1] == '\n' && rest[k] == '[')
    ensures var text := line + "\n" + rest;
            && text[0] != '[' && text[|text| - 1] == '\n'
            && forall k :: 0 < k < |text| ==> !(text[k - 1] == '\n' && text[k] == '[')
  {
  }

  /** A block of plain lines is a section, and holds no other plain header. */
  lemma PlainBlocksAreBlocks(header: string, lines: seq<string>, hs: seq<string>, other: string)
    requires PlainHeader(header) && PlainHeader(other) && other != header
    requires PlainLines(lines, hs) && header in hs && other in hs
    ensures IsBlock(SectionBlock(header, lines), header) && Free(SectionBlock(header, lines), other)
  {
    LinesAreFree(lines, hs, header);
    LinesAreFree(lines, hs, other);
    BlockOf(header, LinesOf(lines), other);
  }

  lemma BlockOf(header: string, text: string, other: string)
    requires PlainHeader(header) && PlainHeader(other) && other != header && Free(text, header) && Free(text, other)
    requires text != "" ==> text[0] != '[' && text[|text| - 1] == '\n'
    requires forall k :: 0 < k < |text| ==> !(text[k - 1] == '\n' && text[k] == '[')
    ensures IsBlock(header + ("\n" + text), header) && Free(header + ("\n" + text), other)
  {
    hide PlainHeader, Free;
    var first := header + "\n";
    assert header + ("\n" + text) == first + text;
    HeaderLineIsFree(header, other);
    FreeTogether(first, text, other);
    HeaderLineOnce(header);
    OnlyTogether(first, text, header);
    HeaderLineIsPiece(header, text);
    assert first[0] == '[';
  }

  lemma HeaderLineIsFree(header: string, other: string)
    requires PlainHeader(header) && PlainHeader(other) && other != header
    ensures Free(header + "\n", other) && IsHeader(header) && IsHeader(other)
  {
  }

  lemma HeaderLineOnce(header: string)
    requires PlainHeader(header)
    ensures Only(header + "\n", header) && StartsWith(header + "\n", header)
  {
  }

  lemma OnlyTogether(a: string, rest: string, h: string)
    requires Only(a, h) && StartsWith(a, h) && Free(rest, h) && IsHeader(h) && a[|a| - 1] == '\n'
    ensures Only(a + rest, h) && StartsWith(a + rest, h)
  {
    OccursInPart(a, rest, h, 0);
    forall k | 0 < k < |a + rest| ensures !OccursAt(a + rest, h, k) {
      OccursInPart(a, rest, h, k);
      if k < |a| < k + |h| { NotAcross(a, rest, h, k); }
    }
  }

  lemma HeaderLineIsPiece(header: string, text: string)
    requires PlainHeader(header)
    requires text != "" ==> text[0] != '[' && text[|text| - 1] == '\n'
    requires forall k :: 0 < k < |text| ==> !(text[k - 1] == '\n' && text[k] == '[')
    ensures IsPiece(header + "\n" + text) && (header + "\n" + text)[|header + "\n" + text| - 1] == '\n'
  {
  }

  /** The profile that is written under a name. */
  function ProfileOf(name: string, profileLines: seq<string>, providerLines: seq<string>): Profile {
    Built(Headed(PROFILES, name + WINDOWS), Headed(PROFILES, name), Headed(PROVIDERS, name), profileLines,
      providerLines)
  }

  const PROFILES := "profiles."
  const PROVIDERS := "model_providers."
  const WINDOWS := ".windows"

  function Built(windows: string, profile: string, provider: string, profileLines: seq<string>,
                 providerLines: seq<string>): Profile {
    Profile(windows, profile, provider, SectionBlock(profile, profileLines), SectionBlock(provider, providerLines))
  }

  function Headed(table: string, name: string): string {
    ['['] + (table + (name + [']']))
  }

  predicate IsName(name: string) {
    '[' !in name && ']' !in name && '\n' !in name
  }

  /** The profile as the launcher builds it is sound, where no line of it holds one of its headers. */
  lemma BuiltProfilesAreSound(name: string, profileLines: seq<string>, providerLines: seq<string>)
    requires IsName(name)
    requires var p := ProfileOf(name, profileLines, providerLines);
             PlainLines(profileLines + providerLines, [p.windows, p.profile, p.provider])
    ensures Sound(ProfileOf(name, profileLines, providerLines))
  {
    hide Headed, PlainHeader, SectionBlock, Sound, PlainLines;
    var p := ProfileOf(name, profileLines, providerLines);
    TablesAreNames();
    HeadersArePlain(PROFILES, PROVIDERS, WINDOWS, name);
    var hs := [p.windows, p.profile, p.provider];
    assert hs[0] == p.windows && hs[1] == p.profile && hs[2] == p.provider;
    PartsArePlain(profileLines, providerLines, hs);
    BlocksAreSound(p, profileLines, providerLines, hs);
  }

  lemma TablesAreNames()
    ensures IsName(PROFILES) && IsName(PROVIDERS) && IsName(WINDOWS)
    ensures |PROFILES| == 9 && |PROVIDERS| == 16 && |WINDOWS| == 8
  {
  }

  /** The three headers are plain, and different by their lengths. */
  lemma HeadersArePlain(profiles: string, providers: string, windows: string, name: string)
    requires IsName(profiles) && IsName(providers) && IsName(windows) && IsName(name)
    requires |windows| > 0 && |profiles| != |providers| && |profiles| + |windows| != |providers|
    ensures PlainHeader(Headed(profiles, name + windows)) && PlainHeader(Headed(profiles, name))
    ensures PlainHeader(Headed(providers, name))
    ensures Headed(profiles, name + windows) != Headed(profiles, name)
    ensures Headed(profiles, name + windows) != Headed(providers, name)
    ensures Headed(profiles, name) != Headed(providers, name)
  {
  }

  lemma PartsArePlain(a: seq<string>, b: seq<string>, hs: seq<string>)
    requires PlainLines(a + b, hs)
    ensures PlainLines(a, hs) && PlainLines(b, hs)
  {
    forall i | 0 <= i < |a| ensures PlainLine(a[i], hs) { assert (a + b)[i] == a[i]; }
    forall i | 0 <= i < |b| ensures PlainLine(b[i], hs) { assert (a + b)[|a| + i] == b[i]; }
  }

  lemma BlocksAreSound(p: Profile, profileLines: seq<string>, providerLines: seq<string>, hs: seq<string>)
    requires PlainHeader(p.windows) && PlainHeader(p.profile) && PlainHeader(p.provider)
    requires p.windows != p.profile && p.windows != p.provider && p.profile != p.provider
    requires p.windows in hs && p.profile in hs && p.provider in hs
    requires PlainLines(profileLines, hs) && PlainLines(providerLines, hs)
    requires p.profileBlock == SectionBlock(p.profile, profileLines)
    requires p.providerBlock == SectionBlock(p.provider, providerLines)
    ensures Sound(p)
  {
    hide SectionBlock, PlainLines, IsBlock, Free;
    PlainBlocksAreBlocks(p.profile, profileLines, hs, p.windows);
    PlainBlocksAreBlocks(p.profile, profileLines, hs, p.provider);
    PlainBlocksAreBlocks(p.provider, providerLines, hs, p.windows);
    PlainBlocksAreBlocks(p.provider, providerLines, hs, p.profile);
  }

  datatype Section = Section(header: string, block: string)

  function SectionsOf(p: Profile): seq<Section> {
    [Section(p.profile, p.profileBlock), Section(p.provider, p.providerBlock)]
  }

  function UpsertAll(text: string, sections: seq<Section>): string
    decreases |sections|
  {
    if sections == [] then text
    else UpsertAll(Upsert(text, sections[0].header, sections[0].block), sections[1..])
  }

  /** The text that is written over `text`. */
  function Written(p: Profile, text: string): string {
    UpsertAll(RemoveSection(text, p.windows), SectionsOf(p))
  }

  lemma FoundInside(text: string, header: string)
    requires Find(text, header) >= 0
    ensures Find(text, header) + |header| <= |text|
  {
  }

  /** One round of its loop. */
  method WriteSection(text: string, header: string, block: string) returns (r: string)
    ensures r == Upsert(text, header, block)
  {
    hide Find, Behind, OccursAt;
    var idx := Find(text, header);
    if idx >= 0 {
      FoundInside(text, header);
      var behind := Behind(text[idx + |header|..]);
      r := text[..idx] + (block + if behind.Some? then behind.value else "");
    } else {
      r := text;
      if r != "" && r[|r| - 1] != '\n' { r := r + "\n"; }
      if r != "" { r := r + "\n"; }
      assert r == Spaced(text);
      r := r + block;
    }
  }

  /** `write_codex_profile`, from the text read to the text written. */
  method WriteCodexProfile(p: Profile, previous: string) returns (text: string)
    ensures text == Written(p, previous)
  {
    text := RemoveSection(previous, p.windows);
    var sections := SectionsOf(p);
    ghost var whole := UpsertAll(text, sections);
    for i := 0 to |sections|
      invariant UpsertAll(text, sections[i..]) == whole
    {
      assert sections[i..][1..] == sections[i + 1..];
      text := WriteSection(text, sections[i].header, sections[i].block);
    }
  }

  /** The same on sections. */
  function WrittenPieces(p: Profile, pieces: seq<string>): seq<string> {
    UpsertPiece(UpsertPiece(RemovePiece(pieces, p.windows), p.profile, p.profileBlock), p.provider, p.providerBlock)
  }

  /** The sections of a text in which every managed header is clean. */
  predicate Fit(p: Profile, pieces: seq<string>) {
    WellCut(pieces) && Clean(pieces, p.windows) && Clean(pieces, p.profile) && Clean(pieces, p.provider)
  }

  lemma RemoveKeepsFit(p: Profile, pieces: seq<string>)
    requires Sound(p) && Fit(p, pieces)
    ensures Fit(p, RemovePiece(pieces, p.windows))
  {
    RemoveKeepsCut(pieces, p.windows);
    RemoveKeepsClean(pieces, p.windows, p.windows);
    RemoveKeepsClean(pieces, p.windows, p.profile);
    RemoveKeepsClean(pieces, p.windows, p.provider);
  }

  lemma ProfileKeepsFit(p: Profile, pieces: seq<string>)
    requires Sound(p) && Fit(p, pieces)
    ensures Fit(p, UpsertPiece(pieces, p.profile, p.profileBlock))
  {
    UpsertKeepsCut(pieces, p.profile, p.profileBlock);
    UpsertKeepsClean(pieces, p.profile, p.profileBlock, p.windows);
    UpsertKeepsClean(pieces, p.profile, p.profileBlock, p.profile);
    UpsertKeepsClean(pieces, p.profile, p.profileBlock, p.provider);
  }

  lemma ProviderKeepsFit(p: Profile, pieces: seq<string>)
    requires Sound(p) && Fit(p, pieces)
    ensures Fit(p, UpsertPiece(pieces, p.provider, p.providerBlock))
  {
    UpsertKeepsCut(pieces, p.provider, p.providerBlock);
    UpsertKeepsClean(pieces, p.provider, p.providerBlock, p.windows);
    UpsertKeepsClean(pieces, p.provider, p.providerBlock, p.profile);
    UpsertKeepsClean(pieces, p.provider, p.providerBlock, p.provider);
  }

  lemma WriteKeepsFit(p: Profile, pieces: seq<string>)
    requires Sound(p) && Fit(p, pieces)
    ensures Fit(p, WrittenPieces(p, pieces))
  {
    RemoveKeepsFit(p, pieces);
    var r := RemovePiece(pieces, p.windows);
    ProfileKeepsFit(p, r);
    ProviderKeepsFit(p, UpsertPiece(r, p.profile, p.profileBlock));
  }

  lemma UpsertBoth(p: Profile, text: string)
    ensures UpsertAll(text, SectionsOf(p)) ==
              Upsert(Upsert(text, p.profile, p.profileBlock), p.provider, p.providerBlock)
  {
    var sections := SectionsOf(p);
    var last := sections[1..];
    assert last[1..] == [];
    assert UpsertAll(text, sections) == UpsertAll(Upsert(text, p.profile, p.profileBlock), last);
  }

  /** Writing a text is writing its sections. */
  lemma WriteAgrees(p: Profile, pieces: seq<string>)
    requires Sound(p) && Fit(p, pieces)
    ensures Written(p, Join(pieces)) == Join(WrittenPieces(p, pieces))
  {
    var r := RemovePiece(pieces, p.windows);
    var v := UpsertPiece(r, p.profile, p.profileBlock);
    RemoveAgrees(pieces, p.windows);
    RemoveKeepsFit(p, pieces);
    UpsertAgrees(r, p.profile, p.profileBlock);
    ProfileKeepsFit(p, r);
    UpsertAgrees(v, p.provider, p.providerBlock);
    UpsertBoth(p, Join(r));
  }

  // --- The second and the third write ---

  /** The provider's section was missing and the profile's comes to stand last: the empty line put
      between them is taken for the end of the profile's section. */
  predicate Fresh(p: Profile, pieces: seq<string>) {
    var r := RemovePiece(pieces, p.windows);
    Index(r, p.provider).None? && (Index(r, p.profile).Some? ==> Index(r, p.profile).value == |r| - 1)
  }

  /** What a write leaves: no section for Windows, the provider's section as written, and the
      profile's section as written or, if fresh, followed by an empty line. */
  predicate Settled(p: Profile, pieces: seq<string>, i: nat, j: nat, spaced: bool) {
    && i < |pieces| && j < |pieces| && i != j
    && Index(pieces, p.windows) == None
    && Index(pieces, p.profile) == Some(i) && pieces[i] == (if spaced then p.profileBlock + "\n" else p.profileBlock)
    && Index(pieces, p.provider) == Some(j) && pieces[j] == p.providerBlock
    && (spaced ==> j == |pieces| - 1 && i == j - 1)
  }

  lemma BlocksDiffer(p: Profile)
    requires Sound(p)
    ensures !StartsWith(p.profileBlock, p.provider) && !StartsWith(p.providerBlock, p.profile)
    ensures !StartsWith(p.profileBlock, p.windows) && !StartsWith(p.providerBlock, p.windows)
  {
  }

  lemma ShorterStarts(a: string, h: string, g: string, b: string)
    requires StartsWith(a, h) && StartsWith(a, g) && |g| <= |h| && StartsWith(b, h)
    ensures StartsWith(b, g)
  {
  }

  /** No section begins with both written headers. */
  lemma HeadersDiffer(p: Profile, a: string)
    requires Sound(p) && StartsWith(a, p.profile)
    ensures !StartsWith(a, p.provider)
  {
    BlocksDiffer(p);
    if StartsWith(a, p.provider) {
      if |p.provider| <= |p.profile| {
        ShorterStarts(a, p.profile, p.provider, p.profileBlock);
      } else {
        ShorterStarts(a, p.provider, p.profile, p.providerBlock);
      }
    }
  }

  lemma NotWindows(pieces: seq<string>, windows: string, h: string)
    requires Index(pieces, windows) == None
    ensures Index(pieces, h).Some? ==> !StartsWith(pieces[Index(pieces, h).value], windows)
  {
  }

  /** After the profile's section is written. */
  lemma ProfileSettles(p: Profile, r: seq<string>)
    requires Sound(p) && Fit(p, r) && Index(r, p.windows) == None
    ensures var v := UpsertPiece(r, p.profile, p.profileBlock);
            && Index(v, p.profile).Some? && v[Index(v, p.profile).value] == p.profileBlock
            && Index(v, p.windows) == None
            && Index(v, p.provider) == Index(r, p.provider)
            && (Index(v, p.profile).value == |v| - 1 <==>
                 (Index(r, p.profile).Some? ==> Index(r, p.profile).value == |r| - 1))
  {
    BlocksDiffer(p);
    UpsertSets(r, p.profile, p.profileBlock);
    NotWindows(r, p.windows, p.profile);
    UpsertLeaves(r, p.profile, p.profileBlock, p.windows);
    if Index(r, p.profile).Some? { HeadersDiffer(p, r[Index(r, p.profile).value]); }
    UpsertLeaves(r, p.profile, p.profileBlock, p.provider);
  }

  lemma ProfileIsSpaced(p: Profile)
    requires Sound(p)
    ensures Spaced(p.profileBlock) == p.profileBlock + "\n"
  {
  }

  /** After the provider's section is written. */
  lemma ProviderSettles(p: Profile, v: seq<string>) returns (i: nat, j: nat)
    requires Sound(p) && Fit(p, v) && Index(v, p.windows) == None
    requires Index(v, p.profile).Some? && v[Index(v, p.profile).value] == p.profileBlock
    ensures Settled(p, UpsertPiece(v, p.provider, p.providerBlock), i, j,
                    Index(v, p.provider).None? && Index(v, p.profile).value == |v| - 1)
  {
    hide Free, IsBlock, StartsWith, WellCut, Clean, IsHeader;
    i, j := Index(v, p.profile).value, if Index(v, p.provider).Some? then Index(v, p.provider).value else |v|;
    BlocksDiffer(p);
    ProfileIsSpaced(p);
    HeadersDiffer(p, v[i]);
    if Index(v, p.provider).Some? && StartsWith(v[j], p.profile) { HeadersDiffer(p, v[j]); }
    UpsertSets(v, p.provider, p.providerBlock);
    NotWindows(v, p.windows, p.provider);
    UpsertLeaves(v, p.provider, p.providerBlock, p.windows);
    UpsertLeaves(v, p.provider, p.providerBlock, p.profile);
  }

  lemma WriteSettles(p: Profile, pieces: seq<string>) returns (i: nat, j: nat)
    requires Sound(p) && Fit(p, pieces)
    ensures Settled(p, WrittenPieces(p, pieces), i, j, Fresh(p, pieces))
  {
    var r := RemovePiece(pieces, p.windows);
    RemoveKeepsFit(p, pieces);
    RemoveClears(pieces, p.windows);
    ProfileKeepsFit(p, r);
    ProfileSettles(p, r);
    i, j := ProviderSettles(p, UpsertPiece(r, p.profile, p.profileBlock));
  }

  /** Writing over what a write left only takes the empty line away. */
  lemma RewriteSettled(p: Profile, u: seq<string>, i: nat, j: nat, spaced: bool)
    requires Sound(p) && Fit(p, u) && Settled(p, u, i, j, spaced)
    ensures WrittenPieces(p, u) == u[i := p.profileBlock]
    ensures Settled(p, u[i := p.profileBlock], i, j, false)
  {
    hide Free, IsBlock, StartsWith, WellCut, Clean, IsHeader, UpsertPiece;
    var v := u[i := p.profileBlock];
    UpsertFound(u, p.profile, p.profileBlock, i);
    ProfileSettles(p, u);
    UpsertSets(u, p.profile, p.profileBlock);
    UpsertFound(v, p.provider, p.providerBlock, j);
    assert v[j := p.providerBlock] == v;
  }

  lemma UpsertFound(pieces: seq<string>, h: string, block: string, i: nat)
    requires Index(pieces, h) == Some(i)
    ensures UpsertPiece(pieces, h, block) == pieces[i := block]
  {
  }

  /** The second write differs from the first just when the first was fresh, and then only in the
      empty line; the third does not differ from the second. */
  lemma PiecesStabilise(p: Profile, pieces: seq<string>) returns (i: nat)
    requires Sound(p) && Fit(p, pieces)
    ensures var u := WrittenPieces(p, pieces);
            && i < |u|
            && u[i] == (if Fresh(p, pieces) then p.profileBlock + "\n" else p.profileBlock)
            && WrittenPieces(p, u) == u[i := p.profileBlock]
            && WrittenPieces(p, WrittenPieces(p, u)) == WrittenPieces(p, u)
            && (Fresh(p, pieces) ==> i == |u| - 2 && u[|u| - 1] == p.providerBlock)
  {
    var u := WrittenPieces(p, pieces);
    var j: nat;
    i, j := WriteSettles(p, pieces);
    WriteKeepsFit(p, pieces);
    SettledStabilises(p, u, i, j, Fresh(p, pieces));
  }

  lemma SettledStabilises(p: Profile, u: seq<string>, i: nat, j: nat, spaced: bool)
    requires Sound(p) && Fit(p, u) && Settled(p, u, i, j, spaced)
    ensures WrittenPieces(p, u) == u[i := p.profileBlock]
    ensures WrittenPieces(p, WrittenPieces(p, u)) == WrittenPieces(p, u)
  {
    hide Sound, Fit, WrittenPieces, Index;
    var w := u[i := p.profileBlock];
    RewriteSettled(p, u, i, j, spaced);
    WriteKeepsFit(p, u);
    RewriteSettled(p, w, i, j, false);
    assert w[i := p.profileBlock] == w;
  }

  ghost predicate FitText(p: Profile, text: string) {
    Managed(text, p.windows) && Managed(text, p.profile) && Managed(text, p.provider)
  }

  lemma FitTextIsFit(p: Profile, text: string)
    requires Sound(p) && FitText(p, text)
    ensures Fit(p, Cuts(text)) && Join(Cuts(text)) == text
  {
    CutsAreWellCut(text);
    JoinOfCuts(text);
    ManagedIsClean(text, p.windows);
    ManagedIsClean(text, p.profile);
    ManagedIsClean(text, p.provider);
  }

  lemma ThreeWrites(p: Profile, pieces: seq<string>)
    requires Sound(p) && Fit(p, pieces)
    ensures Written(p, Join(pieces)) == Join(WrittenPieces(p, pieces))
    ensures Written(p, Written(p, Join(pieces))) == Join(WrittenPieces(p, WrittenPieces(p, pieces)))
    ensures Written(p, Written(p, Written(p, Join(pieces)))) ==
              Join(WrittenPieces(p, WrittenPieces(p, WrittenPieces(p, pieces))))
  {
    var u := WrittenPieces(p, pieces);
    var w := WrittenPieces(p, u);
    WriteAgrees(p, pieces);
    WriteKeepsFit(p, pieces);
    WriteAgrees(p, u);
    WriteKeepsFit(p, u);
    WriteAgrees(p, w);
  }

  /** On a text where each managed header occurs at most once and begins a line, the third write is
      the second byte for byte. */
  lemma ThirdWriteIsSecond(p: Profile, text: string)
    requires Sound(p) && FitText(p, text)
    ensures Written(p, Written(p, Written(p, text))) == Written(p, Written(p, text))
  {
    hide Sound, FitText, Fit, Written, WrittenPieces, Cuts, Fresh, Join;
    FitTextIsFit(p, text);
    ThreeWrites(p, Cuts(text));
    var i := PiecesStabilise(p, Cuts(text));
  }

  /** The second write is the first, except after a fresh one, where just the empty line between the
      two written sections goes. */
  lemma SecondWriteDropsOneLine(p: Profile, text: string) returns (before: string)
    requires Sound(p) && FitText(p, text)
    ensures Written(p, Written(p, text)) == Written(p, text) <==> !Fresh(p, Cuts(text))
    ensures Fresh(p, Cuts(text)) ==>
              && Written(p, text) == before + (p.profileBlock + "\n" + p.providerBlock)
              && Written(p, Written(p, text)) == before + (p.profileBlock + p.providerBlock)
  {
    hide Sound, FitText, Fit, Written, WrittenPieces, Cuts, Fresh, Join;
    FitTextIsFit(p, text);
    ThreeWrites(p, Cuts(text));
    var u := WrittenPieces(p, Cuts(text));
    var i := PiecesStabilise(p, Cuts(text));
    before := Join(u[..i]);
    if Fresh(p, Cuts(text)) {
      DropsOneLine(u, i, p.profileBlock, p.providerBlock);
    } else {
      assert u[i := u[i]] == u;
    }
  }

  lemma DropsOneLine(u: seq<string>, i: nat, a: string, b: string)
    requires i == |u| - 2 && u[i] == a + "\n" && u[i + 1] == b
    ensures Join(u) == Join(u[..i]) + (a + "\n" + b) && Join(u[i := a]) == Join(u[..i]) + (a + b)
    ensures Join(u) != Join(u[i := a])
  {
    assert u[i + 1..] == [b];
    JoinOne(b);
    JoinAround(u, i);
    ReplacedJoin(u, i, a);
    assert |a + "\n" + b| != |a + b|;
  }

  // --- The other sections ---

  predicate IsManaged(p: Profile, a: string) {
    StartsWith(a, p.windows) || StartsWith(a, p.profile) || StartsWith(a, p.provider)
  }

  /** The sections that are not managed, as they stand. */
  function Bodies(p: Profile, pieces: seq<string>): seq<string> {
    if pieces == [] then [] else Body(p, pieces[0]) + Bodies(p, pieces[1..])
  }

  function Body(p: Profile, a: string): seq<string> {
    if IsManaged(p, a) then [] else [a]
  }

  /** The same sections byte for byte, but for white space at the end of the last one; and a text that
      is all white space may go. */
  predicate Kept(a: seq<string>, b: seq<string>) {
    || b == a
    || (|a| > 0 && |b| == |a| && b[..|a| - 1] == a[..|a| - 1] && RStrip(b[|a| - 1]) == RStrip(a[|a| - 1]))
    || (|a| == 1 && Blank(a[0]) && b == [])
  }

  lemma KeptTwice(a: seq<string>, b: seq<string>, c: seq<string>)
    requires Kept(a, b) && Kept(b, c)
    ensures Kept(a, c)
  {
  }

  lemma {:induction false} BodiesCat(p: Profile, a: seq<string>, b: seq<string>)
    ensures Bodies(p, a + b) == Bodies(p, a) + Bodies(p, b)
  {
    if a == [] {
      assert a + b == b;
    } else {
      var tail := a[1..];
      BodiesCat(p, tail, b);
      assert (a + b)[0] == a[0] && (a + b)[1..] == tail + b;
      Regroup(Body(p, a[0]), Bodies(p, tail), Bodies(p, b));
    }
  }

  lemma BodiesAround(p: Profile, pieces: seq<string>, i: nat)
    requires i < |pieces|
    ensures Bodies(p, pieces) == Bodies(p, pieces[..i]) + (Body(p, pieces[i]) + Bodies(p, pieces[i + 1..]))
  {
    assert pieces == pieces[..i] + pieces[i..];
    BodiesCat(p, pieces[..i], pieces[i..]);
    assert pieces[i..][1..] == pieces[i + 1..];
  }

  lemma BodiesReplaced(p: Profile, pieces: seq<string>, i: nat, a: string)
    requires i < |pieces| && Body(p, a) == Body(p, pieces[i])
    ensures Bodies(p, pieces[i := a]) == Bodies(p, pieces)
  {
    var c := pieces[i := a];
    BodiesAround(p, pieces, i);
    BodiesAround(p, c, i);
    assert c[..i] == pieces[..i] && c[i + 1..] == pieces[i + 1..];
  }

  lemma BodiesDropped(p: Profile, pieces: seq<string>, i: nat)
    requires i < |pieces| && Body(p, pieces[i]) == []
    ensures Bodies(p, pieces[..i] + pieces[i + 1..]) == Bodies(p, pieces)
  {
    BodiesAround(p, pieces, i);
    BodiesCat(p, pieces[..i], pieces[i + 1..]);
  }

  lemma {:induction false} RStripOfSpaced(a: string)
    requires a != ""
    ensures RStrip(Spaced(a)) == RStrip(a)
  {
    var end := Spaced(a)[|a|..];
    assert Spaced(a) == a + end;
    RStripWith(a, end);
  }

  lemma SpacedIsManaged(p: Profile, a: string)
    requires Sound(p) && a != ""
    ensures IsManaged(p, Spaced(a)) == IsManaged(p, a)
  {
    SpacedStart(a, p.windows);
    SpacedStart(a, p.profile);
    SpacedStart(a, p.provider);
  }

  lemma TrimmedIsManaged(p: Profile, a: string)
    requires Sound(p)
    ensures IsManaged(p, RStrip(a) + "\n") == IsManaged(p, a) && RStrip(RStrip(a) + "\n") == RStrip(a)
  {
    var r := RStrip(a);
    TrimmedStart(a, p.windows);
    TrimmedStart(a, p.profile);
    TrimmedStart(a, p.provider);
    RStripIs(r + "\n", r, "\n");
  }

  /** Changing white space at the end of the last section. */
  lemma LastKept(p: Profile, pieces: seq<string>, a: string)
    requires pieces != [] && IsManaged(p, a) == IsManaged(p, pieces[|pieces| - 1])
    requires RStrip(a) == RStrip(pieces[|pieces| - 1])
    ensures Kept(Bodies(p, pieces), Bodies(p, pieces[|pieces| - 1 := a]))
  {
    var n := |pieces| - 1;
    var front, last := Bodies(p, pieces[..n]), pieces[n];
    LastReplaced(pieces, a);
    BodiesOfOne(p, a);
    BodiesOfOne(p, last);
    BodiesCat(p, pieces[..n], [a]);
    BodiesCat(p, pieces[..n], [last]);
    assert pieces == pieces[..n] + [last];
    if !IsManaged(p, a) { LastChanged(front, last, a); }
  }

  lemma LastChanged(front: seq<string>, x: string, y: string)
    requires RStrip(x) == RStrip(y)
    ensures Kept(front + [x], front + [y])
  {
  }

  lemma BodiesOfTrimmed(p: Profile, pieces: seq<string>)
    requires Sound(p) && WellCut(pieces)
    ensures Kept(Bodies(p, pieces), Bodies(p, Trimmed(pieces)))
  {
    if pieces != [] {
      var n := |pieces| - 1;
      var last := pieces[n];
      if Blank(last) {
        OnlyFirstIsBlank(pieces);
        assert pieces == [last];
        BodiesOfOne(p, last);
      } else {
        TrimmedIsManaged(p, last);
        LastKept(p, pieces, RStrip(last) + "\n");
        LastReplaced(pieces, RStrip(last) + "\n");
      }
    }
  }

  lemma LastReplaced(pieces: seq<string>, a: string)
    requires pieces != []
    ensures pieces[|pieces| - 1 := a] == pieces[..|pieces| - 1] + [a]
  {
  }

  lemma RemoveKeepsBodies(p: Profile, pieces: seq<string>)
    requires Sound(p) && WellCut(pieces)
    ensures Kept(Bodies(p, pieces), Bodies(p, RemovePiece(pieces, p.windows)))
  {
    var r := Index(pieces, p.windows);
    if r.Some? { WithoutKeepsBodies(p, pieces, r.value); }
  }

  lemma WithoutKeepsBodies(p: Profile, pieces: seq<string>, i: nat)
    requires Sound(p) && WellCut(pieces) && i < |pieces| && Body(p, pieces[i]) == []
    ensures Kept(Bodies(p, pieces), Bodies(p, Without(pieces, i)))
  {
    BodiesDropped(p, pieces, i);
    if i == |pieces| - 1 {
      PrefixIsWellCut(pieces, i);
      BodiesOfTrimmed(p, pieces[..i]);
      assert pieces[..i] + pieces[i + 1..] == pieces[..i];
    }
  }

  lemma AppendKeepsBodies(p: Profile, pieces: seq<string>, block: string)
    requires Sound(p) && WellCut(pieces) && Body(p, block) == []
    ensures Kept(Bodies(p, pieces), Bodies(p, Appended(pieces, block)))
  {
    hide Kept, Bodies, Spaced, IsManaged, Sound;
    BodiesOfOne(p, block);
    if pieces == [] {
      KeptAll(Bodies(p, pieces));
      NoBodies(p);
    } else {
      var n := |pieces| - 1;
      SpacedIsManaged(p, pieces[n]);
      RStripOfSpaced(pieces[n]);
      LastKept(p, pieces, Spaced(pieces[n]));
      AppendedIs(pieces, block);
      BodiesCat(p, pieces[n := Spaced(pieces[n])], [block]);
      NothingAdded(Bodies(p, pieces[n := Spaced(pieces[n])]));
    }
  }

  lemma KeptAll(a: seq<string>)
    ensures Kept(a, a)
  {
  }

  lemma NoBodies(p: Profile)
    ensures Bodies(p, []) == []
  {
  }

  lemma NothingAdded(a: seq<string>)
    ensures a + [] == a
  {
  }

  lemma AppendedIs(pieces: seq<string>, block: string)
    requires pieces != []
    ensures Appended(pieces, block) == pieces[|pieces| - 1 := Spaced(pieces[|pieces| - 1])] + [block]
  {
  }

  lemma BodiesOfOne(p: Profile, a: string)
    ensures Bodies(p, [a]) == Body(p, a)
  {
  }

  lemma UpsertKeepsBodies(p: Profile, pieces: seq<string>, h: string, block: string)
    requires Sound(p) && WellCut(pieces) && StartsWith(block, h) && (h == p.profile || h == p.provider)
    ensures Kept(Bodies(p, pieces), Bodies(p, UpsertPiece(pieces, h, block)))
  {
    var r := Index(pieces, h);
    if r.Some? {
      BodiesReplaced(p, pieces, r.value, block);
    } else {
      AppendKeepsBodies(p, pieces, block);
    }
  }

  /** A write keeps every section that is not managed, in order and byte for byte, but for white space
      at the end of the last one. */
  lemma OtherSectionsSurvive(p: Profile, text: string)
    requires Sound(p) && FitText(p, text)
    ensures Kept(Bodies(p, Cuts(text)), Bodies(p, Cuts(Written(p, text))))
  {
    hide Kept, Bodies, Sound, UpsertPiece, RemovePiece, Cuts, Written, FitText;
    var pieces := Cuts(text);
    var r := RemovePiece(pieces, p.windows);
    var v := UpsertPiece(r, p.profile, p.profileBlock);
    var w := UpsertPiece(v, p.provider, p.providerBlock);
    FitTextIsFit(p, text);
    WriteAgrees(p, pieces);
    RemoveKeepsBodies(p, pieces);
    RemoveKeepsFit(p, pieces);
    SoundStarts(p);
    UpsertKeepsBodies(p, r, p.profile, p.profileBlock);
    ProfileKeepsFit(p, r);
    UpsertKeepsBodies(p, v, p.provider, p.providerBlock);
    ProviderKeepsFit(p, v);
    CutsOfJoin(w);
    KeptTwice(Bodies(p, pieces), Bodies(p, r), Bodies(p, v));
    KeptTwice(Bodies(p, pieces), Bodies(p, v), Bodies(p, w));
  }

  lemma SoundStarts(p: Profile)
    requires Sound(p)
    ensures StartsWith(p.profileBlock, p.profile) && StartsWith(p.providerBlock, p.provider)
  {
  }

  /** Afterwards the text has the two written sections and none for Windows. */
  lemma WrittenSectionsStand(p: Profile, text: string) returns (i: nat, j: nat)
    requires Sound(p) && FitText(p, text)
    ensures Settled(p, Cuts(Written(p, text)), i, j, Fresh(p, Cuts(text)))
  {
    FitTextIsFit(p, text);
    WriteAgrees(p, Cuts(text));
    WriteKeepsFit(p, Cuts(text));
    CutsOfJoin(WrittenPieces(p, Cuts(text)));
    i, j := WriteSettles(p, Cuts(text));
  }
}
