/** The changelog: the version of its first entry, and the insertion of a new first entry. `open` is
    the opening of an entry's heading, `## [`. */
module Changelog {
  import opened Wrappers
  import opened Text
  import opened LineSearch

  predicate IsOpening(open: string) {
    open != "" && '\n' !in open
  }

  /** `open([^\]]+)\]` at the start of `s`: the version. */
  function HeadingVersion(open: string, s: string): Option<string> {
    if !StartsWith(s, open) then None else
    var body := s[|open|..];
    var v := Until(body, ']');
    if v == "" || |v| == |body| then None else Some(v)
  }

  function OpeningTest(open: string): string -> bool {
    s => StartsWith(s, open)
  }

  function HeadingTest(open: string): string -> bool {
    s => HeadingVersion(open, s).Some?
  }

  function Heading(open: string, v: string): string {
    open + v + "]"
  }

  /** `parse_changelog_version`; None where it raises. */
  function ParseChangelog(open: string, text: string): Option<string> {
    var i := FirstHit(HeadingTest(open), text);
    if i.None? then None else HeadingVersion(open, text[i.value..])
  }

  predicate HasEntry(open: string, text: string, v: string) {
    FirstHit(OpeningTest(Heading(open, v)), text).Some?
  }

  const CHANGED := "\n### Changed\n- "

  function Entry(open: string, v: string, date: string, message: string): string {
    Heading(open, v) + (" - " + date + CHANGED + message + "\n\n")
  }

  /** `insert_changelog_entry`; None where it raises. */
  function InsertEntry(open: string, text: string, v: string, date: string, message: string): Option<string> {
    if HasEntry(open, text, v) then None else
    var entry := Entry(open, v, date, message);
    var first := FirstHit(OpeningTest(open), text);
    Some(if first.None? then (RStrip(text) + "\n\n") + (RStrip(entry) + "\n")
         else text[..first.value] + (entry + text[first.value..]))
  }

  predicate IsVersionText(v: string) {
    v != "" && ']' !in v
  }

  lemma HeadingIsRead(open: string, v: string, tail: string)
    requires IsVersionText(v)
    ensures HeadingVersion(open, Heading(open, v) + tail) == Some(v)
    ensures StartsWith(Heading(open, v) + tail, Heading(open, v))
  {
    var s := Heading(open, v) + tail;
    var body := v + ("]" + tail);
    assert s == open + body;
    assert s[..|open|] == open && s[|open|..] == body;
    UntilIs(body, ']', v);
    assert s[..|Heading(open, v)|] == Heading(open, v);
  }

  /** A heading is read only where it is spelled out, with some version that holds no bracket. */
  lemma HeadingIsSpelled(open: string, s: string) returns (tail: string)
    requires HeadingVersion(open, s).Some?
    ensures IsVersionText(HeadingVersion(open, s).value)
    ensures s == Heading(open, HeadingVersion(open, s).value) + tail
  {
    var body, v := s[|open|..], HeadingVersion(open, s).value;
    tail := body[|v| + 1..];
    assert body == v + ("]" + tail);
    assert s == open + body;
  }

  /** Wherever there is an entry, there is an opening. */
  lemma EntryOpens(open: string, text: string, v: string, j: nat)
    requires Hit(OpeningTest(Heading(open, v)), text, j)
    ensures Hit(OpeningTest(open), text, j)
  {
  }

  /** If the first opening begins the heading of `v`, then `v` is the version of the changelog. */
  lemma FirstOpeningIsVersion(open: string, text: string, i: nat, v: string, tail: string)
    requires i <= |text| && LineStart(text, i) && IsVersionText(v) && text[i..] == Heading(open, v) + tail
    requires forall j: nat | j < i :: !Hit(OpeningTest(open), text, j)
    ensures ParseChangelog(open, text) == Some(v) && HasEntry(open, text, v)
  {
    HeadingIsRead(open, v, tail);
    forall j: nat | j < i ensures !Hit(HeadingTest(open), text, j) {
      assert !Hit(OpeningTest(open), text, j);
    }
    FirstIsFound(HeadingTest(open), text, i);
    assert Hit(OpeningTest(Heading(open, v)), text, i);
  }

  lemma OpeningIsLocal(open: string, a: string, x: string)
    requires a != "" && a[|a| - 1] == '\n' && IsOpening(open)
    ensures StartsWith(a + x, open) == StartsWith(a, open)
  {
    if |open| <= |a| {
      assert (a + x)[..|open|] == a[..|open|];
    } else {
      assert (a + x)[|a| - 1] == '\n' && open[|a| - 1] != '\n';
    }
  }

  lemma NoOpeningBefore(open: string, text: string, i: nat, y: string)
    requires i <= |text| && LineStart(text, i) && IsOpening(open)
    requires forall j: nat | j < i :: !Hit(OpeningTest(open), text, j)
    ensures forall j: nat | j < i :: !Hit(OpeningTest(open), text[..i] + y, j)
  {
    var x := text[i..];
    forall a | a != "" && a[|a| - 1] == '\n' && !OpeningTest(open)(a + x) ensures !OpeningTest(open)(a + y) {
      OpeningIsLocal(open, a, x);
      OpeningIsLocal(open, a, y);
    }
    NoneBefore(OpeningTest(open), text, i, y);
  }

  /** Text without an opening has none after its end is cut off and blank lines are put there. */
  lemma CutTextHasNoOpening(open: string, text: string, r: string)
    requires IsOpening(open) && |r| <= |text| && r == text[..|r|]
    requires forall j: nat :: !Hit(OpeningTest(open), text, j)
    ensures forall j: nat | j < |r| + 2 :: !Hit(OpeningTest(open), r + "\n\n", j)
  {
    var p := r + "\n\n";
    forall j: nat | j < |p| && LineStart(p, j) ensures !StartsWith(p[j..], open) {
      if j < |r| {
        assert !Hit(OpeningTest(open), text, j);
        assert LineStart(text, j) by { if j > 0 { assert p[j - 1] == text[j - 1]; } }
        OpeningEndsBeforeNewline(open, p, j, |r|);
        assert j + |open| <= |r| ==> p[j..][..|open|] == text[j..][..|open|];
      } else if j >= |r| {
        assert p[j..][0] == '\n';
        assert open[0] != '\n';
      }
    }
  }

  lemma OpeningEndsBeforeNewline(open: string, p: string, j: nat, n: nat)
    requires IsOpening(open) && j < n < |p| && p[n] == '\n'
    ensures StartsWith(p[j..], open) ==> j + |open| <= n
  {
  }

  lemma RStripKeeps(u: string, tail: string)
    requires u != "" && !IsSpace(u[|u| - 1])
    ensures RStrip(u + tail) == u + RStrip(tail)
  {
    var r := RStrip(tail);
    RStripIs(u + tail, u + r, tail[|r|..]);
  }

  /** Blank lines at the end make no difference. */
  lemma RStripKeepsNone(s: string)
    ensures RStrip(s + "\n\n") == RStrip(s)
  {
    var r := RStrip(s);
    assert s + "\n\n" == r + (s[|r|..] + "\n\n");
    RStripIs(s + "\n\n", r, s[|r|..] + "\n\n");
  }

  /** The entry, with its date and its message, stands at the first opening of the new text: inserted there before
      all that followed, or appended behind an empty line where there was none. */
  lemma EntryStandsFirst(open: string, text: string, v: string, date: string, message: string)
    returns (i: nat, tail: string)
    requires IsOpening(open) && InsertEntry(open, text, v, date, message).Some?
    ensures var t := InsertEntry(open, text, v, date, message).value;
            && i <= |t| && LineStart(t, i) && t[i..] == Heading(open, v) + tail
            && (forall j: nat | j < i :: !Hit(OpeningTest(open), t, j))
    ensures var t, said := InsertEntry(open, text, v, date, message).value, " - " + date + CHANGED + message;
            match FirstHit(OpeningTest(open), text)
            case Some(first) => i == first && t[..i] == text[..i] && tail == said + "\n\n" + text[i..]
            case None => t[..i] == RStrip(text) + "\n\n" && tail == RStrip(said) + "\n"
  {
    var first := FirstHit(OpeningTest(open), text);
    var said := " - " + date + CHANGED + message;
    var rest := said + "\n\n";
    if first.Some? {
      i := first.value;
      tail := rest + text[i..];
      InsertedFirst(open, text, i, Heading(open, v) + tail);
      assert Entry(open, v, date, message) + text[i..] == Heading(open, v) + tail;
    } else {
      i := |RStrip(text)| + 2;
      tail := RStrip(rest) + "\n";
      AppendedFirst(open, text, Heading(open, v) + tail);
      RStripKeeps(Heading(open, v), rest);
      RStripKeepsNone(said);
      assert RStrip(Entry(open, v, date, message)) + "\n" == Heading(open, v) + tail;
    }
  }

  /** An entry of the version, date and message was put between two parts of the text, or behind it. */
  ghost predicate EntryAdded(open: string, before: string, after: string, v: string, date: string, message: string) {
    var entry := Heading(open, v) + (" - " + date + CHANGED + message + "\n\n");
    || (exists pre, post :: before == pre + post && after == pre + (entry + post))
    || after == (RStrip(before) + "\n\n") + (RStrip(entry) + "\n")
  }

  lemma OneEntryIsAdded(open: string, text: string, v: string, date: string, message: string)
    requires InsertEntry(open, text, v, date, message).Some?
    ensures EntryAdded(open, text, InsertEntry(open, text, v, date, message).value, v, date, message)
  {
    var first := FirstHit(OpeningTest(open), text);
    if first.Some? { assert text == text[..first.value] + text[first.value..]; }
  }

  lemma InsertedFirst(open: string, text: string, i: nat, y: string)
    requires IsOpening(open) && FirstHit(OpeningTest(open), text) == Some(i)
    ensures var t := text[..i] + y;
            i <= |t| && LineStart(t, i) && t[i..] == y && (forall j: nat | j < i :: !Hit(OpeningTest(open), t, j))
  {
    NoOpeningBefore(open, text, i, y);
    SameLineStart(text, i, i, y);
  }

  lemma AppendedFirst(open: string, text: string, y: string)
    requires IsOpening(open) && FirstHit(OpeningTest(open), text) == None
    ensures var p := RStrip(text) + "\n\n";
            var t := p + y;
            |p| <= |t| && LineStart(t, |p|) && t[|p|..] == y &&
              (forall j: nat | j < |p| :: !Hit(OpeningTest(open), t, j))
  {
    var p := RStrip(text) + "\n\n";
    CutTextHasNoOpening(open, text, RStrip(text));
    NoOpeningBefore(open, p, |p|, y);
    assert p[..|p|] == p;
  }

  /** After an insertion the changelog's version is the new one, and a second insertion of it is refused. */
  lemma InsertedVersionIsFirst(open: string, text: string, v: string, date: string, message: string)
    requires IsOpening(open) && IsVersionText(v) && InsertEntry(open, text, v, date, message).Some?
    ensures ParseChangelog(open, InsertEntry(open, text, v, date, message).value) == Some(v)
    ensures forall d, m :: InsertEntry(open, InsertEntry(open, text, v, date, message).value, v, d, m).None?
  {
    var i, tail := EntryStandsFirst(open, text, v, date, message);
    FirstOpeningIsVersion(open, InsertEntry(open, text, v, date, message).value, i, v, tail);
  }

  /** No entry is lost. */
  lemma EntriesSurvive(open: string, text: string, v: string, date: string, message: string, w: string)
    requires InsertEntry(open, text, v, date, message).Some? && HasEntry(open, text, w)
    ensures HasEntry(open, InsertEntry(open, text, v, date, message).value, w)
  {
    var k := FirstHit(OpeningTest(Heading(open, w)), text).value;
    EntryOpens(open, text, w, k);
    var i := FirstHit(OpeningTest(open), text).value;
    var entry := Entry(open, v, date, message);
    var t := text[..i] + (entry + text[i..]);
    Moved(text, i, k, entry);
    assert OpeningTest(Heading(open, w))(text[k..]);
    assert Hit(OpeningTest(Heading(open, w)), t, k + |entry|);
  }

  lemma Moved(text: string, i: nat, k: nat, entry: string)
    requires i <= k <= |text| && LineStart(text, k) && entry != "" && entry[|entry| - 1] == '\n'
    ensures var t := text[..i] + (entry + text[i..]);
            k + |entry| <= |t| && LineStart(t, k + |entry|) && t[k + |entry|..] == text[k..]
  {
  }
}
