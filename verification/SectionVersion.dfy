/** The version settings of the sections of pyproject.toml: found, read and replaced line by line. */
module SectionVersion {
  import opened Wrappers
  import opened Text
  import opened TextLines
  import CoreVersion

  // --- The scan ---

  /** What is seen of a line: its stripped text, the version if it sets one, and whether it is open,
      that is, does not end in a newline. */
  datatype Seen = Seen(text: string, version: Option<string>, open: bool)

  predicate IsHeader(s: string) {
    s != "" && s[0] == '[' && s[|s| - 1] == ']'
  }

  datatype Found = Found(line: nat, version: string)

  function Shifted(r: Option<Found>): Option<Found> {
    if r.None? then None else Some(Found(r.value.line + 1, r.value.version))
  }

  /** Whether the scan is inside the section after a line. */
  predicate Inside(section: string, text: string, inside: bool) {
    text == section || (inside && !IsHeader(text))
  }

  /** The line sets the version of the section. */
  predicate Sets(section: string, l: Seen, inside: bool) {
    inside && l.text != section && !IsHeader(l.text) && l.version.Some?
  }

  /** The first version set inside the section, `inside` telling whether the scan starts inside it. */
  function Scan(section: string, seen: seq<Seen>, inside: bool): (r: Option<Found>)
    ensures r.Some? ==> r.value.line < |seen| && seen[r.value.line].version == Some(r.value.version)
    ensures r.Some? ==> seen[r.value.line].text != section && !IsHeader(seen[r.value.line].text)
  {
    if seen == [] then None
    else if Sets(section, seen[0], inside) then Some(Found(0, seen[0].version.value))
    else Shifted(Scan(section, seen[1..], Inside(section, seen[0].text, inside)))
  }

  /** A scan result, in lines of a text that begins `i` lines earlier. */
  function Later(r: Option<Found>, i: nat): Option<Found> {
    if r.None? then None else Some(Found(r.value.line + i, r.value.version))
  }

  function Version(r: Option<Found>): Option<string> {
    if r.None? then None else Some(r.value.version)
  }

  /** Whether the scan is inside the section after some lines. */
  predicate After(section: string, seen: seq<Seen>, inside: bool) {
    if seen == [] then inside else After(section, seen[1..], Inside(section, seen[0].text, inside))
  }

  lemma ScanStep(section: string, l: Seen, rest: seq<Seen>, inside: bool)
    ensures Scan(section, [l] + rest, inside) ==
            if Sets(section, l, inside) then Some(Found(0, l.version.value))
            else Shifted(Scan(section, rest, Inside(section, l.text, inside)))
    ensures After(section, [l] + rest, inside) == After(section, rest, Inside(section, l.text, inside))
  {
  }

  /** A scan of joined lines goes on where the first part leaves it. */
  lemma {:induction false} ScanJoined(section: string, a: seq<Seen>, b: seq<Seen>, inside: bool)
    ensures Scan(section, a + b, inside) ==
            if Scan(section, a, inside).Some? then Scan(section, a, inside)
            else Later(Scan(section, b, After(section, a, inside)), |a|)
  {
    hide IsHeader, Sets, Inside, Scan, After;
    if a == [] {
      ScanNothing(section, b, inside);
    } else {
      var l, rest := a[0], a[1..];
      var next := Inside(section, l.text, inside);
      ConsJoined(a, b);
      ScanStep(section, l, rest, inside);
      ScanStep(section, l, rest + b, inside);
      ScanJoined(section, rest, b, next);
      LaterShifted(Scan(section, b, After(section, rest, next)), |rest|);
    }
  }

  lemma ScanNothing(section: string, b: seq<Seen>, inside: bool)
    ensures Scan(section, [], inside) == None && After(section, [], inside) == inside
    ensures [] + b == b && Later(Scan(section, b, inside), 0) == Scan(section, b, inside)
  {
  }

  lemma LaterShifted(r: Option<Found>, i: nat)
    ensures Shifted(Later(r, i)) == Later(r, i + 1)
  {
  }

  lemma ConsJoined<T>(a: seq<T>, b: seq<T>)
    requires a != []
    ensures a == [a[0]] + a[1..] && a + b == [a[0]] + (a[1..] + b)
  {
  }

  /** Nothing is found before the line found, and the scan comes to it inside the section. */
  lemma {:induction false} FoundAt(section: string, seen: seq<Seen>, inside: bool)
    requires Scan(section, seen, inside).Some?
    ensures var i := Scan(section, seen, inside).value.line;
            && Scan(section, seen[..i], inside) == None && After(section, seen[..i], inside)
            && Sets(section, seen[i], true)
  {
    var i := Scan(section, seen, inside).value.line;
    if i > 0 {
      FoundAt(section, seen[1..], Inside(section, seen[0].text, inside));
      assert seen[..i][1..] == seen[1..][..i - 1];
    }
  }

  /** The scans of two sections are never inside both. */
  lemma {:induction false} Apart(section: string, other: string, seen: seq<Seen>, inside: bool, insideOther: bool)
    requires IsHeader(section) && IsHeader(other) && section != other && !(inside && insideOther)
    ensures !(After(section, seen, inside) && After(other, seen, insideOther))
  {
    if seen != [] {
      Apart(section, other, seen[1..],
            Inside(section, seen[0].text, inside), Inside(other, seen[0].text, insideOther));
    }
  }

  /** Two sections never find the same line. */
  lemma NoCommonLine(section: string, other: string, seen: seq<Seen>)
    requires IsHeader(section) && IsHeader(other) && section != other
    requires Scan(section, seen, false).Some? && Scan(other, seen, false).Some?
    ensures Scan(section, seen, false).value.line != Scan(other, seen, false).value.line
  {
    FoundAt(section, seen, false);
    FoundAt(other, seen, false);
    Apart(section, other, seen[..Scan(section, seen, false).value.line], false, false);
  }

  /** Starting inside the section, a scan finds something wherever one that starts outside does. */
  lemma {:induction false} InsideFindsMore(section: string, seen: seq<Seen>)
    requires Scan(section, seen, false).Some?
    ensures Scan(section, seen, true).Some?
  {
    if seen != [] && !Sets(section, seen[0], true) && seen[0].text != section && !IsHeader(seen[0].text) {
      InsideFindsMore(section, seen[1..]);
    }
  }

  // --- A line rewritten ---

  /** The rewritten line runs into the next one, and that one is not blank. */
  predicate RunsOn(seen: seq<Seen>, i: nat) {
    i + 1 < |seen| && seen[i].open && seen[i + 1].text != ""
  }

  /** `m` is seen in place of line `i` and, if that was open, of the line after it too. */
  predicate Rewrites(seen: seq<Seen>, i: nat, m: Seen, v: string, now: seq<Seen>) {
    && i < |seen| && !IsHeader(m.text) && m.text != ""
    && m.version == (if RunsOn(seen, i) then None else Some(v))
    && m.open == seen[Next(seen, i) - 1].open
    && now == seen[..i] + [m] + seen[Next(seen, i)..]
  }

  /** The first line that is left after line `i` is rewritten. */
  function Next(seen: seq<Seen>, i: nat): (n: nat)
    requires i < |seen|
    ensures i < n <= |seen|
  {
    if seen[i].open && i + 1 < |seen| then i + 2 else i + 1
  }

  /** The rewritten line runs into the header of another section that was not found before. */
  predicate Swallows(other: string, seen: seq<Seen>, i: nat) {
    RunsOn(seen, i) && seen[i + 1].text == other && Scan(other, seen[..i], false).None?
  }

  /** The version a section shows after its line `i` was set to `v`. */
  function Reread(section: string, seen: seq<Seen>, i: nat, v: string): Option<string> {
    if RunsOn(seen, i) then Version(Scan(section, seen[i + 2..], true)) else Some(v)
  }

  /** The version another section shows then. */
  function OtherReread(other: string, seen: seq<Seen>, i: nat): Option<string> {
    if Swallows(other, seen, i) then Version(Scan(other, seen[i + 2..], false)) else Version(Scan(other, seen, false))
  }

  lemma RewrittenReads(section: string, seen: seq<Seen>, i: nat, m: Seen, v: string, now: seq<Seen>)
    requires Rewrites(seen, i, m, v, now) && IsHeader(section)
    requires Scan(section, seen, false).Some? && Scan(section, seen, false).value.line == i
    ensures Version(Scan(section, now, false)) == Reread(section, seen, i, v)
  {
    var rest := seen[Next(seen, i)..];
    FoundAt(section, seen, false);
    assert now == seen[..i] + ([m] + rest);
    ScanJoined(section, seen[..i], [m] + rest, false);
    ScanStep(section, m, rest, true);
  }

  /** What another section reads from the lines from `i` on, where none of its lines came before. */
  lemma OtherFrom(other: string, seen: seq<Seen>, i: nat)
    requires i < |seen| && !IsHeader(seen[i].text) && IsHeader(other)
    ensures Version(Scan(other, seen[i..], false)) ==
            if RunsOn(seen, i) && seen[i + 1].text == other then Version(Scan(other, seen[i + 2..], true))
            else Version(Scan(other, seen[Next(seen, i)..], false))
  {
  }

  /** Another section reads as before, unless its header was swallowed. */
  lemma OthersUnchanged(section: string, other: string, seen: seq<Seen>, i: nat, m: Seen, v: string, now: seq<Seen>)
    requires Rewrites(seen, i, m, v, now) && IsHeader(section) && IsHeader(other) && section != other
    requires Scan(section, seen, false).Some? && Scan(section, seen, false).value.line == i
    ensures Version(Scan(other, now, false)) == OtherReread(other, seen, i)
  {
    hide Scan, After;
    var rest := seen[Next(seen, i)..];
    FoundAt(section, seen, false);
    Apart(section, other, seen[..i], false, false);
    assert now == seen[..i] + ([m] + rest) && seen == seen[..i] + seen[i..];
    ScanJoined(other, seen[..i], [m] + rest, false);
    ScanJoined(other, seen[..i], seen[i..], false);
    ScanStep(other, m, rest, false);
    OtherFrom(other, seen, i);
  }

  /** `seen` with its line `i` set to `v`, up to the text of that line. */
  function Rewritten(seen: seq<Seen>, i: nat, v: string): seq<Seen>
    requires i < |seen|
  {
    var m := Seen(['='], if RunsOn(seen, i) then None else Some(v), seen[Next(seen, i) - 1].open);
    seen[..i] + [m] + seen[Next(seen, i)..]
  }

  // --- Two sections rewritten one after the other ---

  datatype Shown = Shown(first: Option<string>, second: Option<string>)

  /** What two sections show after the first and then the second was set to `v`; None where one of
      them is not found. */
  function BothSet(first: string, second: string, seen: seq<Seen>, v: string): Option<Shown> {
    var r := Scan(first, seen, false);
    if r.None? then None else SecondSet(first, second, Rewritten(seen, r.value.line, v), v)
  }

  function SecondSet(first: string, second: string, seen: seq<Seen>, v: string): Option<Shown> {
    var r := Scan(second, seen, false);
    if r.None? then None
    else Some(Shown(OtherReread(first, seen, r.value.line), Reread(second, seen, r.value.line, v)))
  }

  /** The same for every scan: lines that differ at most in a text that is no header. */
  predicate Alike(a: Seen, b: Seen) {
    && a.version == b.version && a.open == b.open
    && (a.text == b.text || (a.text != "" && b.text != "" && !IsHeader(a.text) && !IsHeader(b.text)))
  }

  predicate AllAlike(a: seq<Seen>, b: seq<Seen>) {
    |a| == |b| && forall k :: 0 <= k < |a| ==> Alike(a[k], b[k])
  }

  lemma {:induction false} ScansAlike(section: string, a: seq<Seen>, b: seq<Seen>, inside: bool)
    requires AllAlike(a, b) && IsHeader(section)
    ensures Scan(section, a, inside) == Scan(section, b, inside)
  {
    if a != [] {
      assert Alike(a[0], b[0]);
      ScansAlike(section, a[1..], b[1..], Inside(section, a[0].text, inside));
    }
  }

  lemma SecondSetAlike(first: string, second: string, a: seq<Seen>, b: seq<Seen>, v: string)
    requires AllAlike(a, b) && IsHeader(first) && IsHeader(second)
    ensures SecondSet(first, second, a, v) == SecondSet(first, second, b, v)
  {
    hide Scan, AllAlike, IsHeader, Reread, OtherReread;
    ScansAlike(second, a, b, false);
    if Scan(second, a, false).Some? { RereadAlike(first, second, a, b, Scan(second, a, false).value.line, v); }
  }

  lemma RereadAlike(first: string, second: string, a: seq<Seen>, b: seq<Seen>, i: nat, v: string)
    requires AllAlike(a, b) && IsHeader(first) && IsHeader(second) && i < |a|
    ensures OtherReread(first, a, i) == OtherReread(first, b, i) && Reread(second, a, i, v) == Reread(second, b, i, v)
  {
    hide Scan, IsHeader;
    ScansAlike(first, a, b, false);
    ScansAlike(first, a[..i], b[..i], false);
    assert Alike(a[i], b[i]);
    if i + 1 < |a| {
      NextAlike(first, a[i + 1], b[i + 1]);
      assert Alike(a[i + 1], b[i + 1]);
      ScansAlike(second, a[i + 2..], b[i + 2..], true);
      ScansAlike(first, a[i + 2..], b[i + 2..], false);
    }
  }

  lemma NextAlike(other: string, a: Seen, b: Seen)
    requires IsHeader(other) && Alike(a, b)
    ensures (a.text == other <==> b.text == other) && (a.text == "" <==> b.text == "")
  {
  }

  lemma RewrittenAlike(seen: seq<Seen>, i: nat, m: Seen, v: string, now: seq<Seen>)
    requires Rewrites(seen, i, m, v, now)
    ensures AllAlike(now, Rewritten(seen, i, v))
  {
  }

  /** A section that was not found before is not found after another one was rewritten. */
  lemma NothingAppears(first: string, second: string, seen: seq<Seen>, v: string)
    requires IsHeader(first) && IsHeader(second) && first != second && BothSet(first, second, seen, v).Some?
    ensures Scan(second, seen, false).Some?
  {
    hide Rewritten, Scan;
    var i := Scan(first, seen, false).value.line;
    RewrittenRewrites(seen, i, v);
    OthersUnchanged(first, second, seen, i, Rewritten(seen, i, v)[i], v, Rewritten(seen, i, v));
    if Swallows(second, seen, i) {
      InsideFindsMore(second, seen[i + 2..]);
      FoundAt(first, seen, false);
      Apart(first, second, seen[..i], false, false);
      assert seen == seen[..i] + seen[i..];
      ScanJoined(second, seen[..i], seen[i..], false);
      OtherFrom(second, seen, i);
    }
  }

  lemma RewrittenRewrites(seen: seq<Seen>, i: nat, v: string)
    requires i < |seen|
    ensures |Rewritten(seen, i, v)| > i && Rewrites(seen, i, Rewritten(seen, i, v)[i], v, Rewritten(seen, i, v))
  {
  }

  /** A section found after another one was rewritten without running on: the same line, which runs
      on as before. */
  lemma SecondIsFound(first: string, second: string, seen: seq<Seen>, v: string)
    requires IsHeader(first) && IsHeader(second) && first != second
    requires Scan(first, seen, false).Some? && Scan(second, seen, false).Some?
    requires !RunsOn(seen, Scan(first, seen, false).value.line)
    requires seen[Scan(first, seen, false).value.line].text != ""
    ensures var now := Rewritten(seen, Scan(first, seen, false).value.line, v);
            var r := Scan(second, now, false);
            r.Some? && RunsOn(now, r.value.line) == RunsOn(seen, Scan(second, seen, false).value.line)
  {
    hide Rewritten, RunsOn, IsHeader, Scan;
    var i := Scan(first, seen, false).value.line;
    var now := Rewritten(seen, i, v);
    var rest := seen[Next(seen, i)..];
    FoundAt(first, seen, false);
    Apart(first, second, seen[..i], false, false);
    assert seen == seen[..i] + seen[i..];
    ScanJoined(second, seen[..i], seen[i..], false);
    SkipsTo(second, seen, i);
    SkipsRewritten(second, seen, i, v);
    RunsOnAsBefore(seen, i, v, Scan(second, seen, false).value.line);
  }

  lemma SkipsRewritten(other: string, seen: seq<Seen>, i: nat, v: string)
    requires i < |seen| && IsHeader(other) && !After(other, seen[..i], false)
    ensures Scan(other, Rewritten(seen, i, v), false) ==
            if Scan(other, seen[..i], false).Some? then Scan(other, seen[..i], false)
            else Later(Scan(other, seen[Next(seen, i)..], false), i + 1)
  {
    hide Rewritten, Scan, RunsOn, IsHeader;
    var now, rest := Rewritten(seen, i, v), seen[Next(seen, i)..];
    RewrittenRewrites(seen, i, v);
    assert now == seen[..i] + ([now[i]] + rest);
    ScanJoined(other, seen[..i], [now[i]] + rest, false);
    ScanStep(other, now[i], rest, false);
  }

  lemma RunsOnAsBefore(seen: seq<Seen>, i: nat, v: string, j: nat)
    requires i < |seen| && j < |seen| && seen[i].text != "" && !RunsOn(seen, i)
    ensures var now := Rewritten(seen, i, v);
            && (j < i ==> RunsOn(now, j) == RunsOn(seen, j))
            && (j >= Next(seen, i) ==> RunsOn(now, j - Next(seen, i) + i + 1) == RunsOn(seen, j))
  {
  }

  lemma HeadersAreNotBlank(section: string)
    requires IsHeader(section)
    ensures section != "" && !IsHeader("")
  {
  }

  lemma SkipOne(other: string, l: Seen, rest: seq<Seen>)
    requires IsHeader(other) && !IsHeader(l.text)
    ensures Scan(other, [l] + rest, false) == Later(Scan(other, rest, false), 1)
  {
  }

  lemma SkipsTo(other: string, seen: seq<Seen>, i: nat)
    requires i < |seen| && !IsHeader(seen[i].text) && IsHeader(other) && !RunsOn(seen, i)
    ensures Scan(other, seen[i..], false) == Later(Scan(other, seen[Next(seen, i)..], false), Next(seen, i) - i)
  {
    hide Scan, IsHeader;
    HeadersAreNotBlank(other);
    assert seen[i..] == [seen[i]] + seen[i + 1..];
    SkipOne(other, seen[i], seen[i + 1..]);
    if seen[i].open && i + 1 < |seen| {
      assert seen[i + 1..] == [seen[i + 1]] + seen[i + 2..];
      SkipOne(other, seen[i + 1], seen[i + 2..]);
    }
  }

  /** Where neither line runs on, both sections show the version. */
  lemma NothingRunsOn(first: string, second: string, seen: seq<Seen>, v: string)
    requires IsHeader(first) && IsHeader(second) && first != second
    requires Scan(first, seen, false).Some? && Scan(second, seen, false).Some?
    requires !RunsOn(seen, Scan(first, seen, false).value.line) && !RunsOn(seen, Scan(second, seen, false).value.line)
    requires seen[Scan(first, seen, false).value.line].text != ""
    ensures BothSet(first, second, seen, v) == Some(Shown(Some(v), Some(v)))
  {
    hide Rewritten, Scan, RunsOn;
    var i := Scan(first, seen, false).value.line;
    RewrittenRewrites(seen, i, v);
    RewrittenReads(first, seen, i, Rewritten(seen, i, v)[i], v, Rewritten(seen, i, v));
    SecondIsFound(first, second, seen, v);
  }

  /** No line sets this version. */
  predicate Fresh(seen: seq<Seen>, v: string) {
    forall k :: 0 <= k < |seen| ==> seen[k].version != Some(v)
  }

  /** At most one line sets this version. */
  predicate AtMostOnce(seen: seq<Seen>, v: string) {
    forall j, k :: 0 <= j < |seen| && 0 <= k < |seen| && seen[j].version == Some(v) && seen[k].version == Some(v) ==>
      j == k
  }

  lemma RewrittenOnce(seen: seq<Seen>, i: nat, v: string)
    requires i < |seen|
    ensures Fresh(seen, v) ==> AtMostOnce(Rewritten(seen, i, v), v)
    ensures Fresh(seen, v) && RunsOn(seen, i) ==> Fresh(Rewritten(seen, i, v), v)
    ensures AtMostOnce(seen, v) && RunsOn(seen, i) ==> AtMostOnce(Rewritten(seen, i, v), v)
  {
    var now := Rewritten(seen, i, v);
    forall k | 0 <= k < |now|
      ensures now[k] == if k < i then seen[k] else if k == i then now[i] else seen[k + Next(seen, i) - i - 1]
    {
    }
  }

  /** Where no line set the version before, both sections show it only if neither line runs on. */
  lemma RunningOnShows(first: string, second: string, seen: seq<Seen>, v: string)
    requires IsHeader(first) && IsHeader(second) && first != second && Fresh(seen, v)
    requires BothSet(first, second, seen, v) == Some(Shown(Some(v), Some(v)))
    requires seen[Scan(first, seen, false).value.line].text != ""
    ensures Scan(second, seen, false).Some?
    ensures !RunsOn(seen, Scan(first, seen, false).value.line) && !RunsOn(seen, Scan(second, seen, false).value.line)
  {
    hide Rewritten, Scan, RunsOn, Fresh, AtMostOnce;
    var i := Scan(first, seen, false).value.line;
    var now := Rewritten(seen, i, v);
    var j := Scan(second, now, false).value.line;
    var last := Rewritten(now, j, v);
    NothingAppears(first, second, seen, v);
    RewrittenOnce(seen, i, v);
    RewrittenOnce(now, j, v);
    RewrittenRewrites(now, j, v);
    RewrittenReads(second, now, j, last[j], v, last);
    OthersUnchanged(second, first, now, j, last[j], v, last);
    BothOnce(first, second, last, v);
    if !RunsOn(seen, i) { SecondIsFound(first, second, seen, v); }
  }

  /** Two sections that show one version find it in two lines. */
  lemma BothOnce(first: string, second: string, seen: seq<Seen>, v: string)
    requires IsHeader(first) && IsHeader(second) && first != second
    requires Version(Scan(first, seen, false)) == Some(v) == Version(Scan(second, seen, false))
    ensures !AtMostOnce(seen, v)
  {
    NoCommonLine(first, second, seen);
  }

  // --- Texts ---

  /** The version a stripped line sets: `^version\s*=\s*"([^"]+)"\s*$`, for the key `version`. */
  function LineVersion(key: string, s: string): Option<string> {
    var a := CoreVersion.Assigned(key, s);
    if a.Some? && Blank(a.value.rest) then Some(a.value.value) else None
  }

  function See(key: string, line: string): Seen {
    Seen(Strip(line), LineVersion(key, Strip(line)), Newline(line) == "")
  }

  function SeeAll(see: string -> Seen, lines: seq<string>): (r: seq<Seen>)
    ensures |r| == |lines| && forall i :: 0 <= i < |r| ==> r[i] == see(lines[i])
  {
    seq(|lines|, i requires 0 <= i < |lines| => see(lines[i]))
  }

  function FindSection(see: string -> Seen, section: string, lines: seq<string>): Option<Found> {
    Scan(section, SeeAll(see, lines), false)
  }

  function Seeing(key: string): string -> Seen {
    line => See(key, line)
  }

  /** `parse_pyproject_section_version`; None where it raises. */
  function ParseSection(key: string, section: string, text: string): Option<string> {
    Version(FindSection(Seeing(key), section, SplitLines(text)))
  }

  /** The line end that is written back: a newline, or none for any other end. */
  function Newline(line: string): string {
    if |line| >= 2 && line[|line| - 2..] == "\r\n" then "\r\n"
    else if |line| >= 1 && line[|line| - 1] == '\n' then "\n" else ""
  }

  function NewLine(key: string, line: string, v: string): string {
    Lead(line) + CoreVersion.CoreLine(key, v) + Newline(line)
  }

  /** `replace_section_version`; None where it raises. */
  function ReplaceSection(key: string, section: string, text: string, v: string): Option<string> {
    var lines := SplitLines(text);
    var r := FindSection(Seeing(key), section, lines);
    if r.None? then None
    else Some(Join(lines[r.value.line := NewLine(key, lines[r.value.line], v)]))
  }

  /** What is seen of a text. */
  function Lines(key: string, text: string): seq<Seen> {
    SeeAll(Seeing(key), SplitLines(text))
  }

  predicate IsKey(key: string) {
    Visible(key) && key[0] != '[' && NoBreak(key)
  }

  predicate IsValue(v: string) {
    v != "" && '"' !in v && NoBreak(v)
  }

  lemma CoreLineReads(key: string, v: string, rest: string)
    requires v != "" && '"' !in v
    ensures LineVersion(key, CoreVersion.CoreLine(key, v) + rest) == if Blank(rest) then Some(v) else None
  {
    CoreVersion.CoreLineIsSpelled(key, v, rest);
    assert Blank(" ");
    CoreVersion.SpelledIsAssigned(key, " ", " ", v, rest);
  }

  lemma CoreLineEnds(key: string, v: string)
    requires key != ""
    ensures var x := CoreVersion.CoreLine(key, v);
            x != "" && x[0] == key[0] && x[|x| - 1] == '"'
  {
  }

  /** A setting at the start of a stripped line is seen as what it sets. */
  lemma SettingIsSeen(key: string, w: string, v: string, e: string)
    requires IsKey(key) && v != "" && '"' !in v && Blank(w) && Blank(e)
    ensures See(key, w + CoreVersion.CoreLine(key, v) + e)
            == Seen(CoreVersion.CoreLine(key, v), Some(v), Newline(w + CoreVersion.CoreLine(key, v) + e) == "")
    ensures !IsHeader(CoreVersion.CoreLine(key, v))
  {
    var x := CoreVersion.CoreLine(key, v);
    CoreLineEnds(key, v);
    StripsTo(w, x, e);
    CoreLineReads(key, v, "");
    assert x + "" == x;
  }

  lemma NewlineIsBlank(line: string)
    ensures Blank(Newline(line))
  {
  }

  /** A line is open if no newline ends it. */
  lemma OpenLines(line: string)
    ensures Newline(line) == "" <==> line == "" || line[|line| - 1] != '\n'
  {
  }

  /** What follows a text that does not end in a newline decides whether the whole is open. */
  lemma OpenAlike(x: string, e: string, line: string)
    requires x != "" && x[|x| - 1] != '\n' && (e == Newline(line) || e == line)
    ensures Newline(x + e) == "" <==> Newline(line) == ""
  {
    OpenLines(x + e);
    OpenLines(line);
    if e != "" { assert (x + e)[|x + e| - 1] == e[|e| - 1]; }
  }

  lemma NewLineReads(key: string, line: string, v: string)
    requires IsKey(key) && IsValue(v)
    ensures var m := See(key, NewLine(key, line, v));
            m.version == Some(v) && !IsHeader(m.text) && m.text != "" && m.open == (Newline(line) == "")
  {
    NewlineIsBlank(line);
    SettingIsSeen(key, Lead(line), v, Newline(line));
    CoreLineEnds(key, v);
    OpenAlike(Lead(line) + CoreVersion.CoreLine(key, v), Newline(line), line);
  }

  /** The rewritten line with the next one behind it sets the version only if that one is blank. */
  lemma MergedLineReads(key: string, line: string, next: string, v: string)
    requires IsKey(key) && IsValue(v) && Newline(line) == ""
    ensures var m := See(key, NewLine(key, line, v) + next);
            && !IsHeader(m.text) && m.text != "" && m.open == See(key, next).open
            && m.version == if See(key, next).text == "" then Some(v) else None
  {
    hide Newline, Blank, LineVersion, IsSpace, IsHeader, CoreVersion.CoreLine;
    var x, w := CoreVersion.CoreLine(key, v), Lead(line);
    CoreLineEnds(key, v);
    assert NewLine(key, line, v) == w + x;
    OpenAlike(w + x, next, next);
    if Blank(next) {
      SettingIsSeen(key, w, v, next);
      BlankStrips(next);
    } else {
      VisibleStrips(next);
      VisibleMerges(key, w, x, next);
      CoreLineReads(key, v, RStrip(next));
    }
  }

  /** What is seen of a text with a line behind it that is not blank. */
  lemma VisibleMerges(key: string, w: string, x: string, next: string)
    requires Blank(w) && x != "" && !IsSpace(x[0]) && x[0] != '[' && RStrip(next) != ""
    ensures Strip(w + x + next) == x + RStrip(next) && !IsHeader(x + RStrip(next)) && x + RStrip(next) != ""
  {
    var r := RStrip(next);
    assert next == r + next[|r|..];
    assert w + x + next == w + (x + r) + next[|r|..];
    assert (x + r)[0] == x[0] && (x + r)[|x + r| - 1] == r[|r| - 1];
    StripsTo(w, x + r, next[|r|..]);
  }

  lemma VisibleStrips(line: string)
    requires !Blank(line)
    ensures RStrip(line) != "" && !Blank(RStrip(line)) && Strip(line) != ""
  {
  }

  lemma CoreLineHasNoBreak(key: string, v: string)
    requires NoBreak(key) && NoBreak(v)
    ensures NoBreak(CoreVersion.CoreLine(key, v))
  {
  }

  lemma NewLineFits(key: string, lines: seq<string>, i: nat, v: string)
    requires i < |lines| && IsLine(lines[i]) && LStrip(lines[i]) != "" && IsKey(key) && IsValue(v)
    requires i == |lines| - 1 || Newline(lines[i]) != ""
    ensures Fits(lines, i, NewLine(key, lines[i], v))
  {
    var line, x, e := lines[i], CoreVersion.CoreLine(key, v), Newline(lines[i]);
    LeadHasNoBreak(line);
    CoreLineHasNoBreak(key, v);
    NoBreakParts(Lead(line), x);
    MakesLine(Lead(line) + x, e);
  }

  lemma VersionLineIsVisible(key: string, line: string)
    requires See(key, line).version.Some? && key != ""
    ensures LStrip(line) != ""
  {
    SettingIsNonempty(key, Strip(line));
    if LStrip(line) == "" { BlankStrips(line); }
  }

  lemma SettingIsNonempty(key: string, s: string)
    requires LineVersion(key, s).Some? && key != ""
    ensures s != ""
  {
  }

  lemma BlankStrips(line: string)
    requires Blank(line)
    ensures Strip(line) == ""
  {
  }

  /** The lines after line `i` was rewritten to `l`: an open `l` runs into the next line. */
  function NewLines(lines: seq<string>, i: nat, l: string): seq<string>
    requires i < |lines|
  {
    if Newline(lines[i]) == "" && i + 1 < |lines| then Merged(lines, i, l)
    else lines[i := l]
  }

  /** One line that set a version is written anew: indented as before, with the key and the new version, and with its
      newline, if it had one. What stands before and behind it is kept. */
  ghost predicate LineRewritten(key: string, before: string, after: string, v: string) {
    exists pre, line, post ::
      && before == pre + (line + post) && See(key, line).version.Some?
      && after == pre + (Lead(line) + (key + " = " + ['"'] + v + ['"']) + Newline(line) + post)
  }

  /** Replacing a section's version rewrites one line of the text. */
  lemma OneLineIsRewritten(key: string, section: string, text: string, v: string)
    requires ReplaceSection(key, section, text, v).Some?
    ensures LineRewritten(key, text, ReplaceSection(key, section, text, v).value, v)
  {
    hide Scan, See;
    var lines := SplitLines(text);
    var i := FindSection(Seeing(key), section, lines).value.line;
    assert SeeAll(Seeing(key), lines)[i] == See(key, lines[i]);
    var l := NewLine(key, lines[i], v);
    JoinOfSplit(text);
    JoinAround(lines, i);
    JoinAround(lines[i := l], i);
    assert lines[i := l][..i] == lines[..i] && lines[i := l][i + 1..] == lines[i + 1..];
  }

  lemma {:induction false} JoinAround(lines: seq<string>, i: nat)
    requires i < |lines|
    ensures Join(lines) == Join(lines[..i]) + (lines[i] + Join(lines[i + 1..]))
  {
    if i > 0 {
      JoinAround(lines[1..], i - 1);
      assert lines[1..][..i - 1] == lines[..i][1..];
      assert lines[1..][i..] == lines[i + 1..];
    }
  }

  /** The lines of the replaced text. */
  lemma ReplacedSection(key: string, section: string, text: string, v: string)
    requires IsKey(key) && IsValue(v) && ReplaceSection(key, section, text, v).Some?
    ensures var lines := SplitLines(text);
            var i := FindSection(Seeing(key), section, lines).value.line;
            SplitLines(ReplaceSection(key, section, text, v).value) == NewLines(lines, i, NewLine(key, lines[i], v))
  {
    hide IsBreak, LineEnd, IsSpace, LineVersion, Scan;
    var lines := SplitLines(text);
    var i := FindSection(Seeing(key), section, lines).value.line;
    EveryLineIsLine(text, i);
    assert SeeAll(Seeing(key), lines)[i] == See(key, lines[i]);
    VersionLineIsVisible(key, lines[i]);
    if Newline(lines[i]) == "" && i + 1 < |lines| {
      OpenLineHasNoBreak(key, lines[i], v);
      MergedLines(text, i, NewLine(key, lines[i], v));
    } else {
      NewLineFits(key, lines, i, v);
      ReplacedLines(text, i, NewLine(key, lines[i], v));
    }
  }

  lemma OpenLineHasNoBreak(key: string, line: string, v: string)
    requires IsLine(line) && LStrip(line) != "" && Newline(line) == "" && IsKey(key) && IsValue(v)
    ensures NewLine(key, line, v) != "" && NoBreak(NewLine(key, line, v))
  {
    var x := CoreVersion.CoreLine(key, v);
    LeadHasNoBreak(line);
    CoreLineHasNoBreak(key, v);
    NoBreakParts(Lead(line), x);
    assert NewLine(key, line, v) == Lead(line) + x;
  }

  /** What is seen of the rewritten lines. */
  lemma NewLinesAreSeen(key: string, lines: seq<string>, i: nat, v: string) returns (m: Seen)
    requires i < |lines| && IsKey(key) && IsValue(v)
    ensures Rewrites(SeeAll(Seeing(key), lines), i, m, v,
                     SeeAll(Seeing(key), NewLines(lines, i, NewLine(key, lines[i], v))))
  {
    hide See, Newline, IsHeader;
    var see, l := Seeing(key), NewLine(key, lines[i], v);
    var seen := SeeAll(see, lines);
    IsSeen(key, lines[i]);
    if Newline(lines[i]) == "" && i + 1 < |lines| {
      IsSeen(key, lines[i + 1]);
      m := See(key, l + lines[i + 1]);
      MergedLineReads(key, lines[i], lines[i + 1], v);
    } else {
      m := See(key, l);
      NewLineReads(key, lines[i], v);
    }
    assert SeeAll(see, NewLines(lines, i, l)) == seen[..i] + [m] + seen[Next(seen, i)..];
  }

  lemma IsSeen(key: string, line: string)
    ensures See(key, line).open == (Newline(line) == "")
  {
  }

  /** Re-reading a replaced section gives the new version, unless the rewritten line runs into a line
      that is not blank: then it gives what the section sets from the line after that on. Every other
      section reads as before, unless its header was run into. */
  lemma ReplacedSectionParses(key: string, section: string, other: string, text: string, v: string)
    requires IsKey(key) && IsValue(v) && IsHeader(section) && IsHeader(other) && other != section
    requires ReplaceSection(key, section, text, v).Some?
    ensures var t := ReplaceSection(key, section, text, v).value;
            var i := FindSection(Seeing(key), section, SplitLines(text)).value.line;
            && ParseSection(key, section, t) == Reread(section, Lines(key, text), i, v)
            && ParseSection(key, other, t) == OtherReread(other, Lines(key, text), i)
  {
    hide Reread, OtherReread, Rewrites, Scan, SplitLines, IsHeader, NewLine, NewLines;
    var lines := SplitLines(text);
    var i := FindSection(Seeing(key), section, lines).value.line;
    ReplacedSection(key, section, text, v);
    var m := NewLinesAreSeen(key, lines, i, v);
    var now := Lines(key, ReplaceSection(key, section, text, v).value);
    RewrittenReads(section, Lines(key, text), i, m, v, now);
    OthersUnchanged(section, other, Lines(key, text), i, m, v, now);
  }

  /** Replacing succeeds where reading does. */
  lemma ReplacesWhatParses(key: string, section: string, text: string, v: string)
    ensures ReplaceSection(key, section, text, v).Some? == ParseSection(key, section, text).Some?
  {
  }

  /** A version that is read never holds a line break. */
  lemma ParsedSectionHasNoBreak(key: string, section: string, text: string)
    requires ParseSection(key, section, text).Some?
    ensures NoBreak(ParseSection(key, section, text).value)
  {
    var lines := SplitLines(text);
    var r := FindSection(Seeing(key), section, lines).value;
    assert SeeAll(Seeing(key), lines)[r.line] == See(key, lines[r.line]);
    EveryLineIsLine(text, r.line);
    StripHasNoBreak(lines[r.line]);
    ValueIsPart(key, Strip(lines[r.line]));
  }

  lemma ValueIsPart(key: string, s: string)
    requires LineVersion(key, s).Some? && NoBreak(s)
    ensures NoBreak(LineVersion(key, s).value)
  {
    var tail := s[|key|..];
    StepHasNoBreak('=', tail);
    StepHasNoBreak('"', CoreVersion.Step('=', tail).value);
  }

  lemma StepHasNoBreak(c: char, s: string)
    requires NoBreak(s) && CoreVersion.Step(c, s).Some?
    ensures NoBreak(CoreVersion.Step(c, s).value)
  {
  }

  /** One section and then another replaced; None where that raises. */
  function ReplaceBoth(key: string, first: string, second: string, text: string, v: string): Option<string> {
    var t := ReplaceSection(key, first, text, v);
    if t.None? then None else ReplaceSection(key, second, t.value, v)
  }

  /** What both sections show after they were replaced, told from the lines before. */
  lemma BothReplaced(key: string, first: string, second: string, text: string, v: string)
    requires IsKey(key) && IsValue(v) && IsHeader(first) && IsHeader(second) && first != second
    ensures var t := ReplaceBoth(key, first, second, text, v);
            BothSet(first, second, Lines(key, text), v) ==
            if t.None? then None else Some(Shown(ParseSection(key, first, t.value), ParseSection(key, second, t.value)))
  {
    hide Reread, OtherReread, Rewritten, Rewrites, Scan, SplitLines, IsHeader, NewLine, NewLines;
    if ReplaceSection(key, first, text, v).Some? {
      var t := ReplaceSection(key, first, text, v).value;
      var lines := SplitLines(text);
      var i := FindSection(Seeing(key), first, lines).value.line;
      ReplacedSection(key, first, text, v);
      var m := NewLinesAreSeen(key, lines, i, v);
      RewrittenAlike(Lines(key, text), i, m, v, Lines(key, t));
      SecondSetAlike(first, second, Lines(key, t), Rewritten(Lines(key, text), i, v), v);
      if ReplaceSection(key, second, t, v).Some? { ReplacedSectionParses(key, second, first, t, v); }
    }
  }

  /** A line that sets a version is not blank. */
  lemma SettersAreVisible(key: string, text: string, i: nat)
    requires key != "" && i < |Lines(key, text)| && Lines(key, text)[i].version.Some?
    ensures Lines(key, text)[i].text != ""
  {
    SettingIsNonempty(key, Strip(SplitLines(text)[i]));
  }

  // --- A line end that is lost ---

  lemma BodyLine(a: string, e: string, rest: string)
    requires a != "" && NoBreak(a) && (e == "\n" || e == "\U{0b}")
    ensures SplitLines(a + e + rest) == [a + e] + SplitLines(rest)
  {
    assert a + e + rest == a + (e + rest);
    EndAfterBody(a, e + rest);
    assert (e + rest)[0] == e[0];
    SplitFirst(a + e, rest);
  }

  lemma LastLine(a: string)
    requires a != "" && NoBreak(a)
    ensures SplitLines(a) == [a]
  {
    EndAfterBody(a, "");
    assert a + "" == a;
    SplitFirst(a, "");
  }

  lemma ScanTwo(see: string -> Seen, section: string, h: string, l: string, rest: seq<string>)
    requires see(h).text == section && IsHeader(section) && see(l).text != section && !IsHeader(see(l).text)
    ensures see(l).version.Some? ==> FindSection(see, section, [h, l] + rest) == Some(Found(1, see(l).version.value))
    ensures see(l).version.None? && rest == [] ==> FindSection(see, section, [h, l] + rest) == None
  {
    var seen := SeeAll(see, [h, l] + rest);
    assert seen[0] == see(h) && seen[1] == see(l);
    var more := seen[1..];
    assert more[0] == see(l);
    assert Scan(section, seen, false) == Shifted(Scan(section, more, true));
    if rest == [] && see(l).version.None? {
      assert more[1..] == [];
      assert Scan(section, more, true) == Shifted(Scan(section, more[1..], true));
    }
  }

  /** A line whose end is not a newline loses it, and runs into the next line: here the replaced
      section cannot be read any more. */
  lemma LineEndIsLost(key: string, section: string, other: string, v: string, w: string)
    requires IsKey(key) && IsHeader(section) && NoBreak(section) && IsValue(v) && IsValue(w)
    requires IsHeader(other) && other != section
    ensures var text := section + "\n" + (CoreVersion.CoreLine(key, v) + "\U{0b}" + "x");
            && ParseSection(key, section, text) == Some(v)
            && ReplaceSection(key, section, text, w).Some?
            && ParseSection(key, section, ReplaceSection(key, section, text, w).value) == None
  {
    hide IsBreak, NoBreak, IsSpace, LineEnd, SplitLines, CoreVersion.CoreLine, IsKey, IsValue, LineVersion;
    var h, l := section + "\n", CoreVersion.CoreLine(key, v) + "\U{0b}";
    var text := section + "\n" + (CoreVersion.CoreLine(key, v) + "\U{0b}" + "x");
    SplitBefore(key, section, v);
    HeaderIsSeen(key, section);
    OldLineReads(key, v);
    ScanTwo(Seeing(key), section, h, l, ["x"]);
    ReplacedSectionParses(key, section, other, text, w);
    NextIsSeen(key, h, l);
  }

  lemma HeaderIsSeen(key: string, section: string)
    requires IsHeader(section)
    ensures Seeing(key)(section + "\n").text == section
  {
    StripsTo("", section, "\n");
    assert "" + section + "\n" == section + "\n";
  }

  lemma NextIsSeen(key: string, h: string, l: string)
    requires See(key, l).open
    ensures var seen := SeeAll(Seeing(key), [h, l] + ["x"]);
            RunsOn(seen, 1) && seen[3..] == []
  {
    var seen := SeeAll(Seeing(key), [h, l] + ["x"]);
    assert seen[1] == See(key, l) && seen[2] == See(key, "x");
    assert "x"[0] == 'x';
    VisibleStrips("x");
  }

  lemma SplitBefore(key: string, section: string, v: string)
    requires IsKey(key) && IsHeader(section) && NoBreak(section) && IsValue(v)
    ensures SplitLines(section + "\n" + (CoreVersion.CoreLine(key, v) + "\U{0b}" + "x"))
         == [section + "\n", CoreVersion.CoreLine(key, v) + "\U{0b}"] + ["x"]
  {
    var l := CoreVersion.CoreLine(key, v);
    CoreLineHasNoBreak(key, v);
    BodyLine(section, "\n", l + "\U{0b}" + "x");
    BodyLine(l, "\U{0b}", "x");
    LastLine("x");
  }

  lemma OldLineReads(key: string, v: string)
    requires IsKey(key) && IsValue(v)
    ensures var l := See(key, CoreVersion.CoreLine(key, v) + "\U{0b}");
            l.version == Some(v) && !IsHeader(l.text) && l.open
  {
    var x := CoreVersion.CoreLine(key, v);
    SettingIsSeen(key, "", v, "\U{0b}");
    assert "" + x + "\U{0b}" == x + "\U{0b}";
    OpenLines(x + "\U{0b}");
  }

  // --- The loops ---

  /** `parse_pyproject_section_version`. */
  method ParseSectionVersion(key: string, section: string, text: string) returns (r: Option<string>)
    ensures r == ParseSection(key, section, text)
  {
    hide IsHeader, SplitLines, Strip, LineVersion, Newline;
    var lines := SplitLines(text);
    var inside := false;
    ghost var seen := SeeAll(Seeing(key), lines);
    for i := 0 to |lines|
      invariant ParseSection(key, section, text) == Version(Scan(section, seen[i..], inside))
    {
      var line := Strip(lines[i]);
      assert seen[i] == See(key, lines[i]) && seen[i..][1..] == seen[i + 1..];
      if line == section { inside := true; continue; }
      if IsHeader(line) { inside := false; continue; }
      if !inside { continue; }
      var v := LineVersion(key, line);
      if v.Some? { return v; }
    }
    r := None;
  }

  /** `replace_section_version`. */
  method ReplaceSectionVersion(key: string, section: string, text: string, v: string) returns (r: Option<string>)
    ensures r == ReplaceSection(key, section, text, v)
  {
    hide IsHeader, SplitLines, Strip, LineVersion, Newline, NewLine;
    var lines := SplitLines(text);
    var inside, replaced := false, false;
    ghost var was := lines;
    ghost var seen := SeeAll(Seeing(key), was);
    ghost var found := Scan(section, seen, false);
    var i := 0;
    while i < |lines| && !replaced
      invariant i <= |lines| == |was|
      invariant !replaced ==> lines == was && found == Later(Scan(section, seen[i..], inside), i)
      invariant replaced ==> found.Some? && lines == was[found.value.line := NewLine(key, was[found.value.line], v)]
    {
      var stripped := Strip(lines[i]);
      assert seen[i] == See(key, lines[i]);
      NextSeen(section, seen, i, inside);
      if stripped == section {
        inside := true;
      } else if IsHeader(stripped) {
        inside := false;
      } else if inside && LineVersion(key, stripped).Some? {
        lines := lines[i := NewLine(key, lines[i], v)];
        replaced := true;
      }
      i := i + 1;
    }
    r := if replaced then Some(Join(lines)) else None;
  }

  /** One step of the scan. */
  lemma NextSeen(section: string, seen: seq<Seen>, i: nat, inside: bool)
    requires i < |seen|
    ensures Later(Scan(section, seen[i..], inside), i) ==
            if Sets(section, seen[i], inside) then Some(Found(i, seen[i].version.value))
            else Later(Scan(section, seen[i + 1..], Inside(section, seen[i].text, inside)), i + 1)
  {
  }
}
