/** The incremental reader of server-sent events: a buffer that is cut into lines as pieces
    arrive. The format is a simplified form of section 9.2.6 of the WHATWG HTML Standard. */
module Sse {
  import opened Text

  /** What a JSON payload contributes: the `content` of its first delta, or nothing. */
  type Decoder = string -> string

  const PREFIX := "data:"

  /** The text that a payload contributes. */
  function PayloadContent(decode: Decoder, payload: string): string {
    if payload == "" || payload == "[DONE]" then "" else decode(payload)
  }

  /** The text that one line contributes. */
  function LineContent(decode: Decoder, line: string): string {
    var stripped := Strip(line);
    if !StartsWith(stripped, PREFIX) then "" else PayloadContent(decode, Strip(stripped[|PREFIX|..]))
  }

  /** White space around a line and around its payload does not matter. */
  lemma StripIs(s: string, a: string, r: string, b: string)
    requires s == a + r + b && Blank(a) && Blank(b)
    requires r != "" ==> !IsSpace(r[0]) && !IsSpace(r[|r| - 1])
    ensures Strip(s) == r
  {
    if r == "" {
      assert Blank(s);
      RStripIs(s, "", s);
    } else {
      RStripIs(s, a + r, b);
      LStripIs(a + r, a, r);
    }
  }

  lemma PrefixIsCut(decode: Decoder, line: string, rest: string)
    requires Strip(line) == PREFIX + rest
    ensures LineContent(decode, line) == PayloadContent(decode, Strip(rest))
  {
    assert (PREFIX + rest)[..|PREFIX|] == PREFIX;
    assert (PREFIX + rest)[|PREFIX|..] == rest;
  }

  /** A line that holds a payload contributes what is decoded from it, but the end mark contributes nothing. */
  lemma DataLineIsDecoded(decode: Decoder, a: string, b: string, payload: string, c: string)
    requires Blank(a) && Blank(b) && Blank(c)
    requires payload != "" && !IsSpace(payload[0]) && !IsSpace(payload[|payload| - 1])
    ensures LineReader(decode)(a + (PREFIX + (b + payload)) + c) ==
            if payload == "[DONE]" then "" else decode(payload)
  {
    hide Strip, LineContent, Blank;
    var line := PREFIX + (b + payload);
    EndsAlike(PREFIX + b, payload, line);
    assert line[0] == PREFIX[0];
    StripIs(a + line + c, a, line, c);
    PrefixIsCut(decode, a + line + c, b + payload);
    assert b + payload + "" == b + payload;
    NothingIsBlank();
    StripIs(b + payload, b, payload, "");
  }

  lemma NothingIsBlank()
    ensures Blank("")
  {
  }

  lemma EndsAlike(a: string, b: string, line: string)
    requires b != "" && line == a + b
    ensures line[|line| - 1] == b[|b| - 1]
  {
  }

  /** The prefix, after white space alone, and more than white space behind it. */
  ghost predicate HoldsData(line: string) {
    exists a, b: string :: Blank(a) && !Blank(b) && line == a + (PREFIX + b)
  }

  /** Any other line contributes nothing. */
  lemma OtherLinesAreEmpty(decode: Decoder, line: string)
    requires !HoldsData(line)
    ensures LineReader(decode)(line) == ""
  {
    hide Strip, HoldsData;
    var stripped := Strip(line);
    if StartsWith(stripped, PREFIX) {
      var rest := stripped[|PREFIX|..];
      assert stripped == PREFIX + rest;
      if rest == "" {
        PrefixIsCut(decode, line, "");
        StripIs("", "", "", "");
      } else {
        DataIsHeld(line, rest);
      }
    }
  }

  lemma DataIsHeld(line: string, rest: string)
    requires Strip(line) == PREFIX + rest && rest != ""
    ensures HoldsData(line)
  {
    hide Strip;
    var a, c := StripCuts(line);
    EndsAlike(PREFIX, rest, Strip(line));
    assert (rest + c)[|rest| - 1] == rest[|rest| - 1];
    assert line == a + (PREFIX + (rest + c));
  }

  /** What `strip` takes off is white space at both ends. */
  lemma StripCuts(s: string) returns (a: string, c: string)
    ensures s == a + Strip(s) + c && Blank(a) && Blank(c)
  {
    var r := RStrip(s);
    a, c := Lead(r), s[|r|..];
  }

  function LineReader(decode: Decoder): string -> string {
    line => LineContent(decode, line)
  }

  /** What a list of lines contributes, for any reading of single lines: one after another. */
  function Content(read: string -> string, lines: seq<string>): string {
    if lines == [] then "" else read(lines[0]) + Content(read, lines[1..])
  }

  // --- Lines ---

  /** The index of the first newline, or -1. */
  function Newline(text: string): (r: int)
    ensures -1 <= r < |text|
    ensures r >= 0 ==> text[r] == '\n'
    ensures forall j :: 0 <= j < (if r < 0 then |text| else r) ==> text[j] != '\n'
  {
    if text == [] then -1
    else if text[0] == '\n' then 0
    else
      var r := Newline(text[1..]);
      if r < 0 then -1 else r + 1
  }

  /** The lines that a newline ends. */
  function CompleteLines(text: string): seq<string>
    decreases |text|
  {
    var i := Newline(text);
    if i < 0 then [] else [text[..i]] + CompleteLines(text[i + 1..])
  }

  /** What follows the last newline. */
  function Tail(text: string): string
    decreases |text|
  {
    var i := Newline(text);
    if i < 0 then text else Tail(text[i + 1..])
  }

  function Unlines(lines: seq<string>): string {
    if lines == [] then [] else lines[0] + ['\n'] + Unlines(lines[1..])
  }

  lemma Assoc<T>(a: seq<T>, b: seq<T>, c: seq<T>)
    ensures a + (b + c) == a + b + c
  {
  }

  /** The lines and the tail are the text. */
  lemma {:induction false} LinesAndTail(text: string)
    ensures Unlines(CompleteLines(text)) + Tail(text) == text
    decreases |text|
  {
    var i := Newline(text);
    if i >= 0 {
      var rest := text[i + 1..];
      LinesAndTail(rest);
      CutFirst(text, i);
      LineBack(text[..i], CompleteLines(rest), Tail(rest), rest);
      AroundNewline(text, i);
    } else {
      assert Unlines([]) + text == text;
    }
  }

  lemma AroundNewline(text: string, i: nat)
    requires i < |text| && text[i] == '\n'
    ensures text == text[..i] + ['\n'] + text[i + 1..]
  {
  }

  lemma LineBack(line: string, lines: seq<string>, tail: string, rest: string)
    requires Unlines(lines) + tail == rest
    ensures Unlines([line] + lines) + tail == line + ['\n'] + rest
  {
    assert ([line] + lines)[1..] == lines;
    Assoc(line + ['\n'], Unlines(lines), tail);
  }

  /** The cuts are at every newline: none is left inside a line or in the tail. */
  lemma {:induction false} NoNewlineInside(text: string)
    ensures forall j :: 0 <= j < |Tail(text)| ==> Tail(text)[j] != '\n'
    ensures forall k, j :: 0 <= k < |CompleteLines(text)| && 0 <= j < |CompleteLines(text)[k]| ==>
              CompleteLines(text)[k][j] != '\n'
    decreases |text|
  {
    var i := Newline(text);
    if i >= 0 {
      NoNewlineInside(text[i + 1..]);
      OneMoreLine(text[..i], CompleteLines(text[i + 1..]));
    }
  }

  lemma OneMoreLine(line: string, lines: seq<string>)
    requires forall j :: 0 <= j < |line| ==> line[j] != '\n'
    requires forall k, j :: 0 <= k < |lines| && 0 <= j < |lines[k]| ==> lines[k][j] != '\n'
    ensures forall k, j :: 0 <= k < |[line] + lines| && 0 <= j < |([line] + lines)[k]| ==>
              ([line] + lines)[k][j] != '\n'
  {
    var all := [line] + lines;
    assert forall k :: 0 < k < |all| ==> all[k] == lines[k - 1];
  }

  lemma NewlineIsUnique(text: string, i: int)
    requires 0 <= i < |text| && text[i] == '\n' && forall j :: 0 <= j < i ==> text[j] != '\n'
    ensures Newline(text) == i
  {
  }

  /** Cutting an extended text only needs the tail of what came before. */
  lemma {:induction false} LinesOfExtension(a: string, b: string)
    ensures CompleteLines(a + b) == CompleteLines(a) + CompleteLines(Tail(a) + b)
    ensures Tail(a + b) == Tail(Tail(a) + b)
    decreases |a|
  {
    hide Newline, CompleteLines, Tail;
    var i := Newline(a);
    if i >= 0 {
      var rest := a[i + 1..];
      LinesOfExtension(rest, b);
      FirstLineOfExtension(a, b);
      Assoc([a[..i]], CompleteLines(rest), CompleteLines(Tail(rest) + b));
      CutFirst(a, i);
      CutFirst(a + b, i);
    } else {
      NoLines(a);
      assert [] + CompleteLines(a + b) == CompleteLines(a + b);
    }
  }

  lemma NoLines(text: string)
    requires Newline(text) < 0
    ensures CompleteLines(text) == [] && Tail(text) == text
  {
  }

  lemma CutFirst(text: string, i: nat)
    requires Newline(text) == i
    ensures CompleteLines(text) == [text[..i]] + CompleteLines(text[i + 1..])
    ensures Tail(text) == Tail(text[i + 1..])
  {
    hide Newline;
    assert Newline(text) >= 0;
  }

  lemma FirstLineOfExtension(a: string, b: string)
    requires Newline(a) >= 0
    ensures Newline(a + b) == Newline(a)
    ensures (a + b)[..Newline(a)] == a[..Newline(a)]
    ensures (a + b)[Newline(a) + 1..] == a[Newline(a) + 1..] + b
  {
    NewlineIsUnique(a + b, Newline(a));
    SplitAppend(a, b, Newline(a));
    SplitAppend(a, b, Newline(a) + 1);
  }

  lemma SplitAppend(a: string, b: string, i: nat)
    requires i <= |a|
    ensures (a + b)[..i] == a[..i] && (a + b)[i..] == a[i..] + b
  {
  }

  lemma ContentOfOne(read: string -> string, line: string)
    ensures Content(read, [line]) == read(line)
  {
    assert read(line) + "" == read(line);
  }

  lemma {:induction false} ContentAppend(read: string -> string, a: seq<string>, b: seq<string>)
    ensures Content(read, a + b) == Content(read, a) + Content(read, b)
  {
    if a == [] {
      assert a + b == b;
    } else {
      ContentAppend(read, a[1..], b);
      assert (a + b)[1..] == a[1..] + b;
      Assoc(read(a[0]), Content(read, a[1..]), Content(read, b));
    }
  }

  // --- The reader ---

  function Joined(pieces: seq<string>): string {
    if pieces == [] then "" else Joined(pieces[..|pieces| - 1]) + pieces[|pieces| - 1]
  }

  lemma JoinedOne(piece: string)
    ensures Joined([piece]) == piece
  {
    assert [piece][..0] == [];
    assert "" + piece == piece;
  }

  /** Drain the complete lines of the buffer into the assembled content. */
  method DrainBuffer(read: string -> string, full: string, buffer: string) returns (newFull: string, newBuffer: string)
    ensures newFull == full + Content(read, CompleteLines(buffer))
    ensures newBuffer == Tail(buffer)
  {
    hide Newline, Content;
    newFull, newBuffer := full, buffer;
    var i := Newline(newBuffer);
    while i >= 0
      invariant i == Newline(newBuffer)
      invariant newFull + Content(read, CompleteLines(newBuffer)) == full + Content(read, CompleteLines(buffer))
      invariant Tail(newBuffer) == Tail(buffer)
      decreases |newBuffer|
    {
      ContentStep(read, newFull, newBuffer);
      CutFirst(newBuffer, i);
      newFull, newBuffer := newFull + read(newBuffer[..i]), newBuffer[i + 1..];
      i := Newline(newBuffer);
    }
    NoContent(read, newFull, newBuffer);
  }

  lemma NoContent(read: string -> string, full: string, buffer: string)
    requires Newline(buffer) < 0
    ensures full + Content(read, CompleteLines(buffer)) == full && Tail(buffer) == buffer
  {
  }

  lemma ContentStep(read: string -> string, full: string, buffer: string)
    requires Newline(buffer) >= 0
    ensures var i := Newline(buffer);
            full + Content(read, CompleteLines(buffer)) ==
            (full + read(buffer[..i])) + Content(read, CompleteLines(buffer[i + 1..]))
  {
    var i := Newline(buffer);
    var rest := CompleteLines(buffer[i + 1..]);
    assert ([buffer[..i]] + rest)[1..] == rest;
    Assoc(full, read(buffer[..i]), Content(read, rest));
  }

  /** The reader, for any reading of single lines: what it assembles is the fold over the complete
      lines of everything that arrived, and its buffer is the newline-free tail. */
  method Assemble(read: string -> string, pieces: seq<string>) returns (full: string, buffer: string)
    ensures full == Content(read, CompleteLines(Joined(pieces)))
    ensures buffer == Tail(Joined(pieces))
  {
    full, buffer := "", "";
    assert Joined(pieces[..0]) == "";
    for k := 0 to |pieces|
      invariant full == Content(read, CompleteLines(Joined(pieces[..k])))
      invariant buffer == Tail(Joined(pieces[..k]))
    {
      ghost var before := Joined(pieces[..k]);
      assert pieces[..k + 1][..k] == pieces[..k];
      LinesOfExtension(before, pieces[k]);
      ContentAppend(read, CompleteLines(before), CompleteLines(Tail(before) + pieces[k]));
      full, buffer := DrainBuffer(read, full, buffer + pieces[k]);
    }
    assert pieces[..|pieces|] == pieces;
  }

  /** The content of a streamed reply depends only on the decoded text, not on its pieces. */
  method ReadStream(decode: Decoder, pieces: seq<string>) returns (full: string)
    ensures full == Content(LineReader(decode), CompleteLines(Joined(pieces)))
  {
    var buffer;
    full, buffer := Assemble(LineReader(decode), pieces);
  }

  /** Cutting a piece in two does not change what the reader depends on. */
  lemma ChunkingDoesNotMatter(pieces: seq<string>, cut: nat, piece: string, at: nat)
    requires cut <= |pieces| && at <= |piece|
    ensures Joined(pieces[..cut] + [piece[..at], piece[at..]] + pieces[cut..]) ==
              Joined(pieces[..cut] + [piece] + pieces[cut..])
  {
    JoinedAppend(pieces[..cut] + [piece[..at], piece[at..]], pieces[cut..]);
    JoinedAppend(pieces[..cut] + [piece], pieces[cut..]);
    JoinedAppend(pieces[..cut], [piece[..at], piece[at..]]);
    JoinedAppend(pieces[..cut], [piece]);
    assert [piece[..at], piece[at..]][..1] == [piece[..at]];
    assert piece[..at] + piece[at..] == piece;
    assert Joined([piece[..at], piece[at..]]) == "" + piece[..at] + piece[at..] == piece;
    JoinedOne(piece);
  }

  lemma {:induction false} JoinedAppend(a: seq<string>, b: seq<string>)
    ensures Joined(a + b) == Joined(a) + Joined(b)
  {
    if b == [] {
      assert a + b == a;
    } else {
      JoinedAppend(a, b[..|b| - 1]);
      assert (a + b)[..|a + b| - 1] == a + b[..|b| - 1];
    }
  }
}
