/** `str.splitlines(keepends=True)`, and replacing one line of a text. */
module TextLines {
  import opened Text

  /** The characters that end a line. */
  predicate IsBreak(c: char) {
    var n := c as int;
    0x0a <= n <= 0x0d || 0x1c <= n <= 0x1e || n == 0x85 || n == 0x2028 || n == 0x2029
  }

  predicate NoBreak(s: string) {
    forall i :: 0 <= i < |s| ==> !IsBreak(s[i])
  }

  /** The length of the first line with its end; "\r\n" is one end. */
  function LineEnd(s: string): (n: nat)
    ensures n <= |s| && (s != "" ==> n > 0)
  {
    if s == "" then 0
    else if IsBreak(s[0]) then if s[0] == '\r' && |s| > 1 && s[1] == '\n' then 2 else 1
    else 1 + LineEnd(s[1..])
  }

  function SplitLines(s: string): seq<string> {
    if s == "" then [] else [s[..LineEnd(s)]] + SplitLines(s[LineEnd(s)..])
  }

  /** `"".join(lines)`. */
  function Join(lines: seq<string>): string {
    if lines == [] then "" else lines[0] + Join(lines[1..])
  }

  lemma {:induction false} JoinOfSplit(s: string)
    ensures Join(SplitLines(s)) == s
  {
    if s != "" {
      var rest := s[LineEnd(s)..];
      JoinOfSplit(rest);
      assert SplitLines(s)[1..] == SplitLines(rest);
    }
  }

  /** One line and no more, with or without its end. */
  predicate IsLine(l: string) {
    l != "" && LineEnd(l) == |l|
  }

  /** A line that ends in a newline. */
  predicate Closed(l: string) {
    IsLine(l) && l[|l| - 1] == '\n'
  }

  lemma {:induction false} FirstIsLine(s: string)
    requires s != ""
    ensures IsLine(s[..LineEnd(s)])
  {
    if !IsBreak(s[0]) && s[1..] != "" {
      FirstIsLine(s[1..]);
      assert s[..LineEnd(s)][1..] == s[1..][..LineEnd(s[1..])];
    }
  }

  lemma {:induction false} EveryLineIsLine(s: string, i: nat)
    requires i < |SplitLines(s)|
    ensures IsLine(SplitLines(s)[i])
  {
    FirstIsLine(s);
    if i > 0 { EveryLineIsLine(s[LineEnd(s)..], i - 1); }
  }

  lemma {:induction false} ClosedEndsThere(l: string, x: string)
    requires Closed(l)
    ensures LineEnd(l + x) == |l|
  {
    if !IsBreak(l[0]) {
      ClosedEndsThere(l[1..], x);
      assert (l + x)[1..] == l[1..] + x;
    }
  }

  /** A line ends where it did unless what follows now begins with a newline that could join its end. */
  lemma {:induction false} EndStays(l: string, x: string, y: string)
    requires l != "" && LineEnd(l + x) == |l| && x != "" && y != "" && (y[0] == '\n' ==> x[0] == '\n')
    ensures LineEnd(l + y) == |l|
  {
    if |l| == 1 {
      assert (l + x)[1..] == x;
      assert (l + y)[1] == y[0] && (l + x)[1] == x[0];
    } else if !IsBreak(l[0]) {
      assert (l + x)[1..] == l[1..] + x && (l + y)[1..] == l[1..] + y;
      EndStays(l[1..], x, y);
    }
  }

  /** A line that can take the place of line `i`: the last one may be open, any other is closed. */
  predicate Fits(lines: seq<string>, i: nat, l: string)
    requires i < |lines|
  {
    IsLine(l) && l[0] != '\n' && (i < |lines| - 1 ==> Closed(l))
  }

  lemma SplitFirst(l: string, rest: string)
    requires l != "" && LineEnd(l + rest) == |l|
    ensures SplitLines(l + rest) == [l] + SplitLines(rest)
  {
  }

  /** Replacing a line by one that fits changes that line and no other. */
  lemma {:induction false} ReplacedLines(s: string, i: nat, l: string)
    requires i < |SplitLines(s)| && Fits(SplitLines(s), i, l)
    ensures SplitLines(Join(SplitLines(s)[i := l])) == SplitLines(s)[i := l]
    decreases i
  {
    hide Closed, IsLine;
    var first, rest := s[..LineEnd(s)], s[LineEnd(s)..];
    var tail := SplitLines(rest);
    assert SplitLines(s) == [first] + tail && first + rest == s;
    JoinOfSplit(rest);
    ConsReplaced(first, tail, i, l);
    if i == 0 {
      ReplacedFirst(l, rest);
    } else {
      assert l != "" by { LineIsNonempty(l); }
      ReplacedLines(rest, i - 1, l);
      LaterStays(first, rest, i - 1, l);
    }
  }

  lemma LineIsNonempty(l: string)
    requires IsLine(l)
    ensures l != ""
  {
  }

  lemma ConsReplaced(first: string, tail: seq<string>, i: nat, l: string)
    requires i <= |tail|
    ensures i == 0 ==> ([first] + tail)[i := l] == [l] + tail && Join([l] + tail) == l + Join(tail)
    ensures i > 0 ==> ([first] + tail)[i := l] == [first] + tail[i - 1 := l]
    ensures i > 0 ==> Join([first] + tail[i - 1 := l]) == first + Join(tail[i - 1 := l])
  {
  }

  lemma ReplacedFirst(l: string, rest: string)
    requires IsLine(l) && (rest != "" ==> Closed(l))
    ensures SplitLines(l + rest) == [l] + SplitLines(rest)
  {
    if rest == "" { assert l + rest == l; } else { ClosedEndsThere(l, rest); }
    SplitFirst(l, rest);
  }

  /** Changing a later line leaves the first one as it is. */
  lemma LaterStays(first: string, rest: string, i: nat, l: string)
    requires i < |SplitLines(rest)| && first != "" && LineEnd(first + rest) == |first| && l != "" && l[0] != '\n'
    ensures var now := Join(SplitLines(rest)[i := l]);
            SplitLines(first + now) == [first] + SplitLines(now)
  {
    var tail' := SplitLines(rest)[i := l];
    FirstCharStays(rest, tail', i, l);
    EndStays(first, rest, Join(tail'));
    SplitFirst(first, Join(tail'));
  }

  lemma FirstCharStays(rest: string, tail': seq<string>, i: nat, l: string)
    requires i < |SplitLines(rest)| && tail' == SplitLines(rest)[i := l] && l != "" && l[0] != '\n'
    ensures rest != "" && Join(tail') != "" && (Join(tail')[0] == '\n' ==> rest[0] == '\n')
  {
  }

  /** The lines with an open line in place of line `i`. */
  function Merged(lines: seq<string>, i: nat, l: string): seq<string>
    requires i + 1 < |lines|
  {
    lines[..i] + [l + lines[i + 1]] + lines[i + 2..]
  }

  /** A line rewritten without a line end takes in the line after it. */
  lemma {:induction false} MergedLines(s: string, i: nat, l: string)
    requires i + 1 < |SplitLines(s)| && l != "" && NoBreak(l)
    ensures SplitLines(Join(SplitLines(s)[i := l])) == Merged(SplitLines(s), i, l)
    decreases i
  {
    hide NoBreak, Merged;
    var first, rest := s[..LineEnd(s)], s[LineEnd(s)..];
    var tail := SplitLines(rest);
    assert SplitLines(s) == [first] + tail && first + rest == s;
    JoinOfSplit(rest);
    if i == 0 {
      ConsReplaced(first, tail, i, l);
      MergedFirst(first, l, rest);
    } else {
      MergedLines(rest, i - 1, l);
      ConsUpdated(first, tail, i - 1, l);
      BodyBegins(l);
      LaterStays(first, rest, i - 1, l);
    }
  }

  lemma BodyBegins(l: string)
    requires l != "" && NoBreak(l)
    ensures l[0] != '\n'
  {
  }

  lemma ConsUpdated(first: string, tail: seq<string>, i: nat, l: string)
    requires i + 1 < |tail|
    ensures Merged([first] + tail, i + 1, l) == [first] + Merged(tail, i, l)
    ensures Join(([first] + tail)[i + 1 := l]) == first + Join(tail[i := l])
  {
  }

  lemma MergedFirst(first: string, l: string, rest: string)
    requires rest != "" && l != "" && NoBreak(l)
    ensures SplitLines(l + rest) == Merged([first] + SplitLines(rest), 0, l)
  {
    var n := LineEnd(rest);
    EndAfterBody(l, rest);
    assert l + rest == l + rest[..n] + rest[n..];
    SplitFirst(l + rest[..n], rest[n..]);
  }

  // --- The text of a line ---

  /** A line without its end. */
  function Body(l: string): (b: string)
    ensures |b| <= |l| && b == l[..|b|] && NoBreak(b)
  {
    if l == "" || IsBreak(l[0]) then "" else [l[0]] + Body(l[1..])
  }

  lemma {:induction false} EndIsBlank(l: string)
    requires IsLine(l)
    ensures Blank(l[|Body(l)|..])
  {
    if !IsBreak(l[0]) && |l| > 1 {
      EndIsBlank(l[1..]);
      assert l[|Body(l)|..] == l[1..][|Body(l[1..])|..];
    }
  }

  lemma StripsTo(w: string, x: string, e: string)
    requires Blank(w) && Blank(e) && x != "" && !IsSpace(x[0]) && !IsSpace(x[|x| - 1])
    ensures Strip(w + x + e) == x && LStrip(w + x + e) == x + e
  {
    RStripIs(w + x + e, w + x, e);
    LStripIs(w + x, w, x);
    assert w + x + e == w + (x + e);
    LStripIs(w + x + e, w, x + e);
  }

  lemma RStripWith(body: string, end: string)
    requires Blank(end)
    ensures RStrip(body + end) == RStrip(body)
  {
    var r := RStrip(body);
    assert body + end == r + (body[|r|..] + end);
    RStripIs(body + end, r, body[|r|..] + end);
  }

  /** Stripping a line also takes its end off: it strips like its body. */
  lemma EndIsStripped(body: string, end: string)
    requires Blank(end)
    ensures Strip(body + end) == Strip(body)
  {
    RStripWith(body, end);
  }

  lemma StripHasNoBreak(l: string)
    requires IsLine(l)
    ensures NoBreak(Strip(l))
  {
    var b := Body(l);
    EndIsBlank(l);
    assert l == b + l[|b|..];
    EndIsStripped(b, l[|b|..]);
    var r := RStrip(b);
    assert Strip(b) == r[|r| - |LStrip(r)|..];
  }

  lemma LeadWithin(l: string, n: nat)
    requires n <= |l| && Blank(l[n..]) && LStrip(l) != ""
    ensures |Lead(l)| < n
  {
  }

  /** The indentation of a line that is not blank has no break in it. */
  lemma LeadHasNoBreak(l: string)
    requires IsLine(l) && LStrip(l) != ""
    ensures NoBreak(Lead(l))
  {
    var b, w := Body(l), Lead(l);
    EndIsBlank(l);
    LeadWithin(l, |b|);
    assert forall k :: 0 <= k < |w| ==> w[k] == b[k];
  }

  lemma {:induction false} EndAfterBody(a: string, e: string)
    requires NoBreak(a)
    ensures LineEnd(a + e) == |a| + LineEnd(e)
  {
    if a == "" {
      assert a + e == e;
    } else {
      assert (a + e)[1..] == a[1..] + e;
      EndAfterBody(a[1..], e);
    }
  }

  /** A text without breaks and one of the ends that are written make a line. */
  lemma MakesLine(a: string, e: string)
    requires a != "" && NoBreak(a) && (e == "" || e == "\n" || e == "\r\n")
    ensures IsLine(a + e) && (a + e)[0] != '\n' && (e != "" ==> Closed(a + e))
  {
    EndAfterBody(a, e);
    assert (a + e)[0] == a[0];
    if e != "" { assert (a + e)[|a + e| - 1] == e[|e| - 1]; }
  }

  lemma NoBreakParts(a: string, b: string)
    requires NoBreak(a) && NoBreak(b)
    ensures NoBreak(a + b)
  {
  }
}
