/** `NAME = "value"` assignments, and the VERSION assignment of the version file: found, read and
    replaced by a regular expression whose `\s*` runs over line ends. */
module CoreVersion {
  import opened Wrappers
  import opened Text
  import opened LineSearch

  // --- Assignments ---

  /** `\s*c`: what follows it. */
  function Step(c: char, s: string): (r: Option<string>)
    ensures r.Some? ==> |r.value| < |s|
  {
    var r := LStrip(s);
    if r == "" || r[0] != c then None else Some(r[1..])
  }

  /** `key\s*=\s*"`: what follows the opening quote. */
  function AfterQuote(key: string, s: string): (r: Option<string>)
    ensures r.Some? ==> |r.value| < |s|
  {
    if !StartsWith(s, key) then None else
    var r := Step('=', s[|key|..]);
    if r.None? then None else Step('"', r.value)
  }

  datatype Assignment = Assignment(value: string, rest: string)

  /** `([^"]+)"` after its opening quote. */
  function Quoted(body: string): Option<Assignment> {
    var v := Until(body, '"');
    if v == "" || |v| == |body| then None else Some(Assignment(v, body[|v| + 1..]))
  }

  function Assigned(key: string, s: string): Option<Assignment> {
    var body := AfterQuote(key, s);
    if body.None? then None else Quoted(body.value)
  }

  /** `key\s*=\s*"` spelled out, and what follows it. */
  function Opened(key: string, ws1: string, ws2: string, body: string): string {
    key + (ws1 + (['='] + (ws2 + (['"'] + body))))
  }

  /** The whole assignment spelled out. */
  function Spelled(key: string, ws1: string, ws2: string, v: string, rest: string): string {
    Opened(key, ws1, ws2, v + (['"'] + rest))
  }

  lemma Parts(x: string, y: string)
    ensures (x + y)[..|x|] == x && (x + y)[|x|..] == y
  {
  }

  lemma StepIsSpelled(c: char, s: string)
    requires Step(c, s).Some?
    ensures Blank(Lead(s)) && s == Lead(s) + ([c] + Step(c, s).value)
  {
  }

  lemma SpelledIsStep(c: char, ws: string, body: string)
    requires Blank(ws) && !IsSpace(c)
    ensures Step(c, ws + ([c] + body)) == Some(body)
  {
    LStripIs(ws + ([c] + body), ws, [c] + body);
    Parts([c], body);
  }

  lemma QuotedIsSpelled(body: string)
    requires Quoted(body).Some?
    ensures var m := Quoted(body).value;
            m.value != "" && '"' !in m.value && body == m.value + (['"'] + m.rest)
  {
  }

  lemma OpenedBy(key: string, s: string)
    requires AfterQuote(key, s).Some?
    ensures exists ws1, ws2 :: Blank(ws1) && Blank(ws2) && s == Opened(key, ws1, ws2, AfterQuote(key, s).value)
  {
    hide IsSpace, Blank, Step;
    var tail := s[|key|..];
    var r := Step('=', tail).value;
    StepIsSpelled('=', tail);
    StepIsSpelled('"', r);
    assert s == key + tail;
    assert s == Opened(key, Lead(tail), Lead(r), AfterQuote(key, s).value);
  }

  /** What is found is spelled as the expression demands. */
  lemma AssignedIsSpelled(key: string, s: string)
    requires Assigned(key, s).Some?
    ensures exists ws1, ws2 ::
              && Blank(ws1) && Blank(ws2)
              && s == Spelled(key, ws1, ws2, Assigned(key, s).value.value, Assigned(key, s).value.rest)
    ensures Assigned(key, s).value.value != "" && '"' !in Assigned(key, s).value.value
  {
    OpenedBy(key, s);
    var body := AfterQuote(key, s).value;
    QuotedIsSpelled(body);
    var ws1, ws2 :| Blank(ws1) && Blank(ws2) && s == Opened(key, ws1, ws2, body);
    assert s == Spelled(key, ws1, ws2, Assigned(key, s).value.value, Assigned(key, s).value.rest);
  }

  lemma OpenedIsRead(key: string, ws1: string, ws2: string, body: string)
    requires Blank(ws1) && Blank(ws2)
    ensures AfterQuote(key, Opened(key, ws1, ws2, body)) == Some(body)
  {
    var r := ws2 + (['"'] + body);
    Parts(key, ws1 + (['='] + r));
    SpelledIsStep('=', ws1, r);
    SpelledIsStep('"', ws2, body);
  }

  lemma QuotedBody(v: string, rest: string)
    requires v != "" && '"' !in v
    ensures Quoted(v + (['"'] + rest)) == Some(Assignment(v, rest))
  {
    var body := v + (['"'] + rest);
    UntilIs(body, '"', v);
    assert body[|v| + 1..] == rest;
  }

  /** Whatever is spelled so is found, with just this value and this rest. */
  lemma SpelledIsAssigned(key: string, ws1: string, ws2: string, v: string, rest: string)
    requires Blank(ws1) && Blank(ws2) && v != "" && '"' !in v
    ensures Assigned(key, Spelled(key, ws1, ws2, v, rest)) == Some(Assignment(v, rest))
  {
    OpenedIsRead(key, ws1, ws2, v + (['"'] + rest));
    QuotedBody(v, rest);
  }

  // --- The tail `\s*$`, `$` standing before every newline ---

  /** What the longest `\s*$` leaves; None where it does not match. */
  function Tail(rest: string): Option<string> {
    if rest == "" then Some("")
    else if !IsSpace(rest[0]) then None
    else
      var longer := Tail(rest[1..]);
      if longer.Some? then longer else if rest[0] == '\n' then Some(rest) else None
  }

  /** Whether the tail matches does not depend on the text that follows some visible character. */
  lemma {:induction false} TailIsLocal(b: string, x: string, y: string)
    requires Visible(x) && Visible(y)
    ensures Tail(b + x).Some? == Tail(b + y).Some?
  {
    if b == "" {
      assert b + x == x && b + y == y;
    } else {
      TailIsLocal(b[1..], x, y);
      assert (b + x)[1..] == b[1..] + x && (b + y)[1..] == b[1..] + y;
    }
  }

  /** What is left starts a line or is empty, and the tail takes nothing more of it. */
  lemma {:induction false} TailIsStable(rest: string)
    requires Tail(rest).Some?
    ensures var post := Tail(rest).value;
            (post == "" || post[0] == '\n') && Tail(post) == Some(post)
  {
    if rest != "" && Tail(rest[1..]).Some? { TailIsStable(rest[1..]); }
  }

  /** The tail takes only whitespace. */
  lemma {:induction false} TailTakesBlank(rest: string) returns (blank: string)
    requires Tail(rest).Some?
    ensures Blank(blank) && rest == blank + Tail(rest).value
  {
    blank := "";
    if rest != "" && Tail(rest[1..]).Some? {
      var more := TailTakesBlank(rest[1..]);
      blank := [rest[0]] + more;
    }
  }

  // --- The VERSION assignment ---

  const VERSION := "VERSION"

  /** A match: its version and the text after it. */
  datatype Match = Match(version: string, post: string)

  /** The expression at the start of `s`. */
  function CoreMatch(key: string, s: string): Option<Match> {
    Ended(Assigned(key, s))
  }

  /** The assignment and its tail. */
  function Ended(a: Option<Assignment>): Option<Match> {
    if a.None? then None else
    var post := Tail(a.value.rest);
    if post.None? then None else Some(Match(a.value.value, post.value))
  }

  /** The expression as a test of the text from some place on. */
  function CoreTest(key: string): string -> bool {
    s => CoreMatch(key, s).Some?
  }

  function FindCore(key: string, text: string): Option<nat> {
    FirstHit(CoreTest(key), text)
  }

  /** `parse_core_version`; None where it raises. */
  function ParseCore(key: string, text: string): Option<string> {
    var i := FindCore(key, text);
    if i.None? then None else Some(CoreMatch(key, text[i.value..]).value.version)
  }

  function CoreLine(key: string, v: string): string {
    key + " = " + ['"'] + v + ['"']
  }

  /** `replace_core_version`; None where it raises. */
  function ReplaceCore(key: string, text: string, v: string): Option<string> {
    var i := FindCore(key, text);
    if i.None? then None
    else Some(text[..i.value] + (CoreLine(key, v) + CoreMatch(key, text[i.value..]).value.post))
  }

  /** A value that can stand in the assignment and does not begin with whitespace. */
  predicate Quotable(v: string) {
    v != "" && '"' !in v && !IsSpace(v[0])
  }

  /** A key, as VERSION is: one line, no quote, not beginning with whitespace or `=`. */
  predicate IsKey(key: string) {
    Visible(key) && key[0] != '=' && '"' !in key && '\n' !in key
  }

  lemma CoreLineIsSpelled(key: string, v: string, post: string)
    ensures CoreLine(key, v) + post == Spelled(key, " ", " ", v, post)
  {
  }

  lemma CoreLineMatches(key: string, v: string, rest: string, post: string)
    requires Quotable(v) && Tail(rest) == Some(post)
    ensures CoreMatch(key, CoreLine(key, v) + rest) == Some(Match(v, post))
  {
    CoreLineIsSpelled(key, v, rest);
    assert Blank(" ");
    SpelledIsAssigned(key, " ", " ", v, rest);
  }

  /** Text that begins with the key. */
  predicate Keyed(key: string, x: string) {
    |x| >= |key| > 0 && x[0] == key[0]
  }

  lemma LStripIsLocal(a: string, x: string)
    requires Visible(x)
    ensures LStrip(a + x) == LStrip(a) + x
  {
    var r := LStrip(a);
    assert a + x == Lead(a) + (r + x);
    LStripIs(a + x, Lead(a), r + x);
  }

  lemma StepIsLocal(c: char, a: string, x: string)
    requires Visible(x) && x[0] != c
    ensures Step(c, a + x) == if Step(c, a).Some? then Some(Step(c, a).value + x) else None
  {
    LStripIsLocal(a, x);
    AfterFirst(LStrip(a), x);
  }

  lemma AfterFirst(r: string, x: string)
    ensures r != "" ==> (r + x)[0] == r[0] && (r + x)[1..] == r[1..] + x
    ensures r == "" ==> r + x == x
  {
  }

  lemma StartIsLocal(key: string, a: string, x: string)
    requires a != "" && a[|a| - 1] == '\n' && '\n' !in key
    ensures StartsWith(a + x, key) == StartsWith(a, key)
    ensures StartsWith(a, key) ==> (a + x)[|key|..] == a[|key|..] + x
  {
    if |key| <= |a| {
      assert (a + x)[..|key|] == a[..|key|];
    } else {
      assert (a + x)[|a| - 1] == '\n' && key[|a| - 1] != '\n';
    }
  }

  /** Up to the opening quote, a match at a line start before `x` depends only on what stands
      before `x`, when `x` begins a line with the key. */
  lemma AfterQuoteIsLocal(key: string, a: string, x: string)
    requires a != "" && a[|a| - 1] == '\n' && IsKey(key) && Keyed(key, x)
    ensures AfterQuote(key, a + x) == if AfterQuote(key, a).Some? then Some(AfterQuote(key, a).value + x) else None
  {
    StartIsLocal(key, a, x);
    if StartsWith(a, key) {
      StepIsLocal('=', a[|key|..], x);
      if Step('=', a[|key|..]).Some? {
        StepIsLocal('"', Step('=', a[|key|..]).value, x);
      }
    }
  }

  lemma QuoteIsLocal(b: string, x: string)
    requires '"' in b
    ensures Until(b, '"') != "" ==> Quoted(b + x) == Some(Assignment(Until(b, '"'), b[|Until(b, '"')| + 1..] + x))
    ensures Until(b, '"') == "" ==> Quoted(b + x).None?
  {
    UntilInFirst(b, x, '"');
    var v := Until(b, '"');
    assert (b + x)[|v| + 1..] == b[|v| + 1..] + x;
  }

  /** A quote left open before the line runs to the line's own first quote, and there it fails. */
  lemma OpenQuoteFails(key: string, b: string, v: string, post: string)
    requires '"' !in b && IsKey(key) && Quotable(v)
    ensures Quoted(b + (CoreLine(key, v) + post)).Some?
    ensures Tail(Quoted(b + (CoreLine(key, v) + post)).value.rest).None?
  {
    var open := b + (key + " = ");
    var rest := v + (['"'] + post);
    OpenQuoteParts(key, b, v, post);
    QuotedBody(open, rest);
    assert rest[0] == v[0];
  }

  lemma OpenQuoteParts(key: string, b: string, v: string, post: string)
    ensures b + (CoreLine(key, v) + post) == (b + (key + " = ")) + (['"'] + (v + (['"'] + post)))
  {
  }

  /** The same after the opening quote. */
  lemma NoEarlierEnd(key: string, b: string, x: string, v: string, post: string)
    requires IsKey(key) && Visible(x) && Quotable(v) && Visible(CoreLine(key, v) + post)
    requires Ended(Quoted(b + x)).None?
    ensures Ended(Quoted(b + (CoreLine(key, v) + post))).None?
  {
    var y := CoreLine(key, v) + post;
    if '"' in b {
      QuoteIsLocal(b, x);
      QuoteIsLocal(b, y);
      if Until(b, '"') != "" { TailIsLocal(b[|Until(b, '"')| + 1..], x, y); }
    } else {
      OpenQuoteFails(key, b, v, post);
    }
  }

  /** Rewriting the line of the first match makes no earlier line start match. */
  lemma NoEarlierMatch(key: string, a: string, x: string, v: string, post: string)
    requires a != "" && a[|a| - 1] == '\n' && IsKey(key) && Keyed(key, x) && Quotable(v)
    requires CoreMatch(key, a + x).None?
    ensures CoreMatch(key, a + (CoreLine(key, v) + post)).None?
  {
    var y := CoreLine(key, v) + post;
    assert Keyed(key, y);
    AfterQuoteIsLocal(key, a, x);
    AfterQuoteIsLocal(key, a, y);
    if AfterQuote(key, a).Some? {
      NoEarlierEnd(key, AfterQuote(key, a).value, x, v, post);
    }
  }

  lemma MatchIsKeyed(key: string, s: string)
    requires CoreMatch(key, s).Some? && key != ""
    ensures Keyed(key, s)
  {
    assert s[..|key|] == key;
  }

  lemma EarlierStartsFail(key: string, text: string, i: nat, v: string, post: string)
    requires IsKey(key) && FindCore(key, text) == Some(i) && Quotable(v)
    ensures forall j: nat | j < i :: !Hit(CoreTest(key), text[..i] + (CoreLine(key, v) + post), j)
  {
    var x, y := text[i..], CoreLine(key, v) + post;
    assert CoreTest(key)(x);
    MatchIsKeyed(key, x);
    forall a | a != "" && a[|a| - 1] == '\n' && !CoreTest(key)(a + x) ensures !CoreTest(key)(a + y) {
      NoEarlierMatch(key, a, x, v, post);
    }
    NoneBefore(CoreTest(key), text, i, y);
  }

  /** The rewritten text: found at the same place, with the new version and the same text after. */
  lemma ReplacedCoreIsFound(key: string, text: string, v: string)
    requires IsKey(key) && FindCore(key, text).Some? && Quotable(v)
    ensures FindCore(key, ReplaceCore(key, text, v).value) == FindCore(key, text)
    ensures var i := FindCore(key, text).value;
            && ReplaceCore(key, text, v).value[..i] == text[..i]
            && CoreMatch(key, ReplaceCore(key, text, v).value[i..]) ==
                 Some(Match(v, CoreMatch(key, text[i..]).value.post))
  {
    var i := FindCore(key, text).value;
    var post := CoreMatch(key, text[i..]).value.post;
    var y := CoreLine(key, v) + post;
    var changed := text[..i] + y;
    assert ReplaceCore(key, text, v).value == changed;
    TailIsStable(Assigned(key, text[i..]).value.rest);
    CoreLineMatches(key, v, post, post);
    Parts(text[..i], y);
    EarlierStartsFail(key, text, i, v, post);
    SameLineStart(text, i, i, y);
    FirstIsFound(CoreTest(key), changed, i);
  }

  /** Reading back a replaced version file gives the new version. */
  lemma ReplacedCoreParses(key: string, text: string, v: string)
    requires IsKey(key) && Quotable(v)
    ensures ReplaceCore(key, text, v).Some? == ParseCore(key, text).Some?
    ensures ReplaceCore(key, text, v).Some? ==> ParseCore(key, ReplaceCore(key, text, v).value) == Some(v)
  {
    if FindCore(key, text).Some? { ReplacedCoreIsFound(key, text, v); }
  }

  /** What replacing takes away (blank lines after the assignment) it takes away once: replacing
      twice is replacing with the second version. */
  lemma ReplacingCoreTwice(key: string, text: string, v: string, w: string)
    requires IsKey(key) && FindCore(key, text).Some? && Quotable(v)
    ensures ReplaceCore(key, ReplaceCore(key, text, v).value, w) == ReplaceCore(key, text, w)
  {
    ReplacedCoreIsFound(key, text, v);
  }

  /** `text` holds `previous` and `changed` holds `v`, between the same text before and after, where
      `text` may have blank space before what comes after. */
  predicate Rewrites(key: string, text: string, previous: string, changed: string, v: string,
                     pre: string, ws1: string, ws2: string, blank: string, post: string) {
    && Blank(ws1) && Blank(ws2) && Blank(blank)
    && text == pre + Spelled(key, ws1, ws2, previous, blank + post)
    && changed == pre + (CoreLine(key, v) + post)
  }

  lemma MatchParts(key: string, s: string) returns (ws1: string, ws2: string, blank: string)
    requires CoreMatch(key, s).Some?
    ensures Blank(ws1) && Blank(ws2) && Blank(blank)
    ensures s == Spelled(key, ws1, ws2, CoreMatch(key, s).value.version, blank + CoreMatch(key, s).value.post)
  {
    var m := Assigned(key, s).value;
    AssignedIsSpelled(key, s);
    ws1, ws2 :| Blank(ws1) && Blank(ws2) && s == Spelled(key, ws1, ws2, m.value, m.rest);
    blank := TailTakesBlank(m.rest);
  }

  /** Replacing keeps the text before the assignment, and the text after the blank space behind it. */
  lemma ReplacingCoreKeepsTheRest(key: string, text: string, v: string)
    returns (pre: string, ws1: string, ws2: string, blank: string, post: string)
    requires FindCore(key, text).Some?
    ensures Rewrites(key, text, ParseCore(key, text).value, ReplaceCore(key, text, v).value, v,
                     pre, ws1, ws2, blank, post)
  {
    var i := FindCore(key, text).value;
    pre := text[..i];
    post := CoreMatch(key, text[i..]).value.post;
    ws1, ws2, blank := MatchParts(key, text[i..]);
    RewritesAt(key, text, i, ParseCore(key, text).value, v, ws1, ws2, blank, post);
  }

  lemma RewritesAt(key: string, text: string, i: nat, previous: string, v: string, ws1: string, ws2: string,
                   blank: string, post: string)
    requires i <= |text| && Blank(ws1) && Blank(ws2) && Blank(blank)
    requires text[i..] == Spelled(key, ws1, ws2, previous, blank + post)
    ensures Rewrites(key, text, previous, text[..i] + (CoreLine(key, v) + post), v, text[..i], ws1, ws2, blank, post)
  {
  }

  /** The tail matches where only blank space stands before the next newline or the end. */
  lemma {:induction false} TailMatches(s: string)
    ensures Tail(s).Some? <==> Blank(Until(s, '\n'))
  {
    if s != "" && s[0] != '\n' {
      TailMatches(s[1..]);
      assert Until(s, '\n') == [s[0]] + Until(s[1..], '\n');
      BlankCons(s[0], Until(s[1..], '\n'));
    }
  }

  lemma BlankCons(c: char, s: string)
    ensures Blank([c] + s) <==> IsSpace(c) && Blank(s)
  {
    assert ([c] + s)[0] == c;
    forall i | 0 <= i < |s| ensures ([c] + s)[i + 1] == s[i] {}
    if Blank([c] + s) {
      forall i | 0 <= i < |s| ensures IsSpace(s[i]) { assert ([c] + s)[i + 1] == s[i]; }
    }
  }

  /** Nothing follows, or the line ends right behind the assignment and the next line is not blank. */
  predicate Tight(rest: string) {
    rest == "" || (rest[0] == '\n' && !Blank(Until(rest[1..], '\n')))
  }

  lemma TailKeeps(rest: string)
    requires Tail(rest).Some?
    ensures Tail(rest).value == rest <==> Tight(rest)
  {
    if rest != "" {
      TailMatches(rest[1..]);
      if Tail(rest[1..]).Some? { var blank := TailTakesBlank(rest[1..]); }
    }
  }

  /** Replacing keeps all of the text behind the assignment if and only if no blank space is to be lost. */
  lemma KeepsAllExactly(key: string, text: string, v: string)
    requires FindCore(key, text).Some?
    ensures var i := FindCore(key, text).value;
            var rest := Assigned(key, text[i..]).value.rest;
            ReplaceCore(key, text, v) == Some(text[..i] + (CoreLine(key, v) + rest)) <==> Tight(rest)
  {
    var i := FindCore(key, text).value;
    var rest := Assigned(key, text[i..]).value.rest;
    var post := Tail(rest).value;
    TailKeeps(rest);
    Parts(text[..i], CoreLine(key, v) + rest);
    Parts(text[..i], CoreLine(key, v) + post);
    Parts(CoreLine(key, v), rest);
    Parts(CoreLine(key, v), post);
  }

  /** Blank lines after the assignment are lost. */
  lemma BlankLinesAreLost(key: string, v: string, next: string, x: string)
    requires IsKey(key) && Quotable(v) && Visible(x)
    ensures ReplaceCore(key, CoreLine(key, v) + ("\n\n" + x), next) == Some(CoreLine(key, next) + ("\n" + x))
  {
    var rest, post := "\n\n" + x, "\n" + x;
    TwoNewlines(x);
    CoreLineMatches(key, v, rest, post);
    var text, y := CoreLine(key, v) + rest, CoreLine(key, next) + post;
    assert text[0..] == text && text[..0] + y == y;
    FirstIsFound(CoreTest(key), text, 0);
  }

  lemma TwoNewlines(x: string)
    requires Visible(x)
    ensures Tail("\n\n" + x) == Some("\n" + x)
  {
    var rest, post := "\n\n" + x, "\n" + x;
    assert rest[1..] == post && post[1..] == x;
    assert Tail(x) == None;
    assert Tail(post) == Some(post);
  }
}
