/** The string operations of Python that the modelled files rely on, over `seq<char>`. */
module Text {

  /** `str.isspace` for one character. */
  predicate IsSpace(c: char) {
    var n := c as int;
    || 0x09 <= n <= 0x0d
    || 0x1c <= n <= 0x20
    || n == 0x85 || n == 0xa0 || n == 0x1680
    || 0x2000 <= n <= 0x200a
    || n == 0x2028 || n == 0x2029 || n == 0x202f || n == 0x205f || n == 0x3000
  }

  predicate Blank(s: string) {
    forall i :: 0 <= i < |s| ==> IsSpace(s[i])
  }

  predicate Visible(s: string) {
    s != "" && !IsSpace(s[0])
  }

  /** Where the whitespace at the end of `s[..n]` begins. */
  function TrailStart(s: string, n: nat): (k: nat)
    requires n <= |s|
    ensures k <= n && (k > 0 ==> !IsSpace(s[k - 1]))
    ensures forall i :: k <= i < n ==> IsSpace(s[i])
  {
    if n > 0 && IsSpace(s[n - 1]) then TrailStart(s, n - 1) else n
  }

  /** Where the whitespace from `n` on ends. */
  function LeadEnd(s: string, n: nat): (k: nat)
    requires n <= |s|
    ensures n <= k <= |s| && (k < |s| ==> !IsSpace(s[k]))
    ensures forall i :: n <= i < k ==> IsSpace(s[i])
    decreases |s| - n
  {
    if n < |s| && IsSpace(s[n]) then LeadEnd(s, n + 1) else n
  }

  /** `str.rstrip()`: the longest prefix that does not end in whitespace. */
  function RStrip(s: string): (r: string)
    ensures |r| <= |s| && r == s[..|r|]
    ensures r != [] ==> !IsSpace(r[|r| - 1])
    ensures forall i :: |r| <= i < |s| ==> IsSpace(s[i])
  {
    s[..TrailStart(s, |s|)]
  }

  /** `str.lstrip()`: the longest suffix that does not start with whitespace. */
  function LStrip(s: string): (r: string)
    ensures |r| <= |s| && r == s[|s| - |r|..]
    ensures r != [] ==> !IsSpace(r[0])
    ensures forall i :: 0 <= i < |s| - |r| ==> IsSpace(s[i])
  {
    s[LeadEnd(s, 0)..]
  }

  /** `str.strip()`. */
  function Strip(s: string): (r: string)
    ensures r != [] ==> !IsSpace(r[0]) && !IsSpace(r[|r| - 1])
    ensures |r| <= |s|
  {
    LStrip(RStrip(s))
  }

  lemma StripIdempotent(s: string)
    ensures Strip(Strip(s)) == Strip(s)
  {
  }

  /** `p` occurs in `s` at offset `i`. */
  predicate OccursAt(s: string, p: string, i: int) {
    0 <= i && i + |p| <= |s| && s[i..i + |p|] == p
  }

  predicate StartsWith(s: string, p: string) {
    OccursAt(s, p, 0)
  }

  ghost predicate Occurs(s: string, p: string) {
    exists i :: OccursAt(s, p, i)
  }

  function FindFrom(s: string, p: string, i: nat): (r: int)
    ensures r == -1 || (i <= r && OccursAt(s, p, r))
    ensures forall j :: i <= j && (r == -1 || j < r) ==> !OccursAt(s, p, j)
    decreases |s| - i
  {
    if i + |p| > |s| then -1
    else if OccursAt(s, p, i) then i
    else FindFrom(s, p, i + 1)
  }

  /** `str.find`: the first occurrence, or -1. */
  function Find(s: string, p: string): (r: int)
    ensures r == -1 || OccursAt(s, p, r)
    ensures forall j :: r == -1 || j < r ==> !OccursAt(s, p, j)
  {
    FindFrom(s, p, 0)
  }

  function RFindFrom(s: string, p: string, i: int): (r: int)
    requires i >= -1
    ensures r == -1 || (r <= i && OccursAt(s, p, r))
    ensures forall j :: r < j <= i ==> !OccursAt(s, p, j)
    decreases i + 1
  {
    if i == -1 then -1
    else if OccursAt(s, p, i) then i
    else RFindFrom(s, p, i - 1)
  }

  /** `str.rfind`: the last occurrence, or -1. */
  function RFind(s: string, p: string): (r: int)
    ensures r == -1 || OccursAt(s, p, r)
    ensures forall j :: r < j ==> !OccursAt(s, p, j)
  {
    RFindFrom(s, p, |s|)
  }

  function CountFrom(s: string, p: string, i: nat): nat
    requires p != []
    decreases |s| - i
  {
    if i + |p| > |s| then 0
    else if OccursAt(s, p, i) then 1 + CountFrom(s, p, i + |p|)
    else CountFrom(s, p, i + 1)
  }

  /** `str.count`: the greedy left-to-right number of non-overlapping occurrences. */
  function Count(s: string, p: string): nat
    requires p != []
  {
    CountFrom(s, p, 0)
  }

  /** Occurrences from `i` on, no two of which overlap. */
  ghost predicate Disjoint(s: string, p: string, i: nat, places: seq<nat>) {
    && (forall k :: 0 <= k < |places| ==> i <= places[k] && OccursAt(s, p, places[k]))
    && (forall j, k :: 0 <= j < k < |places| ==> places[j] + |p| <= places[k])
  }

  /** The greedy count is a number of occurrences that do not overlap, and no more of them are found. */
  lemma {:induction false} CountIsReached(s: string, p: string, i: nat) returns (places: seq<nat>)
    requires p != []
    ensures Disjoint(s, p, i, places) && |places| == CountFrom(s, p, i)
    decreases |s| - i
  {
    if i + |p| > |s| {
      places := [];
    } else if OccursAt(s, p, i) {
      var rest := CountIsReached(s, p, i + |p|);
      places := [i] + rest;
    } else {
      places := CountIsReached(s, p, i + 1);
    }
  }

  lemma {:induction false} CountIsMost(s: string, p: string, i: nat, places: seq<nat>)
    requires p != [] && Disjoint(s, p, i, places)
    ensures |places| <= CountFrom(s, p, i)
    decreases |s| - i
  {
    if places != [] {
      assert i <= places[0] && OccursAt(s, p, places[0]);
      if OccursAt(s, p, i) {
        CountIsMost(s, p, i + |p|, places[1..]);
      } else {
        assert forall k :: 0 <= k < |places| ==> places[k] != i;
        CountIsMost(s, p, i + 1, places);
      }
    }
  }

  /** The text before the first `c`. */
  function Until(s: string, c: char): (r: string)
    ensures |r| <= |s| && r == s[..|r|] && c !in r
    ensures |r| < |s| ==> s[|r|] == c
  {
    if s == "" || s[0] == c then "" else [s[0]] + Until(s[1..], c)
  }

  lemma {:induction false} UntilIs(s: string, c: char, r: string)
    requires |r| <= |s| && r == s[..|r|] && c !in r && (|r| < |s| ==> s[|r|] == c)
    ensures Until(s, c) == r
  {
    if r != "" {
      assert s[0] == r[0];
      UntilIs(s[1..], c, r[1..]);
    }
  }

  lemma UntilInFirst(a: string, b: string, c: char)
    requires c in a
    ensures Until(a + b, c) == Until(a, c) && |Until(a, c)| < |a|
  {
    UntilIs(a + b, c, Until(a, c));
  }

  lemma {:induction false} LeadEndIs(s: string, n: nat, k: nat)
    requires n <= k <= |s| && (k < |s| ==> !IsSpace(s[k])) && forall i :: n <= i < k ==> IsSpace(s[i])
    ensures LeadEnd(s, n) == k
    decreases k - n
  {
    if n < k { LeadEndIs(s, n + 1, k); }
  }

  lemma {:induction false} TrailStartIs(s: string, n: nat, k: nat)
    requires k <= n <= |s| && (k > 0 ==> !IsSpace(s[k - 1])) && forall i :: k <= i < n ==> IsSpace(s[i])
    ensures TrailStart(s, n) == k
    decreases n - k
  {
    if n > k { TrailStartIs(s, n - 1, k); }
  }

  lemma LStripIs(s: string, w: string, r: string)
    requires s == w + r && Blank(w) && (r == "" || !IsSpace(r[0]))
    ensures LStrip(s) == r
  {
    LeadEndIs(s, 0, |w|);
  }

  lemma RStripIs(s: string, r: string, w: string)
    requires s == r + w && Blank(w) && (r == "" || !IsSpace(r[|r| - 1]))
    ensures RStrip(s) == r
  {
    assert forall i :: |r| <= i < |s| ==> s[i] == w[i - |r|];
    TrailStartIs(s, |s|, |r|);
  }

  /** The whitespace that `lstrip` takes off. */
  function Lead(s: string): (w: string)
    ensures Blank(w) && s == w + LStrip(s)
  {
    s[..|s| - |LStrip(s)|]
  }
}
