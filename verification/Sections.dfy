/** A text as a sequence of sections: it is cut before every '[' that follows a newline. */
module Sections {
  import opened Wrappers
  import opened Text
  import opened TextLines

  // --- Cutting ---

  /** The length of the first section. */
  function Cut(s: string): (n: nat)
    ensures n <= |s| && (s != "" ==> n > 0)
    ensures n < |s| ==> s[n - 1] == '\n' && s[n] == '['
    ensures forall k :: 0 < k < n ==> !(s[k - 1] == '\n' && s[k] == '[')
  {
    if |s| < 2 then |s|
    else if s[0] == '\n' && s[1] == '[' then 1
    else 1 + Cut(s[1..])
  }

  function Cuts(s: string): seq<string> {
    if s == "" then [] else [s[..Cut(s)]] + Cuts(s[Cut(s)..])
  }

  /** A piece that is not cut. */
  predicate IsPiece(a: string) {
    a != "" && Cut(a) == |a|
  }

  /** Pieces that are the sections of the text they join to. */
  predicate WellCut(pieces: seq<string>) {
    && (forall i :: 0 <= i < |pieces| ==> IsPiece(pieces[i]))
    && (forall i :: 0 < i < |pieces| ==> pieces[i][0] == '[')
    && (forall i :: 0 <= i < |pieces| - 1 ==> pieces[i][|pieces[i]| - 1] == '\n')
  }

  lemma CutIs(s: string, n: nat)
    requires n <= |s| && (s != "" ==> n > 0) && (n < |s| ==> s[n - 1] == '\n' && s[n] == '[')
    requires forall k :: 0 < k < n ==> !(s[k - 1] == '\n' && s[k] == '[')
    ensures Cut(s) == n
  {
  }

  /** A piece followed by nothing, or by a section, is cut off there. */
  lemma CutsPiece(a: string, rest: string)
    requires IsPiece(a) && (rest == "" || (a[|a| - 1] == '\n' && rest[0] == '['))
    ensures Cut(a + rest) == |a| && Cuts(a + rest) == [a] + Cuts(rest)
  {
    var s := a + rest;
    forall k | 0 < k < |a| ensures !(s[k - 1] == '\n' && s[k] == '[') {
      assert s[k - 1] == a[k - 1] && s[k] == a[k];
    }
    CutIs(s, |a|);
    assert s[..|a|] == a && s[|a|..] == rest;
  }

  lemma {:induction false} JoinOfCuts(s: string)
    ensures Join(Cuts(s)) == s
  {
    if s != "" {
      var rest := s[Cut(s)..];
      JoinOfCuts(rest);
      assert Cuts(s)[1..] == Cuts(rest);
    }
  }

  lemma FirstIsPiece(s: string)
    requires s != ""
    ensures IsPiece(s[..Cut(s)])
  {
  }

  lemma WellCutCons(a: string, tail: seq<string>)
    requires IsPiece(a) && WellCut(tail) && (tail != [] ==> a[|a| - 1] == '\n' && tail[0][0] == '[')
    ensures WellCut([a] + tail)
  {
  }

  lemma {:induction false} CutsAreWellCut(s: string)
    ensures WellCut(Cuts(s)) && (s != "" ==> Cuts(s) != [] && Cuts(s)[0][0] == s[0])
  {
    if s != "" {
      var n := Cut(s);
      CutsAreWellCut(s[n..]);
      FirstIsPiece(s);
      WellCutCons(s[..n], Cuts(s[n..]));
    }
  }

  lemma TailIsWellCut(pieces: seq<string>)
    requires WellCut(pieces) && pieces != []
    ensures WellCut(pieces[1..])
    ensures pieces[1..] != [] ==> pieces[0][|pieces[0]| - 1] == '\n' && pieces[1..][0][0] == '['
  {
  }

  lemma JoinStarts(pieces: seq<string>)
    requires WellCut(pieces) && pieces != []
    ensures Join(pieces) != "" && Join(pieces)[0] == pieces[0][0]
  {
  }

  lemma {:induction false} CutsOfJoin(pieces: seq<string>)
    requires WellCut(pieces)
    ensures Cuts(Join(pieces)) == pieces
  {
    if pieces != [] {
      var tail := pieces[1..];
      TailIsWellCut(pieces);
      CutsOfJoin(tail);
      if tail != [] { JoinStarts(tail); }
      CutsPiece(pieces[0], Join(tail));
    }
  }

  lemma Regroup<T>(x: seq<T>, y: seq<T>, z: seq<T>)
    ensures x + (y + z) == x + y + z
  {
  }

  lemma {:induction false} JoinCat(a: seq<string>, b: seq<string>)
    ensures Join(a + b) == Join(a) + Join(b)
  {
    if a == [] {
      assert a + b == b;
      assert Join(a) + Join(b) == Join(b);
    } else {
      var tail := a[1..];
      JoinCat(tail, b);
      assert (a + b)[0] == a[0] && (a + b)[1..] == tail + b;
      Regroup(a[0], Join(tail), Join(b));
    }
  }

  lemma JoinOne(a: string)
    ensures Join([a]) == a
  {
  }

  // --- Headers ---

  /** A header: in brackets, on one line. */
  predicate IsHeader(h: string) {
    |h| >= 2 && h[0] == '[' && h[|h| - 1] == ']' && '\n' !in h
  }

  /** A header that may only begin a section. */
  predicate Only(a: string, h: string) {
    forall k :: 0 < k < |a| ==> !OccursAt(a, h, k)
  }

  /** It begins at most one, and occurs nowhere else. */
  predicate Clean(pieces: seq<string>, h: string) {
    && (forall i :: 0 <= i < |pieces| ==> Only(pieces[i], h))
    && (forall i, j :: 0 <= i < j < |pieces| ==> !(StartsWith(pieces[i], h) && StartsWith(pieces[j], h)))
  }

  /** The section that begins with the header. */
  function Index(pieces: seq<string>, h: string): (r: Option<nat>)
    ensures r.Some? ==> r.value < |pieces| && StartsWith(pieces[r.value], h)
    ensures forall i :: 0 <= i < |pieces| && (r.Some? ==> i < r.value) ==> !StartsWith(pieces[i], h)
  {
    if pieces == [] then None
    else if StartsWith(pieces[0], h) then Some(0)
    else
      var r := Index(pieces[1..], h);
      if r.None? then None else Some(r.value + 1)
  }

  lemma IndexIs(pieces: seq<string>, h: string, i: nat)
    requires Clean(pieces, h) && i < |pieces| && StartsWith(pieces[i], h)
    ensures Index(pieces, h) == Some(i)
  {
  }

  /** A header is not found across the end of a section. */
  lemma NotAcross(a: string, rest: string, h: string, k: nat)
    requires IsHeader(h) && a != "" && (rest == "" || a[|a| - 1] == '\n') && k < |a| < k + |h|
    ensures !OccursAt(a + rest, h, k)
  {
    var s := a + rest;
    if k + |h| <= |s| {
      assert s[k..k + |h|][|a| - 1 - k] == '\n';
    }
  }

  lemma OccursInPart(a: string, rest: string, h: string, k: nat)
    ensures k + |h| <= |a| ==> OccursAt(a + rest, h, k) == OccursAt(a, h, k)
    ensures k >= |a| ==> OccursAt(a + rest, h, k) == OccursAt(rest, h, k - |a|)
  {
  }

  lemma FindIs(s: string, h: string, r: nat)
    requires OccursAt(s, h, r) && forall k: nat :: k < r ==> !OccursAt(s, h, k)
    ensures Find(s, h) == r
  {
  }

  /** Finding in `a + rest`, when `a` does not hold the header. */
  lemma FindSkips(a: string, rest: string, h: string)
    requires IsHeader(h) && a != "" && (rest == "" || a[|a| - 1] == '\n')
    requires forall k: nat :: !OccursAt(a, h, k)
    ensures Find(a + rest, h) == if Find(rest, h) == -1 then -1 else |a| + Find(rest, h)
  {
    var s := a + rest;
    var r := Find(rest, h);
    forall k: nat | r == -1 || k < |a| + r ensures !OccursAt(s, h, k) {
      OccursInPart(a, rest, h, k);
      if k < |a| < k + |h| { NotAcross(a, rest, h, k); }
    }
    if r != -1 {
      OccursInPart(a, rest, h, |a| + r);
      FindIs(s, h, |a| + r);
    }
  }

  /** `find` of a clean header finds the section that it begins. */
  lemma {:induction false} FindFindsSection(pieces: seq<string>, h: string)
    requires WellCut(pieces) && Clean(pieces, h) && IsHeader(h)
    ensures Find(Join(pieces), h) == if Index(pieces, h).Some? then |Join(pieces[..Index(pieces, h).value])| else -1
  {
    if pieces != [] {
      var a, tail := pieces[0], pieces[1..];
      var rest := Join(tail);
      if tail != [] { JoinStarts(tail); }
      if StartsWith(a, h) {
        OccursInPart(a, rest, h, 0);
        FindIs(a + rest, h, 0);
      } else {
        TailIsClean(pieces, h);
        FindFindsSection(tail, h);
        forall k: nat ensures !OccursAt(a, h, k) {
          assert Only(a, h);
        }
        FindSkips(a, rest, h);
        var r := Index(tail, h);
        if r.Some? { JoinPrefix(pieces, r.value); }
      }
    }
  }

  lemma JoinPrefix(pieces: seq<string>, i: nat)
    requires pieces != [] && i < |pieces|
    ensures Join(pieces[..i + 1]) == pieces[0] + Join(pieces[1..][..i])
  {
    assert pieces[..i + 1][1..] == pieces[1..][..i];
  }

  lemma TailIsClean(pieces: seq<string>, h: string)
    requires WellCut(pieces) && Clean(pieces, h) && pieces != []
    ensures WellCut(pieces[1..]) && Clean(pieces[1..], h)
  {
  }

  // --- From a text to its sections ---

  /** In the text the header occurs at most once, and only at the start of a line. */
  ghost predicate Managed(text: string, h: string) {
    && (forall k :: OccursAt(text, h, k) ==> k == 0 || text[k - 1] == '\n')
    && (forall j, k :: OccursAt(text, h, j) && OccursAt(text, h, k) ==> j == k)
  }

  lemma {:induction false} ManagedIsClean(text: string, h: string)
    requires IsHeader(h) && Managed(text, h)
    ensures Clean(Cuts(text), h)
  {
    if text != "" {
      var n := Cut(text);
      var a, rest := text[..n], text[n..];
      assert text == a + rest;
      RestIsManaged(a, rest, h);
      ManagedIsClean(rest, h);
      FirstIsClean(text, a, rest, h);
      CutsAreWellCut(rest);
      JoinOfCuts(rest);
      CleanWithFirst(a, Cuts(rest), h);
    }
  }

  lemma RestIsManaged(a: string, rest: string, h: string)
    requires Managed(a + rest, h)
    ensures Managed(rest, h)
  {
    forall k | OccursAt(rest, h, k) ensures OccursAt(a + rest, h, |a| + k) {
      OccursInPart(a, rest, h, |a| + k);
    }
    forall k | OccursAt(rest, h, k) ensures k == 0 || rest[k - 1] == '\n' {
      assert OccursAt(a + rest, h, |a| + k);
      if k > 0 { assert (a + rest)[|a| + k - 1] == rest[k - 1]; }
    }
    forall j, k | OccursAt(rest, h, j) && OccursAt(rest, h, k) ensures j == k {
      assert OccursAt(a + rest, h, |a| + j) && OccursAt(a + rest, h, |a| + k);
    }
  }

  lemma OccursFirst(s: string, h: string, k: nat)
    requires h != "" && OccursAt(s, h, k)
    ensures s[k] == h[0]
  {
  }

  lemma FirstIsClean(text: string, a: string, rest: string, h: string)
    requires text == a + rest && text != "" && |a| == Cut(text) && IsHeader(h) && Managed(text, h)
    ensures Only(a, h) && (StartsWith(a, h) ==> forall k: nat :: !OccursAt(rest, h, k))
  {
    forall k | 0 < k < |a| ensures !OccursAt(a, h, k) {
      OccursInPart(a, rest, h, k);
      if OccursAt(text, h, k) { OccursFirst(text, h, k); }
    }
    if StartsWith(a, h) {
      OccursInPart(a, rest, h, 0);
      forall k: nat ensures !OccursAt(rest, h, k) {
        OccursInPart(a, rest, h, |a| + k);
      }
    }
  }

  lemma CleanWithFirst(a: string, tail: seq<string>, h: string)
    requires Only(a, h) && Clean(tail, h) && WellCut(tail) && IsHeader(h)
    requires StartsWith(a, h) ==> forall k: nat :: !OccursAt(Join(tail), h, k)
    ensures Clean([a] + tail, h)
  {
    var pieces := [a] + tail;
    if StartsWith(a, h) {
      FindFindsSection(tail, h);
      assert Find(Join(tail), h) == -1;
      forall j | 0 < j < |pieces| ensures !StartsWith(pieces[j], h) {
        assert pieces[j] == tail[j - 1];
      }
    }
  }
}
