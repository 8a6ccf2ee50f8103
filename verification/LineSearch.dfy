/** The search of a regular expression that begins with `^` and looks at every line start. */
module LineSearch {
  import opened Wrappers

  predicate LineStart(text: string, i: nat) {
    i == 0 || (i <= |text| && text[i - 1] == '\n')
  }

  /** The expression, given as a test of the text from `i` on, matches at `i`. */
  predicate Hit(test: string -> bool, text: string, i: nat) {
    i <= |text| && LineStart(text, i) && test(text[i..])
  }

  function FirstHitFrom(test: string -> bool, text: string, i: nat): (r: Option<nat>)
    ensures r.Some? ==> i <= r.value && Hit(test, text, r.value)
    ensures forall j :: i <= j && (r.Some? ==> j < r.value) ==> !Hit(test, text, j)
    decreases |text| - i
  {
    if Hit(test, text, i) then Some(i)
    else if i >= |text| then None
    else FirstHitFrom(test, text, i + 1)
  }

  /** The first line start where the expression matches. */
  function FirstHit(test: string -> bool, text: string): (r: Option<nat>)
    ensures r.Some? ==> Hit(test, text, r.value)
    ensures forall j: nat :: (r.Some? ==> j < r.value) ==> !Hit(test, text, j)
  {
    FirstHitFrom(test, text, 0)
  }

  lemma FirstIsFound(test: string -> bool, text: string, i: nat)
    requires Hit(test, text, i) && forall j: nat | j < i :: !Hit(test, text, j)
    ensures FirstHit(test, text) == Some(i)
  {
  }

  /** Line starts before `i` are line starts whatever follows. */
  lemma SameLineStart(text: string, i: nat, j: nat, y: string)
    requires j <= i <= |text|
    ensures LineStart(text[..i] + y, j) == LineStart(text, j)
    ensures text[j..] == text[j..i] + text[i..] && (text[..i] + y)[j..] == text[j..i] + y
  {
  }

  /** Changing the text from `i` on makes no earlier line start match, if no start does by itself. */
  lemma NoneBefore(test: string -> bool, text: string, i: nat, y: string)
    requires i <= |text| && LineStart(text, i) && forall j: nat | j < i :: !Hit(test, text, j)
    requires forall a | a != "" && a[|a| - 1] == '\n' && !test(a + text[i..]) :: !test(a + y)
    ensures forall j: nat | j < i :: !Hit(test, text[..i] + y, j)
  {
    forall j: nat | j < i ensures !Hit(test, text[..i] + y, j) {
      if LineStart(text, j) { NoneAt(test, text, i, j, y, text[j..i]); }
      SameLineStart(text, i, j, y);
    }
  }

  lemma NoneAt(test: string -> bool, text: string, i: nat, j: nat, y: string, a: string)
    requires j < i <= |text| && a == text[j..i] && LineStart(text, i) && LineStart(text, j) && !Hit(test, text, j)
    requires a != "" && a[|a| - 1] == '\n' && !test(a + text[i..]) ==> !test(a + y)
    ensures !test(a + y)
  {
    SameLineStart(text, i, j, y);
    assert a[|a| - 1] == text[i - 1];
  }
}
