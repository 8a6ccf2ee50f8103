/** Versions of three numbers: reading them, writing them, and bumping one of the numbers. */
module SemVer {
  import opened Wrappers
  import opened Text
  import opened TextLines

  // --- Digits ---

  /** The value of a decimal digit outside ASCII: `\d` of a `str` pattern matches those too. */
  type Digits = char -> Option<nat>

  /** Digits outside ASCII have a value below ten, and are neither blank nor a line end. */
  ghost predicate Lawful(d: Digits) {
    forall c :: d(c).Some? ==> d(c).value < 10 && c as int > 0x7f && !IsSpace(c) && !IsBreak(c)
  }

  predicate IsAscii(c: char) { '0' <= c <= '9' }

  predicate IsDigit(d: Digits, c: char) { IsAscii(c) || d(c).Some? }

  function Digit(n: nat): char
    requires n < 10
  {
    '0' + n as char
  }

  function DigitValue(d: Digits, c: char): nat
    requires IsDigit(d, c)
  {
    if IsAscii(c) then c as int - '0' as int else d(c).value
  }

  /** The character with a digit outside ASCII written as the ASCII digit of its value. */
  function AsciiChar(d: Digits, c: char): char {
    if d(c).Some? && d(c).value < 10 then Digit(d(c).value) else c
  }

  /** The text with every digit in ASCII. */
  function Ascii(d: Digits, s: string): (r: string)
    ensures |r| == |s| && forall i :: 0 <= i < |s| ==> r[i] == AsciiChar(d, s[i])
  {
    seq(|s|, i requires 0 <= i < |s| => AsciiChar(d, s[i]))
  }

  lemma AsciiParts(d: Digits, a: string, b: string)
    ensures Ascii(d, a + b) == Ascii(d, a) + Ascii(d, b)
  {
  }

  lemma AsciiOnly(d: Digits, s: string)
    requires Lawful(d) && forall i :: 0 <= i < |s| ==> s[i] as int <= 0x7f
    ensures Ascii(d, s) == s
  {
  }

  // --- One number ---

  predicate AllDigits(d: Digits, s: string) {
    forall i :: 0 <= i < |s| ==> IsDigit(d, s[i])
  }

  predicate AllAscii(s: string) {
    forall i :: 0 <= i < |s| ==> IsAscii(s[i])
  }

  /** `str(n)`. */
  function Decimal(n: nat): (s: string)
    ensures s != "" && AllAscii(s)
    ensures n > 0 ==> s[0] != '0'
  {
    if n < 10 then [Digit(n)] else Decimal(n / 10) + [Digit(n % 10)]
  }

  /** `int(s)` of a string of digits. */
  function Value(d: Digits, s: string): nat
    requires AllDigits(d, s)
  {
    if s == "" then 0 else 10 * Value(d, s[..|s| - 1]) + DigitValue(d, s[|s| - 1])
  }

  /** The numbers allowed: `0`, or a digit from 1 to 9 and then any digits. */
  predicate IsNumber(d: Digits, s: string) {
    s != "" && AllDigits(d, s) && (s == ['0'] || '1' <= s[0] <= '9')
  }

  /** A printed number reads back. */
  lemma {:induction false} DecimalReads(d: Digits, n: nat)
    ensures IsNumber(d, Decimal(n)) && Value(d, Decimal(n)) == n
  {
    if n < 10 {
      assert Value(d, []) == 0;
      assert [Digit(n)][..0] == [];
    } else {
      DecimalReads(d, n / 10);
      assert Decimal(n)[..|Decimal(n)| - 1] == Decimal(n / 10);
    }
  }

  /** An accepted number is printed as it was read, with its digits in ASCII. */
  lemma {:induction false} NumberIsDecimal(d: Digits, s: string)
    requires Lawful(d) && IsNumber(d, s)
    ensures Decimal(Value(d, s)) == Ascii(d, s)
  {
    hide Lawful, DigitValue, IsDigit;
    var front, last := s[..|s| - 1], s[|s| - 1];
    assert IsDigit(d, last) && AllDigits(d, front);
    LastDigit(d, last);
    assert s == front + [last];
    AsciiParts(d, front, [last]);
    if |s| == 1 {
      assert Value(d, front) == 0 && Ascii(d, front) == [];
    } else {
      NumberIsDecimal(d, front);
      FrontIsPositive(d, front);
      assert Value(d, s) / 10 == Value(d, front) && Value(d, s) % 10 == DigitValue(d, last);
    }
  }

  lemma LastDigit(d: Digits, c: char)
    requires Lawful(d) && IsDigit(d, c)
    ensures DigitValue(d, c) < 10 && Ascii(d, [c]) == [Digit(DigitValue(d, c))]
  {
  }

  lemma FrontIsPositive(d: Digits, front: string)
    requires Lawful(d) && front != "" && AllDigits(d, front) && '1' <= front[0] <= '9'
    requires Decimal(Value(d, front)) == Ascii(d, front)
    ensures Value(d, front) > 0
  {
  }

  /** What reads as a number once its digits are in ASCII, and begins in ASCII, is that number. */
  lemma {:induction false} DecimalIsNumber(d: Digits, s: string, n: nat)
    requires Lawful(d) && Ascii(d, s) == Decimal(n) && d(s[0]).None?
    ensures IsNumber(d, s) && Value(d, s) == n
  {
    var t := Decimal(n);
    DecimalReads(d, n);
    forall i | 0 <= i < |s| ensures IsDigit(d, s[i]) { assert t[i] == AsciiChar(d, s[i]) && IsAscii(t[i]); }
    assert s[0] == t[0];
    if |s| == 1 { assert s == t; }
    SameValue(d, s, t);
  }

  lemma {:induction false} SameValue(d: Digits, s: string, t: string)
    requires Lawful(d) && AllDigits(d, s) && AllDigits(d, t) && t == Ascii(d, s)
    ensures Value(d, s) == Value(d, t)
  {
    if s != "" {
      var k := |s| - 1;
      LastDigit(d, s[k]);
      assert t[k] == AsciiChar(d, s[k]) == Ascii(d, [s[k]])[0];
      SameValue(d, s[..k], t[..k]);
    }
  }

  // --- Three numbers ---

  datatype Version = Version(major: nat, minor: nat, patch: nat)

  function Show(v: Version): string {
    Decimal(v.major) + ['.'] + Decimal(v.minor) + ['.'] + Decimal(v.patch)
  }

  /** The number before the first '.', and what follows the dot. */
  function TakeNumber(d: Digits, s: string): Option<(nat, string)> {
    var n := Until(s, '.');
    if |n| < |s| && IsNumber(d, n) then Some((Value(d, n), s[|n| + 1..])) else None
  }

  /** The expression ends in `$`, which also stands before a final newline. */
  function WithoutFinalNewline(s: string): string {
    if s != "" && s[|s| - 1] == '\n' then s[..|s| - 1] else s
  }

  /** What follows the two dots. */
  function ParsePatch(d: Digits, s: string): Option<nat> {
    var last := WithoutFinalNewline(s);
    if IsNumber(d, last) then Some(Value(d, last)) else None
  }

  /** `parse_semver`; None where it raises. */
  function ParseSemver(d: Digits, s: string): Option<Version> {
    var major := TakeNumber(d, s);
    if major.None? then None else
    var minor := TakeNumber(d, major.value.1);
    if minor.None? then None else
    var patch := ParsePatch(d, minor.value.1);
    if patch.None? then None else Some(Version(major.value.0, minor.value.0, patch.value))
  }

  /** Every number of the text begins with a character that is no digit outside ASCII. */
  predicate BeginsAscii(d: Digits, s: string) {
    && (s != "" ==> d(s[0]).None?)
    && forall i :: 0 < i < |s| && s[i - 1] == '.' ==> d(s[i]).None?
  }

  lemma DotStays(d: Digits, c: char)
    requires Lawful(d) && (c == '.' || c == '\n')
    ensures forall x :: AsciiChar(d, x) == c <==> x == c
    ensures Ascii(d, [c]) == [c] && !IsDigit(d, c)
  {
  }

  /** Taking a number off a text that is, in ASCII, a number, a dot and a rest. */
  lemma TakesDecimal(d: Digits, s: string, n: nat, rest: string)
    requires Lawful(d) && BeginsAscii(d, s) && Ascii(d, s) == Decimal(n) + ['.'] + rest
    ensures TakeNumber(d, s).Some? && TakeNumber(d, s).value.0 == n
    ensures Ascii(d, TakeNumber(d, s).value.1) == rest && BeginsAscii(d, TakeNumber(d, s).value.1)
  {
    hide Ascii, Lawful, Decimal, IsNumber, Value, AsciiChar;
    var a, b := DotAt(d, s, Decimal(n), rest);
    NoDotInNumber(d, a, n);
    UntilIs(s, '.', a);
    DecimalIsNumber(d, a, n);
    assert s[|a| + 1..] == b;
    BeginsBehindDot(d, s, |a|);
  }

  lemma BeginsBehindDot(d: Digits, s: string, k: nat)
    requires k < |s| && s[k] == '.' && BeginsAscii(d, s)
    ensures BeginsAscii(d, s[k + 1..])
  {
  }

  lemma NoDotInNumber(d: Digits, a: string, n: nat)
    requires Lawful(d) && Ascii(d, a) == Decimal(n)
    ensures '.' !in a && a != ""
  {
  }

  lemma DotAt(d: Digits, s: string, x: string, y: string) returns (a: string, b: string)
    requires Lawful(d) && Ascii(d, s) == x + ['.'] + y
    ensures s == a + ['.'] + b && Ascii(d, a) == x && Ascii(d, b) == y
  {
    var k := |x|;
    a, b := s[..k], s[k + 1..];
    DotStays(d, '.');
    assert AsciiChar(d, s[k]) == Ascii(d, s)[k] == '.';
    assert s == a + ['.'] + b;
    AsciiParts(d, a + ['.'], b);
    AsciiParts(d, a, ['.']);
  }

  /** A number taken off is, in ASCII, the printed one. */
  lemma TakenIsDecimal(d: Digits, s: string)
    requires Lawful(d) && TakeNumber(d, s).Some?
    ensures Ascii(d, s) == Decimal(TakeNumber(d, s).value.0) + ['.'] + Ascii(d, TakeNumber(d, s).value.1)
    ensures BeginsAscii(d, TakeNumber(d, s).value.1) ==> BeginsAscii(d, s)
  {
    hide Ascii, Lawful, Decimal, IsNumber, Value, BeginsAscii;
    var n := Until(s, '.');
    var rest := s[|n| + 1..];
    NumberIsDecimal(d, n);
    DotStays(d, '.');
    assert s == n + ['.'] + rest;
    AsciiParts(d, n + ['.'], rest);
    AsciiParts(d, n, ['.']);
    NumberBegins(d, n);
    if BeginsAscii(d, rest) { BeginsTogether(d, n, rest); }
  }

  lemma BeginsTogether(d: Digits, n: string, rest: string)
    requires BeginsAscii(d, rest) && n != "" && d(n[0]).None? && '.' !in n
    ensures BeginsAscii(d, n + ['.'] + rest)
  {
  }

  lemma NumberBegins(d: Digits, s: string)
    requires Lawful(d) && IsNumber(d, s)
    ensures s != "" && d(s[0]).None? && '.' !in s && '\n' !in s
  {
  }

  /** What reads as a patch number is, in ASCII, a printed number with or without a final newline, and
      the other way round. */
  lemma PatchIsDecimal(d: Digits, s: string, n: nat)
    requires Lawful(d)
    ensures ParsePatch(d, s) == Some(n) <==>
            BeginsAscii(d, s) && (Ascii(d, s) == Decimal(n) || Ascii(d, s) == Decimal(n) + ['\n'])
  {
    var last := WithoutFinalNewline(s);
    var t := Ascii(d, s);
    DotStays(d, '\n');
    FinalNewline(d, s);
    if ParsePatch(d, s) == Some(n) {
      NumberIsDecimal(d, last);
      NumberBegins(d, last);
      NoDotBegins(d, s, last);
    }
    if BeginsAscii(d, s) && (t == Decimal(n) || t == Decimal(n) + ['\n']) {
      PrintedHasNoNewline(n);
      assert Ascii(d, last) == Decimal(n);
      DecimalIsNumber(d, last, n);
    }
  }

  lemma PrintedHasNoNewline(n: nat)
    ensures Decimal(n) != "" && Decimal(n)[|Decimal(n)| - 1] != '\n'
  {
  }

  lemma NoDotBegins(d: Digits, s: string, last: string)
    requires last != "" && '.' !in last && d(last[0]).None? && (s == last || s == last + ['\n'])
    ensures BeginsAscii(d, s)
  {
  }

  /** The final newline is the same in ASCII. */
  lemma FinalNewline(d: Digits, s: string)
    requires Lawful(d)
    ensures Ascii(d, WithoutFinalNewline(s)) == WithoutFinalNewline(Ascii(d, s))
    ensures s == WithoutFinalNewline(s) || s == WithoutFinalNewline(s) + ['\n']
    ensures Ascii(d, s) == Ascii(d, WithoutFinalNewline(s)) || Ascii(d, s) == Ascii(d, WithoutFinalNewline(s)) + ['\n']
  {
  }

  /** The written form, alone or with a newline behind it. */
  predicate Written(t: string, v: Version) {
    t == Show(v) || t == Show(v) + ['\n']
  }

  /** A text is accepted as a version if and only if, with its digits in ASCII, it is the written form
      or that and one newline, and each of its numbers begins in ASCII. */
  lemma ParsesExactly(d: Digits, s: string, v: Version)
    requires Lawful(d)
    ensures ParseSemver(d, s) == Some(v) <==> BeginsAscii(d, s) && Written(Ascii(d, s), v)
  {
    if ParseSemver(d, s) == Some(v) { ParsedIsWritten(d, s, v); }
    if BeginsAscii(d, s) && Written(Ascii(d, s), v) { WrittenParses(d, s, v); }
  }

  lemma ParsedIsWritten(d: Digits, s: string, v: Version)
    requires Lawful(d) && ParseSemver(d, s) == Some(v)
    ensures BeginsAscii(d, s) && Written(Ascii(d, s), v)
  {
    hide Decimal, IsNumber, Value, BeginsAscii, TakeNumber, ParsePatch;
    TakenIsDecimal(d, s);
    var rest := TakeNumber(d, s).value.1;
    TakenIsDecimal(d, rest);
    var last := TakeNumber(d, rest).value.1;
    PatchIsDecimal(d, last, v.patch);
    Regroup(Decimal(v.major), Decimal(v.minor), Decimal(v.patch), []);
    Regroup(Decimal(v.major), Decimal(v.minor), Decimal(v.patch), ['\n']);
  }

  lemma WrittenParses(d: Digits, s: string, v: Version)
    requires Lawful(d) && BeginsAscii(d, s) && Written(Ascii(d, s), v)
    ensures ParseSemver(d, s) == Some(v)
  {
    hide Decimal, IsNumber, Value, BeginsAscii, TakeNumber, ParsePatch;
    var a, b, c := Decimal(v.major), Decimal(v.minor), Decimal(v.patch);
    var end := if Ascii(d, s) == Show(v) then [] else ['\n'];
    Regroup(a, b, c, end);
    TakesDecimal(d, s, v.major, b + ['.'] + (c + end));
    var rest := TakeNumber(d, s).value.1;
    TakesDecimal(d, rest, v.minor, c + end);
    PatchIsDecimal(d, TakeNumber(d, rest).value.1, v.patch);
  }

  lemma Regroup(a: string, b: string, c: string, end: string)
    ensures a + ['.'] + b + ['.'] + c + end == a + ['.'] + (b + ['.'] + (c + end))
  {
  }

  /** Every version reads back, with or without a final newline. */
  lemma ShownVersionsParse(d: Digits, v: Version, end: string)
    requires Lawful(d) && (end == [] || end == ['\n'])
    ensures ParseSemver(d, Show(v) + end) == Some(v)
  {
    var s := Show(v) + end;
    ShowIsPlain(v);
    forall i | 0 <= i < |s| ensures s[i] as int <= 0x7f && d(s[i]).None? {
      if i < |Show(v)| { assert s[i] == Show(v)[i]; }
    }
    AsciiOnly(d, s);
    WrittenParses(d, s, v);
  }

  /** Nothing else reads: what is accepted is, with its digits in ASCII, the written form, or that and
      one newline. */
  lemma OnlyShownVersionsParse(d: Digits, s: string)
    requires Lawful(d) && ParseSemver(d, s).Some?
    ensures BeginsAscii(d, s) && Written(Ascii(d, s), ParseSemver(d, s).value)
  {
    ParsedIsWritten(d, s, ParseSemver(d, s).value);
  }

  /** Two versions never have the same written form. */
  lemma ShowIsInjective(v: Version, w: Version)
    requires Show(v) == Show(w)
    ensures v == w
  {
    assert Show(v) + [] == Show(v) && Show(w) + [] == Show(w);
    ShownVersionsParse(_ => None, v, []);
    ShownVersionsParse(_ => None, w, []);
  }

  // --- Bumping ---

  datatype Increment = Major | Minor | Patch

  /** Precedence: item 11 of Semantic Versioning 2.0.0, for versions without labels. */
  predicate Less(v: Version, w: Version) {
    || v.major < w.major
    || (v.major == w.major && v.minor < w.minor)
    || (v.major == w.major && v.minor == w.minor && v.patch < w.patch)
  }

  function Next(v: Version, i: Increment): Version {
    match i
    case Major => Version(v.major + 1, 0, 0)
    case Minor => Version(v.major, v.minor + 1, 0)
    case Patch => Version(v.major, v.minor, v.patch + 1)
  }

  /** `bump_version`; None where it raises. */
  function BumpVersion(d: Digits, version: string, i: Increment): Option<string> {
    var v := ParseSemver(d, version);
    if v.None? then None else Some(Show(Next(v.value, i)))
  }

  /** The numbers left of the bumped one agree. */
  predicate SameLeft(v: Version, w: Version, i: Increment) {
    i == Major || (v.major == w.major && (i == Minor || v.minor == w.minor))
  }

  /** The numbers right of the bumped one are zero. */
  predicate ZeroRight(v: Version, i: Increment) {
    (i == Patch || v.patch == 0) && (i == Major ==> v.minor == 0)
  }

  lemma BumpedShows(d: Digits, version: string, i: Increment)
    requires ParseSemver(d, version).Some?
    ensures BumpVersion(d, version, i) == Some(Show(Next(ParseSemver(d, version).value, i)))
  {
  }

  /** A bump is accepted again, is strictly greater, and is the least such version that keeps what
      stands left of the bumped number and is zero right of it. */
  lemma BumpIsNext(d: Digits, version: string, i: Increment)
    requires Lawful(d) && ParseSemver(d, version).Some?
    ensures var v := ParseSemver(d, version).value;
            var b := BumpVersion(d, version, i);
            && b.Some? && ParseSemver(d, b.value).Some?
            && Less(v, ParseSemver(d, b.value).value)
            && SameLeft(v, ParseSemver(d, b.value).value, i) && ZeroRight(ParseSemver(d, b.value).value, i)
            && (forall w: Version :: Less(v, w) && SameLeft(v, w, i) && ZeroRight(w, i) ==>
                 !Less(w, ParseSemver(d, b.value).value))
  {
    hide Show, ParseSemver, Lawful;
    var n := Next(ParseSemver(d, version).value, i);
    BumpedShows(d, version, i);
    assert Show(n) + [] == Show(n);
    ShownVersionsParse(d, n, []);
  }

  /** Characters of a written version. */
  lemma ShowIsPlain(v: Version)
    ensures Show(v) != "" && IsAscii(Show(v)[0])
    ensures forall i :: 0 <= i < |Show(v)| ==> IsAscii(Show(v)[i]) || Show(v)[i] == '.'
  {
  }
}
