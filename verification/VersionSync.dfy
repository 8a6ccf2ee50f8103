/** The bump of all version files of the repository, and the check that they agree. */
module VersionSync {
  import opened Wrappers
  import opened SemVer
  import Text
  import TextLines
  import CoreVersion
  import SectionVersion
  import Changelog
  import LineSearch

  const CORE_KEY := "VERSION"
  const KEY := "version"
  const OPENING := "## ["
  const PROJECT := "[project]"
  const COMMITIZEN := "[tool.commitizen]"

  /** The names the files use, and the digits outside ASCII; the proofs need only what `Proper` says of
      them. */
  datatype Names = Names(coreKey: string, key: string, opening: string, project: string, commitizen: string,
                         digits: Digits)

  function NamesOf(digits: Digits): Names {
    Names(CORE_KEY, KEY, OPENING, PROJECT, COMMITIZEN, digits)
  }

  ghost predicate Proper(n: Names) {
    && CoreVersion.IsKey(n.coreKey) && SectionVersion.IsKey(n.key) && Changelog.IsOpening(n.opening)
    && SectionVersion.IsHeader(n.project) && SectionVersion.IsHeader(n.commitizen) && n.project != n.commitizen
    && Lawful(n.digits)
  }

  lemma NamesAreProper(digits: Digits)
    requires Lawful(digits)
    ensures Proper(NamesOf(digits)) && TextLines.NoBreak(PROJECT) && TextLines.NoBreak(COMMITIZEN)
  {
    hide Lawful;
    var n := NamesOf(digits);
    assert n.coreKey[0] == 'V' && n.key[0] == 'v';
    assert n.project[|n.project| - 1] == ']' && n.commitizen[|n.commitizen| - 1] == ']';
    assert |n.project| != |n.commitizen|;
  }

  /** The texts of the three files. */
  datatype Files = Files(core: string, pyproject: string, changelog: string)

  /** What `collect_version_state` reads. */
  datatype State = State(core: string, project: string, changelog: string, commitizen: Option<string>)

  function Collect(n: Names, f: Files): Option<State> {
    var core := CoreVersion.ParseCore(n.coreKey, f.core);
    var project := SectionVersion.ParseSection(n.key, n.project, f.pyproject);
    var changelog := Changelog.ParseChangelog(n.opening, f.changelog);
    if core.None? || project.None? || changelog.None? then None
    else Some(State(core.value, project.value, changelog.value,
           SectionVersion.ParseSection(n.key, n.commitizen, f.pyproject)))
  }

  datatype Issue = ProjectDrift | ChangelogDrift | CommitizenDrift

  /** `find_version_drift`. */
  method FindVersionDrift(s: State) returns (issues: seq<Issue>)
    ensures ProjectDrift in issues <==> s.project != s.core
    ensures ChangelogDrift in issues <==> s.changelog != s.core
    ensures CommitizenDrift in issues <==> s.commitizen.Some? && s.commitizen.value != s.core
    ensures issues == [] <==> Agrees(s)
  {
    issues := [];
    if s.project != s.core { issues := issues + [ProjectDrift]; }
    if s.changelog != s.core { issues := issues + [ChangelogDrift]; }
    if s.commitizen.Some? && s.commitizen.value != s.core { issues := issues + [CommitizenDrift]; }
  }

  predicate Agrees(s: State) {
    s.project == s.core && s.changelog == s.core && (s.commitizen.Some? ==> s.commitizen.value == s.core)
  }

  /** All files are readable and show the same version. */
  predicate DriftFree(n: Names, f: Files) {
    Collect(n, f).Some? && Agrees(Collect(n, f).value)
  }

  // --- The plan ---

  datatype Refusal = Unreadable | Drift | BadVersion | SameVersion

  /** The version asked for, else the bumped one; None where it is not accepted. An explicit version
      that is empty counts as none. */
  function Chosen(d: Digits, core: string, i: Increment, explicit: Option<string>): Option<string> {
    var next := if explicit.Some? && explicit.value != "" then explicit else BumpVersion(d, core, i);
    if next.None? || ParseSemver(d, next.value).None? then None else next
  }

  /** `build_plan`: the next version. */
  function Plan(n: Names, f: Files, i: Increment, explicit: Option<string>): Result<string, Refusal> {
    Decided(n.digits, Collect(n, f), i, explicit)
  }

  function Decided(d: Digits, s: Option<State>, i: Increment, explicit: Option<string>): Result<string, Refusal> {
    if s.None? then Failure(Unreadable)
    else if !Agrees(s.value) then Failure(Drift)
    else
      var next := Chosen(d, s.value.core, i, explicit);
      if next.None? then Failure(BadVersion)
      else if next.value == s.value.core then Failure(SameVersion)
      else Success(next.value)
  }

  datatype Result<T, E> = Success(value: T) | Failure(error: E)

  /** What each step of a bump writes, or None where it raises. */
  function NewCore(n: Names, f: Files, v: string): Option<string> {
    CoreVersion.ReplaceCore(n.coreKey, f.core, v)
  }

  function NewPyproject(n: Names, f: Files, v: string): Option<string> {
    SectionVersion.ReplaceBoth(n.key, n.project, n.commitizen, f.pyproject, v)
  }

  function NewChangelog(n: Names, f: Files, v: string, date: string, message: string): Option<string> {
    Changelog.InsertEntry(n.opening, f.changelog, v, date, message)
  }

  datatype Bumped = Bumped(files: Files, completed: bool)

  /** The files after `apply_native_bump`, step after step until one raises. */
  function Bump(n: Names, f: Files, v: string, date: string, message: string): Bumped {
    if NewCore(n, f, v).None? then Bumped(f, false) else
    var f1 := f.(core := NewCore(n, f, v).value);
    if NewPyproject(n, f, v).None? then Bumped(f1, false) else
    var f2 := f1.(pyproject := NewPyproject(n, f, v).value);
    if NewChangelog(n, f, v, date, message).None? then Bumped(f2, false) else
    Bumped(f2.(changelog := NewChangelog(n, f, v, date, message).value), true)
  }

  /** The repository whose files a bump rewrites. */
  class Repository {
    var files: Files

    constructor (f: Files)
      ensures files == f
    {
      files := f;
    }

    /** `apply_native_bump`; false where it raises. */
    method ApplyNativeBump(n: Names, v: string, date: string, message: string) returns (ok: bool)
      modifies this
      ensures Bumped(files, ok) == Bump(n, old(files), v, date, message)
    {
      var core := CoreVersion.ReplaceCore(n.coreKey, files.core, v);
      if core.None? { return false; }
      files := files.(core := core.value);
      var project := SectionVersion.ReplaceSectionVersion(n.key, n.project, files.pyproject, v);
      if project.None? { return false; }
      var pyproject := SectionVersion.ReplaceSectionVersion(n.key, n.commitizen, project.value, v);
      if pyproject.None? { return false; }
      files := files.(pyproject := pyproject.value);
      var changelog := Changelog.InsertEntry(n.opening, files.changelog, v, date, message);
      if changelog.None? { return false; }
      files := files.(changelog := changelog.value);
      ok := true;
    }
  }

  // --- What a bump does to the check ---

  /** The lines of pyproject.toml before the bump. */
  function Lines(n: Names, f: Files): seq<SectionVersion.Seen> {
    SectionVersion.Lines(n.key, f.pyproject)
  }

  /** What both sections will show, told from the lines before the bump; None where it will raise. */
  function SectionsShow(n: Names, f: Files, v: string): Option<SectionVersion.Shown> {
    SectionVersion.BothSet(n.project, n.commitizen, Lines(n, f), v)
  }

  /** The check will pass the sections: [project] shows `v`, and [tool.commitizen] does or shows nothing. */
  predicate SectionsAgree(n: Names, f: Files, v: string) {
    var r := SectionsShow(n, f, v);
    r.Some? && r.value.first == Some(v) && (r.value.second == Some(v) || r.value.second == None)
  }

  /** The version line of the section, rewritten, will run into a line that is not blank. */
  predicate RunsOn(n: Names, f: Files, section: string) {
    var r := SectionVersion.Scan(section, Lines(n, f), false);
    r.Some? && SectionVersion.RunsOn(Lines(n, f), r.value.line)
  }

  /** A version without the final newline that `parse_semver` lets pass. */
  predicate Plain(v: string) {
    v != "" && v[|v| - 1] != '\n'
  }

  /** The characters of an accepted version, but for a final newline: digits and dots. */
  predicate Dotted(d: Digits, s: string) {
    s != "" && forall i :: 0 <= i < |s| ==> IsDigit(d, s[i]) || s[i] == '.'
  }

  lemma AcceptedIsDotted(d: Digits, v: string)
    requires Lawful(d) && ParseSemver(d, v).Some?
    ensures v != "" && Dotted(d, WithoutFinalNewline(v))
  {
    hide Show, ParseSemver, Lawful, Ascii;
    OnlyShownVersionsParse(d, v);
    var shown := Show(ParseSemver(d, v).value);
    ShowIsPlain(ParseSemver(d, v).value);
    FinalNewline(d, v);
    NoFinalNewline(shown);
    AsciiIsDotted(d, WithoutFinalNewline(v), shown);
  }

  lemma NoFinalNewline(s: string)
    requires s != "" && (IsAscii(s[|s| - 1]) || s[|s| - 1] == '.')
    ensures WithoutFinalNewline(s) == s && WithoutFinalNewline(s + ['\n']) == s
  {
  }

  /** Digits and dots in ASCII are digits and dots. */
  lemma AsciiIsDotted(d: Digits, w: string, shown: string)
    requires Ascii(d, w) == shown && shown != ""
    requires forall i :: 0 <= i < |shown| ==> IsAscii(shown[i]) || shown[i] == '.'
    ensures Dotted(d, w)
  {
  }

  lemma PlainVersions(d: Digits, v: string)
    requires Lawful(d) && ParseSemver(d, v).Some? && Plain(v)
    ensures CoreVersion.Quotable(v) && SectionVersion.IsValue(v) && Changelog.IsVersionText(v)
  {
    hide ParseSemver;
    AcceptedIsDotted(d, v);
    DigitsArePlain(d, v);
  }

  lemma DigitsArePlain(d: Digits, v: string)
    requires Lawful(d) && Dotted(d, v)
    ensures '"' !in v && ']' !in v && TextLines.NoBreak(v) && !Text.IsSpace(v[0])
  {
  }

  /** Every version that reads can stand in the version file, even one with a final newline. */
  lemma VersionsAreQuotable(d: Digits, v: string)
    requires Lawful(d) && ParseSemver(d, v).Some?
    ensures CoreVersion.Quotable(v)
  {
    hide ParseSemver;
    AcceptedIsDotted(d, v);
    var w := WithoutFinalNewline(v);
    DigitsArePlain(d, w);
    assert v[0] == w[0];
    assert v == w || v == w + ['\n'];
  }

  /** What the rewritten pyproject.toml shows is told from its lines before. */
  lemma PyprojectShows(n: Names, f: Files, v: string)
    requires Proper(n) && SectionVersion.IsValue(v)
    ensures var t := NewPyproject(n, f, v);
            SectionsShow(n, f, v) ==
            if t.None? then None
            else Some(SectionVersion.Shown(SectionVersion.ParseSection(n.key, n.project, t.value),
                                           SectionVersion.ParseSection(n.key, n.commitizen, t.value)))
  {
    SectionVersion.BothReplaced(n.key, n.project, n.commitizen, f.pyproject, v);
  }

  /** Where both sections are found and neither version line runs on, both will show the version. */
  lemma {:induction false} NothingRunsOn(n: Names, f: Files, v: string)
    requires Proper(n) && Collect(n, f).Some? && Collect(n, f).value.commitizen.Some?
    requires !RunsOn(n, f, n.project) && !RunsOn(n, f, n.commitizen)
    ensures SectionsShow(n, f, v) == Some(SectionVersion.Shown(Some(v), Some(v)))
  {
    ProjectLineIsVisible(n, f);
    SectionVersion.NothingRunsOn(n.project, n.commitizen, Lines(n, f), v);
  }

  lemma ProjectLineIsVisible(n: Names, f: Files)
    requires Proper(n) && Collect(n, f).Some?
    ensures SectionVersion.Scan(n.project, Lines(n, f), false).Some?
    ensures Lines(n, f)[SectionVersion.Scan(n.project, Lines(n, f), false).value.line].text != ""
  {
    CollectedParts(n, f);
    SectionVersion.SettersAreVisible(n.key, f.pyproject, SectionVersion.Scan(n.project, Lines(n, f), false).value.line);
  }

  /** Where no line of pyproject.toml sets the version yet, both sections will show it if and only if
      both are found and neither version line runs on. */
  lemma FreshSectionsShow(n: Names, f: Files, v: string)
    requires Proper(n) && Collect(n, f).Some? && SectionVersion.Fresh(Lines(n, f), v)
    ensures SectionsShow(n, f, v) == Some(SectionVersion.Shown(Some(v), Some(v))) <==>
            Collect(n, f).value.commitizen.Some? && !RunsOn(n, f, n.project) && !RunsOn(n, f, n.commitizen)
  {
    if SectionsShow(n, f, v) == Some(SectionVersion.Shown(Some(v), Some(v))) {
      ProjectLineIsVisible(n, f);
      SectionVersion.RunningOnShows(n.project, n.commitizen, Lines(n, f), v);
    } else if Collect(n, f).value.commitizen.Some? && !RunsOn(n, f, n.project) && !RunsOn(n, f, n.commitizen) {
      NothingRunsOn(n, f, v);
    }
  }

  // What the proofs below need of the definitions.

  lemma BumpParts(n: Names, f: Files, v: string, date: string, message: string)
    ensures var b := Bump(n, f, v, date, message);
            && (NewCore(n, f, v).Some? ==> b.files.core == NewCore(n, f, v).value)
            && (b.completed <==>
                 NewCore(n, f, v).Some? && NewPyproject(n, f, v).Some? &&
                   !Changelog.HasEntry(n.opening, f.changelog, v))
            && (!b.completed ==> b.files.changelog == f.changelog)
  {
  }

  lemma BumpedFiles(n: Names, f: Files, v: string, date: string, message: string)
    requires Bump(n, f, v, date, message).completed
    ensures Bump(n, f, v, date, message).files ==
            Files(NewCore(n, f, v).value, NewPyproject(n, f, v).value, NewChangelog(n, f, v, date, message).value)
  {
  }

  /** The assignment of the version file was written anew, and but for blank space behind it nothing else. */
  ghost predicate CoreRewritten(key: string, before: string, after: string, v: string) {
    exists previous, pre, ws1, ws2, blank, post ::
      CoreVersion.Rewrites(key, before, previous, after, v, pre, ws1, ws2, blank, post)
  }

  /** What a bump writes, and what it leaves alone: the assignment in the version file, two lines of
      pyproject.toml, and an entry of the changelog. A bump that stops wrote no file behind the one that raised. */
  lemma BumpKeepsTheRest(n: Names, f: Files, v: string, date: string, message: string)
    ensures var b := Bump(n, f, v, date, message);
            && (b.files.core == f.core || CoreRewritten(n.coreKey, f.core, b.files.core, v))
            && (b.files.pyproject == f.pyproject ||
                  exists between :: SectionVersion.LineRewritten(n.key, f.pyproject, between, v) &&
                    SectionVersion.LineRewritten(n.key, between, b.files.pyproject, v))
            && (b.completed ==>
                  Changelog.EntryAdded(n.opening, f.changelog, b.files.changelog, v, date, message))
            && (!b.completed ==> b.files.changelog == f.changelog)
  {
    hide CoreRewritten;
    if NewCore(n, f, v).Some? {
      CoreIsRewritten(n.coreKey, f.core, v);
      if NewPyproject(n, f, v).Some? {
        var between := SectionVersion.ReplaceSection(n.key, n.project, f.pyproject, v).value;
        SectionVersion.OneLineIsRewritten(n.key, n.project, f.pyproject, v);
        SectionVersion.OneLineIsRewritten(n.key, n.commitizen, between, v);
        if NewChangelog(n, f, v, date, message).Some? {
          Changelog.OneEntryIsAdded(n.opening, f.changelog, v, date, message);
        }
      }
    }
  }

  lemma CoreIsRewritten(key: string, text: string, v: string)
    requires CoreVersion.ReplaceCore(key, text, v).Some?
    ensures CoreRewritten(key, text, CoreVersion.ReplaceCore(key, text, v).value, v)
  {
    var pre, ws1, ws2, blank, post := CoreVersion.ReplacingCoreKeepsTheRest(key, text, v);
  }

  lemma CollectedParts(n: Names, f: Files)
    requires Collect(n, f).Some?
    ensures CoreVersion.ParseCore(n.coreKey, f.core) == Some(Collect(n, f).value.core)
    ensures SectionVersion.ParseSection(n.key, n.project, f.pyproject) == Some(Collect(n, f).value.project)
    ensures Changelog.ParseChangelog(n.opening, f.changelog) == Some(Collect(n, f).value.changelog)
    ensures SectionVersion.ParseSection(n.key, n.commitizen, f.pyproject) == Collect(n, f).value.commitizen
  {
  }

  /** What stays readable and without drift shows the version of the version file everywhere. */
  lemma DriftFreeParts(n: Names, f: Files, v: string)
    requires DriftFree(n, f) && CoreVersion.ParseCore(n.coreKey, f.core) == Some(v)
    ensures SectionVersion.ParseSection(n.key, n.project, f.pyproject) == Some(v)
    ensures Changelog.ParseChangelog(n.opening, f.changelog) == Some(v)
  {
    CollectedParts(n, f);
  }

  lemma DecidedParts(d: Digits, s: Option<State>, i: Increment, explicit: Option<string>)
    requires Decided(d, s, i, explicit).Success?
    ensures s.Some? && Agrees(s.value) && ParseSemver(d, Decided(d, s, i, explicit).value).Some?
    ensures Decided(d, s, i, explicit).value != s.value.core
    ensures explicit == None ==> BumpVersion(d, s.value.core, i) == Some(Decided(d, s, i, explicit).value)
  {
  }

  lemma PlannedParts(n: Names, f: Files, i: Increment, explicit: Option<string>)
    requires Plan(n, f, i, explicit).Success?
    ensures DriftFree(n, f) && ParseSemver(n.digits, Plan(n, f, i, explicit).value).Some?
    ensures Plan(n, f, i, explicit).value != Collect(n, f).value.core
    ensures explicit == None ==>
              BumpVersion(n.digits, Collect(n, f).value.core, i) == Some(Plan(n, f, i, explicit).value)
  {
    DecidedParts(n.digits, Collect(n, f), i, explicit);
  }

  /** Exactly which version is planned: from agreement, an accepted one other than the present one, and that asked
      for, unless none is or it is empty; then the bumped one. */
  lemma PlansExactly(n: Names, f: Files, i: Increment, explicit: Option<string>, v: string)
    ensures Plan(n, f, i, explicit) == Success(v) <==>
              && DriftFree(n, f) && ParseSemver(n.digits, v).Some? && v != Collect(n, f).value.core
              && match explicit
                 case Some(asked) =>
                   v == asked || (asked == "" && BumpVersion(n.digits, Collect(n, f).value.core, i) == Some(v))
                 case None => BumpVersion(n.digits, Collect(n, f).value.core, i) == Some(v)
  {
    hide BumpVersion, ParseSemver, Agrees, Collect;
    AcceptedIsNotEmpty(n.digits, v);
  }

  lemma AcceptedIsNotEmpty(d: Digits, v: string)
    ensures ParseSemver(d, v).Some? ==> v != ""
  {
  }

  lemma NewCoreShows(n: Names, f: Files, v: string)
    requires Proper(n) && Collect(n, f).Some? && ParseSemver(n.digits, v).Some?
    ensures NewCore(n, f, v).Some? && CoreVersion.ParseCore(n.coreKey, NewCore(n, f, v).value) == Some(v)
  {
    VersionsAreQuotable(n.digits, v);
    CoreVersion.ReplacedCoreParses(n.coreKey, f.core, v);
  }

  lemma NoSectionShows(key: string, section: string, text: string, v: string)
    requires v != "" && !Plain(v)
    ensures SectionVersion.ParseSection(key, section, text) != Some(v)
  {
    if SectionVersion.ParseSection(key, section, text).Some? {
      SectionVersion.ParsedSectionHasNoBreak(key, section, text);
      assert TextLines.IsBreak(v[|v| - 1]);
    }
  }

  /** A version with a final newline never leaves agreement: the version file shows it, and no
      section can. */
  lemma NewlineNeverAgrees(n: Names, f: Files, v: string, date: string, message: string)
    requires Proper(n) && Collect(n, f).Some? && ParseSemver(n.digits, v).Some? && !Plain(v)
    ensures !DriftFree(n, Bump(n, f, v, date, message).files)
  {
    var g := Bump(n, f, v, date, message).files;
    NewCoreShows(n, f, v);
    BumpParts(n, f, v, date, message);
    assert v != "" by { VersionsAreQuotable(n.digits, v); }
    NoSectionShows(n.key, n.project, g.pyproject, v);
    if DriftFree(n, g) { DriftFreeParts(n, g, v); }
  }

  /** Without [tool.commitizen], or with an entry already there, the bump stops half-way. */
  lemma BumpStops(n: Names, f: Files, v: string, date: string, message: string)
    requires Proper(n) && Collect(n, f).Some? && ParseSemver(n.digits, v).Some? && Plain(v)
    requires Collect(n, f).value.commitizen.None? || Changelog.HasEntry(n.opening, f.changelog, v)
    ensures !Bump(n, f, v, date, message).completed
  {
    PlainVersions(n.digits, v);
    CollectedParts(n, f);
    PyprojectShows(n, f, v);
    BumpParts(n, f, v, date, message);
    if SectionsShow(n, f, v).Some? { SectionVersion.NothingAppears(n.project, n.commitizen, Lines(n, f), v); }
  }

  /** What a completed bump leaves to be read. */
  lemma BumpShows(n: Names, f: Files, v: string, date: string, message: string)
    requires Proper(n) && Collect(n, f).Some? && ParseSemver(n.digits, v).Some? && Plain(v)
    ensures var b := Bump(n, f, v, date, message);
            && (b.completed <==> SectionsShow(n, f, v).Some? && !Changelog.HasEntry(n.opening, f.changelog, v))
            && (b.completed ==> Collect(n, b.files) == Shows(v, SectionsShow(n, f, v).value))
  {
    PlainVersions(n.digits, v);
    NewCoreShows(n, f, v);
    PyprojectShows(n, f, v);
    BumpParts(n, f, v, date, message);
    if Bump(n, f, v, date, message).completed {
      BumpedFiles(n, f, v, date, message);
      Changelog.InsertedVersionIsFirst(n.opening, f.changelog, v, date, message);
    }
  }

  /** What is read where the version file and the changelog show `v`. */
  function Shows(v: string, shown: SectionVersion.Shown): Option<State> {
    if shown.first.None? then None else Some(State(v, shown.first.value, v, shown.second))
  }

  /** A bump is complete and leaves no drift if and only if both sections will agree, the changelog has
      no entry of the next version yet, and that version has no final newline. */
  lemma BumpRestoresAgreement(n: Names, f: Files, i: Increment, explicit: Option<string>, date: string, message: string)
    requires Proper(n) && Plan(n, f, i, explicit).Success?
    ensures var v := Plan(n, f, i, explicit).value;
            var b := Bump(n, f, v, date, message);
            (b.completed && DriftFree(n, b.files)) <==>
            (SectionsAgree(n, f, v) && !Changelog.HasEntry(n.opening, f.changelog, v) && Plain(v))
  {
    hide Bump, Plain, Collect, Changelog.HasEntry, ParseSemver, SectionsShow, Proper, Plan;
    PlannedParts(n, f, i, explicit);
    var v := Plan(n, f, i, explicit).value;
    if Plain(v) { BumpShows(n, f, v, date, message); } else { NewlineNeverAgrees(n, f, v, date, message); }
  }

  /** Every file shows the next version if and only if both sections will show it, the changelog has no
      entry of it yet, and it has no final newline. */
  lemma BumpShowsEverywhere(n: Names, f: Files, v: string, date: string, message: string)
    requires Proper(n) && Collect(n, f).Some? && ParseSemver(n.digits, v).Some?
    ensures var b := Bump(n, f, v, date, message);
            (b.completed && Collect(n, b.files) == Some(State(v, v, v, Some(v)))) <==>
            (SectionsShow(n, f, v) == Some(SectionVersion.Shown(Some(v), Some(v)))
             && !Changelog.HasEntry(n.opening, f.changelog, v) && Plain(v))
  {
    hide Bump, Plain, Collect, Changelog.HasEntry, ParseSemver, SectionsShow, Proper;
    if Plain(v) { BumpShows(n, f, v, date, message); } else { NewlineNeverAgrees(n, f, v, date, message); }
  }

  /** A version that no line of pyproject.toml sets yet is shown by every file after the bump if and
      only if [tool.commitizen] sets a version, neither version line runs on, the changelog has no entry
      of the new version, and that has no final newline. */
  lemma FreshVersionIsShown(n: Names, f: Files, v: string, date: string, message: string)
    requires Proper(n) && Collect(n, f).Some? && ParseSemver(n.digits, v).Some? && SectionVersion.Fresh(Lines(n, f), v)
    ensures var b := Bump(n, f, v, date, message);
            (b.completed && Collect(n, b.files) == Some(State(v, v, v, Some(v)))) <==>
            (Collect(n, f).value.commitizen.Some? && !RunsOn(n, f, n.project) && !RunsOn(n, f, n.commitizen)
             && !Changelog.HasEntry(n.opening, f.changelog, v) && Plain(v))
  {
    BumpShowsEverywhere(n, f, v, date, message);
    FreshSectionsShow(n, f, v);
  }

  /** With both sections present, neither version line running on and no entry of that version, a plain
      version is shown by every file after the bump, whatever else the files hold. */
  lemma PlainBumpAgrees(n: Names, f: Files, v: string, date: string, message: string)
    requires Proper(n) && Collect(n, f).Some? && ParseSemver(n.digits, v).Some? && Plain(v)
    requires !RunsOn(n, f, n.project) && !RunsOn(n, f, n.commitizen)
    requires Collect(n, f).value.commitizen.Some? && !Changelog.HasEntry(n.opening, f.changelog, v)
    ensures Bump(n, f, v, date, message).completed
    ensures Collect(n, Bump(n, f, v, date, message).files) == Some(State(v, v, v, Some(v)))
  {
    NothingRunsOn(n, f, v);
    BumpShowsEverywhere(n, f, v, date, message);
  }

  /** Without an explicit version the next one is plain, reads back, and is greater than the current. */
  lemma IncrementsArePlain(n: Names, f: Files, i: Increment)
    requires Proper(n) && Plan(n, f, i, None).Success?
    ensures var v := Plan(n, f, i, None).value;
            var current := ParseSemver(n.digits, Collect(n, f).value.core);
            Plain(v) && current.Some? && ParseSemver(n.digits, v).Some? &&
              Less(current.value, ParseSemver(n.digits, v).value)
  {
    PlannedParts(n, f, i, None);
    BumpedIsPlain(n.digits, Collect(n, f).value.core, i);
  }

  lemma BumpedIsPlain(d: Digits, core: string, i: Increment)
    requires Lawful(d) && BumpVersion(d, core, i).Some?
    ensures var v := BumpVersion(d, core, i).value;
            Plain(v) && ParseSemver(d, core).Some? && ParseSemver(d, v).Some? &&
              Less(ParseSemver(d, core).value, ParseSemver(d, v).value)
  {
    assert ParseSemver(d, core).Some?;
    BumpIsNext(d, core, i);
    ShowIsPlain(Next(ParseSemver(d, core).value, i));
  }

  /** A bump that fails half-way leaves drift behind: the version file is already rewritten. */
  lemma FailedBumpsDrift(n: Names, f: Files, i: Increment, explicit: Option<string>, date: string, message: string)
    requires Proper(n) && Plan(n, f, i, explicit).Success?
    requires !Bump(n, f, Plan(n, f, i, explicit).value, date, message).completed
    ensures !DriftFree(n, Bump(n, f, Plan(n, f, i, explicit).value, date, message).files)
  {
    PlannedParts(n, f, i, explicit);
    StoppedBumpDrifts(n, f, Plan(n, f, i, explicit).value, date, message);
  }

  lemma StoppedBumpDrifts(n: Names, f: Files, v: string, date: string, message: string)
    requires Proper(n) && DriftFree(n, f) && ParseSemver(n.digits, v).Some? && v != Collect(n, f).value.core
    requires !Bump(n, f, v, date, message).completed
    ensures !DriftFree(n, Bump(n, f, v, date, message).files)
  {
    var g := Bump(n, f, v, date, message).files;
    NewCoreShows(n, f, v);
    BumpParts(n, f, v, date, message);
    CollectedParts(n, f);
    DriftFreeParts(n, f, Collect(n, f).value.core);
    if DriftFree(n, g) { DriftFreeParts(n, g, v); }
  }

  // --- A repository on which a bump succeeds ---

  /** The smallest set of files that shows one version everywhere. */
  function Minimal(n: Names, v: string): Files {
    var l := CoreVersion.CoreLine(n.key, v) + "\n";
    Files(CoreVersion.CoreLine(n.coreKey, v), n.project + "\n" + (l + (n.commitizen + "\n" + l)),
          Changelog.Heading(n.opening, v))
  }

  lemma MinimalCore(key: string, v: string)
    requires CoreVersion.IsKey(key) && CoreVersion.Quotable(v)
    ensures CoreVersion.ParseCore(key, CoreVersion.CoreLine(key, v)) == Some(v)
  {
    var text := CoreVersion.CoreLine(key, v);
    CoreVersion.CoreLineMatches(key, v, "", "");
    assert text + "" == text && text[0..] == text;
    LineSearch.FirstIsFound(CoreVersion.CoreTest(key), text, 0);
  }

  lemma MinimalChangelog(opening: string, v: string)
    requires Changelog.IsVersionText(v)
    ensures Changelog.ParseChangelog(opening, Changelog.Heading(opening, v)) == Some(v)
  {
    var text := Changelog.Heading(opening, v);
    assert text + "" == text && text[0..] == text;
    Changelog.FirstOpeningIsVersion(opening, text, 0, v, "");
  }

  lemma NoOtherEntry(opening: string, v: string, w: string)
    requires Changelog.IsOpening(opening) && TextLines.NoBreak(v) && ']' !in v && ']' !in w && v != w
    ensures !Changelog.HasEntry(opening, Changelog.Heading(opening, v), w)
  {
    var text, other := Changelog.Heading(opening, v), Changelog.Heading(opening, w);
    forall j: nat ensures !LineSearch.Hit(Changelog.OpeningTest(other), text, j) {
      if j > 0 && j <= |text| {
        OneLine(opening, v, j - 1);
      } else if j == 0 {
        assert text[0..] == text;
        OtherHeading(opening, v, w);
      }
    }
  }

  lemma OneLine(opening: string, v: string, k: nat)
    requires Changelog.IsOpening(opening) && TextLines.NoBreak(v) && k < |Changelog.Heading(opening, v)|
    ensures Changelog.Heading(opening, v)[k] != '\n'
  {
  }

  lemma OtherHeading(opening: string, v: string, w: string)
    requires ']' !in v && ']' !in w && v != w
    ensures !Text.StartsWith(Changelog.Heading(opening, v), Changelog.Heading(opening, w))
  {
    var text, other := Changelog.Heading(opening, v), Changelog.Heading(opening, w);
    var k := |opening| + |w|;
    assert other[k] == ']';
    if |w| < |v| {
      assert text[k] == v[|w|];
      assert text[..|other|][k] == text[k];
    } else if |w| == |v| {
      assert text[|opening|..|opening| + |v|] == v && other[|opening|..|opening| + |w|] == w;
      assert text[..|other|] == text;
    }
  }

  lemma MinimalLines(key: string, project: string, commitizen: string, v: string)
    requires SectionVersion.IsKey(key) && SectionVersion.IsValue(v)
    requires project != "" && commitizen != "" && TextLines.NoBreak(project) && TextLines.NoBreak(commitizen)
    ensures var l := CoreVersion.CoreLine(key, v) + "\n";
            TextLines.SplitLines(project + "\n" + (l + (commitizen + "\n" + l)))
            == [project + "\n", l, commitizen + "\n", l]
  {
    var c := CoreVersion.CoreLine(key, v);
    var l := c + "\n";
    SectionVersion.CoreLineHasNoBreak(key, v);
    SectionVersion.BodyLine(project, "\n", l + (commitizen + "\n" + l));
    SectionVersion.BodyLine(c, "\n", commitizen + "\n" + l);
    SectionVersion.BodyLine(commitizen, "\n", l);
    SectionVersion.BodyLine(c, "\n", "");
    assert l + "" == l;
    assert TextLines.SplitLines("") == [];
  }

  lemma MinimalScan(see: string -> SectionVersion.Seen, project: string, commitizen: string, h: string, l: string,
                    g: string, v: string)
    requires see(h).text == project && see(g).text == commitizen && see(l).version == Some(v)
    requires SectionVersion.IsHeader(project) && SectionVersion.IsHeader(commitizen) && project != commitizen
    requires !SectionVersion.IsHeader(see(l).text)
    ensures SectionVersion.FindSection(see, project, [h, l, g, l]) == Some(SectionVersion.Found(1, v))
    ensures SectionVersion.FindSection(see, commitizen, [h, l, g, l]) == Some(SectionVersion.Found(3, v))
  {
    var seen := SectionVersion.SeeAll(see, [h, l, g, l]);
    assert seen == [see(h), see(l), see(g), see(l)];
    assert seen[0..] == seen;
    SectionVersion.NextSeen(project, seen, 0, false);
    SectionVersion.NextSeen(project, seen, 1, true);
    SectionVersion.NextSeen(commitizen, seen, 0, false);
    SectionVersion.NextSeen(commitizen, seen, 1, false);
    SectionVersion.NextSeen(commitizen, seen, 2, false);
    SectionVersion.NextSeen(commitizen, seen, 3, true);
  }

  lemma SettingLineIsSeen(key: string, v: string)
    requires SectionVersion.IsKey(key) && SectionVersion.IsValue(v)
    ensures var l := SectionVersion.Seeing(key)(CoreVersion.CoreLine(key, v) + "\n");
            l.version == Some(v) && !SectionVersion.IsHeader(l.text)
  {
    var x := CoreVersion.CoreLine(key, v);
    SectionVersion.SettingIsSeen(key, "", v, "\n");
    assert "" + x + "\n" == x + "\n";
  }

  lemma MinimalPyproject(key: string, project: string, commitizen: string, v: string, text: string)
    requires SectionVersion.IsKey(key) && SectionVersion.IsValue(v) && TextLines.NoBreak(project)
    requires TextLines.NoBreak(commitizen)
    requires SectionVersion.IsHeader(project) && SectionVersion.IsHeader(commitizen) && project != commitizen
    requires var l := CoreVersion.CoreLine(key, v) + "\n"; text == project + "\n" + (l + (commitizen + "\n" + l))
    ensures SectionVersion.Scan(project, SectionVersion.Lines(key, text), false) == Some(SectionVersion.Found(1, v))
    ensures SectionVersion.Scan(commitizen, SectionVersion.Lines(key, text), false) == Some(SectionVersion.Found(3, v))
    ensures !SectionVersion.RunsOn(SectionVersion.Lines(key, text), 1)
    ensures !SectionVersion.RunsOn(SectionVersion.Lines(key, text), 3)
  {
    var h, g, l := project + "\n", commitizen + "\n", CoreVersion.CoreLine(key, v) + "\n";
    MinimalLines(key, project, commitizen, v);
    MinimalFinds(key, project, commitizen, v, h, l, g);
    assert l[|l| - 1] == '\n';
    SectionVersion.OpenLines(l);
    SectionVersion.IsSeen(key, l);
    ClosedLines(key, h, l, g);
  }

  lemma ClosedLines(key: string, h: string, l: string, g: string)
    requires !SectionVersion.See(key, l).open
    ensures var seen := SectionVersion.SeeAll(SectionVersion.Seeing(key), [h, l, g, l]);
            !SectionVersion.RunsOn(seen, 1) && !SectionVersion.RunsOn(seen, 3)
  {
  }

  lemma MinimalFinds(key: string, project: string, commitizen: string, v: string, h: string, l: string, g: string)
    requires SectionVersion.IsKey(key) && SectionVersion.IsValue(v)
    requires SectionVersion.IsHeader(project) && SectionVersion.IsHeader(commitizen) && project != commitizen
    requires h == project + "\n" && l == CoreVersion.CoreLine(key, v) + "\n" && g == commitizen + "\n"
    ensures SectionVersion.FindSection(SectionVersion.Seeing(key), project, [h, l, g, l]) ==
              Some(SectionVersion.Found(1, v))
    ensures SectionVersion.FindSection(SectionVersion.Seeing(key), commitizen, [h, l, g, l]) ==
              Some(SectionVersion.Found(3, v))
  {
    SectionVersion.HeaderIsSeen(key, project);
    SectionVersion.HeaderIsSeen(key, commitizen);
    SettingLineIsSeen(key, v);
    MinimalScan(SectionVersion.Seeing(key), project, commitizen, h, l, g, v);
  }

  lemma MinimalCollects(n: Names, v: string)
    requires Proper(n) && TextLines.NoBreak(n.project) && TextLines.NoBreak(n.commitizen)
    requires CoreVersion.Quotable(v) && SectionVersion.IsValue(v) && Changelog.IsVersionText(v)
    ensures Collect(n, Minimal(n, v)) == Some(State(v, v, v, Some(v)))
    ensures !RunsOn(n, Minimal(n, v), n.project) && !RunsOn(n, Minimal(n, v), n.commitizen)
  {
    MinimalCore(n.coreKey, v);
    MinimalChangelog(n.opening, v);
    MinimalPyproject(n.key, n.project, n.commitizen, v, Minimal(n, v).pyproject);
  }

  /** The conditions of a successful bump can be met, for every version: the smallest repository
      that shows it is bumped to the next one. */
  lemma MinimalRepositoriesBump(n: Names, version: Version, i: Increment, date: string, message: string)
    requires Proper(n) && TextLines.NoBreak(n.project) && TextLines.NoBreak(n.commitizen)
    ensures var f := Minimal(n, Show(version));
            var next := Show(Next(version, i));
            && Plan(n, f, i, None) == Success(next)
            && Bump(n, f, next, date, message).completed
            && Collect(n, Bump(n, f, next, date, message).files) == Some(State(next, next, next, Some(next)))
  {
    var v, next := Show(version), Show(Next(version, i));
    ShownIsPlain(n.digits, version);
    ShownIsPlain(n.digits, Next(version, i));
    MinimalCollects(n, v);
    NextIsShown(n.digits, version, i);
    DecidesFor(n.digits, v, i, next);
    NoOtherEntry(n.opening, v, next);
    PlainBumpAgrees(n, Minimal(n, v), next, date, message);
  }

  lemma DecidesFor(d: Digits, v: string, i: Increment, next: string)
    requires Chosen(d, v, i, None) == Some(next) && next != v
    ensures Decided(d, Some(State(v, v, v, Some(v))), i, None) == Success(next)
  {
  }

  lemma ShownIsPlain(d: Digits, version: Version)
    requires Lawful(d)
    ensures ParseSemver(d, Show(version)) == Some(version) && Plain(Show(version))
    ensures CoreVersion.Quotable(Show(version)) && SectionVersion.IsValue(Show(version))
    ensures Changelog.IsVersionText(Show(version))
  {
    assert Show(version) + [] == Show(version);
    ShownVersionsParse(d, version, []);
    ShowIsPlain(version);
    PlainVersions(d, Show(version));
  }

  lemma NextIsShown(d: Digits, version: Version, i: Increment)
    requires Lawful(d)
    ensures Chosen(d, Show(version), i, None) == Some(Show(Next(version, i))) && Show(Next(version, i)) != Show(version)
  {
    ShownIsPlain(d, version);
    ShownIsPlain(d, Next(version, i));
  }
}
