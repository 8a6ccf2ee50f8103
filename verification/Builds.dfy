/** Build presets of the LLM proxy: normalisation of one build, validation of a list, lookup, and
    the options a build gives to the model server. */
module Builds {
  import opened Wrappers
  import Text

  const DEFAULT_NUM_PREDICT := 65536
  const MAX_NUM_PREDICT := 262144
  const MAX_NUM_CTX := 262144

  /** A JSON value. `Other` stands for lists and objects. */
  datatype Json = Null | Bool(b: bool) | Int(n: int) | Float(r: real) | Str(s: string)
    | Other(truthy: bool, shown: string)

  /** The boolean fields of a build. */
  datatype Flag =
    | UsePromptTemplate | RagEnabled | SkillsEnabled | WebEnabled | FetchWebKnowledge
    | WebInteractionEnabled | WebInteractionOnKeywords | WebInteractionOnLowConfidence
    | WebInteractionDdgNews | WebInteractionFetchPage | WebInteractionWikipedia | CodeOnly
    | IncludeRagMetadata | ChatThink | IdeMode | Private | SseStreaming

  datatype Field =
    | Id | DisplayName | Backend | ProviderId | Model | LegacyOllamaModel | VisionModel | PromptName | RagCollection
    | Switch(flag: Flag)
    | Temperature | TopP | MaxAgentSteps | NumCtx | NumPredict
    | ContextChunkChars | ContextTotalChars | RagTopK

  type Dict = map<Field, Json>

  /** The conversions of Python that are used as they are: `strip`, `str`, `int`, `float` and `lower`. */
  datatype Python = Python(strip: string -> string, show: Json -> string, parseInt: string -> Option<int>,
                           parseFloat: string -> Option<real>, lower: string -> string)

  /** All that is assumed of them: stripping twice is stripping once, whatever is not a string prints as something,
      and the fixed names are stripped lower case already. */
  ghost predicate Sane(py: Python) {
    && (forall s: string :: py.strip(py.strip(s)) == py.strip(s))
    && py.strip("") == ""
    && (forall v: Json :: !v.Str? ==> py.strip(py.show(v)) != "")
    && py.strip("dumb") == py.lower("dumb") == "dumb"
    && py.strip("ollama") == "ollama"
    && py.strip("rag_fusion") == py.lower("rag_fusion") == "rag_fusion"
  }

  lemma StripOfVisible(s: string)
    requires s != "" && !Text.IsSpace(s[0]) && !Text.IsSpace(s[|s| - 1])
    ensures Text.Strip(s) == s
  {
  }

  /** `str.strip`, as modelled. */
  function Strips(): string -> string {
    s => Text.Strip(s)
  }

  lemma NamesStrip(names: set<string>)
    requires forall s | s in names :: s == "" || (!Text.IsSpace(s[0]) && !Text.IsSpace(s[|s| - 1]))
    ensures forall s | s in names :: Strips()(s) == s
  {
  }

  lemma SaneWith(strip: string -> string, show: Json -> string, parseInt: string -> Option<int>,
                 parseFloat: string -> Option<real>)
    requires (forall s: string :: strip(strip(s)) == strip(s)) && (forall v: Json :: strip(show(v)) != "")
    requires forall s | s in {"", "dumb", "ollama", "rag_fusion"} :: strip(s) == s
    ensures Sane(Python(strip, show, parseInt, parseFloat, s => s))
  {
  }

  /** The assumptions can be met, with the `strip` that is modelled. */
  lemma SanityCanBeMet(show: Json -> string, parseInt: string -> Option<int>, parseFloat: string -> Option<real>)
    requires forall v: Json :: Strips()(show(v)) != ""
    ensures Sane(Python(Strips(), show, parseInt, parseFloat, s => s))
  {
    forall s: string ensures Strips()(Strips()(s)) == Strips()(s) {
      Text.StripIdempotent(s);
    }
    NamesStrip({"", "dumb", "ollama", "rag_fusion"});
    SaneWith(Strips(), show, parseInt, parseFloat);
  }

  function Get(d: Dict, f: Field): Json {
    if f in d then d[f] else Null
  }

  function Truthy(v: Json): bool {
    match v
    case Null => false
    case Bool(b) => b
    case Int(n) => n != 0
    case Float(r) => r != 0.0
    case Str(s) => s != ""
    case Other(truthy, _) => truthy
  }

  /** `str(v)`. */
  function AsString(py: Python, v: Json): string {
    if v.Str? then v.s else py.show(v)
  }

  /** `str(v or default).strip()`. */
  function Stripped(py: Python, v: Json, default: string): string {
    py.strip(if Truthy(v) then AsString(py, v) else default)
  }

  /** `int(v)`, or None where it raises. */
  function AsInt(py: Python, v: Json): Option<int> {
    match v
    case Bool(b) => Some(if b then 1 else 0)
    case Int(n) => Some(n)
    case Float(r) => Some(if r >= 0.0 then r.Floor else -((-r).Floor))
    case Str(s) => py.parseInt(s)
    case _ => None
  }

  /** `float(v)`, or None where it raises. */
  function AsFloat(py: Python, v: Json): Option<real> {
    match v
    case Bool(b) => Some(if b then 1.0 else 0.0)
    case Int(n) => Some(n as real)
    case Float(r) => Some(r)
    case Str(s) => py.parseFloat(s)
    case _ => None
  }

  /** A value left empty: missing, or blank when printed. */
  predicate Empty(py: Python, v: Json) {
    v == Null || py.strip(AsString(py, v)) == ""
  }

  // --- Accepted builds ---

  datatype Build = Build(
    id: string, displayName: string, backend: string, providerId: string, model: string,
    visionModel: string, promptName: string, ragCollection: string,
    flags: map<Flag, bool>,
    temperature: Option<real>, topP: Option<real>,
    maxAgentSteps: Option<int>, numCtx: Option<int>, numPredict: int,
    contextChunkChars: Option<int>, contextTotalChars: Option<int>, ragTopK: Option<int>)

  /** Flags that are on when absent. */
  predicate OnByDefault(f: Flag) {
    f !in {FetchWebKnowledge, WebInteractionEnabled, WebInteractionDdgNews, WebInteractionFetchPage,
           WebInteractionWikipedia, CodeOnly, ChatThink, IdeMode, Private}
  }

  /** Flags that anything but JSON false switches on. */
  predicate OffOnlyByFalse(f: Flag) {
    f in {UsePromptTemplate, WebInteractionOnKeywords, WebInteractionOnLowConfidence, SseStreaming}
  }

  function FlagValue(d: Dict, f: Flag): bool {
    var v := if Switch(f) in d then d[Switch(f)] else Bool(OnByDefault(f));
    if OffOnlyByFalse(f) then v != Bool(false) else Truthy(v)
  }

  const FLAGS := {
    UsePromptTemplate, RagEnabled, SkillsEnabled, WebEnabled, FetchWebKnowledge, WebInteractionEnabled,
    WebInteractionOnKeywords, WebInteractionOnLowConfidence, WebInteractionDdgNews, WebInteractionFetchPage,
    WebInteractionWikipedia, CodeOnly, IncludeRagMetadata, ChatThink, IdeMode, Private, SseStreaming}

  /** The flags of the result: without web access two more are forced off. */
  function Flags(d: Dict): map<Flag, bool> {
    map f | f in FLAGS ::
      FlagValue(d, f) && (f in {FetchWebKnowledge, WebInteractionEnabled} ==> FlagValue(d, WebEnabled))
  }

  function LegacyModel(py: Python, d: Dict): string { Stripped(py, Get(d, LegacyOllamaModel), "") }

  function ProviderOf(py: Python, d: Dict): string {
    var provider := Stripped(py, Get(d, ProviderId), "");
    if provider == "" && LegacyModel(py, d) != "" then "ollama" else provider
  }

  function ModelOf(py: Python, d: Dict): string {
    var model := Stripped(py, Get(d, Model), "");
    if model == "" then LegacyModel(py, d) else model
  }

  function BackendOf(py: Python, d: Dict): string {
    py.lower(Stripped(py, Get(d, Backend), "dumb"))
  }

  function OptionalInt(py: Python, v: Json): Option<int> {
    if Empty(py, v) then None else AsInt(py, v)
  }

  function OptionalFloat(py: Python, v: Json): Option<real> {
    if Empty(py, v) then None else AsFloat(py, v)
  }

  // --- What is checked ---

  predicate IsIdStart(c: char) { 'a' <= c <= 'z' || 'A' <= c <= 'Z' }
  predicate IsIdChar(c: char) { IsIdStart(c) || '0' <= c <= '9' || c == '_' || c == '.' || c == '-' }

  predicate ValidId(id: string) {
    1 <= |id| <= 128 && IsIdStart(id[0]) && forall i :: 1 <= i < |id| ==> IsIdChar(id[i])
  }

  /** The ASCII letters and digits, by their code points. */
  predicate Letter(c: char) { 0x41 <= c as int <= 0x5a || 0x61 <= c as int <= 0x7a }
  predicate Digit(c: char) { 0x30 <= c as int <= 0x39 }

  /** An id is a letter and up to 127 letters, digits, underscores, dots and hyphens behind it. */
  lemma IdsAreSpelled(id: string)
    ensures ValidId(id) <==>
              && id != "" && |id| < 129 && Letter(id[0])
              && forall c :: c in id[1..] ==> Letter(c) || Digit(c) || c in {'_', '.', '-'}
  {
    if id != "" {
      assert forall i :: 1 <= i < |id| ==> id[1..][i - 1] == id[i];
      assert forall c :: Letter(c) || Digit(c) || c in {'_', '.', '-'} <==> IsIdChar(c);
    }
  }

  /** Left empty, or an integer between the bounds. */
  predicate BoundedOrEmpty(py: Python, v: Json, lo: int, hi: int) {
    Empty(py, v) || (AsInt(py, v).Some? && lo <= AsInt(py, v).value <= hi)
  }

  predicate NumberOrEmpty(py: Python, v: Json) {
    Empty(py, v) || AsFloat(py, v).Some?
  }

  datatype Error =
    | BadId | BadBackend | NoProvider | NoModel | NoPromptName | BadAgentSteps | BadTemperature | BadTopP
    | BadNumCtx | BadNumPredict | BadChunkChars | BadTotalChars | BadTopK

  function When(bad: bool, e: Error): seq<Error> { if bad then [e] else [] }

  function KnownBackend(backend: string): bool { backend == "dumb" || backend == "rag_fusion" }

  /** The errors, in the order in which they are found; a bad id hides all the others. */
  function ErrorsOf(py: Python, d: Dict): seq<Error> {
    if !ValidId(Stripped(py, Get(d, Id), "")) then [BadId]
    else
      When(!KnownBackend(BackendOf(py, d)), BadBackend)
      + When(KnownBackend(BackendOf(py, d)) && ProviderOf(py, d) == "", NoProvider)
      + When(KnownBackend(BackendOf(py, d)) && ModelOf(py, d) == "", NoModel)
      + When(FlagValue(d, UsePromptTemplate) && Stripped(py, Get(d, PromptName), "") == "", NoPromptName)
      + When(!BoundedOrEmpty(py, Get(d, MaxAgentSteps), 1, 256), BadAgentSteps)
      + When(!NumberOrEmpty(py, Get(d, Temperature)), BadTemperature)
      + When(!NumberOrEmpty(py, Get(d, TopP)), BadTopP)
      + When(!BoundedOrEmpty(py, Get(d, NumCtx), 256, MAX_NUM_CTX), BadNumCtx)
      + When(!BoundedOrEmpty(py, Get(d, NumPredict), 1, MAX_NUM_PREDICT), BadNumPredict)
      + When(!BoundedOrEmpty(py, Get(d, ContextChunkChars), 64, 500000), BadChunkChars)
      + When(!BoundedOrEmpty(py, Get(d, ContextTotalChars), 256, 2000000), BadTotalChars)
      + When(!BoundedOrEmpty(py, Get(d, RagTopK), 1, 256), BadTopK)
  }

  function Normalized(py: Python, d: Dict): Build {
    var id := Stripped(py, Get(d, Id), "");
    var displayName := Stripped(py, Get(d, DisplayName), id);
    var predict := OptionalInt(py, Get(d, NumPredict));
    Build(
      id, if displayName == "" then id else displayName, BackendOf(py, d), ProviderOf(py, d), ModelOf(py, d),
      Stripped(py, Get(d, VisionModel), ""), Stripped(py, Get(d, PromptName), ""),
        Stripped(py, Get(d, RagCollection), ""),
      Flags(d),
      OptionalFloat(py, Get(d, Temperature)), OptionalFloat(py, Get(d, TopP)),
      OptionalInt(py, Get(d, MaxAgentSteps)), OptionalInt(py, Get(d, NumCtx)),
      if predict.Some? then predict.value else DEFAULT_NUM_PREDICT,
      OptionalInt(py, Get(d, ContextChunkChars)), OptionalInt(py, Get(d, ContextTotalChars)),
        OptionalInt(py, Get(d, RagTopK)))
  }

  /** `normalize_build`. */
  function NormalizeBuild(py: Python, d: Dict): Option<Build> {
    if ErrorsOf(py, d) == [] then Some(Normalized(py, d)) else None
  }

  // --- The dict of an accepted build ---

  function JsonInt(n: Option<int>): Json { if n.Some? then Int(n.value) else Null }
  function JsonFloat(r: Option<real>): Json { if r.Some? then Float(r.value) else Null }

  /** The value of a field in the dict that `normalize_build` returns; Null where it has none. */
  function ValueOf(b: Build, f: Field): Json {
    match f
    case Id => Str(b.id)
    case DisplayName => Str(b.displayName)
    case Backend => Str(b.backend)
    case ProviderId => Str(b.providerId)
    case Model => Str(b.model)
    case LegacyOllamaModel => Null
    case VisionModel => Str(b.visionModel)
    case PromptName => Str(b.promptName)
    case RagCollection => Str(b.ragCollection)
    case Switch(flag) => if flag in b.flags then Bool(b.flags[flag]) else Null
    case Temperature => JsonFloat(b.temperature)
    case TopP => JsonFloat(b.topP)
    case MaxAgentSteps => JsonInt(b.maxAgentSteps)
    case NumCtx => JsonInt(b.numCtx)
    case NumPredict => Int(b.numPredict)
    case ContextChunkChars => JsonInt(b.contextChunkChars)
    case ContextTotalChars => JsonInt(b.contextTotalChars)
    case RagTopK => JsonInt(b.ragTopK)
  }

  const PLAIN_FIELDS := {
    Id, DisplayName, Backend, ProviderId, Model, VisionModel, PromptName, RagCollection, Temperature, TopP,
    MaxAgentSteps, NumCtx, NumPredict, ContextChunkChars, ContextTotalChars, RagTopK}

  function AllFields(): set<Field> {
    PLAIN_FIELDS + set f | f in FLAGS :: Switch(f)
  }

  function DictOf(b: Build): Dict {
    map f | f in AllFields() && ValueOf(b, f) != Null :: ValueOf(b, f)
  }

  /** Reading `d` gives the values of `b`. */
  ghost predicate Reads(d: Dict, b: Build) {
    forall f :: Get(d, f) == ValueOf(b, f)
  }

  lemma DictReads(b: Build)
    ensures Reads(DictOf(b), b)
  {
    forall f ensures Get(DictOf(b), f) == ValueOf(b, f) {
      FieldListed(f);
      DictReadsField(b, f);
    }
  }

  lemma DictReadsField(b: Build, f: Field)
    requires f in AllFields() || ValueOf(b, f) == Null
    ensures Get(DictOf(b), f) == ValueOf(b, f)
  {
  }

  lemma FieldListed(f: Field)
    ensures f in AllFields() || f == LegacyOllamaModel
  {
    if f.Switch? { FlagListed(f.flag); }
  }

  lemma FlagListed(f: Flag)
    ensures f in FLAGS
  {
  }

  // --- What an accepted build is known to be ---

  predicate InRange(n: Option<int>, lo: int, hi: int) {
    n.Some? ==> lo <= n.value <= hi
  }

  ghost predicate NormalNames(py: Python, b: Build) {
    && ValidId(b.id) && py.strip(b.id) == b.id
    && b.displayName != "" && py.strip(b.displayName) == b.displayName
    && (b.backend == "dumb" || b.backend == "rag_fusion")
    && b.providerId != "" && py.strip(b.providerId) == b.providerId
    && b.model != "" && py.strip(b.model) == b.model
    && py.strip(b.visionModel) == b.visionModel && py.strip(b.promptName) == b.promptName
    && py.strip(b.ragCollection) == b.ragCollection
  }

  ghost predicate NormalFlags(b: Build) {
    && b.flags.Keys == FLAGS && (b.flags[UsePromptTemplate] ==> b.promptName != "")
    && (forall f :: f in {FetchWebKnowledge, WebInteractionEnabled} && b.flags[f] ==> b.flags[WebEnabled])
  }

  predicate NormalNumbers(b: Build) {
    && InRange(b.maxAgentSteps, 1, 256) && InRange(b.numCtx, 256, MAX_NUM_CTX) && 1 <= b.numPredict <= MAX_NUM_PREDICT
    && InRange(b.contextChunkChars, 64, 500000) && InRange(b.contextTotalChars, 256, 2000000)
    && InRange(b.ragTopK, 1, 256)
  }

  ghost predicate Normal(py: Python, b: Build) {
    NormalNames(py, b) && NormalFlags(b) && NormalNumbers(b)
  }

  lemma NoErrors(py: Python, d: Dict)
    requires ErrorsOf(py, d) == []
    ensures ValidId(Stripped(py, Get(d, Id), "")) && KnownBackend(BackendOf(py, d))
    ensures ProviderOf(py, d) != "" && ModelOf(py, d) != ""
    ensures FlagValue(d, UsePromptTemplate) ==> Stripped(py, Get(d, PromptName), "") != ""
    ensures BoundedOrEmpty(py, Get(d, MaxAgentSteps), 1, 256)
    ensures NumberOrEmpty(py, Get(d, Temperature)) && NumberOrEmpty(py, Get(d, TopP))
    ensures BoundedOrEmpty(py, Get(d, NumCtx), 256, MAX_NUM_CTX)
    ensures BoundedOrEmpty(py, Get(d, NumPredict), 1, MAX_NUM_PREDICT)
    ensures BoundedOrEmpty(py, Get(d, ContextChunkChars), 64, 500000)
    ensures BoundedOrEmpty(py, Get(d, ContextTotalChars), 256, 2000000)
    ensures BoundedOrEmpty(py, Get(d, RagTopK), 1, 256)
  {
  }

  lemma ProviderAndModelAreStripped(py: Python, d: Dict)
    requires Sane(py) && ProviderOf(py, d) != "" && ModelOf(py, d) != ""
    ensures py.strip(ModelOf(py, d)) == ModelOf(py, d)
    ensures py.strip(ProviderOf(py, d)) == ProviderOf(py, d)
  {
  }

  /** Whatever is accepted is normal. */
  lemma AcceptedIsNormal(py: Python, d: Dict)
    requires Sane(py) && NormalizeBuild(py, d).Some?
    ensures Normal(py, NormalizeBuild(py, d).value)
  {
    NoErrors(py, d);
    ProviderAndModelAreStripped(py, d);
  }

  // --- Which build a dict stands for ---

  /** `r` is the stripped text of a field; of the default where the field is absent or empty. */
  ghost predicate TextIs(py: Python, d: Dict, f: Field, default: string, r: string) {
    if f !in d then r == py.strip(default)
    else
      match d[f]
      case Null => r == py.strip(default)
      case Str(s) => r == py.strip(if s == "" then default else s)
      case v => r == py.strip(if v in {Bool(false), Int(0), Float(0.0)} || (v.Other? && !v.truthy) then default
                              else py.show(v))
  }

  /** The field is absent, or holds nothing that prints. */
  ghost predicate NotGiven(py: Python, d: Dict, f: Field) {
    f !in d || d[f] == Null || py.strip(if d[f].Str? then d[f].s else py.show(d[f])) == ""
  }

  /** `n` is what `int` makes of a value: a real number is cut off towards zero. */
  ghost predicate ReadsInt(py: Python, v: Json, n: int) {
    match v
    case Null => false
    case Bool(b) => n == if b then 1 else 0
    case Int(m) => n == m
    case Float(r) => if r >= 0.0 then n as real <= r < n as real + 1.0 else n as real - 1.0 < r <= n as real
    case Str(s) => py.parseInt(s) == Some(n)
    case Other(_, _) => false
  }

  ghost predicate ReadsFloat(py: Python, v: Json, r: real) {
    match v
    case Null => false
    case Bool(b) => r == if b then 1.0 else 0.0
    case Int(m) => r == m as real
    case Float(q) => r == q
    case Str(s) => py.parseFloat(s) == Some(r)
    case Other(_, _) => false
  }

  /** `n` is the number of a field, or None where none is given; a given one must read. */
  ghost predicate IntIs(py: Python, d: Dict, f: Field, n: Option<int>) {
    if NotGiven(py, d, f) then n == None else n.Some? && ReadsInt(py, d[f], n.value)
  }

  ghost predicate FloatIs(py: Python, d: Dict, f: Field, r: Option<real>) {
    if NotGiven(py, d, f) then r == None else r.Some? && ReadsFloat(py, d[f], r.value)
  }

  const ON_WHEN_ABSENT := {
    UsePromptTemplate, RagEnabled, SkillsEnabled, WebEnabled, WebInteractionOnKeywords, WebInteractionOnLowConfidence,
    IncludeRagMetadata, SseStreaming}

  const ON_UNLESS_FALSE := {
    UsePromptTemplate, WebInteractionOnKeywords, WebInteractionOnLowConfidence, SseStreaming}

  /** The flag is on: by default, by anything but false, or by a value that counts as true. */
  ghost predicate SwitchedOn(d: Dict, f: Flag) {
    if Switch(f) !in d then f in ON_WHEN_ABSENT
    else
      match d[Switch(f)]
      case Bool(b) => b
      case Null => f in ON_UNLESS_FALSE
      case Int(n) => f in ON_UNLESS_FALSE || n != 0
      case Float(r) => f in ON_UNLESS_FALSE || r != 0.0
      case Str(s) => f in ON_UNLESS_FALSE || s != ""
      case Other(truthy, _) => f in ON_UNLESS_FALSE || truthy
  }

  ghost predicate NamesAre(py: Python, d: Dict, b: Build) {
    && TextIs(py, d, Id, "", b.id)
    && (exists shown :: TextIs(py, d, DisplayName, b.id, shown) && b.displayName == if shown == "" then b.id else shown)
    && TextIs(py, d, VisionModel, "", b.visionModel) && TextIs(py, d, PromptName, "", b.promptName)
    && TextIs(py, d, RagCollection, "", b.ragCollection)
  }

  /** A model named in the old way stands in for a missing model, and for a missing provider with "ollama". */
  ghost predicate RouteIs(py: Python, d: Dict, b: Build) {
    && (exists name :: TextIs(py, d, Backend, "dumb", name) && b.backend == py.lower(name))
    && (exists legacy, given ::
          TextIs(py, d, LegacyOllamaModel, "", legacy) && TextIs(py, d, ProviderId, "", given) &&
          b.providerId == if given == "" && legacy != "" then "ollama" else given)
    && (exists legacy, given ::
          TextIs(py, d, LegacyOllamaModel, "", legacy) && TextIs(py, d, Model, "", given) &&
          b.model == if given == "" then legacy else given)
  }

  /** Without web access two more flags are off. */
  ghost predicate FlagsAre(d: Dict, b: Build) {
    && b.flags.Keys == FLAGS
    && forall f :: f in FLAGS ==>
         (b.flags[f] <==> SwitchedOn(d, f) &&
                          (f in {FetchWebKnowledge, WebInteractionEnabled} ==> SwitchedOn(d, WebEnabled)))
  }

  ghost predicate NumbersAre(py: Python, d: Dict, b: Build) {
    && FloatIs(py, d, Temperature, b.temperature) && FloatIs(py, d, TopP, b.topP)
    && IntIs(py, d, MaxAgentSteps, b.maxAgentSteps) && IntIs(py, d, NumCtx, b.numCtx)
    && (exists n :: IntIs(py, d, NumPredict, n) && b.numPredict == if n.Some? then n.value else DEFAULT_NUM_PREDICT)
    && IntIs(py, d, ContextChunkChars, b.contextChunkChars) && IntIs(py, d, ContextTotalChars, b.contextTotalChars)
    && IntIs(py, d, RagTopK, b.ragTopK)
  }

  /** A dict stands for a build, told from its entries alone. */
  ghost predicate StandsFor(py: Python, d: Dict, b: Build) {
    NamesAre(py, d, b) && RouteIs(py, d, b) && FlagsAre(d, b) && NumbersAre(py, d, b)
  }

  lemma TextIsStripped(py: Python, d: Dict, f: Field, default: string, r: string)
    ensures TextIs(py, d, f, default, r) <==> r == Stripped(py, Get(d, f), default)
  {
  }

  lemma TruncatesOnce(r: real, n: int)
    ensures (if r >= 0.0 then n as real <= r < n as real + 1.0 else n as real - 1.0 < r <= n as real) <==>
              n == if r >= 0.0 then r.Floor else -((-r).Floor)
  {
  }

  lemma IntIsRead(py: Python, d: Dict, f: Field, n: Option<int>)
    ensures IntIs(py, d, f, n) <==> n == OptionalInt(py, Get(d, f)) && (Empty(py, Get(d, f)) || n.Some?)
  {
    if f in d && d[f].Float? && n.Some? { TruncatesOnce(d[f].r, n.value); }
  }

  lemma FloatIsRead(py: Python, d: Dict, f: Field, r: Option<real>)
    ensures FloatIs(py, d, f, r) <==> r == OptionalFloat(py, Get(d, f)) && (Empty(py, Get(d, f)) || r.Some?)
  {
  }

  lemma SwitchIsFlag(d: Dict, f: Flag)
    ensures SwitchedOn(d, f) <==> FlagValue(d, f)
  {
  }

  lemma NamesAreNormalized(py: Python, d: Dict, b: Build)
    ensures NamesAre(py, d, b) <==>
            var n := Normalized(py, d);
            && b.id == n.id && b.displayName == n.displayName && b.visionModel == n.visionModel
            && b.promptName == n.promptName && b.ragCollection == n.ragCollection
  {
    hide TextIs, Stripped;
    forall f, default, r ensures TextIs(py, d, f, default, r) <==> r == Stripped(py, Get(d, f), default) {
      TextIsStripped(py, d, f, default, r);
    }
    assert TextIs(py, d, DisplayName, b.id, Stripped(py, Get(d, DisplayName), b.id));
  }

  lemma RouteIsNormalized(py: Python, d: Dict, b: Build)
    ensures RouteIs(py, d, b) <==>
            b.backend == BackendOf(py, d) && b.providerId == ProviderOf(py, d) && b.model == ModelOf(py, d)
  {
    hide TextIs, Stripped;
    forall f, default, r ensures TextIs(py, d, f, default, r) <==> r == Stripped(py, Get(d, f), default) {
      TextIsStripped(py, d, f, default, r);
    }
    assert TextIs(py, d, Backend, "dumb", Stripped(py, Get(d, Backend), "dumb"));
    assert TextIs(py, d, ProviderId, "", Stripped(py, Get(d, ProviderId), ""));
    assert TextIs(py, d, Model, "", Stripped(py, Get(d, Model), ""));
    assert TextIs(py, d, LegacyOllamaModel, "", LegacyModel(py, d));
  }

  lemma FlagsAreNormalized(d: Dict, b: Build)
    ensures FlagsAre(d, b) <==> b.flags == Flags(d)
  {
    hide SwitchedOn, FlagValue;
    forall f ensures SwitchedOn(d, f) <==> FlagValue(d, f) {
      SwitchIsFlag(d, f);
    }
    assert Flags(d).Keys == FLAGS;
  }

  /** Every number that is given reads. */
  ghost predicate NumbersRead(py: Python, d: Dict) {
    && (forall f :: f in {Temperature, TopP} ==> Empty(py, Get(d, f)) || AsFloat(py, Get(d, f)).Some?)
    && (forall f :: f in {MaxAgentSteps, NumCtx, NumPredict, ContextChunkChars, ContextTotalChars, RagTopK} ==>
          Empty(py, Get(d, f)) || AsInt(py, Get(d, f)).Some?)
  }

  ghost predicate SameNumbers(a: Build, b: Build) {
    && a.temperature == b.temperature && a.topP == b.topP && a.maxAgentSteps == b.maxAgentSteps
    && a.numCtx == b.numCtx && a.numPredict == b.numPredict && a.contextChunkChars == b.contextChunkChars
    && a.contextTotalChars == b.contextTotalChars && a.ragTopK == b.ragTopK
  }

  lemma NumbersAreNormalized(py: Python, d: Dict, b: Build)
    ensures NumbersAre(py, d, b) <==> SameNumbers(b, Normalized(py, d)) && NumbersRead(py, d)
  {
    hide IntIs, FloatIs, Empty, AsInt, AsFloat;
    forall f, n ensures IntIs(py, d, f, n) <==> n == OptionalInt(py, Get(d, f)) && (Empty(py, Get(d, f)) || n.Some?) {
      IntIsRead(py, d, f, n);
    }
    forall f, r
      ensures FloatIs(py, d, f, r) <==> r == OptionalFloat(py, Get(d, f)) && (Empty(py, Get(d, f)) || r.Some?)
    {
      FloatIsRead(py, d, f, r);
    }
    assert NumbersRead(py, d) && b.numPredict == Normalized(py, d).numPredict ==>
        IntIs(py, d, NumPredict, OptionalInt(py, Get(d, NumPredict)));
  }

  /** A build that is normal and whose numbers all read has no errors. */
  lemma NormalHasNoErrors(py: Python, d: Dict)
    requires Normal(py, Normalized(py, d)) && NumbersRead(py, d)
    ensures ErrorsOf(py, d) == []
  {
    hide Stripped, ProviderOf, ModelOf, BackendOf, FlagValue, AsInt, AsFloat, Empty, ValidId;
    assert Flags(d)[UsePromptTemplate] <==> FlagValue(d, UsePromptTemplate);
    assert NumberOrEmpty(py, Get(d, Temperature)) && NumberOrEmpty(py, Get(d, TopP));
    assert BoundedOrEmpty(py, Get(d, NumPredict), 1, MAX_NUM_PREDICT);
    assert BoundedOrEmpty(py, Get(d, MaxAgentSteps), 1, 256) && BoundedOrEmpty(py, Get(d, NumCtx), 256, MAX_NUM_CTX);
    assert BoundedOrEmpty(py, Get(d, ContextChunkChars), 64, 500000);
    assert BoundedOrEmpty(py, Get(d, ContextTotalChars), 256, 2000000);
    assert BoundedOrEmpty(py, Get(d, RagTopK), 1, 256);
  }

  /** Exactly which build a dict is accepted as: the one that it stands for, if that is normal. */
  lemma AcceptedExactly(py: Python, d: Dict, b: Build)
    requires Sane(py)
    ensures NormalizeBuild(py, d) == Some(b) <==> StandsFor(py, d, b) && Normal(py, b)
  {
    hide NamesAre, RouteIs, FlagsAre, NumbersAre, Normal, Sane, ErrorsOf, NumbersRead, Flags;
    NamesAreNormalized(py, d, b);
    RouteIsNormalized(py, d, b);
    FlagsAreNormalized(d, b);
    NumbersAreNormalized(py, d, b);
    assert StandsFor(py, d, b) ==> b == Normalized(py, d);
    if NormalizeBuild(py, d) == Some(b) {
      AcceptedIsNormal(py, d);
      AcceptedNumbersRead(py, d);
    }
    if Normal(py, Normalized(py, d)) && NumbersRead(py, d) {
      NormalHasNoErrors(py, d);
    }
  }

  lemma AcceptedNumbersRead(py: Python, d: Dict)
    requires ErrorsOf(py, d) == []
    ensures NumbersRead(py, d)
  {
    hide ErrorsOf;
    NoErrors(py, d);
  }

  // --- Normalisation is a fixed point ---

  lemma NameComesBack(py: Python, s: string, default: string)
    requires py.strip(s) == s && py.strip("") == "" && (s == "" ==> default == "")
    ensures Stripped(py, Str(s), default) == s
  {
  }

  /** The names of a normal build come back from its dict. */
  lemma NamesComeBack(py: Python, d: Dict, b: Build)
    requires Sane(py) && NormalNames(py, b) && Reads(d, b)
    ensures Stripped(py, Get(d, Id), "") == b.id && Stripped(py, Get(d, DisplayName), b.id) == b.displayName
    ensures Stripped(py, Get(d, VisionModel), "") == b.visionModel
    ensures Stripped(py, Get(d, PromptName), "") == b.promptName
    ensures Stripped(py, Get(d, RagCollection), "") == b.ragCollection
  {
    NameComesBack(py, b.id, "");
    NameComesBack(py, b.displayName, b.id);
    NameComesBack(py, b.visionModel, "");
    NameComesBack(py, b.promptName, "");
    NameComesBack(py, b.ragCollection, "");
  }

  lemma RoutesComeBack(py: Python, d: Dict, b: Build)
    requires Sane(py) && NormalNames(py, b) && Reads(d, b)
    ensures BackendOf(py, d) == b.backend && ProviderOf(py, d) == b.providerId && ModelOf(py, d) == b.model
  {
    NameComesBack(py, b.providerId, "");
    NameComesBack(py, b.model, "");
    NameComesBack(py, b.backend, "dumb");
    assert Get(d, Backend) == Str(b.backend);
    assert Get(d, ProviderId) == Str(b.providerId);
    assert Get(d, Model) == Str(b.model);
  }

  lemma FlagsComeBack(d: Dict, b: Build)
    requires NormalFlags(b) && Reads(d, b)
    ensures Flags(d) == b.flags && (FlagValue(d, UsePromptTemplate) <==> b.flags[UsePromptTemplate])
  {
    hide FlagValue, Reads;
    forall f | f in FLAGS ensures FlagValue(d, f) == b.flags[f] {
      FlagComesBack(d, b, f);
    }
    FlagListed(WebEnabled);
    FlagListed(UsePromptTemplate);
    assert Flags(d).Keys == FLAGS;
  }

  lemma FlagComesBack(d: Dict, b: Build, f: Flag)
    requires f in b.flags && Reads(d, b)
    ensures FlagValue(d, f) == b.flags[f]
  {
    assert Get(d, Switch(f)) == Bool(b.flags[f]);
  }

  /** A number field that is accepted and read back as `n`. */
  predicate IntField(py: Python, v: Json, n: Option<int>, lo: int, hi: int) {
    OptionalInt(py, v) == n && BoundedOrEmpty(py, v, lo, hi)
  }

  predicate FloatField(py: Python, v: Json, r: Option<real>) {
    OptionalFloat(py, v) == r && NumberOrEmpty(py, v)
  }

  lemma IntComesBack(py: Python, v: Json, n: Option<int>, lo: int, hi: int)
    requires Sane(py) && InRange(n, lo, hi) && v == JsonInt(n)
    ensures IntField(py, v, n, lo, hi)
  {
  }

  lemma FloatComesBack(py: Python, v: Json, r: Option<real>)
    requires Sane(py) && v == JsonFloat(r)
    ensures FloatField(py, v, r)
  {
  }

  /** The numbers of a normal build come back from its dict. */
  lemma NumbersComeBack(py: Python, d: Dict, b: Build)
    requires Sane(py) && NormalNumbers(b) && Reads(d, b)
    ensures FloatField(py, Get(d, Temperature), b.temperature) && FloatField(py, Get(d, TopP), b.topP)
    ensures IntField(py, Get(d, MaxAgentSteps), b.maxAgentSteps, 1, 256)
    ensures IntField(py, Get(d, NumCtx), b.numCtx, 256, MAX_NUM_CTX)
    ensures IntField(py, Get(d, NumPredict), Some(b.numPredict), 1, MAX_NUM_PREDICT)
  {
    FloatComesBack(py, Get(d, Temperature), b.temperature);
    FloatComesBack(py, Get(d, TopP), b.topP);
    IntComesBack(py, Get(d, MaxAgentSteps), b.maxAgentSteps, 1, 256);
    IntComesBack(py, Get(d, NumCtx), b.numCtx, 256, MAX_NUM_CTX);
    IntComesBack(py, Get(d, NumPredict), Some(b.numPredict), 1, MAX_NUM_PREDICT);
  }

  lemma LimitsComeBack(py: Python, d: Dict, b: Build)
    requires Sane(py) && NormalNumbers(b) && Reads(d, b)
    ensures IntField(py, Get(d, ContextChunkChars), b.contextChunkChars, 64, 500000)
    ensures IntField(py, Get(d, ContextTotalChars), b.contextTotalChars, 256, 2000000)
    ensures IntField(py, Get(d, RagTopK), b.ragTopK, 1, 256)
  {
    IntComesBack(py, Get(d, ContextChunkChars), b.contextChunkChars, 64, 500000);
    IntComesBack(py, Get(d, ContextTotalChars), b.contextTotalChars, 256, 2000000);
    IntComesBack(py, Get(d, RagTopK), b.ragTopK, 1, 256);
  }

  lemma NormalComesBack(py: Python, d: Dict, b: Build)
    requires Sane(py) && Normal(py, b) && Reads(d, b)
    ensures NormalizeBuild(py, d) == Some(b)
  {
    NamesComeBack(py, d, b);
    RoutesComeBack(py, d, b);
    NumbersComeBack(py, d, b);
    LimitsComeBack(py, d, b);
    FlagsComeBack(d, b);
    assert ErrorsOf(py, d) == [];
  }

  /** Whatever `normalize_build` accepts normalises to itself, without errors. */
  lemma NormalizationIsAFixedPoint(py: Python, d: Dict)
    requires Sane(py) && NormalizeBuild(py, d).Some?
    ensures NormalizeBuild(py, DictOf(NormalizeBuild(py, d).value)) == NormalizeBuild(py, d)
  {
    var b := NormalizeBuild(py, d).value;
    AcceptedIsNormal(py, d);
    DictReads(b);
    NormalComesBack(py, DictOf(b), b);
  }

  // --- Lists of builds ---

  /** A list is accepted with its normalised builds, in order, when each is accepted and no two
      share an id. */
  ghost predicate AcceptedAs(normalize: Dict -> Option<Build>, builds: seq<Dict>, r: seq<Build>) {
    && |r| == |builds|
    && (forall i :: 0 <= i < |r| ==> normalize(builds[i]) == Some(r[i]))
    && (forall i, j :: 0 <= i < j < |r| ==> r[i].id != r[j].id)
  }

  /** A rejected build, or two accepted ones with one id. */
  ghost predicate Faulty(normalize: Dict -> Option<Build>, builds: seq<Dict>) {
    || (exists i :: 0 <= i < |builds| && normalize(builds[i]).None?)
    || (exists i, j :: 0 <= i < j < |builds| && SameId(normalize, builds[i], builds[j]))
  }

  predicate SameId(normalize: Dict -> Option<Build>, d: Dict, e: Dict) {
    var b, c := normalize(d), normalize(e);
    b.Some? && c.Some? && b.value.id == c.value.id
  }

  /** `seen` is the set of ids. */
  ghost predicate SeenIds(builds: seq<Build>, seen: set<string>) {
    seen == set k | 0 <= k < |builds| :: builds[k].id
  }

  lemma SeenOneMore(builds: seq<Build>, seen: set<string>, b: Build)
    requires SeenIds(builds, seen)
    ensures SeenIds(builds + [b], seen + {b.id})
  {
    var n := builds + [b];
    forall id ensures id in seen + {b.id} <==> id in set k | 0 <= k < |n| :: n[k].id {
      if id == b.id { assert n[|builds|].id == id; }
      if id in seen {
        var k :| 0 <= k < |builds| && builds[k].id == id;
        assert n[k].id == id;
      }
    }
  }

  /** `normalized` holds builds accepted at the places `from`, all before `i`; `seen` holds their ids. */
  ghost predicate Collected(normalize: Dict -> Option<Build>, builds: seq<Dict>, i: nat, from: seq<nat>,
                            normalized: seq<Build>, seen: set<string>) {
    && i <= |builds| && |from| == |normalized|
    && (forall k :: 0 <= k < |from| ==> from[k] < i && normalize(builds[from[k]]) == Some(normalized[k]))
    && SeenIds(normalized, seen)
    && (forall j, k :: 0 <= j < k < |normalized| ==> normalized[j].id != normalized[k].id)
  }

  lemma CollectedOne(normalize: Dict -> Option<Build>, builds: seq<Dict>, i: nat, from: seq<nat>,
                     normalized: seq<Build>, seen: set<string>, b: Build)
    requires Collected(normalize, builds, i, from, normalized, seen) && i < |builds|
    requires normalize(builds[i]) == Some(b) && b.id !in seen
    ensures Collected(normalize, builds, i + 1, from + [i], normalized + [b], seen + {b.id})
  {
    SeenOneMore(normalized, seen, b);
    var n, f := normalized + [b], from + [i];
    forall k | 0 <= k < |f| ensures f[k] < i + 1 && normalize(builds[f[k]]) == Some(n[k]) {
      if k < |from| { assert f[k] == from[k] && n[k] == normalized[k]; }
    }
    forall j | 0 <= j < |normalized| ensures normalized[j].id != b.id {
    }
  }

  lemma SeenTwice(normalize: Dict -> Option<Build>, builds: seq<Dict>, i: nat, from: seq<nat>, normalized: seq<Build>,
                  seen: set<string>)
    requires Collected(normalize, builds, i, from, normalized, seen) && i < |builds|
    requires normalize(builds[i]).Some? && normalize(builds[i]).value.id in seen
    ensures Faulty(normalize, builds)
  {
  }

  ghost predicate InOrder(from: seq<nat>, i: nat) {
    |from| == i && forall k :: 0 <= k < i ==> from[k] == k
  }

  lemma CollectedAll(normalize: Dict -> Option<Build>, builds: seq<Dict>, from: seq<nat>, normalized: seq<Build>,
                     seen: set<string>)
    requires Collected(normalize, builds, |builds|, from, normalized, seen) && InOrder(from, |builds|)
    ensures AcceptedAs(normalize, builds, normalized)
  {
  }

  /** `validate_builds_list`: the accepted list, or None where it reports errors. */
  method ValidateBuildsList(normalize: Dict -> Option<Build>, builds: seq<Dict>) returns (r: Option<seq<Build>>)
    ensures r.Some? ==> AcceptedAs(normalize, builds, r.value)
    ensures r.None? ==> Faulty(normalize, builds)
  {
    var seen: set<string> := {};
    var normalized: seq<Build> := [];
    var errors := 0;
    ghost var from: seq<nat> := [];
    for i := 0 to |builds|
      invariant Collected(normalize, builds, i, from, normalized, seen)
      invariant errors >= 0 && (errors > 0 ==> Faulty(normalize, builds))
      invariant errors == 0 ==> InOrder(from, i)
    {
      var build := normalize(builds[i]);
      if build.None? {
        errors := errors + 1;
      } else if build.value.id in seen {
        SeenTwice(normalize, builds, i, from, normalized, seen);
        errors := errors + 1;
      } else {
        CollectedOne(normalize, builds, i, from, normalized, seen, build.value);
        seen := seen + {build.value.id};
        normalized := normalized + [build.value];
        from := from + [i];
      }
    }
    r := if errors > 0 then None else Some(normalized);
    if errors == 0 { CollectedAll(normalize, builds, from, normalized, seen); }
  }

  /** No list is both accepted and faulty, so the verdict is exact. */
  lemma AcceptedIsNotFaulty(normalize: Dict -> Option<Build>, builds: seq<Dict>, r: seq<Build>)
    requires AcceptedAs(normalize, builds, r)
    ensures !Faulty(normalize, builds)
  {
  }

  /** `normalize_build` as a value. */
  function Normalizer(py: Python): Dict -> Option<Build> {
    d => NormalizeBuild(py, d)
  }

  /** The dicts of a list of builds. */
  function Dicts(r: seq<Build>): (ds: seq<Dict>)
    ensures |ds| == |r| && forall i :: 0 <= i < |r| ==> ds[i] == DictOf(r[i])
  {
    seq(|r|, i requires 0 <= i < |r| => DictOf(r[i]))
  }

  /** An accepted list re-validates to itself. */
  lemma AcceptedListIsStable(py: Python, builds: seq<Dict>, r: seq<Build>)
    requires Sane(py) && AcceptedAs(Normalizer(py), builds, r)
    ensures AcceptedAs(Normalizer(py), Dicts(r), r)
  {
    forall i | 0 <= i < |r| ensures Normalizer(py)(DictOf(r[i])) == Some(r[i]) {
      assert Normalizer(py)(builds[i]) == Some(r[i]);
      NormalizationIsAFixedPoint(py, builds[i]);
    }
  }

  /** The id that the lookup compares. */
  function IdOf(py: Python, d: Dict): string {
    Stripped(py, Get(d, Id), "")
  }

  lemma IdOfIsText(py: Python, d: Dict, id: string)
    ensures TextIs(py, d, Id, "", id) <==> id == IdOf(py, d)
  {
    TextIsStripped(py, d, Id, "", id);
  }

  /** The first build from `i` on with this id. */
  function FirstWithId(py: Python, builds: seq<Dict>, key: string, i: nat): (r: Option<nat>)
    requires i <= |builds|
    ensures r.Some? ==> i <= r.value < |builds| && IdOf(py, builds[r.value]) == key
    ensures forall j :: i <= j < |builds| && (r.None? || j < r.value) ==> IdOf(py, builds[j]) != key
    decreases |builds| - i
  {
    if i == |builds| then None
    else if IdOf(py, builds[i]) == key then Some(i)
    else FirstWithId(py, builds, key, i + 1)
  }

  /** The index of the first build with the wanted id; None for a blank one. */
  function BuildById(py: Python, builds: seq<Dict>, modelId: string): Option<nat> {
    if py.strip(modelId) == "" then None else FirstWithId(py, builds, py.strip(modelId), 0)
  }

  /** `find_build_by_id`. */
  method FindBuildById(py: Python, builds: seq<Dict>, modelId: string) returns (r: Option<nat>)
    ensures r == BuildById(py, builds, modelId)
    ensures r.Some? ==> r.value < |builds| && py.strip(modelId) != "" && IdOf(py, builds[r.value]) == py.strip(modelId)
    ensures py.strip(modelId) != "" ==>
              forall j :: 0 <= j < |builds| && (r.None? || j < r.value) ==> IdOf(py, builds[j]) != py.strip(modelId)
  {
    var key := py.strip(modelId);
    if key == "" { return None; }
    for i := 0 to |builds|
      invariant FirstWithId(py, builds, key, 0) == FirstWithId(py, builds, key, i)
    {
      if IdOf(py, builds[i]) == key { return Some(i); }
    }
    r := None;
  }

  /** In an accepted list, looking up an id finds the build that has it, and nothing else. */
  lemma IdsFindTheirBuilds(py: Python, builds: seq<Dict>, r: seq<Build>, modelId: string, i: nat)
    requires Sane(py) && AcceptedAs(Normalizer(py), builds, r)
    ensures BuildById(py, Dicts(r), modelId) == Some(i) <==> i < |r| && r[i].id == py.strip(modelId)
    ensures i < |r| ==> BuildById(py, Dicts(r), r[i].id) == Some(i)
  {
    hide AcceptedAs, Sane, Stripped;
    forall k | 0 <= k < |r| ensures IdOf(py, DictOf(r[k])) == r[k].id && r[k].id != "" && py.strip(r[k].id) == r[k].id {
      IdOfAccepted(py, builds, r, k);
    }
    IdsDiffer(Normalizer(py), builds, r);
    assert FirstWithId(py, Dicts(r), py.strip(modelId), 0) == BuildById(py, Dicts(r), modelId) ||
             py.strip(modelId) == "";
    if i < |r| { assert IdOf(py, Dicts(r)[i]) == r[i].id; }
  }

  lemma IdsDiffer(normalize: Dict -> Option<Build>, builds: seq<Dict>, r: seq<Build>)
    requires AcceptedAs(normalize, builds, r)
    ensures forall j, k :: 0 <= j < |r| && 0 <= k < |r| && r[j].id == r[k].id ==> j == k
  {
  }

  lemma IdOfAccepted(py: Python, builds: seq<Dict>, r: seq<Build>, k: nat)
    requires Sane(py) && AcceptedAs(Normalizer(py), builds, r) && k < |r|
    ensures IdOf(py, DictOf(r[k])) == r[k].id && r[k].id != "" && py.strip(r[k].id) == r[k].id
  {
    assert Normalizer(py)(builds[k]) == Some(r[k]);
    AcceptedIsNormal(py, builds[k]);
    DictReads(r[k]);
    NamesComeBack(py, DictOf(r[k]), r[k]);
  }

  /** The context size offered to the model server. */
  function CtxOption(v: Option<int>): Option<int> {
    if v.None? || v.value < 256 then None else Some(if v.value <= MAX_NUM_CTX then v.value else MAX_NUM_CTX)
  }

  /** The prediction length offered to the model server. */
  function PredictOption(v: Option<int>): int {
    if v.Some? && 1 <= v.value <= MAX_NUM_PREDICT then v.value else DEFAULT_NUM_PREDICT
  }

  /** `build_ollama_options`. */
  method BuildOllamaOptions(py: Python, d: Dict) returns (numCtx: Option<int>, numPredict: int)
    ensures numCtx == CtxOption(AsInt(py, Get(d, NumCtx)))
    ensures numPredict == PredictOption(AsInt(py, if NumPredict in d then d[NumPredict] else Int(DEFAULT_NUM_PREDICT)))
    ensures numCtx.Some? ==> 256 <= numCtx.value <= MAX_NUM_CTX
    ensures 1 <= numPredict <= MAX_NUM_PREDICT
  {
    numCtx := None;
    var nc := AsInt(py, Get(d, NumCtx));
    if nc.Some? {
      if 256 <= nc.value <= MAX_NUM_CTX {
        numCtx := nc;
      } else if nc.value > MAX_NUM_CTX {
        numCtx := Some(MAX_NUM_CTX);
      }
    }
    var np := AsInt(py, if NumPredict in d then d[NumPredict] else Int(DEFAULT_NUM_PREDICT));
    numPredict := DEFAULT_NUM_PREDICT;
    if np.Some? && 1 <= np.value <= MAX_NUM_PREDICT {
      numPredict := np.value;
    }
  }

  /** On an accepted build no clamp acts: the stored numbers are what the model server is given. */
  lemma AcceptedBuildsAreNotClamped(py: Python, d: Dict)
    requires Sane(py) && NormalizeBuild(py, d).Some?
    ensures var b := NormalizeBuild(py, d).value;
            CtxOption(AsInt(py, Get(DictOf(b), NumCtx))) == b.numCtx
    ensures var b := NormalizeBuild(py, d).value;
            NumPredict in DictOf(b) && PredictOption(AsInt(py, DictOf(b)[NumPredict])) == b.numPredict
  {
    var b := NormalizeBuild(py, d).value;
    AcceptedIsNormal(py, d);
    DictReads(b);
    NormalIsNotClamped(py, DictOf(b), b);
  }

  lemma NormalIsNotClamped(py: Python, d: Dict, b: Build)
    requires NormalNumbers(b) && Reads(d, b)
    ensures CtxOption(AsInt(py, Get(d, NumCtx))) == b.numCtx
    ensures NumPredict in d && PredictOption(AsInt(py, d[NumPredict])) == b.numPredict
  {
    assert Get(d, NumCtx) == JsonInt(b.numCtx);
    assert Get(d, NumPredict) == Int(b.numPredict);
  }
}
