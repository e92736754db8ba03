/** Configuration values, per-field validation and strict validation. */
module Config {
  import opened Strings

  // ----- Values -----

  /** Single-precision values as far as comparisons see them. */
  datatype Float = Finite(value: real) | NaN | PosInf | NegInf

  function Less(a: Float, b: Float): bool {
    match (a, b)
    case (Finite(x), Finite(y)) => x < y
    case (NegInf, Finite(_)) => true
    case (NegInf, PosInf) => true
    case (Finite(_), PosInf) => true
    case _ => false
  }

  datatype Overflow = Block | Drop | Expand | DropOldest | Reject

  datatype TextKey =
    | AiProvider | AiModel | AiBaseUrl | FormatsDefaultOutput | FormatsDefaultEncoding | SyncDefaultMethod

  datatype MaybeKey = AiApiKey | AiApiVersion | TranslationDefaultTargetLanguage

  datatype NatKey =
    | AiMaxSampleLength | AiMaxTokens | AiRetryAttempts | AiRetryDelayMs | AiRequestTimeoutSeconds
    | SyncVadPaddingChunks | SyncVadMinSpeechDurationMs
    | GeneralMaxConcurrentJobs | GeneralTaskTimeoutSeconds | GeneralWorkerIdleTimeoutSeconds
    | GeneralMaxSubtitleBytes | GeneralMaxAudioBytes
    | ParallelMaxWorkers | ParallelTaskQueueSize | TranslationBatchSize

  datatype FloatKey = AiTemperature | FormatsEncodingDetectionConfidence | SyncMaxOffsetSeconds | SyncVadSensitivity

  datatype FlagKey =
    | FormatsPreserveStyling | SyncVadEnabled | GeneralBackupEnabled | GeneralEnableProgressBar
    | ParallelEnableTaskPriorities | ParallelAutoBalanceWorkers

  datatype Key = TextK(t: TextKey) | MaybeK(m: MaybeKey) | NatK(n: NatKey) | FloatK(f: FloatKey) | FlagK(b: FlagKey)
               | OverflowK | UnknownK

  /** The settable fields, by type; a field that is absent from its map reads as the
      type's zero value. */
  datatype Config = Config(
    texts: map<TextKey, string>,
    maybes: map<MaybeKey, Option<string>>,
    nats: map<NatKey, nat>,
    floats: map<FloatKey, Float>,
    flags: map<FlagKey, bool>,
    overflow: Overflow)
  {
    function Text(k: TextKey): string { if k in texts then texts[k] else "" }
    function Maybe(k: MaybeKey): Option<string> { if k in maybes then maybes[k] else None }
    function Nat(k: NatKey): nat { if k in nats then nats[k] else 0 }
    function Real(k: FloatKey): Float { if k in floats then floats[k] else Finite(0.0) }
    function Flag(k: FlagKey): bool { if k in flags then flags[k] else false }

    function WithText(k: TextKey, v: string): Config { this.(texts := texts[k := v]) }
    function WithMaybe(k: MaybeKey, v: Option<string>): Config { this.(maybes := maybes[k := v]) }
    function WithNat(k: NatKey, v: nat): Config { this.(nats := nats[k := v]) }
  }

  // ----- Parsing and printing supplied from outside -----

  /** Number and URL syntax and the notion of white space are taken as given. */
  datatype Codec = Codec(
    parseNat: string -> Option<nat>,
    parseFloat: string -> Option<Float>,
    printFloat: Float -> string,
    urlScheme: string -> Option<string>,
    isSpace: char -> bool)

  predicate IsLetter(c: char) {
    'a' <= c <= 'z' || 'A' <= c <= 'Z'
  }

  const DEFAULT_BASE_URL := "https://api.openai.com/v1"

  /** A value that survives printing and parsing. */
  predicate Prints(x: Codec, f: Float) {
    x.parseFloat(x.printFloat(f)) == Some(f)
  }

  /** What is assumed of them: a printed integer parses back; every parsed number,
      and every default, survives printing; letters and digits are not white space;
      and the default address is an `https` one. */
  ghost predicate Lawful(x: Codec) {
    && (forall n: nat :: x.parseNat(Decimal(n)) == Some(n))
    && (forall s: string :: x.parseFloat(s).Some? ==> Prints(x, x.parseFloat(s).value))
    && (forall k: FloatKey :: Prints(x, Finite(DefaultReal(k))))
    && (forall c: char | IsLetter(c) || IsDigit(c) :: !x.isSpace(c))
    && x.urlScheme(DEFAULT_BASE_URL) == Some("https")
  }

  /** There is such a syntax. */
  lemma LawfulExists() returns (x: Codec)
    ensures Lawful(x)
  {
    var defaults := [DefaultReal(AiTemperature), DefaultReal(FormatsEncodingDetectionConfidence),
                     DefaultReal(SyncMaxOffsetSeconds), DefaultReal(SyncVadSensitivity)];
    x := Codec(
      s => if s != [] && AllDigits(s) then Some(ParseDecimal(s)) else None,
      s => if s == "0" then Some(Finite(defaults[0])) else if s == "1" then Some(Finite(defaults[1]))
           else if s == "2" then Some(Finite(defaults[2])) else if s == "3" then Some(Finite(defaults[3])) else None,
      f => if f == Finite(defaults[0]) then "0" else if f == Finite(defaults[1]) then "1"
           else if f == Finite(defaults[2]) then "2" else "3",
      s => Some("https"),
      c => c == ' ');
    forall n: nat
      ensures x.parseNat(Decimal(n)) == Some(n)
    {
      ParseOfDecimal(n);
    }
    forall k: FloatKey
      ensures Prints(x, Finite(DefaultReal(k)))
    {
      match k
      case AiTemperature =>
      case FormatsEncodingDetectionConfidence =>
      case SyncMaxOffsetSeconds =>
      case SyncVadSensitivity =>
    }
  }

  // ----- Text helpers -----

  function TrimStart(s: string, isSpace: char -> bool): string {
    if s != [] && isSpace(s[0]) then TrimStart(s[1..], isSpace) else s
  }

  function TrimEnd(s: string, isSpace: char -> bool): string {
    if s != [] && isSpace(s[|s| - 1]) then TrimEnd(s[..|s| - 1], isSpace) else s
  }

  function Trim(x: Codec, s: string): string {
    TrimEnd(TrimStart(s, x.isSpace), x.isSpace)
  }

  predicate Blank(x: Codec, s: string) {
    Trim(x, s) == []
  }

  function LowerChar(c: char): (l: char)
    ensures 'A' <= c <= 'Z' ==> 'a' <= l <= 'z' && l as int - 'a' as int == c as int - 'A' as int
    ensures !('A' <= c <= 'Z') ==> l == c
  {
    if 'A' <= c <= 'Z' then ((c as int) + 32) as char else c
  }

  function Lower(s: string): (r: string)
    ensures |r| == |s| && forall i | 0 <= i < |s| :: r[i] == LowerChar(s[i])
  {
    seq(|s|, i requires 0 <= i < |s| => LowerChar(s[i]))
  }

  /** Trims, lower-cases, and resolves the alias `ollama`. */
  function NormalizeProvider(x: Codec, value: string): string {
    var trimmed := Lower(Trim(x, value));
    if trimmed == "ollama" then "local" else trimmed
  }

  lemma {:induction false} TrimStartShape(s: string, isSpace: char -> bool)
    ensures var r := TrimStart(s, isSpace); r == [] || !isSpace(r[0])
  {
    if s != [] && isSpace(s[0]) { TrimStartShape(s[1..], isSpace); }
  }

  lemma {:induction false} TrimEndShape(s: string, isSpace: char -> bool)
    ensures var r := TrimEnd(s, isSpace); (r == [] || !isSpace(r[|r| - 1])) && r <= s
  {
    if s != [] && isSpace(s[|s| - 1]) { TrimEndShape(s[..|s| - 1], isSpace); }
  }

  lemma TrimFixed(x: Codec, s: string)
    requires s == [] || (!x.isSpace(s[0]) && !x.isSpace(s[|s| - 1]))
    ensures Trim(x, s) == s
  {
  }

  lemma TrimmedEnds(x: Codec, s: string)
    ensures var r := Trim(x, s); r == [] || (!x.isSpace(r[0]) && !x.isSpace(r[|r| - 1]))
  {
    TrimStartShape(s, x.isSpace);
    TrimEndShape(TrimStart(s, x.isSpace), x.isSpace);
  }

  /** Normalising twice is normalising once. */
  lemma NormalizeIdempotent(x: Codec, value: string)
    requires Lawful(x)
    ensures NormalizeProvider(x, NormalizeProvider(x, value)) == NormalizeProvider(x, value)
  {
    var r := Trim(x, value);
    TrimmedEnds(x, value);
    var l := Lower(r);
    forall c: char | !x.isSpace(c)
      ensures !x.isSpace(LowerChar(c))
    {
      assert LowerChar(c) != c ==> IsLetter(LowerChar(c));
    }
    TrimFixed(x, l);
    assert Lower(l) == l;
    var n := NormalizeProvider(x, value);
    assert n == l || n == "local";
    assert IsLetter('l');
    TrimFixed(x, "local");
    assert Lower("local") == "local";
  }

  lemma {:induction false} PaddingBefore(pad: string, s: string, isSpace: char -> bool)
    requires (forall c | c in pad :: isSpace(c)) && s != [] && !isSpace(s[0])
    ensures TrimStart(pad + s, isSpace) == s
  {
    if pad == [] {
      assert pad + s == s;
    } else {
      assert (pad + s)[0] == pad[0] && (pad + s)[1..] == pad[1..] + s;
      PaddingBefore(pad[1..], s, isSpace);
    }
  }

  lemma {:induction false} PaddingAfter(s: string, pad: string, isSpace: char -> bool)
    requires (forall c | c in pad :: isSpace(c)) && s != [] && !isSpace(s[|s| - 1])
    ensures TrimEnd(s + pad, isSpace) == s
  {
    var n := |pad|;
    if n == 0 {
      assert s + pad == s;
    } else {
      assert (s + pad)[|s| + n - 1] == pad[n - 1] && (s + pad)[..|s| + n - 1] == s + pad[..n - 1];
      PaddingAfter(s, pad[..n - 1], isSpace);
    }
  }

  /** White space around a provider and the case of its letters do not matter, and
      `ollama` means the local provider. */
  lemma ProviderNormalized(x: Codec, before: string, word: string, after: string)
    requires forall c | c in before + after :: x.isSpace(c)
    requires word != [] && !x.isSpace(word[0]) && !x.isSpace(word[|word| - 1])
    ensures NormalizeProvider(x, before + word + after) == if Lower(word) == "ollama" then "local" else Lower(word)
  {
    assert forall c | c in after :: c in before + after;
    assert forall c | c in before :: c in before + after;
    assert before + word + after == before + (word + after);
    PaddingBefore(before, word + after, x.isSpace);
    PaddingAfter(word, after, x.isSpace);
    hide TrimStart, TrimEnd;
  }

  // ----- Per-field validation -----

  const U64_MAX: nat := 0xFFFF_FFFF_FFFF_FFFF
  const U32_MAX: nat := 0xFFFF_FFFF

  /** Type limit and accepted range of each integer field. */
  function NatRange(k: NatKey): (nat, nat, nat) {
    match k
    case AiMaxSampleLength => (U64_MAX, 100, 10000)
    case AiMaxTokens => (U32_MAX, 1, U32_MAX)
    case AiRetryAttempts => (U32_MAX, 1, 10)
    case AiRetryDelayMs => (U64_MAX, 100, 30000)
    case AiRequestTimeoutSeconds => (U64_MAX, 10, 600)
    case SyncVadPaddingChunks => (U32_MAX, 0, 10)
    case SyncVadMinSpeechDurationMs => (U32_MAX, 0, U32_MAX)
    case GeneralMaxConcurrentJobs => (U64_MAX, 1, 64)
    case GeneralTaskTimeoutSeconds => (U64_MAX, 30, 3600)
    case GeneralWorkerIdleTimeoutSeconds => (U64_MAX, 10, 3600)
    case GeneralMaxSubtitleBytes => (U64_MAX, 1024, 1_073_741_824)
    case GeneralMaxAudioBytes => (U64_MAX, 1024, 10_737_418_240)
    case ParallelMaxWorkers => (U64_MAX, 1, 64)
    case ParallelTaskQueueSize => (U64_MAX, 100, 10000)
    case TranslationBatchSize => (U64_MAX, 1, 1000)
  }

  function FloatRange(k: FloatKey): (real, real) {
    match k
    case AiTemperature => (0.0, 2.0)
    case FormatsEncodingDetectionConfidence => (0.0, 1.0)
    case SyncMaxOffsetSeconds => (0.1, 3600.0)
    case SyncVadSensitivity => (0.0, 1.0)
  }

  /** Neither below nor above: a value that does not compare passes. */
  predicate NotOutside(f: Float, lo: real, hi: real) {
    !Less(f, Finite(lo)) && !Less(Finite(hi), f)
  }

  predicate ModelOk(x: Codec, value: string) {
    !Blank(x, value) && |value| <= 100
  }

  predicate UrlOk(x: Codec, value: string) {
    Blank(x, value) || x.urlScheme(value).Some?
  }

  function ParseUnsigned(x: Codec, value: string, limit: nat): Option<nat> {
    match x.parseNat(value)
    case None => None
    case Some(n) => if n <= limit then Some(n) else None
  }

  function ParseBool(value: string): Option<bool> {
    var l := Lower(value);
    if l in ["true", "1", "yes", "on", "enabled"] then Some(true)
    else if l in ["false", "0", "no", "off", "disabled"] then Some(false)
    else None
  }

  function ParseOverflow(value: string): Option<Overflow> {
    if value == "Block" then Some(Block)
    else if value == "Drop" then Some(Drop)
    else if value == "Expand" then Some(Expand)
    else None
  }

  /** `validate_field`. */
  predicate FieldOk(x: Codec, key: Key, value: string) {
    match key
    case TextK(t) => (
      match t
      case AiProvider =>
        !Blank(x, value) && value in ["openai", "anthropic", "local", "ollama", "openrouter", "azure-openai"]
      case AiModel => ModelOk(x, value)
      case AiBaseUrl => UrlOk(x, value)
      case FormatsDefaultOutput => value in ["srt", "ass", "vtt", "webvtt"]
      case FormatsDefaultEncoding => value in ["utf-8", "gbk", "big5", "shift_jis"]
      case SyncDefaultMethod => value in ["auto", "vad", "manual"])
    case MaybeK(m) => (
      match m
      case AiApiKey => value == "" || |value| >= 10
      case AiApiVersion => !Blank(x, value)
      case TranslationDefaultTargetLanguage => value == "" || !Blank(x, value))
    case NatK(n) =>
      var (limit, lo, hi) := NatRange(n);
      var parsed := ParseUnsigned(x, value, limit);
      parsed.Some? && lo <= parsed.value <= hi
    case FloatK(f) =>
      var (lo, hi) := FloatRange(f);
      var parsed := x.parseFloat(value);
      parsed.Some? && NotOutside(parsed.value, lo, hi)
    case FlagK(_) => ParseBool(value).Some?
    case OverflowK => ParseOverflow(value).Some?
    case UnknownK => false
  }

  function OverflowName(o: Overflow): string {
    match o
    case Block => "Block"
    case Drop => "Drop"
    case Expand => "Expand"
    case DropOldest => "DropOldest"
    case Reject => "Reject"
  }

  /** A field printed for validation; an unset optional field is not printed. */
  function Printed(x: Codec, c: Config, key: Key): Option<string> {
    match key
    case TextK(t) => Some(c.Text(t))
    case MaybeK(m) => c.Maybe(m)
    case NatK(n) => Some(Decimal(c.Nat(n)))
    case FloatK(f) => Some(x.printFloat(c.Real(f)))
    case FlagK(b) => Some(if c.Flag(b) then "true" else "false")
    case OverflowK => Some(OverflowName(c.overflow))
    case UnknownK => None
  }

  predicate PrintedOk(x: Codec, c: Config, key: Key) {
    var p := Printed(x, c, key);
    p.Some? ==> FieldOk(x, key, p.value)
  }

  /** `validate_all_fields`. */
  ghost predicate AllFieldsOk(x: Codec, c: Config) {
    forall key: Key :: PrintedOk(x, c, key)
  }

  // ----- Strict validation -----

  predicate KeyLengthOk(key: Option<string>) {
    key.Some? && key.value != "" ==> |key.value| >= 10
  }

  predicate HttpsIfSet(x: Codec, url: string) {
    url != "" ==> UrlOk(x, url) && x.urlScheme(url) == Some("https")
  }

  predicate TemperatureOk(c: Config) {
    NotOutside(c.Real(AiTemperature), 0.0, 2.0)
  }

  predicate AiOk(x: Codec, c: Config) {
    var provider, key, url := NormalizeProvider(x, c.Text(AiProvider)), c.Maybe(AiApiKey), c.Text(AiBaseUrl);
    && !Blank(x, c.Text(AiProvider))
    && KeyLengthOk(key) && ModelOk(x, c.Text(AiModel)) && TemperatureOk(c)
    && (if provider == "openai" then
          && (key.Some? && key.value != "" ==> StartsWith(key.value, "sk-"))
          && c.Nat(AiMaxTokens) > 0 && HttpsIfSet(x, url)
        else if provider == "openrouter" then c.Nat(AiMaxTokens) > 0 && HttpsIfSet(x, url)
        else if provider == "anthropic" then true
        else if provider == "azure-openai" then
          && c.Nat(AiMaxTokens) > 0
          && (c.Maybe(AiApiVersion).Some? ==> !Blank(x, c.Maybe(AiApiVersion).value))
          && HttpsIfSet(x, url)
        else if provider == "local" then !Blank(x, url) && UrlOk(x, url) && c.Nat(AiMaxTokens) > 0
        else false)
    && 0 < c.Nat(AiRetryAttempts) <= 10
    && 10 <= c.Nat(AiRequestTimeoutSeconds) <= 600
  }

  predicate SyncOk(c: Config) {
    var offset, sensitivity := c.Real(SyncMaxOffsetSeconds), c.Real(SyncVadSensitivity);
    && c.Text(SyncDefaultMethod) in ["vad", "auto", "manual"]
    && !(offset == Finite(0.0) || Less(offset, Finite(0.0))) && !Less(Finite(3600.0), offset)
    && sensitivity.Finite? && 0.0 <= sensitivity.value <= 1.0
    && c.Nat(SyncVadPaddingChunks) <= 10 && c.Nat(SyncVadMinSpeechDurationMs) <= 5000
  }

  predicate GeneralOk(c: Config) {
    && 0 < c.Nat(GeneralMaxConcurrentJobs) <= 64
    && 30 <= c.Nat(GeneralTaskTimeoutSeconds) <= 3600
    && 10 <= c.Nat(GeneralWorkerIdleTimeoutSeconds) <= 3600
  }

  predicate FormatsOk(c: Config) {
    && c.Text(FormatsDefaultOutput) in ["srt", "ass", "vtt", "webvtt"]
    && c.Text(FormatsDefaultEncoding) in ["utf-8", "gbk", "big5", "shift_jis"]
    && NotOutside(c.Real(FormatsEncodingDetectionConfidence), 0.0, 1.0)
  }

  predicate ParallelOk(c: Config) {
    0 < c.Nat(ParallelMaxWorkers) <= 64 && c.Nat(ParallelTaskQueueSize) >= 100
  }

  predicate TranslationOk(x: Codec, c: Config) {
    && 0 < c.Nat(TranslationBatchSize) <= 1000
    && (c.Maybe(TranslationDefaultTargetLanguage).Some? ==> !Blank(x, c.Maybe(TranslationDefaultTargetLanguage).value))
  }

  predicate ConsistencyOk(c: Config) {
    c.Text(AiProvider) == "openai" ==> c.Maybe(AiApiKey) != Some("")
  }

  /** `validate_config`. */
  predicate StrictOk(x: Codec, c: Config) {
    AiOk(x, c) && SyncOk(c) && GeneralOk(c) && FormatsOk(c) && ParallelOk(c) && TranslationOk(x, c) && ConsistencyOk(c)
  }

  // ----- Defaults -----

  function DefaultText(k: TextKey): string {
    match k
    case AiProvider => "openai"
    case AiModel => "gpt-4.1-mini"
    case AiBaseUrl => DEFAULT_BASE_URL
    case FormatsDefaultOutput => "srt"
    case FormatsDefaultEncoding => "utf-8"
    case SyncDefaultMethod => "auto"
  }

  /** The worker count defaults to the number of processors. */
  function DefaultNat(k: NatKey, cpus: nat): nat {
    match k
    case AiMaxSampleLength => 3000
    case AiMaxTokens => 10000
    case AiRetryAttempts => 3
    case AiRetryDelayMs => 1000
    case AiRequestTimeoutSeconds => 120
    case SyncVadPaddingChunks => 3
    case SyncVadMinSpeechDurationMs => 300
    case GeneralMaxConcurrentJobs => 4
    case GeneralTaskTimeoutSeconds => 300
    case GeneralWorkerIdleTimeoutSeconds => 60
    case GeneralMaxSubtitleBytes => 52_428_800
    case GeneralMaxAudioBytes => 2_147_483_648
    case ParallelMaxWorkers => cpus
    case ParallelTaskQueueSize => 1000
    case TranslationBatchSize => 40
  }

  function DefaultReal(k: FloatKey): real {
    match k
    case AiTemperature => 0.3
    case FormatsEncodingDetectionConfidence => 0.8
    case SyncMaxOffsetSeconds => 60.0
    case SyncVadSensitivity => 0.25
  }

  predicate DefaultFlag(k: FlagKey) {
    k in {SyncVadEnabled, GeneralEnableProgressBar, ParallelAutoBalanceWorkers}
  }

  function DefaultConfig(cpus: nat): (c: Config)
    ensures forall k :: k in c.texts && c.Text(k) == DefaultText(k)
    ensures forall k :: c.Maybe(k) == None
    ensures forall k :: c.Nat(k) == DefaultNat(k, cpus)
    ensures forall k :: c.Real(k) == Finite(DefaultReal(k))
  {
    Config(map k: TextKey :: DefaultText(k), map[], map k: NatKey :: DefaultNat(k, cpus),
           map k: FloatKey :: Finite(DefaultReal(k)), map k: FlagKey :: DefaultFlag(k), Block)
  }

  lemma NonBlank(x: Codec, s: string)
    requires Lawful(x) && s != [] && IsLetter(s[0]) && (IsLetter(s[|s| - 1]) || IsDigit(s[|s| - 1]))
    ensures Trim(x, s) == s && !Blank(x, s)
  {
  }

  lemma ParseOfPrinted(x: Codec, n: nat, limit: nat)
    requires Lawful(x)
    ensures ParseUnsigned(x, Decimal(n), limit) == if n <= limit then Some(n) else None
  {
  }

  lemma BoolWords()
    ensures ParseBool("true") == Some(true) && ParseBool("false") == Some(false)
  {
    assert Lower("true") == "true" && Lower("false") == "false";
  }

  /** Each default field passes its own check, the worker count on machines
      with one to 64 processors. */
  lemma DefaultFieldsOk(x: Codec, cpus: nat, key: Key)
    requires Lawful(x)
    requires key == NatK(ParallelMaxWorkers) ==> 1 <= cpus <= 64
    ensures PrintedOk(x, DefaultConfig(cpus), key)
  {
    var c := DefaultConfig(cpus);
    hide Decimal, Lower, Trim, DefaultConfig, ParseUnsigned, ParseBool;
    match key
    case TextK(t) => DefaultTextOk(x, t);
    case MaybeK(m) =>
    case NatK(n) => ParseOfPrinted(x, c.Nat(n), NatRange(n).0);
    case FloatK(f) => assert Prints(x, Finite(DefaultReal(f)));
    case FlagK(b) => BoolWords();
    case OverflowK => assert DefaultConfig(cpus).overflow == Block by { DefaultOverflow(cpus); }
    case UnknownK =>
  }

  lemma DefaultOverflow(cpus: nat)
    ensures DefaultConfig(cpus).overflow == Block
  {
  }

  lemma DefaultTextOk(x: Codec, t: TextKey)
    requires Lawful(x)
    ensures FieldOk(x, TextK(t), DefaultText(t))
  {
  }

  lemma DefaultAiOk(x: Codec, cpus: nat)
    requires Lawful(x)
    ensures AiOk(x, DefaultConfig(cpus))
  {
    NonBlank(x, "openai");
    NonBlank(x, "gpt-4.1-mini");
    assert Lower("openai") == "openai";
    assert NormalizeProvider(x, "openai") == "openai";
    assert UrlOk(x, DEFAULT_BASE_URL);
    hide Blank, Lower, Trim, NormalizeProvider, UrlOk, DefaultConfig, StartsWith;
  }

  /** The default configuration passes strict validation exactly on machines with
      one to 64 processors. */
  lemma DefaultStrictExactly(x: Codec, cpus: nat)
    requires Lawful(x)
    ensures StrictOk(x, DefaultConfig(cpus)) <==> 1 <= cpus <= 64
  {
    DefaultAiOk(x, cpus);
    DefaultRestOk(x, cpus);
    DefaultParallelExactly(cpus);
    hide Lawful, AiOk, SyncOk, GeneralOk, FormatsOk, ParallelOk, TranslationOk, ConsistencyOk, DefaultConfig;
  }

  lemma DefaultParallelExactly(cpus: nat)
    ensures ParallelOk(DefaultConfig(cpus)) <==> 1 <= cpus <= 64
  {
  }

  lemma DefaultRestOk(x: Codec, cpus: nat)
    ensures var c := DefaultConfig(cpus);
            SyncOk(c) && GeneralOk(c) && FormatsOk(c) && TranslationOk(x, c) && ConsistencyOk(c)
  {
  }
}
