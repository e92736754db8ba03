/** Which values a set accepts: the field rules, the storing and the strict validation
    of the whole result taken together, setting by setting. */
module ConfigAcceptance {
  import opened Strings
  import opened Config
  import opened ConfigService

  /** The smallest and the largest number accepted. */
  function Bounds(n: NatKey): (nat, nat) {
    match n
    case AiMaxSampleLength => (100, 10_000)
    case AiMaxTokens => (1, 4_294_967_295)
    case AiRetryAttempts => (1, 10)
    case AiRetryDelayMs => (100, 30_000)
    case AiRequestTimeoutSeconds => (10, 600)
    case SyncVadPaddingChunks => (0, 10)
    case SyncVadMinSpeechDurationMs => (0, 5_000)
    case GeneralMaxConcurrentJobs => (1, 64)
    case GeneralTaskTimeoutSeconds => (30, 3_600)
    case GeneralWorkerIdleTimeoutSeconds => (10, 3_600)
    case GeneralMaxSubtitleBytes => (1_024, 0x4000_0000)
    case GeneralMaxAudioBytes => (1_024, 0x2_8000_0000)
    case ParallelMaxWorkers => (1, 64)
    case ParallelTaskQueueSize => (100, 10_000)
    case TranslationBatchSize => (1, 1_000)
  }

  function RealBounds(f: FloatKey): (real, real) {
    match f
    case AiTemperature => (0.0, 2.0)
    case FormatsEncodingDetectionConfidence => (0.0, 1.0)
    case SyncMaxOffsetSeconds => (0.1, 3600.0)
    case SyncVadSensitivity => (0.0, 1.0)
  }

  function ProviderOf(x: Codec, c: Config): string {
    NormalizeProvider(x, c.Text(AiProvider))
  }

  /** An address the provider can be reached at. */
  predicate Reaches(x: Codec, provider: string, url: string) {
    if provider == "local" then !Blank(x, url) && x.urlScheme(url).Some?
    else if provider == "anthropic" then Blank(x, url) || x.urlScheme(url).Some?
    else url == "" || x.urlScheme(url) == Some("https")
  }

  /** A key the provider takes. */
  predicate Unlocks(provider: string, key: string) {
    |key| >= 10 && (provider == "openai" ==> key[0] == 's' && key[1] == 'k' && key[2] == '-')
  }

  /** The other AI settings fit the provider; Anthropic's are not checked. */
  predicate Suits(x: Codec, c: Config, provider: string) {
    && provider in {"openai", "openrouter", "anthropic", "azure-openai", "local"}
    && (provider != "anthropic" ==> c.Nat(AiMaxTokens) > 0 && Reaches(x, provider, c.Text(AiBaseUrl)))
    && (provider == "openai" && c.Maybe(AiApiKey).Some? ==> Unlocks(provider, c.Maybe(AiApiKey).value))
    && (provider == "azure-openai" && c.Maybe(AiApiVersion).Some? ==> !Blank(x, c.Maybe(AiApiVersion).value))
  }

  /** What a set accepts for the setting, given the configuration it starts from. */
  predicate Accepts(x: Codec, c: Config, key: Key, value: string) {
    match key
    case TextK(t) => (
      match t
      case AiProvider => Suits(x, c, NormalizeProvider(x, value))
      case AiModel => !Blank(x, value) && |value| <= 100
      case AiBaseUrl => Reaches(x, ProviderOf(x, c), value)
      case FormatsDefaultOutput => value in {"srt", "ass", "vtt", "webvtt"}
      case FormatsDefaultEncoding => value in {"utf-8", "gbk", "big5", "shift_jis"}
      case SyncDefaultMethod => value in {"auto", "vad", "manual"})
    case MaybeK(m) => (
      match m
      case AiApiKey => value == "" || Unlocks(ProviderOf(x, c), value)
      case AiApiVersion => !Blank(x, value)
      case TranslationDefaultTargetLanguage => value == "" || !Blank(x, value))
    case NatK(n) => x.parseNat(value).Some? && Bounds(n).0 <= x.parseNat(value).value <= Bounds(n).1
    case FloatK(f) => (
      match x.parseFloat(value)
      case Some(Finite(v)) => RealBounds(f).0 <= v <= RealBounds(f).1
      case Some(NaN) => f != SyncVadSensitivity
      case _ => false)
    case FlagK(_) =>
      Lower(value) in {"true", "1", "yes", "on", "enabled", "false", "0", "no", "off", "disabled"}
    case OverflowK => value in {"Block", "Drop", "Expand"}
    case UnknownK => false
  }

  /** A set accepts nothing else, and from a strictly valid configuration exactly this. */
  lemma AcceptedExactly(x: Codec, c: Config, key: Key, value: string)
    requires Lawful(x)
    ensures ValidateAndSet(x, c, key, value).Updated? ==> Accepts(x, c, key, value)
    ensures StrictOk(x, c) ==> (ValidateAndSet(x, c, key, value).Updated? <==> Accepts(x, c, key, value))
  {
    match key
    case TextK(t) => TextAccepted(x, c, t, value);
    case MaybeK(m) => MaybeAccepted(x, c, m, value);
    case NatK(n) => NatAccepted(x, c, n, value);
    case FloatK(f) => FloatAccepted(x, c, f, value);
    case FlagK(b) => FlagAccepted(x, c, b, value);
    case OverflowK => OverflowAccepted(x, c, value);
    case UnknownK =>
  }

  /** A whole set, when what it starts from is strictly valid: it succeeds exactly when
      the file can be loaded, the value is accepted and the write completes. */
  lemma SetAcceptedExactly(s: Setup, st: State, key: Key, value: string, write: WriteFate)
    requires Lawful(s.codec) && StrictOk(s.codec, Before(s, st.file))
    ensures SetValue(s, st, key, value, write).1.Ok?
            <==> LoadForRepair(s, st.file).Some? && Accepts(s.codec, Before(s, st.file), key, value) && write == Wrote
  {
    hide Lawful, StrictOk, AllFieldsOk, DefaultConfig, Canonical, Accepts, ValidateAndSet;
    AcceptedExactly(s.codec, Before(s, st.file), key, value);
    SetGuarantees(s, st, key, value, write);
  }

  /** The first set on a machine without a configuration file starts from the defaults. */
  lemma FirstSetExactly(s: Setup, cache: Option<Config>, key: Key, value: string, write: WriteFate)
    requires Lawful(s.codec) && 1 <= s.cpus <= 64
    ensures SetValue(s, State(Absent, cache), key, value, write).1.Ok?
            <==> Accepts(s.codec, DefaultConfig(s.cpus), key, value) && write == Wrote
  {
    hide Accepts, DefaultConfig, StrictOk, Lawful, SetValue;
    DefaultStrictExactly(s.codec, s.cpus);
    SetAcceptedExactly(s, State(Absent, cache), key, value, write);
  }

  // ----- Only the section of the setting can change its verdict -----

  datatype Section = Ai | Sync | General | Formats | Parallel | Translation | Nowhere

  function SectionOf(key: Key): Section {
    match key
    case TextK(t) => (
      match t
      case FormatsDefaultOutput => Formats
      case FormatsDefaultEncoding => Formats
      case SyncDefaultMethod => Sync
      case _ => Ai)
    case MaybeK(m) => if m == TranslationDefaultTargetLanguage then Translation else Ai
    case NatK(n) => (
      match n
      case AiMaxTokens => Ai
      case AiRetryAttempts => Ai
      case AiRequestTimeoutSeconds => Ai
      case SyncVadPaddingChunks => Sync
      case SyncVadMinSpeechDurationMs => Sync
      case GeneralMaxConcurrentJobs => General
      case GeneralTaskTimeoutSeconds => General
      case GeneralWorkerIdleTimeoutSeconds => General
      case ParallelMaxWorkers => Parallel
      case ParallelTaskQueueSize => Parallel
      case TranslationBatchSize => Translation
      case _ => Nowhere)
    case FloatK(f) =>
      if f == AiTemperature then Ai else if f == FormatsEncodingDetectionConfidence then Formats else Sync
    case _ => Nowhere
  }

  predicate Valid(x: Codec, c: Config, section: Section) {
    match section
    case Ai => AiOk(x, c) && ConsistencyOk(c)
    case Sync => SyncOk(c)
    case General => GeneralOk(c)
    case Formats => FormatsOk(c)
    case Parallel => ParallelOk(c)
    case Translation => TranslationOk(x, c)
    case Nowhere => true
  }

  ghost predicate Differ(c: Config, c': Config, key: Key) {
    forall other: Key | other != key :: SameAt(c, c', other)
  }

  lemma AiFrame(x: Codec, c: Config, c': Config, key: Key)
    requires Differ(c, c', key) && SectionOf(key) != Ai
    ensures AiOk(x, c') == AiOk(x, c) && ConsistencyOk(c') == ConsistencyOk(c)
  {
    assert SameAt(c, c', TextK(AiProvider)) && SameAt(c, c', TextK(AiModel)) && SameAt(c, c', TextK(AiBaseUrl));
    assert SameAt(c, c', MaybeK(AiApiKey)) && SameAt(c, c', MaybeK(AiApiVersion));
    assert SameAt(c, c', FloatK(AiTemperature)) && SameAt(c, c', NatK(AiMaxTokens));
    assert SameAt(c, c', NatK(AiRetryAttempts)) && SameAt(c, c', NatK(AiRequestTimeoutSeconds));
  }

  lemma RestFrame(x: Codec, c: Config, c': Config, key: Key)
    requires Differ(c, c', key)
    ensures SectionOf(key) != Sync ==> SyncOk(c') == SyncOk(c)
    ensures SectionOf(key) != Formats ==> FormatsOk(c') == FormatsOk(c)
    ensures SectionOf(key) != General ==> GeneralOk(c') == GeneralOk(c)
    ensures SectionOf(key) != Parallel ==> ParallelOk(c') == ParallelOk(c)
    ensures SectionOf(key) != Translation ==> TranslationOk(x, c') == TranslationOk(x, c)
  {
    hide SyncOk, FormatsOk, GeneralOk, ParallelOk, TranslationOk;
    if SectionOf(key) != Sync { SyncFrame(c, c', key); }
    if SectionOf(key) != Formats { FormatsFrame(c, c', key); }
    if SectionOf(key) != General { GeneralFrame(c, c', key); }
    if SectionOf(key) != Parallel { ParallelFrame(c, c', key); }
    if SectionOf(key) != Translation { TranslationFrame(x, c, c', key); }
  }

  lemma SyncFrame(c: Config, c': Config, key: Key)
    requires Differ(c, c', key) && SectionOf(key) != Sync
    ensures SyncOk(c') == SyncOk(c)
  {
    assert SameAt(c, c', TextK(SyncDefaultMethod)) && SameAt(c, c', FloatK(SyncMaxOffsetSeconds));
    assert SameAt(c, c', FloatK(SyncVadSensitivity)) && SameAt(c, c', NatK(SyncVadPaddingChunks));
    assert SameAt(c, c', NatK(SyncVadMinSpeechDurationMs));
  }

  lemma FormatsFrame(c: Config, c': Config, key: Key)
    requires Differ(c, c', key) && SectionOf(key) != Formats
    ensures FormatsOk(c') == FormatsOk(c)
  {
    assert SameAt(c, c', TextK(FormatsDefaultOutput)) && SameAt(c, c', TextK(FormatsDefaultEncoding));
    assert SameAt(c, c', FloatK(FormatsEncodingDetectionConfidence));
  }

  lemma GeneralFrame(c: Config, c': Config, key: Key)
    requires Differ(c, c', key) && SectionOf(key) != General
    ensures GeneralOk(c') == GeneralOk(c)
  {
    assert SameAt(c, c', NatK(GeneralMaxConcurrentJobs)) && SameAt(c, c', NatK(GeneralTaskTimeoutSeconds));
    assert SameAt(c, c', NatK(GeneralWorkerIdleTimeoutSeconds));
  }

  lemma ParallelFrame(c: Config, c': Config, key: Key)
    requires Differ(c, c', key) && SectionOf(key) != Parallel
    ensures ParallelOk(c') == ParallelOk(c)
  {
    assert SameAt(c, c', NatK(ParallelMaxWorkers)) && SameAt(c, c', NatK(ParallelTaskQueueSize));
  }

  lemma TranslationFrame(x: Codec, c: Config, c': Config, key: Key)
    requires Differ(c, c', key) && SectionOf(key) != Translation
    ensures TranslationOk(x, c') == TranslationOk(x, c)
  {
    assert SameAt(c, c', NatK(TranslationBatchSize)) && SameAt(c, c', MaybeK(TranslationDefaultTargetLanguage));
  }

  lemma OnlyItsSection(x: Codec, c: Config, c': Config, key: Key)
    requires Differ(c, c', key)
    ensures StrictOk(x, c') ==> Valid(x, c', SectionOf(key))
    ensures StrictOk(x, c) ==> (StrictOk(x, c') <==> Valid(x, c', SectionOf(key)))
  {
    hide Differ, AiOk, SyncOk, GeneralOk, FormatsOk, ParallelOk, TranslationOk, ConsistencyOk;
    if SectionOf(key) != Ai { AiFrame(x, c, c', key); }
    RestFrame(x, c, c', key);
  }

  lemma StrictIsValid(x: Codec, c: Config, section: Section)
    ensures StrictOk(x, c) ==> Valid(x, c, section)
  {
    hide AiOk, SyncOk, GeneralOk, FormatsOk, ParallelOk, TranslationOk, ConsistencyOk;
  }

  /** Acceptance is the field rule of the stored text and the strict rules of its section. */
  lemma Decided(x: Codec, c: Config, key: Key, value: string)
    requires Lawful(x)
    ensures var v := if key == TextK(AiProvider) then NormalizeProvider(x, value) else value;
            var r := ValidateAndSet(x, c, key, value);
            && (r.Updated? ==> FieldOk(x, key, v) && Store(x, c, key, v).Updated?
                               && Valid(x, Store(x, c, key, v).config, SectionOf(key)))
            && (StrictOk(x, c) ==>
                  && Valid(x, c, SectionOf(key))
                  && (r.Updated? <==> FieldOk(x, key, v) && Store(x, c, key, v).Updated?
                                      && Valid(x, Store(x, c, key, v).config, SectionOf(key))))
  {
    hide StrictOk, FieldOk, Valid, Lawful, NormalizeProvider, Store;
    StrictIsValid(x, c, SectionOf(key));
    var v := if key == TextK(AiProvider) then NormalizeProvider(x, value) else value;
    if Store(x, c, key, v).Updated? {
      var c' := Store(x, c, key, v).config;
      forall other: Key | other != key
        ensures SameAt(c, c', other)
      {
        StoredElsewhere(x, c, key, v, other);
      }
      OnlyItsSection(x, c, c', key);
    }
  }

  ghost predicate Exactly(x: Codec, c: Config, key: Key, value: string) {
    && (ValidateAndSet(x, c, key, value).Updated? ==> Accepts(x, c, key, value))
    && (StrictOk(x, c) ==> (ValidateAndSet(x, c, key, value).Updated? <==> Accepts(x, c, key, value)))
  }

  lemma NatAccepted(x: Codec, c: Config, n: NatKey, value: string)
    requires Lawful(x)
    ensures Exactly(x, c, NatK(n), value)
  {
    hide ValidateAndSet, StrictOk, Lawful, AiOk, ConsistencyOk, Blank, Less, NotOutside, Lower, Unlocks, Reaches;
    if SectionOf(NatK(n)) == Ai {
      AiNatAccepted(x, c, n, value);
    } else {
      Decided(x, c, NatK(n), value);
    }
  }

  lemma AiNatAccepted(x: Codec, c: Config, n: NatKey, value: string)
    requires Lawful(x) && SectionOf(NatK(n)) == Ai
    ensures Exactly(x, c, NatK(n), value)
  {
    hide ValidateAndSet, StrictOk, Lawful, AiOk, ConsistencyOk, Blank, Less, NotOutside, Lower, Unlocks, Reaches;
    Decided(x, c, NatK(n), value);
    var parsed := ParseUnsigned(x, value, NatRange(n).0);
    if parsed.Some? { AiWithNat(x, c, n, parsed.value); }
  }

  lemma AiWithNat(x: Codec, c: Config, n: NatKey, v: nat)
    requires SectionOf(NatK(n)) == Ai
    ensures var c' := c.WithNat(n, v);
            && ConsistencyOk(c') == ConsistencyOk(c)
            && (AiOk(x, c) && Bounds(n).0 <= v <= Bounds(n).1 ==> AiOk(x, c'))
            && (AiOk(x, c') && n != AiMaxTokens ==> Bounds(n).0 <= v <= Bounds(n).1)
  {
    hide Blank, NormalizeProvider, ModelOk, UrlOk, HttpsIfSet, KeyLengthOk, StartsWith, NotOutside, Less;
    match n
    case AiMaxTokens =>
    case AiRetryAttempts =>
    case AiRequestTimeoutSeconds =>
  }

  lemma FloatAccepted(x: Codec, c: Config, f: FloatKey, value: string)
    requires Lawful(x)
    ensures Exactly(x, c, FloatK(f), value)
  {
    hide ValidateAndSet, StrictOk, Lawful, AiOk, ConsistencyOk, Blank;
    Decided(x, c, FloatK(f), value);
    if f == AiTemperature && x.parseFloat(value).Some? {
      AiWithFloat(x, c, f, x.parseFloat(value).value);
      RestWithFloat(x, c, f, x.parseFloat(value).value);
    }
  }

  lemma FlagAccepted(x: Codec, c: Config, b: FlagKey, value: string)
    requires Lawful(x)
    ensures Exactly(x, c, FlagK(b), value)
  {
    hide ValidateAndSet, StrictOk, Lawful, Lower;
    Decided(x, c, FlagK(b), value);
  }

  lemma OverflowAccepted(x: Codec, c: Config, value: string)
    requires Lawful(x)
    ensures Exactly(x, c, OverflowK, value)
  {
    hide ValidateAndSet, StrictOk, Lawful;
    Decided(x, c, OverflowK, value);
  }

  lemma MaybeAccepted(x: Codec, c: Config, m: MaybeKey, value: string)
    requires Lawful(x)
    ensures Exactly(x, c, MaybeK(m), value)
  {
    hide ValidateAndSet, StrictOk, Lawful, NormalizeProvider, Blank, Less, NotOutside, AiOk, Unlocks, Lower, Reaches;
    Decided(x, c, MaybeK(m), value);
    match m
    case AiApiKey => KeyOk(x, c, value);
    case AiApiVersion => if !Blank(x, value) { VersionOk(x, c, value); }
    case TranslationDefaultTargetLanguage =>
  }

  lemma KeyOk(x: Codec, c: Config, key: string)
    ensures var c' := c.WithMaybe(AiApiKey, OrNone(key));
            && (AiOk(x, c') && key != "" ==> Unlocks(ProviderOf(x, c), key))
            && (AiOk(x, c) && (key == "" || Unlocks(ProviderOf(x, c), key)) ==> AiOk(x, c'))
            && (Unlocks(ProviderOf(x, c), key) ==> |key| >= 10)
  {
    hide NormalizeProvider, Blank, Less, NotOutside, ModelOk, UrlOk, HttpsIfSet;
  }

  lemma VersionOk(x: Codec, c: Config, version: string)
    requires !Blank(x, version)
    ensures version != "" && (AiOk(x, c) ==> AiOk(x, c.WithMaybe(AiApiVersion, Some(version))))
  {
    hide NormalizeProvider, Blank, Less, NotOutside, ModelOk, UrlOk, HttpsIfSet, KeyLengthOk, StartsWith;
    EmptyIsBlank(x);
  }

  lemma TextAccepted(x: Codec, c: Config, t: TextKey, value: string)
    requires Lawful(x)
    ensures Exactly(x, c, TextK(t), value)
  {
    hide ValidateAndSet, StrictOk, Lawful, NormalizeProvider, Blank, Less, NotOutside, AiOk, UrlOk, Reaches;
    if t == AiProvider {
      ProviderAccepted(x, c, value);
    } else {
      Decided(x, c, TextK(t), value);
      match t
      case AiModel => ModelNameOk(x, c, value);
      case AiBaseUrl => AddressOk(x, c, value);
      case _ =>
    }
  }

  lemma ModelNameOk(x: Codec, c: Config, model: string)
    ensures AiOk(x, c) && ModelOk(x, model) ==> AiOk(x, c.WithText(AiModel, model))
  {
    hide NormalizeProvider, Blank, Less, NotOutside, UrlOk, HttpsIfSet, KeyLengthOk, StartsWith, ModelOk;
  }

  lemma AddressOk(x: Codec, c: Config, url: string)
    ensures AiOk(x, c.WithText(AiBaseUrl, url)) && UrlOk(x, url) ==> Reaches(x, ProviderOf(x, c), url)
    ensures AiOk(x, c) && Reaches(x, ProviderOf(x, c), url) ==> AiOk(x, c.WithText(AiBaseUrl, url))
    ensures Reaches(x, ProviderOf(x, c), url) ==> UrlOk(x, url)
  {
    hide NormalizeProvider, Trim, Less, NotOutside, ModelOk, KeyLengthOk, StartsWith;
    EmptyIsBlank(x);
  }

  lemma EmptyIsBlank(x: Codec)
    ensures Blank(x, "")
  {
  }

  lemma ProviderNeeds(x: Codec, c: Config, p: string)
    requires NormalizeProvider(x, p) == p
    ensures var c' := c.WithText(AiProvider, p);
            AiOk(x, c') && ConsistencyOk(c') ==> Suits(x, c, p)
  {
    hide NormalizeProvider, Blank, Less, NotOutside, ModelOk, TemperatureOk;
    assert c.WithText(AiProvider, p).Text(AiProvider) == p;
  }

  lemma ProviderSuffices(x: Codec, c: Config, p: string)
    requires NormalizeProvider(x, p) == p && Suits(x, c, p) && !Blank(x, p) && AiOk(x, c)
    ensures var c' := c.WithText(AiProvider, p);
            AiOk(x, c') && ConsistencyOk(c')
  {
    hide NormalizeProvider, Trim, Less, NotOutside, ModelOk;
    EmptyIsBlank(x);
  }

  lemma ProviderAccepted(x: Codec, c: Config, value: string)
    requires Lawful(x)
    ensures Exactly(x, c, TextK(AiProvider), value)
  {
    hide ValidateAndSet, StrictOk, Lawful, NormalizeProvider, Blank, AiOk, ConsistencyOk, Reaches, Unlocks;
    var p := NormalizeProvider(x, value);
    NormalizeIdempotent(x, value);
    NormalizeIdempotent(x, p);
    KnownProvider(x, value);
    ProviderNeeds(x, c, p);
    if AiOk(x, c) && Suits(x, c, p) { ProviderSuffices(x, c, p); }
    Decided(x, c, TextK(AiProvider), value);
  }

  /** A canonical name is never the alias, and the names of the list are not blank. */
  lemma KnownProvider(x: Codec, value: string)
    requires Lawful(x)
    ensures var p := NormalizeProvider(x, value);
            && p != "ollama"
            && (p in {"openai", "openrouter", "anthropic", "azure-openai", "local"} ==> !Blank(x, p))
  {
    ListedNotBlank(x, NormalizeProvider(x, value));
  }

  // ----- What the strict validation comes down to -----

  /** What strict validation asks of a setting on its own. */
  predicate StrictAt(x: Codec, c: Config, key: Key) {
    match key
    case TextK(t) => (
      match t
      case AiModel => !Blank(x, c.Text(t)) && |c.Text(t)| <= 100
      case FormatsDefaultOutput => c.Text(t) in {"srt", "ass", "vtt", "webvtt"}
      case FormatsDefaultEncoding => c.Text(t) in {"utf-8", "gbk", "big5", "shift_jis"}
      case SyncDefaultMethod => c.Text(t) in {"auto", "vad", "manual"}
      case _ => true)
    case MaybeK(m) =>
      c.Maybe(m).Some? ==> (
        match m
        case AiApiKey => c.Maybe(m).value == "" || |c.Maybe(m).value| >= 10
        case TranslationDefaultTargetLanguage => !Blank(x, c.Maybe(m).value)
        case _ => true)
    case NatK(n) =>
      if n in OPEN_BOUNDS then n == ParallelTaskQueueSize ==> c.Nat(n) >= 100
      else Bounds(n).0 <= c.Nat(n) <= Bounds(n).1
    case FloatK(f) => (
      match c.Real(f)
      case Finite(v) => (if f == SyncMaxOffsetSeconds then 0.0 < v else 0.0 <= v) && v <= RealBounds(f).1
      case other => other == NaN && f != SyncVadSensitivity)
    case _ => true
  }

  /** On a configuration whose provider is canonical, as every load makes it, strict
      validation is one condition per setting and the demands of the provider. */
  lemma StrictExactly(x: Codec, c: Config)
    requires Lawful(x) && c.Text(AiProvider) == ProviderOf(x, c)
    ensures StrictOk(x, c) <==> Suits(x, c, c.Text(AiProvider)) && forall key: Key :: StrictAt(x, c, key)
  {
    hide *;
    StrictBySections(x, c);
    if SectionsStrict(x, c) { AllStrict(x, c); }
    if forall key: Key :: StrictAt(x, c, key) { SomeStrict(x, c); }
  }

  predicate AiStrict(x: Codec, c: Config) {
    && StrictAt(x, c, TextK(AiModel)) && StrictAt(x, c, MaybeK(AiApiKey)) && StrictAt(x, c, FloatK(AiTemperature))
    && StrictAt(x, c, NatK(AiRetryAttempts)) && StrictAt(x, c, NatK(AiRequestTimeoutSeconds))
  }

  predicate SyncStrict(x: Codec, c: Config) {
    && StrictAt(x, c, TextK(SyncDefaultMethod)) && StrictAt(x, c, FloatK(SyncMaxOffsetSeconds))
    && StrictAt(x, c, FloatK(SyncVadSensitivity)) && StrictAt(x, c, NatK(SyncVadPaddingChunks))
    && StrictAt(x, c, NatK(SyncVadMinSpeechDurationMs))
  }

  predicate RestStrict(x: Codec, c: Config) {
    && StrictAt(x, c, NatK(GeneralMaxConcurrentJobs)) && StrictAt(x, c, NatK(GeneralTaskTimeoutSeconds))
    && StrictAt(x, c, NatK(GeneralWorkerIdleTimeoutSeconds))
    && StrictAt(x, c, TextK(FormatsDefaultOutput)) && StrictAt(x, c, TextK(FormatsDefaultEncoding))
    && StrictAt(x, c, FloatK(FormatsEncodingDetectionConfidence))
    && StrictAt(x, c, NatK(ParallelMaxWorkers)) && StrictAt(x, c, NatK(ParallelTaskQueueSize))
    && StrictAt(x, c, NatK(TranslationBatchSize)) && StrictAt(x, c, MaybeK(TranslationDefaultTargetLanguage))
  }

  predicate SectionsStrict(x: Codec, c: Config) {
    AiStrict(x, c) && SyncStrict(x, c) && RestStrict(x, c)
  }

  lemma AllStrict(x: Codec, c: Config)
    requires SectionsStrict(x, c)
    ensures forall key: Key :: StrictAt(x, c, key)
  {
    forall key: Key
      ensures StrictAt(x, c, key)
    {
      OneStrict(x, c, key);
    }
  }

  lemma OneStrict(x: Codec, c: Config, key: Key)
    requires SectionsStrict(x, c)
    ensures StrictAt(x, c, key)
  {
    hide StrictAt, SectionsStrict;
    match key
    case TextK(t) => TextStrict(x, c, t);
    case MaybeK(m) => MaybeStrict(x, c, m);
    case NatK(n) => NatStrict(x, c, n);
    case FloatK(f) => FloatStrict(x, c, f);
    case _ => NothingElse(x, c, key);
  }

  lemma TextStrict(x: Codec, c: Config, t: TextKey)
    requires SectionsStrict(x, c)
    ensures StrictAt(x, c, TextK(t))
  {
    if t in {AiModel, FormatsDefaultOutput, FormatsDefaultEncoding, SyncDefaultMethod} { hide StrictAt; }
  }

  lemma MaybeStrict(x: Codec, c: Config, m: MaybeKey)
    requires SectionsStrict(x, c)
    ensures StrictAt(x, c, MaybeK(m))
  {
    if m in {AiApiKey, TranslationDefaultTargetLanguage} { hide StrictAt; }
  }

  lemma NatStrict(x: Codec, c: Config, n: NatKey)
    requires SectionsStrict(x, c)
    ensures StrictAt(x, c, NatK(n))
  {
    if n !in OPEN_BOUNDS || n == ParallelTaskQueueSize { hide StrictAt; }
  }

  lemma FloatStrict(x: Codec, c: Config, f: FloatKey)
    requires SectionsStrict(x, c)
    ensures StrictAt(x, c, FloatK(f))
  {
    hide StrictAt;
  }

  lemma NothingElse(x: Codec, c: Config, key: Key)
    requires key.FlagK? || key.OverflowK? || key.UnknownK?
    ensures StrictAt(x, c, key)
  {
  }

  lemma SomeStrict(x: Codec, c: Config)
    requires forall key: Key :: StrictAt(x, c, key)
    ensures SectionsStrict(x, c)
  {
    hide StrictAt;
  }

  lemma StrictBySections(x: Codec, c: Config)
    requires Lawful(x) && c.Text(AiProvider) == ProviderOf(x, c)
    ensures StrictOk(x, c) <==> Suits(x, c, c.Text(AiProvider)) && SectionsStrict(x, c)
  {
    AiBySettings(x, c);
    SyncBySettings(x, c);
    RestBySettings(x, c);
    hide AiOk, SyncOk, GeneralOk, FormatsOk, ParallelOk, TranslationOk, ConsistencyOk, Suits;
    hide AiStrict, SyncStrict, RestStrict, ProviderOf;
  }

  lemma AiBySettings(x: Codec, c: Config)
    requires Lawful(x) && c.Text(AiProvider) == ProviderOf(x, c)
    ensures AiOk(x, c) && ConsistencyOk(c) <==> Suits(x, c, c.Text(AiProvider)) && AiStrict(x, c)
  {
    hide Lawful, AiStrict;
    CommonBySettings(x, c);
    hide NormalizeProvider, Blank, ModelOk, TemperatureOk;
    ListedNotBlank(x, c.Text(AiProvider));
    EmptyIsBlank(x);
  }

  lemma CommonBySettings(x: Codec, c: Config)
    ensures AiStrict(x, c)
            <==> && KeyLengthOk(c.Maybe(AiApiKey)) && ModelOk(x, c.Text(AiModel)) && TemperatureOk(c)
                 && 0 < c.Nat(AiRetryAttempts) <= 10 && 10 <= c.Nat(AiRequestTimeoutSeconds) <= 600
  {
    hide Blank;
  }

  lemma SyncBySettings(x: Codec, c: Config)
    ensures SyncOk(c) <==> SyncStrict(x, c)
  {
    hide Blank;
  }

  lemma RestBySettings(x: Codec, c: Config)
    ensures GeneralOk(c) && FormatsOk(c) && ParallelOk(c) && TranslationOk(x, c) <==> RestStrict(x, c)
  {
    GeneralBySettings(x, c);
    FormatsBySettings(x, c);
    ParallelBySettings(x, c);
    TranslationBySettings(x, c);
    hide StrictAt, GeneralOk, FormatsOk, ParallelOk, TranslationOk;
  }

  lemma GeneralBySettings(x: Codec, c: Config)
    ensures GeneralOk(c)
            <==> && StrictAt(x, c, NatK(GeneralMaxConcurrentJobs)) && StrictAt(x, c, NatK(GeneralTaskTimeoutSeconds))
                 && StrictAt(x, c, NatK(GeneralWorkerIdleTimeoutSeconds))
  {
  }

  lemma FormatsBySettings(x: Codec, c: Config)
    ensures FormatsOk(c)
            <==> && StrictAt(x, c, TextK(FormatsDefaultOutput)) && StrictAt(x, c, TextK(FormatsDefaultEncoding))
                 && StrictAt(x, c, FloatK(FormatsEncodingDetectionConfidence))
  {
  }

  lemma ParallelBySettings(x: Codec, c: Config)
    ensures ParallelOk(c)
            <==> StrictAt(x, c, NatK(ParallelMaxWorkers)) && StrictAt(x, c, NatK(ParallelTaskQueueSize))
  {
  }

  lemma TranslationBySettings(x: Codec, c: Config)
    ensures TranslationOk(x, c)
            <==> && StrictAt(x, c, NatK(TranslationBatchSize))
                 && StrictAt(x, c, MaybeK(TranslationDefaultTargetLanguage))
  {
    hide Blank;
  }

  // ----- Which files the tolerant load takes -----

  /** What the tolerant load asks of a setting in the file, after its provider has been
      made canonical: less than a set, since no setting is checked against another, and
      the speech duration has no upper bound but its type's. */
  predicate Loadable(x: Codec, c: Config, key: Key) {
    match key
    case TextK(t) => (
      match t
      case AiProvider => c.Text(t) in {"openai", "openrouter", "anthropic", "azure-openai", "local", "ollama"}
      case AiModel => !Blank(x, c.Text(t)) && |c.Text(t)| <= 100
      case AiBaseUrl => Blank(x, c.Text(t)) || x.urlScheme(c.Text(t)).Some?
      case FormatsDefaultOutput => c.Text(t) in {"srt", "ass", "vtt", "webvtt"}
      case FormatsDefaultEncoding => c.Text(t) in {"utf-8", "gbk", "big5", "shift_jis"}
      case SyncDefaultMethod => c.Text(t) in {"auto", "vad", "manual"})
    case MaybeK(m) =>
      c.Maybe(m).Some? ==> (
        match m
        case AiApiKey => c.Maybe(m).value == "" || |c.Maybe(m).value| >= 10
        case AiApiVersion => !Blank(x, c.Maybe(m).value)
        case TranslationDefaultTargetLanguage => c.Maybe(m).value == "" || !Blank(x, c.Maybe(m).value))
    case NatK(n) =>
      Bounds(n).0 <= c.Nat(n) <= if n == SyncVadMinSpeechDurationMs then 0xFFFF_FFFF else Bounds(n).1
    case FloatK(f) => (
      match c.Real(f)
      case Finite(v) => RealBounds(f).0 <= v <= RealBounds(f).1
      case other => other == NaN)
    case OverflowK => c.overflow in {Block, Drop, Expand}
    case _ => true
  }

  /** The tolerant load takes a file exactly when every setting is loadable. */
  lemma LoadsForRepairExactly(s: Setup, c: Config)
    requires Lawful(s.codec) && forall f :: Prints(s.codec, c.Real(f))
    ensures LoadForRepair(s, Complete(c)).Some? <==> forall key: Key :: Loadable(s.codec, Canonical(s.codec, c), key)
  {
    hide Lawful, PrintedOk, Loadable, NormalizeProvider;
    var canonical := Canonical(s.codec, c);
    forall key: Key
      ensures PrintedOk(s.codec, canonical, key) <==> Loadable(s.codec, canonical, key)
    {
      if key.FloatK? { assert canonical.Real(key.f) == c.Real(key.f) && Prints(s.codec, c.Real(key.f)); }
      LoadsField(s.codec, canonical, key);
    }
  }

  lemma LoadsField(x: Codec, c: Config, key: Key)
    requires Lawful(x) && (key.FloatK? ==> Prints(x, c.Real(key.f)))
    ensures PrintedOk(x, c, key) <==> Loadable(x, c, key)
  {
    hide Decimal, Lower, Blank, ParseUnsigned, ParseBool, Lawful;
    match key
    case TextK(t) => if t == AiProvider { ListedNotBlank(x, c.Text(t)); }
    case MaybeK(_) =>
    case NatK(n) => ParseOfPrinted(x, c.Nat(n), NatRange(n).0);
    case FloatK(_) =>
    case FlagK(_) => BoolWords();
    case OverflowK =>
    case UnknownK =>
  }

  lemma ListedNotBlank(x: Codec, p: string)
    requires Lawful(x)
    ensures p in {"openai", "openrouter", "anthropic", "azure-openai", "local", "ollama"} ==> !Blank(x, p)
  {
    if p in {"openai", "openrouter", "anthropic", "azure-openai", "local", "ollama"} { NonBlank(x, p); }
  }
}
