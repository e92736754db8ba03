/** The configuration service: strict load with the environment overlay, tolerant
    load, set, reset, and the cache they share. */
module ConfigService {
  import opened Strings
  import opened Config

  // ----- Sources -----

  datatype Var =
    | SubxAiProvider | SubxAiApiKey | SubxAiBaseUrl | SubxAiModel | OtherSubx(name: string)
    | OpenaiApiKey | OpenaiBaseUrl | OpenrouterApiKey
    | AzureApiKey | AzureEndpoint | AzureApiVersion | AzureDeploymentId
    | LocalLlmBaseUrl | LocalLlmApiKey

  type Env = map<Var, string>

  function Get(env: Env, v: Var): Option<string> {
    if v in env then Some(env[v]) else None
  }

  predicate IsSubx(v: Var) {
    v.SubxAiProvider? || v.SubxAiApiKey? || v.SubxAiBaseUrl? || v.SubxAiModel? || v.OtherSubx?
  }

  predicate IsLocalLlm(v: Var) {
    v.LocalLlmBaseUrl? || v.LocalLlmApiKey?
  }

  predicate IsHosted(v: Var) {
    !IsSubx(v) && !IsLocalLlm(v)
  }

  function SubxOnly(env: Env): Env {
    map v | v in env && IsSubx(v) :: env[v]
  }

  /** The configuration file: none, a complete configuration, or anything else. */
  datatype File = Absent | Complete(config: Config) | Broken

  /** What merging the files with the prefixed variables yields. */
  datatype Merged = BuildFailed | Full(config: Config)
                  | Partial(apiKey: Option<string>, provider: Option<string>,
                            model: Option<string>, baseUrl: Option<string>)

  /** Everything a service is built from: syntax, the merging library (which sees
      only prefixed variables), the processor count. */
  datatype Setup = Setup(codec: Codec, merge: (File, Env) -> Merged, cpus: nat)

  // ----- Strict load -----

  function Override(c: Config, k: TextKey, v: Option<string>): Config {
    if v.Some? then c.WithText(k, v.value) else c
  }

  function OverrideKey(c: Config, v: Option<string>): Config {
    if v.Some? then c.WithMaybe(AiApiKey, v) else c
  }

  function Base(s: Setup, file: File, env: Env): Option<Config> {
    match s.merge(file, SubxOnly(env))
    case BuildFailed => None
    case Full(c) => Some(c)
    case Partial(apiKey, provider, model, baseUrl) =>
      var c := OverrideKey(DefaultConfig(s.cpus), apiKey);
      Some(Override(Override(Override(c, AiProvider, provider), AiModel, model), AiBaseUrl, baseUrl))
  }

  /** The explicit overrides, then the canonical provider. */
  function WithSubx(x: Codec, c: Config, env: Env): Config {
    var c1 := Override(c, AiProvider, Get(env, SubxAiProvider));
    var c2 := OverrideKey(c1, Get(env, SubxAiApiKey));
    var c3 := Override(c2, AiBaseUrl, Get(env, SubxAiBaseUrl));
    var c4 := Override(c3, AiModel, Get(env, SubxAiModel));
    c4.WithText(AiProvider, NormalizeProvider(x, c4.Text(AiProvider)))
  }

  function WithLocal(c: Config, env: Env): Config {
    var c1 := if SubxAiBaseUrl in env then c else Override(c, AiBaseUrl, Get(env, LocalLlmBaseUrl));
    if SubxAiApiKey in env then c1 else OverrideKey(c1, Get(env, LocalLlmApiKey))
  }

  /** The OpenRouter and OpenAI variables, and the Azure key. */
  function HostedKeys(c: Config, env: Env): Config {
    var c1 := if OpenrouterApiKey in env
              then OverrideKey(c.WithText(AiProvider, "openrouter"), Get(env, OpenrouterApiKey)) else c;
    var c2 := if c1.Maybe(AiApiKey).None? then OverrideKey(c1, Get(env, OpenaiApiKey)) else c1;
    var c3 := Override(c2, AiBaseUrl, Get(env, OpenaiBaseUrl));
    if AzureApiKey in env
    then OverrideKey(c3.WithText(AiProvider, "azure-openai"), Get(env, AzureApiKey)) else c3
  }

  function WithHosted(x: Codec, c: Config, env: Env): Config {
    var c4 := HostedKeys(c, env);
    var c5 := Override(c4, AiBaseUrl, Get(env, AzureEndpoint));
    var c6 := if AzureApiVersion in env then c5.WithMaybe(AiApiVersion, Get(env, AzureApiVersion)) else c5;
    var c7 := Override(c6, AiModel, Get(env, AzureDeploymentId));
    c7.WithText(AiProvider, NormalizeProvider(x, c7.Text(AiProvider)))
  }

  function Overlay(x: Codec, base: Config, env: Env): Config {
    var c := WithSubx(x, base, env);
    if c.Text(AiProvider) == "local" then WithLocal(c, env) else WithHosted(x, c, env)
  }

  /** `load_and_validate`. */
  function StrictLoad(s: Setup, file: File, env: Env): Option<Config> {
    match Base(s, file, env)
    case None => None
    case Some(base) =>
      var c := Overlay(s.codec, base, env);
      if StrictOk(s.codec, c) then Some(c) else None
  }

  // ----- Tolerant load and set -----

  function Canonical(x: Codec, c: Config): Config {
    c.WithText(AiProvider, NormalizeProvider(x, c.Text(AiProvider)))
  }

  /** `load_for_repair`: the file alone, canonical provider, every field checked. */
  ghost function LoadForRepair(s: Setup, file: File): Option<Config> {
    match file
    case Absent => Some(DefaultConfig(s.cpus))
    case Broken => None
    case Complete(c) => if AllFieldsOk(s.codec, Canonical(s.codec, c)) then Some(Canonical(s.codec, c)) else None
  }

  /** Storing a value: `Crashed` stands for a failed unwrap or an unreachable arm. */
  datatype Stored = Updated(config: Config) | Refused | Crashed

  function OrNone(value: string): Option<string> {
    if value == "" then None else Some(value)
  }

  function Store(x: Codec, c: Config, key: Key, value: string): Stored {
    match key
    case TextK(t) => Updated(c.WithText(t, if t == AiProvider then NormalizeProvider(x, value) else value))
    case MaybeK(m) => Updated(c.WithMaybe(m, OrNone(value)))
    case NatK(n) => (
      match ParseUnsigned(x, value, NatRange(n).0)
      case None => Crashed
      case Some(v) => Updated(c.WithNat(n, v)))
    case FloatK(f) => (
      match x.parseFloat(value)
      case None => Crashed
      case Some(v) => Updated(c.(floats := c.floats[f := v])))
    case FlagK(b) => (
      match ParseBool(value)
      case None => Refused
      case Some(v) => Updated(c.(flags := c.flags[b := v])))
    case OverflowK => (
      match ParseOverflow(value)
      case None => Crashed
      case Some(v) => Updated(c.(overflow := v)))
    case UnknownK => Refused
  }

  /** `validate_and_set_value`. */
  function ValidateAndSet(x: Codec, c: Config, key: Key, raw: string): Stored {
    var value := if key == TextK(AiProvider) then NormalizeProvider(x, raw) else raw;
    if !FieldOk(x, key, value) then Refused
    else match Store(x, c, key, value)
         case Updated(c') => if StrictOk(x, c') then Updated(c') else Refused
         case other => other
  }

  // ----- The service -----

  /** A write that opens the file but does not complete leaves it broken; one that
      completes may still fail to restrict the file's permissions. */
  datatype WriteFate = Wrote | NotOpened | Interrupted | NotRestricted

  datatype State = State(file: File, cache: Option<Config>)

  datatype Command =
    | GetConfig | Reload | Set(key: Key, value: string, write: WriteFate) | Reset(write: WriteFate) | Repair

  function AfterWrite(file: File, c: Config, fate: WriteFate): File {
    match fate
    case Wrote => Complete(c)
    case NotOpened => file
    case Interrupted => Broken
    case NotRestricted => Complete(c)
  }

  function Fetch(s: Setup, env: Env, st: State): (State, Option<Config>) {
    if st.cache.Some? then (st, st.cache)
    else
      var loaded := StrictLoad(s, st.file, env);
      (if loaded.Some? then st.(cache := loaded) else st, loaded)
  }

  datatype Reply = Ok(config: Config) | Failed | Crash

  ghost function SetValue(s: Setup, st: State, key: Key, value: string, write: WriteFate): (State, Reply) {
    match LoadForRepair(s, st.file)
    case None => (st, Failed)
    case Some(c) =>
      match ValidateAndSet(s.codec, c, key, value)
      case Refused => (st, Failed)
      case Crashed => (st, Crash)
      case Updated(c') =>
        if write == Wrote then (State(Complete(c'), Some(c')), Ok(c'))
        else (st.(file := AfterWrite(st.file, c', write)), Failed)
  }

  function ToReply(c: Option<Config>): Reply {
    if c.Some? then Ok(c.value) else Failed
  }

  ghost function Perform(s: Setup, env: Env, st: State, command: Command): (State, Reply) {
    match command
    case GetConfig => var (st', c) := Fetch(s, env, st); (st', ToReply(c))
    case Reload => var (st', c) := Fetch(s, env, st.(cache := None)); (st', ToReply(c))
    case Set(key, value, write) => SetValue(s, st, key, value, write)
    case Reset(write) =>
      var file := AfterWrite(st.file, DefaultConfig(s.cpus), write);
      if write != Wrote then (st.(file := file), Failed)
      else var (st', c) := Fetch(s, env, State(file, None)); (st', ToReply(c))
    case Repair => (st, ToReply(LoadForRepair(s, st.file)))
  }

  /** The production service over the mutable file and cache. */
  class ProductionConfigService {
    const setup: Setup
    const env: Env
    var file: File
    var cache: Option<Config>

    constructor (s: Setup, e: Env, f: File)
      ensures setup == s && env == e && file == f && cache == None
    {
      setup, env, file, cache := s, e, f, None;
    }

    ghost function Now(): State
      reads this
    {
      State(file, cache)
    }

    method Get() returns (reply: Reply)
      modifies this`cache
      ensures (Now(), reply) == Perform(setup, env, old(Now()), GetConfig)
    {
      hide StrictLoad;
      if cache.Some? {
        return Ok(cache.value);
      }
      var loaded := StrictLoad(setup, file, env);
      if loaded.None? {
        return Failed;
      }
      cache := loaded;
      return Ok(loaded.value);
    }

    method ReloadConfig() returns (reply: Reply)
      modifies this`cache
      ensures (Now(), reply) == Perform(setup, env, old(Now()), Reload)
    {
      cache := None;
      reply := Get();
    }

    /** The per-field check of every settable field. */
    method CheckAllFields(c: Config) returns (ok: bool)
      ensures ok <==> AllFieldsOk(setup.codec, c)
    {
      var x := setup.codec;
      ok := && (forall t: TextKey :: PrintedOk(x, c, TextK(t)))
            && (forall m: MaybeKey :: PrintedOk(x, c, MaybeK(m)))
            && (forall n: NatKey :: PrintedOk(x, c, NatK(n)))
            && (forall f: FloatKey :: PrintedOk(x, c, FloatK(f)))
            && (forall b: FlagKey :: PrintedOk(x, c, FlagK(b)))
            && PrintedOk(x, c, OverflowK);
      hide FieldOk;
    }

    method Load() returns (loaded: Option<Config>)
      ensures loaded == LoadForRepair(setup, file)
    {
      if file.Absent? {
        return Some(DefaultConfig(setup.cpus));
      }
      if file.Broken? {
        return None;
      }
      var c := Canonical(setup.codec, file.config);
      var ok := CheckAllFields(c);
      return if ok then Some(c) else None;
    }

    method SetConfigValue(key: Key, value: string, write: WriteFate) returns (reply: Reply)
      modifies this
      ensures (Now(), reply) == Perform(setup, env, old(Now()), Set(key, value, write))
    {
      hide LoadForRepair, ValidateAndSet, StrictLoad;
      var loaded := Load();
      if loaded.None? {
        return Failed;
      }
      var stored := ValidateAndSet(setup.codec, loaded.value, key, value);
      if !stored.Updated? {
        return if stored.Crashed? then Crash else Failed;
      }
      file := AfterWrite(file, stored.config, write);
      if write != Wrote {
        return Failed;
      }
      cache := Some(stored.config);
      return Ok(stored.config);
    }

    method ResetToDefaults(write: WriteFate) returns (reply: Reply)
      modifies this
      ensures (Now(), reply) == Perform(setup, env, old(Now()), Reset(write))
    {
      file := AfterWrite(file, DefaultConfig(setup.cpus), write);
      if write != Wrote {
        return Failed;
      }
      reply := ReloadConfig();
    }
  }

  // ----- Runs -----

  ghost function RunAll(s: Setup, env: Env, st: State, commands: seq<Command>): State
    decreases |commands|
  {
    if commands == [] then st else RunAll(s, env, Perform(s, env, st, commands[0]).0, commands[1..])
  }

  predicate CacheStrict(s: Setup, st: State) {
    st.cache.Some? ==> StrictOk(s.codec, st.cache.value)
  }

  /** In every sequence of commands, with any write faults, the cache is empty or
      holds a configuration that passes strict validation. */
  lemma {:induction false} CacheAlwaysStrict(s: Setup, env: Env, st: State, commands: seq<Command>)
    requires CacheStrict(s, st)
    ensures CacheStrict(s, RunAll(s, env, st, commands))
    decreases |commands|
  {
    hide StrictOk, Overlay, Base, FieldOk, Store, DefaultConfig, AllFieldsOk;
    if commands != [] {
      CacheAlwaysStrict(s, env, Perform(s, env, st, commands[0]).0, commands[1..]);
    }
  }

  // ----- What a set guarantees -----

  /** A value that passes its field check is stored, never crashes, and prints back
      to a text that passes the check again. */
  lemma StoredFieldOk(x: Codec, c: Config, key: Key, value: string)
    requires Lawful(x) && FieldOk(x, key, value)
    requires key == TextK(AiProvider) ==> NormalizeProvider(x, value) == value
    ensures var r := Store(x, c, key, value); r.Updated? && PrintedOk(x, r.config, key)
  {
    hide Decimal, Lower, Trim, NormalizeProvider;
    var r := Store(x, c, key, value);
    match key
    case NatK(n) => ParseOfPrinted(x, ParseUnsigned(x, value, NatRange(n).0).value, NatRange(n).0);
    case FloatK(f) => assert Prints(x, x.parseFloat(value).value);
    case FlagK(b) => BoolWords();
    case OverflowK => assert OverflowName(ParseOverflow(value).value) == value;
    case _ =>
  }

  lemma OtherFieldsUntouched(x: Codec, c: Config, key: Key, value: string, other: Key)
    requires Store(x, c, key, value).Updated? && other != key
    ensures Printed(x, Store(x, c, key, value).config, other) == Printed(x, c, other)
  {
  }

  lemma ProviderFixed(x: Codec, c: Config, key: Key, value: string)
    requires Lawful(x) && Store(x, c, key, value).Updated?
    requires AiProvider in c.texts && c.Text(AiProvider) == NormalizeProvider(x, c.Text(AiProvider))
    ensures var c' := Store(x, c, key, value).config;
            AiProvider in c'.texts && c'.Text(AiProvider) == NormalizeProvider(x, c'.Text(AiProvider))
  {
    hide NormalizeProvider, ParseUnsigned, ParseBool, ParseOverflow;
    NormalizeIdempotent(x, value);
  }

  lemma LoadedProviderCanonical(s: Setup, file: File)
    requires Lawful(s.codec) && LoadForRepair(s, file).Some?
    ensures var c := LoadForRepair(s, file).value;
            AiProvider in c.texts && c.Text(AiProvider) == NormalizeProvider(s.codec, c.Text(AiProvider))
  {
    match file
    case Absent =>
      NonBlank(s.codec, "openai");
      assert Lower("openai") == "openai";
    case Broken =>
    case Complete(c) => NormalizeIdempotent(s.codec, c.Text(AiProvider));
  }

  /** After an accepted set every field still passes its check, also when the
      file was missing and the defaults were the starting point. */
  lemma SetKeepsFieldsOk(s: Setup, file: File, c: Config, key: Key, value: string, c': Config)
    requires Lawful(s.codec) && LoadForRepair(s, file) == Some(c)
    requires Store(s.codec, c, key, value) == Updated(c') && PrintedOk(s.codec, c', key) && StrictOk(s.codec, c')
    ensures AllFieldsOk(s.codec, c')
  {
    var x := s.codec;
    hide Store, DefaultConfig, AiOk, FieldOk, Printed;
    forall other: Key
      ensures PrintedOk(x, c', other)
    {
      if other == NatK(ParallelMaxWorkers) {
        WorkersOk(x, c');
      } else if other != key {
        OtherFieldsUntouched(x, c, key, value, other);
        if file.Absent? { DefaultFieldsOk(x, s.cpus, other); }
        assert PrintedOk(x, c, other);
      }
    }
  }

  lemma WorkersOk(x: Codec, c: Config)
    requires Lawful(x) && ParallelOk(c)
    ensures PrintedOk(x, c, NatK(ParallelMaxWorkers))
  {
  }

  /** The setting reads the same in both. */
  predicate SameAt(c: Config, o: Config, key: Key) {
    match key
    case TextK(t) => o.Text(t) == c.Text(t)
    case MaybeK(m) => o.Maybe(m) == c.Maybe(m)
    case NatK(n) => o.Nat(n) == c.Nat(n)
    case FloatK(f) => o.Real(f) == c.Real(f)
    case FlagK(b) => o.Flag(b) == c.Flag(b)
    case OverflowK => o.overflow == c.overflow
    case UnknownK => true
  }

  /** The setting reads as the text that was given for it. */
  predicate ReadsAs(x: Codec, o: Config, key: Key, value: string) {
    match key
    case TextK(t) => o.Text(t) == if t == AiProvider then NormalizeProvider(x, value) else value
    case MaybeK(m) => o.Maybe(m) == if value == "" then None else Some(value)
    case NatK(n) => x.parseNat(value) == Some(o.Nat(n))
    case FloatK(f) => x.parseFloat(value) == Some(o.Real(f))
    case FlagK(b) => o.Flag(b) <==> Lower(value) in ["true", "1", "yes", "on", "enabled"]
    case OverflowK => value == (match o.overflow
                                case Block => "Block"
                                case Drop => "Drop"
                                case Expand => "Expand"
                                case _ => "")
    case UnknownK => false
  }

  /** `o` is `c` with the one setting given. */
  ghost predicate SetTo(x: Codec, c: Config, o: Config, key: Key, value: string) {
    ReadsAs(x, o, key, value) && forall other: Key | other != key :: SameAt(c, o, other)
  }

  /** An accepted set stores the value it was given, and nothing else. */
  lemma StoresExactly(x: Codec, c: Config, key: Key, value: string)
    requires Lawful(x) && ValidateAndSet(x, c, key, value).Updated?
    ensures SetTo(x, c, ValidateAndSet(x, c, key, value).config, key, value)
  {
    hide Decimal, Lower, Trim, NormalizeProvider, StrictOk, Lawful;
    NormalizeIdempotent(x, value);
    var v := if key == TextK(AiProvider) then NormalizeProvider(x, value) else value;
    StoredReads(x, c, key, v);
    forall other: Key | other != key
      ensures SameAt(c, Store(x, c, key, v).config, other)
    {
      StoredElsewhere(x, c, key, v, other);
    }
  }

  lemma StoredReads(x: Codec, c: Config, key: Key, value: string)
    requires Store(x, c, key, value).Updated?
    ensures ReadsAs(x, Store(x, c, key, value).config, key, value)
  {
    hide Lower, Trim, NormalizeProvider;
  }

  lemma StoredElsewhere(x: Codec, c: Config, key: Key, value: string, other: Key)
    requires Store(x, c, key, value).Updated? && other != key
    ensures SameAt(c, Store(x, c, key, value).config, other)
  {
    hide Lower, Trim, NormalizeProvider, ParseUnsigned, ParseBool, ParseOverflow;
  }

  /** What a set starts from: the file with its provider canonical, or the defaults. */
  function Before(s: Setup, file: File): Config {
    if file.Complete? then Canonical(s.codec, file.config) else DefaultConfig(s.cpus)
  }

  /** The request is turned down: the file cannot be loaded, the value fails its
      field check, or the resulting configuration fails strict validation. */
  ghost predicate TurnedDown(s: Setup, st: State, key: Key, value: string) {
    var loaded := LoadForRepair(s, st.file);
    loaded.None? || !ValidateAndSet(s.codec, loaded.value, key, value).Updated?
  }

  /** For every state, key, value and write fate: a set never crashes. If it is
      turned down, neither file nor cache changes. Otherwise a completed write leaves what
      was there with the one setting given, strictly valid, and the next tolerant load
      returns it unchanged; it enters the cache exactly when the set reports success, so
      a failed permission change leaves the new file behind the old cache. */
  lemma SetGuarantees(s: Setup, st: State, key: Key, value: string, write: WriteFate)
    requires Lawful(s.codec)
    ensures var (st', reply) := SetValue(s, st, key, value, write);
            && reply != Crash
            && (TurnedDown(s, st, key, value) ==> st' == st && reply == Failed)
            && (!TurnedDown(s, st, key, value) && write in {Wrote, NotRestricted} ==>
                  && st'.file.Complete? && StrictOk(s.codec, st'.file.config)
                  && LoadForRepair(s, st'.file) == Some(st'.file.config)
                  && SetTo(s.codec, Before(s, st.file), st'.file.config, key, value)
                  && (write == Wrote ==> reply == Ok(st'.file.config) && st'.cache == Some(st'.file.config)))
            && (!TurnedDown(s, st, key, value) && write == NotOpened ==> st'.file == st.file)
            && (!TurnedDown(s, st, key, value) && write == Interrupted ==> st'.file == Broken)
            && (reply.Ok? <==> !TurnedDown(s, st, key, value) && write == Wrote)
            && (!reply.Ok? ==> st'.cache == st.cache)
  {
    var x := s.codec;
    hide StrictOk, FieldOk, Store, DefaultConfig, AllFieldsOk, NormalizeProvider, SetTo;
    if LoadForRepair(s, st.file).Some? {
      var c := LoadForRepair(s, st.file).value;
      var v := if key == TextK(AiProvider) then NormalizeProvider(x, value) else value;
      if FieldOk(x, key, v) {
        NormalizeIdempotent(x, value);
        StoredFieldOk(x, c, key, v);
        var c' := Store(x, c, key, v).config;
        if StrictOk(x, c') {
          LoadedProviderCanonical(s, st.file);
          ProviderFixed(x, c, key, v);
          SetKeepsFieldsOk(s, st.file, c, key, v, c');
          SameText(x, c');
          StoresExactly(x, c, key, value);
        }
      }
    }
  }

  lemma SameText(x: Codec, c: Config)
    requires AiProvider in c.texts && c.Text(AiProvider) == NormalizeProvider(x, c.Text(AiProvider))
    ensures Canonical(x, c) == c
  {
  }

  // ----- Limits of the tolerant load -----

  /** The tolerant load is not weaker than the strict one: a file that asks for the
      `DropOldest` strategy passes strict validation, yet the tolerant load refuses
      it, so no set can change it. */
  lemma StrictButNotRepairable(s: Setup, key: Key, value: string, write: WriteFate)
    requires Lawful(s.codec) && 1 <= s.cpus <= 64
    ensures var c := DefaultConfig(s.cpus).(overflow := DropOldest);
            && StrictOk(s.codec, c)
            && LoadForRepair(s, Complete(c)) == None
            && SetValue(s, State(Complete(c), None), key, value, write) == (State(Complete(c), None), Failed)
  {
    hide Lawful, StrictOk, DefaultConfig;
    var d := DefaultConfig(s.cpus);
    var c := d.(overflow := DropOldest);
    DefaultStrictExactly(s.codec, s.cpus);
    SameButOverflow(s.codec, d, DropOldest);
    assert !PrintedOk(s.codec, Canonical(s.codec, c), OverflowK);
    hide PrintedOk;
  }

  lemma SameButOverflow(x: Codec, c: Config, o: Overflow)
    ensures StrictOk(x, c.(overflow := o)) == StrictOk(x, c)
  {
    hide AiOk, SyncOk, GeneralOk, FormatsOk, ParallelOk, TranslationOk, ConsistencyOk;
    AiIgnoresOverflow(x, c, o);
    RestIgnoresOverflow(x, c, o);
  }

  lemma AiIgnoresOverflow(x: Codec, c: Config, o: Overflow)
    ensures AiOk(x, c.(overflow := o)) == AiOk(x, c)
  {
  }

  lemma RestIgnoresOverflow(x: Codec, c: Config, o: Overflow)
    ensures var c' := c.(overflow := o);
            && SyncOk(c') == SyncOk(c) && GeneralOk(c') == GeneralOk(c) && FormatsOk(c') == FormatsOk(c)
            && ParallelOk(c') == ParallelOk(c) && TranslationOk(x, c') == TranslationOk(x, c)
            && ConsistencyOk(c') == ConsistencyOk(c)
  {
  }

  const OPEN_BOUNDS: set<NatKey> :=
    {AiMaxSampleLength, AiMaxTokens, AiRetryDelayMs, GeneralMaxSubtitleBytes, GeneralMaxAudioBytes,
     ParallelTaskQueueSize}

  /** What strict validation leaves open about a field: nothing but a few bounds, the
      address of a provider it does not check, the version for other providers than
      Azure, and the two overflow strategies no set accepts. */
  predicate LeftOpen(x: Codec, c: Config, key: Key) {
    match key
    case TextK(t) => t == AiBaseUrl ==> UrlOk(x, c.Text(AiBaseUrl))
    case MaybeK(m) => m == AiApiVersion && c.Maybe(m).Some? ==> !Blank(x, c.Maybe(m).value)
    case NatK(n) => n in OPEN_BOUNDS ==> NatRange(n).1 <= c.Nat(n) <= NatRange(n).2
    case FloatK(f) => f == SyncMaxOffsetSeconds ==> !Less(c.Real(f), Finite(0.1))
    case FlagK(_) => true
    case OverflowK => c.overflow in {Block, Drop, Expand}
    case UnknownK => true
  }

  /** Which strictly valid files, provider aliases resolved, the tolerant load accepts. */
  lemma RepairableExactly(s: Setup, c: Config)
    requires Lawful(s.codec) && StrictOk(s.codec, Canonical(s.codec, c))
    requires forall f :: Prints(s.codec, c.Real(f))
    ensures LoadForRepair(s, Complete(c)).Some?
            <==> forall key: Key :: LeftOpen(s.codec, Canonical(s.codec, c), key)
  {
    hide StrictOk, NormalizeProvider, PrintedOk, LeftOpen, Lawful;
    var canonical := Canonical(s.codec, c);
    NormalizeIdempotent(s.codec, c.Text(AiProvider));
    forall f: FloatKey
      ensures Prints(s.codec, canonical.Real(f))
    {
      assert Prints(s.codec, c.Real(f));
    }
    forall key: Key
      ensures PrintedOk(s.codec, canonical, key) <==> LeftOpen(s.codec, canonical, key)
    {
      StrictLeavesOpen(s.codec, canonical, key);
    }
  }

  lemma StrictLeavesOpen(x: Codec, c: Config, key: Key)
    requires Lawful(x) && StrictOk(x, c) && forall f :: Prints(x, c.Real(f))
    requires c.Text(AiProvider) == NormalizeProvider(x, c.Text(AiProvider))
    ensures PrintedOk(x, c, key) <==> LeftOpen(x, c, key)
  {
    hide StrictOk, PrintedOk, LeftOpen, Lawful, NormalizeProvider;
    match key
    case TextK(t) => TextsLeftOpen(x, c, t);
    case MaybeK(m) => MaybesLeftOpen(x, c, m);
    case NatK(n) => NatsLeftOpen(x, c, n);
    case FloatK(f) => FloatsLeftOpen(x, c, f);
    case FlagK(b) => FlagsLeftOpen(x, c, b);
    case OverflowK => OverflowLeftOpen(x, c);
    case UnknownK => NothingUnknown(x, c);
  }

  lemma TextsLeftOpen(x: Codec, c: Config, t: TextKey)
    requires StrictOk(x, c) && c.Text(AiProvider) == NormalizeProvider(x, c.Text(AiProvider))
    ensures PrintedOk(x, c, TextK(t)) <==> LeftOpen(x, c, TextK(t))
  {
    hide Decimal, Lower, Trim, NormalizeProvider, StartsWith, GeneralOk, ParallelOk, TranslationOk, ConsistencyOk;
  }

  lemma MaybesLeftOpen(x: Codec, c: Config, m: MaybeKey)
    requires StrictOk(x, c)
    ensures PrintedOk(x, c, MaybeK(m)) <==> LeftOpen(x, c, MaybeK(m))
  {
    hide Decimal, Lower, Trim, NormalizeProvider, StartsWith, GeneralOk, ParallelOk, SyncOk, FormatsOk, ConsistencyOk;
  }

  lemma NatsLeftOpen(x: Codec, c: Config, n: NatKey)
    requires Lawful(x) && StrictOk(x, c)
    ensures PrintedOk(x, c, NatK(n)) <==> LeftOpen(x, c, NatK(n))
  {
    hide Decimal, Lawful, Trim, NormalizeProvider, ParseUnsigned, StartsWith, FormatsOk, ConsistencyOk;
    ParseOfPrinted(x, c.Nat(n), NatRange(n).0);
  }

  lemma FloatsLeftOpen(x: Codec, c: Config, f: FloatKey)
    requires StrictOk(x, c) && Prints(x, c.Real(f))
    ensures PrintedOk(x, c, FloatK(f)) <==> LeftOpen(x, c, FloatK(f))
  {
    hide Decimal, Lower, Trim, NormalizeProvider, StartsWith, GeneralOk, ParallelOk, TranslationOk, ConsistencyOk;
  }

  lemma FlagsLeftOpen(x: Codec, c: Config, b: FlagKey)
    ensures PrintedOk(x, c, FlagK(b)) && LeftOpen(x, c, FlagK(b))
  {
    hide ParseBool;
    BoolWords();
  }

  lemma OverflowLeftOpen(x: Codec, c: Config)
    ensures PrintedOk(x, c, OverflowK) <==> LeftOpen(x, c, OverflowK)
  {
  }

  lemma NothingUnknown(x: Codec, c: Config)
    ensures PrintedOk(x, c, UnknownK) && LeftOpen(x, c, UnknownK)
  {
  }

  /** Which numbers a set accepts for each fractional setting: those in its range, and
      not-a-number as well, because no bound compares with it; only the sensitivity is
      checked in a way that rejects that. */
  lemma FloatAcceptedExactly(x: Codec, c: Config, f: FloatKey, value: string)
    requires StrictOk(x, c)
    ensures var parsed, result := x.parseFloat(value), ValidateAndSet(x, c, FloatK(f), value);
            && (result.Updated? <==>
                 && parsed.Some?
                 && (|| (parsed.value.Finite? && FloatRange(f).0 <= parsed.value.value <= FloatRange(f).1)
                     || (parsed.value == NaN && f != SyncVadSensitivity)))
            && (result.Updated? ==> result.config == c.(floats := c.floats[f := parsed.value]))
  {
    hide AiOk, SyncOk, GeneralOk, FormatsOk, ParallelOk, TranslationOk, ConsistencyOk, NormalizeProvider;
    if x.parseFloat(value).Some? {
      AiWithFloat(x, c, f, x.parseFloat(value).value);
      RestWithFloat(x, c, f, x.parseFloat(value).value);
    }
  }

  lemma AiWithFloat(x: Codec, c: Config, f: FloatKey, v: Float)
    ensures var c' := c.(floats := c.floats[f := v]);
            AiOk(x, c) ==> (AiOk(x, c') <==> (f == AiTemperature ==> NotOutside(v, 0.0, 2.0)))
  {
    hide Blank, NormalizeProvider, ModelOk, UrlOk, HttpsIfSet, KeyLengthOk, StartsWith, NotOutside;
  }

  lemma RestWithFloat(x: Codec, c: Config, f: FloatKey, v: Float)
    ensures var c' := c.(floats := c.floats[f := v]);
            && (SyncOk(c) && (f == SyncMaxOffsetSeconds ==> NotOutside(v, 0.1, 3600.0)) ==>
                  (SyncOk(c') <==> (f == SyncVadSensitivity ==> v.Finite? && 0.0 <= v.value <= 1.0)))
            && (FormatsOk(c) ==>
                  (FormatsOk(c') <==> (f == FormatsEncodingDetectionConfidence ==> NotOutside(v, 0.0, 1.0))))
            && GeneralOk(c') == GeneralOk(c) && ParallelOk(c') == ParallelOk(c)
            && TranslationOk(x, c') == TranslationOk(x, c) && ConsistencyOk(c') == ConsistencyOk(c)
  {
    hide Blank, StartsWith;
  }

  // ----- Environment non-interference -----

  predicate AgreeExcept(e: Env, e': Env, ignored: Var -> bool) {
    forall v | v in e.Keys + e'.Keys && !ignored(v) :: Get(e, v) == Get(e', v)
  }

  /** The provider that decides which variables count. */
  function ResolvedProvider(s: Setup, file: File, env: Env): Option<string> {
    match Base(s, file, env)
    case None => None
    case Some(base) => Some(WithSubx(s.codec, base, env).Text(AiProvider))
  }

  lemma AgreeOn(e: Env, e': Env, ignored: Var -> bool, v: Var)
    requires AgreeExcept(e, e', ignored) && !ignored(v)
    ensures Get(e, v) == Get(e', v)
    ensures v in e <==> v in e'
  {
  }

  lemma SubxAgrees(s: Setup, file: File, e: Env, e': Env, ignored: Var -> bool)
    requires AgreeExcept(e, e', ignored) && forall v | ignored(v) :: !IsSubx(v)
    ensures Base(s, file, e) == Base(s, file, e')
    ensures forall c :: WithSubx(s.codec, c, e) == WithSubx(s.codec, c, e')
    ensures SubxAiBaseUrl in e <==> SubxAiBaseUrl in e'
    ensures SubxAiApiKey in e <==> SubxAiApiKey in e'
  {
    forall v | IsSubx(v) ensures v in e <==> v in e' ensures Get(e, v) == Get(e', v) { AgreeOn(e, e', ignored, v); }
    assert SubxOnly(e) == SubxOnly(e') by {
      forall v | v in e && v in e' && IsSubx(v) ensures e[v] == e'[v] { assert Get(e, v) == Get(e', v); }
    }
    hide NormalizeProvider, Override, OverrideKey;
  }

  /** With the local provider selected, hosted-provider variables cannot influence
      the loaded configuration; with any other provider, the local ones cannot. */
  lemma EnvironmentNonInterference(s: Setup, file: File, e: Env, e': Env)
    ensures AgreeExcept(e, e', IsHosted) && ResolvedProvider(s, file, e) == Some("local") ==>
              StrictLoad(s, file, e) == StrictLoad(s, file, e')
    ensures AgreeExcept(e, e', IsLocalLlm) && ResolvedProvider(s, file, e) != Some("local") ==>
              StrictLoad(s, file, e) == StrictLoad(s, file, e')
  {
    hide StrictOk, Overlay, WithSubx, AgreeExcept;
    var base := Base(s, file, e);
    if AgreeExcept(e, e', IsHosted) {
      SubxAgrees(s, file, e, e', IsHosted);
      if base.Some? && WithSubx(s.codec, base.value, e).Text(AiProvider) == "local" {
        LocalIgnoresHosted(s.codec, base.value, e, e');
      }
    }
    if AgreeExcept(e, e', IsLocalLlm) {
      SubxAgrees(s, file, e, e', IsLocalLlm);
      if base.Some? && WithSubx(s.codec, base.value, e).Text(AiProvider) != "local" {
        HostedAgrees(s.codec, WithSubx(s.codec, base.value, e), e, e');
        OverlayHosted(s.codec, base.value, e, e');
      }
    }
    hide Base;
  }

  /** A selected local provider stays selected, and its address and key come from the
      prefixed variable, else the local one, else the files. */
  lemma LocalPrecedence(s: Setup, file: File, e: Env)
    ensures ResolvedProvider(s, file, e) == Some("local") && StrictLoad(s, file, e).Some? ==>
              var base, c := Base(s, file, e).value, StrictLoad(s, file, e).value;
              && c.Text(AiProvider) == "local"
              && c.Text(AiBaseUrl) == (if SubxAiBaseUrl in e then e[SubxAiBaseUrl]
                                       else if LocalLlmBaseUrl in e then e[LocalLlmBaseUrl]
                                       else base.Text(AiBaseUrl))
              && c.Maybe(AiApiKey) == (if SubxAiApiKey in e then Some(e[SubxAiApiKey])
                                       else if LocalLlmApiKey in e then Some(e[LocalLlmApiKey])
                                       else base.Maybe(AiApiKey))
  {
    hide StrictOk, NormalizeProvider, Base, WithHosted;
  }

  lemma LocalIgnoresHosted(x: Codec, base: Config, e: Env, e': Env)
    requires AgreeExcept(e, e', IsHosted) && WithSubx(x, base, e) == WithSubx(x, base, e')
    requires WithSubx(x, base, e).Text(AiProvider) == "local"
    ensures Overlay(x, base, e) == Overlay(x, base, e')
  {
    hide WithSubx, WithHosted, Override, OverrideKey, Get, AgreeExcept;
    AgreeOn(e, e', IsHosted, LocalLlmBaseUrl);
    AgreeOn(e, e', IsHosted, LocalLlmApiKey);
    AgreeOn(e, e', IsHosted, SubxAiBaseUrl);
    AgreeOn(e, e', IsHosted, SubxAiApiKey);
  }

  lemma OverlayHosted(x: Codec, base: Config, e: Env, e': Env)
    requires WithSubx(x, base, e) == WithSubx(x, base, e') && WithSubx(x, base, e).Text(AiProvider) != "local"
    requires WithHosted(x, WithSubx(x, base, e), e) == WithHosted(x, WithSubx(x, base, e), e')
    ensures Overlay(x, base, e) == Overlay(x, base, e')
  {
  }

  lemma HostedAgrees(x: Codec, c: Config, e: Env, e': Env)
    requires AgreeExcept(e, e', IsLocalLlm)
    ensures WithHosted(x, c, e) == WithHosted(x, c, e')
  {
    hide NormalizeProvider, Override, OverrideKey, Get, AgreeExcept;
    AgreeOn(e, e', IsLocalLlm, OpenrouterApiKey);
    AgreeOn(e, e', IsLocalLlm, OpenaiApiKey);
    AgreeOn(e, e', IsLocalLlm, OpenaiBaseUrl);
    AgreeOn(e, e', IsLocalLlm, AzureApiKey);
    AgreeOn(e, e', IsLocalLlm, AzureEndpoint);
    AgreeOn(e, e', IsLocalLlm, AzureApiVersion);
    AgreeOn(e, e', IsLocalLlm, AzureDeploymentId);
  }

  // ----- After a set -----

  function OrElse(a: Option<string>, b: Option<string>): Option<string> {
    if a.Some? then a else b
  }

  /** The settings the environment can reach. */
  datatype View = View(provider: string, url: string, model: string, key: Option<string>, version: Option<string>)

  function ViewOf(c: Config): View {
    View(c.Text(AiProvider), c.Text(AiBaseUrl), c.Text(AiModel), c.Maybe(AiApiKey), c.Maybe(AiApiVersion))
  }

  /** The provider that decides which variables count, over configuration `c`. */
  function Chosen(x: Codec, c: Config, e: Env): string {
    NormalizeProvider(x, if SubxAiProvider in e then e[SubxAiProvider] else c.Text(AiProvider))
  }

  /** For each setting, what has the last word on it, a variable or else the merged
      base `u`, is the configuration's value. */
  predicate Confirmed(w: View, u: View, chosen: string, e: Env) {
    if chosen == "local" then
      && w.provider == "local"
      && Some(w.url) == OrElse(Get(e, SubxAiBaseUrl), OrElse(Get(e, LocalLlmBaseUrl), Some(u.url)))
      && w.key == OrElse(Get(e, SubxAiApiKey), OrElse(Get(e, LocalLlmApiKey), u.key))
      && Some(w.model) == OrElse(Get(e, SubxAiModel), Some(u.model))
      && w.version == u.version
    else
      && w.provider == (if AzureApiKey in e then "azure-openai"
                        else if OpenrouterApiKey in e then "openrouter" else chosen)
      && Some(w.url) == OrElse(Get(e, AzureEndpoint),
                               OrElse(Get(e, OpenaiBaseUrl), OrElse(Get(e, SubxAiBaseUrl), Some(u.url))))
      && w.key == OrElse(Get(e, AzureApiKey),
                         OrElse(Get(e, OpenrouterApiKey),
                                OrElse(Get(e, SubxAiApiKey), OrElse(u.key, Get(e, OpenaiApiKey)))))
      && w.version == OrElse(Get(e, AzureApiVersion), u.version)
      && Some(w.model) == OrElse(Get(e, AzureDeploymentId), OrElse(Get(e, SubxAiModel), Some(u.model)))
  }

  /** All other settings read the same. */
  ghost predicate SameElsewhere(c: Config, o: Config) {
    && (forall t: TextKey | t !in {AiProvider, AiBaseUrl, AiModel} :: o.Text(t) == c.Text(t))
    && (forall m: MaybeKey | m !in {AiApiKey, AiApiVersion} :: o.Maybe(m) == c.Maybe(m))
    && (forall n: NatKey :: o.Nat(n) == c.Nat(n)) && (forall f: FloatKey :: o.Real(f) == c.Real(f))
    && (forall b: FlagKey :: o.Flag(b) == c.Flag(b)) && o.overflow == c.overflow
  }

  /** Every setting reads the same. */
  ghost predicate SameReadings(c: Config, o: Config) {
    SameElsewhere(c, o) && ViewOf(o) == ViewOf(c)
  }

  lemma TextStep(b: Config, c: Config, k: TextKey, v: Option<string>)
    requires SameElsewhere(b, c) && k in {AiProvider, AiBaseUrl, AiModel}
    ensures var o, w := Override(c, k, v), ViewOf(c);
            && SameElsewhere(b, o)
            && ViewOf(o) == (if v.None? then w
                             else if k == AiProvider then w.(provider := v.value)
                             else if k == AiBaseUrl then w.(url := v.value) else w.(model := v.value))
  {
  }

  lemma MaybeStep(b: Config, c: Config, k: MaybeKey, v: string)
    requires SameElsewhere(b, c) && k in {AiApiKey, AiApiVersion}
    ensures var o, w := c.WithMaybe(k, Some(v)), ViewOf(c);
            && SameElsewhere(b, o)
            && ViewOf(o) == if k == AiApiKey then w.(key := Some(v)) else w.(version := Some(v))
  {
  }

  lemma KeyStep(b: Config, c: Config, v: Option<string>)
    requires SameElsewhere(b, c)
    ensures SameElsewhere(b, OverrideKey(c, v))
    ensures ViewOf(OverrideKey(c, v)) == if v.None? then ViewOf(c) else ViewOf(c).(key := v)
  {
  }

  lemma SubxOverlay(x: Codec, c: Config, e: Env)
    ensures var o, w := WithSubx(x, c, e), ViewOf(c);
            && SameElsewhere(c, o)
            && ViewOf(o) == View(NormalizeProvider(x, if SubxAiProvider in e then e[SubxAiProvider] else w.provider),
                                 if SubxAiBaseUrl in e then e[SubxAiBaseUrl] else w.url,
                                 if SubxAiModel in e then e[SubxAiModel] else w.model,
                                 OrElse(Get(e, SubxAiApiKey), w.key), w.version)
  {
    hide NormalizeProvider, SameElsewhere, Override, OverrideKey, ViewOf;
    Reflexive(c);
    TextStep(c, c, AiProvider, Get(e, SubxAiProvider));
    var c1 := Override(c, AiProvider, Get(e, SubxAiProvider));
    KeyStep(c, c1, Get(e, SubxAiApiKey));
    var c2 := OverrideKey(c1, Get(e, SubxAiApiKey));
    TextStep(c, c2, AiBaseUrl, Get(e, SubxAiBaseUrl));
    var c3 := Override(c2, AiBaseUrl, Get(e, SubxAiBaseUrl));
    TextStep(c, c3, AiModel, Get(e, SubxAiModel));
    var c4 := Override(c3, AiModel, Get(e, SubxAiModel));
    Normalized(x, c, c4);
  }

  lemma Reflexive(c: Config)
    ensures SameElsewhere(c, c)
  {
  }

  lemma Normalized(x: Codec, b: Config, c: Config)
    requires SameElsewhere(b, c)
    ensures var o := c.WithText(AiProvider, NormalizeProvider(x, c.Text(AiProvider)));
            SameElsewhere(b, o) && ViewOf(o) == ViewOf(c).(provider := NormalizeProvider(x, ViewOf(c).provider))
  {
    hide NormalizeProvider;
  }

  lemma LocalOverlay(b: Config, c: Config, e: Env)
    requires SameElsewhere(b, c)
    ensures var o, w := WithLocal(c, e), ViewOf(c);
            && SameElsewhere(b, o)
            && ViewOf(o) == View(w.provider,
                                 if SubxAiBaseUrl !in e && LocalLlmBaseUrl in e then e[LocalLlmBaseUrl] else w.url,
                                 w.model,
                                 if SubxAiApiKey !in e then OrElse(Get(e, LocalLlmApiKey), w.key) else w.key, w.version)
  {
    hide SameElsewhere, Override, OverrideKey, ViewOf;
    TextStep(b, c, AiBaseUrl, Get(e, LocalLlmBaseUrl));
    var c1 := if SubxAiBaseUrl in e then c else Override(c, AiBaseUrl, Get(e, LocalLlmBaseUrl));
    KeyStep(b, c1, Get(e, LocalLlmApiKey));
  }

  lemma HostedKeysView(b: Config, c: Config, e: Env)
    requires SameElsewhere(b, c)
    ensures var o, w := HostedKeys(c, e), ViewOf(c);
            && SameElsewhere(b, o)
            && ViewOf(o) == View(if AzureApiKey in e then "azure-openai"
                                 else if OpenrouterApiKey in e then "openrouter" else w.provider,
                                 if OpenaiBaseUrl in e then e[OpenaiBaseUrl] else w.url, w.model,
                                 OrElse(Get(e, AzureApiKey),
                                        OrElse(OrElse(Get(e, OpenrouterApiKey), w.key), Get(e, OpenaiApiKey))),
                                 w.version)
  {
    hide SameElsewhere, Override, OverrideKey, ViewOf;
    var c1 := if OpenrouterApiKey in e
              then OverrideKey(c.WithText(AiProvider, "openrouter"), Get(e, OpenrouterApiKey)) else c;
    if OpenrouterApiKey in e {
      NamedStep(b, c, "openrouter", Get(e, OpenrouterApiKey));
    }
    KeyOf(c1);
    KeyStep(b, c1, Get(e, OpenaiApiKey));
    var c2 := if c1.Maybe(AiApiKey).None? then OverrideKey(c1, Get(e, OpenaiApiKey)) else c1;
    TextStep(b, c2, AiBaseUrl, Get(e, OpenaiBaseUrl));
    if AzureApiKey in e {
      NamedStep(b, Override(c2, AiBaseUrl, Get(e, OpenaiBaseUrl)), "azure-openai", Get(e, AzureApiKey));
    }
  }

  lemma HostedOverlay(x: Codec, b: Config, c: Config, e: Env)
    requires SameElsewhere(b, c)
    ensures var o, w := WithHosted(x, c, e), ViewOf(HostedKeys(c, e));
            && SameElsewhere(b, o)
            && ViewOf(o) == View(NormalizeProvider(x, w.provider),
                                 if AzureEndpoint in e then e[AzureEndpoint] else w.url,
                                 if AzureDeploymentId in e then e[AzureDeploymentId] else w.model,
                                 w.key, OrElse(Get(e, AzureApiVersion), w.version))
  {
    hide NormalizeProvider, SameElsewhere, Override, OverrideKey, ViewOf, HostedKeys;
    HostedKeysView(b, c, e);
    var c4 := HostedKeys(c, e);
    TextStep(b, c4, AiBaseUrl, Get(e, AzureEndpoint));
    var c5 := Override(c4, AiBaseUrl, Get(e, AzureEndpoint));
    if AzureApiVersion in e {
      MaybeStep(b, c5, AiApiVersion, e[AzureApiVersion]);
    }
    var c6 := if AzureApiVersion in e then c5.WithMaybe(AiApiVersion, Get(e, AzureApiVersion)) else c5;
    TextStep(b, c6, AiModel, Get(e, AzureDeploymentId));
    Normalized(x, b, Override(c6, AiModel, Get(e, AzureDeploymentId)));
  }

  lemma KeyOf(c: Config)
    ensures c.Maybe(AiApiKey) == ViewOf(c).key
  {
  }

  lemma NamedStep(b: Config, c: Config, provider: string, key: Option<string>)
    requires SameElsewhere(b, c) && key.Some?
    ensures var o := OverrideKey(c.WithText(AiProvider, provider), key);
            SameElsewhere(b, o) && ViewOf(o) == ViewOf(c).(provider := provider, key := key)
  {
    hide SameElsewhere, OverrideKey, ViewOf;
    TextStep(b, c, AiProvider, Some(provider));
    assert Override(c, AiProvider, Some(provider)) == c.WithText(AiProvider, provider);
    KeyStep(b, c.WithText(AiProvider, provider), key);
  }

  /** Strict validation looks at readings only. */
  lemma StrictReadings(x: Codec, c: Config, o: Config)
    requires SameReadings(c, o)
    ensures StrictOk(x, o) == StrictOk(x, c)
  {
    hide AiOk, SyncOk, GeneralOk, FormatsOk, ParallelOk, TranslationOk, ConsistencyOk, SameReadings;
    AiReadings(x, c, o);
    RestReadings(x, c, o);
  }

  lemma AiReadings(x: Codec, c: Config, o: Config)
    requires SameReadings(c, o)
    ensures AiOk(x, o) == AiOk(x, c)
  {
    hide Blank, NormalizeProvider, ModelOk, UrlOk, HttpsIfSet, KeyLengthOk, StartsWith, NotOutside;
  }

  lemma RestReadings(x: Codec, c: Config, o: Config)
    requires SameReadings(c, o)
    ensures SyncOk(o) == SyncOk(c) && GeneralOk(o) == GeneralOk(c) && FormatsOk(o) == FormatsOk(c)
    ensures ParallelOk(o) == ParallelOk(c) && TranslationOk(x, o) == TranslationOk(x, c)
    ensures ConsistencyOk(o) == ConsistencyOk(c)
  {
    hide Blank, NotOutside, Less, StartsWith;
  }

  lemma HostedNames(x: Codec)
    requires Lawful(x)
    ensures NormalizeProvider(x, "azure-openai") == "azure-openai"
    ensures NormalizeProvider(x, "openrouter") == "openrouter"
  {
    NonBlank(x, "azure-openai");
    NonBlank(x, "openrouter");
    assert Lower("azure-openai") == "azure-openai" && Lower("openrouter") == "openrouter";
  }

  lemma ProviderOf(c: Config)
    ensures c.Text(AiProvider) == ViewOf(c).provider
  {
  }

  /** Whether the overlay of the merged base `b` reads like `c`, setting by setting. */
  ghost predicate EnvConfirms(x: Codec, c: Config, b: Config, e: Env) {
    SameElsewhere(c, b) && Confirmed(ViewOf(c), ViewOf(b), Chosen(x, b, e), e)
  }

  lemma ElsewhereVia(b: Config, o: Config, c: Config)
    requires SameElsewhere(b, o)
    ensures SameElsewhere(c, o) <==> SameElsewhere(c, b)
  {
  }

  lemma LocalConfirms(x: Codec, c: Config, b: Config, e: Env)
    requires Chosen(x, b, e) == "local"
    ensures SameReadings(c, Overlay(x, b, e)) <==> EnvConfirms(x, c, b, e)
  {
    hide NormalizeProvider, SameElsewhere, WithLocal, WithHosted, WithSubx, ViewOf;
    var c1 := WithSubx(x, b, e);
    SubxOverlay(x, b, e);
    ProviderOf(b);
    ProviderOf(c1);
    LocalOverlay(b, c1, e);
    ElsewhereVia(b, Overlay(x, b, e), c);
  }

  lemma HostedConfirms(x: Codec, c: Config, b: Config, e: Env)
    requires Lawful(x) && Chosen(x, b, e) != "local"
    ensures SameReadings(c, Overlay(x, b, e)) <==> EnvConfirms(x, c, b, e)
  {
    hide Lawful, NormalizeProvider, SameElsewhere, WithLocal, WithHosted, WithSubx, HostedKeys, ViewOf;
    var c1 := WithSubx(x, b, e);
    SubxOverlay(x, b, e);
    ProviderOf(b);
    ProviderOf(c1);
    HostedNames(x);
    HostedKeysView(b, c1, e);
    HostedOverlay(x, b, c1, e);
    NormalizeIdempotent(x, if SubxAiProvider in e then e[SubxAiProvider] else b.Text(AiProvider));
    ElsewhereVia(b, Overlay(x, b, e), c);
  }

  /** A set caches the configuration it wrote to the file, without the environment. For
      every merging library and environment, a reload reads the same exactly when the
      merge succeeds, adds nothing elsewhere, and whatever has the last word on each
      provider setting confirms it. */
  lemma ReloadReadsExactly(s: Setup, c: Config, e: Env)
    requires Lawful(s.codec) && StrictOk(s.codec, c)
    ensures var base, loaded := Base(s, Complete(c), e), StrictLoad(s, Complete(c), e);
            loaded.Some? && SameReadings(c, loaded.value)
            <==> base.Some? && EnvConfirms(s.codec, c, base.value, e)
  {
    hide StrictOk, Overlay, SameReadings, EnvConfirms, Base, Lawful, Chosen;
    var x, base := s.codec, Base(s, Complete(c), e);
    if base.Some? {
      var b := base.value;
      if Chosen(x, b, e) == "local" { LocalConfirms(x, c, b, e); } else { HostedConfirms(x, c, b, e); }
      if EnvConfirms(x, c, b, e) {
        StrictReadings(x, c, Overlay(x, b, e));
      }
    }
  }

  /** The merge differs from the file at most in provider settings whose prefixed
      variable is set. */
  ghost predicate PrefixedOnly(c: Config, b: Config, e: Env) {
    var w, u := ViewOf(c), ViewOf(b);
    && SameElsewhere(c, b) && u.version == w.version
    && (SubxAiProvider !in e ==> u.provider == w.provider)
    && (SubxAiBaseUrl !in e ==> u.url == w.url)
    && (SubxAiModel !in e ==> u.model == w.model)
    && (SubxAiApiKey !in e ==> u.key == w.key)
  }

  /** When the merge carries no more than the prefixed provider variables, the reload
      reads the same exactly when the variables in force confirm the configuration. */
  lemma ReloadConfirmsExactly(s: Setup, c: Config, e: Env)
    requires Lawful(s.codec) && StrictOk(s.codec, c)
    ensures var base, loaded := Base(s, Complete(c), e), StrictLoad(s, Complete(c), e);
            base.Some? && PrefixedOnly(c, base.value, e) ==>
              (loaded.Some? && SameReadings(c, loaded.value)
               <==> Confirmed(ViewOf(c), ViewOf(c), Chosen(s.codec, c, e), e))
  {
    hide StrictOk, StrictLoad, SameReadings, SameElsewhere, Base, Lawful, NormalizeProvider, ViewOf;
    ReloadReadsExactly(s, c, e);
    ProviderOf(c);
    if Base(s, Complete(c), e).Some? {
      ProviderOf(Base(s, Complete(c), e).value);
    }
  }
}
