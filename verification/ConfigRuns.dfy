/** What the configuration service serves over whole runs, what its files can come to
    hold, and what loading takes from an incomplete merge. */
module ConfigRuns {
  import opened Strings
  import opened Config
  import opened ConfigService

  // ----- The cache follows the replies -----

  /** What a caller who sees only commands and replies knows to be cached next. */
  function CacheAfter(cache: Option<Config>, command: Command, reply: Reply): Option<Config> {
    var served := if reply.Ok? then Some(reply.config) else None;
    match command
    case GetConfig => served
    case Reload => served
    case Set(_, _, _) => if reply.Ok? then served else cache
    case Reset(write) => if write == Wrote then served else cache
    case Repair => cache
  }

  ghost function Served(s: Setup, env: Env, st: State, commands: seq<Command>): Option<Config> {
    if commands == [] then st.cache
    else
      var n := |commands| - 1;
      var before := RunAll(s, env, st, commands[..n]);
      CacheAfter(Served(s, env, st, commands[..n]), commands[n], Perform(s, env, before, commands[n]).1)
  }

  lemma {:induction false} RunSnoc(s: Setup, env: Env, st: State, commands: seq<Command>, last: Command)
    ensures RunAll(s, env, st, commands + [last]) == Perform(s, env, RunAll(s, env, st, commands), last).0
    decreases |commands|
  {
    hide Perform;
    if commands == [] {
      assert [] + [last] == [last] && [last][1..] == [];
    } else {
      assert (commands + [last])[1..] == commands[1..] + [last];
      RunSnoc(s, env, Perform(s, env, st, commands[0]).0, commands[1..], last);
    }
  }

  /** In every run the cache is what the replies say: whoever was last answered with a
      configuration is answered with it again, until a reload, a reset or a set. */
  lemma {:induction false} CacheFollowsReplies(s: Setup, env: Env, st: State, commands: seq<Command>)
    ensures var now := RunAll(s, env, st, commands);
            && now.cache == Served(s, env, st, commands)
            && (now.cache.Some? ==> Perform(s, env, now, GetConfig) == (now, Ok(now.cache.value)))
    decreases |commands|
  {
    hide StrictLoad, LoadForRepair, ValidateAndSet, DefaultConfig;
    if commands != [] {
      var n := |commands| - 1;
      CacheFollowsReplies(s, env, st, commands[..n]);
      RunSnoc(s, env, st, commands[..n], commands[n]);
      assert commands[..n] + [commands[n]] == commands;
    }
  }

  /** When nothing is cached, and after a reload or a written reset whatever was cached,
      the answer is the strict load of the file as it is then. */
  lemma FreshAnswers(s: Setup, env: Env, st: State)
    ensures st.cache.None? ==> Perform(s, env, st, GetConfig).1 == ToReply(StrictLoad(s, st.file, env))
    ensures Perform(s, env, st, Reload).1 == ToReply(StrictLoad(s, st.file, env))
    ensures var (st', reply) := Perform(s, env, st, Reset(Wrote));
            st'.file == Complete(DefaultConfig(s.cpus)) && reply == ToReply(StrictLoad(s, st'.file, env))
    ensures forall command: Command | command.GetConfig? || command.Reload? || command.Repair? ::
              Perform(s, env, st, command).0.file == st.file
  {
    hide StrictLoad, DefaultConfig;
  }

  // ----- What the file can hold -----

  /** The file is as it was found, broken by an interrupted write, at its defaults, or
      strictly valid with every field passing its check. */
  ghost predicate FileSound(s: Setup, found: File, file: File) {
    || file == found || file == Broken || file == Complete(DefaultConfig(s.cpus))
    || (file.Complete? && StrictOk(s.codec, file.config) && LoadForRepair(s, file) == Some(file.config))
  }

  /** No run, whatever is set and however writes fail, puts anything else in the file. */
  lemma {:induction false} FileStaysSound(s: Setup, env: Env, st: State, commands: seq<Command>, found: File)
    requires Lawful(s.codec) && FileSound(s, found, st.file)
    ensures FileSound(s, found, RunAll(s, env, st, commands).file)
    decreases |commands|
  {
    hide Perform, FileSound;
    if commands != [] {
      StepStaysSound(s, env, st, commands[0], found);
      FileStaysSound(s, env, Perform(s, env, st, commands[0]).0, commands[1..], found);
    }
  }

  lemma StepStaysSound(s: Setup, env: Env, st: State, command: Command, found: File)
    requires Lawful(s.codec) && FileSound(s, found, st.file)
    ensures FileSound(s, found, Perform(s, env, st, command).0.file)
  {
    hide StrictLoad, LoadForRepair, ValidateAndSet, DefaultConfig, StrictOk, Lawful, TurnedDown, SetTo;
    if command.Set? {
      SetGuarantees(s, st, command.key, command.value, command.write);
    }
  }

  // ----- The defaults -----

  ghost predicate DefaultTexts(c: Config) {
    && c.Text(AiProvider) == "openai" && c.Text(AiModel) == "gpt-4.1-mini"
    && c.Text(AiBaseUrl) == "https://api.openai.com/v1" && c.Text(FormatsDefaultOutput) == "srt"
    && c.Text(FormatsDefaultEncoding) == "utf-8" && c.Text(SyncDefaultMethod) == "auto"
    && (forall k :: c.Maybe(k) == None)
  }

  predicate DefaultNumbers(c: Config, cpus: nat) {
    && c.Nat(AiMaxSampleLength) == 3_000 && c.Nat(AiMaxTokens) == 10_000 && c.Nat(AiRetryAttempts) == 3
    && c.Nat(AiRetryDelayMs) == 1_000 && c.Nat(AiRequestTimeoutSeconds) == 2 * 60
    && c.Nat(SyncVadPaddingChunks) == 3 && c.Nat(SyncVadMinSpeechDurationMs) == 300
    && c.Nat(GeneralMaxConcurrentJobs) == 4 && c.Nat(GeneralTaskTimeoutSeconds) == 5 * 60
    && c.Nat(GeneralWorkerIdleTimeoutSeconds) == 60 && c.Nat(GeneralMaxSubtitleBytes) == 50 * 1024 * 1024
    && c.Nat(GeneralMaxAudioBytes) == 2 * 1024 * 1024 * 1024 && c.Nat(ParallelMaxWorkers) == cpus
    && c.Nat(ParallelTaskQueueSize) == 1_000 && c.Nat(TranslationBatchSize) == 40
    && c.Real(AiTemperature) == Finite(0.3) && c.Real(SyncMaxOffsetSeconds) == Finite(60.0)
    && c.Real(FormatsEncodingDetectionConfidence) == Finite(0.8) && c.Real(SyncVadSensitivity) == Finite(0.25)
  }

  predicate DefaultSwitches(c: Config) {
    && c.overflow == Block
    && c.Flag(SyncVadEnabled) && c.Flag(GeneralEnableProgressBar) && c.Flag(ParallelAutoBalanceWorkers)
    && forall k: FlagKey | k !in {SyncVadEnabled, GeneralEnableProgressBar, ParallelAutoBalanceWorkers} :: !c.Flag(k)
  }

  /** What a written reset leaves in the file, whatever was there. */
  lemma ResetWrites(s: Setup, env: Env, st: State)
    ensures var file := Perform(s, env, st, Reset(Wrote)).0.file;
            && file.Complete?
            && DefaultTexts(file.config) && DefaultNumbers(file.config, s.cpus) && DefaultSwitches(file.config)
  {
    DefaultsReadAs(s.cpus);
    hide StrictLoad, DefaultTexts, DefaultNumbers, DefaultSwitches, DefaultConfig;
  }

  lemma DefaultsReadAs(cpus: nat)
    ensures var c := DefaultConfig(cpus); DefaultTexts(c) && DefaultNumbers(c, cpus) && DefaultSwitches(c)
  {
    SwitchesReadAs(cpus);
    TextsReadAs(DefaultConfig(cpus));
    NumbersReadAs(DefaultConfig(cpus), cpus);
    hide *;
  }

  lemma TextsReadAs(c: Config)
    requires forall k :: c.Text(k) == DefaultText(k)
    requires forall k :: c.Maybe(k) == None
    ensures DefaultTexts(c)
  {
  }

  lemma NumbersReadAs(c: Config, cpus: nat)
    requires forall k :: c.Nat(k) == DefaultNat(k, cpus)
    requires forall k :: c.Real(k) == Finite(DefaultReal(k))
    ensures DefaultNumbers(c, cpus)
  {
  }

  lemma SwitchesReadAs(cpus: nat)
    ensures DefaultSwitches(DefaultConfig(cpus))
  {
  }

  // ----- What loading sees -----

  /** The merge of files and environment, whatever it does with them, is given the file
      and the prefixed variables: loading tells two situations apart through some merge
      exactly when they differ in the file or in a prefixed variable. */
  lemma MergeSeesExactly(x: Codec, cpus: nat, file: File, file': File, env: Env, env': Env)
    ensures (forall merge :: Base(Setup(x, merge, cpus), file, env) == Base(Setup(x, merge, cpus), file', env'))
            <==> file == file' && forall v | IsSubx(v) :: Get(env, v) == Get(env', v)
  {
    hide DefaultConfig;
    var merge := (f: File, e: Env) =>
      if f == file && e == SubxOnly(env) then Full(DefaultConfig(0)) else BuildFailed;
    var told := Base(Setup(x, merge, cpus), file, env) != Base(Setup(x, merge, cpus), file', env');
    if file == file' && forall v | IsSubx(v) :: Get(env, v) == Get(env', v) {
      assert forall v | IsSubx(v) :: v in env <==> Get(env, v).Some?;
      assert SubxOnly(env) == SubxOnly(env');
    } else {
      assert Base(Setup(x, merge, cpus), file, env) == Some(DefaultConfig(0));
      if file == file' {
        var v :| IsSubx(v) && Get(env, v) != Get(env', v);
        assert SubxOnly(env) != SubxOnly(env') by {
          assert v in SubxOnly(env) <==> v in env;
          assert v in SubxOnly(env') <==> v in env';
        }
      }
      assert Base(Setup(x, merge, cpus), file', env') == None;
    }
  }

  /** An incomplete merge contributes the four settings it has; the rest are defaults. */
  lemma IncompleteMerge(s: Setup, file: File, env: Env, key: Key)
    requires s.merge(file, SubxOnly(env)).Partial? && Base(s, file, env).Some?
    ensures var m, c, d := s.merge(file, SubxOnly(env)), Base(s, file, env).value, DefaultConfig(s.cpus);
            match key
            case TextK(AiProvider) => c.Text(AiProvider) == OrDefault(m.provider, "openai")
            case TextK(AiModel) => c.Text(AiModel) == OrDefault(m.model, "gpt-4.1-mini")
            case TextK(AiBaseUrl) => c.Text(AiBaseUrl) == OrDefault(m.baseUrl, "https://api.openai.com/v1")
            case MaybeK(AiApiKey) => c.Maybe(AiApiKey) == m.apiKey
            case _ => SameAt(d, c, key)
  {
    hide SubxOnly;
    var m := s.merge(file, SubxOnly(env));
    Overlaid(DefaultConfig(s.cpus), m.apiKey, m.provider, m.model, m.baseUrl, key);
    hide DefaultConfig, OverrideKey, Override;
  }

  lemma Overlaid(d: Config, apiKey: Option<string>, provider: Option<string>, model: Option<string>,
                 baseUrl: Option<string>, key: Key)
    requires d.Maybe(AiApiKey) == None
    ensures var c := Override(Override(Override(OverrideKey(d, apiKey), AiProvider, provider), AiModel, model),
                              AiBaseUrl, baseUrl);
            match key
            case TextK(AiProvider) => c.Text(AiProvider) == OrDefault(provider, d.Text(AiProvider))
            case TextK(AiModel) => c.Text(AiModel) == OrDefault(model, d.Text(AiModel))
            case TextK(AiBaseUrl) => c.Text(AiBaseUrl) == OrDefault(baseUrl, d.Text(AiBaseUrl))
            case MaybeK(AiApiKey) => c.Maybe(AiApiKey) == apiKey
            case _ => SameAt(d, c, key)
  {
  }

  function OrDefault(v: Option<string>, d: string): string {
    if v.Some? then v.value else d
  }
}
