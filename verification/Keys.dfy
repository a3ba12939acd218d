/** Repository keys: how a configuration wraps the data key, and what any number
    of racing initializations, opens and passphrase rotations keep. */
module Keys {
  import opened Model

  const ITERATIONS: nat := 600000
  const MIN_ITERATIONS: nat := 100000
  const KEY_CHECK := "vestige repository key check v1"

  /** `configureEncryption`: a random data key, wrapped under the passphrase. */
  function ConfigureEncryption(passphrase: string, salt: nat, dataKey: Key, nonce: nat): EncryptionConfig {
    EncryptionConfig(true, ITERATIONS, salt,
                     Some(Sealed(Derived(passphrase, salt, ITERATIONS), nonce, WrappedKeyAad, dataKey)),
                     Sealed(dataKey, nonce + 1, KeyCheckAad, KEY_CHECK))
  }

  /** `openEncryption`: None is an error, Some(None) an unencrypted repository. */
  function OpenEncryption(encryption: Option<EncryptionConfig>, passphrase: string): Option<Option<Key>> {
    match encryption
    case None => Some(None)
    case Some(ec) =>
      if !ec.supported || ec.iterations < MIN_ITERATIONS || passphrase == "" then None else
        var wrapping := Derived(passphrase, ec.salt, ec.iterations);
        var key := match ec.wrapped
                   case None => Some(wrapping)
                   case Some(e) => Unseal(Some(wrapping), WrappedKeyAad, e);
        match key
        case None => None
        case Some(k) => if Unseal(Some(k), KeyCheckAad, ec.check) == Some(KEY_CHECK) then Some(Some(k)) else None
  }

  /** The configuration `RotatePassphrase` writes for a handle that holds `key`. */
  function Rewrap(config: RepositoryConfig, key: Key, passphrase: string, salt: nat, nonce: nat): RepositoryConfig
    requires config.encryption.Some?
  {
    config.(encryption := Some(EncryptionConfig(
      true, ITERATIONS, salt,
      Some(Sealed(Derived(passphrase, salt, ITERATIONS), nonce, WrappedKeyAad, key)),
      config.encryption.value.check)))
  }

  /** The configuration belongs to the data key `key`: whoever opens it gets
      that key. */
  ghost predicate Guards(encryption: Option<EncryptionConfig>, key: Option<Key>) {
    match encryption
    case None => key.None?
    case Some(ec) =>
      && key.Some?
      && ec.check.Sealed? && ec.check.key == key.value && ec.check.aad == KeyCheckAad && ec.check.value == KEY_CHECK
      && (ec.wrapped.Some? ==> ec.wrapped.value.Sealed? && ec.wrapped.value.value == key.value)
  }

  /** The one passphrase that opens an encrypted configuration. */
  ghost predicate OpensWith(encryption: Option<EncryptionConfig>, passphrase: string) {
    match encryption
    case None => true
    case Some(ec) =>
      && ec.supported && ec.iterations >= MIN_ITERATIONS && passphrase != ""
      && var wrapping := Derived(passphrase, ec.salt, ec.iterations);
         match ec.wrapped
         case None => ec.check.Sealed? && ec.check.key == wrapping
         case Some(e) => e.Sealed? && e.key == wrapping && e.aad == WrappedKeyAad
  }

  /** A guarded configuration opens with exactly one passphrase, and then yields
      exactly the data key. */
  lemma OpeningIsExact(encryption: Option<EncryptionConfig>, key: Option<Key>, right: string, tried: string)
    requires Guards(encryption, key) && OpensWith(encryption, right)
    ensures encryption.Some? ==>
              (OpenEncryption(encryption, tried) == if tried == right then Some(key) else None)
    ensures encryption.None? ==> OpenEncryption(encryption, tried) == Some(None)
  {}

  /* ---- handles racing for one configuration object ---- */

  datatype Options = Options(compression: string, encrypt: bool, passphrase: string)

  datatype Pc =
    | InitGet(options: Options)
    | InitPut(options: Options, candidate: RepositoryConfig, drawn: Option<Key>)
    | InitReget(options: Options, drawn: Option<Key>)
    | Opened(config: RepositoryConfig, key: Option<Key>)
    | RotateGet(config: RepositoryConfig, key: Option<Key>, passphrase: string, updated: RepositoryConfig)
    | RotateSwap(config: RepositoryConfig, key: Option<Key>, passphrase: string, updated: RepositoryConfig,
                 version: nat)
    | Gone

  datatype Stored = Stored(config: RepositoryConfig, version: nat)

  /** `drawn` counts the random numbers used so far; `current` is the passphrase
      of the initialization or of the latest rotation that succeeded. */
  datatype State = State(slot: Option<Stored>, handles: map<nat, Pc>, drawn: nat, clock: nat, current: string)

  predicate KnownCompression(c: string) {
    c == "none" || c == "gzip" || c == "zstd"
  }

  function Policy(c: string): string {
    if c == "" then "none" else c
  }

  /** The checks `ensureConfig` makes on a configuration it has read. `drawn` is
      the key a losing initializer drew for itself: opening an unencrypted
      configuration does not reset it. */
  function OpenConfig(config: RepositoryConfig, options: Options, drawn: Option<Key>): Option<Pc> {
    var compression := Policy(config.compression);
    if config.formatVersion != FORMAT_VERSION || !KnownCompression(compression) then None
    else if options.compression != "" && options.compression != compression then None
    else if options.encrypt && config.encryption.None? then None
    else match OpenEncryption(config.encryption, options.passphrase)
      case None => None
      case Some(key) =>
        Some(Opened(config.(compression := compression), if config.encryption.None? then drawn else key))
  }

  datatype Step =
    | Start(h: nat, options: Options)
    | Fetch(h: nat)
    | Create(h: nat)
    | Refetch(h: nat)
    | StartRotation(h: nat, passphrase: string)
    | FetchVersion(h: nat)
    | Swap(h: nat)
    | Leave(h: nat)

  predicate Enabled(s: State, step: Step) {
    match step
    case Start(h, o) => h !in s.handles && (o.compression == "" || KnownCompression(o.compression))
    case Fetch(h) => h in s.handles && s.handles[h].InitGet?
    case Create(h) => h in s.handles && s.handles[h].InitPut?
    case Refetch(h) => h in s.handles && s.handles[h].InitReget?
    case StartRotation(h, p) => h in s.handles && s.handles[h].Opened? && s.handles[h].config.encryption.Some?
      && p != ""
    case FetchVersion(h) => h in s.handles && s.handles[h].RotateGet?
    case Swap(h) => h in s.handles && s.handles[h].RotateSwap?
    case Leave(h) => h in s.handles
  }

  function SetPc(s: State, h: nat, pc: Pc): State {
    s.(handles := s.handles[h := pc])
  }

  /** What a handle does when there is no configuration yet. */
  function Prepare(s: State, h: nat, options: Options): State {
    var base := RepositoryConfig(FORMAT_VERSION, Policy(options.compression), None);
    if !options.encrypt then SetPc(s, h, InitPut(options, base, None))
    else if options.passphrase == "" then SetPc(s, h, Gone)
    else
      var dataKey := Random(s.drawn);
      var ec := ConfigureEncryption(options.passphrase, s.drawn + 1, dataKey, s.drawn + 2);
      SetPc(s.(drawn := s.drawn + 4), h, InitPut(options, base.(encryption := Some(ec)), Some(dataKey)))
  }

  function Apply(s: State, step: Step): State
    requires Enabled(s, step)
  {
    match step
    case Start(h, o) => SetPc(s, h, InitGet(o))
    case Fetch(h) =>
      var o := s.handles[h].options;
      (match s.slot
       case None => Prepare(s, h, o)
       case Some(st) => SetPc(s, h, match OpenConfig(st.config, o, None) case None => Gone case Some(pc) => pc))
    case Create(h) =>
      var pc := s.handles[h];
      if s.slot.Some? then SetPc(s, h, InitReget(pc.options, pc.drawn))
      else SetPc(s, h, Opened(pc.candidate, pc.drawn)).(
        slot := Some(Stored(pc.candidate, s.clock)), clock := s.clock + 1, current := pc.options.passphrase)
    case Refetch(h) =>
      (match s.slot
       case None => SetPc(s, h, Gone)
       case Some(st) =>
         var pc := s.handles[h];
         SetPc(s, h, match OpenConfig(st.config, pc.options, pc.drawn) case None => Gone case Some(pc') => pc'))
    case StartRotation(h, p) =>
      var pc := s.handles[h];
      (match pc.key
       case None => SetPc(s, h, Gone)
       case Some(k) =>
         SetPc(s.(drawn := s.drawn + 2), h,
               RotateGet(pc.config, pc.key, p, Rewrap(pc.config, k, p, s.drawn, s.drawn + 1))))
    case FetchVersion(h) =>
      var pc := s.handles[h];
      (match s.slot
       case None => SetPc(s, h, Opened(pc.config, pc.key))
       case Some(st) => SetPc(s, h, RotateSwap(pc.config, pc.key, pc.passphrase, pc.updated, st.version)))
    case Swap(h) =>
      var pc := s.handles[h];
      if s.slot.Some? && s.slot.value.version == pc.version
      then SetPc(s, h, Opened(pc.updated, pc.key)).(
        slot := Some(Stored(pc.updated, s.clock)), clock := s.clock + 1, current := pc.passphrase)
      else SetPc(s, h, Opened(pc.config, pc.key))
    case Leave(h) => SetPc(s, h, Gone)
  }

  /** No configuration yet, or one that opens with `current`: an unencrypted one,
      a legacy one whose data key is derived from the passphrase, or one with a
      wrapped key. No handle is open. */
  ghost predicate Initial(s: State, key: Option<Key>) {
    && s.handles == map[]
    && (s.slot.Some? ==> Guarded(s, key))
  }

  ghost predicate Guarded(s: State, key: Option<Key>)
    requires s.slot.Some?
  {
    && Guards(s.slot.value.config.encryption, key)
    && OpensWith(s.slot.value.config.encryption, s.current)
    && s.slot.value.version < s.clock
  }

  /** A configuration written by, or read through, a handle that holds `key`. */
  ghost predicate ConfigFor(config: RepositoryConfig, key: Option<Key>, stored: RepositoryConfig) {
    && Guards(config.encryption, key)
    && config.formatVersion == stored.formatVersion
    && Policy(config.compression) == Policy(stored.compression)
  }

  /** A configuration a handle has prepared and nobody has stored yet. */
  ghost predicate Candidate(pc: Pc)
    requires pc.InitPut?
  {
    && (pc.drawn.Some? ==> pc.options.encrypt)
    && Guards(pc.candidate.encryption, pc.drawn)
    && OpensWith(pc.candidate.encryption, pc.options.passphrase)
  }

  ghost predicate PcOk(pc: Pc, key: Option<Key>, stored: Option<RepositoryConfig>) {
    match pc
    case InitPut(_, _, _) => Candidate(pc)
    case InitReget(options, drawn) => drawn.Some? ==> options.encrypt
    case Opened(config, k) => stored.Some? && k == key && ConfigFor(config, key, stored.value)
    case RotateGet(config, k, p, updated) =>
      stored.Some? && k == key && ConfigFor(config, key, stored.value) && ConfigFor(updated, key, stored.value)
      && OpensWith(updated.encryption, p) && updated.encryption.Some?
    case RotateSwap(config, k, p, updated, _) =>
      stored.Some? && k == key && ConfigFor(config, key, stored.value) && ConfigFor(updated, key, stored.value)
      && OpensWith(updated.encryption, p) && updated.encryption.Some?
    case _ => true
  }

  ghost function StoredConfig(s: State): Option<RepositoryConfig> {
    if s.slot.None? then None else Some(s.slot.value.config)
  }

  ghost predicate Inv(s: State, key: Option<Key>) {
    && (s.slot.Some? ==> Guarded(s, key))
    && forall h :: h in s.handles ==> PcOk(s.handles[h], key, StoredConfig(s))
  }

  /** One step keeps the data key: `key` before the configuration exists is
      anybody's guess, afterwards it never changes. */
  lemma StepKeepsKey(s: State, step: Step, key: Option<Key>) returns (key': Option<Key>)
    requires Inv(s, key) && Enabled(s, step)
    ensures Inv(Apply(s, step), key')
    ensures s.slot.Some? ==> key' == key && Apply(s, step).slot.Some?
    ensures s.slot.Some? ==> && Apply(s, step).slot.value.config.formatVersion == s.slot.value.config.formatVersion
                               && Policy(Apply(s, step).slot.value.config.compression) ==
                                    Policy(s.slot.value.config.compression)
  {
    key' := key;
    var s' := Apply(s, step);
    if step.Create? && s.slot.None? {
      key' := s.handles[step.h].drawn;
      assert Candidate(s.handles[step.h]);
    }
    forall h | h in s'.handles
      ensures PcOk(s'.handles[h], key', StoredConfig(s'))
    {
      if h in s.handles {
        assert PcOk(s.handles[h], key, StoredConfig(s));
      }
    }
  }

  ghost predicate IsRun(states: seq<State>, steps: seq<Step>) {
    && |states| == |steps| + 1
    && forall i :: 0 <= i < |steps| ==> Enabled(states[i], steps[i]) && states[i + 1] == Apply(states[i], steps[i])
  }

  lemma {:induction false} RunKeepsKey(states: seq<State>, steps: seq<Step>, n: nat, key: Option<Key>)
    returns (key': Option<Key>)
    requires IsRun(states, steps) && Initial(states[0], key) && n < |states|
    ensures Inv(states[n], key')
    ensures states[0].slot.Some? ==> key' == key
  {
    key' := key;
    if n > 0 {
      key' := RunKeepsKey(states, steps, n - 1, key);
      key' := StepKeepsKey(states[n - 1], steps[n - 1], key');
      ObjectStays(states, steps, 0, n - 1);
    }
  }

  lemma {:induction false} ObjectStays(states: seq<State>, steps: seq<Step>, m: nat, n: nat)
    requires IsRun(states, steps) && m <= n < |states|
    ensures states[m].slot.Some? ==> states[n].slot.Some?
    decreases n - m
  {
    if m < n {
      ObjectStays(states, steps, m, n - 1);
      assert states[n] == Apply(states[n - 1], steps[n - 1]);
    }
  }

  lemma {:induction false} KeyStays(states: seq<State>, steps: seq<Step>, m: nat, n: nat, key: Option<Key>)
    requires IsRun(states, steps) && m <= n < |states| && states[m].slot.Some? && Inv(states[m], key)
    ensures Inv(states[n], key) && states[n].slot.Some?
    decreases n - m
  {
    if m < n {
      KeyStays(states, steps, m, n - 1, key);
      var key' := StepKeepsKey(states[n - 1], steps[n - 1], key);
    }
  }

  /** Key stability, over every run: any two handles that are open, at the same
      time or not, hold the same data key. */
  lemma AllHandlesShareTheKey(states: seq<State>, steps: seq<Step>, initial: Option<Key>, m: nat, n: nat, a: nat,
      b: nat)
    requires IsRun(states, steps) && Initial(states[0], initial) && m <= n < |states|
    requires a in states[m].handles && states[m].handles[a].Opened?
    requires b in states[n].handles && states[n].handles[b].Opened?
    ensures states[m].handles[a].key == states[n].handles[b].key
    ensures Policy(states[m].handles[a].config.compression) == Policy(states[n].handles[b].config.compression)
  {
    var key := RunKeepsKey(states, steps, m, initial);
    assert PcOk(states[m].handles[a], key, StoredConfig(states[m]));
    KeyStays(states, steps, m, n, key);
    assert PcOk(states[n].handles[b], key, StoredConfig(states[n]));
    PolicyStays(states, steps, m, n, key);
  }

  lemma {:induction false} PolicyStays(states: seq<State>, steps: seq<Step>, m: nat, n: nat, key: Option<Key>)
    requires IsRun(states, steps) && m <= n < |states| && states[m].slot.Some? && Inv(states[m], key)
    ensures states[n].slot.Some?
    ensures Policy(states[n].slot.value.config.compression) == Policy(states[m].slot.value.config.compression)
    decreases n - m
  {
    if m < n {
      PolicyStays(states, steps, m, n - 1, key);
      KeyStays(states, steps, m, n - 1, key);
      var _ := StepKeepsKey(states[n - 1], steps[n - 1], key);
    }
  }

  /** In every reachable state with a configuration there is one data key: every
      open handle holds it, the passphrase of the latest successful rotation (or
      of the initialization) opens the repository and yields it, and no other
      passphrase opens an encrypted repository. */
  lemma OnlyTheLatestPassphraseOpens(states: seq<State>, steps: seq<Step>, initial: Option<Key>, n: nat)
    returns (key: Option<Key>)
    requires IsRun(states, steps) && Initial(states[0], initial) && n < |states| && states[n].slot.Some?
    ensures forall h :: h in states[n].handles && states[n].handles[h].Opened? ==> states[n].handles[h].key == key
    ensures OpenEncryption(states[n].slot.value.config.encryption, states[n].current) == Some(key)
    ensures key.Some? ==> forall tried :: tried != states[n].current ==>
              OpenEncryption(states[n].slot.value.config.encryption, tried) == None
  {
    key := RunKeepsKey(states, steps, n, initial);
    forall h | h in states[n].handles && states[n].handles[h].Opened?
      ensures states[n].handles[h].key == key
    {
      assert PcOk(states[n].handles[h], key, StoredConfig(states[n]));
    }
  }

  lemma RewrapOpens(config: RepositoryConfig, key: Key, next: string, salt: nat, nonce: nat)
    requires config.encryption.Some? && Guards(config.encryption, Some(key)) && next != ""
    ensures var after := Rewrap(config, key, next, salt, nonce);
            && after.encryption.Some? && Guards(after.encryption, Some(key))
            && OpenEncryption(after.encryption, next) == Some(Some(key))
  {}

  /** A rotation of an open handle changes the wrapper and nothing else, whatever
      the handle's configuration looked like, legacy ones included. */
  lemma RotationRewraps(config: RepositoryConfig, key: Key, before: string, next: string, salt: nat, nonce: nat)
    requires Guards(config.encryption, Some(key)) && OpensWith(config.encryption, before) && next != ""
    ensures config.encryption.Some?
    ensures var after := Rewrap(config, key, next, salt, nonce);
            && Guards(after.encryption, Some(key)) && OpensWith(after.encryption, next)
            && OpenEncryption(after.encryption, next) == Some(Some(key))
            && (before != next ==> OpenEncryption(after.encryption, before) == None)
            && after.compression == config.compression && after.formatVersion == config.formatVersion
            && after.encryption.value.check == config.encryption.value.check
            && after.encryption.value.wrapped.Some?
  {}
}
