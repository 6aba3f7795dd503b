/** The settings store: loading with migrations, normalising, changing, resetting, saving. */
module Settings {
  import opened Prelude
  import opened SettingsValues
  import opened SettingsKeys
  import GC = GameCollections

  // The fields of a settings file, those of this build's settings and any others.
  type Fields = map<string, Value>

  // The file as the JSON codec reads it, and its length.
  datatype File = Missing | Unreadable | Contents(fields: Fields, bytes: nat)

  datatype Policy = ReadWrite | ReadOnly

  datatype SettingsError = UnknownSetting | BadText | BadCollections(refusal: GC.Refusal) | BadProxy | NotSaved

  type Values = map<Key, Value>
  type Passthrough = map<string, Value>

  const POLICY_VERSION: string := "qtConsoleModePolicyVersion"
  const NATIVE_HDR: string := "nativeHdrSupported"
  const LEGACY_CLOCK: string := "sessionTimeRemainingDisplay"
  const SHOW_CLOCK: string := "showSessionTimeRemainingInStatsOverlay"
  const CURRENT_POLICY: Value := Number(Integer(1))
  const MAX_BOOTSTRAP_BYTES: nat := 1024 * 1024

  // ---- The settings of a build ----

  // How settings are named in the file, and how long a file the JSON codec makes of fields.
  datatype Naming = Naming(nameOf: Key -> string, named: string -> Option<Key>, bytes: Fields -> nat)

  // What the store needs to know of its settings: their names, their defaults, what each is
  // normalised to, which collections are accepted, and what a proxy address normalises to.
  datatype Build = Build(
    naming: Naming,
    standard: Key -> Value,
    normal: (Key, Value) -> Value,
    collections: Value -> Result<Value, GC.Refusal>,
    proxyUrl: string -> Option<string>,
    isSpace: char -> bool)

  function BuildOf(env: Env, naming: Naming): Build {
    Build(naming, k => Default(k, env), (k, v) => Normal(k, v, env), v => GC.Normalized(v, env.isSpace),
          env.proxyUrl, env.isSpace)
  }

  function NameOf(k: Key, b: Build): string {
    b.naming.nameOf(k)
  }

  // `defaults.contains_key`
  predicate IsSetting(name: string, b: Build) {
    b.naming.named(name).Some?
  }

  // Every setting has a name of its own, and the other fields the code mentions are no settings.
  ghost predicate NamesApart(naming: Naming) {
    && (forall k :: naming.named(naming.nameOf(k)) == Some(k))
    && (forall name :: naming.named(name).Some? ==> naming.nameOf(naming.named(name).value) == name)
    && naming.named(POLICY_VERSION).None? && naming.named(NATIVE_HDR).None? && naming.named(LEGACY_CLOCK).None?
    && naming.nameOf(Flag(ShowSessionTimeRemainingInStatsOverlay)) == SHOW_CLOCK
  }

  lemma {:induction false} NamesDiffer(j: Key, k: Key, b: Build)
    requires NamesApart(b.naming) && NameOf(j, b) == NameOf(k, b)
    ensures j == k
  {
    assert b.naming.named(b.naming.nameOf(j)) == Some(j);
  }

  ghost predicate Idempotent(b: Build) {
    forall k, v {:trigger b.normal(k, b.normal(k, v))} :: b.normal(k, b.normal(k, v)) == b.normal(k, v)
  }

  ghost predicate KeepsMigration(b: Build) {
    && b.normal(Text(ShortcutToggleFullscreen), String("F11")) == String("F11")
    && b.normal(Text(ShortcutScreenshot), String("Ctrl+F11")) == String("Ctrl+F11")
    && b.normal(Text(StatsOverlayPosition), String("top-right")) == String("top-right")
  }

  // Normalising makes no shortcut the one the migration looks for.
  ghost predicate ReadsShortcuts(b: Build) {
    && (forall v :: b.normal(Text(ShortcutToggleFullscreen), v) == String("F10") ==> v == String("F10"))
    && (forall v :: b.normal(Text(ShortcutScreenshot), v) == String("F11") ==> v == String("F11"))
  }

  ghost predicate KeepsSideEffects(b: Build) {
    && b.normal(Text(AppTheme), String("light")) == String("light")
    && b.normal(Text(AppTheme), String("dark")) == String("dark")
    && b.normal(Text(MicrophoneDeviceId), String("")) == String("")
  }

  ghost predicate KeepsFlags(b: Build) {
    forall flag ::
      && b.normal(Flag(SwitchToConsoleOnPad), Bool(flag)) == Bool(flag)
      && b.normal(Flag(ThemeAccentOverride), Bool(flag)) == Bool(flag)
      && b.normal(Flag(OnboardingCompleted), Bool(flag)) == Bool(flag)
  }

  ghost predicate KeepsCollections(b: Build) {
    && b.standard(List(GameCollections)) == Array([])
    && b.collections(Array([])) == Ok(Array([]))
    && (forall v: Value :: v.Array? ==> b.normal(List(GameCollections), v) == v)
    && (forall v: Value :: b.collections(v).Ok? ==> b.collections(v).value.Array?)
    && (forall v: Value {:trigger b.collections(b.collections(v).value)} ::
          b.collections(v).Ok? ==> b.collections(b.collections(v).value) == b.collections(v))
  }

  ghost predicate Sane(b: Build) {
    && NamesApart(b.naming)
    && Idempotent(b) && KeepsMigration(b) && ReadsShortcuts(b) && KeepsSideEffects(b) && KeepsFlags(b)
    && KeepsCollections(b)
    && (forall v :: b.normal(Count(MouseAcceleration), v).Number?)
  }

  lemma {:induction false} ListedTextStays(k: Key, choices: seq<string>, s: string, fallback: string, env: Env)
    requires RuleOf(k, env) == Choice(choices, fallback) && Default(k, env).String? && s in choices
    ensures Normal(k, String(s), env) == String(s)
  {
  }

  lemma {:induction false} ShortTextStays(k: Key, s: string, chars: nat, env: Env)
    requires RuleOf(k, env) == Truncated(chars) && Default(k, env).String? && |s| <= chars
    ensures Normal(k, String(s), env) == String(s)
  {
  }

  lemma {:induction false} MigrationStays(env: Env, naming: Naming)
    ensures KeepsMigration(BuildOf(env, naming))
  {
    ShortTextStays(Text(ShortcutToggleFullscreen), "F11", 80, env);
    ShortTextStays(Text(ShortcutScreenshot), "Ctrl+F11", 80, env);
    TopRightStays(env);
  }

  lemma {:induction false} TopRightStays(env: Env)
    ensures Normal(Text(StatsOverlayPosition), String("top-right"), env) == String("top-right")
  {
    var choices := ["bottom-left", "bottom-right", "top-left", "top-right"];
    assert choices[3] == "top-right";
    ListedTextStays(Text(StatsOverlayPosition), choices, "top-right", "bottom-left", env);
  }

  lemma {:induction false} ThemesStay(env: Env)
    ensures Normal(Text(AppTheme), String("light"), env) == String("light")
    ensures Normal(Text(AppTheme), String("dark"), env) == String("dark")
  {
    var choices := ["light", "dark", "auto"];
    assert choices[0] == "light" && choices[1] == "dark";
    ListedTextStays(Text(AppTheme), choices, "light", "auto", env);
    ListedTextStays(Text(AppTheme), choices, "dark", "auto", env);
  }

  lemma {:induction false} SideEffectsStay(env: Env, naming: Naming)
    ensures KeepsSideEffects(BuildOf(env, naming))
  {
    ThemesStay(env);
    ShortTextStays(Text(MicrophoneDeviceId), "", 512, env);
  }

  lemma {:induction false} FreeStays(k: Key, v: Value, env: Env)
    requires RuleOf(k, env) == Free && SameKind(Default(k, env), v)
    ensures Normal(k, v, env) == v
  {
  }

  lemma {:induction false} FlagsStay(env: Env, naming: Naming)
    ensures KeepsFlags(BuildOf(env, naming))
  {
    forall flag
      ensures Normal(Flag(SwitchToConsoleOnPad), Bool(flag), env) == Bool(flag)
      ensures Normal(Flag(ThemeAccentOverride), Bool(flag), env) == Bool(flag)
      ensures Normal(Flag(OnboardingCompleted), Bool(flag), env) == Bool(flag)
    {
      FreeStays(Flag(SwitchToConsoleOnPad), Bool(flag), env);
      FreeStays(Flag(ThemeAccentOverride), Bool(flag), env);
      FreeStays(Flag(OnboardingCompleted), Bool(flag), env);
    }
  }

  lemma {:induction false} NormalIsIdempotent(env: Env, naming: Naming)
    requires ListsFields(env)
    ensures Idempotent(BuildOf(env, naming))
  {
    forall k, v ensures Normal(k, Normal(k, v, env), env) == Normal(k, v, env) {
      NormalTwice(k, v, env);
    }
  }

  lemma {:induction false} ShortcutsAreRead(env: Env, naming: Naming)
    ensures ReadsShortcuts(BuildOf(env, naming))
  {
    forall v | BuildOf(env, naming).normal(Text(ShortcutToggleFullscreen), v) == String("F10")
      ensures v == String("F10")
    {
      FullscreenIsRead(v, env);
    }
    forall v | BuildOf(env, naming).normal(Text(ShortcutScreenshot), v) == String("F11") ensures v == String("F11") {
      ScreenshotIsRead(v, env);
    }
  }

  lemma {:induction false} FullscreenIsRead(v: Value, env: Env)
    requires Normal(Text(ShortcutToggleFullscreen), v, env) == String("F10")
    ensures v == String("F10")
  {
    ShortTextIsRead(Text(ShortcutToggleFullscreen), v, "F10", "F11", env);
  }

  lemma {:induction false} ScreenshotIsRead(v: Value, env: Env)
    requires Normal(Text(ShortcutScreenshot), v, env) == String("F11")
    ensures v == String("F11")
  {
    ShortTextIsRead(Text(ShortcutScreenshot), v, "F11", "Ctrl+F11", env);
  }

  lemma {:induction false} ShortTextIsRead(k: Key, v: Value, s: string, standard: string, env: Env)
    requires RuleOf(k, env) == Truncated(80) && Default(k, env) == String(standard) && |standard| <= 80
    requires |s| < 80 && s != standard && Normal(k, v, env) == String(s)
    ensures v == String(s)
  {
    if v.String? {
      assert TakeChars(v.s, 80) == s;
    }
  }

  lemma {:induction false} AccelerationIsNumber(env: Env, naming: Naming)
    ensures forall v :: BuildOf(env, naming).normal(Count(MouseAcceleration), v).Number?
  {
  }

  lemma {:induction false} CollectionsStay(env: Env, naming: Naming)
    ensures KeepsCollections(BuildOf(env, naming))
  {
    forall v: Value | GC.Normalized(v, env.isSpace).Ok?
      ensures GC.Normalized(GC.Normalized(v, env.isSpace).value, env.isSpace) == GC.Normalized(v, env.isSpace)
    {
      GC.NormalizedAgain(v, env.isSpace);
    }
  }

  /** The real rules meet what the store needs. */
  lemma {:induction false} BuildIsSane(env: Env, naming: Naming)
    requires ListsFields(env) && NamesApart(naming)
    ensures Sane(BuildOf(env, naming))
  {
    NormalIsIdempotent(env, naming);
    MigrationStays(env, naming);
    ShortcutsAreRead(env, naming);
    SideEffectsStay(env, naming);
    FlagsStay(env, naming);
    CollectionsStay(env, naming);
    AccelerationIsNumber(env, naming);
  }

  // ---- Normalising ----

  function Defaults(b: Build): (values: Values)
    ensures forall k: Key :: k in values && values[k] == b.standard(k)
  {
    AllKeysAreAll();
    map k: Key | k in AllKeys() :: b.standard(k)
  }

  function NormalizedAll(values: Values, b: Build): (normal: Values)
    ensures forall k: Key :: k in normal && normal[k] == b.normal(k, Lookup(values, k))
  {
    AllKeysAreAll();
    map k: Key | k in AllKeys() :: b.normal(k, Lookup(values, k))
  }

  ghost predicate Total(values: Values) {
    forall k: Key :: k in values
  }

  lemma {:induction false} SameValues(a: Values, b: Values)
    requires Total(a) && Total(b) && forall k: Key :: a[k] == b[k]
    ensures a == b
  {
    assert a.Keys == b.Keys;
  }

  /** Normalising is idempotent, for every map of values. */
  lemma {:induction false} NormalizeTwice(values: Values, env: Env, naming: Naming)
    requires ListsFields(env)
    ensures var b := BuildOf(env, naming);
            NormalizedAll(NormalizedAll(values, b), b) == NormalizedAll(values, b)
  {
    NormalIsIdempotent(env, naming);
    NormalizeAgain(values, BuildOf(env, naming));
  }

  lemma {:induction false} NormalizeAgain(values: Values, b: Build)
    requires Idempotent(b)
    ensures NormalizedAll(NormalizedAll(values, b), b) == NormalizedAll(values, b)
  {
    SameValues(NormalizedAll(NormalizedAll(values, b), b), NormalizedAll(values, b));
  }

  // ---- Loading ----

  function NamesOf(values: Values, b: Build): set<string> {
    set k | k in values :: NameOf(k, b)
  }

  // What a save writes: the settings, over the fields this build does not know.
  function SavedFields(values: Values, passthrough: Passthrough, b: Build): Fields {
    passthrough
    + (map name | name in NamesOf(values, b) && IsSetting(name, b) :: Lookup(values, b.naming.named(name).value))
  }

  function SavedFile(values: Values, passthrough: Passthrough, b: Build): File {
    var fields := SavedFields(values, passthrough, b);
    Contents(fields, b.naming.bytes(fields))
  }

  predicate CollectionsRefused(p: Fields, b: Build) {
    NameOf(List(GameCollections), b) in p && b.collections(p[NameOf(List(GameCollections), b)]).Err?
  }

  // What a persisted setting becomes before it is normalised.
  function Converted(k: Key, v: Value, policy: Policy, b: Build): Value {
    if k == List(GameCollections) then
      var collections := b.collections(v);
      if collections.Ok? then collections.value else b.standard(List(GameCollections))
    else if policy.ReadWrite? && k == Count(MouseAcceleration) && v.Bool? then
      Number(Integer(if v.b then 100 else 1))
    else v
  }

  predicate ShowsClock(p: Fields) {
    LEGACY_CLOCK in p && (p[LEGACY_CLOCK] == String("stats") || p[LEGACY_CLOCK] == String("both"))
  }

  // The value of a setting once the fields `done` of the file have been taken over.
  function Taken(p: Fields, done: set<string>, k: Key, policy: Policy, b: Build): Value {
    if NameOf(k, b) in done && NameOf(k, b) in p then Converted(k, p[NameOf(k, b)], policy, b)
    else if k == Flag(ShowSessionTimeRemainingInStatsOverlay) && policy.ReadWrite? && LEGACY_CLOCK in done
            && ShowsClock(p)
    then Bool(true)
    else if k == Flag(OnboardingCompleted) && policy.ReadWrite? && NameOf(Flag(OnboardingCompleted), b) !in p
    then Bool(true)
    else b.standard(k)
  }

  function TakenAll(p: Fields, done: set<string>, policy: Policy, b: Build): (taken: Values)
    ensures forall k: Key :: k in taken && taken[k] == Taken(p, done, k, policy, b)
  {
    AllKeysAreAll();
    map k: Key | k in AllKeys() :: Taken(p, done, k, policy, b)
  }

  function PassedThrough(p: Fields, done: set<string>, b: Build): Passthrough {
    map name | name in p && name in done && !IsSetting(name, b) && name != NATIVE_HDR :: p[name]
  }

  predicate TextIs(values: Values, k: Key, text: string) {
    Lookup(values, k) == String(text)
  }

  predicate OldShortcutPair(values: Values) {
    TextIs(values, Text(ShortcutToggleFullscreen), "F10") && TextIs(values, Text(ShortcutScreenshot), "F11")
  }

  // `migrate_native_fullscreen_shortcut`
  function Migrated(values: Values): Values {
    if !OldShortcutPair(values) then values
    else
      var moved :=
        values[Text(ShortcutToggleFullscreen) := String("F11")][Text(ShortcutScreenshot) := String("Ctrl+F11")];
      if TextIs(values, Text(StatsOverlayPosition), "bottom-left")
      then moved[Text(StatsOverlayPosition) := String("top-right")] else moved
  }

  predicate PolicyKnown(passthrough: Passthrough) {
    POLICY_VERSION in passthrough && passthrough[POLICY_VERSION] == CURRENT_POLICY
  }

  datatype Loaded = Loaded(values: Values, passthrough: Passthrough, changed: bool)

  function Settled(values: Values, passthrough: Passthrough, onboarding: bool, policy: Policy, b: Build): Loaded {
    if policy.ReadOnly? then Loaded(NormalizedAll(values, b), passthrough, false)
    else if PolicyKnown(passthrough) then Loaded(NormalizedAll(Migrated(values), b), passthrough, onboarding)
    else
      Loaded(NormalizedAll(Migrated(values)[Flag(SwitchToConsoleOnPad) := Bool(false)], b),
             passthrough[POLICY_VERSION := CURRENT_POLICY], true)
  }

  // The read-only path takes no file over its limit.
  function Seen(file: File, policy: Policy): File {
    if file.Contents? && policy.ReadOnly? && file.bytes > MAX_BOOTSTRAP_BYTES then Unreadable else file
  }

  // The whole of loading, apart from the file changes.
  function LoadResult(onDisk: File, policy: Policy, b: Build): Result<Loaded, SettingsError> {
    var file := Seen(onDisk, policy);
    if !file.Contents? then Ok(Settled(Defaults(b), map[], false, policy, b)) else
    var p := file.fields;
    if policy.ReadWrite? && CollectionsRefused(p, b)
    then Err(BadCollections(b.collections(p[NameOf(List(GameCollections), b)]).error))
    else
      Ok(Settled(TakenAll(p, p.Keys, policy, b), PassedThrough(p, p.Keys, b),
                 NameOf(Flag(OnboardingCompleted), b) !in p, policy, b))
  }

  // ---- What every loaded store keeps ----

  ghost predicate Proper(values: Values, passthrough: Passthrough, b: Build) {
    && Total(values)
    && NormalizedAll(values, b) == values
    && b.collections(values[List(GameCollections)]) == Ok(values[List(GameCollections)])
    && Foreign(passthrough, b) && PolicyKnown(passthrough)
  }

  // Unknown fields are no settings, and the HDR capability is never among them.
  ghost predicate Foreign(passthrough: Passthrough, b: Build) {
    NATIVE_HDR !in passthrough && forall name :: name in passthrough ==> !IsSetting(name, b)
  }

  lemma {:induction false} SavedHas(values: Values, passthrough: Passthrough, b: Build, k: Key)
    requires NamesApart(b.naming) && k in values
    ensures var fields := SavedFields(values, passthrough, b);
            NameOf(k, b) in fields && fields[NameOf(k, b)] == values[k]
  {
    assert b.naming.named(b.naming.nameOf(k)) == Some(k);
  }

  // A saved field that is no setting is an unknown field of the store.
  lemma {:induction false} SavedForeign(values: Values, passthrough: Passthrough, b: Build, name: string)
    requires NamesApart(b.naming) && !IsSetting(name, b)
    ensures var fields := SavedFields(values, passthrough, b);
            && (name in fields <==> name in passthrough)
            && (name in passthrough ==> fields[name] == passthrough[name])
  {
    forall k | k in values ensures NameOf(k, b) != name {
      assert b.naming.named(b.naming.nameOf(k)) == Some(k);
    }
  }

  lemma {:induction false} NormalIsNotConverted(values: Values, b: Build, k: Key)
    requires Sane(b) && Total(values) && NormalizedAll(values, b) == values
    requires b.collections(values[List(GameCollections)]) == Ok(values[List(GameCollections)])
    ensures Converted(k, values[k], ReadWrite, b) == values[k]
  {
    if k == Count(MouseAcceleration) {
      assert NormalizedAll(values, b)[k] == values[k];
    }
  }

  lemma {:induction false} SavedThenTaken(values: Values, passthrough: Passthrough, b: Build, k: Key)
    requires Sane(b) && Proper(values, passthrough, b)
    ensures var p := SavedFields(values, passthrough, b); Taken(p, p.Keys, k, ReadWrite, b) == values[k]
  {
    SavedHas(values, passthrough, b, k);
    NormalIsNotConverted(values, b, k);
  }

  lemma {:induction false} SavedThenTakenAll(values: Values, passthrough: Passthrough, b: Build)
    requires Sane(b) && Proper(values, passthrough, b)
    ensures var p := SavedFields(values, passthrough, b); TakenAll(p, p.Keys, ReadWrite, b) == values
  {
    var p := SavedFields(values, passthrough, b);
    forall k: Key ensures TakenAll(p, p.Keys, ReadWrite, b)[k] == values[k] {
      SavedThenTaken(values, passthrough, b, k);
    }
    SameValues(TakenAll(p, p.Keys, ReadWrite, b), values);
  }

  lemma {:induction false} SavedThenPassed(values: Values, passthrough: Passthrough, b: Build)
    requires NamesApart(b.naming) && Foreign(passthrough, b)
    ensures var p := SavedFields(values, passthrough, b); PassedThrough(p, p.Keys, b) == passthrough
  {
    var p := SavedFields(values, passthrough, b);
    var back := PassedThrough(p, p.Keys, b);
    forall name
      ensures name in back <==> name in passthrough
      ensures name in passthrough ==> back[name] == passthrough[name]
    {
      if !IsSetting(name, b) {
        SavedForeign(values, passthrough, b, name);
      }
    }
  }

  // Changing a normal store by a normal value leaves it normal.
  lemma {:induction false} UpdateStaysNormal(values: Values, b: Build, k: Key, v: Value)
    requires Total(values) && NormalizedAll(values, b) == values && b.normal(k, v) == v
    ensures NormalizedAll(values[k := v], b) == values[k := v]
  {
    var next := values[k := v];
    forall j: Key ensures NormalizedAll(next, b)[j] == next[j] {
      assert NormalizedAll(values, b)[j] == values[j];
    }
    SameValues(NormalizedAll(next, b), next);
  }

  lemma {:induction false} MigratedStaysNormal(values: Values, b: Build)
    requires KeepsMigration(b) && Total(values) && NormalizedAll(values, b) == values
    ensures NormalizedAll(Migrated(values), b) == Migrated(values)
  {
    if OldShortcutPair(values) {
      UpdateStaysNormal(values, b, Text(ShortcutToggleFullscreen), String("F11"));
      var moved := values[Text(ShortcutToggleFullscreen) := String("F11")];
      UpdateStaysNormal(moved, b, Text(ShortcutScreenshot), String("Ctrl+F11"));
      UpdateStaysNormal(moved[Text(ShortcutScreenshot) := String("Ctrl+F11")], b, Text(StatsOverlayPosition),
                        String("top-right"));
    }
  }

  lemma {:induction false} SavedIsNotRefused(values: Values, passthrough: Passthrough, b: Build)
    requires NamesApart(b.naming) && Proper(values, passthrough, b)
    ensures !CollectionsRefused(SavedFields(values, passthrough, b), b)
    ensures NameOf(Flag(OnboardingCompleted), b) in SavedFields(values, passthrough, b)
  {
    SavedHas(values, passthrough, b, Flag(OnboardingCompleted));
    SavedHas(values, passthrough, b, List(GameCollections));
  }

  lemma {:induction false} SavedThenLoaded(values: Values, passthrough: Passthrough, b: Build)
    requires Sane(b) && Proper(values, passthrough, b)
    ensures LoadResult(SavedFile(values, passthrough, b), ReadWrite, b)
         == Ok(Settled(values, passthrough, false, ReadWrite, b))
  {
    SavedThenTakenAll(values, passthrough, b);
    SavedThenPassed(values, passthrough, b);
    SavedIsNotRefused(values, passthrough, b);
  }

  /** Round trip. Loading what a store saved gives back its settings and its unknown fields,
      except that the pair full screen = F10, screenshot = F11 is rewritten. */
  lemma {:induction false} ReloadIs(values: Values, passthrough: Passthrough, b: Build)
    requires Sane(b) && Proper(values, passthrough, b)
    ensures LoadResult(SavedFile(values, passthrough, b), ReadWrite, b)
         == Ok(Loaded(Migrated(values), passthrough, false))
  {
    SavedThenLoaded(values, passthrough, b);
    MigratedStaysNormal(values, b);
  }

  lemma {:induction false} MigratedIff(values: Values)
    ensures Migrated(values) == values <==> !OldShortcutPair(values)
  {
    if OldShortcutPair(values) {
      assert Migrated(values)[Text(ShortcutToggleFullscreen)].s[1] == '1';
    }
  }

  /** The round trip is exact if and only if the store does not hold that pair. */
  lemma {:induction false} RoundTripIff(values: Values, passthrough: Passthrough, b: Build)
    requires Sane(b) && Proper(values, passthrough, b)
    ensures LoadResult(SavedFile(values, passthrough, b), ReadWrite, b)
              == Ok(Loaded(values, passthrough, false))
       <==> !OldShortcutPair(values)
  {
    ReloadIs(values, passthrough, b);
    MigratedIff(values);
  }

  // ---- Every load gives a proper store, and a second load changes nothing ----

  ghost predicate Accepted(values: Values, b: Build) {
    Total(values) && b.collections(values[List(GameCollections)]) == Ok(values[List(GameCollections)])
  }

  lemma {:induction false} NormalIsProper(values: Values, passthrough: Passthrough, b: Build)
    requires Sane(b) && Accepted(values, b) && Foreign(passthrough, b) && PolicyKnown(passthrough)
    ensures Proper(NormalizedAll(values, b), passthrough, b)
  {
    NormalizeAgain(values, b);
    assert NormalizedAll(values, b)[List(GameCollections)] == values[List(GameCollections)];
  }

  lemma {:induction false} MigratedIsAccepted(values: Values, b: Build)
    requires Accepted(values, b)
    ensures Accepted(Migrated(values), b)
    ensures Accepted(Migrated(values)[Flag(SwitchToConsoleOnPad) := Bool(false)], b)
  {
  }

  lemma {:induction false} SettledIsProper(values: Values, passthrough: Passthrough, onboarding: bool, b: Build)
    requires Sane(b) && Accepted(values, b) && Foreign(passthrough, b)
    ensures var loaded := Settled(values, passthrough, onboarding, ReadWrite, b);
            Proper(loaded.values, loaded.passthrough, b)
  {
    MigratedIsAccepted(values, b);
    if PolicyKnown(passthrough) {
      NormalIsProper(Migrated(values), passthrough, b);
    } else {
      NormalIsProper(Migrated(values)[Flag(SwitchToConsoleOnPad) := Bool(false)],
                     passthrough[POLICY_VERSION := CURRENT_POLICY], b);
    }
  }

  lemma {:induction false} TakenIsAccepted(p: Fields, b: Build)
    requires Sane(b) && !CollectionsRefused(p, b)
    ensures Accepted(TakenAll(p, p.Keys, ReadWrite, b), b)
  {
  }

  /** A full load that succeeds gives a proper store, whatever the file holds. */
  lemma {:induction false} LoadedIsProper(file: File, b: Build)
    requires Sane(b) && LoadResult(file, ReadWrite, b).Ok?
    ensures var loaded := LoadResult(file, ReadWrite, b).value; Proper(loaded.values, loaded.passthrough, b)
  {
    if file.Contents? {
      TakenIsAccepted(file.fields, b);
      SettledIsProper(TakenAll(file.fields, file.fields.Keys, ReadWrite, b),
                      PassedThrough(file.fields, file.fields.Keys, b),
                      NameOf(Flag(OnboardingCompleted), b) !in file.fields, b);
    } else {
      SettledIsProper(Defaults(b), map[], false, b);
    }
  }

  lemma {:induction false} SettledHasNoPair(values: Values, passthrough: Passthrough, onboarding: bool, b: Build)
    requires Sane(b) && Total(values)
    ensures !OldShortcutPair(Settled(values, passthrough, onboarding, ReadWrite, b).values)
  {
    var start := if PolicyKnown(passthrough) then Migrated(values)
                 else Migrated(values)[Flag(SwitchToConsoleOnPad) := Bool(false)];
    MigratedHasNoPair(values);
    NormalHasNoPair(start, b);
  }

  lemma {:induction false} MigratedHasNoPair(values: Values)
    ensures !OldShortcutPair(Migrated(values))
    ensures !OldShortcutPair(Migrated(values)[Flag(SwitchToConsoleOnPad) := Bool(false)])
  {
    if OldShortcutPair(values) {
      assert Migrated(values)[Text(ShortcutToggleFullscreen)].s[1] == '1';
    }
  }

  lemma {:induction false} NormalHasNoPair(values: Values, b: Build)
    requires ReadsShortcuts(b) && Total(values) && !OldShortcutPair(values)
    ensures !OldShortcutPair(NormalizedAll(values, b))
  {
    var normal := NormalizedAll(values, b);
    assert normal[Text(ShortcutToggleFullscreen)]
       == b.normal(Text(ShortcutToggleFullscreen), values[Text(ShortcutToggleFullscreen)]);
    assert normal[Text(ShortcutScreenshot)] == b.normal(Text(ShortcutScreenshot), values[Text(ShortcutScreenshot)]);
  }

  /** What a full load produced, saved and loaded again, is the same: migrations happen once. */
  lemma {:induction false} SecondLoadIsExact(file: File, b: Build)
    requires Sane(b) && LoadResult(file, ReadWrite, b).Ok?
    ensures var loaded := LoadResult(file, ReadWrite, b).value;
            LoadResult(SavedFile(loaded.values, loaded.passthrough, b), ReadWrite, b)
              == Ok(loaded.(changed := false))
  {
    var loaded := LoadResult(file, ReadWrite, b).value;
    LoadedIsProper(file, b);
    RoundTripIff(loaded.values, loaded.passthrough, b);
    if file.Contents? {
      TakenIsAccepted(file.fields, b);
      SettledHasNoPair(TakenAll(file.fields, file.fields.Keys, ReadWrite, b),
                       PassedThrough(file.fields, file.fields.Keys, b),
                       NameOf(Flag(OnboardingCompleted), b) !in file.fields, b);
    } else {
      SettledHasNoPair(Defaults(b), map[], false, b);
    }
  }

  // ---- The bootstrap read ----

  const DEVICE: Key := Text(WindowsGpuDeviceId)

  // The device a file names, before it is normalised.
  function DeviceIn(file: File, b: Build): Value {
    if file.Contents? && NameOf(DEVICE, b) in file.fields then file.fields[NameOf(DEVICE, b)] else b.standard(DEVICE)
  }

  lemma {:induction false} SettledKeepsDevice(
      values: Values, passthrough: Passthrough, onboarding: bool, policy: Policy, b: Build)
    requires Total(values)
    ensures Settled(values, passthrough, onboarding, policy, b).values[DEVICE] == b.normal(DEVICE, values[DEVICE])
  {
    assert Migrated(values)[DEVICE] == values[DEVICE];
  }

  lemma {:induction false} DeviceTaken(p: Fields, bytes: nat, policy: Policy, b: Build)
    ensures TakenAll(p, p.Keys, policy, b)[DEVICE] == DeviceIn(Contents(p, bytes), b)
  {
  }

  lemma {:induction false} DeviceLoaded(file: File, policy: Policy, b: Build)
    requires LoadResult(file, policy, b).Ok?
    ensures DeviceAfter(file, policy, b) == b.normal(DEVICE, DeviceIn(Seen(file, policy), b))
  {
    var seen := Seen(file, policy);
    if seen.Contents? {
      var p := seen.fields;
      DeviceTaken(p, seen.bytes, policy, b);
      SettledKeepsDevice(TakenAll(p, p.Keys, policy, b), PassedThrough(p, p.Keys, b),
                         NameOf(Flag(OnboardingCompleted), b) !in p, policy, b);
    } else {
      SettledKeepsDevice(Defaults(b), map[], false, policy, b);
    }
  }

  // The device a load ends with.
  function DeviceAfter(file: File, policy: Policy, b: Build): Value
    requires LoadResult(file, policy, b).Ok?
  {
    LoadResult(file, policy, b).value.values[DEVICE]
  }

  /** The bootstrap read of the graphics device, which migrates nothing and takes no file over
      1 MiB, agrees with the full load if and only if the file is within that limit or the device
      it names is normalised like the default. */
  lemma {:induction false} BootstrapAgreesIff(file: File, b: Build)
    requires LoadResult(file, ReadWrite, b).Ok?
    ensures LoadResult(file, ReadOnly, b).Ok?
    ensures DeviceAfter(file, ReadOnly, b) == DeviceAfter(file, ReadWrite, b)
       <==> (file.Contents? ==> file.bytes <= MAX_BOOTSTRAP_BYTES)
            || b.normal(DEVICE, DeviceIn(file, b)) == b.normal(DEVICE, b.standard(DEVICE))
  {
    DeviceLoaded(file, ReadWrite, b);
    DeviceLoaded(file, ReadOnly, b);
  }

  lemma {:induction false} DeviceStays(device: string, env: Env)
    requires !TooLong(device, 1024)
    ensures Normal(DEVICE, String(device), env) == String(device)
  {
  }

  /** And they do differ: a file over the limit that names a device, which the full load gives
      and the bootstrap read does not. */
  lemma {:induction false} BootstrapMissesDevice(env: Env, naming: Naming, device: string)
    requires NamesApart(naming) && device != "" && !TooLong(device, 1024)
    ensures var file := Contents(map[naming.nameOf(DEVICE) := String(device)], MAX_BOOTSTRAP_BYTES + 1);
            var b := BuildOf(env, naming);
            && LoadResult(file, ReadWrite, b).Ok? && LoadResult(file, ReadOnly, b).Ok?
            && DeviceAfter(file, ReadWrite, b) == String(device) && DeviceAfter(file, ReadOnly, b) == String("")
  {
    var b := BuildOf(env, naming);
    var file := Contents(map[naming.nameOf(DEVICE) := String(device)], MAX_BOOTSTRAP_BYTES + 1);
    NotRefused(file.fields, device, b);
    DeviceLoaded(file, ReadWrite, b);
    DeviceLoaded(file, ReadOnly, b);
    DeviceStays(device, env);
    EmptyDeviceStays(env);
  }

  lemma {:induction false} NotRefused(p: Fields, device: string, b: Build)
    requires NamesApart(b.naming) && p == map[NameOf(DEVICE, b) := String(device)]
    ensures !CollectionsRefused(p, b)
  {
    if NameOf(List(GameCollections), b) in p {
      NamesDiffer(List(GameCollections), DEVICE, b);
    }
  }

  lemma {:induction false} EmptyDeviceStays(env: Env)
    ensures Default(DEVICE, env) == String("") && Normal(DEVICE, Default(DEVICE, env), env) == String("")
  {
  }
}
