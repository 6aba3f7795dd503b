/** The settings store as an object: it loads, changes, resets and saves its settings. */
module SettingsStore {
  import opened Prelude
  import opened SettingsValues
  import opened SettingsKeys
  import opened Settings
  import GC = GameCollections

  // ---- Changing one setting ----

  function BoundedText(v: Value, bytes: nat): Result<Value, SettingsError> {
    if v.String? && !TooLong(v.s, bytes) then Ok(v) else Err(BadText)
  }

  function ProxyText(v: Value, b: Build): Result<Value, SettingsError> {
    if !v.String? then Err(BadProxy) else
    var raw := GC.Trim(v.s, b.isSpace);
    if raw == "" then Ok(String(""))
    else if b.proxyUrl(raw).Some? then Ok(String(b.proxyUrl(raw).value))
    else Err(BadProxy)
  }

  // The value `set` stores, or why it refuses.
  function Prepared(values: Values, k: Key, v: Value, b: Build): Result<Value, SettingsError> {
    match k
    case Text(AudioOutputDevice) => BoundedText(v, 1024)
    case Text(WindowsGpuDeviceId) => BoundedText(v, 1024)
    case List(GameCollections) =>
      var collections := b.collections(v);
      if collections.Ok? then Ok(collections.value) else Err(BadCollections(collections.error))
    case Text(SessionProxyUrl) => ProxyText(v, b)
    case Flag(SessionProxyEnabled) =>
      if v == Bool(true) && b.proxyUrl(TextOf(Lookup(values, Text(SessionProxyUrl)))).None?
      then Err(BadProxy) else Ok(v)
    case _ => Ok(v)
  }

  // The settings a change of one setting may change besides it.
  function SideEffects(k: Key): set<Key> {
    match k
    case Text(MicrophoneMode) => {Text(MicrophoneDeviceId)}
    case Text(ThemePack) => {Text(AppTheme), Flag(ThemeAccentOverride)}
    case Text(AppAccentColor) => {Flag(ThemeAccentOverride)}
    case Flag(LaunchInConsoleMode) => {Flag(SwitchToConsoleOnPad)}
    case _ => {}
  }

  function Themed(values: Values, theme: string): Values {
    values[Text(AppTheme) := String(theme)][Flag(ThemeAccentOverride) := Bool(false)]
  }

  function Adjusted(values: Values, k: Key): Values {
    match k
    case Text(MicrophoneMode) =>
      if TextIs(values, k, "voice-activity") then values[Text(MicrophoneDeviceId) := String("")] else values
    case Text(ThemePack) =>
      var light := TextIs(values, k, "bone") || TextIs(values, k, "cobalt");
      Themed(values, if light then "light" else "dark")
    case Text(AppAccentColor) => values[Flag(ThemeAccentOverride) := Bool(true)]
    case Flag(LaunchInConsoleMode) =>
      if Lookup(values, k) == Bool(false) then values[Flag(SwitchToConsoleOnPad) := Bool(false)] else values
    case _ => values
  }

  function Changed(values: Values, k: Key, v: Value, b: Build): Values {
    Adjusted(NormalizedAll(values[k := v], b), k)
  }

  lemma {:induction false} AdjustedStaysNormal(values: Values, k: Key, b: Build)
    requires Sane(b) && Total(values) && NormalizedAll(values, b) == values
    ensures NormalizedAll(Adjusted(values, k), b) == Adjusted(values, k)
  {
    if k == Text(ThemePack) {
      var light := TextIs(values, k, "bone") || TextIs(values, k, "cobalt");
      ThemedStaysNormal(values, b, if light then "light" else "dark");
    } else {
      FlaggedStaysNormal(values, k, b);
    }
  }

  lemma {:induction false} ThemedStaysNormal(values: Values, b: Build, theme: string)
    requires KeepsFlags(b) && Total(values) && NormalizedAll(values, b) == values
    requires b.normal(Text(AppTheme), String(theme)) == String(theme)
    ensures NormalizedAll(Themed(values, theme), b) == Themed(values, theme)
  {
    UpdateStaysNormal(values, b, Text(AppTheme), String(theme));
    UpdateStaysNormal(values[Text(AppTheme) := String(theme)], b, Flag(ThemeAccentOverride), Bool(false));
  }

  // The one setting that may change besides k, and to what.
  function SideEffect(values: Values, k: Key): Option<(Key, Value)> {
    if k == Text(MicrophoneMode) && TextIs(values, k, "voice-activity")
    then Some((Text(MicrophoneDeviceId), String("")))
    else if k == Text(AppAccentColor) then Some((Flag(ThemeAccentOverride), Bool(true)))
    else if k == Flag(LaunchInConsoleMode) && Lookup(values, k) == Bool(false)
    then Some((Flag(SwitchToConsoleOnPad), Bool(false)))
    else None
  }

  lemma {:induction false} AdjustedByOne(values: Values, k: Key)
    requires k != Text(ThemePack)
    ensures var e := SideEffect(values, k);
            Adjusted(values, k) == if e.Some? then values[e.value.0 := e.value.1] else values
  {
  }

  lemma {:induction false} SideEffectIsNormal(values: Values, k: Key, b: Build)
    requires KeepsFlags(b) && KeepsSideEffects(b)
    ensures var e := SideEffect(values, k); e.Some? ==> b.normal(e.value.0, e.value.1) == e.value.1
  {
  }

  lemma {:induction false} FlaggedStaysNormal(values: Values, k: Key, b: Build)
    requires Sane(b) && Total(values) && NormalizedAll(values, b) == values && k != Text(ThemePack)
    ensures NormalizedAll(Adjusted(values, k), b) == Adjusted(values, k)
  {
    AdjustedByOne(values, k);
    SideEffectIsNormal(values, k, b);
    var e := SideEffect(values, k);
    if e.Some? {
      UpdateStaysNormal(values, b, e.value.0, e.value.1);
    }
  }

  lemma {:induction false} AdjustedKeepsCollections(values: Values, k: Key)
    requires Total(values)
    ensures Total(Adjusted(values, k)) && Adjusted(values, k)[List(GameCollections)] == values[List(GameCollections)]
  {
  }

  lemma {:induction false} PreparedIsAccepted(values: Values, k: Key, v: Value, b: Build)
    requires Sane(b) && Accepted(values, b) && Prepared(values, k, v, b).Ok?
    ensures Accepted(values[k := Prepared(values, k, v, b).value], b)
  {
    if k == List(GameCollections) {
      assert Prepared(values, k, v, b).value == b.collections(v).value;
    }
  }

  /** A change keeps the store proper. */
  lemma {:induction false} ChangeStaysProper(values: Values, passthrough: Passthrough, k: Key, v: Value, b: Build)
    requires Sane(b) && Proper(values, passthrough, b) && Prepared(values, k, v, b).Ok?
    ensures Proper(Changed(values, k, Prepared(values, k, v, b).value, b), passthrough, b)
  {
    var next := values[k := Prepared(values, k, v, b).value];
    PreparedIsAccepted(values, k, v, b);
    NormalIsProper(next, passthrough, b);
    AdjustedStaysNormal(NormalizedAll(next, b), k, b);
    AdjustedKeepsCollections(NormalizedAll(next, b), k);
  }

  // Whether a store of a sane build is proper, as one value.
  datatype Standing = Sound | Unsound

  ghost function StandingOf(values: Values, passthrough: Passthrough, b: Build): Standing {
    if Sane(b) && Proper(values, passthrough, b) then Sound else Unsound
  }

  // The settings after `set`, or why they stay as they are.
  function SetResult(values: Values, name: string, v: Value, saves: bool, b: Build): Result<Values, SettingsError> {
    var key := b.naming.named(name);
    if key.None? then Err(UnknownSetting) else
    var prepared := Prepared(values, key.value, v, b);
    if prepared.Err? then Err(prepared.error)
    else if !saves then Err(NotSaved)
    else Ok(Changed(values, key.value, prepared.value, b))
  }

  // What `set` replies, from the settings after it.
  function SetReply(
      values: Values, name: string, result: Result<Values, SettingsError>, b: Build): Result<Value, SettingsError> {
    if result.Err? then Err(result.error)
    else if b.naming.named(name).None? then Ok(Null)
    else Ok(Lookup(values, b.naming.named(name).value))
  }

  lemma {:induction false} SetStaysProper(
      values: Values, passthrough: Passthrough, name: string, v: Value, saves: bool, b: Build)
    requires StandingOf(values, passthrough, b) == Sound
    ensures var result := SetResult(values, name, v, saves, b);
            result.Ok? ==> StandingOf(result.value, passthrough, b) == Sound
  {
    if SetResult(values, name, v, saves, b).Ok? {
      ChangeStaysProper(values, passthrough, b.naming.named(name).value, v, b);
    }
  }

  lemma {:induction false} AdjustedTouchesOnly(values: Values, k: Key, other: Key)
    requires Total(values) && other !in SideEffects(k)
    ensures other in Adjusted(values, k) && Adjusted(values, k)[other] == values[other]
  {
  }

  /** A change touches the setting itself, to its normalised value, its side effects, and
      nothing else. */
  lemma {:induction false} ChangeTouchesOnly(values: Values, k: Key, v: Value, b: Build, other: Key)
    requires Total(values) && NormalizedAll(values, b) == values && other !in SideEffects(k)
    ensures other in Changed(values, k, v, b)
    ensures Changed(values, k, v, b)[other] == if other == k then b.normal(k, v) else values[other]
  {
    var next := NormalizedAll(values[k := v], b);
    AdjustedTouchesOnly(next, k, other);
    assert NormalizedAll(values, b)[other] == values[other];
  }

  // What `reset` starts from.
  function Fresh(values: Values, b: Build): Values {
    Defaults(b)[Flag(OnboardingCompleted) := Lookup(values, Flag(OnboardingCompleted))]
  }

  function Renewed(values: Values, b: Build): Values {
    NormalizedAll(Fresh(values, b), b)
  }

  lemma {:induction false} ResetIsProper(values: Values, passthrough: Passthrough, b: Build)
    requires Sane(b) && Proper(values, passthrough, b)
    ensures Proper(Renewed(values, b), passthrough, b)
  {
    FreshIsAccepted(values, b);
    NormalIsProper(Fresh(values, b), passthrough, b);
  }

  // A reset leaves a proper store.
  lemma {:induction false} ResetStaysProper(values: Values, passthrough: Passthrough, b: Build)
    requires StandingOf(values, passthrough, b) == Sound
    ensures StandingOf(Renewed(values, b), passthrough, b) == Sound
  {
    ResetIsProper(values, passthrough, b);
  }

  lemma {:induction false} FreshIsAccepted(values: Values, b: Build)
    requires KeepsCollections(b)
    ensures Accepted(Fresh(values, b), b)
  {
    assert Fresh(values, b)[List(GameCollections)] == b.standard(List(GameCollections));
  }

  /** A reset gives every setting its default, except that the onboarding stays as it was. */
  lemma {:induction false} ResetIs(values: Values, b: Build, k: Key)
    requires Total(values) && NormalizedAll(values, b) == values
    ensures Lookup(Renewed(values, b), k)
         == if k == Flag(OnboardingCompleted) then values[k] else b.normal(k, b.standard(k))
  {
    assert NormalizedAll(values, b)[Flag(OnboardingCompleted)] == values[Flag(OnboardingCompleted)];
  }

  // ---- The order of the fields in a file ----

  // The order of texts, character by character.
  predicate LexLess(a: string, b: string)
    decreases |a|
  {
    b != "" && (a == "" || a[0] < b[0] || (a[0] == b[0] && LexLess(a[1..], b[1..])))
  }

  lemma {:induction false} LexLessOneWay(a: string, b: string)
    requires LexLess(a, b)
    ensures !LexLess(b, a)
    decreases |a|
  {
    if a != "" && a[0] == b[0] {
      LexLessOneWay(a[1..], b[1..]);
    }
  }

  // All fields of an object once, in the order of their names.
  ghost predicate InKeyOrder(order: seq<string>, p: Fields) {
    && (forall name :: name in order <==> name in p)
    && (forall i, j :: 0 <= i < j < |order| ==> LexLess(order[i], order[j]))
  }

  lemma {:induction false} NoRepeats(order: seq<string>, p: Fields, i: nat, j: nat)
    requires InKeyOrder(order, p) && i < j < |order|
    ensures order[i] != order[j]
  {
    LexLessOneWay(order[i], order[j]);
  }

  // The old clock setting comes before the one it migrates to.
  lemma {:induction false} LegacyClockFirst()
    ensures LexLess(LEGACY_CLOCK, SHOW_CLOCK)
  {
    assert LEGACY_CLOCK[1..][0] == 'e' && SHOW_CLOCK[1..][0] == 'h';
    assert LexLess(LEGACY_CLOCK[1..], SHOW_CLOCK[1..]);
  }

  function Names(order: seq<string>): set<string> {
    set n | n in order
  }

  // The state of the loading loop, and one round of it.
  datatype Taking = Taking(values: Values, passthrough: Passthrough)

  function TakingAt(p: Fields, done: set<string>, policy: Policy, b: Build): Taking {
    Taking(TakenAll(p, done, policy, b), PassedThrough(p, done, b))
  }

  function TakeOne(t: Taking, name: string, v: Value, policy: Policy, b: Build): Taking {
    var key := b.naming.named(name);
    if key.Some? then t.(values := t.values[key.value := Converted(key.value, v, policy, b)])
    else if name == NATIVE_HDR then t
    else
      var shown := if policy.ReadWrite? && name == LEGACY_CLOCK && (v == String("stats") || v == String("both"))
                   then t.values[Flag(ShowSessionTimeRemainingInStatsOverlay) := Bool(true)] else t.values;
      Taking(shown, t.passthrough[name := v])
  }

  lemma {:induction false} TakesSetting(p: Fields, done: set<string>, j: Key, policy: Policy, b: Build, k: Key)
    requires NamesApart(b.naming) && NameOf(j, b) in p
    ensures Taken(p, done + {NameOf(j, b)}, k, policy, b)
         == if k == j then Converted(k, p[NameOf(j, b)], policy, b) else Taken(p, done, k, policy, b)
  {
    if NameOf(k, b) == NameOf(j, b) {
      NamesDiffer(j, k, b);
    }
  }

  lemma {:induction false} TakesForeign(p: Fields, done: set<string>, name: string, policy: Policy, b: Build, k: Key)
    requires NamesApart(b.naming) && !IsSetting(name, b) && name in p
    requires name == LEGACY_CLOCK ==> SHOW_CLOCK !in done
    ensures Taken(p, done + {name}, k, policy, b)
         == if k == Flag(ShowSessionTimeRemainingInStatsOverlay) && policy.ReadWrite? && name == LEGACY_CLOCK
               && ShowsClock(p)
            then Bool(true) else Taken(p, done, k, policy, b)
  {
    assert b.naming.named(b.naming.nameOf(k)) == Some(k);
  }

  lemma {:induction false} TakesOneValue(
      p: Fields, done: set<string>, name: string, policy: Policy, b: Build, k: Key)
    requires NamesApart(b.naming) && name in p
    requires name == LEGACY_CLOCK ==> SHOW_CLOCK !in done
    ensures Taken(p, done + {name}, k, policy, b)
         == Lookup(TakeOne(TakingAt(p, done, policy, b), name, p[name], policy, b).values, k)
  {
    var key := b.naming.named(name);
    if key.Some? {
      TakesSetting(p, done, key.value, policy, b, k);
    } else {
      TakesForeign(p, done, name, policy, b, k);
    }
  }

  lemma {:induction false} TakesOnePassed(p: Fields, done: set<string>, name: string, policy: Policy, b: Build)
    requires name in p
    ensures PassedThrough(p, done + {name}, b)
         == TakeOne(TakingAt(p, done, policy, b), name, p[name], policy, b).passthrough
  {
    var next, before := PassedThrough(p, done + {name}, b), PassedThrough(p, done, b);
    if !IsSetting(name, b) && name != NATIVE_HDR {
      assert next == before[name := p[name]];
    } else {
      assert next == before;
    }
  }

  lemma {:induction false} TakesInto(t: Taking, name: string, v: Value, policy: Policy, b: Build)
    requires Total(t.values)
    ensures Total(TakeOne(t, name, v, policy, b).values)
  {
  }

  lemma {:induction false} TakesOne(p: Fields, done: set<string>, name: string, policy: Policy, b: Build)
    requires NamesApart(b.naming) && name in p
    requires name == LEGACY_CLOCK ==> SHOW_CLOCK !in done
    ensures TakingAt(p, done + {name}, policy, b) == TakeOne(TakingAt(p, done, policy, b), name, p[name], policy, b)
  {
    TakesOnePassed(p, done, name, policy, b);
    TakesOneValues(p, done, name, policy, b);
  }

  lemma {:induction false} TakesOneValues(p: Fields, done: set<string>, name: string, policy: Policy, b: Build)
    requires NamesApart(b.naming) && name in p
    requires name == LEGACY_CLOCK ==> SHOW_CLOCK !in done
    ensures TakenAll(p, done + {name}, policy, b)
         == TakeOne(TakingAt(p, done, policy, b), name, p[name], policy, b).values
  {
    var next := TakeOne(TakingAt(p, done, policy, b), name, p[name], policy, b).values;
    TakesInto(TakingAt(p, done, policy, b), name, p[name], policy, b);
    forall k: Key ensures TakenAll(p, done + {name}, policy, b)[k] == Lookup(next, k) {
      TakesOneValue(p, done, name, policy, b, k);
    }
    SameValues(TakenAll(p, done + {name}, policy, b), next);
  }

  lemma {:induction false} NextInOrder(order: seq<string>, p: Fields, i: nat)
    requires InKeyOrder(order, p) && i < |order|
    ensures order[i] in p && Names(order[..i + 1]) == Names(order[..i]) + {order[i]}
    ensures order[i] == LEGACY_CLOCK ==> SHOW_CLOCK !in Names(order[..i])
  {
    assert order[..i + 1] == order[..i] + [order[i]];
    if order[i] == LEGACY_CLOCK {
      LegacyClockFirst();
      LexLessOneWay(LEGACY_CLOCK, SHOW_CLOCK);
    }
  }

  lemma {:induction false} AllNames(order: seq<string>, p: Fields)
    requires InKeyOrder(order, p)
    ensures Names(order[..|order|]) == p.Keys
  {
    assert order[..|order|] == order;
  }

  lemma {:induction false} StartsWith(p: Fields, policy: Policy, b: Build, k: Key)
    ensures Taken(p, {}, k, policy, b)
         == if policy.ReadWrite? && NameOf(Flag(OnboardingCompleted), b) !in p && k == Flag(OnboardingCompleted)
            then Bool(true) else b.standard(k)
  {
  }

  lemma {:induction false} StartsTaking(p: Fields, policy: Policy, b: Build, values: Values)
    requires values == if policy.ReadWrite? && NameOf(Flag(OnboardingCompleted), b) !in p
                       then Defaults(b)[Flag(OnboardingCompleted) := Bool(true)] else Defaults(b)
    ensures Taking(values, map[]) == TakingAt(p, {}, policy, b)
  {
    assert PassedThrough(p, {}, b) == map[];
    forall k: Key ensures values[k] == TakenAll(p, {}, policy, b)[k] {
      StartsWith(p, policy, b, k);
    }
    SameValues(values, TakenAll(p, {}, policy, b));
  }

  // ---- Saving ----

  // Which operations of a save succeed: writing the temporary file, removing the old backup,
  // making the current file the backup, moving the new file into place, and taking the backup
  // back after that failed.
  datatype SaveIo = SaveIo(writes: bool, removesBackup: bool, setsAside: bool, moves: bool, restores: bool)

  datatype Files = Files(current: File, backup: File)

  predicate Saves(f: Files, io: SaveIo) {
    io.writes && (f.current.Missing? || io.setsAside) && io.moves
  }

  // The two files after a save of `next`.
  function SavedFiles(f: Files, next: File, io: SaveIo): Files {
    if !io.writes then f
    else if f.current.Missing? then
      if io.moves then f.(current := next)
      else if io.restores && !f.backup.Missing? then Files(f.backup, Missing)
      else f
    else if !io.setsAside then f.(backup := if io.removesBackup then Missing else f.backup)
    else if io.moves then Files(next, f.current)
    else if io.restores then Files(f.current, Missing)
    else Files(Missing, f.current)
  }

  // The files after a save of these settings.
  function Filed(f: Files, values: Values, passthrough: Passthrough, b: Build, io: SaveIo): Files {
    SavedFiles(f, SavedFile(values, passthrough, b), io)
  }

  // The save fails at the last move, with no settings file before it, and the older backup can
  // be moved into the place meant for taking back the current one.
  predicate BackupTakesOver(f: Files, io: SaveIo) {
    io.writes && f.current.Missing? && !io.moves && io.restores && !f.backup.Missing?
  }

  // The save fails at the last move, and the current file, set aside, cannot be taken back.
  predicate StaysAside(f: Files, io: SaveIo) {
    io.writes && !f.current.Missing? && io.setsAside && !io.moves && !io.restores
  }

  // The settings file stays as it was except in these two cases; then it is the older backup, or
  // gone and the backup.
  predicate Unsaved(before: Files, after: Files, io: SaveIo) {
    && (after.current == before.current <==> !BackupTakesOver(before, io) && !StaysAside(before, io))
    && (BackupTakesOver(before, io) ==> after == Files(before.backup, Missing))
    && (StaysAside(before, io) ==> after == Files(Missing, before.current))
  }

  /** A failed save leaves the settings file as it was if and only if neither an older backup
      takes over nor the file stays aside. */
  lemma {:induction false} FailedSaveLeaves(f: Files, next: File, io: SaveIo)
    requires !Saves(f, io)
    ensures Unsaved(f, SavedFiles(f, next, io), io)
  {
  }

  /** An old backup does come back: the settings file cannot be read and is set aside at start-up,
      and the first save then fails at its last move. */
  lemma {:induction false} OldBackupReturns(stale: Fields, bytes: nat, next: File)
    ensures var start := Opened(Files(Unreadable, Contents(stale, bytes)), ReadWrite, true);
            var io := SaveIo(true, true, true, false, true);
            && !Saves(start, io)
            && SavedFiles(start, next, io) == Files(Contents(stale, bytes), Missing)
  {
  }

  /** A save succeeds exactly when its file is written, whatever was there is set aside, and the new
      file is moved into place; then what was there is the backup. One that cannot set it aside leaves
      it, perhaps without its old backup. */
  lemma {:induction false} SavedIs(f: Files, next: File, io: SaveIo)
    ensures Saves(f, io) <==> io.writes && (f.current.Missing? || io.setsAside) && io.moves
    ensures Saves(f, io) ==> SavedFiles(f, next, io) == Files(next, if f.current.Missing? then f.backup else f.current)
    ensures !io.writes ==> SavedFiles(f, next, io) == f
    ensures io.writes && !f.current.Missing? && !io.setsAside ==>
              SavedFiles(f, next, io) == Files(f.current, if io.removesBackup then Missing else f.backup)
  {
  }

  // ---- Runs of saves ----

  // One save: the file it writes, and how its operations end.
  datatype Attempt = Attempt(next: File, io: SaveIo)

  function AfterSaves(f: Files, attempts: seq<Attempt>): Files {
    if attempts == [] then f
    else
      var last := attempts[|attempts| - 1];
      SavedFiles(AfterSaves(f, attempts[..|attempts| - 1]), last.next, last.io)
  }

  // What the last successful save wrote, or the settings file from before.
  function LatestSaved(f: Files, attempts: seq<Attempt>): File {
    if attempts == [] then f.current
    else
      var init, last := attempts[..|attempts| - 1], attempts[|attempts| - 1];
      if Saves(AfterSaves(f, init), last.io) then last.next else LatestSaved(f, init)
  }

  // The latest settings are the file, or they are the backup and there is no file.
  predicate KeepsLatest(f: Files, latest: File) {
    f.current == latest || (f.current.Missing? && f.backup == latest)
  }

  // No settings file, but a backup.
  predicate Orphaned(f: Files) {
    f.current.Missing? && !f.backup.Missing?
  }

  lemma {:induction false} SaveKeepsLatest(f: Files, latest: File, a: Attempt)
    requires KeepsLatest(f, latest) && (latest.Missing? ==> f.backup.Missing?)
    ensures var after := SavedFiles(f, a.next, a.io);
            if Saves(f, a.io) then after.current == a.next
            else KeepsLatest(after, latest) && (latest.Missing? ==> after.backup.Missing?)
  {
  }

  lemma {:induction false} RunKeepsLatest(f: Files, attempts: seq<Attempt>)
    requires !Orphaned(f) && forall i :: 0 <= i < |attempts| ==> attempts[i].next.Contents?
    ensures var after, latest := AfterSaves(f, attempts), LatestSaved(f, attempts);
            KeepsLatest(after, latest) && (latest.Missing? ==> after.backup.Missing?)
  {
    if attempts != [] {
      var init, last := attempts[..|attempts| - 1], attempts[|attempts| - 1];
      RunKeepsLatest(f, init);
      SaveKeepsLatest(AfterSaves(f, init), LatestSaved(f, init), last);
    }
  }

  /** Whatever fails, over any run of saves the settings last saved are the file, or the backup
      while there is no file. This holds for all runs exactly from files that are not a backup
      without a settings file. */
  lemma {:induction false} SavesKeepLatestIff(f: Files)
    ensures (forall attempts: seq<Attempt> :: (forall i :: 0 <= i < |attempts| ==> attempts[i].next.Contents?) ==>
               KeepsLatest(AfterSaves(f, attempts), LatestSaved(f, attempts)))
       <==> !Orphaned(f)
  {
    if Orphaned(f) {
      var a := Attempt(Contents(map[], 0), SaveIo(true, true, true, false, true));
      assert [a][..0] == [];
      assert AfterSaves(f, []) == f && LatestSaved(f, []) == Missing;
      assert AfterSaves(f, [a]) == Files(f.backup, Missing) && LatestSaved(f, [a]) == Missing;
    } else {
      forall attempts: seq<Attempt> | forall i :: 0 <= i < |attempts| ==> attempts[i].next.Contents?
        ensures KeepsLatest(AfterSaves(f, attempts), LatestSaved(f, attempts))
      {
        RunKeepsLatest(f, attempts);
      }
    }
  }

  // The files after `set`: a refused change is not saved.
  function FilesAfterSet(
      f: Files, values: Values, passthrough: Passthrough, name: string, v: Value, io: SaveIo, b: Build): Files {
    var wanted := SetResult(values, name, v, true, b);
    if wanted.Ok? then Filed(f, wanted.value, passthrough, b, io) else f
  }

  // ---- The old shortcut pair can be set ----

  // Any text can be chosen for these two shortcuts.
  ghost predicate KeepsShortcuts(b: Build) {
    && b.normal(Text(ShortcutToggleFullscreen), String("F10")) == String("F10")
    && b.normal(Text(ShortcutScreenshot), String("F11")) == String("F11")
  }

  lemma {:induction false} ShortcutsStay(env: Env, naming: Naming)
    ensures KeepsShortcuts(BuildOf(env, naming))
  {
    ShortTextStays(Text(ShortcutToggleFullscreen), "F10", 80, env);
    ShortTextStays(Text(ShortcutScreenshot), "F11", 80, env);
  }

  /** The exception to the round trip is real: from any store, setting full screen to F10 and
      then the screenshot to F11 is accepted, and what is then saved is not what loads. */
  lemma {:induction false} OldPairCanBeSet(values: Values, passthrough: Passthrough, b: Build)
    returns (first: Values, second: Values)
    requires Sane(b) && KeepsShortcuts(b) && Proper(values, passthrough, b)
    ensures SetResult(values, NameOf(Text(ShortcutToggleFullscreen), b), String("F10"), true, b) == Ok(first)
    ensures SetResult(first, NameOf(Text(ShortcutScreenshot), b), String("F11"), true, b) == Ok(second)
    ensures Proper(second, passthrough, b) && OldShortcutPair(second)
    ensures LoadResult(SavedFile(second, passthrough, b), ReadWrite, b) != Ok(Loaded(second, passthrough, false))
  {
    first := SetText(values, passthrough, Text(ShortcutToggleFullscreen), "F10", b);
    SoundIsProper(first, passthrough, b);
    second := SetText(first, passthrough, Text(ShortcutScreenshot), "F11", b);
    SoundIsProper(second, passthrough, b);
    FullscreenStands(first, b);
    RoundTripIff(second, passthrough, b);
  }

  lemma {:induction false} FullscreenStands(values: Values, b: Build)
    requires Total(values) && NormalizedAll(values, b) == values
    ensures Lookup(Changed(values, Text(ShortcutScreenshot), String("F11"), b), Text(ShortcutToggleFullscreen))
         == values[Text(ShortcutToggleFullscreen)]
  {
    ChangeTouchesOnly(values, Text(ShortcutScreenshot), String("F11"), b, Text(ShortcutToggleFullscreen));
  }

  // Setting one of the two shortcuts.
  lemma {:induction false} SetText(values: Values, passthrough: Passthrough, k: Key, text: string, b: Build)
    returns (next: Values)
    requires Sane(b) && Proper(values, passthrough, b) && b.normal(k, String(text)) == String(text)
    requires k == Text(ShortcutToggleFullscreen) || k == Text(ShortcutScreenshot)
    ensures SetResult(values, NameOf(k, b), String(text), true, b) == Ok(next)
    ensures StandingOf(next, passthrough, b) == Sound
    ensures Lookup(next, k) == String(text) && next == Changed(values, k, String(text), b)
  {
    next := Changed(values, k, String(text), b);
    SetTextAccepted(values, k, text, b);
    ChangeTouchesOnly(values, k, String(text), b, k);
    SetStaysProper(values, passthrough, NameOf(k, b), String(text), true, b);
  }

  lemma {:induction false} SetTextAccepted(values: Values, k: Key, text: string, b: Build)
    requires NamesApart(b.naming) && (k == Text(ShortcutToggleFullscreen) || k == Text(ShortcutScreenshot))
    ensures SetResult(values, NameOf(k, b), String(text), true, b) == Ok(Changed(values, k, String(text), b))
  {
    assert b.naming.named(NameOf(k, b)) == Some(k);
  }

  lemma {:induction false} SoundIsProper(values: Values, passthrough: Passthrough, b: Build)
    requires StandingOf(values, passthrough, b) == Sound
    ensures Proper(values, passthrough, b)
  {
  }

  // ---- The store ----

  class Store {
    const build: Build
    var files: Files
    var values: Values
    var passthrough: Passthrough

    constructor (build: Build, files: Files)
      ensures this.build == build && this.files == files
    {
      this.build, this.files := build, files;
      this.values, this.passthrough := map[], map[];
    }

    ghost predicate Valid()
      reads this
    {
      StandingOf(values, passthrough, build) == Sound
    }

    // Each setting in turn, in any order.
    method Normalize()
      modifies this`values
      ensures values == NormalizedAll(old(values), build)
    {
      ghost var start := values;
      var left := Defaults(build).Keys;
      while left != {}
        invariant forall k: Key :: k in left ==> Lookup(values, k) == Lookup(start, k)
        invariant forall k: Key :: k !in left ==> k in values && values[k] == build.normal(k, Lookup(start, k))
        decreases |left|
      {
        var k :| k in left;
        values := values[k := build.normal(k, Lookup(values, k))];
        left := left - {k};
      }
      SameValues(values, NormalizedAll(start, build));
    }

    /** `save`, one file operation after the other. */
    method Save(io: SaveIo) returns (ok: bool)
      modifies this`files
      ensures ok == Saves(old(files), io)
      ensures files == Filed(old(files), values, passthrough, build, io)
      ensures ok ==> files.current == SavedFile(values, passthrough, build)
    {
      if !io.writes {
        return false;
      }
      if !files.current.Missing? {
        if io.removesBackup {
          files := files.(backup := Missing);
        }
        if !io.setsAside {
          return false;
        }
        files := Files(Missing, files.current);
      }
      if !io.moves {
        if io.restores && !files.backup.Missing? {
          files := Files(files.backup, Missing);
        }
        return false;
      }
      files := files.(current := SavedFile(values, passthrough, build));
      ok := true;
    }

    // New settings are saved, or the previous ones taken back.
    method Commit(previous: Values, io: SaveIo) returns (ok: bool)
      modifies this`values, this`files
      ensures ok == Saves(old(files), io)
      ensures values == if ok then old(values) else previous
      ensures ok ==> files.current == SavedFile(values, passthrough, build)
      ensures files == Filed(old(files), old(values), passthrough, build, io)
    {
      ok := Save(io);
      if !ok {
        values := previous;
      }
    }

    // The change in memory: the value itself, then its side effects.
    method Change(k: Key, v: Value)
      modifies this`values
      ensures values == Changed(old(values), k, v, build)
    {
      values := values[k := v];
      Normalize();
      values := Adjusted(values, k);
    }

    // A change, saved or taken back.
    method ChangeAndSave(k: Key, v: Value, io: SaveIo) returns (saved: bool)
      modifies this`values, this`files
      ensures saved == Saves(old(files), io)
      ensures values == if saved then Changed(old(values), k, v, build) else old(values)
      ensures files == Filed(old(files), Changed(old(values), k, v, build), passthrough, build, io)
    {
      var previousValues := values;
      Change(k, v);
      saved := Commit(previousValues, io);
    }

    /** `set`: a refusal or a failed save leaves the settings as they were. */
    method Set(name: string, value: Value, io: SaveIo) returns (r: Result<Value, SettingsError>)
      requires Valid()
      modifies this`values, this`files
      ensures Valid()
      ensures var result := SetResult(old(values), name, value, Saves(old(files), io), build);
              && values == (if result.Ok? then result.value else old(values))
              && r == SetReply(values, name, result, build)
      ensures r.Ok? ==> files.current == SavedFile(values, passthrough, build)
      ensures files == FilesAfterSet(old(files), old(values), passthrough, name, value, io, build)
    {
      SetStaysProper(values, passthrough, name, value, true, build);
      var key := build.naming.named(name);
      if key.None? {
        return Err(UnknownSetting);
      }
      var prepared := Prepared(values, key.value, value, build);
      if prepared.Err? {
        return prepared;
      }
      var saved := ChangeAndSave(key.value, prepared.value, io);
      r := if saved then Ok(Lookup(values, key.value)) else Err(NotSaved);
    }

    // The reset in memory.
    method Renew()
      modifies this`values
      ensures values == Renewed(old(values), build)
    {
      values := Fresh(values, build);
      Normalize();
    }

    // A reset, saved or taken back.
    method RenewAndSave(io: SaveIo) returns (saved: bool)
      modifies this`values, this`files
      ensures saved == Saves(old(files), io)
      ensures values == if saved then Renewed(old(values), build) else old(values)
      ensures saved ==> files.current == SavedFile(values, passthrough, build)
      ensures files == Filed(old(files), Renewed(old(values), build), passthrough, build, io)
    {
      var previousValues := values;
      Renew();
      saved := Commit(previousValues, io);
    }

    /** `reset`: the defaults, but the onboarding stays done. */
    method Reset(io: SaveIo) returns (r: Result<Values, SettingsError>)
      requires Valid()
      modifies this`values, this`files
      ensures Valid()
      ensures values == if Saves(old(files), io) then Renewed(old(values), build) else old(values)
      ensures r == if Saves(old(files), io) then Ok(values) else Err(NotSaved)
      ensures r.Ok? ==> files.current == SavedFile(values, passthrough, build)
      ensures files == Filed(old(files), Renewed(old(values), build), passthrough, build, io)
    {
      ResetStaysProper(values, passthrough, build);
      var saved := RenewAndSave(io);
      if !saved {
        return Err(NotSaved);
      }
      r := Ok(values);
    }

    // The migrations after the fields are taken over.
    method Migrate(policy: Policy, onboarding: bool) returns (changed: bool)
      modifies this`values, this`passthrough
      ensures Loaded(values, passthrough, changed) == Settled(old(values), old(passthrough), onboarding, policy, build)
    {
      if policy.ReadWrite? {
        values := Migrated(values);
      }
      var migratePolicy := policy.ReadWrite? && !PolicyKnown(passthrough);
      if migratePolicy {
        values := values[Flag(SwitchToConsoleOnPad) := Bool(false)];
        passthrough := passthrough[POLICY_VERSION := CURRENT_POLICY];
      }
      Normalize();
      changed := policy.ReadWrite? && (migratePolicy || onboarding);
    }

    // The migrations, and the save they call for when there is a file.
    method Settle(policy: Policy, onboarding: bool, io: SaveIo) returns (r: Result<(), SettingsError>)
      modifies this`values, this`passthrough, this`files
      ensures var loaded := Settled(old(values), old(passthrough), onboarding, policy, build);
              && Taking(values, passthrough) == Taking(loaded.values, loaded.passthrough)
              && var saving := loaded.changed && !old(files).current.Missing?;
                 && files == (if saving then Filed(old(files), values, passthrough, build, io) else old(files))
                 && r == (if saving && !Saves(old(files), io) then Err(NotSaved) else Ok(()))
    {
      var changed := Migrate(policy, onboarding);
      r := Ok(());
      if changed && !files.current.Missing? {
        var saved := Save(io);
        if !saved {
          r := Err(NotSaved);
        }
      }
    }

    // One field of the file.
    method TakeField(name: string, v: Value, policy: Policy)
      modifies this`values, this`passthrough
      ensures Taking(values, passthrough) == TakeOne(Taking(old(values), old(passthrough)), name, v, policy, build)
    {
      var key := build.naming.named(name);
      if key.Some? {
        values := values[key.value := Converted(key.value, v, policy, build)];
      } else if name != NATIVE_HDR {
        if policy.ReadWrite? && name == LEGACY_CLOCK && (v == String("stats") || v == String("both")) {
          values := values[Flag(ShowSessionTimeRemainingInStatsOverlay) := Bool(true)];
        }
        passthrough := passthrough[name := v];
      }
    }

    // All fields of the file; refused collections end it.
    method TakeFields(p: Fields, order: seq<string>, policy: Policy) returns (refused: bool)
      requires NamesApart(build.naming) && InKeyOrder(order, p)
      requires Taking(values, passthrough) == TakingAt(p, {}, policy, build)
      modifies this`values, this`passthrough
      ensures refused <==> policy.ReadWrite? && CollectionsRefused(p, build)
      ensures !refused ==> Taking(values, passthrough) == TakingAt(p, p.Keys, policy, build)
    {
      var collections := NameOf(List(GameCollections), build);
      assert Names(order[..0]) == {};
      for i := 0 to |order|
        invariant Taking(values, passthrough) == TakingAt(p, Names(order[..i]), policy, build)
        invariant policy.ReadWrite? && CollectionsRefused(p, build) ==> collections !in Names(order[..i])
      {
        NextInOrder(order, p, i);
        if policy.ReadWrite? && order[i] == collections && build.collections(p[order[i]]).Err? {
          return true;
        }
        TakesOne(p, Names(order[..i]), order[i], policy, build);
        TakeField(order[i], p[order[i]], policy);
      }
      AllNames(order, p);
      refused := false;
    }

    // The settings and unknown fields the file gives, before migrations.
    method TakeFile(policy: Policy, order: seq<string>) returns (refused: bool, onboarding: bool)
      requires NamesApart(build.naming) && (files.current.Contents? ==> InKeyOrder(order, files.current.fields))
      modifies this`values, this`passthrough
      ensures refused <==> LoadResult(files.current, policy, build).Err?
      ensures !refused ==>
                LoadResult(files.current, policy, build) == Ok(Settled(values, passthrough, onboarding, policy, build))
    {
      values, passthrough := Defaults(build), map[];
      var file := files.current;
      if file.Contents? && policy.ReadOnly? && file.bytes > MAX_BOOTSTRAP_BYTES {
        file := Unreadable;
      }
      if !file.Contents? {
        return false, false;
      }
      var p := file.fields;
      onboarding := NameOf(Flag(OnboardingCompleted), build) !in p;
      if policy.ReadWrite? && onboarding {
        values := values[Flag(OnboardingCompleted) := Bool(true)];
      }
      StartsTaking(p, policy, build, values);
      refused := TakeFields(p, order, policy);
    }

    /** Loading. `setAside` says whether an unreadable file could be renamed away. */
    method LoadWithPolicy(policy: Policy, order: seq<string>, setAside: bool, io: SaveIo)
      returns (r: Result<(), SettingsError>)
      requires NamesApart(build.naming) && (files.current.Contents? ==> InKeyOrder(order, files.current.fields))
      modifies this
      ensures var result := LoadResult(old(files).current, policy, build);
              var start := Opened(old(files), policy, setAside);
              if result.Err? then r == Err(result.error) && files == old(files)
              else
                var saving := result.value.changed && !start.current.Missing?;
                && values == result.value.values && passthrough == result.value.passthrough
                && files == (if saving then Filed(start, values, passthrough, build, io) else start)
                && r == (if saving && !Saves(start, io) then Err(NotSaved) else Ok(()))
      ensures policy.ReadOnly? ==> files == old(files)
      ensures policy.ReadWrite? && r.Ok? && Sane(build) ==> Valid()
    {
      ghost var file := files.current;
      var refused, onboarding := TakeFile(policy, order);
      if refused {
        return Err(BadCollections(build.collections(files.current.fields[NameOf(List(GameCollections), build)]).error));
      }
      if policy.ReadWrite? && files.current.Unreadable? && setAside {
        files := files.(current := Missing);
      }
      if policy.ReadWrite? && Sane(build) {
        LoadedStands(file, build);
      }
      r := Settle(policy, onboarding, io);
    }
  }

  // What a full load gives is what `set` and `reset` start from.
  lemma {:induction false} LoadedStands(file: File, b: Build)
    requires Sane(b) && LoadResult(file, ReadWrite, b).Ok?
    ensures var loaded := LoadResult(file, ReadWrite, b).value;
            StandingOf(loaded.values, loaded.passthrough, b) == Sound
  {
    LoadedIsProper(file, b);
  }

  // The files once an unreadable one has been set aside.
  function Opened(f: Files, policy: Policy, setAside: bool): Files {
    if policy.ReadWrite? && f.current.Unreadable? && setAside then f.(current := Missing) else f
  }
}
