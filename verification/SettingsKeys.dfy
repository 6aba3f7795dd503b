/** The settings known to this build: their defaults and their rules. */
module SettingsKeys {
  import opened SettingsValues

  datatype FlagKey =
    | OnboardingCompleted | ReplayBufferEnabled | NativeExternalRenderer | ShowNativeStreamerStats
    | EnableHdr | SuppressTenBitWarning | SessionProxyEnabled | ClipboardPaste | EnableGyroscopeControls
    | SteamControllerCompatibilityMode | NativeCursorOverlay | HideStreamButtons | MuteWhenOutOfFocus
    | BackgroundStreamReminder | ShowAntiAfkIndicator | ShowStatsOnLaunch | HideServerSelector
    | ThemeAccentOverride | StatsShowFps | StatsShowRegion | StatsShowPing | StatsShowBitrate
    | StatsShowJitter | StatsShowDrops | StatsShowPacketLoss | StatsShowDecode | StatsShowLatency
    | StatsShowVideo | StatsShowClock | StatsShowGraphs | TranslucentUI | ShowTileLabels | ControllerMode
    | ControllerModePromptDismissed | ReducedMotion | LaunchInConsoleMode | ConsoleProfilePickerOnLaunch
    | DesktopRailCollapsed | DesktopSidebarHover | SwitchToConsoleOnPad | LeaveConsoleOnPointer
    | AutoFullScreen | SessionCounterEnabled | ShowSessionReport | ShowSessionTimeRemainingInStatsOverlay
    | EnablePersistingInGameSettings | EnableL4S | IdentifyAsSteamDeck | SteamBigPictureMode
    | EnableCloudGsync | DiscordRichPresence | AutoCheckForUpdates | AutoDownloadUpdates
    | AllowEscapeToExitFullscreen

  datatype TextKey =
    | Resolution | AspectRatio | FrameGeneration | Upscaling | RecordingResolution | StreamClientMode
    | NativeVideoBackend | NativeStreamerExecutablePath | AudioOutputDevice | WindowsGpuDeviceId
    | NativeCloudGsyncMode | NativeD3dFullscreenMode | TransportMode | Codec | FallbackCodec
    | DecoderPreference | EncoderPreference | ColorQuality | Region | SessionProxyUrl | ShortcutToggleStats
    | ShortcutTogglePointerLock | ShortcutToggleFullscreen | ShortcutStopStream | ShortcutToggleAntiAfk
    | ShortcutToggleMicrophone | ShortcutScreenshot | ShortcutToggleRecording | ShortcutSaveClip
    | MicrophoneMode | MicrophoneDeviceId | StatsOverlayPosition | AppAccentColor | AppTheme | AppLanguage
    | ThemePack | DesktopBackground | DesktopBackgroundImage | KeyboardLayout | GameLanguage | UpdateChannel
    | LastSeenReleaseHighlightsVersion | ErrorReportingConsent | TelemetryInstallId

  datatype CountKey =
    | PosterSizeScale | Fps | UpscalingSharpness | UpscalingDenoise | MaxBitrateMbps | RecordingFps
    | ReplayBufferSeconds | ReplayBufferMemoryMiB | MouseSensitivity | MouseAcceleration
    | AntiAfkReminderEveryMinutes | AntiAfkReminderDurationSeconds | DesktopUiScale | StatsOverlayScale
    | StatsOverlayOpacity | ControllerLeftStickDeadzone | ControllerRightStickDeadzone
    | ControllerVibrationIntensity | DesktopBackgroundOpacity | SessionClockShowEveryMinutes
    | SessionClockShowDurationSeconds | WindowWidth | WindowHeight

  datatype OptionalKey =
    | RecordingBitrateMbps

  datatype ListKey =
    | FavoriteGameIds | HiddenGameIds | GameCollections

  datatype RecordKey =
    | HomeTileSizes | VideoShader | FrameInterpolation

  // A setting, by the JSON type of its default.
  datatype Key =
    | Flag(flag: FlagKey)
    | Text(text: TextKey)
    | Count(count: CountKey)
    | Optional(optional: OptionalKey)
    | List(list: ListKey)
    | Record(record: RecordKey)

  predicate FlagDefault(k: FlagKey) {
    k in {
      NativeCursorOverlay, ShowAntiAfkIndicator, StatsShowFps, StatsShowRegion, StatsShowPing,
      StatsShowBitrate, StatsShowJitter, StatsShowDrops, StatsShowPacketLoss, StatsShowDecode,
      StatsShowLatency, StatsShowVideo, StatsShowClock, StatsShowGraphs, ShowTileLabels, ControllerMode,
      ConsoleProfilePickerOnLaunch, DesktopRailCollapsed, DesktopSidebarHover, LeaveConsoleOnPointer,
      AutoFullScreen, ShowSessionReport, EnablePersistingInGameSettings, AutoCheckForUpdates}
  }

  function TextDefault(k: TextKey, env: Env): string {
    match k
    case Resolution => "1920x1080"
    case AspectRatio => "16:9"
    case FrameGeneration => "off"
    case Upscaling => "off"
    case RecordingResolution => "720p"
    case StreamClientMode => "native"
    case NativeVideoBackend => "auto"
    case NativeCloudGsyncMode => "auto"
    case NativeD3dFullscreenMode => "auto"
    case TransportMode => "nvst"
    case Codec => "auto"
    case FallbackCodec => "auto"
    case DecoderPreference => "auto"
    case EncoderPreference => "auto"
    case ColorQuality => "8bit_420"
    case ShortcutToggleStats => "Ctrl+N"
    case ShortcutTogglePointerLock => "F8"
    case ShortcutToggleFullscreen => "F11"
    case ShortcutStopStream => "Ctrl+Shift+Q"
    case ShortcutToggleAntiAfk => "Ctrl+Shift+K"
    case ShortcutToggleMicrophone => "Ctrl+Shift+M"
    case ShortcutScreenshot => "Ctrl+F11"
    case ShortcutToggleRecording => "F12"
    case ShortcutSaveClip => "Ctrl+F12"
    case MicrophoneMode => "disabled"
    case StatsOverlayPosition => "top-right"
    case AppAccentColor => "green"
    case AppTheme => "auto"
    case AppLanguage => "system"
    case ThemePack => "nocturne"
    case DesktopBackground => "art"
    case KeyboardLayout => "en-US"
    case GameLanguage => "en_US"
    case UpdateChannel => env.channel
    case ErrorReportingConsent => "unset"
    case _ => ""
  }

  function CountDefault(k: CountKey): Num {
    match k
    case PosterSizeScale => Floating(1.05)
    case Fps => Integer(60)
    case UpscalingSharpness => Integer(10)
    case UpscalingDenoise => Integer(0)
    case MaxBitrateMbps => Integer(75)
    case RecordingFps => Integer(30)
    case ReplayBufferSeconds => Integer(30)
    case ReplayBufferMemoryMiB => Integer(256)
    case MouseSensitivity => Integer(1)
    case MouseAcceleration => Integer(1)
    case AntiAfkReminderEveryMinutes => Integer(15)
    case AntiAfkReminderDurationSeconds => Integer(5)
    case DesktopUiScale => Floating(1.0)
    case StatsOverlayScale => Floating(1.0)
    case StatsOverlayOpacity => Integer(85)
    case ControllerLeftStickDeadzone => Integer(5)
    case ControllerRightStickDeadzone => Integer(5)
    case ControllerVibrationIntensity => Integer(100)
    case DesktopBackgroundOpacity => Integer(30)
    case SessionClockShowEveryMinutes => Integer(60)
    case SessionClockShowDurationSeconds => Integer(30)
    case WindowWidth => Integer(1400)
    case WindowHeight => Integer(900)
  }

  function Default(k: Key, env: Env): Value {
    match k
    case Flag(f) => Bool(FlagDefault(f))
    case Text(t) => String(TextDefault(t, env))
    case Count(c) => Number(CountDefault(c))
    case Optional(_) => Null
    case List(_) => Array([])
    case Record(HomeTileSizes) => Object(map[])
    case Record(VideoShader) => ShaderOf(map[])
    case Record(FrameInterpolation) => InterpolationOf(map[])
  }

  function TextRule(k: TextKey, env: Env): Rule {
    match k
    case Resolution => ResolutionText
    case AspectRatio => Choice(["16:9", "16:10", "21:9", "32:9", "4:3"], "16:9")
    case FrameGeneration => Choice(["off", "2x", "auto"], "off")
    case Upscaling => Choice(["off", "metalfx", "fsr1"], "off")
    case RecordingResolution => Choice(["720p", "1080p", "1440p"], "720p")
    case StreamClientMode => Choice(["native"], "native")
    case NativeVideoBackend =>
      Choice(["auto", "d3d11", "d3d12", "nvdec", "cuda", "vaapi", "v4l2", "vulkan", "videotoolbox", "software"], "auto")
    case NativeStreamerExecutablePath => Truncated(2048)
    case AudioOutputDevice => Bounded(1024)
    case WindowsGpuDeviceId => Bounded(1024)
    case NativeCloudGsyncMode => Choice(["auto", "disabled", "forced"], "auto")
    case NativeD3dFullscreenMode => Choice(["auto", "disabled", "forced"], "auto")
    case TransportMode => Fixed("nvst")
    case Codec => Choice(["auto", "av1", "h264", "h265"], "auto")
    case FallbackCodec => Choice(["auto", "h264", "h265"], "auto")
    case DecoderPreference => Choice(["auto", "hardware", "software"], "auto")
    case EncoderPreference => Choice(["auto", "hardware", "software"], "auto")
    case ColorQuality => Choice(["8bit_420", "10bit_420", "8bit_444", "10bit_444"], "8bit_420")
    case Region => Truncated(256)
    case SessionProxyUrl => Truncated(2048)
    case ShortcutToggleStats => Truncated(80)
    case ShortcutTogglePointerLock => Truncated(80)
    case ShortcutToggleFullscreen => Truncated(80)
    case ShortcutStopStream => Truncated(80)
    case ShortcutToggleAntiAfk => Truncated(80)
    case ShortcutToggleMicrophone => Truncated(80)
    case ShortcutScreenshot => Truncated(80)
    case ShortcutToggleRecording => Truncated(80)
    case ShortcutSaveClip => Truncated(80)
    case MicrophoneMode => Choice(["disabled", "voice-activity"], "disabled")
    case MicrophoneDeviceId => Truncated(512)
    case StatsOverlayPosition => Choice(["bottom-left", "bottom-right", "top-left", "top-right"], "bottom-left")
    case AppAccentColor => Choice(["green", "blue", "violet", "amber", "rose", "coral", "white"], "green")
    case AppTheme => Choice(["light", "dark", "auto"], "auto")
    case AppLanguage =>
      Choice(["system", "de", "en", "es", "fr", "ja", "ko", "nl", "pl", "ro", "ru", "tr", "zh"], "system")
    case ThemePack =>
      Choice(["default", "nocturne", "aurora", "kraft", "phosphor", "bone", "cobalt", "hibiscus", "chapel"], "nocturne")
    case DesktopBackground => Choice(["art", "gradient", "solid", "custom"], "art")
    case DesktopBackgroundImage => FileUrl(8192)
    case UpdateChannel => Choice(["stable", "nightly"], env.channel)
    case LastSeenReleaseHighlightsVersion => Truncated(128)
    case TelemetryInstallId => Truncated(128)
    case _ => Free
  }

  function CountRule(k: CountKey): Rule {
    match k
    case PosterSizeScale => Fraction(0.75, 1.5, 1.05)
    case Fps => Whole(30, 240, 60)
    case UpscalingSharpness => Whole(0, 15, 10)
    case UpscalingDenoise => Whole(0, 20, 0)
    case MaxBitrateMbps => Whole(1, 200, 75)
    case RecordingFps => Whole(30, 60, 30)
    case ReplayBufferSeconds => Whole(15, 120, 30)
    case ReplayBufferMemoryMiB => Whole(64, 512, 256)
    case MouseSensitivity => Fraction(0.1, 3.0, 1.0)
    case MouseAcceleration => Whole(1, 150, 1)
    case AntiAfkReminderEveryMinutes => Whole(1, 120, 15)
    case AntiAfkReminderDurationSeconds => Whole(1, 60, 5)
    case DesktopUiScale => Fraction(0.85, 1.25, 1.0)
    case StatsOverlayScale => Fraction(0.85, 1.5, 1.0)
    case StatsOverlayOpacity => Fraction(40.0, 100.0, 85.0)
    case ControllerLeftStickDeadzone => Whole(0, 50, 5)
    case ControllerRightStickDeadzone => Whole(0, 50, 5)
    case ControllerVibrationIntensity => Whole(0, 100, 100)
    case DesktopBackgroundOpacity => Whole(0, 100, 30)
    case SessionClockShowEveryMinutes => Whole(1, 240, 60)
    case SessionClockShowDurationSeconds => Whole(1, 120, 30)
    case WindowWidth => Whole(960, 7680, 1400)
    case WindowHeight => Whole(540, 4320, 900)
  }

  // `normalize`, setting by setting. No setting has two rules, so their order is free.
  function RuleOf(k: Key, env: Env): Rule {
    match k
    case Flag(_) => Free
    case Text(t) => TextRule(t, env)
    case Count(c) => CountRule(c)
    case Optional(_) => OptionalWhole(1, 12)
    case List(GameCollections) => Free
    case List(_) => IdList
    case Record(HomeTileSizes) => TileSizes
    case Record(VideoShader) => Shader
    case Record(FrameInterpolation) => Interpolation
  }

  lemma {:induction false} TextRuleFits(k: TextKey, env: Env)
    ensures RuleFits(TextRule(k, env), String(TextDefault(k, env)))
  {
  }

  lemma {:induction false} CountRuleFits(k: CountKey)
    ensures RuleFits(CountRule(k), Number(CountDefault(k)))
  {
  }

  lemma {:induction false} RulesFit(k: Key, env: Env)
    ensures RuleFits(RuleOf(k, env), Default(k, env)) && SameKind(Default(k, env), Default(k, env))
  {
    match k
    case Text(t) => TextRuleFits(t, env);
    case Count(c) => CountRuleFits(c);
    case _ =>
  }

  function Lookup(values: map<Key, Value>, k: Key): Value {
    if k in values then values[k] else Null
  }

  // What `normalize` makes of one setting: the default if its type is wrong, then its rule.
  function Normal(k: Key, v: Value, env: Env): Value {
    Apply(RuleOf(k, env), Typed(k, v, env), env)
  }

  function Typed(k: Key, v: Value, env: Env): Value {
    if SameKind(Default(k, env), v) then v else Default(k, env)
  }

  lemma {:induction false} NormalTwice(k: Key, v: Value, env: Env)
    requires ListsFields(env)
    ensures Normal(k, Normal(k, v, env), env) == Normal(k, v, env)
  {
    RulesFit(k, env);
    ApplyKeepsKind(RuleOf(k, env), Default(k, env), Typed(k, v, env), env);
    ApplyTwice(RuleOf(k, env), Default(k, env), Typed(k, v, env), env);
  }

  // All settings of the build.
  function AllKeys(): set<Key> {
    (set f: FlagKey | true :: Flag(f)) + (set t: TextKey | true :: Text(t)) + (set c: CountKey | true :: Count(c))
    + (set o: OptionalKey | true :: Optional(o)) + (set l: ListKey | true :: List(l))
    + (set r: RecordKey | true :: Record(r))
  }

  lemma {:induction false} AllKeysAreAll()
    ensures forall k: Key :: k in AllKeys()
  {
    forall k: Key ensures k in AllKeys() {
      match k
      case Flag(_) =>
      case Text(_) =>
      case Count(_) =>
      case Optional(_) =>
      case List(_) =>
      case Record(_) =>
    }
  }
}
