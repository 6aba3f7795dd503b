/** What normalising, loading and changing make of a setting, said by what a caller sees: valid values
stay, others are repaired, each migration does one thing, and a change has its named effects. */
module SettingsMeaning {
  import opened Prelude
  import opened Numerals
  import opened SettingsValues
  import opened SettingsKeys
  import opened Settings
  import opened SettingsStore
  import GC = GameCollections

  // ---- Valid values ----

  // A side of the resolution: an even number within its bounds.
  ghost predicate Side(text: string, low: nat, high: nat) {
    exists n: nat :: ParseUnsigned(text, U32_MAX) == Some(n) && low <= n <= high && n % 2 == 0
  }

  ghost predicate Sides(s: string, width: string, height: string) {
    s == width + "x" + height && 'x' !in width && Side(width, 640, 7680) && Side(height, 480, 4320)
  }

  predicate WholeIn(v: Value, low: int, high: int) {
    v.Number? && v.num.Integer? && low <= v.num.n <= high
  }

  predicate HasWhole(fields: map<string, Value>, name: string, low: int, high: int) {
    name in fields && WholeIn(fields[name], low, high)
  }

  predicate HasFlag(fields: map<string, Value>, name: string) {
    name in fields && fields[name].Bool?
  }

  // The values a rule leaves alone.
  ghost predicate Valid(rule: Rule, v: Value, env: Env) {
    match rule
    case Free => true
    case Bounded(bytes) => v.String? ==> ByteLen(v.s) <= bytes && '\0' !in v.s
    case ResolutionText => v.String? && exists w, h :: Sides(v.s, w, h)
    case Choice(choices, fallback) => v.String? && (v.s in choices || v.s == fallback)
    case Whole(low, high, _) => WholeIn(v, low, high)
    case Fraction(least, most, _) => v.Number? && v.num.Floating? && least <= v.num.x <= most
    case OptionalWhole(low, high) => v.Null? || WholeIn(v, low, high)
    case Truncated(chars) => v.String? && |v.s| <= chars
    case FileUrl(bytes) => !v.String? || v.s == "" || (ByteLen(v.s) <= bytes && env.isFileUrl(v.s))
    case Fixed(text) => v == String(text)
    case IdList =>
      v.Array? && |v.items| <= 500
      && forall i :: 0 <= i < |v.items| ==> v.items[i].String? && 0 < |v.items[i].s| <= 128
    case TileSizes =>
      v.Object? && |v.fields| <= 500
      && forall n :: n in v.fields ==> 0 < |n| <= 128 && v.fields[n] in {String("square"), String("wide")}
    case Interpolation =>
      v.Object? && v.fields.Keys == {"enabled", "factor", "quality"}
      && HasFlag(v.fields, "enabled") && HasWhole(v.fields, "factor", 2, 4) && HasWhole(v.fields, "quality", 120, 1080)
    case Shader => v.Object? && ValidShader(v.fields)
  }

  predicate ValidShader(fields: map<string, Value>) {
    && fields.Keys == {"enabled", "sharpen", "saturation", "contrast", "brightness", "vibrance", "filmGrain"}
    && HasFlag(fields, "enabled") && HasWhole(fields, "sharpen", 0, 100)
    && HasWhole(fields, "saturation", 0, 200) && HasWhole(fields, "contrast", 0, 200)
    && HasWhole(fields, "brightness", 0, 200) && HasWhole(fields, "vibrance", -100, 100)
    && HasWhole(fields, "filmGrain", 0, 100)
  }

  lemma {:induction false} SidesIff(s: string)
    ensures ValidResolution(s) <==> exists w, h :: Sides(s, w, h)
  {
    var head := UpTo(s, 'x');
    UpToEnds(s, 'x');
    if |head| < |s| {
      assert s == head + "x" + s[|head| + 1..];
      if ValidResolution(s) {
        assert Sides(s, head, s[|head| + 1..]);
      }
    }
    if w, h :| Sides(s, w, h) {
      UpToSeparator(w, 'x', h);
      assert w + ['x'] + h == s;
      assert s[|w| + 1..] == h;
    }
  }

  lemma {:induction false} UpToEnds(s: string, sep: char)
    ensures UpTo(s, sep) <= s && (|UpTo(s, sep)| < |s| ==> s[|UpTo(s, sep)|] == sep)
  {
    if s != "" && s[0] != sep {
      UpToEnds(s[1..], sep);
    }
  }

  lemma {:induction false} TilesAreValid(fields: map<string, Value>, env: Env)
    requires ListsFields(env)
    ensures Valid(TileSizes, Object(KeptTiles(fields, env)), env)
    ensures Valid(TileSizes, Object(fields), env) ==> KeptTiles(fields, env) == fields
  {
    TileObjectIsClean(fields, env.listing(fields));
    if Valid(TileSizes, Object(fields), env) {
      TileObjectAgain(fields, env.listing(fields));
    }
  }

  lemma {:induction false} InterpolationIsValid(v: Value, env: Env)
    ensures Valid(Interpolation, Apply(Interpolation, v, env), env)
    ensures Valid(Interpolation, v, env) ==> Apply(Interpolation, v, env) == v
  {
  }

  lemma {:induction false} ShaderMadeValid(fields: map<string, Value>)
    ensures ValidShader(ShaderOf(fields).fields)
  {
  }

  lemma {:induction false} ShaderIsValid(v: Value, env: Env)
    ensures Valid(Shader, Apply(Shader, v, env), env)
    ensures Valid(Shader, v, env) ==> Apply(Shader, v, env) == v
  {
    ShaderMadeValid(FieldsOf(v));
    if Valid(Shader, v, env) {
      ValidShaderStays(v.fields);
    }
  }

  lemma {:induction false} ValidShaderStays(fields: map<string, Value>)
    requires ValidShader(fields)
    ensures ShaderOf(fields) == Object(fields)
  {
    var o := ShaderOf(fields).fields;
    assert o.Keys == fields.Keys;
    forall name | name in fields ensures o[name] == fields[name] {
    }
  }

  // What a rule has to do with one value: make it valid, and leave it alone if it is.
  ghost predicate Repairs(rule: Rule, standard: Value, v: Value, env: Env) {
    && Valid(rule, Apply(rule, v, env), env)
    && (SameKind(standard, v) ==> (Valid(rule, v, env) <==> Apply(rule, v, env) == v))
  }

  lemma {:induction false} ResolutionIsValid(standard: Value, v: Value, env: Env)
    ensures Repairs(ResolutionText, standard, v, env)
  {
    SidesIff(TextOf(v));
    StandardSides();
    SidesIff("1920x1080");
  }

  lemma {:induction false} IdListIsValid(standard: Value, v: Value, env: Env)
    requires standard.Array?
    ensures Repairs(IdList, standard, v, env)
  {
    if Valid(IdList, v, env) {
      IdsAgain(v.items);
    }
  }

  lemma {:induction false} PlainIsValid(rule: Rule, standard: Value, v: Value, env: Env)
    requires RuleFits(rule, standard)
    requires rule.Free? || rule.Bounded? || rule.Choice? || rule.Truncated? || rule.FileUrl? || rule.Fixed?
    ensures Repairs(rule, standard, v, env)
  {
  }

  lemma {:induction false} NumberIsValid(rule: Rule, standard: Value, v: Value, env: Env)
    requires RuleFits(rule, standard) && (rule.Whole? || rule.Fraction? || rule.OptionalWhole?)
    ensures Repairs(rule, standard, v, env)
  {
  }

  /** Validity. Whatever a rule is given it makes valid, and of values of the right type it leaves
      exactly the valid ones as they are. */
  lemma {:induction false} RulesRepair(rule: Rule, standard: Value, v: Value, env: Env)
    requires RuleFits(rule, standard) && ListsFields(env)
    ensures Repairs(rule, standard, v, env)
  {
    match rule
    case ResolutionText => ResolutionIsValid(standard, v, env);
    case IdList => IdListIsValid(standard, v, env);
    case TileSizes => TilesAreValid(FieldsOf(v), env);
    case Interpolation => InterpolationIsValid(v, env);
    case Shader => ShaderIsValid(v, env);
    case Whole(_, _, _) => NumberIsValid(rule, standard, v, env);
    case Fraction(_, _, _) => NumberIsValid(rule, standard, v, env);
    case OptionalWhole(_, _) => NumberIsValid(rule, standard, v, env);
    case _ => PlainIsValid(rule, standard, v, env);
  }

  lemma {:induction false} FourDigits(s: string)
    requires |s| == 4 && forall i :: 0 <= i < 4 ==> IsDigit(s[i])
    ensures var d := (i: int) requires 0 <= i < 4 => s[i] as int - '0' as int;
            ParseUnsigned(s, U32_MAX) == Some(1000 * d(0) + 100 * d(1) + 10 * d(2) + d(3))
  {
    assert s[..3][..2] == s[..2] && s[..2][..1] == s[..1] && s[..1][..0] == "";
    assert DigitsValue("") == Some(0);
    assert DigitsValue(s[..1]).Some? && DigitsValue(s[..2]).Some? && DigitsValue(s[..3]).Some?;
  }

  lemma {:induction false} StandardSide(s: string, n: nat)
    requires (s == "1920" && n == 1920) || (s == "1080" && n == 1080)
    ensures ParseUnsigned(s, U32_MAX) == Some(n)
  {
    FourDigits(s);
  }

  lemma {:induction false} StandardSides()
    ensures exists w, h :: Sides("1920x1080", w, h)
  {
    StandardSide("1920", 1920);
    StandardSide("1080", 1080);
    assert "1920x1080" == "1920" + "x" + "1080";
    assert Side("1920", 640, 7680) && Side("1080", 480, 4320);
    assert Sides("1920x1080", "1920", "1080");
  }

  // ---- Repairs ----

  // The end of the range nearest to a number outside it.
  predicate Nearest(n: int, low: int, high: int, r: int) {
    (n < low && r == low) || (n > high && r == high) || (low <= n <= high && r == n)
  }

  /** Numbers are moved to the nearest valid one; what is no 64-bit integer, or no number, becomes
      what the rule says instead. */
  lemma {:induction false} NumbersMoveNearest(low: int, high: int, otherwise: int, v: Value, env: Env)
    requires low <= high
    ensures var integer := v.Number? && v.num.Integer? && I64_MIN <= v.num.n <= I64_MAX;
            && (exists r :: Apply(Whole(low, high, otherwise), v, env) == Number(Integer(r))
                            && Nearest(if integer then v.num.n else otherwise, low, high, r))
            && (if integer then exists r :: Apply(OptionalWhole(low, high), v, env) == Number(Integer(r))
                                            && Nearest(v.num.n, low, high, r)
                else Apply(OptionalWhole(low, high), v, env) == Null)
  {
    var integer := v.Number? && v.num.Integer? && I64_MIN <= v.num.n <= I64_MAX;
    var n := if integer then v.num.n else otherwise;
    assert Nearest(n, low, high, Clamp(n, low, high));
    assert Apply(Whole(low, high, otherwise), v, env) == Number(Integer(Clamp(n, low, high)));
    if integer {
      assert Apply(OptionalWhole(low, high), v, env) == Number(Integer(Clamp(n, low, high)));
    }
  }

  lemma {:induction false} FractionsMoveNearest(least: real, most: real, usual: real, v: Value, env: Env)
    requires least <= most
    ensures var x := if !v.Number? then usual else if v.num.Integer? then v.num.n as real else v.num.x;
            var r := Apply(Fraction(least, most, usual), v, env);
            && r.Number? && r.num.Floating?
            && (x < least ==> r.num.x == least) && (x > most ==> r.num.x == most)
            && (least <= x <= most ==> r.num.x == x)
  {
  }

  /** Texts that are not valid become empty, the fallback, the only choice, or are cut. */
  lemma {:induction false} TextsAreReplaced(rule: Rule, s: string, env: Env)
    ensures var r := Apply(rule, String(s), env);
            !Valid(rule, String(s), env) ==>
              match rule
              case Bounded(_) => r == String("")
              case FileUrl(_) => r == String("")
              case ResolutionText => r == String("1920x1080")
              case Choice(_, fallback) => r == String(fallback)
              case Fixed(text) => r == String(text)
              case Truncated(chars) => |s| > chars && r == String(s[..chars])
              case _ => true
  {
    if rule.ResolutionText? {
      SidesIff(s);
    }
  }

  // An identifier of a list: a text that is not empty, cut to 128 characters.
  function IdsOfOne(v: Value): seq<Value> {
    if v.String? && v.s != "" then [String(if |v.s| <= 128 then v.s else v.s[..128])] else []
  }

  /** Lists of identifiers: the identifiers of the items one after the other, the first 500. */
  lemma {:induction false} IdsOneByOne(a: seq<Value>, b: seq<Value>)
    ensures Ids(a + b) == Ids(a) + Ids(b)
  {
    if b == [] {
      assert a + b == a;
    } else {
      var init, last := b[..|b| - 1], b[|b| - 1];
      assert a + b == (a + init) + [last] && b == init + [last];
      IdsOneByOne(a, init);
      IdsSnoc(a + init, last);
      IdsSnoc(init, last);
    }
  }

  lemma {:induction false} IdsSnoc(items: seq<Value>, last: Value)
    ensures Ids(items + [last]) == Ids(items) + IdsOfOne(last)
  {
    assert (items + [last])[..|items|] == items;
  }

  lemma {:induction false} IdsOfSingle(v: Value)
    ensures Ids([v]) == IdsOfOne(v)
  {
    IdsSnoc([], v);
    assert [] + [v] == [v];
  }

  lemma {:induction false} FirstIdsAreKept(v: Value, env: Env)
    ensures var r, ids := Apply(IdList, v, env), Ids(if v.Array? then v.items else []);
            r.Array? && r.items <= ids && |r.items| == Min(|ids|, 500)
  {
  }

  // A home tile that can be kept under its own name.
  predicate GoodTile(fields: map<string, Value>, name: string) {
    name in fields && name != "" && fields[name] in {String("square"), String("wide")}
  }

  lemma {:induction false} TilesKept(fields: map<string, Value>, names: seq<string>, name: string)
    requires forall i :: 0 <= i < |names| ==> names[i] in fields && |names[i]| <= 128
    ensures KeptIs(Collected(Tiles(fields, names)), fields, names, name)
  {
    if names != [] {
      var init, last := names[..|names| - 1], names[|names| - 1];
      TilesKept(fields, init, name);
      assert names == init + [last];
      TilesOneMore(fields, init, last);
      CollectedOneMore(Tiles(fields, init), (last, fields[last]));
      KeptOneMore(Collected(Tiles(fields, init)), fields, init, last, name);
    }
  }

  predicate KeptIs(kept: map<string, Value>, fields: map<string, Value>, names: seq<string>, name: string) {
    && (name in kept <==> name in names && GoodTile(fields, name))
    && (name in kept ==> kept[name] == Field(fields, name))
  }

  lemma {:induction false} KeptOneMore(
      kept: map<string, Value>, fields: map<string, Value>, init: seq<string>, last: string, name: string)
    requires KeptIs(kept, fields, init, name) && last in fields
    ensures KeptIs(if GoodTile(fields, last) then kept[last := fields[last]] else kept, fields, init + [last], name)
  {
  }

  lemma {:induction false} TilesOneMore(fields: map<string, Value>, init: seq<string>, last: string)
    requires last in fields && |last| <= 128
    ensures Tiles(fields, init + [last])
         == Tiles(fields, init) + if GoodTile(fields, last) then [(last, fields[last])] else []
  {
    assert (init + [last])[..|init|] == init;
  }

  lemma {:induction false} CollectedOneMore(pairs: seq<(string, Value)>, pair: (string, Value))
    ensures Collected(pairs + [pair]) == Collected(pairs)[pair.0 := pair.1] && Collected(pairs + []) == Collected(pairs)
  {
    assert (pairs + [pair])[..|pairs|] == pairs && pairs + [] == pairs;
  }

  /** Home tiles: of up to 500 with names up to 128 characters the good ones are kept. */
  lemma {:induction false} GoodTilesAreKept(fields: map<string, Value>, env: Env, name: string)
    requires ListsFields(env) && |fields| <= 500 && forall n :: n in fields ==> |n| <= 128
    ensures var r := Apply(TileSizes, Object(fields), env);
            && r.Object? && (name in r.fields <==> GoodTile(fields, name))
            && (name in r.fields ==> r.fields[name] == fields[name])
  {
    var names := env.listing(fields);
    assert Lists(names, fields);
    ListingLength(fields, names);
    TilesKept(fields, names, name);
  }

  /** Records: each field is repaired on its own, and what is missing or of the wrong type gets its
      standard value. */
  lemma {:induction false} RecordsFieldByField(v: Value, env: Env)
    ensures var given := if v.Object? then v.fields else map[];
            var r := Apply(Interpolation, v, env);
            && r.Object? && r.fields.Keys == {"enabled", "factor", "quality"}
            && r.fields["enabled"] == Bool(Field(given, "enabled") == Bool(true))
            && r.fields["factor"] == Apply(Whole(2, 4, 2), Field(given, "factor"), env)
            && r.fields["quality"] == Apply(Whole(120, 1080, 480), Field(given, "quality"), env)
  {
  }

  lemma {:induction false} ShaderFlag(v: Value, env: Env)
    ensures var given := if v.Object? then v.fields else map[];
            var r := Apply(Shader, v, env);
            r.Object? && ValidShader(r.fields) && r.fields["enabled"] == Bool(Field(given, "enabled") == Bool(true))
  {
  }

  lemma {:induction false} ShaderFieldByField(v: Value, env: Env)
    ensures var given := if v.Object? then v.fields else map[];
            var r := Apply(Shader, v, env);
            && r.Object? && ValidShader(r.fields)
            && r.fields["sharpen"] == Apply(Whole(0, 100, 40), Field(given, "sharpen"), env)
            && r.fields["saturation"] == Apply(Whole(0, 200, 100), Field(given, "saturation"), env)
            && r.fields["contrast"] == Apply(Whole(0, 200, 100), Field(given, "contrast"), env)
            && r.fields["brightness"] == Apply(Whole(0, 200, 100), Field(given, "brightness"), env)
            && r.fields["vibrance"] == Apply(Whole(-100, 100, 0), Field(given, "vibrance"), env)
            && r.fields["filmGrain"] == Apply(Whole(0, 100, 0), Field(given, "filmGrain"), env)
  {
    ShaderFlag(v, env);
  }

  // ---- Defaults ----

  /** Normalising keeps every default but the two that are written as integers where the rule makes a
      fraction of them. */
  lemma {:induction false} DefaultsStayIff(k: Key, env: Env)
    requires ListsFields(env)
    ensures Normal(k, Default(k, env), env) == Default(k, env) <==>
            k != Count(MouseSensitivity) && k != Count(StatsOverlayOpacity)
  {
    match k
    case Text(t) => TextDefaultStays(t, env);
    case Count(c) => CountDefaultStaysIff(c, env);
    case Record(HomeTileSizes) => TilesDefaultStays(env);
    case Record(VideoShader) => ShaderDefaultStays(env);
    case Record(FrameInterpolation) => InterpolationDefaultStays(env);
    case _ =>
  }

  lemma {:induction false} CountDefaultStaysIff(c: CountKey, env: Env)
    ensures Apply(CountRule(c), Number(CountDefault(c)), env) == Number(CountDefault(c)) <==>
            c != MouseSensitivity && c != StatsOverlayOpacity
  {
  }

  lemma {:induction false} TilesDefaultStays(env: Env)
    requires ListsFields(env)
    ensures Apply(TileSizes, Object(map[]), env) == Object(map[])
  {
    TilesAreValid(map[], env);
  }

  lemma {:induction false} InterpolationDefaultStays(env: Env)
    ensures Apply(Interpolation, InterpolationOf(map[]), env) == InterpolationOf(map[])
  {
    InterpolationIsValid(Object(map[]), env);
    assert Apply(Interpolation, Object(map[]), env) == InterpolationOf(map[]);
    InterpolationIsValid(InterpolationOf(map[]), env);
  }

  lemma {:induction false} ShaderDefaultStays(env: Env)
    ensures Apply(Shader, ShaderOf(map[]), env) == ShaderOf(map[])
  {
    ShaderTwice(Object(map[]), env);
    assert Apply(Shader, Object(map[]), env) == ShaderOf(map[]);
  }

  lemma {:induction false} TextDefaultStays(t: TextKey, env: Env)
    ensures Apply(TextRule(t, env), String(TextDefault(t, env)), env) == String(TextDefault(t, env))
  {
    var rule, s := TextRule(t, env), TextDefault(t, env);
    if rule.ResolutionText? {
      ResolutionDefault(t, env);
    } else if rule.Choice? {
      ChosenDefault(t, env);
    } else if rule.Truncated? {
      ShortDefault(t, env);
    } else {
      OtherDefault(t, env);
    }
    TextStays(rule, s, env);
  }

  lemma {:induction false} TextStays(rule: Rule, s: string, env: Env)
    requires
      match rule
      case ResolutionText => s == "1920x1080"
      case Choice(choices, fallback) => s == fallback || s in choices
      case Truncated(chars) => |s| <= chars
      case Fixed(text) => s == text
      case FileUrl(_) => s == ""
      case Bounded(_) => s == ""
      case Free => true
      case _ => false
    ensures Apply(rule, String(s), env) == String(s)
  {
  }

  lemma {:induction false} ResolutionDefault(t: TextKey, env: Env)
    requires TextRule(t, env).ResolutionText?
    ensures TextDefault(t, env) == "1920x1080"
  {
  }

  lemma {:induction false} ChosenDefault(t: TextKey, env: Env)
    requires TextRule(t, env).Choice?
    ensures TextDefault(t, env) == TextRule(t, env).fallback || TextDefault(t, env) in TextRule(t, env).choices
  {
  }

  lemma {:induction false} ShortDefault(t: TextKey, env: Env)
    requires TextRule(t, env).Truncated?
    ensures |TextDefault(t, env)| <= 80 <= TextRule(t, env).chars
  {
  }

  lemma {:induction false} OtherDefault(t: TextKey, env: Env)
    requires var rule := TextRule(t, env); !rule.ResolutionText? && !rule.Choice? && !rule.Truncated?
    ensures var rule := TextRule(t, env);
            rule.Free? || TextDefault(t, env) == if rule.Fixed? then rule.text else ""
    ensures TextRule(t, env).Free? || TextRule(t, env).Fixed? || TextRule(t, env).FileUrl? || TextRule(t, env).Bounded?
  {
  }

  /** A value of the wrong type is as good as the default. */
  lemma {:induction false} WrongTypeIsDefault(k: Key, v: Value, env: Env)
    requires !SameKind(Default(k, env), v)
    ensures Normal(k, v, env) == Normal(k, Default(k, env), env)
  {
    RulesFit(k, env);
  }

  /** A value of the right type is repaired by the rule of its setting. */
  lemma {:induction false} RightTypeIsRepaired(k: Key, v: Value, env: Env)
    requires SameKind(Default(k, env), v) && ListsFields(env)
    ensures Valid(RuleOf(k, env), Normal(k, v, env), env)
    ensures Normal(k, v, env) == v <==> Valid(RuleOf(k, env), v, env)
  {
    RulesFit(k, env);
    RulesRepair(RuleOf(k, env), Default(k, env), v, env);
  }
  // ---- Loading ----

  // A full load of these fields that succeeds.
  ghost predicate FullLoad(p: Fields, bytes: nat, b: Build, loaded: Loaded) {
    NamesApart(b.naming) && LoadResult(Contents(p, bytes), ReadWrite, b) == Ok(loaded)
  }

  predicate Has(p: Fields, b: Build, k: Key) {
    NameOf(k, b) in p
  }

  // Settings that one of the migrations is about.
  predicate Migrating(k: Key) {
    k in {
      List(GameCollections), Count(MouseAcceleration), Flag(SwitchToConsoleOnPad), Flag(OnboardingCompleted),
      Flag(ShowSessionTimeRemainingInStatsOverlay), Text(ShortcutToggleFullscreen), Text(ShortcutScreenshot),
      Text(StatsOverlayPosition)}
  }

  // After a full load a setting is normalised from what the migration of the shortcuts leaves, the
  // switch to console mode excepted.
  lemma {:induction false} SettledKeeps(
      values: Values, passthrough: Passthrough, onboarding: bool, b: Build, k: Key)
    requires Total(values) && k != Flag(SwitchToConsoleOnPad)
    ensures Lookup(Settled(values, passthrough, onboarding, ReadWrite, b).values, k)
         == b.normal(k, Lookup(Migrated(values), k))
  {
  }

  lemma {:induction false} MigratedLeaves(values: Values, k: Key)
    requires Total(values)
    requires k !in {Text(ShortcutToggleFullscreen), Text(ShortcutScreenshot), Text(StatsOverlayPosition)}
    ensures Lookup(Migrated(values), k) == values[k]
  {
  }

  lemma {:induction false} Loads(p: Fields, bytes: nat, b: Build, loaded: Loaded, k: Key)
    requires FullLoad(p, bytes, b, loaded) && k != Flag(SwitchToConsoleOnPad)
    requires k !in {Text(ShortcutToggleFullscreen), Text(ShortcutScreenshot), Text(StatsOverlayPosition)}
    ensures Lookup(loaded.values, k) == b.normal(k, Taken(p, p.Keys, k, ReadWrite, b))
  {
    var values := TakenAll(p, p.Keys, ReadWrite, b);
    SettledKeeps(values, PassedThrough(p, p.Keys, b), !Has(p, b, Flag(OnboardingCompleted)), b, k);
    MigratedLeaves(values, k);
  }

  /** Most settings are what the file says, or the default, normalised. */
  lemma {:induction false} PlainLoads(p: Fields, bytes: nat, b: Build, loaded: Loaded, k: Key)
    requires FullLoad(p, bytes, b, loaded) && !Migrating(k)
    ensures Lookup(loaded.values, k) == b.normal(k, if Has(p, b, k) then p[NameOf(k, b)] else b.standard(k))
  {
    Loads(p, bytes, b, loaded, k);
    PlainIsTaken(p, b, k);
  }

  lemma {:induction false} PlainIsTaken(p: Fields, b: Build, k: Key)
    requires !Migrating(k)
    ensures Taken(p, p.Keys, k, ReadWrite, b) == if Has(p, b, k) then p[NameOf(k, b)] else b.standard(k)
  {
  }

  /** Collections are what is accepted of the file's. */
  lemma {:induction false} CollectionsLoad(p: Fields, bytes: nat, b: Build)
    requires NamesApart(b.naming)
    ensures var k, r := List(GameCollections), LoadResult(Contents(p, bytes), ReadWrite, b);
            && (r.Err? <==> Has(p, b, k) && b.collections(p[NameOf(k, b)]).Err?)
            && (r.Err? ==> r.error == BadCollections(b.collections(p[NameOf(k, b)]).error))
            && (r.Ok? ==> Lookup(r.value.values, k)
                          == b.normal(k, if Has(p, b, k) then b.collections(p[NameOf(k, b)]).value else b.standard(k)))
  {
    var r := LoadResult(Contents(p, bytes), ReadWrite, b);
    if r.Ok? {
      Loads(p, bytes, b, r.value, List(GameCollections));
    }
  }

  /** Mouse acceleration was a switch. */
  lemma {:induction false} AccelerationLoads(p: Fields, bytes: nat, b: Build, loaded: Loaded)
    requires FullLoad(p, bytes, b, loaded)
    ensures var k := Count(MouseAcceleration);
            Lookup(loaded.values, k)
            == b.normal(k, if !Has(p, b, k) then b.standard(k)
                           else if p[NameOf(k, b)] == Bool(true) then Number(Integer(100))
                           else if p[NameOf(k, b)] == Bool(false) then Number(Integer(1))
                           else p[NameOf(k, b)])
  {
    Loads(p, bytes, b, loaded, Count(MouseAcceleration));
    AccelerationIsTaken(p, b);
  }

  lemma {:induction false} AccelerationIsTaken(p: Fields, b: Build)
    ensures var k := Count(MouseAcceleration);
            Taken(p, p.Keys, k, ReadWrite, b)
            == if !Has(p, b, k) then b.standard(k)
               else if p[NameOf(k, b)] == Bool(true) then Number(Integer(100))
               else if p[NameOf(k, b)] == Bool(false) then Number(Integer(1))
               else p[NameOf(k, b)]
  {
  }

  /** The session clock had another setting, which counts where the new one is missing. */
  lemma {:induction false} ClockLoads(p: Fields, bytes: nat, b: Build, loaded: Loaded)
    requires FullLoad(p, bytes, b, loaded)
    ensures var k, legacy := Flag(ShowSessionTimeRemainingInStatsOverlay), "sessionTimeRemainingDisplay";
            Lookup(loaded.values, k)
            == b.normal(k, if Has(p, b, k) then p[NameOf(k, b)]
                           else if legacy in p && p[legacy] in {String("stats"), String("both")} then Bool(true)
                           else b.standard(k))
  {
    Loads(p, bytes, b, loaded, Flag(ShowSessionTimeRemainingInStatsOverlay));
    ClockIsTaken(p, b);
  }

  lemma {:induction false} ClockIsTaken(p: Fields, b: Build)
    ensures var k, legacy := Flag(ShowSessionTimeRemainingInStatsOverlay), "sessionTimeRemainingDisplay";
            Taken(p, p.Keys, k, ReadWrite, b)
            == if Has(p, b, k) then p[NameOf(k, b)]
               else if legacy in p && p[legacy] in {String("stats"), String("both")} then Bool(true)
               else b.standard(k)
  {
  }

  /** A file without the onboarding flag comes from someone who has been through it. */
  lemma {:induction false} OnboardingLoads(p: Fields, bytes: nat, b: Build, loaded: Loaded)
    requires FullLoad(p, bytes, b, loaded)
    ensures var k := Flag(OnboardingCompleted);
            Lookup(loaded.values, k) == b.normal(k, if Has(p, b, k) then p[NameOf(k, b)] else Bool(true))
  {
    Loads(p, bytes, b, loaded, Flag(OnboardingCompleted));
    OnboardingIsTaken(p, b);
  }

  lemma {:induction false} OnboardingIsTaken(p: Fields, b: Build)
    ensures var k := Flag(OnboardingCompleted);
            Taken(p, p.Keys, k, ReadWrite, b) == if Has(p, b, k) then p[NameOf(k, b)] else Bool(true)
  {
  }

  // What the file gives a shortcut or the overlay's place.
  function Given(p: Fields, b: Build, k: Key): Value {
    if NameOf(k, b) in p then p[NameOf(k, b)] else b.standard(k)
  }

  // What the migration of the shortcuts makes of them.
  lemma {:induction false} MigratedIs(values: Values)
    requires Total(values)
    ensures var full, shot := Text(ShortcutToggleFullscreen), Text(ShortcutScreenshot);
            var place, next := Text(StatsOverlayPosition), Migrated(values);
            var pair := values[full] == String("F10") && values[shot] == String("F11");
            && Lookup(next, full) == (if pair then String("F11") else values[full])
            && Lookup(next, shot) == (if pair then String("Ctrl+F11") else values[shot])
            && Lookup(next, place) == if pair && values[place] == String("bottom-left") then String("top-right")
                                      else values[place]
  {
  }

  lemma {:induction false} TakenIsGiven(p: Fields, b: Build, k: Key)
    requires k in {Text(ShortcutToggleFullscreen), Text(ShortcutScreenshot), Text(StatsOverlayPosition)}
          || k == Flag(SwitchToConsoleOnPad)
    ensures Taken(p, p.Keys, k, ReadWrite, b) == Given(p, b, k)
  {
  }

  /** The old shortcut pair becomes the new one, and the overlay leaves the corner that went with it;
      without the pair all three stay. */
  lemma {:induction false} ShortcutsLoad(p: Fields, bytes: nat, b: Build, loaded: Loaded)
    requires FullLoad(p, bytes, b, loaded)
    ensures var full, shot := Text(ShortcutToggleFullscreen), Text(ShortcutScreenshot);
            var place := Text(StatsOverlayPosition);
            var pair := Given(p, b, full) == String("F10") && Given(p, b, shot) == String("F11");
            && Lookup(loaded.values, full) == b.normal(full, if pair then String("F11") else Given(p, b, full))
            && Lookup(loaded.values, shot) == b.normal(shot, if pair then String("Ctrl+F11") else Given(p, b, shot))
            && Lookup(loaded.values, place)
               == b.normal(place, if pair && Given(p, b, place) == String("bottom-left") then String("top-right")
                                  else Given(p, b, place))
  {
    var values, passed := TakenAll(p, p.Keys, ReadWrite, b), PassedThrough(p, p.Keys, b);
    var onboarding := !Has(p, b, Flag(OnboardingCompleted));
    SettledKeeps(values, passed, onboarding, b, Text(ShortcutToggleFullscreen));
    SettledKeeps(values, passed, onboarding, b, Text(ShortcutScreenshot));
    SettledKeeps(values, passed, onboarding, b, Text(StatsOverlayPosition));
    TakenIsGiven(p, b, Text(ShortcutToggleFullscreen));
    TakenIsGiven(p, b, Text(ShortcutScreenshot));
    TakenIsGiven(p, b, Text(StatsOverlayPosition));
    MigratedIs(values);
  }

  predicate Marked(p: Fields) {
    "qtConsoleModePolicyVersion" in p && p["qtConsoleModePolicyVersion"] == Number(Integer(1))
  }

  lemma {:induction false} SettledSwitch(values: Values, passthrough: Passthrough, onboarding: bool, b: Build)
    requires Total(values)
    ensures var k, r := Flag(SwitchToConsoleOnPad), Settled(values, passthrough, onboarding, ReadWrite, b);
            && Lookup(r.values, k) == b.normal(k, if Marked(passthrough) then values[k] else Bool(false))
            && (r.changed <==> !Marked(passthrough) || onboarding) && Marked(r.passthrough)
  {
    MigratedLeaves(values, Flag(SwitchToConsoleOnPad));
  }

  lemma {:induction false} MarkIsPassed(p: Fields, b: Build)
    requires NamesApart(b.naming)
    ensures Marked(PassedThrough(p, p.Keys, b)) <==> Marked(p)
  {
  }

  /** Console mode is switched on by a pad only where the file carries the current policy mark; the
      mark is there after the load, and a load that sets it, or that adds the onboarding flag, is to
      be saved. */
  lemma {:induction false} PolicyLoads(p: Fields, bytes: nat, b: Build, loaded: Loaded)
    requires FullLoad(p, bytes, b, loaded)
    ensures var k := Flag(SwitchToConsoleOnPad);
            && Lookup(loaded.values, k) == b.normal(k, if Marked(p) then Given(p, b, k) else Bool(false))
            && (loaded.changed <==> !Marked(p) || !Has(p, b, Flag(OnboardingCompleted)))
            && Marked(loaded.passthrough)
  {
    var values, passed := TakenAll(p, p.Keys, ReadWrite, b), PassedThrough(p, p.Keys, b);
    SettledSwitch(values, passed, !Has(p, b, Flag(OnboardingCompleted)), b);
    MarkIsPassed(p, b);
    TakenIsGiven(p, b, Flag(SwitchToConsoleOnPad));
  }

  /** The other fields of the file are kept as they are, the HDR capability excepted. */
  lemma {:induction false} OthersArePassed(p: Fields, bytes: nat, b: Build, loaded: Loaded, name: string)
    requires FullLoad(p, bytes, b, loaded) && name != POLICY_VERSION
    ensures name in loaded.passthrough <==> name in p && !IsSetting(name, b) && name != "nativeHdrSupported"
    ensures name in loaded.passthrough ==> loaded.passthrough[name] == p[name]
  {
  }

  /** The bootstrap read migrates nothing: settings are what the file says or the default, refused
      collections are the default, and other fields stay. */
  lemma {:induction false} ReadOnlyLoads(p: Fields, bytes: nat, b: Build, k: Key)
    requires NamesApart(b.naming) && bytes <= 0x10_0000
    ensures var r := LoadResult(Contents(p, bytes), ReadOnly, b);
            && r.Ok? && !r.value.changed
            && (k != List(GameCollections) ==> Lookup(r.value.values, k) == b.normal(k, Given(p, b, k)))
            && Lookup(r.value.values, List(GameCollections))
               == b.normal(List(GameCollections),
                           if Has(p, b, List(GameCollections))
                              && b.collections(p[NameOf(List(GameCollections), b)]).Ok?
                           then b.collections(p[NameOf(List(GameCollections), b)]).value
                           else b.standard(List(GameCollections)))
  {
    var values, passed := TakenAll(p, p.Keys, ReadOnly, b), PassedThrough(p, p.Keys, b);
    var onboarding := !Has(p, b, Flag(OnboardingCompleted));
    assert Settled(values, passed, onboarding, ReadOnly, b).values == NormalizedAll(values, b);
  }

  /** Without a file that can be read, a full load gives the defaults. */
  lemma {:induction false} NothingLoads(file: File, b: Build, k: Key)
    requires !file.Contents? && !Migrating(k)
    ensures var r := LoadResult(file, ReadWrite, b);
            r.Ok? && Lookup(r.value.values, k) == b.normal(k, b.standard(k))
  {
    SettledKeeps(Defaults(b), map[], false, b, k);
    MigratedLeaves(Defaults(b), k);
  }

  // ---- Changing ----

  predicate IsText(v: Value, bytes: nat) {
    v.String? && ByteLen(v.s) <= bytes && '\0' !in v.s
  }

  // Why `set` refuses a value for a setting it knows.
  predicate Refuses(values: Values, k: Key, v: Value, b: Build) {
    || (k in {Text(AudioOutputDevice), Text(WindowsGpuDeviceId)} && !IsText(v, 1024))
    || (k == List(GameCollections) && b.collections(v).Err?)
    || (k == Text(SessionProxyUrl)
        && (!v.String? || (GC.Trim(v.s, b.isSpace) != "" && b.proxyUrl(GC.Trim(v.s, b.isSpace)).None?)))
    || (k == Flag(SessionProxyEnabled) && v == Bool(true)
        && b.proxyUrl(TextOf(Lookup(values, Text(SessionProxyUrl)))).None?)
  }

  /** Refusals. `set` fails exactly on a name that is no setting, a device name that is no text or too
      long, collections that are not accepted, a proxy address that is no address, a proxy switched on
      without one, or a save that fails. */
  lemma {:induction false} SetFailsIff(values: Values, name: string, v: Value, saves: bool, b: Build)
    ensures var r, key := SetResult(values, name, v, saves, b), b.naming.named(name);
            && (r.Err? <==> key.None? || Refuses(values, key.value, v, b) || !saves)
            && (key.None? ==> r == Err(UnknownSetting))
            && (key.Some? && !Refuses(values, key.value, v, b) && !saves ==> r == Err(NotSaved))
  {
  }

  // The value `set` stores before normalising.
  ghost predicate Stores(k: Key, v: Value, b: Build, stored: Value) {
    if k == List(GameCollections) then b.collections(v) == Ok(stored)
    else if k == Text(SessionProxyUrl) then
      v.String? && var raw := GC.Trim(v.s, b.isSpace);
      if raw == "" then stored == String("") else exists url :: b.proxyUrl(raw) == Some(url) && stored == String(url)
    else stored == v
  }

  lemma {:induction false} PreparedIs(values: Values, k: Key, v: Value, b: Build)
    requires Prepared(values, k, v, b).Ok?
    ensures Stores(k, v, b, Prepared(values, k, v, b).value)
  {
  }

  /** What was set is there: the value given, a proxy address in its normal form, collections as they
      are accepted, all normalised. */
  lemma {:induction false} SetGives(values: Values, name: string, v: Value, b: Build, k: Key)
    requires Total(values) && NormalizedAll(values, b) == values && b.naming.named(name) == Some(k)
    requires SetResult(values, name, v, true, b).Ok?
    ensures exists stored ::
              Stores(k, v, b, stored) && Lookup(SetResult(values, name, v, true, b).value, k) == b.normal(k, stored)
  {
    var stored := Prepared(values, k, v, b).value;
    PreparedIs(values, k, v, b);
    ChangeTouchesOnly(values, k, stored, b, k);
  }

  // The settings after the value itself, before its side effects.
  lemma {:induction false} NormalizedNext(values: Values, k: Key, v: Value, b: Build, other: Key)
    requires Total(values) && NormalizedAll(values, b) == values
    ensures var next := NormalizedAll(values[k := v], b);
            Total(next) && next[other] == if other == k then b.normal(k, v) else values[other]
  {
    assert NormalizedAll(values, b)[other] == values[other];
  }

  /** Side effects. Voice activation forgets the microphone's device. */
  lemma {:induction false} MicrophoneEffect(values: Values, v: Value, b: Build)
    requires Total(values) && NormalizedAll(values, b) == values
    ensures var k, device := Text(MicrophoneMode), Text(MicrophoneDeviceId);
            Lookup(Changed(values, k, v, b), device)
            == if b.normal(k, v) == String("voice-activity") then String("") else values[device]
  {
    NormalizedNext(values, Text(MicrophoneMode), v, b, Text(MicrophoneMode));
    NormalizedNext(values, Text(MicrophoneMode), v, b, Text(MicrophoneDeviceId));
  }

  /** A theme pack sets light or dark, and ends an accent override. */
  lemma {:induction false} ThemeEffect(values: Values, v: Value, b: Build)
    requires Total(values) && NormalizedAll(values, b) == values
    ensures var k := Text(ThemePack);
            var light := b.normal(k, v) == String("bone") || b.normal(k, v) == String("cobalt");
            && Lookup(Changed(values, k, v, b), Text(AppTheme)) == String(if light then "light" else "dark")
            && Lookup(Changed(values, k, v, b), Flag(ThemeAccentOverride)) == Bool(false)
  {
    NormalizedNext(values, Text(ThemePack), v, b, Text(ThemePack));
    ThemedIs(NormalizedAll(values[Text(ThemePack) := v], b));
  }

  lemma {:induction false} ThemedIs(next: Values)
    requires Total(next)
    ensures var light := next[Text(ThemePack)] == String("bone") || next[Text(ThemePack)] == String("cobalt");
            && Lookup(Adjusted(next, Text(ThemePack)), Text(AppTheme)) == String(if light then "light" else "dark")
            && Lookup(Adjusted(next, Text(ThemePack)), Flag(ThemeAccentOverride)) == Bool(false)
  {
  }

  /** An accent colour begins one. */
  lemma {:induction false} AccentEffect(values: Values, v: Value, b: Build)
    ensures Lookup(Changed(values, Text(AppAccentColor), v, b), Flag(ThemeAccentOverride)) == Bool(true)
  {
  }

  /** Leaving console mode at start-up also ends switching to it by a pad. */
  lemma {:induction false} ConsoleEffect(values: Values, v: Value, b: Build)
    requires Total(values) && NormalizedAll(values, b) == values
    ensures var k, pad := Flag(LaunchInConsoleMode), Flag(SwitchToConsoleOnPad);
            Lookup(Changed(values, k, v, b), pad) == if b.normal(k, v) == Bool(false) then Bool(false) else values[pad]
  {
    NormalizedNext(values, Flag(LaunchInConsoleMode), v, b, Flag(LaunchInConsoleMode));
    NormalizedNext(values, Flag(LaunchInConsoleMode), v, b, Flag(SwitchToConsoleOnPad));
  }
  /** The files after `set`: those of a save of the new settings, unless the change is refused. */
  lemma {:induction false} SetFilesAre(
      f: Files, values: Values, passthrough: Passthrough, name: string, v: Value, io: SaveIo, b: Build)
    ensures var after := FilesAfterSet(f, values, passthrough, name, v, io, b);
            var key := b.naming.named(name);
            if key.None? || Refuses(values, key.value, v, b) then after == f
            else exists next: Values ::
                   && SetResult(values, name, v, true, b) == Ok(next)
                   && after == SavedFiles(f, SavedFile(next, passthrough, b), io)
  {
    SetFailsIff(values, name, v, true, b);
  }
}
