/** JSON values and the rules settings are normalised by, one value at a time. */
module SettingsValues {
  import opened Prelude
  import opened Numerals

  datatype Num = Integer(n: int) | Floating(x: real)

  datatype Value =
    | Null
    | Bool(b: bool)
    | Number(num: Num)
    | String(s: string)
    | Array(items: seq<Value>)
    | Object(fields: map<string, Value>)

  // What the normalisation asks of its surroundings: which texts are local file URLs, what a
  // proxy address normalises to, which characters are white space, the build's update
  // channel, and the order in which an object's fields are listed.
  datatype Env = Env(
    isFileUrl: string -> bool,
    proxyUrl: string -> Option<string>,
    isSpace: char -> bool,
    channel: string,
    listing: map<string, Value> -> seq<string>)

  ghost predicate Lists(names: seq<string>, fields: map<string, Value>) {
    && (forall i, j :: 0 <= i < j < |names| ==> names[i] != names[j])
    && (forall name :: name in names <==> name in fields)
  }

  ghost predicate ListsFields(env: Env) {
    forall fields: map<string, Value> :: Lists(env.listing(fields), fields)
  }

  const I64_MIN: int := -0x8000_0000_0000_0000
  const I64_MAX: int := 0x7FFF_FFFF_FFFF_FFFF
  const U32_MAX: nat := 0xFFFF_FFFF

  function AsI64(v: Value): Option<int> {
    if v.Number? && v.num.Integer? && I64_MIN <= v.num.n <= I64_MAX then Some(v.num.n) else None
  }

  function AsReal(v: Value): Option<real> {
    if !v.Number? then None else if v.num.Integer? then Some(v.num.n as real) else Some(v.num.x)
  }

  function AsBool(v: Value): Option<bool> {
    if v.Bool? then Some(v.b) else None
  }

  function OrElse<T>(o: Option<T>, other: T): T {
    if o.Some? then o.value else other
  }

  function TextOf(v: Value): string {
    if v.String? then v.s else ""
  }

  function Field(fields: map<string, Value>, name: string): Value {
    if name in fields then fields[name] else Null
  }

  function ClampReal(x: real, low: real, high: real): real {
    if x < low then low else if high < x then high else x
  }

  // ---- The rules ----

  datatype Rule =
    | Free
    | Bounded(bytes: nat)
    | ResolutionText
    | Choice(choices: seq<string>, fallback: string)
    | Whole(low: int, high: int, otherwise: int)
    | Fraction(least: real, most: real, usual: real)
    | OptionalWhole(low: int, high: int)
    | Truncated(chars: nat)
    | FileUrl(bytes: nat)
    | Fixed(text: string)
    | IdList
    | TileSizes
    | Interpolation
    | Shader

  const MAX_IDS: nat := 500
  const MAX_ID_CHARS: nat := 128

  // The text around the first `sep`.
  function SplitOnce(s: string, sep: char): Option<(string, string)> {
    var head := UpTo(s, sep);
    if |head| < |s| then Some((head, s[|head| + 1..])) else None
  }

  predicate ValidSide(side: string, low: nat, high: nat) {
    var n := ParseUnsigned(side, U32_MAX);
    n.Some? && low <= n.value <= high && n.value % 2 == 0
  }

  predicate ValidResolution(s: string) {
    var sides := SplitOnce(s, 'x');
    sides.Some? && ValidSide(sides.value.0, 640, 7680) && ValidSide(sides.value.1, 480, 4320)
  }

  // The identifiers kept of a list of values: texts cut to 128 characters, empty ones dropped.
  function Ids(items: seq<Value>): (ids: seq<Value>)
    ensures |ids| <= |items|
    ensures forall i :: 0 <= i < |ids| ==> ids[i].String? && 0 < |ids[i].s| <= MAX_ID_CHARS
  {
    if items == [] then []
    else
      var last := items[|items| - 1];
      var id := TakeChars(TextOf(last), MAX_ID_CHARS);
      Ids(items[..|items| - 1]) + (if id == "" then [] else [String(id)])
  }

  function FirstIds(items: seq<Value>): seq<Value> {
    if |items| <= MAX_IDS then items else items[..MAX_IDS]
  }

  predicate IsTile(v: Value) {
    v == String("square") || v == String("wide")
  }

  // The pairs kept of an object's fields, in listing order.
  function Tiles(fields: map<string, Value>, names: seq<string>): (tiles: seq<(string, Value)>)
    ensures |tiles| <= |names|
    ensures forall i :: 0 <= i < |tiles| ==> 0 < |tiles[i].0| <= MAX_ID_CHARS && IsTile(tiles[i].1)
  {
    if names == [] then []
    else
      var name := names[|names| - 1];
      var id := TakeChars(name, MAX_ID_CHARS);
      Tiles(fields, names[..|names| - 1])
      + (if id != "" && name in fields && IsTile(fields[name]) then [(id, fields[name])] else [])
  }

  // Collecting pairs into an object: a later pair replaces an earlier one.
  function Collected(pairs: seq<(string, Value)>): (fields: map<string, Value>)
    ensures |fields| <= |pairs|
    ensures forall name :: name in fields ==> exists i :: 0 <= i < |pairs| && pairs[i] == (name, fields[name])
  {
    if pairs == [] then map[]
    else
      var last := pairs[|pairs| - 1];
      var fields := Collected(pairs[..|pairs| - 1]);
      assert |fields[last.0 := last.1]| <= |fields| + 1;
      fields[last.0 := last.1]
  }

  function TileObject(fields: map<string, Value>, names: seq<string>): map<string, Value> {
    var tiles := Tiles(fields, names);
    Collected(if |tiles| <= MAX_IDS then tiles else tiles[..MAX_IDS])
  }

  function KeptTiles(fields: map<string, Value>, env: Env): map<string, Value> {
    TileObject(fields, env.listing(fields))
  }

  function ClampedField(fields: map<string, Value>, name: string, otherwise: int, low: int, high: int): Value {
    Number(Integer(Clamp(OrElse(AsI64(Field(fields, name)), otherwise), low, high)))
  }

  function EnabledField(fields: map<string, Value>): Value {
    Bool(OrElse(AsBool(Field(fields, "enabled")), false))
  }

  function InterpolationOf(fields: map<string, Value>): Value {
    Object(map[
      "enabled" := EnabledField(fields),
      "factor" := ClampedField(fields, "factor", 2, 2, 4),
      "quality" := ClampedField(fields, "quality", 480, 120, 1080)])
  }

  function ShaderOf(fields: map<string, Value>): Value {
    Object(map[
      "enabled" := EnabledField(fields),
      "sharpen" := ClampedField(fields, "sharpen", 40, 0, 100),
      "saturation" := ClampedField(fields, "saturation", 100, 0, 200),
      "contrast" := ClampedField(fields, "contrast", 100, 0, 200),
      "brightness" := ClampedField(fields, "brightness", 100, 0, 200),
      "vibrance" := ClampedField(fields, "vibrance", 0, -100, 100),
      "filmGrain" := ClampedField(fields, "filmGrain", 0, 0, 100)])
  }

  function FieldsOf(v: Value): map<string, Value> {
    if v.Object? then v.fields else map[]
  }

  predicate TooLong(s: string, bytes: nat) {
    ByteLen(s) > bytes || '\0' in s
  }

  function Apply(rule: Rule, v: Value, env: Env): Value {
    match rule
    case Free => v
    case Bounded(bytes) => if v.String? && TooLong(v.s, bytes) then String("") else v
    case ResolutionText => if v.String? && ValidResolution(v.s) then v else String("1920x1080")
    case Choice(choices, fallback) => if v.String? && v.s in choices then v else String(fallback)
    case Whole(low, high, otherwise) => Number(Integer(Clamp(OrElse(AsI64(v), otherwise), low, high)))
    case Fraction(least, most, usual) => Number(Floating(ClampReal(OrElse(AsReal(v), usual), least, most)))
    case OptionalWhole(low, high) =>
      if AsI64(v).Some? then Number(Integer(Clamp(AsI64(v).value, low, high))) else Null
    case Truncated(chars) => String(TakeChars(TextOf(v), chars))
    case FileUrl(bytes) =>
      if TextOf(v) != "" && (ByteLen(TextOf(v)) > bytes || !env.isFileUrl(TextOf(v))) then String("") else v
    case Fixed(text) => String(text)
    case IdList => Array(FirstIds(Ids(if v.Array? then v.items else [])))
    case TileSizes => Object(KeptTiles(FieldsOf(v), env))
    case Interpolation => InterpolationOf(FieldsOf(v))
    case Shader => ShaderOf(FieldsOf(v))
  }

  // Same JSON type as the default; an absent default allows a number.
  predicate SameKind(standard: Value, v: Value) {
    match standard
    case Bool(_) => v.Bool?
    case String(_) => v.String?
    case Number(_) => v.Number?
    case Array(_) => v.Array?
    case Object(_) => v.Object?
    case Null => v.Null? || v.Number?
  }

  // A rule that keeps the type of its setting, with bounds an `i64` can hold.
  predicate RuleFits(rule: Rule, standard: Value) {
    match rule
    case Free => true
    case Whole(low, high, _) => standard.Number? && I64_MIN <= low <= high <= I64_MAX
    case Fraction(least, most, _) => standard.Number? && least <= most
    case OptionalWhole(low, high) => standard.Null? && I64_MIN <= low <= high <= I64_MAX
    case IdList => standard.Array?
    case TileSizes => standard.Object?
    case Interpolation => standard.Object?
    case Shader => standard.Object?
    case _ => standard.String?
  }

  lemma {:induction false} ApplyKeepsKind(rule: Rule, standard: Value, v: Value, env: Env)
    requires RuleFits(rule, standard) && SameKind(standard, v)
    ensures SameKind(standard, Apply(rule, v, env))
  {
  }

  // ---- Applying a rule twice ----

  lemma {:induction false} IdsAgain(ids: seq<Value>)
    requires forall i :: 0 <= i < |ids| ==> ids[i].String? && 0 < |ids[i].s| <= MAX_ID_CHARS
    ensures Ids(ids) == ids
  {
    if ids != [] {
      IdsAgain(ids[..|ids| - 1]);
    }
  }

  lemma {:induction false} TilesAgain(fields: map<string, Value>, names: seq<string>)
    requires forall i :: 0 <= i < |names| ==> names[i] in fields
    requires forall name :: name in fields ==> 0 < |name| <= MAX_ID_CHARS && IsTile(fields[name])
    ensures |Tiles(fields, names)| == |names|
    ensures forall i :: 0 <= i < |names| ==> Tiles(fields, names)[i] == (names[i], fields[names[i]])
  {
    if names != [] {
      TilesAgain(fields, names[..|names| - 1]);
    }
  }

  // Collecting the fields of an object gives those fields back.
  lemma {:induction false} CollectedAgain(
      fields: map<string, Value>, names: seq<string>, pairs: seq<(string, Value)>, name: string)
    requires |pairs| == |names|
    requires forall i :: 0 <= i < |names| ==> names[i] in fields && pairs[i] == (names[i], fields[names[i]])
    ensures name in Collected(pairs) <==> name in names
    ensures name in names ==> Collected(pairs)[name] == fields[name]
    decreases |names|
  {
    if names != [] {
      var init, last := names[..|names| - 1], names[|names| - 1];
      CollectedAgain(fields, init, pairs[..|pairs| - 1], name);
      assert names == init + [last];
      assert pairs[|pairs| - 1] == (last, fields[last]);
    }
  }

  lemma {:induction false} ListingLength(fields: map<string, Value>, names: seq<string>)
    requires Lists(names, fields)
    ensures |names| == |fields|
  {
    if names == [] {
      assert fields == map[];
    } else {
      var last := names[|names| - 1];
      var init := names[..|names| - 1];
      assert names == init + [last];
      ListingLength(fields - {last}, init);
      assert |fields - {last}| == |fields| - 1;
    }
  }

  lemma {:induction false} TileObjectAgain(fields: map<string, Value>, names: seq<string>)
    requires Lists(names, fields) && |fields| <= MAX_IDS
    requires forall name :: name in fields ==> 0 < |name| <= MAX_ID_CHARS && IsTile(fields[name])
    ensures TileObject(fields, names) == fields
  {
    ListingLength(fields, names);
    TilesAgain(fields, names);
    CollectedAll(fields, names, Tiles(fields, names));
  }

  lemma {:induction false} CollectedAll(fields: map<string, Value>, names: seq<string>, pairs: seq<(string, Value)>)
    requires Lists(names, fields) && |pairs| == |names|
    requires forall i :: 0 <= i < |names| ==> pairs[i] == (names[i], fields[names[i]])
    ensures Collected(pairs) == fields
  {
    forall name
      ensures name in Collected(pairs) <==> name in fields
      ensures name in fields ==> Collected(pairs)[name] == fields[name]
    {
      CollectedAgain(fields, names, pairs, name);
    }
  }

  lemma {:induction false} TileObjectIsClean(fields: map<string, Value>, names: seq<string>)
    ensures var tiles := TileObject(fields, names);
            |tiles| <= MAX_IDS && forall name :: name in tiles ==> 0 < |name| <= MAX_ID_CHARS && IsTile(tiles[name])
  {
  }

  lemma {:induction false} TilesTwice(fields: map<string, Value>, env: Env)
    requires ListsFields(env)
    ensures KeptTiles(KeptTiles(fields, env), env) == KeptTiles(fields, env)
  {
    var tiles := KeptTiles(fields, env);
    TileObjectIsClean(fields, env.listing(fields));
    assert Lists(env.listing(tiles), tiles);
    TileObjectAgain(tiles, env.listing(tiles));
  }

  lemma {:induction false} IdsTwice(v: Value, env: Env)
    ensures Apply(IdList, Apply(IdList, v, env), env) == Apply(IdList, v, env)
  {
    IdsAgain(FirstIds(Ids(if v.Array? then v.items else [])));
  }

  lemma {:induction false} ShaderTwice(v: Value, env: Env)
    ensures Apply(Shader, Apply(Shader, v, env), env) == Apply(Shader, v, env)
  {
    ShaderTones(FieldsOf(v));
    ShaderEffects(FieldsOf(v));
  }

  lemma {:induction false} ShaderTones(fields: map<string, Value>)
    ensures var o := ShaderOf(fields).fields;
            && EnabledField(o) == EnabledField(fields)
            && ClampedField(o, "saturation", 100, 0, 200) == ClampedField(fields, "saturation", 100, 0, 200)
            && ClampedField(o, "contrast", 100, 0, 200) == ClampedField(fields, "contrast", 100, 0, 200)
            && ClampedField(o, "brightness", 100, 0, 200) == ClampedField(fields, "brightness", 100, 0, 200)
  {
  }

  lemma {:induction false} ShaderEffects(fields: map<string, Value>)
    ensures var o := ShaderOf(fields).fields;
            && ClampedField(o, "sharpen", 40, 0, 100) == ClampedField(fields, "sharpen", 40, 0, 100)
            && ClampedField(o, "vibrance", 0, -100, 100) == ClampedField(fields, "vibrance", 0, -100, 100)
            && ClampedField(o, "filmGrain", 0, 0, 100) == ClampedField(fields, "filmGrain", 0, 0, 100)
  {
  }

  /** Every rule is idempotent. */
  lemma {:induction false} ApplyTwice(rule: Rule, standard: Value, v: Value, env: Env)
    requires RuleFits(rule, standard) && ListsFields(env)
    ensures Apply(rule, Apply(rule, v, env), env) == Apply(rule, v, env)
  {
    match rule
    case IdList => IdsTwice(v, env);
    case TileSizes => TilesTwice(FieldsOf(v), env);
    case Shader => ShaderTwice(v, env);
    case _ => PlainTwice(rule, standard, v, env);
  }

  lemma {:induction false} PlainTwice(rule: Rule, standard: Value, v: Value, env: Env)
    requires RuleFits(rule, standard) && !rule.IdList? && !rule.TileSizes? && !rule.Shader?
    ensures Apply(rule, Apply(rule, v, env), env) == Apply(rule, v, env)
  {
    match rule
    case Free =>
    case Bounded(_) =>
    case ResolutionText =>
    case Choice(_, _) =>
    case Whole(_, _, _) =>
    case Fraction(_, _, _) =>
    case OptionalWhole(_, _) =>
    case Truncated(_) =>
    case FileUrl(_) =>
    case Fixed(_) =>
    case Interpolation =>
  }
}
