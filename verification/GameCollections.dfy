/** The one setting that is rejected rather than repaired: the player's game collections. */
module GameCollections {
  import opened Prelude
  import opened SettingsValues

  const MAX_COLLECTIONS: nat := 100
  const MAX_GAMES: nat := 10_000
  const MAX_NAME_CHARS: nat := 80

  datatype Refusal = NotAnArray | TooManyCollections | Malformed | ExtraFields | BadId | RepeatedId | BadName
                   | TooManyGames | BadGameId | RepeatedGameId

  type Space = char -> bool

  // `trim`
  function TrimStart(s: string, space: Space): (t: string)
    ensures |t| <= |s|
  {
    if s != "" && space(s[0]) then TrimStart(s[1..], space) else s
  }

  function TrimEnd(s: string, space: Space): (t: string)
    ensures |t| <= |s|
  {
    if s != "" && space(s[|s| - 1]) then TrimEnd(s[..|s| - 1], space) else s
  }

  function Trim(s: string, space: Space): (t: string)
    ensures |t| <= |s|
  {
    TrimEnd(TrimStart(s, space), space)
  }

  lemma {:induction false} TrimStartEdge(s: string, space: Space)
    ensures var t := TrimStart(s, space); t == "" || !space(t[0])
  {
    if s != "" && space(s[0]) {
      TrimStartEdge(s[1..], space);
    }
  }

  lemma {:induction false} TrimEndEdges(s: string, space: Space)
    ensures var t := TrimEnd(s, space); t == "" || (!space(t[|t| - 1]) && t[0] == s[0])
  {
    if s != "" && space(s[|s| - 1]) {
      TrimEndEdges(s[..|s| - 1], space);
    }
  }

  /** Trimming twice is trimming once. */
  lemma {:induction false} TrimTwice(s: string, space: Space)
    ensures Trim(Trim(s, space), space) == Trim(s, space)
  {
    TrimStartEdge(s, space);
    TrimEndEdges(TrimStart(s, space), space);
  }

  function GamesRefused(games: seq<Value>, seen: set<string>, space: Space): Option<Refusal> {
    if games == [] then None
    else if !games[0].String? || Trim(games[0].s, space) == "" || |games[0].s| > MAX_ID_CHARS then Some(BadGameId)
    else if games[0].s in seen then Some(RepeatedGameId)
    else GamesRefused(games[1..], seen + {games[0].s}, space)
  }

  // One collection, with its name trimmed.
  function Collection(v: Value, seen: set<string>, space: Space): Result<Value, Refusal> {
    if !v.Object? then Err(Malformed)
    else if |v.fields| != 3 then Err(ExtraFields)
    else if !Field(v.fields, "id").String? then Err(Malformed)
    else
      var id := Field(v.fields, "id").s;
      if Trim(id, space) == "" || |id| > MAX_ID_CHARS then Err(BadId)
      else if id in seen then Err(RepeatedId)
      else if !Field(v.fields, "name").String? then Err(Malformed)
      else
        var name := Trim(Field(v.fields, "name").s, space);
        if name == "" || |name| > MAX_NAME_CHARS then Err(BadName)
        else if !Field(v.fields, "gameIds").Array? then Err(Malformed)
        else
          var games := Field(v.fields, "gameIds").items;
          if |games| > MAX_GAMES then Err(TooManyGames)
          else
            var refused := GamesRefused(games, {}, space);
            if refused.Some? then Err(refused.value) else Ok(Object(v.fields["name" := String(name)]))
  }

  function IdOf(v: Value): string {
    TextOf(Field(FieldsOf(v), "id"))
  }

  function CollectionsFrom(items: seq<Value>, seen: set<string>, space: Space): (r: Result<seq<Value>, Refusal>)
    ensures r.Ok? ==> |r.value| == |items|
    decreases |items|
  {
    if items == [] then Ok([])
    else
      var first := Collection(items[0], seen, space);
      if first.Err? then Err(first.error)
      else
        var rest := CollectionsFrom(items[1..], seen + {IdOf(items[0])}, space);
        if rest.Err? then rest else Ok([first.value] + rest.value)
  }

  // `normalize_game_collections`
  function Normalized(v: Value, space: Space): Result<Value, Refusal> {
    if !v.Array? then Err(NotAnArray)
    else if |v.items| > MAX_COLLECTIONS then Err(TooManyCollections)
    else
      var items := CollectionsFrom(v.items, {}, space);
      if items.Err? then Err(items.error) else Ok(Array(items.value))
  }

  lemma {:induction false} CollectionAgain(v: Value, seen: set<string>, space: Space)
    requires Collection(v, seen, space).Ok?
    ensures var w := Collection(v, seen, space).value;
            Collection(w, seen, space) == Ok(w) && IdOf(w) == IdOf(v)
  {
    var name := Trim(Field(v.fields, "name").s, space);
    TrimTwice(Field(v.fields, "name").s, space);
    var fields := v.fields["name" := String(name)];
    assert "name" in v.fields;
    assert |fields| == |v.fields| by { assert fields.Keys == v.fields.Keys; }
    assert Field(fields, "id") == Field(v.fields, "id") && Field(fields, "gameIds") == Field(v.fields, "gameIds");
    assert fields["name" := String(name)] == fields;
  }

  lemma {:induction false} CollectionsAgain(items: seq<Value>, seen: set<string>, space: Space)
    requires CollectionsFrom(items, seen, space).Ok?
    ensures var kept := CollectionsFrom(items, seen, space).value;
            CollectionsFrom(kept, seen, space) == Ok(kept)
    decreases |items|
  {
    if items != [] {
      CollectionAgain(items[0], seen, space);
      CollectionsAgain(items[1..], seen + {IdOf(items[0])}, space);
      var kept := CollectionsFrom(items, seen, space).value;
      assert kept[1..] == CollectionsFrom(items[1..], seen + {IdOf(items[0])}, space).value;
    }
  }

  /** Collections that were accepted are accepted again, unchanged. */
  lemma {:induction false} NormalizedAgain(v: Value, space: Space)
    requires Normalized(v, space).Ok?
    ensures Normalized(Normalized(v, space).value, space) == Normalized(v, space)
  {
    CollectionsAgain(v.items, {}, space);
  }

  /** Accepted collections have distinct, usable ids. */
  lemma {:induction false} AcceptedIdsDistinct(items: seq<Value>, seen: set<string>, space: Space)
    requires CollectionsFrom(items, seen, space).Ok?
    ensures forall i :: 0 <= i < |items| ==> IdOf(items[i]) !in seen && Trim(IdOf(items[i]), space) != ""
    ensures forall i, j :: 0 <= i < j < |items| ==> IdOf(items[i]) != IdOf(items[j])
  {
    forall i | 0 <= i < |items| ensures IdOf(items[i]) !in seen && Trim(IdOf(items[i]), space) != "" {
      AcceptedIdIsNew(items, seen, space, i);
    }
    forall i, j | 0 <= i < j < |items| ensures IdOf(items[i]) != IdOf(items[j]) {
      AcceptedIdsDiffer(items, seen, space, i, j);
    }
  }

  lemma {:induction false} AcceptedIdIsNew(items: seq<Value>, seen: set<string>, space: Space, i: nat)
    requires CollectionsFrom(items, seen, space).Ok? && i < |items|
    ensures IdOf(items[i]) !in seen && Trim(IdOf(items[i]), space) != ""
    decreases i
  {
    if i > 0 {
      AcceptedIdIsNew(items[1..], seen + {IdOf(items[0])}, space, i - 1);
    }
  }

  lemma {:induction false} AcceptedIdsDiffer(items: seq<Value>, seen: set<string>, space: Space, i: nat, j: nat)
    requires CollectionsFrom(items, seen, space).Ok? && i < j < |items|
    ensures IdOf(items[i]) != IdOf(items[j])
    decreases i
  {
    if i == 0 {
      AcceptedIdIsNew(items[1..], seen + {IdOf(items[0])}, space, j - 1);
    } else {
      AcceptedIdsDiffer(items[1..], seen + {IdOf(items[0])}, space, i - 1, j - 1);
    }
  }

  // ---- What is accepted ----

  ghost predicate AllSpace(s: string, space: Space) {
    forall i :: 0 <= i < |s| ==> space(s[i])
  }

  // What trimming takes away and what it leaves.
  ghost predicate Around(s: string, before: string, inner: string, after: string, space: Space) {
    && s == before + inner + after && AllSpace(before, space) && AllSpace(after, space)
    && (inner != "" ==> !space(inner[0]) && !space(inner[|inner| - 1]))
  }

  lemma {:induction false} TrimStartIs(s: string, space: Space) returns (before: string)
    ensures s == before + TrimStart(s, space) && AllSpace(before, space)
  {
    before := "";
    if s != "" && space(s[0]) {
      var rest := TrimStartIs(s[1..], space);
      before := [s[0]] + rest;
      assert s == [s[0]] + s[1..];
    }
  }

  lemma {:induction false} TrimEndIs(s: string, space: Space) returns (after: string)
    ensures s == TrimEnd(s, space) + after && AllSpace(after, space)
  {
    after := "";
    if s != "" && space(s[|s| - 1]) {
      var rest := TrimEndIs(s[..|s| - 1], space);
      after := rest + [s[|s| - 1]];
      assert s == s[..|s| - 1] + [s[|s| - 1]];
    }
  }

  /** Trimming takes away white space at both ends and nothing else. */
  lemma {:induction false} TrimIs(s: string, space: Space)
    ensures exists before, after :: Around(s, before, Trim(s, space), after, space)
  {
    var before := TrimStartIs(s, space);
    var start := TrimStart(s, space);
    var after := TrimEndIs(start, space);
    TrimStartEdge(s, space);
    TrimEndEdges(start, space);
    Regrouped(before, Trim(s, space), after);
    assert Around(s, before, Trim(s, space), after, space);
  }

  // A text with something in it, at most 128 characters long.
  predicate UsableId(v: Value, space: Space) {
    v.String? && Trim(v.s, space) != "" && |v.s| <= 128
  }

  ghost predicate UsableGames(games: seq<Value>, space: Space) {
    && (forall i :: 0 <= i < |games| ==> UsableId(games[i], space))
    && (forall i, j :: 0 <= i < j < |games| ==> games[i] != games[j])
  }

  lemma {:induction false} GamesAcceptedIff(games: seq<Value>, seen: set<string>, space: Space)
    ensures GamesRefused(games, seen, space).None? <==>
            UsableGames(games, space) && forall i :: 0 <= i < |games| ==> TextOf(games[i]) !in seen
  {
    if games != [] {
      var rest := games[1..];
      GamesAcceptedIff(rest, seen + {TextOf(games[0])}, space);
      assert forall i :: 0 <= i < |rest| ==> rest[i] == games[i + 1];
      assert forall i :: 1 <= i < |games| ==> games[i] == rest[i - 1];
    }
  }

  // A collection: an id, a name and the ids of its games, and nothing more.
  ghost predicate Usable(v: Value, space: Space) {
    && v.Object? && v.fields.Keys == {"id", "name", "gameIds"} && UsableId(v.fields["id"], space)
    && v.fields["name"].String? && 0 < |Trim(v.fields["name"].s, space)| <= 80
    && v.fields["gameIds"].Array? && |v.fields["gameIds"].items| <= 10_000
    && UsableGames(v.fields["gameIds"].items, space)
  }

  // The collection with its name trimmed.
  function Tidied(v: Value, space: Space): Value
    requires v.Object? && "name" in v.fields && v.fields["name"].String?
  {
    Object(v.fields["name" := String(Trim(v.fields["name"].s, space))])
  }

  lemma {:induction false} ThreeFields(fields: map<string, Value>)
    requires "id" in fields && "name" in fields && "gameIds" in fields
    ensures |fields| == 3 <==> fields.Keys == {"id", "name", "gameIds"}
  {
    var three := {"id", "name", "gameIds"};
    assert three <= fields.Keys && |three| == 3;
    if |fields| == 3 {
      SameSize(three, fields.Keys);
    }
  }

  lemma {:induction false} SameSize(a: set<string>, b: set<string>)
    requires a <= b && |a| == |b|
    ensures a == b
  {
    if x :| x in b && x !in a {
      Smaller(a, b - {x});
    }
  }

  lemma {:induction false} Smaller(a: set<string>, b: set<string>)
    requires a <= b
    ensures |a| <= |b|
  {
    if x :| x in a {
      Smaller(a - {x}, b - {x});
    }
  }

  lemma {:induction false} CollectionIff(v: Value, seen: set<string>, space: Space)
    ensures Collection(v, seen, space).Ok? <==> Usable(v, space) && IdOf(v) !in seen
    ensures Usable(v, space) && IdOf(v) !in seen ==>
              Collection(v, seen, space) == Ok(Tidied(v, space))
  {
    if v.Object? && "id" in v.fields && "name" in v.fields && "gameIds" in v.fields {
      ThreeFields(v.fields);
      if v.fields["gameIds"].Array? {
        GamesAcceptedIff(v.fields["gameIds"].items, {}, space);
      }
    }
  }

  ghost predicate AllUsable(items: seq<Value>, seen: set<string>, space: Space) {
    && (forall i :: 0 <= i < |items| ==> Usable(items[i], space) && IdOf(items[i]) !in seen)
    && (forall i, j :: 0 <= i < j < |items| ==> IdOf(items[i]) != IdOf(items[j]))
  }

  lemma {:induction false} AllUsableStep(items: seq<Value>, seen: set<string>, space: Space)
    requires items != []
    ensures AllUsable(items, seen, space) <==>
            Usable(items[0], space) && IdOf(items[0]) !in seen && AllUsable(items[1..], seen + {IdOf(items[0])}, space)
  {
    var rest := items[1..];
    assert forall i :: 0 <= i < |rest| ==> rest[i] == items[i + 1];
    assert forall i :: 1 <= i < |items| ==> items[i] == rest[i - 1];
  }

  lemma {:induction false} CollectionsFromIff(items: seq<Value>, seen: set<string>, space: Space)
    ensures CollectionsFrom(items, seen, space).Ok? <==> AllUsable(items, seen, space)
    decreases |items|
  {
    if items != [] {
      CollectionIff(items[0], seen, space);
      CollectionsFromIff(items[1..], seen + {IdOf(items[0])}, space);
      AllUsableStep(items, seen, space);
    }
  }

  lemma {:induction false} AcceptedAt(items: seq<Value>, seen: set<string>, space: Space, i: nat)
    requires CollectionsFrom(items, seen, space).Ok? && i < |items| && Usable(items[i], space)
    ensures CollectionsFrom(items, seen, space).value[i]
         == Tidied(items[i], space)
    decreases i
  {
    CollectionIff(items[0], seen, space);
    if i > 0 {
      AcceptedAt(items[1..], seen + {IdOf(items[0])}, space, i - 1);
    }
  }

  /** Collections are accepted exactly when there are at most a hundred, each is usable, and no two
      have the same id; then only their names change, which are trimmed. */
  lemma {:induction false} AcceptedIff(v: Value, space: Space)
    ensures Normalized(v, space).Ok? <==> v.Array? && |v.items| <= 100 && AllUsable(v.items, {}, space)
    ensures Normalized(v, space).Ok? ==>
              var r := Normalized(v, space).value;
              && r.Array? && |r.items| == |v.items|
              && forall i :: 0 <= i < |v.items| ==>
                   Usable(v.items[i], space)
                   && r.items[i] == Tidied(v.items[i], space)
  {
    if v.Array? {
      CollectionsFromIff(v.items, {}, space);
      if Normalized(v, space).Ok? {
        forall i | 0 <= i < |v.items|
          ensures Normalized(v, space).value.items[i]
               == Tidied(v.items[i], space)
        {
          AcceptedAt(v.items, {}, space, i);
        }
      }
    }
  }
}
