/** Merging heuristic model defaults into a JSON configuration. */
module JsonDefaults {
  import opened Prelude

  datatype Json =
    | Null
    | Bool(flag: bool)
    | Number(number: real)
    | Str(text: string)
    | Array(items: seq<Json>)
    | Object(fields: map<string, Json>)

  datatype ModelDefaults = ModelDefaults(
    temperature: Option<real>, topP: Option<real>, topK: Option<u32>, maxTokens: Option<u32>,
    options: map<string, Json>, provider: string)

  const PLACEHOLDER := "__session_id__"

  // ----- session id substitution -----

  function Substituted(value: Json, sid: string): Json {
    match value
    case Str(s) => if s == PLACEHOLDER then Str(sid) else value
    case Object(fields) => Object(map k | k in fields :: Substituted(fields[k], sid))
    case Array(items) => Array(seq(|items|, i requires 0 <= i < |items| => Substituted(items[i], sid)))
    case _ => value
  }

  /** Whether some string value inside `v` is exactly `x`; object keys do not count. */
  predicate Holds(v: Json, x: string) {
    match v
    case Str(s) => s == x
    case Array(items) => exists i :: 0 <= i < |items| && Holds(items[i], x)
    case Object(fields) => exists k :: k in fields && Holds(fields[k], x)
    case _ => false
  }

  /** `substitute_session_id`; map entries are visited in any order. */
  method SubstituteSessionId(value: Json, sid: string) returns (r: Json)
    ensures r == Substituted(value, sid)
    decreases value
  {
    match value {
      case Str(s) =>
        r := if s == PLACEHOLDER then Str(sid) else value;
      case Object(fields) =>
        var m, left := fields, fields.Keys;
        while left != {}
          invariant left <= fields.Keys && m.Keys == fields.Keys
          invariant forall k :: k in fields ==> m[k] == if k in left then fields[k] else Substituted(fields[k], sid)
          decreases |left|
        {
          var k :| k in left;
          var v := SubstituteSessionId(fields[k], sid);
          m, left := m[k := v], left - {k};
        }
        r := Object(m);
        assert m == Substituted(value, sid).fields;
      case Array(items) =>
        var arr := items;
        for i := 0 to |items|
          invariant |arr| == |items|
          invariant forall j :: 0 <= j < |items| ==> arr[j] == if j < i then Substituted(items[j], sid) else items[j]
        {
          var v := SubstituteSessionId(items[i], sid);
          arr := arr[i := v];
        }
        r := Array(arr);
        assert arr == Substituted(value, sid).items;
      case _ =>
        r := value;
    }
  }

  /** A placeholder is left exactly where there was one and the session id is itself the placeholder. */
  lemma {:induction false} NoPlaceholderLeft(value: Json, sid: string)
    ensures Holds(Substituted(value, sid), PLACEHOLDER) <==> Holds(value, PLACEHOLDER) && sid == PLACEHOLDER
    decreases value
  {
    match value
    case Array(items) =>
      forall i | 0 <= i < |items|
        ensures Holds(Substituted(items[i], sid), PLACEHOLDER) <==> Holds(items[i], PLACEHOLDER) && sid == PLACEHOLDER
      {
        NoPlaceholderLeft(items[i], sid);
      }
      assert forall i :: 0 <= i < |items| ==> Substituted(value, sid).items[i] == Substituted(items[i], sid);
    case Object(fields) =>
      forall k | k in fields
        ensures Holds(Substituted(fields[k], sid), PLACEHOLDER) <==> Holds(fields[k], PLACEHOLDER) && sid == PLACEHOLDER
      {
        NoPlaceholderLeft(fields[k], sid);
      }
      assert forall k :: k in fields ==> Substituted(value, sid).fields[k] == Substituted(fields[k], sid);
    case _ =>
  }

  // ----- paths into a value -----

  datatype Hop = Member(key: string) | Index(i: nat)

  /** What stands at a path. */
  function At(v: Json, path: seq<Hop>): Option<Json> {
    if path == [] then Some(v)
    else
      match path[0]
      case Member(key) => if v.Object? && key in v.fields then At(v.fields[key], path[1..]) else None
      case Index(i) => if v.Array? && i < |v.items| then At(v.items[i], path[1..]) else None
  }

  /** The same but for a string that is the placeholder, which is the session id instead. */
  predicate Alike(a: Json, b: Json, sid: string) {
    match a
    case Str(s) => b == Str(if s == "__session_id__" then sid else s)
    case Array(items) => b.Array? && |b.items| == |items|
    case Object(fields) => b.Object? && b.fields.Keys == fields.Keys
    case _ => b == a
  }

  /** Path by path the same value, with the session id in place of the placeholder. */
  ghost predicate Replaces(a: Json, b: Json, sid: string) {
    forall path :: (At(a, path).Some? <==> At(b, path).Some?)
                   && (At(a, path).Some? ==> Alike(At(a, path).value, At(b, path).value, sid))
  }

  lemma {:induction false} SubstitutedAt(value: Json, sid: string, path: seq<Hop>)
    ensures var r := Substituted(value, sid);
            && (At(value, path).Some? <==> At(r, path).Some?)
            && (At(value, path).Some? ==> Alike(At(value, path).value, At(r, path).value, sid))
    decreases |path|
  {
    if path != [] {
      match path[0]
      case Member(key) =>
        if value.Object? && key in value.fields {
          SubstitutedAt(value.fields[key], sid, path[1..]);
          assert Substituted(value, sid).fields[key] == Substituted(value.fields[key], sid);
        }
      case Index(i) =>
        if value.Array? && i < |value.items| {
          SubstitutedAt(value.items[i], sid, path[1..]);
          assert Substituted(value, sid).items[i] == Substituted(value.items[i], sid);
        }
    }
  }

  /**
   Substitution changes nothing but the placeholder: at every path there is the same kind of value, with the same
   keys and lengths, and every leaf is as it was, unless it is the placeholder.
   */
  lemma SubstitutionExact(value: Json, sid: string)
    ensures Replaces(value, Substituted(value, sid), sid)
  {
    forall path
      ensures var r := Substituted(value, sid);
              && (At(value, path).Some? <==> At(r, path).Some?)
              && (At(value, path).Some? ==> Alike(At(value, path).value, At(r, path).value, sid))
    {
      SubstitutedAt(value, sid, path);
    }
  }

  /** There is only one such value. */
  lemma {:induction false} ReplacesOne(a: Json, b: Json, c: Json, sid: string)
    requires Replaces(a, b, sid) && Replaces(a, c, sid)
    ensures b == c
    decreases a
  {
    assert At(a, []).Some? && Alike(a, At(b, []).value, sid) && Alike(a, At(c, []).value, sid);
    match a
    case Array(items) =>
      forall i | 0 <= i < |items|
        ensures b.items[i] == c.items[i]
      {
        ItemReplaces(a, b, sid, i);
        ItemReplaces(a, c, sid, i);
        ReplacesOne(items[i], b.items[i], c.items[i], sid);
      }
      assert b.items == c.items;
    case Object(fields) =>
      forall k | k in fields
        ensures b.fields[k] == c.fields[k]
      {
        FieldReplaces(a, b, sid, k);
        FieldReplaces(a, c, sid, k);
        ReplacesOne(fields[k], b.fields[k], c.fields[k], sid);
      }
      assert b.fields == c.fields;
    case _ =>
  }

  lemma ItemReplaces(a: Json, b: Json, sid: string, i: nat)
    requires a.Array? && b.Array? && i < |a.items| && |b.items| == |a.items| && Replaces(a, b, sid)
    ensures Replaces(a.items[i], b.items[i], sid)
  {
    forall path
      ensures (At(a.items[i], path).Some? <==> At(b.items[i], path).Some?)
      ensures At(a.items[i], path).Some? ==> Alike(At(a.items[i], path).value, At(b.items[i], path).value, sid)
    {
      var longer := [Index(i)] + path;
      assert longer[1..] == path;
      assert At(a, longer) == At(a.items[i], path) && At(b, longer) == At(b.items[i], path);
    }
  }

  lemma FieldReplaces(a: Json, b: Json, sid: string, k: string)
    requires a.Object? && b.Object? && k in a.fields && k in b.fields && Replaces(a, b, sid)
    ensures Replaces(a.fields[k], b.fields[k], sid)
  {
    forall path
      ensures (At(a.fields[k], path).Some? <==> At(b.fields[k], path).Some?)
      ensures At(a.fields[k], path).Some? ==> Alike(At(a.fields[k], path).value, At(b.fields[k], path).value, sid)
    {
      var longer := [Member(k)] + path;
      assert longer[1..] == path;
      assert At(a, longer) == At(a.fields[k], path) && At(b, longer) == At(b.fields[k], path);
    }
  }

  // ----- the Anthropic system prompt -----

  const EPHEMERAL := Object(map["type" := Str("ephemeral")])

  function TextBlock(s: string): Json {
    Object(map["type" := Str("text"), "text" := Str(s), "cache_control" := EPHEMERAL])
  }

  function CachedBlock(v: Json): Json {
    match v
    case Str(s) => TextBlock(s)
    case Object(fields) => if "cache_control" in fields then v else Object(fields["cache_control" := EPHEMERAL])
    case _ => v
  }

  function CachedSystem(system: Json): Json {
    match system
    case Array(items) => Array(seq(|items|, i requires 0 <= i < |items| => CachedBlock(items[i])))
    case Str(s) => Array([TextBlock(s)])
    case _ => system
  }

  function WithCaching(fields: map<string, Json>, provider: string): map<string, Json> {
    if provider == "anthropic" && "system" in fields then fields["system" := CachedSystem(fields["system"])] else fields
  }

  /** The text a system block carries, if it carries one. */
  function BlockText(v: Json): Option<Json> {
    match v
    case Str(s) => Some(v)
    case Object(fields) => if "text" in fields then Some(fields["text"]) else None
    case _ => None
  }

  function SystemTexts(system: Json): seq<Option<Json>> {
    match system
    case Array(items) => seq(|items|, i requires 0 <= i < |items| => BlockText(items[i]))
    case Str(s) => [BlockText(system)]
    case _ => []
  }

  predicate IsCached(v: Json) { v.Object? ==> "cache_control" in v.fields }

  /** Caching keeps every text in its place, marks every block, and has nothing left to do the second time. */
  lemma SystemMeaningKept(system: Json)
    ensures SystemTexts(CachedSystem(system)) == SystemTexts(system)
    ensures CachedSystem(system).Array? ==> forall i :: 0 <= i < |CachedSystem(system).items| ==>
              IsCached(CachedSystem(system).items[i]) && !CachedSystem(system).items[i].Str?
    ensures CachedSystem(CachedSystem(system)) == CachedSystem(system)
  {
    match system
    case Array(items) =>
      var blocks := CachedSystem(system).items;
      forall i | 0 <= i < |items|
        ensures BlockText(blocks[i]) == BlockText(items[i]) && CachedBlock(blocks[i]) == blocks[i]
        ensures IsCached(blocks[i]) && !blocks[i].Str?
      {
        assert blocks[i] == CachedBlock(items[i]);
      }
      assert CachedSystem(Array(blocks)).items == blocks;
      assert SystemTexts(Array(blocks)) == SystemTexts(system);
    case Str(s) =>
      assert CachedSystem(Array([TextBlock(s)])).items == [TextBlock(s)];
    case _ =>
  }

  lemma BlockHolds(v: Json, x: string)
    requires x == PLACEHOLDER
    ensures Holds(CachedBlock(v), x) <==> Holds(v, x)
  {
    assert Holds(EPHEMERAL, x) == (x == "ephemeral") by {
      assert EPHEMERAL.fields.Keys == {"type"};
    }
    assert |x| != |"ephemeral"| && |x| != |"text"|;
    match v
    case Str(s) =>
      var fields := TextBlock(s).fields;
      assert fields.Keys == {"type", "text", "cache_control"};
      assert Holds(fields["text"], x) <==> s == x;
      assert !Holds(fields["type"], x) && !Holds(fields["cache_control"], x);
    case Object(fields) =>
      if "cache_control" !in fields {
        var longer := fields["cache_control" := EPHEMERAL];
        assert forall k :: k in fields ==> k in longer && longer[k] == fields[k];
        assert !Holds(longer["cache_control"], x);
        assert forall k :: k in longer && k != "cache_control" ==> k in fields;
      }
    case _ =>
  }

  lemma SystemHolds(system: Json, x: string)
    requires x == PLACEHOLDER
    ensures Holds(CachedSystem(system), x) <==> Holds(system, x)
  {
    match system
    case Array(items) =>
      var blocks := CachedSystem(system).items;
      forall i | 0 <= i < |items|
        ensures Holds(blocks[i], x) <==> Holds(items[i], x)
      {
        BlockHolds(items[i], x);
      }
    case Str(s) =>
      BlockHolds(system, x);
      var blocks := [TextBlock(s)];
      assert Holds(blocks[0], x) <==> Holds(system, x);
    case _ =>
  }

  // ----- merging -----

  /** Inserts a default where there is none. */
  function Fill(fields: map<string, Json>, key: string, value: Option<Json>): map<string, Json> {
    if key !in fields && value.Some? then fields[key := value.value] else fields
  }

  function Num(value: Option<real>): Option<Json> { if value.Some? then Some(Number(value.value)) else None }

  function Int(value: Option<u32>): Option<Json> {
    if value.Some? then Some(Number((value.value as int) as real)) else None
  }

  function WithSampling(fields: map<string, Json>, d: ModelDefaults): map<string, Json> {
    Fill(Fill(Fill(Fill(fields, "temperature", Num(d.temperature)), "top_p", Num(d.topP)), "top_k", Int(d.topK)),
         "max_tokens", Int(d.maxTokens))
  }

  /** One pass over the provider options in a given order. */
  function WithOptionsInOrder(fields: map<string, Json>, options: map<string, Json>, sid: string,
      order: seq<string>): map<string, Json>
    requires forall k :: k in order ==> k in options
  {
    if order == [] then fields
    else
      var last := order[|order| - 1];
      Fill(WithOptionsInOrder(fields, options, sid, order[..|order| - 1]), last, Some(Substituted(options[last], sid)))
  }

  function WithOptions(fields: map<string, Json>, options: map<string, Json>, sid: string): map<string, Json> {
    (map k | k in options :: Substituted(options[k], sid)) + fields
  }

  function Applied(config: Json, d: ModelDefaults, sid: string): Json {
    if config.Object? then
      Object(WithCaching(WithOptions(WithSampling(config.fields, d), d.options, sid), d.provider))
    else config
  }

  lemma NoOptions(fields: map<string, Json>, options: map<string, Json>, sid: string)
    ensures WithOptions(fields, options - options.Keys, sid) == fields
  {
  }

  lemma OneMoreOption(fields: map<string, Json>, options: map<string, Json>, left: set<string>, key: string,
      sid: string)
    requires key in left && left <= options.Keys
    ensures WithOptions(fields, options - (left - {key}), sid)
            == Fill(WithOptions(fields, options - left, sid), key, Some(Substituted(options[key], sid)))
  {
    hide Substituted;
    assert options - (left - {key}) == (options - left)[key := options[key]];
  }

  class Config {
    var value: Json

    /** `apply_to`; the provider options are visited in any order. */
    method ApplyTo(d: ModelDefaults, sid: string)
      modifies this
      ensures value == Applied(old(value), d, sid)
    {
      hide WithOptions;
      if !value.Object? {
        return;
      }
      var obj := value.fields;
      if "temperature" !in obj && d.temperature.Some? {
        obj := obj["temperature" := Number(d.temperature.value)];
      }
      if "top_p" !in obj && d.topP.Some? {
        obj := obj["top_p" := Number(d.topP.value)];
      }
      if "top_k" !in obj && d.topK.Some? {
        obj := obj["top_k" := Number((d.topK.value as int) as real)];
      }
      if "max_tokens" !in obj && d.maxTokens.Some? {
        obj := obj["max_tokens" := Number((d.maxTokens.value as int) as real)];
      }
      assert obj == WithSampling(value.fields, d);
      obj := FillOptions(obj, d.options, sid);
      if d.provider == "anthropic" {
        obj := ApplySystemCaching(obj);
      }
      value := Object(obj);
    }

    method FillOptions(fields: map<string, Json>, options: map<string, Json>, sid: string)
        returns (obj: map<string, Json>)
      ensures obj == WithOptions(fields, options, sid)
    {
      hide WithOptions;
      obj := fields;
      var left := options.Keys;
      NoOptions(fields, options, sid);
      while left != {}
        invariant left <= options.Keys
        invariant obj == WithOptions(fields, options - left, sid)
        decreases |left|
      {
        var key :| key in left;
        OneMoreOption(fields, options, left, key, sid);
        if key !in obj {
          var v := SubstituteSessionId(options[key], sid);
          obj := obj[key := v];
        }
        left := left - {key};
      }
      assert options - {} == options;
    }

    /** `apply_anthropic_system_caching` */
    method ApplySystemCaching(fields: map<string, Json>) returns (obj: map<string, Json>)
      ensures obj == WithCaching(fields, "anthropic")
    {
      obj := fields;
      if "system" in fields {
        match fields["system"] {
          case Array(items) =>
            var blocks: seq<Json> := [];
            for i := 0 to |items|
              invariant |blocks| == i && forall j :: 0 <= j < i ==> blocks[j] == CachedBlock(items[j])
            {
              blocks := blocks + [CachedBlock(items[i])];
            }
            assert blocks == CachedSystem(fields["system"]).items;
            obj := fields["system" := Array(blocks)];
          case Str(s) =>
            obj := fields["system" := Array([TextBlock(s)])];
          case _ =>
            assert fields == fields["system" := fields["system"]];
        }
      }
    }
  }

  /** What the defaults hold for one key, sampling parameters before provider options. */
  function DefaultOf(d: ModelDefaults, key: string, sid: string): Option<Json> {
    if key == "temperature" && d.temperature.Some? then Num(d.temperature)
    else if key == "top_p" && d.topP.Some? then Num(d.topP)
    else if key == "top_k" && d.topK.Some? then Int(d.topK)
    else if key == "max_tokens" && d.maxTokens.Some? then Int(d.maxTokens)
    else if key in d.options then Some(Substituted(d.options[key], sid))
    else None
  }

  function Field(config: Json, key: string): Option<Json> {
    if config.Object? && key in config.fields then Some(config.fields[key]) else None
  }

  /** The one value that is rewritten after merging. */
  predicate IsSystemPrompt(d: ModelDefaults, key: string) { d.provider == "anthropic" && key == "system" }

  /** Field by field: the user's value wins, then the default; only the Anthropic system prompt is rewritten. */
  lemma MergedField(config: Json, d: ModelDefaults, sid: string, key: string)
    requires config.Object?
    ensures var merged := if Field(config, key).Some? then Field(config, key) else DefaultOf(d, key, sid);
            Field(Applied(config, d, sid), key) ==
            if merged.Some? && IsSystemPrompt(d, key) then Some(CachedSystem(merged.value)) else merged
  {
    hide CachedSystem, Substituted;
    var sampled := WithSampling(config.fields, d);
    assert key in sampled
        ==> key in WithOptions(sampled, d.options, sid) && WithOptions(sampled, d.options, sid)[key] == sampled[key];
  }

  /** What the defaults hold for one key, word for word. */
  ghost predicate IsDefault(d: ModelDefaults, key: string, sid: string, value: Json) {
    if key == "temperature" && d.temperature.Some? then value == Number(d.temperature.value)
    else if key == "top_p" && d.topP.Some? then value == Number(d.topP.value)
    else if key == "top_k" && d.topK.Some? then value == Number((d.topK.value as int) as real)
    else if key == "max_tokens" && d.maxTokens.Some? then value == Number((d.maxTokens.value as int) as real)
    else key in d.options && Replaces(d.options[key], value, sid)
  }

  /** The rewriting of a system prompt: text becomes a marked block, a block is marked unless it is, the rest stays. */
  predicate IsCachedSystem(system: Json, r: Json) {
    match system
    case Str(s) => r.Array? && |r.items| == 1 && IsCachedBlock(system, r.items[0])
    case Array(items) =>
      r.Array? && |r.items| == |items| && forall i :: 0 <= i < |items| ==> IsCachedBlock(items[i], r.items[i])
    case _ => r == system
  }

  predicate IsCachedBlock(v: Json, r: Json) {
    match v
    case Str(s) =>
      r == Object(map["type" := Str("text"), "text" := Str(s),
                      "cache_control" := Object(map["type" := Str("ephemeral")])])
    case Object(fields) =>
      && r.Object? && r.fields.Keys == fields.Keys + {"cache_control"}
      && (forall k :: k in fields ==> r.fields[k] == fields[k])
      && ("cache_control" !in fields ==> r.fields["cache_control"] == Object(map["type" := Str("ephemeral")]))
    case _ => r == v
  }

  lemma CachingExact(system: Json)
    ensures IsCachedSystem(system, CachedSystem(system))
  {
  }

  /**
   The whole merged configuration, key by key and for any JSON: what is not an object stays as it is; otherwise a
   key the user set keeps its value, a key with a default and only such a key is added with it, and afterwards an
   Anthropic system prompt is rewritten.
   */
  lemma FieldsExact(config: Json, d: ModelDefaults, sid: string, key: string)
    ensures !config.Object? ==> Applied(config, d, sid) == config
    ensures config.Object? ==>
              var out, system := Field(Applied(config, d, sid), key), d.provider == "anthropic" && key == "system";
              && Applied(config, d, sid).Object?
              && (out.Some? <==> key in config.fields || exists value :: IsDefault(d, key, sid, value))
              && (key in config.fields ==>
                    if system then IsCachedSystem(config.fields[key], out.value) else out.value == config.fields[key])
              && (key !in config.fields && out.Some? ==>
                    exists value :: IsDefault(d, key, sid, value)
                                    && if system then IsCachedSystem(value, out.value) else out.value == value)
  {
    if config.Object? {
      MergedField(config, d, sid, key);
      var default := DefaultOf(d, key, sid);
      if key in d.options {
        SubstitutionExact(d.options[key], sid);
      }
      if default.Some? {
        assert IsDefault(d, key, sid, default.value);
        CachingExact(default.value);
      }
      if key in config.fields {
        CachingExact(config.fields[key]);
      }
      hide CachedSystem, Substituted, Replaces, IsCachedSystem, WithSampling, WithOptions;
    }
  }

  /** Every key the user set keeps its value, but for an Anthropic system prompt, whose texts are kept. */
  lemma UserValuesWin(config: Json, d: ModelDefaults, sid: string, key: string)
    requires Field(config, key).Some?
    ensures !IsSystemPrompt(d, key) ==> Field(Applied(config, d, sid), key) == Field(config, key)
    ensures IsSystemPrompt(d, key) ==>
              && Field(Applied(config, d, sid), key).Some?
              && SystemTexts(Field(Applied(config, d, sid), key).value) == SystemTexts(Field(config, key).value)
  {
    MergedField(config, d, sid, key);
    SystemMeaningKept(Field(config, key).value);
  }

  lemma SameFields(a: Json, b: Json)
    requires a.Object? && b.Object? && forall k :: Field(a, k) == Field(b, k)
    ensures a == b
  {
    forall k
      ensures k in a.fields <==> k in b.fields
      ensures k in a.fields ==> a.fields[k] == b.fields[k]
    {
      assert Field(a, k) == Field(b, k);
    }
    assert a.fields == b.fields;
  }

  /** Applying the defaults again changes nothing, whatever the session id of the second time. */
  lemma ApplyIdempotent(config: Json, d: ModelDefaults, sid: string, other: string)
    ensures Applied(Applied(config, d, sid), d, other) == Applied(config, d, sid)
  {
    if config.Object? {
      var once := Applied(config, d, sid);
      var twice := Applied(once, d, other);
      hide Applied, Field;
      forall k
        ensures Field(twice, k) == Field(once, k)
      {
        MergedField(config, d, sid, k);
        MergedField(once, d, other, k);
        DefaultsAgree(d, k, sid, other);
        var merged := if Field(config, k).Some? then Field(config, k) else DefaultOf(d, k, sid);
        if merged.Some? {
          SystemMeaningKept(merged.value);
        }
      }
      SameFields(twice, once);
    }
  }

  lemma DefaultsAgree(d: ModelDefaults, key: string, sid: string, other: string)
    ensures DefaultOf(d, key, sid).Some? <==> DefaultOf(d, key, other).Some?
  {
  }

  /** A merged-in value holds the placeholder exactly when its option did and the session id is the placeholder. */
  lemma InsertedHoldsNoPlaceholder(config: Json, d: ModelDefaults, sid: string, key: string)
    requires config.Object? && Field(config, key).None? && Field(Applied(config, d, sid), key).Some?
    ensures Holds(Field(Applied(config, d, sid), key).value, PLACEHOLDER) <==>
            sid == PLACEHOLDER && DefaultOf(d, key, PLACEHOLDER).Some?
                && Holds(DefaultOf(d, key, PLACEHOLDER).value, PLACEHOLDER)
  {
    MergedField(config, d, sid, key);
    SystemHolds(DefaultOf(d, key, sid).value, PLACEHOLDER);
    if key in d.options {
      NoPlaceholderLeft(d.options[key], sid);
      NoPlaceholderLeft(d.options[key], PLACEHOLDER);
    }
  }

  /** Whatever order the options are visited in, the same object comes out. */
  lemma {:induction false} OptionOrderDoesNotMatter(fields: map<string, Json>, options: map<string, Json>,
      sid: string, order: seq<string>)
    requires forall k :: k in order <==> k in options
    ensures WithOptionsInOrder(fields, options, sid, order) == WithOptions(fields, options, sid)
  {
    FilledInOrder(fields, options, sid, order);
    assert WithOptionsInOrder(fields, options, sid, order) == WithOptions(fields, options, sid);
  }

  lemma {:induction false} FilledInOrder(fields: map<string, Json>, options: map<string, Json>, sid: string,
      order: seq<string>)
    requires forall k :: k in order ==> k in options
    ensures var r := WithOptionsInOrder(fields, options, sid, order);
            forall k :: (k in r <==> k in fields || k in order)
                        && (k in r ==> r[k] == if k in fields then fields[k] else Substituted(options[k], sid))
  {
    if order != [] {
      var front, last := order[..|order| - 1], order[|order| - 1];
      assert order == front + [last];
      FilledInOrder(fields, options, sid, front);
    }
  }
}
