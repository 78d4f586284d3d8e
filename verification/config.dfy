/** The configuration helpers: `deepMerge`/`createConfig`, `getEnv` and
    `validateConfig`. Objects are maps from property names to values; the
    environment is a map from variable names to values. */
module Config {
  import opened Js

  type Props = map<string, JsVal>

  // ---------------------------------------------------------------------------
  // Own enumerable properties

  /** `{ '0': xs[0], '1': xs[1], ... }` for the first `n` items. */
  function IndexEntries(xs: seq<JsVal>, n: nat): (r: Props)
    requires n <= |xs|
    ensures forall i :: 0 <= i < n ==> IntToString(i) in r && r[IntToString(i)] == xs[i]
    decreases n
  {
    if n == 0 then map[]
    else
      var r := IndexEntries(xs, n - 1)[IntToString(n - 1) := xs[n - 1]];
      assert forall i :: 0 <= i < n - 1 ==> IntToString(i) != IntToString(n - 1) by {
        forall i | 0 <= i < n - 1 ensures IntToString(i) != IntToString(n - 1) {
          if IntToString(i) == IntToString(n - 1) {
            IntToStringInjective(i, n - 1);
          }
        }
      }
      r
  }

  /** The characters of a string as one-character strings, by index. */
  function CharEntries(s: string): Props
  {
    IndexEntries(seq(|s|, i requires 0 <= i < |s| => Str([s[i]])), |s|)
  }

  /** `{ ...v }`: an object's own properties, an array's or a string's items by
      index, and nothing for every other value. */
  function OwnEntries(v: JsVal): Props
  {
    match v
    case Obj(m) => m
    case Arr(xs) => IndexEntries(xs, |xs|)
    case Str(s) => CharEntries(s)
    case _ => map[]
  }

  // ---------------------------------------------------------------------------
  // deepMerge

  /** Where a nested merge starts for key `k`: `result[k] || {}` spread. A name
      inherited from `Object.prototype` reads as a function, whose spread is
      empty just like `{}`'s. */
  function StartOf(base: Props, k: string): Props
  {
    if k in base && Truthy(base[k]) then OwnEntries(base[k]) else map[]
  }

  /** The value `deepMerge` stores for source value `v` under key `k`: a plain
      object is merged into what is there, anything else replaces it. */
  function MergeValue(base: Props, k: string, v: JsVal): (r: JsVal)
    ensures !v.Obj? ==> r == v
    ensures v.Obj? ==> r.Obj? && r.props.Keys == StartOf(base, k).Keys + v.props.Keys
    decreases v, 2
  {
    if v.Obj? then Obj(MergeInto(StartOf(base, k), v)) else v
  }

  /** The items of an array source, merged by index from position `i` on. */
  function MergeItems(base: Props, xs: seq<JsVal>, i: nat): Props
    requires i <= |xs|
    decreases Arr(xs), 1, |xs| - i
  {
    if i == |xs| then base
    else
      var k := IntToString(i);
      MergeItems(base[k := MergeValue(base, k, xs[i])], xs, i + 1)
  }

  /** `deepMerge(target, source)` once `target` has been spread into `base`. */
  function MergeInto(base: Props, src: JsVal): (r: Props)
    requires !Nullish(src)
    ensures src.Obj? ==> r.Keys == base.Keys + src.props.Keys
    ensures src.Obj? ==> forall k :: k in base && k !in src.props ==> r[k] == base[k]
    ensures src.Obj? ==> forall k :: k in src.props && !src.props[k].Obj? ==> r[k] == src.props[k]
    ensures src.Obj? ==> forall k :: k in src.props && src.props[k].Obj? ==>
      r[k] == Obj(MergeInto(StartOf(base, k), src.props[k]))
    decreases src, 1
  {
    match src
    case Obj(m) =>
      map k | k in base.Keys + m.Keys :: if k in m then MergeValue(base, k, m[k]) else base[k]
    case Arr(xs) => MergeItems(base, xs, 0)
    case Str(s) => base + CharEntries(s)
    case _ => base
  }

  /** `deepMerge(target, source)`: `None` when `Object.keys(source)` throws. */
  function DeepMerge(target: JsVal, source: JsVal): (r: Option<Props>)
    ensures r.None? <==> Nullish(source)
    ensures source.Obj? ==> r.value.Keys == OwnEntries(target).Keys + source.props.Keys
  {
    if Nullish(source) then None else Some(MergeInto(OwnEntries(target), source))
  }

  /** `createConfig(config, defaults = {})`: the configuration wins over the
      defaults. Nothing comes back (the call throws) exactly for a null or
      undefined configuration; for an object, the result has the keys of both,
      every non-object setting of the configuration as given, every
      default the configuration does not mention as it was, and every nested
      object merged over the default under the same key. */
  function CreateConfig(config: JsVal, defaults: JsVal): (r: Option<Props>)
    ensures r.None? <==> Nullish(config)
    ensures config.Obj? ==> r.value.Keys == OwnEntries(Default(defaults)).Keys + config.props.Keys
    ensures config.Obj? ==> forall k :: k in config.props && !config.props[k].Obj? ==>
      r.value[k] == config.props[k]
    ensures config.Obj? ==> forall k :: k in OwnEntries(Default(defaults)) && k !in config.props ==>
      r.value[k] == OwnEntries(Default(defaults))[k]
    ensures config.Obj? ==> forall k :: k in config.props && config.props[k].Obj? ==>
      r.value[k] == Obj(MergeInto(StartOf(OwnEntries(Default(defaults)), k), config.props[k]))
  {
    DeepMerge(Default(defaults), config)
  }

  /** The `= {}` parameter default. */
  function Default(v: JsVal): JsVal
  {
    if v.Undefined? then Obj(map[]) else v
  }

  /** Merging into an empty object gives back the source's properties: nested
      objects are copied, never altered. */
  lemma {:induction false} MergeIntoEmpty(m: Props)
    ensures MergeInto(map[], Obj(m)) == m
    decreases Obj(m)
  {
    var r := MergeInto(map[], Obj(m));
    forall k | k in m ensures r[k] == m[k] {
      if m[k].Obj? {
        MergeIntoEmpty(m[k].props);
      }
    }
  }

  /** Without defaults, `createConfig` gives back a copy of the configuration,
      and a configuration merged over itself is unchanged. */
  lemma {:induction false} CreateConfigCopies(m: Props)
    ensures CreateConfig(Obj(m), Undefined) == Some(m)
    ensures CreateConfig(Obj(m), Obj(map[])) == Some(m)
    ensures CreateConfig(Obj(m), Obj(m)) == Some(m)
  {
    MergeIntoEmpty(m);
    MergeIntoSelf(m);
  }

  /** Merging an object into itself changes nothing. */
  lemma {:induction false} MergeIntoSelf(m: Props)
    ensures MergeInto(m, Obj(m)) == m
    decreases Obj(m)
  {
    var r := MergeInto(m, Obj(m));
    forall k | k in m ensures r[k] == m[k] {
      if m[k].Obj? {
        assert StartOf(m, k) == m[k].props;
        MergeIntoSelf(m[k].props);
      }
    }
  }

  /** The documented example: `createConfig({ api: { timeout: 5000 } },
      { api: { timeout: 8000, retries: 3 } })` is
      `{ api: { timeout: 5000, retries: 3 } }`. */
  lemma DocumentedExample()
    ensures CreateConfig(Obj(map["api" := Obj(map["timeout" := Num(5000)])]),
                         Obj(map["api" := Obj(map["timeout" := Num(8000), "retries" := Num(3)])]))
         == Some(map["api" := Obj(map["timeout" := Num(5000), "retries" := Num(3)])])
  {
    var target := map["timeout" := Num(5000)];
    var dflt := map["timeout" := Num(8000), "retries" := Num(3)];
    var defaults := map["api" := Obj(dflt)];
    assert OwnEntries(Obj(defaults)) == defaults;
    assert StartOf(defaults, "api") == dflt;
    var inner := MergeInto(dflt, Obj(target));
    assert inner.Keys == {"timeout", "retries"};
    assert inner == map["timeout" := Num(5000), "retries" := Num(3)];
    var r := MergeInto(defaults, Obj(map["api" := Obj(target)]));
    assert r.Keys == {"api"};
    assert r["api"] == Obj(inner);
    assert r == map["api" := Obj(inner)];
    assert Default(Obj(defaults)) == Obj(defaults);
  }

  // ---------------------------------------------------------------------------
  // getEnv

  /** `getEnv(key, defaultValue = null)` against the environment `env`; an
      omitted default is passed as `Undefined`. */
  function GetEnv(env: map<string, JsVal>, key: string, default: JsVal): (r: JsVal)
    ensures key !in env || env[key].Undefined? ==> r == (if default.Undefined? then Null else default)
    ensures key in env && env[key] == Str("true") ==> r == Bool(true)
    ensures key in env && env[key] == Str("false") ==> r == Bool(false)
    ensures key in env && !env[key].Undefined? ==> !r.Undefined?
  {
    if key !in env || env[key].Undefined? then (if default.Undefined? then Null else default)
    else
      var value := env[key];
      if value == Str("true") then Bool(true)
      else if value == Str("false") then Bool(false)
      else
        var n := ToNumber(value);
        if !n.NaN? && value != Str("") then n else value
  }

  /** A value that reads as a number (and is not `'true'`, `'false'` or
      empty) comes back as that number. */
  lemma GetEnvReadsNumbers(env: map<string, JsVal>, key: string, s: string, default: JsVal)
    requires key in env && env[key] == Str(s)
    requires s != "" && s != "true" && s != "false" && StringToNumber(s).Num?
    ensures GetEnv(env, key, default) == StringToNumber(s)
  {
  }

  /** The decimal form of an integer reads back as that integer. */
  lemma GetEnvReadsIntegers(env: map<string, JsVal>, key: string, n: int, default: JsVal)
    requires key in env && env[key] == Str(IntToString(n))
    ensures GetEnv(env, key, default) == Num(n)
  {
    var s := IntToString(n);
    NumberOfString(n);
    assert s[0] == '-' || IsDigit(s[0]);
    assert s != "true" && s != "false" by {
      assert "true"[0] == 't' && "false"[0] == 'f';
    }
    GetEnvReadsNumbers(env, key, s, default);
  }

  /** Text that is not a number comes back unchanged. Every numeral `Number`
      accepts has a digit, except the spellings of Infinity, so a value
      without digits that is neither blank nor one of those is text. */
  lemma {:induction false} GetEnvKeepsText(env: map<string, JsVal>, key: string, s: string, default: JsVal)
    requires key in env && env[key] == Str(s)
    requires s != "true" && s != "false" && !Blank(s)
    requires forall i :: 0 <= i < |s| ==> !IsDigit(s[i])
    requires Trim(s) != "Infinity" && Trim(s) != "+Infinity" && Trim(s) != "-Infinity"
    ensures GetEnv(env, key, default) == Str(s)
  {
    var i := TrimSlice(s);
    var t := Trim(s);
    forall j | 0 <= j < |t| ensures !IsDigit(t[j]) {
      assert t[j] == s[i + j];
    }
    NoDigitIsNaN(t);
  }

  lemma {:induction false} NoDigitIsNaN(t: string)
    requires t != "" && forall j :: 0 <= j < |t| ==> !IsDigit(t[j])
    ensures NumeralValue(t) == NaN
  {
    assert !IsDigit(t[0]);
    if |t| > 1 {
      assert !IsDigit(t[1..][0]);
    }
  }

  /** The empty string comes back unchanged ... */
  lemma GetEnvEmpty(env: map<string, JsVal>, key: string, default: JsVal)
    requires key in env && env[key] == Str("")
    ensures GetEnv(env, key, default) == Str("")
  {
  }

  /** ... but a value of only spaces reads as the number 0. */
  lemma {:induction false} GetEnvBlank(env: map<string, JsVal>, key: string, s: string, default: JsVal)
    requires key in env && env[key] == Str(s)
    requires Blank(s) && s != ""
    ensures GetEnv(env, key, default) == Num(0)
  {
    BlankIffAllSpace(s);
    SpaceLedIsNotKeyword(s);
    GetEnvReadsNumbers(env, key, s, default);
  }

  lemma {:induction false} SpaceLedIsNotKeyword(s: string)
    requires |s| > 0 && IsSpace(s[0])
    ensures s != "true" && s != "false"
  {
    assert !IsSpace('t') && !IsSpace('f');
    assert "true"[0] == 't' && "false"[0] == 'f';
  }

  /** A boolean variable (as the build tool's own flags are) comes back as 1
      or 0, not as a boolean. */
  lemma GetEnvBooleanBecomesNumber(env: map<string, JsVal>, key: string, b: bool, default: JsVal)
    requires key in env && env[key] == Bool(b)
    ensures GetEnv(env, key, default) == Num(if b then 1 else 0)
  {
  }

  // ---------------------------------------------------------------------------
  // validateConfig

  const MISSING_PREFIX := "Configuração obrigatória faltando: "

  /** `!(key in config) || config[key] === null || config[key] === undefined`.
      `in` also sees the names every object inherits. */
  predicate Missing(config: Props, key: string)
  {
    if key in config then Nullish(config[key]) else key !in OBJECT_PROTOTYPE_NAMES
  }

  /** `requiredKeys.filter(...)`: the missing keys in input order. */
  function MissingKeys(config: Props, required: seq<string>): (r: seq<string>)
    ensures |r| <= |required|
    ensures forall x :: x in r <==> x in required && Missing(config, x)
    decreases |required|
  {
    if required == [] then []
    else
      var rest := MissingKeys(config, required[1..]);
      assert forall x :: x in required <==> x == required[0] || x in required[1..];
      if Missing(config, required[0]) then [required[0]] + rest else rest
  }

  /** The filter keeps input order: it distributes over concatenation. */
  lemma {:induction false} MissingKeysAppend(config: Props, a: seq<string>, b: seq<string>)
    ensures MissingKeys(config, a + b) == MissingKeys(config, a) + MissingKeys(config, b)
    decreases |a|
  {
    if a != [] {
      assert (a + b)[0] == a[0];
      assert (a + b)[1..] == a[1..] + b;
      MissingKeysAppend(config, a[1..], b);
    } else {
      assert a + b == b;
    }
  }

  /** `validateConfig(config, requiredKeys)`: `None` when it returns, the
      message of the error when it throws. */
  function ValidateConfig(config: Props, required: seq<string>): (r: Option<string>)
    ensures r.None? <==> forall i :: 0 <= i < |required| ==> !Missing(config, required[i])
    ensures r.Some? ==> r.value == MISSING_PREFIX + Join(MissingKeys(config, required), ", ")
  {
    var missing := MissingKeys(config, required);
    assert |missing| > 0 ==> missing[0] in required && Missing(config, missing[0]);
    assert (exists i :: 0 <= i < |required| && Missing(config, required[i])) ==> |missing| > 0 by {
      if i :| 0 <= i < |required| && Missing(config, required[i]) {
        assert required[i] in missing;
      }
    }
    if |missing| > 0 then Some(MISSING_PREFIX + Join(missing, ", ")) else None
  }

  /** A required key named like an inherited member passes even when the
      configuration does not have it. */
  lemma InheritedNamesPass(config: Props)
    requires "constructor" !in config
    ensures ValidateConfig(config, ["constructor"]).None?
    ensures "apiKey" !in config ==> ValidateConfig(config, ["apiKey"]) == Some(MISSING_PREFIX + "apiKey")
  {
    assert !Missing(config, "constructor");
    if "apiKey" !in config {
      assert MissingKeys(config, ["apiKey"]) == ["apiKey"];
    }
  }
}
