/**
 * The configuration values of espada/core/project_config.py: `filter_none`,
 * which prunes `None` values and empty dicts from a nested dict, and the
 * conversions `Config.from_dict` and `Config.to_dict` between a parsed
 * `espada.toml` and the `Config` dataclass.
 */
module ProjectConfig {
  import opened Wrappers
  import opened PyStr
  import opened LineMaps

  /** A value of a parsed TOML document or of `dataclasses.asdict`. */
  datatype Value = Null | Str(s: string) | Int(i: int) | Bool(b: bool) | List(items: seq<Value>) | Dict(entries: seq<(string, Value)>)

  type Entries = seq<(string, Value)>

  /** `filter_none`: entries whose value is `None` are dropped, dicts are filtered in turn and dropped when that leaves them empty. */
  function FilterNone(d: Entries): (r: Entries)
    ensures |r| <= |d|
    decreases Dict(d), 1
  {
    FilterFrom(d, 0)
  }

  /** The comprehension of `filter_none` over the items of `d` from the `i`-th on. */
  function FilterFrom(d: Entries, i: nat): (r: Entries)
    requires i <= |d|
    ensures |r| <= |d| - i
    decreases Dict(d), 0, |d| - i
  {
    if i == |d| then []
    else
      var rest := FilterFrom(d, i + 1);
      var v := d[i].1;
      if v.Null? then rest
      else if v.Dict? then
        var f := FilterNone(v.entries);
        if f == [] then rest else [(d[i].0, Dict(f))] + rest
      else [d[i]] + rest
  }

  /** No `None` value and no empty dict at any level. */
  predicate Clean(d: Entries)
    decreases Dict(d)
  {
    forall j :: 0 <= j < |d| ==>
      d[j].1 != Null && (d[j].1.Dict? ==> d[j].1.entries != [] && Clean(d[j].1.entries))
  }

  /** The output of `filter_none` holds no `None` value and no empty dict, however deeply nested. */
  lemma FilterNoneClean(d: Entries)
    ensures Clean(FilterNone(d))
    decreases Dict(d), 1
  {
    FilterFromClean(d, 0);
  }

  lemma {:induction false} FilterFromClean(d: Entries, i: nat)
    requires i <= |d|
    ensures Clean(FilterFrom(d, i))
    decreases Dict(d), 0, |d| - i
  {
    if i < |d| {
      var rest := FilterFrom(d, i + 1);
      FilterFromClean(d, i + 1);
      var r := FilterFrom(d, i);
      if r != rest {
        if d[i].1.Dict? {
          FilterNoneClean(d[i].1.entries);
        }
        assert r[1..] == rest;
        forall j | 1 <= j < |r|
          ensures r[j] == rest[j - 1]
        {
        }
      }
    }
  }

  /** A dict that is already clean is left as it is. */
  lemma FilterNoneOfClean(d: Entries)
    requires Clean(d)
    ensures FilterNone(d) == d
    decreases Dict(d), 1
  {
    FilterFromOfClean(d, 0);
  }

  lemma {:induction false} FilterFromOfClean(d: Entries, i: nat)
    requires Clean(d) && i <= |d|
    ensures FilterFrom(d, i) == d[i..]
    decreases Dict(d), 0, |d| - i
  {
    if i < |d| {
      FilterFromOfClean(d, i + 1);
      if d[i].1.Dict? {
        FilterNoneOfClean(d[i].1.entries);
      }
      assert d[i..] == [d[i]] + d[i + 1..];
    }
  }

  /** `filter_none` is idempotent. */
  lemma FilterNoneIdempotent(d: Entries)
    ensures FilterNone(FilterNone(d)) == FilterNone(d)
  {
    FilterNoneClean(d);
    FilterNoneOfClean(FilterNone(d));
  }

  /** A value that is neither `None` nor a dict is kept, with its key, exactly when it was there. */
  lemma FilterNoneKeeps(d: Entries, k: string, v: Value)
    requires !v.Null? && !v.Dict?
    ensures (k, v) in FilterNone(d) <==> (k, v) in d
  {
    FilterFromKeeps(d, 0, k, v);
  }

  lemma {:induction false} FilterFromKeeps(d: Entries, i: nat, k: string, v: Value)
    requires !v.Null? && !v.Dict? && i <= |d|
    ensures (k, v) in FilterFrom(d, i) <==> (k, v) in d[i..]
    decreases |d| - i
  {
    if i < |d| {
      FilterFromKeeps(d, i + 1, k, v);
      assert d[i..] == [d[i]] + d[i + 1..];
    }
  }

  function Keys(d: Entries): (r: seq<string>)
    ensures |r| == |d| && forall i :: 0 <= i < |d| ==> r[i] == d[i].0
  {
    seq(|d|, i requires 0 <= i < |d| => d[i].0)
  }

  /** `a` is `b` with some elements left out. */
  predicate Subseq<T(==)>(a: seq<T>, b: seq<T>)
    decreases |b|
  {
    if a == [] then true
    else if b == [] then false
    else (a[0] == b[0] && Subseq(a[1..], b[1..])) || Subseq(a, b[1..])
  }

  /** The output keys are some of the input keys, in their input order. */
  lemma FilterNoneKeys(d: Entries)
    ensures Subseq(Keys(FilterNone(d)), Keys(d))
  {
    FilterFromKeys(d, 0);
    assert d[0..] == d;
  }

  lemma {:induction false} FilterFromKeys(d: Entries, i: nat)
    requires i <= |d|
    ensures Subseq(Keys(FilterFrom(d, i)), Keys(d[i..]))
    decreases |d| - i
  {
    if i < |d| {
      FilterFromKeys(d, i + 1);
      var r := FilterFrom(d, i);
      var rest := FilterFrom(d, i + 1);
      assert Keys(d[i..])[1..] == Keys(d[i + 1..]);
      if r != rest {
        assert Keys(r)[1..] == Keys(rest);
      }
    }
  }

  // Config.from_dict

  /** The ways `from_dict` fails: a `TypeError`, or the assertion on `project_id`. */
  datatype Failure = TypeError | AssertionError

  datatype Outcome<T> = Ok(value: T) | Fail(failure: Failure)

  datatype PathsConfig = PathsConfig(base: Value, src: Value)
  datatype RunConfig = RunConfig(build: Value, test: Value, lint: Value, format: Value)
  /** `_EspadaAppConfig`, with the `url` of each `_OpenApiConfig`. */
  datatype AppConfig = AppConfig(projectId: Value, openapi: Option<seq<Value>>)
  datatype Config = Config(paths: PathsConfig, run: RunConfig, app: Option<AppConfig>)

  /** `Config()`: every field `None`. */
  const DefaultConfig: Config := Config(PathsConfig(Null, Null), RunConfig(Null, Null, Null, Null), None)

  /** Python's truth value of a value. */
  predicate Truthy(v: Value)
  {
    match v
    case Null => false
    case Str(s) => s != []
    case Int(i) => i != 0
    case Bool(b) => b
    case List(items) => items != []
    case Dict(entries) => entries != []
  }

  /**
   * A dataclass built from `**section`: the section must be a dict whose keys
   * are all fields; each field takes its value from the section, `None` when
   * absent.
   */
  function Fields(section: Value, fields: seq<string>): (r: Outcome<seq<Value>>)
    ensures r.Ok? <==> section.Dict? && forall i :: 0 <= i < |section.entries| ==> section.entries[i].0 in fields
    ensures r.Ok? ==>
      |r.value| == |fields| && forall i :: 0 <= i < |fields| ==> r.value[i] == GetOr(section.entries, fields[i], Null)
  {
    if section.Dict? && forall i :: 0 <= i < |section.entries| ==> section.entries[i].0 in fields then
      Ok(seq(|fields|, i requires 0 <= i < |fields| => GetOr(section.entries, fields[i], Null)))
    else Fail(TypeError)
  }

  /** What iterating over a value yields: a list's items, a dict's keys, a string's characters; `None` when it is not iterable. */
  function Iterate(v: Value): Option<seq<Value>>
  {
    match v
    case List(items) => Some(items)
    case Dict(entries) => Some(seq(|entries|, i requires 0 <= i < |entries| => Str(entries[i].0)))
    case Str(s) => Some(seq(|s|, i requires 0 <= i < |s| => Str([s[i]])))
    case _ => None
  }

  /** The `url` of each `_OpenApiConfig(**openapi)`, in order. */
  function Urls(elements: seq<Value>, url: string): (r: Outcome<seq<Value>>)
    ensures r.Ok? ==> |r.value| == |elements|
    decreases |elements|
  {
    if elements == [] then Ok([])
    else
      var e := elements[0];
      var f := Fields(e, [url]);
      if f.Fail? || !HasKey(e.entries, url) then Fail(TypeError)
      else
        var rest := Urls(elements[1..], url);
        if rest.Fail? then rest else Ok([f.value[0]] + rest.value)
  }

  /**
   * The optional `espada-app` section: absent or false, no app; a true value
   * that is not a dict fails (with a `TypeError` where `"project_id" in`
   * it holds, the assertion otherwise); a dict must hold `project_id`, and an
   * empty `openapi` list becomes `None`.
   */
  function AppSection(v: Value, projectId: string, openapi: string, url: string): (r: Outcome<Option<AppConfig>>)
    ensures !Truthy(v) ==> r == Ok(None)
    ensures v.Dict? && v.entries != [] && !HasKey(v.entries, projectId) ==> r == Fail(AssertionError)
    ensures r.Ok? && r.value.Some? ==> r.value.value.openapi != Some([])
  {
    if !Truthy(v) then Ok(None)
    else if !v.Dict? then
      match v
      case Str(s) => if Contains(s, projectId) then Fail(TypeError) else Fail(AssertionError)
      case List(items) => if Str(projectId) in items then Fail(TypeError) else Fail(AssertionError)
      case _ => Fail(TypeError)
    else if !HasKey(v.entries, projectId) then Fail(AssertionError)
    else
      var elements := Iterate(GetOr(v.entries, openapi, List([])));
      if elements.None? then Fail(TypeError)
      else
        var urls := Urls(elements.value, url);
        if urls.Fail? then Fail(urls.failure)
        else Ok(Some(AppConfig(Get(v.entries, projectId), if urls.value == [] then None else Some(urls.value))))
  }

  const RunFields: seq<string> := ["build", "test", "lint", "format"]
  const PathsFields: seq<string> := ["base", "src"]

  /**
   * `Config.from_dict`: the `run` section, then `paths`, then `espada-app`.
   * A non-empty `espada-app` dict without `project_id` is refused by the
   * assertion; without an `espada-app` section there is no app; an app never
   * has an empty `openapi` list.
   */
  function FromDict(d: Entries): (r: Outcome<Config>)
    ensures var app := GetOr(d, "espada-app", Dict([]));
      Fields(GetOr(d, "run", Dict([])), RunFields).Ok? && Fields(GetOr(d, "paths", Dict([])), PathsFields).Ok?
      && app.Dict? && app.entries != [] && !HasKey(app.entries, "project_id")
      ==> r == Fail(AssertionError)
    ensures r.Ok? && !HasKey(d, "espada-app") ==> r.value.app == None
    ensures r.Ok? && r.value.app.Some? ==> r.value.app.value.openapi != Some([])
  {
    var run := Fields(GetOr(d, "run", Dict([])), RunFields);
    if run.Fail? then Fail(run.failure)
    else
      var paths := Fields(GetOr(d, "paths", Dict([])), PathsFields);
      if paths.Fail? then Fail(paths.failure)
      else
        var app := AppSection(GetOr(d, "espada-app", Dict([])), "project_id", "openapi", "url");
        if app.Fail? then Fail(app.failure)
        else Ok(Config(
          PathsConfig(paths.value[0], paths.value[1]),
          RunConfig(run.value[0], run.value[1], run.value[2], run.value[3]),
          app.value))
  }

  // Config.to_dict

  /** `m` without the entry for `k`, as `dict.pop` leaves it. */
  function Without(m: Entries, k: string): (r: Entries)
    ensures |r| <= |m|
    decreases |m|
  {
    if m == [] then [] else if m[0].0 == k then Without(m[1..], k) else [m[0]] + Without(m[1..], k)
  }

  function AppValue(app: Option<AppConfig>): Value
  {
    match app
    case None => Null
    case Some(a) =>
      var urls := match a.openapi
        case None => Null
        case Some(us) => List(seq(|us|, i requires 0 <= i < |us| => Dict([("url", us[i])])));
      Dict([("project_id", a.projectId), ("openapi", urls)])
  }

  /** `dataclasses.asdict(config)`. */
  function AsDict(c: Config): Entries
  {
    [("paths", Dict([("base", c.paths.base), ("src", c.paths.src)])),
     ("run", Dict([("build", c.run.build), ("test", c.run.test), ("lint", c.run.lint), ("format", c.run.format)])),
     ("espada_app", AppValue(c.app))]
  }

  /** `Config.to_dict`: `asdict`, `espada_app` renamed `espada-app`, then `filter_none`. */
  function ToDict(c: Config): Entries
  {
    var d := AsDict(c);
    FilterNone(Put(Without(d, "espada_app"), "espada-app", GetOr(d, "espada_app", Null)))
  }

  /** What `filter_none` makes of one value: `None` when its entry is dropped. */
  function Pruned(v: Value): Option<Value>
  {
    if v.Null? then None
    else if v.Dict? then (if FilterNone(v.entries) == [] then None else Some(Dict(FilterNone(v.entries))))
    else Some(v)
  }

  /** The keys of a Python dict are distinct. */
  predicate DistinctKeys(d: Entries)
  {
    forall i, j :: 0 <= i < j < |d| ==> d[i].0 != d[j].0
  }

  lemma FindDistinct(d: Entries, i: nat)
    requires DistinctKeys(d) && i < |d|
    ensures Find(d, d[i].0) == i
  {
  }

  /**
   * Key by key, `filter_none` keeps exactly the keys whose values survive
   * pruning, each with its pruned value.
   */
  lemma FilterNoneGet(d: Entries, k: string)
    requires DistinctKeys(d)
    ensures HasKey(FilterNone(d), k) <==> HasKey(d, k) && Pruned(Get(d, k)).Some?
    ensures HasKey(FilterNone(d), k) ==> Get(FilterNone(d), k) == Pruned(Get(d, k)).value
  {
    FilterFromGet(d, 0, k);
    assert d[0..] == d;
  }

  lemma {:induction false} FilterFromGet(d: Entries, i: nat, k: string)
    requires DistinctKeys(d) && i <= |d|
    ensures HasKey(FilterFrom(d, i), k) <==> HasKey(d[i..], k) && Pruned(Get(d[i..], k)).Some?
    ensures HasKey(FilterFrom(d, i), k) ==> Get(FilterFrom(d, i), k) == Pruned(Get(d[i..], k)).value
    decreases |d| - i
  {
    if i < |d| {
      FilterFromGet(d, i + 1, k);
      var later := d[i + 1..];
      assert d[i..] == [d[i]] + later;
      ConsLookup(d[i], later, k);
      var rest := FilterFrom(d, i + 1);
      var p := Pruned(d[i].1);
      FilterFromStep(d, i);
      if p.Some? {
        ConsLookup((d[i].0, p.value), rest, k);
      }
      if d[i].0 == k {
        forall j | 0 <= j < |later|
          ensures later[j].0 != k
        {
          assert later[j] == d[i + 1 + j];
        }
      }
    }
  }

  /** One item of the comprehension: dropped when its value is pruned away, kept with its pruned value otherwise. */
  lemma FilterFromStep(d: Entries, i: nat)
    requires i < |d|
    ensures var p := Pruned(d[i].1);
      FilterFrom(d, i) == if p.None? then FilterFrom(d, i + 1) else [(d[i].0, p.value)] + FilterFrom(d, i + 1)
  {
  }

  /** Looking a key up in a dict with one more entry in front. */
  lemma ConsLookup(x: (string, Value), m: Entries, k: string)
    ensures HasKey([x] + m, k) <==> x.0 == k || HasKey(m, k)
    ensures HasKey([x] + m, k) ==> Get([x] + m, k) == if x.0 == k then x.1 else Get(m, k)
  {
    var xm := [x] + m;
    assert xm[1..] == m;
    if x.0 != k {
      assert Find(xm, k) == (if Find(m, k) < 0 then -1 else Find(m, k) + 1);
    }
  }

  /** A dict none of whose values survives pruning is filtered to the empty dict. */
  lemma FilterNoneEmpty(d: Entries)
    requires forall i :: 0 <= i < |d| ==> Pruned(d[i].1).None?
    ensures FilterNone(d) == []
  {
    FilterFromEmpty(d, 0);
  }

  lemma {:induction false} FilterFromEmpty(d: Entries, i: nat)
    requires i <= |d| && forall j :: 0 <= j < |d| ==> Pruned(d[j].1).None?
    ensures FilterFrom(d, i) == []
    decreases |d| - i
  {
    if i < |d| {
      FilterFromEmpty(d, i + 1);
    }
  }

  /** The default configuration is written as the empty dict. */
  lemma ToDictDefault()
    ensures ToDict(DefaultConfig) == []
  {
    var d := AsDict(DefaultConfig);
    var t := Put(Without(d, "espada_app"), "espada-app", GetOr(d, "espada_app", Null));
    FilterNoneEmpty(d[0].1.entries);
    FilterNoneEmpty(d[1].1.entries);
    assert t == [d[0], d[1], ("espada-app", Null)];
    FilterNoneEmpty(t);
  }

  /** A field value of the declared type `str | None`. */
  predicate Flat(v: Value)
  {
    v.Null? || v.Str?
  }

  /** A configuration whose fields hold what the dataclasses declare, with a `str` `project_id` and no empty `openapi` list. */
  predicate WellTyped(c: Config)
  {
    Flat(c.paths.base) && Flat(c.paths.src)
    && Flat(c.run.build) && Flat(c.run.test) && Flat(c.run.lint) && Flat(c.run.format)
    && (c.app.Some? ==> c.app.value.projectId.Str? && c.app.value.openapi != Some([]))
  }

  /** A section of fields with flat values, once filtered, gives back the field values. */
  lemma {:induction false} SectionRoundTrip(fields: seq<string>, vals: seq<Value>, sec: Entries)
    requires |fields| == |vals| == |sec| && forall i :: 0 <= i < |sec| ==> sec[i] == (fields[i], vals[i])
    requires DistinctKeys(sec) && forall i :: 0 <= i < |vals| ==> Flat(vals[i])
    ensures Fields(Dict(FilterNone(sec)), fields) == Ok(vals)
  {
    var f := FilterNone(sec);
    forall j | 0 <= j < |f|
      ensures f[j].0 in fields
    {
      FilterNoneGet(sec, f[j].0);
      var n := Find(sec, f[j].0);
      assert sec[n].0 == fields[n];
    }
    forall i | 0 <= i < |fields|
      ensures GetOr(f, fields[i], Null) == vals[i]
    {
      FilterNoneGet(sec, fields[i]);
      FindDistinct(sec, i);
    }
    var r := Fields(Dict(f), fields);
    assert r.Ok? && |r.value| == |vals|;
    assert r.value == vals;
  }

  lemma UrlsOfDicts(us: seq<Value>, url: string)
    ensures Urls(seq(|us|, i requires 0 <= i < |us| => Dict([(url, us[i])])), url) == Ok(us)
    decreases |us|
  {
    var es := seq(|us|, i requires 0 <= i < |us| => Dict([(url, us[i])]));
    if us != [] {
      assert es[1..] == seq(|us| - 1, i requires 0 <= i < |us| - 1 => Dict([(url, us[1..][i])]));
      UrlsOfDicts(us[1..], url);
      var e := [(url, us[0])];
      assert es[0] == Dict(e);
      assert Find(e, url) == 0;
      assert Fields(Dict(e), [url]).value == [us[0]];
      assert us == [us[0]] + us[1..];
    }
  }

  /** The top-level dict `to_dict` filters: `espada_app` has moved to the end under its new name. */
  lemma ToDictShape(c: Config)
    ensures ToDict(c) == FilterNone(TopLevel(c))
  {
    var d := AsDict(c);
    var k := "espada_app";
    assert |d[0].0| != |k| && |d[1].0| != |k| && d[2].0 == k;
    assert d[1..][1..] == [d[2]] && [d[2]][1..] == [];
    assert Without([d[2]], k) == [];
    assert Without(d[1..], k) == [d[1]];
    assert Without(d, k) == [d[0], d[1]];
    var t := [d[0], d[1]];
    var k' := "espada-app";
    assert |t[0].0| != |k'| && |t[1].0| != |k'|;
    assert Find(t, k') == -1;
    assert Find(d, k) == 2;
    assert Put(t, k', AppValue(c.app)) == TopLevel(c);
  }

  /** A section that `to_dict` wrote reads back, present or pruned away, as its filtered entries. */
  lemma SectionLookup(t: Entries, i: nat)
    requires DistinctKeys(t) && i < |t| && t[i].1.Dict?
    ensures GetOr(FilterNone(t), t[i].0, Dict([])) == Dict(FilterNone(t[i].1.entries))
  {
    FilterNoneGet(t, t[i].0);
    FindDistinct(t, i);
  }

  /** The top-level dict of a configuration, before filtering. */
  function TopLevel(c: Config): Entries
  {
    [AsDict(c)[0], AsDict(c)[1], ("espada-app", AppValue(c.app))]
  }

  lemma TopLevelDistinct(c: Config)
    ensures DistinctKeys(TopLevel(c)) && TopLevel(c)[0].0 == "paths" && TopLevel(c)[1].0 == "run"
  {
    var t := TopLevel(c);
    assert |t[0].0| == 5 && |t[1].0| == 3 && |t[2].0| == 10;
  }

  /** The `run` section `asdict` writes: each field under its name, names distinct. */
  lemma RunSection(c: Config)
    ensures var sec := AsDict(c)[1].1.entries; var vals := [c.run.build, c.run.test, c.run.lint, c.run.format];
      |sec| == |vals| == |RunFields| && DistinctKeys(sec)
      && forall i :: 0 <= i < |sec| ==> sec[i] == (RunFields[i], vals[i])
  {
    var sec := AsDict(c)[1].1.entries;
    assert sec[0].0[0] == 'b' && sec[1].0[0] == 't' && sec[2].0[0] == 'l' && sec[3].0[0] == 'f';
  }

  /** The `paths` section `asdict` writes. */
  lemma PathsSection(c: Config)
    ensures var sec := AsDict(c)[0].1.entries; var vals := [c.paths.base, c.paths.src];
      |sec| == |vals| == |PathsFields| && DistinctKeys(sec)
      && forall i :: 0 <= i < |sec| ==> sec[i] == (PathsFields[i], vals[i])
  {
    var sec := AsDict(c)[0].1.entries;
    assert sec[0].0[0] == 'b' && sec[1].0[0] == 's';
  }

  /** The `run` section of a well-typed configuration reads back as its fields. */
  lemma RunRoundTrip(c: Config)
    requires WellTyped(c)
    ensures Fields(GetOr(ToDict(c), "run", Dict([])), RunFields) == Ok([c.run.build, c.run.test, c.run.lint, c.run.format])
  {
    ToDictShape(c);
    TopLevelDistinct(c);
    SectionLookup(TopLevel(c), 1);
    RunSection(c);
    var vals := [c.run.build, c.run.test, c.run.lint, c.run.format];
    assert Flat(vals[0]) && Flat(vals[1]) && Flat(vals[2]) && Flat(vals[3]);
    SectionRoundTrip(RunFields, vals, AsDict(c)[1].1.entries);
  }

  /** The `paths` section of a well-typed configuration reads back as its fields. */
  lemma PathsRoundTrip(c: Config)
    requires WellTyped(c)
    ensures Fields(GetOr(ToDict(c), "paths", Dict([])), PathsFields) == Ok([c.paths.base, c.paths.src])
  {
    ToDictShape(c);
    TopLevelDistinct(c);
    SectionLookup(TopLevel(c), 0);
    PathsSection(c);
    var vals := [c.paths.base, c.paths.src];
    assert Flat(vals[0]) && Flat(vals[1]);
    SectionRoundTrip(PathsFields, vals, AsDict(c)[0].1.entries);
  }

  /** The filtered app dict of a configuration that has an app. */
  lemma AppEntries(a: AppConfig)
    requires a.projectId.Str? && a.openapi != Some([])
    ensures var fe := FilterNone(AppValue(Some(a)).entries);
      fe != [] && HasKey(fe, "project_id") && Get(fe, "project_id") == a.projectId
      && GetOr(fe, "openapi", List([])) == (if a.openapi.Some? then AppValue(Some(a)).entries[1].1 else List([]))
  {
    var e := AppValue(Some(a)).entries;
    assert |e[0].0| != |e[1].0|;
    FilterNoneGet(e, "project_id");
    FindDistinct(e, 0);
    FilterNoneGet(e, "openapi");
    FindDistinct(e, 1);
  }

  /** Where `from_dict` finds the app section of `to_dict`'s output: nothing for no app, else the filtered app dict. */
  lemma AppLookup(c: Config)
    requires WellTyped(c)
    ensures GetOr(ToDict(c), "espada-app", Dict([]))
      == if c.app.None? then Dict([]) else Dict(FilterNone(AppValue(c.app).entries))
  {
    var t := TopLevel(c);
    ToDictShape(c);
    TopLevelDistinct(c);
    FilterNoneGet(t, "espada-app");
    FindDistinct(t, 2);
    if c.app.Some? {
      AppEntries(c.app.value);
    }
  }

  /** The filtered app dict of an app reads back as that app. */
  lemma AppSectionOf(a: AppConfig)
    requires a.projectId.Str? && a.openapi != Some([])
    ensures AppSection(Dict(FilterNone(AppValue(Some(a)).entries)), "project_id", "openapi", "url") == Ok(Some(a))
  {
    AppEntries(a);
    if a.openapi.Some? {
      UrlsOfDicts(a.openapi.value, "url");
    }
  }

  /** The app section that `to_dict` wrote reads back as the same app. */
  lemma AppRoundTrip(c: Config)
    requires WellTyped(c)
    ensures AppSection(GetOr(ToDict(c), "espada-app", Dict([])), "project_id", "openapi", "url") == Ok(c.app)
  {
    AppLookup(c);
    AppRead(c.app, GetOr(ToDict(c), "espada-app", Dict([])));
  }

  /** What `from_dict` reads from the app section `to_dict` leaves: the app, or nothing. */
  lemma AppRead(app: Option<AppConfig>, g: Value)
    requires app.Some? ==> app.value.projectId.Str? && app.value.openapi != Some([])
    requires g == if app.None? then Dict([]) else Dict(FilterNone(AppValue(app).entries))
    ensures AppSection(g, "project_id", "openapi", "url") == Ok(app)
  {
    if app.Some? {
      AppSectionOf(app.value);
    } else {
      assert !Truthy(g);
    }
  }

  /** A well-typed configuration survives `to_dict` followed by `from_dict`. */
  lemma FromDictToDict(c: Config)
    requires WellTyped(c)
    ensures FromDict(ToDict(c)) == Ok(c)
  {
    RunRoundTrip(c);
    PathsRoundTrip(c);
    AppRoundTrip(c);
  }
}
