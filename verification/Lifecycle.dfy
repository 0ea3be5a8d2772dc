/** The life of the integration providers: options, bootstrap, and shutdown on a signal. */
module Lifecycle {
  import opened Common

  /** One registration of a provider, with what its methods will answer for the loaded configuration. */
  datatype Provider = Provider(
    key: string,
    enabled: bool,
    required: bool,
    initOk: bool,
    hasCheck: bool,
    shutdownOk: bool)

  /** The keys of the known integrations that the configuration enables. */
  datatype AppConfig = AppConfig(enabled: set<string>)

  datatype Load = Loaded(cfg: AppConfig) | LoadFailed

  /** Where to load from. */
  datatype BootstrapConfig = BootstrapConfig(source: string)

  datatype Loader = Loader(load: BootstrapConfig -> Load)

  datatype Built = Built(
    initialized: seq<string>,
    degraded: seq<string>,
    retained: seq<Provider>,
    checks: seq<string>)

  datatype BootError =
    | ConfigLoad
    | MappingMismatch(key: string)
    | ProviderMismatch(key: string)
    | RequiredInit(key: string)
    | Router

  datatype BootResult = Ok(built: Built) | Err(error: BootError)

  /** What the outside sees happen, in order. */
  datatype Action =
    | Init(provider: Provider, ok: bool)
    | TokenCancelled
    | HttpDrained(ok: bool)
    | Shutdown(provider: Provider, ok: bool)

  const KNOWN := ["postgres", "redis", "mongodb", "nats", "qdrant", "neo4j", "s3", "oss"]

  /** The set of integration keys this binary supports. */
  class Features {
    var enabled: set<string>

    constructor ()
      ensures enabled == {}
    {
      enabled := {};
    }

    method Enable(key: string)
      modifies this
      ensures enabled == old(enabled) + {key}
    {
      enabled := enabled + {key};
    }

    predicate Contains(key: string)
      reads this
    {
      key in enabled
    }
  }

  // ------------------------------------------------------- what is to happen

  function Filter<T>(s: seq<T>, f: T -> bool): seq<T> {
    if s == [] then []
    else Filter(s[..|s| - 1], f) + (if f(s[|s| - 1]) then [s[|s| - 1]] else [])
  }

  predicate On(p: Provider) {
    p.enabled
  }

  predicate Up(p: Provider) {
    p.enabled && p.initOk
  }

  predicate Down(p: Provider) {
    p.enabled && !p.initOk
  }

  predicate Checked(p: Provider) {
    p.enabled && p.initOk && p.hasCheck
  }

  function Keys(providers: seq<Provider>): (r: seq<string>)
    ensures |r| == |providers| && forall i :: 0 <= i < |r| ==> r[i] == providers[i].key
  {
    seq(|providers|, i requires 0 <= i < |providers| => providers[i].key)
  }

  /** The Init calls made for a list of providers. */
  function Inits(providers: seq<Provider>): seq<Action> {
    if providers == [] then []
    else
      var last := providers[|providers| - 1];
      Inits(providers[..|providers| - 1]) + (if last.enabled then [Init(last, last.initOk)] else [])
  }

  /** A provider at which bootstrap gives up. */
  predicate Offends(features: set<string>, p: Provider) {
    p.enabled && (p.key !in features || (!p.initOk && p.required))
  }

  predicate FirstOffender(features: set<string>, providers: seq<Provider>, i: int) {
    0 <= i < |providers| && Offends(features, providers[i])
    && forall j :: 0 <= j < i ==> !Offends(features, providers[j])
  }

  predicate Mapped(cfg: AppConfig, features: set<string>, key: string) {
    key in cfg.enabled ==> key in features
  }

  predicate FirstUnmapped(cfg: AppConfig, features: set<string>, i: int) {
    0 <= i < |KNOWN| && !Mapped(cfg, features, KNOWN[i]) && forall j :: 0 <= j < i ==> Mapped(cfg, features, KNOWN[j])
  }

  function BuiltFrom(providers: seq<Provider>): Built {
    Built(Keys(Filter(providers, Up)), Keys(Filter(providers, Down)),
          Filter(providers, Up), Keys(Filter(providers, Checked)))
  }

  // --------------------------------------------------------------- bootstrap

  /** The first enabled known integration that the binary does not support. */
  method ValidateFeatureMapping(cfg: AppConfig, features: Features) returns (mismatch: Option<string>)
    ensures mismatch.None? <==> AllMapped(cfg, features.enabled)
    ensures mismatch.Some? ==> mismatch.value in cfg.enabled && mismatch.value !in features.enabled
    ensures mismatch.Some? ==> exists i :: FirstUnmapped(cfg, features.enabled, i) && mismatch.value == KNOWN[i]
  {
    for i := 0 to |KNOWN|
      invariant forall j :: 0 <= j < i ==> Mapped(cfg, features.enabled, KNOWN[j])
    {
      if KNOWN[i] in cfg.enabled && !features.Contains(KNOWN[i]) {
        assert FirstUnmapped(cfg, features.enabled, i);
        return Some(KNOWN[i]);
      }
    }
    return None;
  }

  /** Why bootstrap gives up at a provider. */
  function Blame(features: set<string>, p: Provider): BootError {
    if p.key !in features then ProviderMismatch(p.key) else RequiredInit(p.key)
  }

  /** What has happened when bootstrap gives up at provider i: nothing is shut down. */
  function Attempts(features: set<string>, providers: seq<Provider>, i: nat): seq<Action>
    requires i < |providers|
  {
    Inits(providers[..i]) + (if providers[i].key in features then [Init(providers[i], false)] else [])
  }

  ghost predicate StopsAtOffender(features: set<string>, providers: seq<Provider>, error: BootError, trace: seq<Action>) {
    exists i :: FirstOffender(features, providers, i) && error == Blame(features, providers[i]) && trace == Attempts(features, providers, i)
  }

  predicate NoOffender(features: set<string>, providers: seq<Provider>) {
    forall i :: 0 <= i < |providers| ==> !Offends(features, providers[i])
  }

  /** The loop over the providers, up to the first at which it gives up. */
  method InitProviders(features: Features, providers: seq<Provider>)
    returns (failed: Option<BootError>, built: Built, trace: seq<Action>)
    ensures failed.None? ==> NoOffender(features.enabled, providers)
                             && built == BuiltFrom(providers) && trace == Inits(providers)
    ensures failed.Some? ==> StopsAtOffender(features.enabled, providers, failed.value, trace)
  {
    hide BuiltFrom, Inits;
    trace := [];
    built := Built([], [], [], []);
    NothingBuilt();
    for i := 0 to |providers|
      invariant forall j :: 0 <= j < i ==> !Offends(features.enabled, providers[j])
      invariant trace == Inits(providers[..i])
      invariant built == BuiltFrom(providers[..i])
    {
      var p := providers[i];
      BuiltFromMore(providers, i);
      if !p.enabled {
        continue;
      }
      if !features.Contains(p.key) {
        assert FirstOffender(features.enabled, providers, i);
        return Some(ProviderMismatch(p.key)), built, trace;
      }
      trace := trace + [Init(p, p.initOk)];
      if !p.initOk {
        if p.required {
          assert FirstOffender(features.enabled, providers, i);
          return Some(RequiredInit(p.key)), built, trace;
        }
        built := built.(degraded := built.degraded + [p.key]);
        continue;
      }
      if p.hasCheck {
        built := built.(checks := built.checks + [p.key]);
      }
      built := built.(initialized := built.initialized + [p.key], retained := built.retained + [p]);
    }
    assert providers[..|providers|] == providers;
    return None, built, trace;
  }

  lemma NothingBuilt()
    ensures forall providers: seq<Provider> :: BuiltFrom(providers[..0]) == Built([], [], [], []) && Inits(providers[..0]) == []
  {
  }

  /** Nil stands for the default. */
  function Resolve<T>(given: Option<T>, fallback: T): T {
    match given
    case None => fallback
    case Some(value) => value
  }

  /** The pipeline: load, check the mapping, initialise in order, build the router. */
  method BootstrapWith(
      bs: Option<BootstrapConfig>, defaultBs: BootstrapConfig, loader: Option<Loader>, defaultLoader: Loader,
      given: Features?, providers: seq<Provider>, routerOk: bool)
    returns (result: BootResult, trace: seq<Action>)
    ensures Boots((if loader.Some? then loader.value else defaultLoader).load(if bs.Some? then bs.value else defaultBs),
                  if given == null then {} else given.enabled, providers, routerOk, result, trace)
  {
    var source := if bs.None? then defaultBs else bs.value;
    var loads := if loader.None? then defaultLoader else loader.value;
    var load := loads.load(source);
    if load.LoadFailed? {
      return Err(ConfigLoad), [];
    }
    var features: Features;
    if given == null {
      features := new Features();
    } else {
      features := given;
    }
    var mismatch := ValidateFeatureMapping(load.cfg, features);
    if mismatch.Some? {
      return Err(MappingMismatch(mismatch.value)), [];
    }
    var failed, built;
    failed, built, trace := InitProviders(features, providers);
    if failed.Some? {
      return Err(failed.value), trace;
    }
    if !routerOk {
      return Err(Router), trace;
    }
    return Ok(built), trace;
  }

  predicate AllMapped(cfg: AppConfig, features: set<string>) {
    forall key :: key in KNOWN ==> Mapped(cfg, features, key)
  }

  /** How bootstrap ends: at the load, at the first unmapped integration, at the first offending
      provider, at the router, or with every enabled provider accounted for. */
  ghost predicate Boots(
      load: Load, features: set<string>, providers: seq<Provider>, routerOk: bool, result: BootResult, trace: seq<Action>)
  {
    if load.LoadFailed? then
      result == Err(ConfigLoad) && trace == []
    else if !AllMapped(load.cfg, features) then
      exists i :: FirstUnmapped(load.cfg, features, i) && result == Err(MappingMismatch(KNOWN[i])) && trace == []
    else if !NoOffender(features, providers) then
      result.Err? && StopsAtOffender(features, providers, result.error, trace)
    else
      trace == Inits(providers) && result == if routerOk then Ok(BuiltFrom(providers)) else Err(Router)
  }

  lemma BuiltFromMore(providers: seq<Provider>, i: nat)
    requires i < |providers|
    ensures var b, p := BuiltFrom(providers[..i]), providers[i];
      BuiltFrom(providers[..i + 1]) == Built(
        if Up(p) then b.initialized + [p.key] else b.initialized,
        if Down(p) then b.degraded + [p.key] else b.degraded,
        if Up(p) then b.retained + [p] else b.retained,
        if Checked(p) then b.checks + [p.key] else b.checks)
    ensures Inits(providers[..i + 1]) ==
            Inits(providers[..i]) + (if providers[i].enabled then [Init(providers[i], providers[i].initOk)] else [])
  {
    var longer := providers[..i + 1];
    assert longer[..i] == providers[..i] && longer[i] == providers[i];
    KeysMore(Filter(providers[..i], Up), providers[i]);
    KeysMore(Filter(providers[..i], Down), providers[i]);
    KeysMore(Filter(providers[..i], Checked), providers[i]);
  }

  lemma KeysMore(providers: seq<Provider>, p: Provider)
    ensures Keys(providers + [p]) == Keys(providers) + [p.key]
    ensures Keys(providers + []) == Keys(providers) && providers + [] == providers
  {
    assert providers + [] == providers;
  }

  // ------------------------------------------------------------ the partition

  /** ys and zs, merged somehow without reordering either, give xs. */
  predicate Interleaves<T(==)>(xs: seq<T>, ys: seq<T>, zs: seq<T>)
    decreases |xs|
  {
    if xs == [] then ys == [] && zs == []
    else
      var last, front := xs[|xs| - 1], xs[..|xs| - 1];
      || (ys != [] && ys[|ys| - 1] == last && Interleaves(front, ys[..|ys| - 1], zs))
      || (zs != [] && zs[|zs| - 1] == last && Interleaves(front, ys, zs[..|zs| - 1]))
  }

  lemma InterleavesMore<T>(xs: seq<T>, ys: seq<T>, zs: seq<T>, x: T)
    requires Interleaves(xs, ys, zs)
    ensures Interleaves(xs + [x], ys + [x], zs)
    ensures Interleaves(xs + [x], ys, zs + [x])
  {
    assert (xs + [x])[..|xs|] == xs && (ys + [x])[..|ys|] == ys && (zs + [x])[..|zs|] == zs;
  }

  lemma {:induction false} UpAndDownInterleave(providers: seq<Provider>)
    ensures Interleaves(Filter(providers, On), Filter(providers, Up), Filter(providers, Down))
  {
    if providers != [] {
      var front, last := providers[..|providers| - 1], providers[|providers| - 1];
      UpAndDownInterleave(front);
      hide Interleaves;
      InterleavesMore(Filter(front, On), Filter(front, Up), Filter(front, Down), last);
      assert Filter(front, On) + [] == Filter(front, On);
      assert Filter(front, Up) + [] == Filter(front, Up) && Filter(front, Down) + [] == Filter(front, Down);
    }
  }

  lemma {:induction false} KeysInterleave(xs: seq<Provider>, ys: seq<Provider>, zs: seq<Provider>)
    requires Interleaves(xs, ys, zs)
    ensures Interleaves(Keys(xs), Keys(ys), Keys(zs))
    decreases |xs|
  {
    if xs != [] {
      var last, front := xs[|xs| - 1], xs[..|xs| - 1];
      assert Keys(xs)[..|xs| - 1] == Keys(front);
      if ys != [] && ys[|ys| - 1] == last && Interleaves(front, ys[..|ys| - 1], zs) {
        KeysInterleave(front, ys[..|ys| - 1], zs);
        assert Keys(ys)[..|ys| - 1] == Keys(ys[..|ys| - 1]);
      } else {
        KeysInterleave(front, ys, zs[..|zs| - 1]);
        assert Keys(zs)[..|zs| - 1] == Keys(zs[..|zs| - 1]);
      }
    }
  }

  lemma {:induction false} FilterHas<T>(s: seq<T>, f: T -> bool)
    ensures forall x :: x in Filter(s, f) <==> x in s && f(x)
  {
    if s != [] {
      FilterHas(s[..|s| - 1], f);
      assert s == s[..|s| - 1] + [s[|s| - 1]];
    }
  }

  /** After a successful bootstrap the enabled providers are exactly the initialised and the degraded
      ones, in order; what is retained is what was initialised; and nothing required is degraded. */
  lemma BootstrapPartitions(
      load: Load, features: set<string>, providers: seq<Provider>, routerOk: bool, result: BootResult, trace: seq<Action>)
    requires Boots(load, features, providers, routerOk, result, trace) && result.Ok?
    ensures Interleaves(Keys(Filter(providers, On)), result.built.initialized, result.built.degraded)
    ensures Keys(result.built.retained) == result.built.initialized
    ensures forall p :: p in result.built.retained <==> p in providers && p.enabled && p.initOk
    ensures forall p :: p in providers && p.enabled && !p.initOk ==> !p.required && p.key in result.built.degraded
    ensures forall key :: key in result.built.degraded <==> exists p :: p in providers && p.enabled && !p.initOk && p.key == key
    ensures forall key :: key in result.built.checks <==>
              exists p :: p in providers && p.enabled && p.initOk && p.hasCheck && p.key == key
    ensures forall p :: p in providers && p.enabled ==> p.key in features
  {
    hide Interleaves;
    UpAndDownInterleave(providers);
    KeysInterleave(Filter(providers, On), Filter(providers, Up), Filter(providers, Down));
    FilterHas(providers, Up);
    KeysHave(providers, Down);
    KeysHave(providers, Checked);
    forall p | p in providers && p.enabled
      ensures p.key in features && (p.initOk || !p.required)
    {
      var i :| 0 <= i < |providers| && providers[i] == p;
      assert !Offends(features, providers[i]);
    }
  }

  lemma KeysHave(providers: seq<Provider>, f: Provider -> bool)
    ensures forall key :: key in Keys(Filter(providers, f)) <==> exists p :: p in providers && f(p) && p.key == key
  {
    FilterHas(providers, f);
    var chosen := Filter(providers, f);
    forall p | p in providers && f(p)
      ensures p.key in Keys(chosen)
    {
      var k :| 0 <= k < |chosen| && chosen[k] == p;
      assert Keys(chosen)[k] == p.key;
    }
    forall key | key in Keys(chosen)
      ensures exists p :: p in providers && f(p) && p.key == key
    {
      var k :| 0 <= k < |chosen| && Keys(chosen)[k] == key;
      assert chosen[k] in chosen;
    }
  }

  /** The integrations that are checked against the features: in the order of the first mismatch reported. */
  lemma KnownIntegrations(cfg: AppConfig, features: set<string>, i: int)
    requires FirstUnmapped(cfg, features, i)
    ensures forall key :: key in KNOWN <==> key in {"postgres", "redis", "mongodb", "nats", "qdrant", "neo4j", "s3", "oss"}
    ensures var bad := (key: string) => key in cfg.enabled && key !in features;
      KNOWN[i] == if bad("postgres") then "postgres" else if bad("redis") then "redis"
                  else if bad("mongodb") then "mongodb" else if bad("nats") then "nats"
                  else if bad("qdrant") then "qdrant" else if bad("neo4j") then "neo4j"
                  else if bad("s3") then "s3" else "oss"
  {
    assert forall j :: 0 <= j < i ==> Mapped(cfg, features, KNOWN[j]);
    assert KNOWN[0] == "postgres" && KNOWN[1] == "redis" && KNOWN[2] == "mongodb" && KNOWN[3] == "nats";
    assert KNOWN[4] == "qdrant" && KNOWN[5] == "neo4j" && KNOWN[6] == "s3" && KNOWN[7] == "oss";
  }

  /** Bootstrap succeeds exactly when the configuration loads, every enabled known integration is
      supported, every enabled provider is supported and comes up or is optional, and the router is built. */
  lemma BootstrapSucceedsExactly(
      load: Load, features: set<string>, providers: seq<Provider>, routerOk: bool, result: BootResult, trace: seq<Action>)
    requires Boots(load, features, providers, routerOk, result, trace)
    ensures result.Ok? <==>
      && load.Loaded? && routerOk
      && (forall key :: key in KNOWN && key in load.cfg.enabled ==> key in features)
      && forall p :: p in providers && p.enabled ==> p.key in features && (p.initOk || !p.required)
  {
    if NoOffender(features, providers) {
      forall p | p in providers && p.enabled
        ensures p.key in features && (p.initOk || !p.required)
      {
        var i :| 0 <= i < |providers| && providers[i] == p;
        assert !Offends(features, providers[i]);
      }
    } else {
      var i :| 0 <= i < |providers| && Offends(features, providers[i]);
      assert providers[i] in providers;
    }
  }

  /** And otherwise it says why: the first thing that is wrong decides, in the order load, mapping, providers,
      router; before the providers nothing has been initialised. */
  lemma BootstrapErrorsExactly(
      load: Load, features: set<string>, providers: seq<Provider>, routerOk: bool, result: BootResult, trace: seq<Action>)
    requires Boots(load, features, providers, routerOk, result, trace)
    ensures result == Err(ConfigLoad) <==> load.LoadFailed?
    ensures result.Err? && result.error.MappingMismatch? <==>
              load.Loaded? && exists key :: key in KNOWN && key in load.cfg.enabled && key !in features
    ensures result.Err? && result.error.MappingMismatch? ==>
              exists i :: 0 <= i < |KNOWN| && result.error.key == KNOWN[i] && KNOWN[i] in load.cfg.enabled && KNOWN[i] !in features
                          && forall j :: 0 <= j < i && KNOWN[j] in load.cfg.enabled ==> KNOWN[j] in features
    ensures result.Err? && (result.error.ConfigLoad? || result.error.MappingMismatch?) ==> trace == []
    ensures result == Err(Router) ==> !routerOk && trace == Inits(providers)
    ensures result == Err(Router) ==>
              forall p :: p in providers && p.enabled ==> p.key in features && (p.initOk || !p.required)
  {
    if load.Loaded? && AllMapped(load.cfg, features) && NoOffender(features, providers) {
      forall p | p in providers && p.enabled
        ensures p.key in features && (p.initOk || !p.required)
      {
        var i :| 0 <= i < |providers| && providers[i] == p;
        assert !Offends(features, providers[i]);
      }
    }
  }

  /** Where the loop gives up: at the first enabled provider whose key is no feature, which is not initialised, or
      that is required and fails; every enabled one before it has been initialised, and none is shut down. */
  lemma BootstrapGivesUpAt(
      load: Load, features: set<string>, providers: seq<Provider>, routerOk: bool, result: BootResult, trace: seq<Action>)
    returns (i: nat)
    requires Boots(load, features, providers, routerOk, result, trace)
    requires result.Err? && (result.error.ProviderMismatch? || result.error.RequiredInit?)
    ensures i < |providers| && providers[i].enabled
    ensures forall j :: 0 <= j < i && providers[j].enabled ==>
              providers[j].key in features && (providers[j].initOk || !providers[j].required)
    ensures if providers[i].key !in features
            then result.error == ProviderMismatch(providers[i].key) && trace == Inits(providers[..i])
            else result.error == RequiredInit(providers[i].key) && !providers[i].initOk && providers[i].required
                 && trace == Inits(providers[..i]) + [Init(providers[i], false)]
  {
    i :| FirstOffender(features, providers, i) && result.error == Blame(features, providers[i])
         && trace == Attempts(features, providers, i);
    assert forall j :: 0 <= j < i ==> !Offends(features, providers[j]);
    assert Inits(providers[..i]) + [] == Inits(providers[..i]);
  }

  /** The Init calls, one by one: that of an enabled provider comes after those of the enabled ones before it. */
  lemma {:induction false} InitsInOrder(providers: seq<Provider>, i: nat)
    requires i < |providers|
    ensures |Inits(providers)| == CountBefore(providers, On, |providers|)
    ensures providers[i].enabled ==>
      var k := CountBefore(providers, On, i);
      k < |Inits(providers)| && Inits(providers)[k] == Init(providers[i], providers[i].initOk)
    decreases |providers|
  {
    var n := |providers| - 1;
    var front, last := providers[..n], providers[n];
    CountNext(providers, On, n);
    CountPrefix(providers, front, On, n);
    if n > 0 {
      InitsInOrder(front, if i < n then i else 0);
    }
    if i < n {
      CountPrefix(providers, front, On, i);
    }
    hide CountBefore;
  }

  /** What a filter keeps, it keeps in order. */
  lemma {:induction false} FilterInOrder<T>(s: seq<T>, f: T -> bool, i: nat)
    requires i < |s|
    ensures |Filter(s, f)| == CountBefore(s, f, |s|)
    ensures f(s[i]) ==>
      var k := CountBefore(s, f, i);
      k < |Filter(s, f)| && Filter(s, f)[k] == s[i]
    decreases |s|
  {
    var n := |s| - 1;
    var front := s[..n];
    CountNext(s, f, n);
    CountPrefix(s, front, f, n);
    if n > 0 {
      FilterInOrder(front, f, if i < n then i else 0);
    }
    if i < n {
      CountPrefix(s, front, f, i);
    }
    hide CountBefore;
  }

  // ------------------------------------------------------------------ options

  datatype RunOption =
    | WithProvider(provider: Provider)
    | WithFeature(key: string)
    | WithLoader(loader: Option<Loader>)

  class Options {
    var loader: Option<Loader>
    var features: Features
    var providers: seq<Provider>

    constructor (defaultLoader: Loader)
      ensures loader == Some(defaultLoader) && fresh(features) && features.enabled == {} && providers == []
    {
      loader := Some(defaultLoader);
      features := new Features();
      providers := [];
    }

    /** Registering a provider also enables its key. */
    method ApplyOption(opt: RunOption)
      modifies this, features
      ensures features == old(features)
      ensures match opt
              case WithProvider(p) => providers == old(providers) + [p] && loader == old(loader)
                                      && features.enabled == old(features.enabled) + {p.key}
              case WithFeature(key) => providers == old(providers) && loader == old(loader)
                                       && features.enabled == old(features.enabled) + {key}
              case WithLoader(l) => providers == old(providers) && loader == l
                                    && features.enabled == old(features.enabled)
    {
      match opt
      case WithProvider(p) =>
        providers := providers + [p];
        features.Enable(p.key);
      case WithFeature(key) =>
        features.Enable(key);
      case WithLoader(l) =>
        loader := l;
    }
  }

  /** The providers registered by the options, in order. */
  function ProvidersOf(opts: seq<RunOption>): seq<Provider> {
    if opts == [] then []
    else
      var last := opts[|opts| - 1];
      ProvidersOf(opts[..|opts| - 1]) + (if last.WithProvider? then [last.provider] else [])
  }

  predicate Registers(opt: RunOption) {
    opt.WithProvider?
  }

  /** Providers are registered in the order of their options, and none comes from anywhere else. */
  lemma {:induction false} ProvidersInOrder(opts: seq<RunOption>, i: nat)
    requires i < |opts|
    ensures |ProvidersOf(opts)| == CountBefore(opts, Registers, |opts|)
    ensures opts[i].WithProvider? ==>
      var k := CountBefore(opts, Registers, i);
      k < |ProvidersOf(opts)| && ProvidersOf(opts)[k] == opts[i].provider
    decreases |opts|
  {
    var n := |opts| - 1;
    var front := opts[..n];
    CountNext(opts, Registers, n);
    CountPrefix(opts, front, Registers, n);
    if n > 0 {
      ProvidersInOrder(front, if i < n then i else 0);
    }
    if i < n {
      CountPrefix(opts, front, Registers, i);
    }
    hide CountBefore;
  }

  /** So, of two providers that are enabled, the one registered first is initialised first. */
  lemma RegisteredFirstInitialisedFirst(opts: seq<RunOption>, i: nat, j: nat) returns (x: nat, y: nat)
    requires i < j < |opts| && opts[i].WithProvider? && opts[j].WithProvider?
    requires opts[i].provider.enabled && opts[j].provider.enabled
    ensures x < y < |Inits(ProvidersOf(opts))|
    ensures Inits(ProvidersOf(opts))[x] == Init(opts[i].provider, opts[i].provider.initOk)
    ensures Inits(ProvidersOf(opts))[y] == Init(opts[j].provider, opts[j].provider.initOk)
  {
    var providers := ProvidersOf(opts);
    ProvidersInOrder(opts, i);
    ProvidersInOrder(opts, j);
    CountGrows(opts, Registers, i, j);
    var a, b := CountBefore(opts, Registers, i), CountBefore(opts, Registers, j);
    hide CountBefore, Inits, ProvidersOf;
    InitsInOrder(providers, a);
    InitsInOrder(providers, b);
    CountGrows(providers, On, a, b);
    x, y := CountBefore(providers, On, a), CountBefore(providers, On, b);
  }

  /** The keys enabled by the options. */
  ghost function FeaturesOf(opts: seq<RunOption>): set<string> {
    set opt | opt in opts && !opt.WithLoader? :: KeyOf(opt)
  }

  function KeyOf(opt: RunOption): string
    requires !opt.WithLoader?
  {
    if opt.WithProvider? then opt.provider.key else opt.key
  }

  lemma FeaturesMore(opts: seq<RunOption>, opt: RunOption)
    ensures FeaturesOf(opts + [opt]) == FeaturesOf(opts) + (if opt.WithLoader? then {} else {KeyOf(opt)})
  {
    var more := opts + [opt];
    assert forall o :: o in more <==> o in opts || o == opt;
    forall key | key in FeaturesOf(opts)
      ensures key in FeaturesOf(more)
    {
      var o :| o in opts && !o.WithLoader? && KeyOf(o) == key;
      assert o in more;
    }
    assert opt in more;
  }

  /** The last loader given wins. */
  function LoaderOf(opts: seq<RunOption>, fallback: Loader): Loader {
    if opts == [] then fallback
    else
      var last := opts[|opts| - 1];
      if last.WithLoader? then Resolve(last.loader, fallback) else LoaderOf(opts[..|opts| - 1], fallback)
  }

  /** The loader of the last WithLoader is used, unless that is nil or there is none. */
  lemma {:induction false} LastLoaderWins(opts: seq<RunOption>, fallback: Loader, last: int)
    requires -1 <= last < |opts| && (last >= 0 ==> opts[last].WithLoader?)
    requires forall j :: last < j < |opts| ==> !opts[j].WithLoader?
    ensures LoaderOf(opts, fallback) ==
            if last >= 0 && opts[last].loader.Some? then opts[last].loader.value else fallback
  {
    if last < |opts| - 1 {
      LastLoaderWins(opts[..|opts| - 1], fallback, last);
    }
  }

  /** What is enabled is what was registered or named, and nothing else. */
  lemma FeaturesExactly(opts: seq<RunOption>, key: string)
    ensures key in FeaturesOf(opts) <==>
            exists opt :: opt in opts && ((opt.WithProvider? && opt.provider.key == key) || opt == WithFeature(key))
  {
    if opt :| opt in opts && ((opt.WithProvider? && opt.provider.key == key) || opt == WithFeature(key)) {
      assert KeyOf(opt) == key;
    }
  }

  method Run(
      bs: Option<BootstrapConfig>, defaultBs: BootstrapConfig, opts: seq<RunOption>, defaultLoader: Loader, routerOk: bool)
    returns (result: BootResult, trace: seq<Action>)
    ensures Boots(LoaderOf(opts, defaultLoader).load(if bs.Some? then bs.value else defaultBs),
                  FeaturesOf(opts), ProvidersOf(opts), routerOk, result, trace)
  {
    var o := new Options(defaultLoader);
    for i := 0 to |opts|
      invariant fresh(o) && fresh(o.features)
      invariant Resolve(o.loader, defaultLoader) == LoaderOf(opts[..i], defaultLoader)
      invariant o.features.enabled == FeaturesOf(opts[..i])
      invariant o.providers == ProvidersOf(opts[..i])
    {
      var sofar := opts[..i + 1];
      assert sofar[..i] == opts[..i] && sofar == opts[..i] + [opts[i]];
      FeaturesMore(opts[..i], opts[i]);
      o.ApplyOption(opts[i]);
    }
    assert opts[..|opts|] == opts;
    result, trace := BootstrapWith(bs, defaultBs, o.loader, defaultLoader, o.features, o.providers, routerOk);
  }

  lemma {:induction false} RegisteredAreEnabled(opts: seq<RunOption>)
    ensures forall p :: p in ProvidersOf(opts) ==> p.key in FeaturesOf(opts)
    ensures (forall opt :: opt in opts ==> !opt.WithFeature?) ==>
              forall key :: key in FeaturesOf(opts) ==> exists p :: p in ProvidersOf(opts) && p.key == key
  {
    if opts != [] {
      var front, last := opts[..|opts| - 1], opts[|opts| - 1];
      assert opts == front + [last];
      RegisteredAreEnabled(front);
      FeaturesMore(front, last);
      assert forall opt :: opt in front ==> opt in opts;
      forall key | key in FeaturesOf(opts) && forall opt :: opt in opts ==> !opt.WithFeature?
        ensures exists p :: p in ProvidersOf(opts) && p.key == key
      {
        if key in FeaturesOf(front) {
          var p :| p in ProvidersOf(front) && p.key == key;
          assert p in ProvidersOf(opts);
        } else {
          assert last in opts;
          assert last.provider in ProvidersOf(opts);
        }
      }
    }
  }

  /** Through Run the mismatch inside the loop cannot happen: registering a provider enables its key. */
  lemma RunNeverMismatchesAProvider(
      opts: seq<RunOption>, load: Load, routerOk: bool, result: BootResult, trace: seq<Action>)
    requires Boots(load, FeaturesOf(opts), ProvidersOf(opts), routerOk, result, trace)
    ensures !(result.Err? && result.error.ProviderMismatch?)
  {
    RegisteredAreEnabled(opts);
  }

  /** If features are enabled only by registering providers, and every provider of a known integration
      is enabled when the configuration enables it, then every enabled known integration is accounted for. */
  lemma RunAccountsForEveryIntegration(
      opts: seq<RunOption>, load: Load, routerOk: bool, result: BootResult, trace: seq<Action>, key: string)
    requires Boots(load, FeaturesOf(opts), ProvidersOf(opts), routerOk, result, trace) && result.Ok?
    requires forall opt :: opt in opts ==> !opt.WithFeature?
    requires forall p :: p in ProvidersOf(opts) && p.key in KNOWN && p.key in load.cfg.enabled ==> p.enabled
    requires key in KNOWN && key in load.cfg.enabled
    ensures key in result.built.initialized || key in result.built.degraded
  {
    RegisteredAreEnabled(opts);
    assert Mapped(load.cfg, FeaturesOf(opts), key);
    var providers := ProvidersOf(opts);
    var p :| p in providers && p.key == key;
    BootstrapPartitions(load, FeaturesOf(opts), providers, routerOk, result, trace);
    FilterHas(providers, Up);
    if Up(p) {
      var up := Filter(providers, Up);
      var k :| 0 <= k < |up| && up[k] == p;
      assert result.built.initialized[k] == key;
    }
  }

  // ----------------------------------------------------------------- shutdown

  function Reverse<T>(s: seq<T>): (r: seq<T>)
    ensures |r| == |s| && forall i :: 0 <= i < |s| ==> r[i] == s[|s| - 1 - i]
  {
    seq(|s|, i requires 0 <= i < |s| => s[|s| - 1 - i])
  }

  function Shutdowns(providers: seq<Provider>): (r: seq<Action>)
    ensures |r| == |providers|
    ensures forall i :: 0 <= i < |r| ==> r[i] == Shutdown(providers[i], providers[i].shutdownOk)
  {
    seq(|providers|, i requires 0 <= i < |providers| => Shutdown(providers[i], providers[i].shutdownOk))
  }

  /** The signal path: cancel the token, drain HTTP, then shut every provider down, last one first,
      whatever any of these says. */
  method ServeUntilSignal(built: Built, drainOk: bool) returns (trace: seq<Action>)
    ensures trace == [TokenCancelled, HttpDrained(drainOk)] + Shutdowns(Reverse(built.retained))
  {
    trace := [TokenCancelled];
    trace := trace + [HttpDrained(drainOk)];
    var providers := built.retained;
    var i := |providers| - 1;
    while i >= 0
      invariant -1 <= i < |providers|
      invariant trace == [TokenCancelled, HttpDrained(drainOk)] + Shutdowns(Reverse(providers))[..|providers| - 1 - i]
    {
      var p := providers[i];
      trace := trace + [Shutdown(p, p.shutdownOk)];
      i := i - 1;
    }
  }

  /** The providers that are up after a trace, oldest first; None if one is shut down that is not the last. */
  function UpAfter(trace: seq<Action>): Option<seq<Provider>> {
    if trace == [] then Some([])
    else ThenUp(UpAfter(trace[..|trace| - 1]), trace[|trace| - 1])
  }

  function ThenUp(before: Option<seq<Provider>>, action: Action): Option<seq<Provider>> {
    match before
    case None => None
    case Some(up) =>
      match action
      case Init(p, ok) => Some(if ok then up + [p] else up)
      case Shutdown(p, _) => if up != [] && up[|up| - 1] == p then Some(up[..|up| - 1]) else None
      case TokenCancelled => Some(up)
      case HttpDrained(_) => Some(up)
  }

  lemma UpAfterMore(trace: seq<Action>, action: Action)
    ensures UpAfter(trace + [action]) == ThenUp(UpAfter(trace), action)
  {
    assert (trace + [action])[..|trace|] == trace;
  }

  lemma {:induction false} UpAfterInits(providers: seq<Provider>)
    ensures UpAfter(Inits(providers)) == Some(Filter(providers, Up))
  {
    if providers != [] {
      var front, last := providers[..|providers| - 1], providers[|providers| - 1];
      UpAfterInits(front);
      UpAfterMore(Inits(front), Init(last, last.initOk));
      assert Inits(front) + [] == Inits(front) && Filter(front, Up) + [] == Filter(front, Up);
    }
  }

  /** The signal path after the providers in `providers` have been tried. */
  function Served(providers: seq<Provider>, drainOk: bool): seq<Action> {
    [TokenCancelled, HttpDrained(drainOk)] + Shutdowns(Reverse(Filter(providers, Up)))
  }

  /** From a successful bootstrap to the end: brackets match, so that when a provider is shut down
      exactly the providers initialised before it are still up, and in the end none is. */
  lemma {:induction false} LifecycleIsBracketed(providers: seq<Provider>, drainOk: bool, m: nat)
    requires m <= |Filter(providers, Up)|
    ensures var up := Filter(providers, Up);
      UpAfter(Inits(providers) + Served(providers, drainOk)[..2 + m]) == Some(up[..|up| - m])
  {
    var up, served, inits := Filter(providers, Up), Served(providers, drainOk), Inits(providers);
    hide UpAfter, Filter, Inits;
    if m == 0 {
      UpAfterInits(providers);
      UpAfterMore(inits, TokenCancelled);
      UpAfterMore(inits + [TokenCancelled], HttpDrained(drainOk));
      assert inits + served[..2] == inits + [TokenCancelled] + [HttpDrained(drainOk)];
      assert up[..|up|] == up;
    } else {
      LifecycleIsBracketed(providers, drainOk, m - 1);
      UpAfterMore(inits + served[..1 + m], served[1 + m]);
      assert inits + served[..2 + m] == inits + served[..1 + m] + [served[1 + m]];
      assert up[..|up| - (m - 1)][..|up| - m] == up[..|up| - m];
    }
  }

  /** The whole of RunAndServe on the signal path. */
  method RunAndServe(
      bs: Option<BootstrapConfig>, defaultBs: BootstrapConfig, opts: seq<RunOption>, defaultLoader: Loader,
      routerOk: bool, drainOk: bool)
    returns (result: BootResult, trace: seq<Action>)
    ensures result.Err? ==> forall i :: 0 <= i < |trace| ==> trace[i].Init?
    ensures result.Ok? ==> trace == Inits(ProvidersOf(opts)) + [TokenCancelled, HttpDrained(drainOk)]
                                    + Shutdowns(Reverse(result.built.retained))
    ensures result.Ok? ==> result.built == BuiltFrom(ProvidersOf(opts)) && UpAfter(trace) == Some([])
  {
    result, trace := Run(bs, defaultBs, opts, defaultLoader, routerOk);
    ghost var providers := ProvidersOf(opts);
    InitsAreInits(providers);
    if result.Err? {
      ghost var features := FeaturesOf(opts);
      forall i | FirstOffender(features, providers, i)
        ensures forall k :: 0 <= k < |Attempts(features, providers, i)| ==> Attempts(features, providers, i)[k].Init?
      {
        InitsAreInits(providers[..i]);
      }
      return;
    }
    var served := ServeUntilSignal(result.built, drainOk);
    ghost var retained := Filter(providers, Up);
    LifecycleIsBracketed(providers, drainOk, |retained|);
    assert served[..2 + |retained|] == served;
    trace := trace + served;
  }

  lemma {:induction false} InitsAreInits(providers: seq<Provider>)
    ensures forall i :: 0 <= i < |Inits(providers)| ==> Inits(providers)[i].Init?
  {
    if providers != [] {
      InitsAreInits(providers[..|providers| - 1]);
    }
  }
}
