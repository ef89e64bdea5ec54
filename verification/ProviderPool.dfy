/** The provider pool rebuild: `BuildProviders`, `GetFusionMLX` and `FusionMLXName`
    (internal/adapter/pool.go). Maps are visited in an arbitrary order, as in the source.
    The model-set refresh at the end of a rebuild is I/O and left out. */
module ProviderPool {
  import opened Prelude

  /** A backend entry of the configuration. `host` is the host name of its base URL, empty
      when the URL does not parse or has none. */
  datatype Backend = Backend(typ: string, enabled: bool, socketPath: string, host: string, baseUrl: string)

  datatype Config = Config(backends: map<string, Backend>, maxConcurrent: int)

  /** A `FusionMLXProvider`: the owner of the slot counter. */
  datatype Engine = Engine(backend: Backend, cap: nat)

  datatype Provider =
    | Mlx(engine: Engine)
    | Plain(name: string, backend: Backend)
    | Cloud(inner: Provider)                 // cloudTrackingProvider
    | Slot(inner: Provider, engine: Engine)  // localSlotProvider

  function NewEngine(b: Backend, cfg: Config): Engine {
    Engine(b, if cfg.maxConcurrent < 0 then 0 else cfg.maxConcurrent)
  }

  function Factory(name: string, b: Backend, cfg: Config): Provider {
    if b.typ == "fusion-mlx" then Mlx(NewEngine(b, cfg)) else Plain(name, b)
  }

  predicate IsLocalBackend(b: Backend) {
    || b.typ == "fusion-mlx" || b.typ == "fusion-kb" || b.typ == "fusion-model-hub"
    || b.socketPath != ""
    || b.host == "localhost" || b.host == "127.0.0.1" || b.host == "::1" || b.host == "[::1]"
  }

  // ---------------------------------------------------------------- names in order

  /** The order of `sort.Strings`. */
  predicate Leq(a: string, b: string) {
    a == "" || (b != "" && (a[0] < b[0] || (a[0] == b[0] && Leq(a[1..], b[1..]))))
  }

  lemma {:induction false} LeqTotal(a: string, b: string)
    ensures Leq(a, b) || Leq(b, a)
    decreases |a|
  {
    if a != "" && b != "" { LeqTotal(a[1..], b[1..]); }
  }

  lemma {:induction false} LeqAntisymmetric(a: string, b: string)
    requires Leq(a, b) && Leq(b, a)
    ensures a == b
    decreases |a|
  {
    if a != "" && b != "" {
      LeqAntisymmetric(a[1..], b[1..]);
      assert a == [a[0]] + a[1..] && b == [b[0]] + b[1..];
    }
  }

  lemma {:induction false} LeqTransitive(a: string, b: string, c: string)
    requires Leq(a, b) && Leq(b, c)
    ensures Leq(a, c)
    decreases |a|
  {
    if a != "" && a[0] == b[0] && b[0] == c[0] { LeqTransitive(a[1..], b[1..], c[1..]); }
  }

  /** The first difference decides. */
  ghost predicate SmallerAt(a: string, b: string, k: nat) { k < |a| && k < |b| && a[..k] == b[..k] && a[k] < b[k] }

  lemma SmallerBehind(a: string, b: string, k: nat)
    requires a != "" && b != "" && a[0] == b[0]
    ensures SmallerAt(a[1..], b[1..], k) <==> SmallerAt(a, b, k + 1)
  {
    if k + 1 < |a| && k + 1 < |b| {
      assert a[..k + 1] == [a[0]] + a[1..][..k] && b[..k + 1] == [b[0]] + b[1..][..k];
      assert a[1..][..k] == a[..k + 1][1..] && b[1..][..k] == b[..k + 1][1..];
    }
  }

  /** The order is lexicographic: `a` is a prefix of `b`, or has the smaller character at the
      first position where they differ. */
  lemma {:induction false} LeqIsLexicographic(a: string, b: string)
    ensures Leq(a, b) <==> a <= b || exists k: nat :: SmallerAt(a, b, k)
    decreases |a|
  {
    if a != "" && b != "" {
      if a[0] == b[0] {
        LeqIsLexicographic(a[1..], b[1..]);
        assert a <= b <==> a[1..] <= b[1..] by { assert a == [a[0]] + a[1..] && b == [b[0]] + b[1..]; }
        if k: nat :| SmallerAt(a[1..], b[1..], k) { SmallerBehind(a, b, k); }
        if k: nat :| SmallerAt(a, b, k) { SmallerBehind(a, b, k - 1); }
      } else {
        FirstDiffers(a, b);
      }
    }
  }

  lemma FirstDiffers(a: string, b: string)
    requires a != "" && b != "" && a[0] != b[0]
    ensures !(a <= b) && ((exists k: nat :: SmallerAt(a, b, k)) <==> a[0] < b[0])
  {
    if a[0] < b[0] { assert SmallerAt(a, b, 0); }
    forall k: nat | 0 < k < |a| && k < |b| ensures a[..k] != b[..k] { assert a[..k][0] == a[0] && b[..k][0] == b[0]; }
  }

  predicate IsLeast(x: string, names: set<string>) {
    x in names && forall y :: y in names ==> Leq(x, y)
  }

  predicate Sorted(xs: seq<string>) {
    forall i, j :: 0 <= i < j < |xs| ==> Leq(xs[i], xs[j])
  }

  function Insert(x: string, xs: seq<string>): (r: seq<string>)
    ensures multiset(r) == multiset(xs) + multiset{x}
  {
    if xs == [] then [x]
    else if Leq(x, xs[0]) then [x] + xs
    else
      assert xs == [xs[0]] + xs[1..];
      [xs[0]] + Insert(x, xs[1..])
  }

  /** `sort.Strings`. */
  function SortStrings(xs: seq<string>): (r: seq<string>)
    ensures multiset(r) == multiset(xs)
  {
    if xs == [] then []
    else
      assert xs == [xs[0]] + xs[1..];
      Insert(xs[0], SortStrings(xs[1..]))
  }

  predicate AtMostAll(x: string, xs: seq<string>) {
    forall i :: 0 <= i < |xs| ==> Leq(x, xs[i])
  }

  lemma PrependSorted(x: string, xs: seq<string>)
    requires Sorted(xs) && AtMostAll(x, xs)
    ensures Sorted([x] + xs)
  {
  }

  lemma BelowHead(x: string, xs: seq<string>)
    requires Sorted(xs) && xs != [] && Leq(x, xs[0])
    ensures AtMostAll(x, xs)
  {
    forall i | 0 <= i < |xs| ensures Leq(x, xs[i]) {
      if i > 0 { LeqTransitive(x, xs[0], xs[i]); }
    }
  }

  lemma {:induction false} BelowInserted(y: string, x: string, xs: seq<string>)
    requires Leq(y, x) && AtMostAll(y, xs)
    ensures AtMostAll(y, Insert(x, xs))
    decreases |xs|
  {
    if xs != [] && !Leq(x, xs[0]) { BelowInserted(y, x, xs[1..]); }
  }

  lemma {:induction false} InsertSorted(x: string, xs: seq<string>)
    requires Sorted(xs)
    ensures Sorted(Insert(x, xs))
    decreases |xs|
  {
    if xs != [] {
      if Leq(x, xs[0]) {
        BelowHead(x, xs);
        PrependSorted(x, xs);
      } else {
        InsertSorted(x, xs[1..]);
        LeqTotal(x, xs[0]);
        BelowInserted(xs[0], x, xs[1..]);
        PrependSorted(xs[0], Insert(x, xs[1..]));
      }
    }
  }

  lemma {:induction false} SortStringsSorted(xs: seq<string>)
    ensures Sorted(SortStrings(xs))
    decreases |xs|
  {
    if xs != [] {
      SortStringsSorted(xs[1..]);
      InsertSorted(xs[0], SortStrings(xs[1..]));
    }
  }

  lemma LeqReflexive(a: string)
    ensures Leq(a, a)
  {
    LeqTotal(a, a);
  }

  /** The head of the sorted list is the least name. */
  lemma HeadIsLeast(xs: seq<string>, names: set<string>)
    requires xs != [] && forall n :: n in names <==> n in xs
    ensures SortStrings(xs) != [] && IsLeast(SortStrings(xs)[0], names)
  {
    var r := SortStrings(xs);
    SortStringsSorted(xs);
    assert |r| == |multiset(r)| == |multiset(xs)| == |xs|;
    assert r[0] in multiset(r) && r[0] in multiset(xs);
    forall y | y in names ensures Leq(r[0], y) {
      assert y in multiset(xs) && y in multiset(r);
      var k :| 0 <= k < |r| && r[k] == y;
      if k == 0 { LeqReflexive(y); }
    }
  }

  // ---------------------------------------------------------------- the expected result

  function EnabledNames(cfg: Config): set<string> {
    set n | n in cfg.backends && cfg.backends[n].enabled
  }

  /** A configuration that builds: every enabled backend has a registered type. */
  predicate Buildable(cfg: Config, registry: set<string>) {
    forall n :: n in EnabledNames(cfg) ==> cfg.backends[n].typ in registry
  }

  function BackendsOf(cfg: Config, names: set<string>): map<string, Backend>
    requires names <= EnabledNames(cfg)
  {
    map n | n in names :: cfg.backends[n]
  }

  function EnabledBackends(cfg: Config): map<string, Backend> { BackendsOf(cfg, EnabledNames(cfg)) }

  function Bare(cfg: Config, names: set<string>): map<string, Provider>
    requires names <= EnabledNames(cfg)
  {
    map n | n in names :: Factory(n, cfg.backends[n], cfg)
  }

  function WrapCloud(p: Provider, b: Backend): Provider { if IsLocalBackend(b) then p else Cloud(p) }

  function Wrapped(cfg: Config): map<string, Provider> {
    map n | n in EnabledNames(cfg) :: WrapCloud(Factory(n, cfg.backends[n], cfg), cfg.backends[n])
  }

  function TypedNames(cfg: Config): set<string> {
    set n | n in EnabledNames(cfg) && cfg.backends[n].typ == "fusion-mlx"
  }

  /** Local backends that can be the inference engine. */
  function Candidates(cfg: Config): set<string> {
    set n | n in EnabledNames(cfg) && IsLocalBackend(cfg.backends[n])
            && cfg.backends[n].typ != "fusion-kb" && cfg.backends[n].typ != "fusion-model-hub"
  }

  /** The name that plays the engine when no backend is typed fusion-mlx: the conventional
      name when it is a candidate, the least candidate otherwise. */
  predicate IsShadow(cfg: Config, name: string) {
    && TypedNames(cfg) == {} && name in Candidates(cfg)
    && if "fusion-mlx" in Candidates(cfg) then name == "fusion-mlx" else IsLeast(name, Candidates(cfg))
  }

  /** The provider a successful rebuild leaves under a name. */
  function Expected(cfg: Config, name: string): Provider
    requires name in EnabledNames(cfg)
  {
    var b := cfg.backends[name];
    var p := WrapCloud(Factory(name, b, cfg), b);
    if IsShadow(cfg, name) then Slot(p, NewEngine(b, cfg)) else p
  }

  function ExpectedProviders(cfg: Config): map<string, Provider> {
    map n | n in EnabledNames(cfg) :: Expected(cfg, n)
  }

  /** The engine roles a rebuild may leave. */
  predicate IsRole(cfg: Config, engine: Option<Engine>, name: string) {
    if TypedNames(cfg) != {} then
      name in TypedNames(cfg) && engine == Some(NewEngine(cfg.backends[name], cfg))
    else if Candidates(cfg) != {} then
      IsShadow(cfg, name) && engine == Some(NewEngine(cfg.backends[name], cfg))
    else engine == None && name == ""
  }

  // ---------------------------------------------------------------- the imperative form

  class Pool {
    var providers: map<string, Provider>
    var backends: map<string, Backend>
    var localEngine: Option<Engine>
    var localEngineName: string
    const registry: set<string>  // the provider types registered at start-up

    /** Every method, failed rebuilds included, keeps the two maps on the same names. */
    ghost predicate Valid()
      reads this
    {
      providers.Keys == backends.Keys
    }

    constructor (types: set<string>)
      ensures registry == types
      ensures Valid() && providers == map[] && backends == map[] && localEngine == None && localEngineName == ""
    {
      providers, backends, localEngine, localEngineName, registry := map[], map[], None, "", types;
    }

    /** First loop: build the enabled backends, failing on the first unknown type. On a
        failure the names visited so far hold new bare providers and the rest is untouched. */
    method InstallEnabled(cfg: Config) returns (ok: bool, ghost done: set<string>)
      requires Valid()
      modifies this`providers, this`backends
      ensures Valid()
      ensures ok <==> Buildable(cfg, registry)
      ensures done <= EnabledNames(cfg) && (ok ==> done == EnabledNames(cfg))
      ensures providers == old(providers) + Bare(cfg, done) && backends == old(backends) + BackendsOf(cfg, done)
    {
      var todo := cfg.backends.Keys;
      done := {};
      ghost var ps, bs := providers, backends;
      while todo != {}
        invariant todo <= cfg.backends.Keys && done == EnabledNames(cfg) - todo
        invariant forall n :: n in done ==> cfg.backends[n].typ in registry
        invariant providers == ps + Bare(cfg, done) && backends == bs + BackendsOf(cfg, done)
        decreases todo
      {
        var name :| name in todo;
        var b := cfg.backends[name];
        todo := todo - {name};
        if b.enabled {
          assert name in EnabledNames(cfg);
          if b.typ !in registry {
            return false, done;
          }
          OneMore(cfg, ps, bs, done, name);
          done := done + {name};
          providers := providers[name := Factory(name, b, cfg)];
          backends := backends[name := b];
        }
      }
      ok := true;
    }

    /** Second loop: drop the names that are gone or disabled. */
    method DropStale(cfg: Config)
      requires Valid()
      modifies this`providers, this`backends
      ensures Valid()
      ensures providers == Only(old(providers), EnabledNames(cfg)) && backends == Only(old(backends), EnabledNames(cfg))
    {
      var todo := providers.Keys;
      ghost var ps, bs, keep := providers, backends, providers.Keys;
      AllKept(ps);
      AllKept(bs);
      while todo != {}
        invariant todo <= ps.Keys && keep == set n | n in ps && (n in todo || n in EnabledNames(cfg))
        invariant providers == Only(ps, keep) && backends == Only(bs, keep)
        decreases todo
      {
        var name :| name in todo;
        todo := todo - {name};
        if name !in cfg.backends || !cfg.backends[name].enabled {
          OneLess(ps, keep, name);
          OneLess(bs, keep, name);
          keep := keep - {name};
          providers := providers - {name};
          backends := backends - {name};
        }
      }
      SameKept(ps, keep, EnabledNames(cfg));
      SameKept(bs, keep, EnabledNames(cfg));
    }

    /** Third loop: wrap the cloud providers. */
    method WrapCloudProviders()
      requires Valid()
      modifies this`providers
      ensures Valid()
      ensures providers == map n | n in old(providers) :: WrapCloud(old(providers)[n], backends[n])
    {
      var todo := providers.Keys;
      while todo != {}
        invariant todo <= providers.Keys == old(providers).Keys
        invariant forall n :: n in providers ==>
                    providers[n] == if n in todo then old(providers)[n] else WrapCloud(old(providers)[n], backends[n])
        decreases todo
      {
        var name :| name in todo;
        todo := todo - {name};
        if !IsLocalBackend(backends[name]) {
          providers := providers[name := Cloud(providers[name])];
        }
      }
    }

    /** Any provider that is a bare fusion-mlx provider. */
    method FindTyped() returns (engine: Option<Engine>, name: string)
      ensures engine.Some? ==> name in providers && providers[name] == Mlx(engine.value)
      ensures engine.None? ==> name == "" && forall n :: n in providers ==> !providers[n].Mlx?
    {
      var todo := providers.Keys;
      while todo != {}
        invariant todo <= providers.Keys
        invariant forall n :: n in providers && n !in todo ==> !providers[n].Mlx?
        decreases todo
      {
        var n :| n in todo;
        todo := todo - {n};
        if providers[n].Mlx? {
          return Some(providers[n].engine), n;
        }
      }
      return None, "";
    }

    /** The candidate names, in the order the map delivers them. */
    method CollectCandidates() returns (names: seq<string>)
      requires Valid()
      ensures forall n :: n in names <==> n in backends && IsLocalBackend(backends[n])
                                          && backends[n].typ != "fusion-kb" && backends[n].typ != "fusion-model-hub"
    {
      names := [];
      var todo := backends.Keys;
      while todo != {}
        invariant todo <= backends.Keys
        invariant forall n :: n in names <==> n in backends && n !in todo && IsLocalBackend(backends[n])
                                              && backends[n].typ != "fusion-kb" && backends[n].typ != "fusion-model-hub"
        decreases todo
      {
        var n :| n in todo;
        todo := todo - {n};
        var b := backends[n];
        if n in providers && b.typ != "fusion-kb" && b.typ != "fusion-model-hub" && IsLocalBackend(b) {
          names := names + [n];
        }
      }
    }

    /** The last phase: resolve the engine role and put the slot wrapper on its provider. */
    method ResolveRole(cfg: Config)
      requires Valid() && providers == Wrapped(cfg) && backends == EnabledBackends(cfg)
      modifies this
      ensures Valid() && backends == EnabledBackends(cfg) && providers == ExpectedProviders(cfg)
      ensures IsRole(cfg, localEngine, localEngineName)
    {
      localEngine, localEngineName := FindTyped();
      if localEngine.Some? {
        TypedRole(cfg, localEngineName);
      } else {
        NoTyped(cfg);
        var candidates := CollectCandidates();
        CandidatesOf(cfg, candidates);
        ChosenIsShadow(cfg, candidates);
        candidates := SortStrings(candidates);
        if "fusion-mlx" in candidates {
          candidates := ["fusion-mlx"];
        }
        if |candidates| > 0 {
          var name := candidates[0];
          var shadow := NewEngine(backends[name], cfg);
          localEngine, localEngineName := Some(shadow), name;
          providers := providers[name := Slot(providers[name], shadow)];
          ShadowInstalled(cfg, name);
        } else {
          NoShadow(cfg);
        }
      }
    }

    method BuildProviders(cfg: Config) returns (ok: bool)
      requires Valid()
      modifies this
      ensures Valid()
      ensures ok <==> Buildable(cfg, registry)
      ensures ok ==> backends == EnabledBackends(cfg) && providers == ExpectedProviders(cfg)
      ensures ok ==> IsRole(cfg, localEngine, localEngineName)
      ensures !ok ==> localEngine == old(localEngine) && localEngineName == old(localEngineName)
      ensures !ok ==> exists done :: done <= EnabledNames(cfg) && providers == old(providers) + Bare(cfg, done) &&
                                     backends == old(backends) + BackendsOf(cfg, done)
    {
      ghost var done;
      ok, done := InstallEnabled(cfg);
      if !ok {
        return;
      }
      DropStale(cfg);
      assert providers == Bare(cfg, EnabledNames(cfg)) && backends == EnabledBackends(cfg);
      WrapCloudProviders();
      assert providers == Wrapped(cfg);
      ResolveRole(cfg);
    }

    /** Any history of rebuilds, failed ones included, followed by a configuration that
        builds leaves exactly what that configuration alone would. */
    method RebuildHistory(history: seq<Config>, cfg: Config) returns (ok: bool)
      requires Valid()
      modifies this
      ensures Valid() && (ok <==> Buildable(cfg, registry))
      ensures ok ==> backends == EnabledBackends(cfg) && providers == ExpectedProviders(cfg)
      ensures ok ==> IsRole(cfg, localEngine, localEngineName)
    {
      for k := 0 to |history|
        invariant Valid()
      {
        var _ := BuildProviders(history[k]);
      }
      ok := BuildProviders(cfg);
    }

    method GetFusionMlx() returns (engine: Option<Engine>)
      ensures (exists n :: n in providers && providers[n].Mlx?) ==>
                exists n :: n in providers && engine.Some? && providers[n] == Mlx(engine.value)
      ensures (forall n :: n in providers ==> !providers[n].Mlx?) ==> engine == localEngine
    {
      var typed, name := FindTyped();
      engine := if typed.Some? then typed else localEngine;
    }

    method FusionMlxName() returns (name: string, engine: Option<Engine>)
      ensures engine.Some? ==> (name in providers && providers[name] == Mlx(engine.value))
                               || (name == localEngineName && engine == localEngine)
      ensures (forall n :: n in providers ==> !providers[n].Mlx?) ==>
                engine == localEngine && name == if localEngine.Some? then localEngineName else ""
    {
      engine, name := FindTyped();
      if engine.None? && localEngine.Some? {
        name, engine := localEngineName, localEngine;
      }
    }
  }

  // ---------------------------------------------------------------- lemmas for the phases

  /** The part of a map with the given names. */
  function Only<V>(m: map<string, V>, names: set<string>): map<string, V> { map n | n in m && n in names :: m[n] }

  lemma AllKept<V>(m: map<string, V>)
    ensures Only(m, m.Keys) == m
  {
  }

  lemma OneLess<V>(m: map<string, V>, keep: set<string>, name: string)
    ensures Only(m, keep) - {name} == Only(m, keep - {name})
  {
  }

  lemma SameKept<V>(m: map<string, V>, a: set<string>, b: set<string>)
    requires forall n :: n in m ==> (n in a <==> n in b)
    ensures Only(m, a) == Only(m, b)
  {
  }

  lemma OneMore(cfg: Config, ps: map<string, Provider>, bs: map<string, Backend>, done: set<string>, name: string)
    requires done <= EnabledNames(cfg) && name in EnabledNames(cfg)
    ensures (ps + Bare(cfg, done))[name := Factory(name, cfg.backends[name], cfg)] == ps + Bare(cfg, done + {name})
    ensures (bs + BackendsOf(cfg, done))[name := cfg.backends[name]] == bs + BackendsOf(cfg, done + {name})
  {
  }

  lemma SameNames(xs: seq<string>)
    ensures forall n :: n in xs <==> n in SortStrings(xs)
    ensures |SortStrings(xs)| == |xs|
  {
    var sorted := SortStrings(xs);
    forall n ensures n in xs <==> n in sorted {
      assert n in xs <==> n in multiset(xs);
      assert n in sorted <==> n in multiset(sorted);
    }
    assert |multiset(sorted)| == |multiset(xs)|;
  }

  /** `xs` lists the candidates. */
  ghost predicate Lists(xs: seq<string>, names: set<string>) { forall n :: n in xs <==> n in names }

  lemma CandidatesOf(cfg: Config, xs: seq<string>)
    requires forall n :: n in xs <==> n in EnabledBackends(cfg) && IsLocalBackend(EnabledBackends(cfg)[n])
                                      && EnabledBackends(cfg)[n].typ != "fusion-kb" && EnabledBackends(cfg)[n].typ != "fusion-model-hub"
    ensures Lists(xs, Candidates(cfg))
  {
  }

  /** The choice among the sorted candidates is the shadow engine's name. */
  lemma ChosenIsShadow(cfg: Config, xs: seq<string>)
    requires Lists(xs, Candidates(cfg)) && TypedNames(cfg) == {}
    ensures var sorted := SortStrings(xs);
            && (sorted == [] <==> Candidates(cfg) == {})
            && ("fusion-mlx" in sorted ==> IsShadow(cfg, "fusion-mlx"))
            && ("fusion-mlx" !in sorted && sorted != [] ==> IsShadow(cfg, sorted[0]))
  {
    SameNames(xs);
    if xs != [] {
      HeadIsLeast(xs, Candidates(cfg));
      assert xs[0] in Candidates(cfg);
    }
  }

  lemma TypedRole(cfg: Config, name: string)
    requires name in Wrapped(cfg) && Wrapped(cfg)[name].Mlx?
    ensures name in TypedNames(cfg) && Wrapped(cfg)[name] == Mlx(NewEngine(cfg.backends[name], cfg))
    ensures ExpectedProviders(cfg) == Wrapped(cfg)
  {
    assert name in TypedNames(cfg);
  }

  lemma NoTyped(cfg: Config)
    requires forall n :: n in Wrapped(cfg) ==> !Wrapped(cfg)[n].Mlx?
    ensures TypedNames(cfg) == {}
  {
    forall n | n in EnabledNames(cfg) ensures cfg.backends[n].typ != "fusion-mlx" {
      var p := Wrapped(cfg)[n];
      assert cfg.backends[n].typ == "fusion-mlx" ==> p.Mlx?;
    }
  }

  lemma ShadowIsUnique(cfg: Config, a: string, b: string)
    requires IsShadow(cfg, a) && IsShadow(cfg, b)
    ensures a == b
  {
    if "fusion-mlx" !in Candidates(cfg) { LeqAntisymmetric(a, b); }
  }

  lemma ShadowInstalled(cfg: Config, name: string)
    requires IsShadow(cfg, name)
    ensures ExpectedProviders(cfg) == Wrapped(cfg)[name := Slot(Wrapped(cfg)[name], NewEngine(cfg.backends[name], cfg))]
  {
    forall n | n in EnabledNames(cfg) && IsShadow(cfg, n) ensures n == name {
      ShadowIsUnique(cfg, n, name);
    }
  }

  lemma NoShadow(cfg: Config)
    requires Candidates(cfg) == {}
    ensures ExpectedProviders(cfg) == Wrapped(cfg)
  {
    forall n | n in EnabledNames(cfg) ensures !IsShadow(cfg, n) { }
  }

  // ---------------------------------------------------------------- what a rebuild leaves

  function CloudDepth(p: Provider): nat {
    match p
    case Cloud(inner) => 1 + CloudDepth(inner)
    case Slot(inner, _) => CloudDepth(inner)
    case _ => 0
  }

  function SlotDepth(p: Provider): nat {
    match p
    case Cloud(inner) => SlotDepth(inner)
    case Slot(inner, _) => 1 + SlotDepth(inner)
    case _ => 0
  }

  /** Wrapping: after a successful rebuild every non-local provider is wrapped by cloud
      tracking exactly once and no local one is; the slot wrapper is on the shadow engine's
      provider only, once, and never beside a typed fusion-mlx provider. */
  lemma WrappedExactlyOnce(cfg: Config, name: string)
    requires name in EnabledNames(cfg)
    ensures var p := ExpectedProviders(cfg)[name];
            && CloudDepth(p) == (if IsLocalBackend(cfg.backends[name]) then 0 else 1)
            && SlotDepth(p) == (if IsShadow(cfg, name) then 1 else 0)
            && (SlotDepth(p) > 0 ==> IsLocalBackend(cfg.backends[name]) && TypedNames(cfg) == {})
  {
    assert CloudDepth(Factory(name, cfg.backends[name], cfg)) == 0;
    assert SlotDepth(Factory(name, cfg.backends[name], cfg)) == 0;
  }

  /** The provider under the wrappers. */
  function Core(p: Provider): Provider {
    match p
    case Cloud(inner) => Core(inner)
    case Slot(inner, _) => Core(inner)
    case _ => p
  }

  /** Under its wrappers a provider is the one of its own backend: a fusion-mlx engine for that
      type, with the configured limit when it is positive and none otherwise. */
  lemma CoreIsConfigured(cfg: Config, name: string)
    requires name in EnabledNames(cfg)
    ensures var b := cfg.backends[name];
            match Core(ExpectedProviders(cfg)[name])
            case Mlx(e) => b.typ == "fusion-mlx" && e.backend == b && EngineLimit(e, cfg)
            case Plain(n, b') => b.typ != "fusion-mlx" && n == name && b' == b
            case _ => false
    ensures ExpectedProviders(cfg)[name].Slot? ==>
              var e := ExpectedProviders(cfg)[name].engine; e.backend == cfg.backends[name] && EngineLimit(e, cfg)
  {
    assert Core(Factory(name, cfg.backends[name], cfg)) == Factory(name, cfg.backends[name], cfg);
  }

  /** The limit of an engine is the configured one when that is positive; otherwise it has none. */
  predicate EngineLimit(e: Engine, cfg: Config) { if cfg.maxConcurrent > 0 then e.cap == cfg.maxConcurrent else e.cap == 0 }

  /** The kinds of local backends: the three own types anywhere; of the others, those on a socket
      and those on a loopback host, and no backend on another host. */
  lemma LocalKinds(b: Backend)
    ensures b.typ in {"fusion-mlx", "fusion-kb", "fusion-model-hub"} ==> IsLocalBackend(b)
    ensures b.socketPath != "" ==> IsLocalBackend(b)
    ensures b.typ !in {"fusion-mlx", "fusion-kb", "fusion-model-hub"} && b.socketPath == "" ==>
              (IsLocalBackend(b) <==> b.host in {"localhost", "127.0.0.1", "::1", "[::1]"})
  {
  }

  /** A name that can play the engine. */
  predicate CanServe(cfg: Config, n: string) {
    && n in cfg.backends && cfg.backends[n].enabled && IsLocalBackend(cfg.backends[n])
    && cfg.backends[n].typ != "fusion-kb" && cfg.backends[n].typ != "fusion-model-hub"
  }

  /** `a` comes before `b`, or is `b`, in the order of the characters. */
  ghost predicate NotAfter(a: string, b: string) {
    a <= b || exists k: nat :: SmallerAt(a, b, k)
  }

  /** Which provider carries the slot wrapper, in terms of the configuration alone. */
  lemma SlotWrapperIff(cfg: Config, name: string)
    requires name in EnabledNames(cfg)
    ensures SlotDepth(ExpectedProviders(cfg)[name]) > 0 <==>
            && (forall n :: n in cfg.backends && cfg.backends[n].enabled ==> cfg.backends[n].typ != "fusion-mlx")
            && CanServe(cfg, name)
            && (name == "fusion-mlx" ||
                (!CanServe(cfg, "fusion-mlx") && forall n :: n in cfg.backends && CanServe(cfg, n) ==> NotAfter(name, n)))
  {
    WrappedExactlyOnce(cfg, name);
    assert TypedNames(cfg) == {} <==> forall n :: n in cfg.backends && cfg.backends[n].enabled ==> cfg.backends[n].typ != "fusion-mlx" by {
      forall n ensures n in TypedNames(cfg) <==> n in cfg.backends && cfg.backends[n].enabled && cfg.backends[n].typ == "fusion-mlx" { }
    }
    forall n ensures n in Candidates(cfg) <==> CanServe(cfg, n) { }
    forall n ensures Leq(name, n) <==> NotAfter(name, n) { LeqIsLexicographic(name, n); }
  }

  /** At most one provider carries the slot wrapper, and one does exactly when there is a
      candidate and no typed provider. */
  lemma OneSlotWrapper(cfg: Config)
    ensures forall a, b | a in EnabledNames(cfg) && b in EnabledNames(cfg) ::
              SlotDepth(Expected(cfg, a)) > 0 && SlotDepth(Expected(cfg, b)) > 0 ==> a == b
    ensures (exists a :: a in EnabledNames(cfg) && SlotDepth(Expected(cfg, a)) > 0) <==>
            TypedNames(cfg) == {} && Candidates(cfg) != {}
  {
    forall a | a in EnabledNames(cfg) ensures SlotDepth(Expected(cfg, a)) > 0 <==> IsShadow(cfg, a) {
      WrappedExactlyOnce(cfg, a);
    }
    forall a, b | IsShadow(cfg, a) && IsShadow(cfg, b) ensures a == b { ShadowIsUnique(cfg, a, b); }
    if TypedNames(cfg) == {} && Candidates(cfg) != {} {
      var name := LeastOf(Candidates(cfg));
      var shadow := if "fusion-mlx" in Candidates(cfg) then "fusion-mlx" else name;
      assert IsShadow(cfg, shadow) && shadow in EnabledNames(cfg);
      assert SlotDepth(Expected(cfg, shadow)) > 0;
    }
  }

  lemma {:induction false} LeastOf(names: set<string>) returns (x: string)
    requires names != {}
    ensures IsLeast(x, names)
    decreases |names|
  {
    x :| x in names;
    var rest := names - {x};
    if rest == {} {
      assert names == {x};
      LeqReflexive(x);
    } else {
      var y := LeastOf(rest);
      LeqTotal(x, y);
      LeqReflexive(x);
      if Leq(x, y) {
        forall z | z in names ensures Leq(x, z) {
          if z != x { LeqTransitive(x, y, z); }
        }
      } else {
        assert forall z :: z in names ==> z == x || z in rest;
        x := y;
      }
    }
  }

  /** The engine role is determined by the configuration exactly when at most one enabled
      backend is typed fusion-mlx; with more, the map order decides. */
  lemma RoleDeterminedIff(cfg: Config)
    ensures (forall e, n, e', n' :: IsRole(cfg, e, n) && IsRole(cfg, e', n') ==> n == n' && e == e') <==>
            (forall a, b :: a in TypedNames(cfg) && b in TypedNames(cfg) ==> a == b)
  {
    if forall a, b :: a in TypedNames(cfg) && b in TypedNames(cfg) ==> a == b {
      forall e, n, e', n' | IsRole(cfg, e, n) && IsRole(cfg, e', n') ensures n == n' && e == e' {
        if TypedNames(cfg) == {} && Candidates(cfg) != {} { ShadowIsUnique(cfg, n, n'); }
      }
    } else {
      var a, b :| a in TypedNames(cfg) && b in TypedNames(cfg) && a != b;
      assert IsRole(cfg, Some(NewEngine(cfg.backends[a], cfg)), a);
      assert IsRole(cfg, Some(NewEngine(cfg.backends[b], cfg)), b);
    }
  }
}
