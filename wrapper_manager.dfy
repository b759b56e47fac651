/**
 * `IcebergCatalogWrapperManager` as a sequential cache: a map from catalog
 * name to the catalog wrapper built for it, filled on demand by the provider
 * and emptied by `close`, with every removed wrapper closed.
 */
module WrapperManager {
  import opened Wrappers
  import opened StringUtils
  import opened CatalogNames
  import opened ProviderNames

  /**
   * `IcebergCatalogWrapper`, reduced to what the manager does with it: how
   * often its Hadoop configuration was reloaded and how often it was closed.
   * Whether closing its backend throws is fixed when it is built.
   */
  class CatalogWrapper {
    const catalogName: string
    const closeFails: bool
    var reloads: nat
    var closeCalls: nat

    constructor (catalogName: string, closeFails: bool)
      ensures this.catalogName == catalogName && this.closeFails == closeFails
      ensures reloads == 0 && closeCalls == 0
    {
      this.catalogName := catalogName;
      this.closeFails := closeFails;
      reloads := 0;
      closeCalls := 0;
    }

    /** `reloadHadoopConf`: only the call is recorded. */
    method ReloadHadoopConf()
      modifies this
      ensures reloads == old(reloads) + 1 && closeCalls == old(closeCalls)
    {
      reloads := reloads + 1;
    }

    /** `close`: the call is recorded; `ok` is false when it throws. */
    method Close() returns (ok: bool)
      modifies this
      ensures closeCalls == old(closeCalls) + 1 && reloads == old(reloads)
      ensures ok == !closeFails
    {
      closeCalls := closeCalls + 1;
      ok := !closeFails;
    }
  }

  /**
   * `IcebergCatalogWrapperProvider`: a factory for catalog wrappers. It keeps
   * the log of catalog names it was asked to build, in order. Which backends
   * fail to close, and whether the provider is `AutoCloseable`, stand for the
   * implementation class the configuration selects.
   */
  class Provider {
    const className: string
    const autoCloseable: bool
    const failingCatalogs: set<string>
    var initialized: bool
    var closed: bool
    var built: seq<string>

    constructor (className: string, autoCloseable: bool, failingCatalogs: set<string>)
      ensures this.className == className && this.autoCloseable == autoCloseable
      ensures this.failingCatalogs == failingCatalogs
      ensures !initialized && !closed && built == []
    {
      this.className := className;
      this.autoCloseable := autoCloseable;
      this.failingCatalogs := failingCatalogs;
      initialized := false;
      closed := false;
      built := [];
    }

    /** `initialize(properties)`. */
    method Initialize()
      modifies this
      ensures initialized && closed == old(closed) && built == old(built)
    {
      initialized := true;
    }

    /** `getIcebergTableOps(catalogName)`: a new wrapper for that catalog, and one more entry in the log. */
    method GetIcebergTableOps(catalogName: string) returns (ops: CatalogWrapper)
      modifies this
      ensures fresh(ops) && ops.catalogName == catalogName
      ensures ops.reloads == 0 && ops.closeCalls == 0
      ensures ops.closeFails == (catalogName in failingCatalogs)
      ensures built == old(built) + [catalogName]
      ensures initialized == old(initialized) && closed == old(closed)
    {
      ops := new CatalogWrapper(catalogName, catalogName in failingCatalogs);
      built := built + [catalogName];
    }

    /** `AutoCloseable.close`, for providers that implement it. */
    method Close()
      requires autoCloseable
      modifies this
      ensures closed && initialized == old(initialized) && built == old(built)
    {
      closed := true;
    }
  }

  /** The names occurring in a run of requests. */
  function NameSet(names: seq<string>): (s: set<string>)
    ensures forall n :: n in s <==> n in names
  {
    set n | n in names
  }

  lemma TakeSnoc(names: seq<string>, i: nat)
    requires i < |names|
    ensures names[..i + 1] == names[..i] + [names[i]]
  {
  }

  lemma NameSetSnoc(names: seq<string>, name: string)
    ensures NameSet(names + [name]) == NameSet(names) + {name}
  {
  }

  /**
   * The provider calls made by a sequential run of `getOps` over the resolved
   * catalog names `names`, starting from a cache holding the keys `cached`:
   * one build for each name not yet cached, in request order.
   */
  function Builds(names: seq<string>, cached: set<string>): (r: seq<string>)
    ensures |r| <= |names|
    decreases |names|
  {
    if names == [] then []
    else if names[0] in cached then Builds(names[1..], cached)
    else [names[0]] + Builds(names[1..], cached + {names[0]})
  }

  /**
   * At most one build per catalog name: a run of `getOps` builds exactly the
   * names that were not cached when it started, and each of them once.
   */
  lemma {:induction false} BuildsOncePerName(names: seq<string>, cached: set<string>)
    ensures forall n :: n in Builds(names, cached) <==> n in names && n !in cached
    ensures forall i, j | 0 <= i < j < |Builds(names, cached)| ::
      Builds(names, cached)[i] != Builds(names, cached)[j]
    decreases |names|
  {
    if names != [] {
      var rest := names[1..];
      assert names == [names[0]] + rest;
      if names[0] in cached {
        BuildsOncePerName(rest, cached);
      } else {
        BuildsOncePerName(rest, cached + {names[0]});
        var tail := Builds(rest, cached + {names[0]});
        assert Builds(names, cached) == [names[0]] + tail;
        assert names[0] !in tail;
      }
    }
  }

  /** The builds of a longer run are those of its first part followed by those of the last call. */
  lemma {:induction false} BuildsSnoc(names: seq<string>, name: string, cached: set<string>)
    ensures Builds(names + [name], cached) == Builds(names, cached) + Builds([name], cached + NameSet(names))
    decreases |names|
  {
    if names == [] {
      assert names + [name] == [name];
      assert NameSet(names) == {};
    } else {
      var head := names[0];
      var rest := names[1..];
      assert (names + [name])[0] == head;
      assert (names + [name])[1..] == rest + [name];
      var restSet := NameSet(rest);
      assert NameSet(names) == restSet + {head};
      if head in cached {
        BuildsSnoc(rest, name, cached);
        assert cached + restSet == cached + NameSet(names);
      } else {
        BuildsSnoc(rest, name, cached + {head});
        assert cached + {head} + restSet == cached + NameSet(names);
      }
    }
  }

  /** The manager: the provider it selected at construction and the cache of wrappers. */
  class Manager {
    const provider: Provider
    var cache: map<string, CatalogWrapper>

    /**
     * Each entry is the wrapper built for its own key (so no wrapper sits
     * under two keys), and no cached wrapper has been closed.
     */
    ghost predicate Valid()
      reads this, cache.Values
    {
      forall k | k in cache :: cache[k].catalogName == k && cache[k].closeCalls == 0
    }

    /** Every key is a resolved catalog name, so none is blank. */
    ghost predicate KeysResolved()
      reads this
    {
      forall k | k in cache :: !AllWhitespace(k)
    }

    /**
     * The constructor: `createProvider` resolves the configured provider name
     * to a class name, the provider of that class is initialized, and the
     * cache starts empty.
     */
    constructor (providerName: string, autoCloseable: bool, failingCatalogs: set<string>)
      ensures Valid() && KeysResolved() && cache == map[]
      ensures fresh(provider) && provider.className == ProviderClassName(providerName)
      ensures provider.autoCloseable == autoCloseable && provider.failingCatalogs == failingCatalogs
      ensures provider.initialized && !provider.closed && provider.built == []
    {
      var p := new Provider(ProviderClassName(providerName), autoCloseable, failingCatalogs);
      p.Initialize();
      provider := p;
      cache := map[];
    }

    /**
     * `getOps`: resolve the catalog name, take the cached wrapper or have the
     * provider build one and cache it, reload its Hadoop configuration and
     * return it. A refused raw prefix changes nothing.
     */
    method GetOps(rawPrefix: Option<string>) returns (r: Result<CatalogWrapper, PrefixError>)
      requires Valid()
      modifies this, provider, cache.Values
      ensures Valid()
      ensures old(KeysResolved()) ==> KeysResolved()
      ensures r.Failure? <==> GetCatalogName(rawPrefix).Failure?
      ensures r.Failure? ==> r.error == GetCatalogName(rawPrefix).error
      ensures r.Failure? ==> cache == old(cache) && provider.built == old(provider.built)
      ensures r.Success? ==>
        var name := GetCatalogName(rawPrefix).value;
        && r.value.catalogName == name
        && cache == old(cache)[name := r.value]
        && provider.built == old(provider.built) + Builds([name], old(cache).Keys)
        && (name in old(cache) ==> r.value == old(cache)[name] && r.value.reloads == old(r.value.reloads) + 1)
        && (name !in old(cache) ==> fresh(r.value) && r.value.reloads == 1)
      ensures forall h | h in old(cache).Values && (r.Failure? || h != r.value) ::
        h.reloads == old(h.reloads) && h.closeCalls == old(h.closeCalls)
      ensures provider.initialized == old(provider.initialized) && provider.closed == old(provider.closed)
    {
      var resolved := GetCatalogName(rawPrefix);
      if resolved.Failure? {
        return Failure(resolved.error);
      }
      var ops := GetOpsForCatalog(resolved.value);
      return Success(ops);
    }

    /**
     * The rest of `getOps`, once the catalog name is resolved: the cache's
     * get-or-compute (a hit returns the cached wrapper, a miss has the
     * provider build one and caches it under the name), then the reload of
     * the wrapper's Hadoop configuration.
     */
    method GetOpsForCatalog(catalogName: string) returns (ops: CatalogWrapper)
      requires Valid()
      modifies this, provider, cache.Values
      ensures Valid()
      ensures ops.catalogName == catalogName
      ensures cache == old(cache)[catalogName := ops]
      ensures provider.built == old(provider.built) + Builds([catalogName], old(cache).Keys)
      ensures catalogName in old(cache) ==> ops == old(cache)[catalogName] && ops.reloads == old(ops.reloads) + 1
      ensures catalogName !in old(cache) ==> fresh(ops) && ops.reloads == 1
      ensures forall h | h in old(cache).Values && h != ops ::
        h.reloads == old(h.reloads) && h.closeCalls == old(h.closeCalls)
      ensures provider.initialized == old(provider.initialized) && provider.closed == old(provider.closed)
    {
      if catalogName in cache {
        ops := cache[catalogName];
      } else {
        ops := provider.GetIcebergTableOps(catalogName);
        cache := cache[catalogName := ops];
      }
      ops.ReloadHadoopConf();
    }

    /** `closeIcebergTableOps`: close the wrapper; an exception is logged and swallowed. */
    static method CloseIcebergTableOps(ops: CatalogWrapper)
      modifies ops
      ensures ops.closeCalls == old(ops.closeCalls) + 1 && ops.reloads == old(ops.reloads)
    {
      // whether or not it throws, the exception is logged and the removal goes on
      var _ := ops.Close();
    }

    /**
     * `close`: `invalidateAll` removes every entry and the removal listener
     * closes each removed wrapper; then the provider is closed if it is
     * `AutoCloseable`.
     */
    method Close()
      requires Valid()
      modifies this, provider, cache.Values
      ensures Valid() && KeysResolved() && cache == map[]
      ensures forall h | h in old(cache).Values :: h.closeCalls == 1 && h.reloads == old(h.reloads)
      ensures provider.closed == (old(provider.closed) || provider.autoCloseable)
      ensures provider.initialized == old(provider.initialized) && provider.built == old(provider.built)
    {
      ghost var entries := cache;
      while cache != map[]
        invariant forall k | k in cache :: k in entries && cache[k] == entries[k]
        invariant forall k | k in entries :: entries[k].catalogName == k
        invariant forall k | k in entries ::
          entries[k].reloads == old(entries[k].reloads) &&
          entries[k].closeCalls == (if k in cache then 0 else 1)
        invariant provider.closed == old(provider.closed)
        invariant provider.initialized == old(provider.initialized) && provider.built == old(provider.built)
        decreases cache.Keys
      {
        var k :| k in cache;
        var ops := cache[k];
        cache := cache - {k};
        CloseIcebergTableOps(ops);
      }
      if provider.autoCloseable {
        provider.Close();
      }
    }
  }

  /**
   * Two requests for the same tenant: the first builds only on a miss, the
   * second finds the same wrapper in the cache; both callers get the
   * identical instance, reloaded once per call.
   */
  method SameTenantTwice(m: Manager, rawPrefix: Option<string>)
      returns (first: CatalogWrapper, second: CatalogWrapper)
    requires m.Valid() && GetCatalogName(rawPrefix).Success?
    modifies m, m.provider, m.cache.Values
    ensures m.Valid()
    ensures first == second && first.catalogName == GetCatalogName(rawPrefix).value
    ensures m.provider.built == old(m.provider.built) + Builds([GetCatalogName(rawPrefix).value], old(m.cache).Keys)
    ensures GetCatalogName(rawPrefix).value in old(m.cache) ==>
      first == old(m.cache)[GetCatalogName(rawPrefix).value] && first.reloads == old(first.reloads) + 2
    ensures GetCatalogName(rawPrefix).value !in old(m.cache) ==> fresh(first) && first.reloads == 2
  {
    var r1 := m.GetOps(rawPrefix);
    var r2 := m.GetOps(rawPrefix);
    first, second := r1.value, r2.value;
  }

  /** The i-th request of a run got the wrapper now cached under the i-th catalog name. */
  ghost predicate Serves(m: Manager, names: seq<string>, handles: seq<CatalogWrapper>)
    reads m
  {
    |handles| == |names| &&
    forall j | 0 <= j < |names| :: names[j] in m.cache && handles[j] == m.cache[names[j]]
  }

  /**
   * One request of a run: the cache lookup of `getOps` extends the build log
   * and the cache keys of the requests so far by those of one more catalog
   * name, hands out the wrapper cached under it, and leaves the entries
   * already cached as they were.
   */
  method GetOpsStep(m: Manager, name: string, ghost done: seq<string>,
                    ghost keys0: set<string>, ghost built0: seq<string>, handles: seq<CatalogWrapper>)
      returns (handles': seq<CatalogWrapper>)
    requires m.Valid()
    requires m.cache.Keys == keys0 + NameSet(done)
    requires m.provider.built == built0 + Builds(done, keys0)
    requires Serves(m, done, handles)
    modifies m, m.provider, m.cache.Values
    ensures m.Valid()
    ensures m.cache.Keys == keys0 + NameSet(done + [name])
    ensures m.provider.built == built0 + Builds(done + [name], keys0)
    ensures Serves(m, done + [name], handles')
    ensures forall k | k in old(m.cache) :: k in m.cache && m.cache[k] == old(m.cache)[k]
    ensures forall k | k in m.cache && k !in old(m.cache) :: fresh(m.cache[k])
  {
    ghost var keysBefore := m.cache.Keys;
    ghost var builtBefore := m.provider.built;
    BuildsSnoc(done, name, keys0);
    NameSetSnoc(done, name);
    var ops := m.GetOpsForCatalog(name);
    assert m.provider.built == builtBefore + Builds([name], keysBefore);
    handles' := handles + [ops];
  }

  /**
   * A run of requests, one `getOps` after another, given the catalog names
   * their prefixes resolved to: the provider is called for exactly `Builds`
   * of those names, the cache ends holding the keys it had plus those names,
   * and every request for one catalog gets the wrapper cached under that
   * name, so all of them share one instance.
   */
  method GetOpsRun(m: Manager, names: seq<string>) returns (handles: seq<CatalogWrapper>)
    requires m.Valid()
    modifies m, m.provider, m.cache.Values
    ensures m.Valid()
    ensures m.cache.Keys == old(m.cache).Keys + NameSet(names)
    ensures m.provider.built == old(m.provider.built) + Builds(names, old(m.cache).Keys)
    ensures |handles| == |names|
    ensures forall i | 0 <= i < |handles| ::
      names[i] in m.cache && handles[i] == m.cache[names[i]] && handles[i].catalogName == names[i]
    ensures forall k | k in old(m.cache) :: k in m.cache && m.cache[k] == old(m.cache)[k]
  {
    ghost var keys0 := m.cache.Keys;
    ghost var built0 := m.provider.built;
    assert names[..0] == [];
    handles := [];
    var i := 0;
    while i < |names|
      invariant 0 <= i <= |names|
      invariant m.Valid()
      invariant m.cache.Keys == keys0 + NameSet(names[..i])
      invariant m.provider.built == built0 + Builds(names[..i], keys0)
      invariant Serves(m, names[..i], handles)
      invariant forall k | k in old(m.cache) :: k in m.cache && m.cache[k] == old(m.cache)[k]
      invariant forall k | k in m.cache && k !in old(m.cache) :: fresh(m.cache[k])
    {
      TakeSnoc(names, i);
      handles := GetOpsStep(m, names[i], names[..i], keys0, built0, handles);
      i := i + 1;
    }
    assert names[..i] == names;
  }
}
