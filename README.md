# Gravitino Iceberg REST catalog-wrapper manager, in Dafny

This project models `IcebergCatalogWrapperManager` of the Gravitino Iceberg
REST server. The manager hands each request the catalog wrapper of its tenant.
It has three parts, and the model follows them:

- **Tenant-key resolution** (`catalog_names.dfy`). `shelling` and
  `getCatalogName` turn the raw path prefix into a catalog name. A blank
  prefix selects the reserved default catalog. Any other prefix must end in
  `/`, and that one character is stripped. A stripped prefix equal to the
  reserved key is refused. `StringUtils.isBlank` is modelled in
  `string_utils.dfy`, with the character set of `Character.isWhitespace` as
  of Java 9 (Unicode 6.3 and later).
- **Provider selection** (`provider_names.dfy`). The configured provider name
  is looked up in a two-entry table of short names. A name that is not in the
  table is used as the class name itself.
- **The wrapper cache** (`wrapper_manager.dfy`). A `Manager` class holds the
  cache as a `map` from catalog name to `CatalogWrapper` object. `GetOps`
  returns the cached wrapper, or has the `Provider` build and cache one. In
  both cases it reloads the wrapper's Hadoop configuration once. `Close`
  removes every entry and closes each removed wrapper, swallowing close
  failures. It then closes the provider if the provider is `AutoCloseable`.
  The provider keeps a log of the catalog names it built. Each wrapper counts
  its reloads and its close calls.

`wrappers.dfy` holds `Option` for Java's `null` and `Result` for the
`IllegalArgumentException`s that `Preconditions.checkArgument` throws.

Only the prefix left after stripping the slash is compared with the reserved
key (lines 96-99). So `<reserved>/` is refused as a reserved-key conflict,
while a bare `<reserved>`, which does not end in `/`, is refused earlier, as an
ill-formed prefix (lines 124-125).

## Model

| member | source | states |
|---|---|---|
| StringUtils.IsWhitespace | iceberg/iceberg-rest-server/src/main/java/org/apache/gravitino/iceberg/service/IcebergCatalogWrapperManager.java:120 | the characters `Character.isWhitespace` accepts on Java 9 and later; `/` and the no-break spaces U+00A0, U+2007 and U+202F are not among them |
| StringUtils.AllWhitespace | iceberg/iceberg-rest-server/src/main/java/org/apache/gravitino/iceberg/service/IcebergCatalogWrapperManager.java:120 | a string is whitespace only; such a string never contains `/` |
| StringUtils.IsBlank | iceberg/iceberg-rest-server/src/main/java/org/apache/gravitino/iceberg/service/IcebergCatalogWrapperManager.java:100 | `null` and the empty string are blank, and no string containing `/` is blank |
| StringUtils.AllWhitespaceIff | iceberg/iceberg-rest-server/src/main/java/org/apache/gravitino/iceberg/service/IcebergCatalogWrapperManager.java:120 | the whitespace scan behind `isBlank` holds exactly when every character is whitespace |
| StringUtils.AllWhitespaceAppend | iceberg/iceberg-rest-server/src/main/java/org/apache/gravitino/iceberg/service/IcebergCatalogWrapperManager.java:119-126 | a concatenation is blank exactly when both parts are, so appending `/` always makes a prefix non-blank |
| CatalogNames.EndsWithSlash | iceberg/iceberg-rest-server/src/main/java/org/apache/gravitino/iceberg/service/IcebergCatalogWrapperManager.java:125 | `endsWith("/")`: the string ends in `/` exactly when it is some string followed by `/` |
| CatalogNames.Shelling | iceberg/iceberg-rest-server/src/main/java/org/apache/gravitino/iceberg/service/IcebergCatalogWrapperManager.java:119-128 | a blank raw prefix (null included) is passed through; any other is refused iff it does not end in `/`, and otherwise the result plus `/` is the raw prefix |
| CatalogNames.GetCatalogName | iceberg/iceberg-rest-server/src/main/java/org/apache/gravitino/iceberg/service/IcebergCatalogWrapperManager.java:95-104 | a resolved catalog name is never blank, and it is either the reserved default or the raw prefix minus its final `/`; a blank raw prefix is never refused |
| CatalogNames.BlankPrefixSelectsDefault | iceberg/iceberg-rest-server/src/main/java/org/apache/gravitino/iceberg/service/IcebergCatalogWrapperManager.java:100-101 | a null, empty or whitespace-only raw prefix resolves to the reserved default catalog |
| CatalogNames.MissingSlashRejected | iceberg/iceberg-rest-server/src/main/java/org/apache/gravitino/iceberg/service/IcebergCatalogWrapperManager.java:124-125 | a non-blank raw prefix without a final `/` is refused as an illegal prefix naming that raw prefix |
| CatalogNames.StripSlashRoundTrip | iceberg/iceberg-rest-server/src/main/java/org/apache/gravitino/iceberg/service/IcebergCatalogWrapperManager.java:126 | for every non-blank name other than the reserved key, `name + "/"` resolves to `name`, inner slashes kept |
| CatalogNames.ReservedDefaultNotBlank | iceberg/iceberg-rest-server/src/main/java/org/apache/gravitino/iceberg/service/IcebergCatalogWrapperManager.java:98-101 | the reserved default catalog name is neither null, empty nor whitespace only, so returning it at line 101 yields a usable catalog name |
| CatalogNames.BareReservedKeyIllFormed | iceberg/iceberg-rest-server/src/main/java/org/apache/gravitino/iceberg/service/IcebergCatalogWrapperManager.java:96-99 | a raw prefix equal to the reserved key itself, without a final `/`, is refused as an ill-formed prefix, not as a reserved-key conflict |
| CatalogNames.ReservedKeyRejected | iceberg/iceberg-rest-server/src/main/java/org/apache/gravitino/iceberg/service/IcebergCatalogWrapperManager.java:97-99 | the reserved key followed by `/` is refused as a reserved-key conflict |
| CatalogNames.BlankStemSelectsDefault | iceberg/iceberg-rest-server/src/main/java/org/apache/gravitino/iceberg/service/IcebergCatalogWrapperManager.java:96-102 | `/` and whitespace followed by `/` are shelled and then, being blank, resolve to the reserved default |
| CatalogNames.CatalogNameCases | iceberg/iceberg-rest-server/src/main/java/org/apache/gravitino/iceberg/service/IcebergCatalogWrapperManager.java:95-128 | both directions, for every raw prefix: the default is chosen iff the prefix is blank or whitespace plus `/`; an illegal-format error iff it is non-blank without a final `/`; a reserved-key conflict iff it is the reserved key plus `/` |
| CatalogNames.DistinctStemsDistinctCatalogs | iceberg/iceberg-rest-server/src/main/java/org/apache/gravitino/iceberg/service/IcebergCatalogWrapperManager.java:103 | two different accepted non-blank stems never resolve to the same catalog name |
| CatalogNames.CheckOrderIrrelevant | iceberg/iceberg-rest-server/src/main/java/org/apache/gravitino/iceberg/service/IcebergCatalogWrapperManager.java:97-102 | testing blankness before the reserved key would give the same result on every input, because the reserved key is not blank |
| ProviderNames.ProviderClassName | iceberg/iceberg-rest-server/src/main/java/org/apache/gravitino/iceberg/service/IcebergCatalogWrapperManager.java:109 | the resolved class name is the configured name itself or one of the table's class names, and always the latter for a short name in the table |
| ProviderNames.WellKnownProviders | iceberg/iceberg-rest-server/src/main/java/org/apache/gravitino/iceberg/service/IcebergCatalogWrapperManager.java:43-49 | the table's keys are exactly the two short names; each selects its own built-in provider class, and the two classes differ |
| ProviderNames.OtherNamesPassThrough | iceberg/iceberg-rest-server/src/main/java/org/apache/gravitino/iceberg/service/IcebergCatalogWrapperManager.java:109 | any name other than the two short names is returned unchanged |
| ProviderNames.ProviderClassNameIdempotent | iceberg/iceberg-rest-server/src/main/java/org/apache/gravitino/iceberg/service/IcebergCatalogWrapperManager.java:107-109 | resolving a resolved class name again changes nothing |
| WrapperManager.Builds | iceberg/iceberg-rest-server/src/main/java/org/apache/gravitino/iceberg/service/IcebergCatalogWrapperManager.java:86-88 | the provider calls a run of `getOps` makes (what `GetOpsRun` and `GetOps` append to the build log): at most one per name requested |
| WrapperManager.BuildsOncePerName | iceberg/iceberg-rest-server/src/main/java/org/apache/gravitino/iceberg/service/IcebergCatalogWrapperManager.java:86-88 | the names `Builds` lists, and so the names a run of `getOps` hands to the provider, are exactly those not cached when the run began, each once |
| WrapperManager.BuildsSnoc | iceberg/iceberg-rest-server/src/main/java/org/apache/gravitino/iceberg/service/IcebergCatalogWrapperManager.java:85-93 | the builds of a run extend, call by call, by what one more `getOps` builds against the keys cached so far |
| WrapperManager.CatalogWrapper.ReloadHadoopConf | iceberg/iceberg-rest-server/src/main/java/org/apache/gravitino/iceberg/service/IcebergCatalogWrapperManager.java:91 | one more reload of the wrapper, nothing else changes |
| WrapperManager.CatalogWrapper.Close | iceberg/iceberg-rest-server/src/main/java/org/apache/gravitino/iceberg/service/IcebergCatalogWrapperManager.java:132 | one more close call; the result says whether it threw |
| WrapperManager.Provider.Initialize | iceberg/iceberg-rest-server/src/main/java/org/apache/gravitino/iceberg/service/IcebergCatalogWrapperManager.java:57 | the provider is initialized, its build log unchanged |
| WrapperManager.Provider.GetIcebergTableOps | iceberg/iceberg-rest-server/src/main/java/org/apache/gravitino/iceberg/service/IcebergCatalogWrapperManager.java:88 | a fresh, never reloaded or closed wrapper for the given catalog, logged once in the build log |
| WrapperManager.Provider.Close | iceberg/iceberg-rest-server/src/main/java/org/apache/gravitino/iceberg/service/IcebergCatalogWrapperManager.java:141-143 | the provider is closed, its build log unchanged |
| WrapperManager.Manager.constructor | iceberg/iceberg-rest-server/src/main/java/org/apache/gravitino/iceberg/service/IcebergCatalogWrapperManager.java:55-78 | the provider of the class `ProviderClassName` selects is initialized with an empty build log, and the cache starts empty |
| WrapperManager.Manager.GetOps | iceberg/iceberg-rest-server/src/main/java/org/apache/gravitino/iceberg/service/IcebergCatalogWrapperManager.java:85-93 | fails exactly when `getCatalogName` refuses the prefix, with its error, and then changes nothing; otherwise a hit returns the cached wrapper with no build, a miss builds once with the resolved name and caches the fresh wrapper under it, other entries are untouched, exactly the returned wrapper is reloaded once, and the cache keys stay non-blank |
| WrapperManager.Manager.GetOpsForCatalog | iceberg/iceberg-rest-server/src/main/java/org/apache/gravitino/iceberg/service/IcebergCatalogWrapperManager.java:87-92 | the cache lookup for a resolved name: the provider is called only on a miss, its build log grows by exactly `Builds` of that name, the wrapper is cached under its own name and reloaded once, and every other entry is untouched |
| WrapperManager.Manager.CloseIcebergTableOps | iceberg/iceberg-rest-server/src/main/java/org/apache/gravitino/iceberg/service/IcebergCatalogWrapperManager.java:130-136 | the wrapper is closed once and a failing close is swallowed |
| WrapperManager.Manager.Close | iceberg/iceberg-rest-server/src/main/java/org/apache/gravitino/iceberg/service/IcebergCatalogWrapperManager.java:138-144 | the cache ends empty, every removed wrapper is closed exactly once (failing ones included) and not reloaded, and the provider is closed iff it is `AutoCloseable`, its build log unchanged |
| WrapperManager.SameTenantTwice | iceberg/iceberg-rest-server/src/main/java/org/apache/gravitino/iceberg/service/IcebergCatalogWrapperManager.java:85-93 | two requests for one tenant get the identical wrapper, the build log grows by exactly `Builds` of that name (one build if it was not cached, none if it was), and the wrapper has been reloaded twice more |
| WrapperManager.GetOpsStep | iceberg/iceberg-rest-server/src/main/java/org/apache/gravitino/iceberg/service/IcebergCatalogWrapperManager.java:85-93 | one more request in a run: the cache keys gain its name, the build log grows as `BuildsSnoc` says, and every earlier handle is still the cached one |
| WrapperManager.GetOpsRun | iceberg/iceberg-rest-server/src/main/java/org/apache/gravitino/iceberg/service/IcebergCatalogWrapperManager.java:85-93 | a run of requests for resolved names: the cache keys gain exactly those names, the provider builds exactly `Builds(names, old keys)`, each returned handle is the wrapper cached under its name, and earlier entries stay as they were |

## Left out

- Time-based eviction (`expireAfterWrite`), the cleaner thread and concurrent access (lines 58-77). These are Caffeine library behaviour driven by time and threads; the model is one sequential caller.
- Reflective provider loading (`Class.forName`, `newInstance`, lines 111-116) and its `RuntimeException`. The model builds a `Provider` that records the resolved class name; whether it is `AutoCloseable` and which of its backends fail to close are constructor parameters standing for the loaded class.
- A provider that throws while building a wrapper, and so the absence of negative caching: that depends on the contract of Caffeine's `Cache.get`, outside this class.
- An exception thrown by the provider's own `close` (line 142). The modelled provider's close always completes.
- `IcebergConfig` property parsing (lines 61-62, 108) and the properties passed to `initialize`. The provider name is a constructor parameter.
- SLF4J logging (lines 66, 110, 134).
- What `reloadHadoopConf` and a wrapper's `close` do (Hadoop authentication, backend connections). Only that the calls happen is recorded.
- The value of `IcebergConstants.GRAVITINO_DEFAULT_CATALOG`. It is an unspecified non-blank constant.
- Where the short provider names come from. The values `config-based-provider` and `gravitino-based-provider` are constants of the two provider classes (lines 45 and 47-48), which are not part of this model. The lookup needs only that the two differ. `ProviderClassNameIdempotent` also needs that no class name is a short name; the model shows this by their lengths.
- WrapperManager.Manager.Close: Caffeine runs the removal listener (lines 64-68) on its executor, so when `close()` returns the wrappers may not be closed yet, and some may be closed only after the provider. The model closes them one by one inside `Close`, before the provider.
- StringUtils.IsWhitespace: on Java 8, U+180E (Mongolian vowel separator) is also whitespace. The model follows Java 9 and later, where it is not.
- Java strings are sequences of UTF-16 code units; the model's strings are sequences of Unicode characters. No supplementary character is whitespace and the stripped last character is always `/`, so the difference does not show.
- `IcebergDataTypeConverter` is not part of this model: it is a separate class of the lakehouse catalog that only delegates to `ToIcebergTypeVisitor`, `ToIcebergType`, `FromIcebergType` and Iceberg's `TypeUtil`.
- `IcebergCatalogWrapperManagerForTest` is not part of this model. It is a test subclass calling a constructor and a factory method the manager does not have.
