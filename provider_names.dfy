/**
 * Selection of the catalog-wrapper provider: the configured provider name is
 * looked up in a fixed table of two well-known short names; a name not in the
 * table is taken to be the implementation's class name itself.
 */
module ProviderNames {

  /** `ConfigBasedIcebergCatalogWrapperProvider.CONFIG_BASE_ICEBERG_TABLE_OPS_PROVIDER_NAME`. */
  const ConfigBasedProviderName := "config-based-provider"

  /** `GravitinoBasedIcebergCatalogWrapperProvider.GRAVITINO_BASE_ICEBERG_TABLE_OPS_PROVIDER_NAME`. */
  const GravitinoBasedProviderName := "gravitino-based-provider"

  /** Canonical class names of the two built-in providers. */
  const ConfigBasedProviderClass := "org.apache.gravitino.iceberg.provider.ConfigBasedIcebergCatalogWrapperProvider"
  const GravitinoBasedProviderClass := "org.apache.gravitino.iceberg.provider.GravitinoBasedIcebergCatalogWrapperProvider"

  /** `ICEBERG_TABLE_OPS_PROVIDER_NAMES`. */
  const ProviderClassNames: map<string, string> :=
    map[ConfigBasedProviderName := ConfigBasedProviderClass,
        GravitinoBasedProviderName := GravitinoBasedProviderClass]

  /** `ICEBERG_TABLE_OPS_PROVIDER_NAMES.getOrDefault(providerName, providerName)`. */
  function ProviderClassName(providerName: string): (className: string)
    ensures className == providerName || className in ProviderClassNames.Values
    ensures providerName in ProviderClassNames ==> className in ProviderClassNames.Values
  {
    if providerName in ProviderClassNames then ProviderClassNames[providerName] else providerName
  }

  /** Each well-known short name selects its own built-in provider class. */
  lemma WellKnownProviders()
    ensures ProviderClassNames.Keys == {ConfigBasedProviderName, GravitinoBasedProviderName}
    ensures ProviderClassName(ConfigBasedProviderName) == ConfigBasedProviderClass
    ensures ProviderClassName(GravitinoBasedProviderName) == GravitinoBasedProviderClass
    ensures ConfigBasedProviderClass != GravitinoBasedProviderClass
  {
  }

  /** Any other name, a fully qualified class name among them, is returned unchanged. */
  lemma OtherNamesPassThrough(providerName: string)
    requires providerName != ConfigBasedProviderName && providerName != GravitinoBasedProviderName
    ensures ProviderClassName(providerName) == providerName
  {
  }

  /**
   * Resolution is idempotent: a resolved class name is never itself a short
   * name, so configuring the class name directly selects the same provider.
   */
  lemma ProviderClassNameIdempotent(providerName: string)
    ensures ProviderClassName(ProviderClassName(providerName)) == ProviderClassName(providerName)
  {
    assert ConfigBasedProviderClass !in ProviderClassNames by {
      assert |ConfigBasedProviderClass| != |ConfigBasedProviderName|;
      assert |ConfigBasedProviderClass| != |GravitinoBasedProviderName|;
    }
    assert GravitinoBasedProviderClass !in ProviderClassNames by {
      assert |GravitinoBasedProviderClass| != |ConfigBasedProviderName|;
      assert |GravitinoBasedProviderClass| != |GravitinoBasedProviderName|;
    }
  }
}
