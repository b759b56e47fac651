/**
 * Resolution of the catalog (tenant) name from the raw path prefix that the
 * REST layer hands to `IcebergCatalogWrapperManager.getOps`: `shelling` strips
 * the trailing `/`, and `getCatalogName` maps a blank prefix to the reserved
 * default catalog and refuses the reserved name when a caller spells it out.
 */
module CatalogNames {
  import opened Wrappers
  import opened StringUtils

  /** Strings that `StringUtils.isBlank` rejects. */
  type NonBlankName = s: string | !AllWhitespace(s) witness "catalog"

  /**
   * `IcebergConstants.GRAVITINO_DEFAULT_CATALOG`. Its value is not part of this
   * model: the constant is left unspecified, and all the model knows is that
   * it is not blank.
   */
  const ReservedDefault: NonBlankName

  /** The reserved key is neither null, nor empty, nor whitespace only. */
  lemma ReservedDefaultNotBlank()
    ensures !IsBlank(Some(ReservedDefault)) && |ReservedDefault| > 0
  {
  }

  /** The two `IllegalArgumentException`s of `Preconditions.checkArgument`, with the string each message names. */
  datatype PrefixError =
    | IllegalPrefixFormat(rawPrefix: string)
    | ReservedKeyConflict(prefix: string)

  /** `String.endsWith("/")`. */
  predicate EndsWithSlash(s: string)
    ensures EndsWithSlash(s) <==> exists t :: s == t + "/"
  {
    if |s| > 0 && s[|s| - 1] == '/' then
      assert s == s[..|s| - 1] + "/";
      true
    else
      false
  }

  /**
   * `shelling`: a blank raw prefix (null included) is passed through as it is;
   * any other must end in `/`, and exactly that last character is removed.
   */
  function Shelling(rawPrefix: Option<string>): (r: Result<Option<string>, PrefixError>)
    ensures IsBlank(rawPrefix) ==> r == Success(rawPrefix)
    ensures r.Failure? <==> !IsBlank(rawPrefix) && !EndsWithSlash(rawPrefix.value)
    ensures r.Failure? ==> r.error == IllegalPrefixFormat(rawPrefix.value)
    ensures r.Success? && !IsBlank(rawPrefix) ==> r.value.Some? && rawPrefix.value == r.value.value + "/"
  {
    if IsBlank(rawPrefix) then
      Success(rawPrefix)
    else if !EndsWithSlash(rawPrefix.value) then
      Failure(IllegalPrefixFormat(rawPrefix.value))
    else
      var raw := rawPrefix.value;
      assert raw == raw[..|raw| - 1] + "/";
      Success(Some(raw[..|raw| - 1]))
  }

  /**
   * `getCatalogName`: the shelled prefix must not be the reserved key (this is
   * tested first); a blank shelled prefix selects the reserved default catalog;
   * anything else is the catalog name itself.
   */
  function GetCatalogName(rawPrefix: Option<string>): (r: Result<string, PrefixError>)
    ensures r.Success? ==> !AllWhitespace(r.value)
    ensures r.Success? ==> r.value == ReservedDefault || rawPrefix == Some(r.value + "/")
    ensures r.Failure? ==> !IsBlank(rawPrefix)
  {
    match Shelling(rawPrefix)
    case Failure(e) => Failure(e)
    case Success(prefix) =>
      if prefix == Some(ReservedDefault) then
        Failure(ReservedKeyConflict(ReservedDefault))
      else if IsBlank(prefix) then
        Success(ReservedDefault)
      else
        Success(prefix.value)
  }

  /** A null, empty or whitespace-only raw prefix selects the default catalog. */
  lemma BlankPrefixSelectsDefault(rawPrefix: Option<string>)
    requires IsBlank(rawPrefix)
    ensures GetCatalogName(rawPrefix) == Success(ReservedDefault)
  {
  }

  /** A raw prefix that is not blank and does not end in `/` is an illegal argument. */
  lemma MissingSlashRejected(rawPrefix: string)
    requires !AllWhitespace(rawPrefix) && !EndsWithSlash(rawPrefix)
    ensures GetCatalogName(Some(rawPrefix)) == Failure(IllegalPrefixFormat(rawPrefix))
  {
  }

  /**
   * Round trip: appending `/` to a non-blank name other than the reserved key
   * resolves back to that name, inner slashes included.
   */
  lemma StripSlashRoundTrip(name: string)
    requires !AllWhitespace(name) && name != ReservedDefault
    ensures GetCatalogName(Some(name + "/")) == Success(name)
  {
    AllWhitespaceAppend(name, "/");
    assert (name + "/")[..|name|] == name;
  }

  /** Spelling out the reserved key, slash included, is refused as a conflict. */
  lemma ReservedKeyRejected()
    ensures GetCatalogName(Some(ReservedDefault + "/")) == Failure(ReservedKeyConflict(ReservedDefault))
  {
    AllWhitespaceAppend(ReservedDefault, "/");
    assert (ReservedDefault + "/")[..|ReservedDefault|] == ReservedDefault;
  }

  /**
   * Only the prefix left after shelling is compared with the reserved key:
   * the bare reserved key, lacking the final `/`, is refused earlier, as an
   * ill-formed prefix.
   */
  lemma BareReservedKeyIllFormed()
    requires !EndsWithSlash(ReservedDefault)
    ensures GetCatalogName(Some(ReservedDefault)) == Failure(IllegalPrefixFormat(ReservedDefault))
  {
  }

  /**
   * `"/"` and whitespace followed by `/` are not blank, so they are shelled;
   * what is left is blank, so they too select the default catalog.
   */
  lemma BlankStemSelectsDefault(stem: string)
    requires AllWhitespace(stem)
    ensures GetCatalogName(Some(stem + "/")) == Success(ReservedDefault)
  {
    AllWhitespaceAppend(stem, "/");
    assert (stem + "/")[..|stem|] == stem;
  }

  /**
   * Every outcome of `getCatalogName`, stated on the raw prefix: success with
   * the default catalog, success with the prefix minus its slash, or one of
   * the two argument errors, each under its own condition.
   */
  lemma CatalogNameCases(rawPrefix: Option<string>)
    ensures var r := GetCatalogName(rawPrefix);
      && (r == Success(ReservedDefault) <==>
            IsBlank(rawPrefix) || exists stem :: rawPrefix == Some(stem + "/") && AllWhitespace(stem))
      && (r.Failure? && r.error.IllegalPrefixFormat? <==>
            !IsBlank(rawPrefix) && !EndsWithSlash(rawPrefix.value))
      && (r.Failure? && r.error.ReservedKeyConflict? <==>
            rawPrefix == Some(ReservedDefault + "/"))
  {
    var r := GetCatalogName(rawPrefix);
    if rawPrefix == Some(ReservedDefault + "/") {
      ReservedKeyRejected();
    }
    if stem :| rawPrefix == Some(stem + "/") && AllWhitespace(stem) {
      BlankStemSelectsDefault(stem);
    }
    if r == Success(ReservedDefault) && !IsBlank(rawPrefix) {
      var raw := rawPrefix.value;
      var stem := raw[..|raw| - 1];
      assert raw == stem + "/";
    }
    if r.Failure? && r.error.ReservedKeyConflict? {
      var raw := rawPrefix.value;
      assert raw == raw[..|raw| - 1] + "/";
    }
  }

  /** Distinct tenants never share a catalog: two accepted non-blank stems that differ resolve to different names. */
  lemma DistinctStemsDistinctCatalogs(p: string, q: string)
    requires !AllWhitespace(p) && p != ReservedDefault
    requires !AllWhitespace(q) && q != ReservedDefault
    requires p != q
    ensures GetCatalogName(Some(p + "/")) != GetCatalogName(Some(q + "/"))
  {
    StripSlashRoundTrip(p);
    StripSlashRoundTrip(q);
  }

  /**
   * The reserved-key test comes before the blank test in `getCatalogName`;
   * because the reserved key is not blank, testing blankness first would give
   * the same result on every input.
   */
  function GetCatalogNameBlankFirst(rawPrefix: Option<string>): (r: Result<string, PrefixError>)
  {
    match Shelling(rawPrefix)
    case Failure(e) => Failure(e)
    case Success(prefix) =>
      if IsBlank(prefix) then
        Success(ReservedDefault)
      else if prefix == Some(ReservedDefault) then
        Failure(ReservedKeyConflict(ReservedDefault))
      else
        Success(prefix.value)
  }

  lemma CheckOrderIrrelevant(rawPrefix: Option<string>)
    ensures GetCatalogName(rawPrefix) == GetCatalogNameBlankFirst(rawPrefix)
  {
  }
}
