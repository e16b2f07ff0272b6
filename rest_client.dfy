/**
 * The configuration step of the Campaign Monitor REST client's constructor:
 * reject a configuration without an API key or with a foreign base URI,
 * otherwise install the HTTP Basic `Authorization` header (section 2 of
 * RFC 7617, with the API key as user name and "x" as password) and fill in
 * the default base URI. Everything else in the configuration passes through.
 */
module CampaignMonitorRestClient {
  import opened Wrappers
  import opened Php
  import Base64

  const ApiKeyName: string := "api_key"
  const BaseUriName: string := "base_uri"

  const ApiKey: Bytes := Lit(ApiKeyName)
  const Headers: Bytes := Lit("headers")
  const BaseUri: Bytes := Lit(BaseUriName)
  const Authorization: Bytes := Lit("Authorization")

  /** The production API root used when no `base_uri` is given. */
  const DefaultBaseUri: Bytes := Lit("https://api.createsend.com/api/v3.2/")

  /** What every accepted `base_uri` must start with. */
  const PrefixText: string := "https://api.createsend.com/api"

  const RequiredPrefix: Bytes := Lit(PrefixText)

  const BasicScheme: Bytes := Lit("Basic ")

  /** The user-pass separator and the placeholder password. */
  const PasswordSuffix: Bytes := Lit(":x")

  /**
   * Why construction fails. The first two are the exceptions the constructor
   * throws; the other two are the errors PHP 8 itself raises when a
   * configuration value has a type the constructor's code cannot handle.
   */
  datatype ConfigError =
    | MissingApiKey
    | InvalidBaseUri
    | HeadersNotAnArray  // `$config['headers']['Authorization'] = ...` on a string, true or an integer
    | BaseUriNotAString  // `strpos` given an array as haystack
  {
    predicate IsConstructorException() {
      MissingApiKey? || InvalidBaseUri?
    }

    /** The exception message; each names the option whose check failed, and the base_uri one the required prefix. */
    function Message(): (m: string)
      requires IsConstructorException()
      ensures MissingApiKey? ==> |m| >= 15 && m[8..15] == ApiKeyName
      ensures InvalidBaseUri? ==> |m| >= 70 && m[..8] == BaseUriName && m[40..70] == PrefixText
    {
      if MissingApiKey? then
        var m := "Missing " + ApiKeyName + " config option.";
        assert m[8..15] == ApiKeyName;
        m
      else
        var m := BaseUriName + " config option must start with `" + PrefixText + "`.";
        assert m[..8] == BaseUriName && m[40..70] == PrefixText;
        m
    }
  }

  /** The missing-key message as the constructor spells it. */
  lemma MissingApiKeyText()
    ensures MissingApiKey.Message() == "Missing api_key config option."
  {
    assert "Missing " + "api_key" + " config option." == "Missing api_key config option.";
  }

  lemma InvalidBaseUriHead()
    ensures BaseUriName + " config option must start with `" == "base_uri config option must start with `"
  {
  }

  lemma InvalidBaseUriWhole()
    ensures "base_uri config option must start with `" + "https://api.createsend.com/api" + "`."
         == "base_uri config option must start with `https://api.createsend.com/api`."
  {
  }

  /** The base_uri message as the constructor spells it. */
  lemma InvalidBaseUriText()
    ensures InvalidBaseUri.Message() == "base_uri config option must start with `https://api.createsend.com/api`."
  {
    InvalidBaseUriHead();
    InvalidBaseUriWhole();
  }

  /** The `Authorization` header value for an API key. */
  function BasicCredentials(apiKey: Bytes): (r: Bytes)
    ensures BasicScheme <= r
    ensures Base64.Decode(r[|BasicScheme|..]) == Some(apiKey + PasswordSuffix)
  {
    Base64.DecodeEncode(apiKey + PasswordSuffix);
    BasicScheme + Base64.Encode(apiKey + PasswordSuffix)
  }

  /**
   * PHP's `$headers['Authorization'] = $value` on what `$config['headers']`
   * holds: an absent key, null or false becomes a fresh array, an array gets
   * the entry set (replacing any earlier one), and any other scalar is an
   * error (None).
   */
  function SetAuthorization(headers: Option<Value>, value: Bytes): (r: Option<Value>)
    ensures r.Some? <==> headers.None? || headers == Some(Null) || headers == Some(Bool(false)) || headers.value.Arr?
  {
    match headers
    case None => Some(Arr(map[Authorization := Str(value)]))
    case Some(Null) => Some(Arr(map[Authorization := Str(value)]))
    case Some(Bool(false)) => Some(Arr(map[Authorization := Str(value)]))
    case Some(Arr(h)) => Some(Arr(h[Authorization := Str(value)]))
    case Some(_) => None
  }

  /** The configuration keys are pairwise different. */
  lemma KeysDistinct()
    ensures ApiKey != Headers && ApiKey != BaseUri && Headers != BaseUri
  {
    assert ApiKey[0] != Headers[0];
    assert ApiKey[0] != BaseUri[0];
    assert Headers[0] != BaseUri[0];
  }

  /**
   * The configuration the constructor hands to the HTTP client, or the
   * error it stops with. The checks run in the constructor's order: API
   * key, then the header write, then the base URI.
   */
  function Normalise(config: PhpArray): (r: Result<PhpArray, ConfigError>)
    ensures r.Success? ==> !IsEmpty(Lookup(config, ApiKey)) && !HeadersUnwritable(config)
  {
    if IsEmpty(Lookup(config, ApiKey)) then Failure(MissingApiKey)
    else
      match SetAuthorization(Lookup(config, Headers), BasicCredentials(StringCast(config[ApiKey])))
      case None => Failure(HeadersNotAnArray)
      case Some(headers) =>
        var c := config[Headers := headers];
        if IsEmpty(Lookup(c, BaseUri)) then Success(c[BaseUri := Str(DefaultBaseUri)])
        else if c[BaseUri].Arr? then Failure(BaseUriNotAString)
        else if RequiredPrefix <= StringCast(c[BaseUri]) then Success(c)
        else Failure(InvalidBaseUri)
  }

  /**
   * The constructor's statements up to the call of the parent constructor,
   * updating its local copy of the configuration in the same order.
   * `Construct` is the constructor; `Normalise` is its specification.
   */
  method Construct(config: PhpArray) returns (r: Result<PhpArray, ConfigError>)
    ensures r == Normalise(config)
  {
    var c := config;
    if IsEmpty(Lookup(c, ApiKey)) {
      return Failure(MissingApiKey);
    }
    var headers := SetAuthorization(Lookup(c, Headers), BasicCredentials(StringCast(c[ApiKey])));
    if headers.None? {
      return Failure(HeadersNotAnArray);
    }
    c := c[Headers := headers.value];
    if IsEmpty(Lookup(c, BaseUri)) {
      c := c[BaseUri := Str(DefaultBaseUri)];
    } else if c[BaseUri].Arr? {
      return Failure(BaseUriNotAString);
    } else if !(RequiredPrefix <= StringCast(c[BaseUri])) {
      return Failure(InvalidBaseUri);
    }
    return Success(c);
  }

  /** `$config['headers']` holds a scalar that PHP 8 refuses to index into. */
  predicate HeadersUnwritable(config: PhpArray) {
    Headers in config && (config[Headers].Str? || config[Headers] == Bool(true) || config[Headers].Int?)
  }

  /** What every configuration the constructor accepts looks like afterwards. */
  predicate IsNormalised(config: PhpArray) {
    && !IsEmpty(Lookup(config, ApiKey))
    && Headers in config && config[Headers].Arr?
    && Lookup(config[Headers].entries, Authorization) == Some(Str(BasicCredentials(StringCast(config[ApiKey]))))
    && BaseUri in config && config[BaseUri].Str? && RequiredPrefix <= config[BaseUri].s
  }

  /** An absent or empty `api_key` is rejected, whatever else the configuration holds, and only then. */
  lemma MissingApiKeyRejected(config: PhpArray)
    ensures Normalise(config) == Failure(MissingApiKey) <==> IsEmpty(Lookup(config, ApiKey))
    ensures IsEmpty(Lookup(config, ApiKey)) ==> Normalise(config).error.Message() == "Missing api_key config option."
  {
    MissingApiKeyText();
  }

  /** Given an API key, a `headers` entry PHP cannot index is the only reason for the header write to fail. */
  lemma HeadersWriteFails(config: PhpArray)
    requires !IsEmpty(Lookup(config, ApiKey))
    ensures Normalise(config) == Failure(HeadersNotAnArray) <==> HeadersUnwritable(config)
  {
    KeysDistinct();
  }

  /**
   * On success the `Authorization` header is "Basic " followed by the base 64
   * encoding of the API key, ':' and 'x', replacing whatever the caller put there.
   */
  lemma AuthorizationInstalled(config: PhpArray)
    ensures Normalise(config).Success? ==>
      var c := Normalise(config).value;
      && Headers in c && c[Headers].Arr?
      && Lookup(c[Headers].entries, Authorization)
         == Some(Str(Lit("Basic ") + Base64.Encode(StringCast(config[ApiKey]) + Lit(":x"))))
  {
    KeysDistinct();
  }

  /** With an API key and writable headers, an absent or empty `base_uri` becomes the default one. */
  lemma DefaultBaseUriFilled(config: PhpArray)
    requires !IsEmpty(Lookup(config, ApiKey)) && !HeadersUnwritable(config)
    requires IsEmpty(Lookup(config, BaseUri))
    ensures Normalise(config).Success?
    ensures Lookup(Normalise(config).value, BaseUri) == Some(Str(Lit("https://api.createsend.com/api/v3.2/")))
  {
    KeysDistinct();
  }

  /**
   * With an API key and writable headers, a non-empty `base_uri` is kept
   * unchanged exactly when its string form starts with the required prefix
   * (a plain prefix test: no URL parsing), and otherwise rejected.
   */
  lemma BaseUriChecked(config: PhpArray)
    requires !IsEmpty(Lookup(config, ApiKey)) && !HeadersUnwritable(config)
    requires !IsEmpty(Lookup(config, BaseUri))
    ensures config[BaseUri].Arr? ==> Normalise(config) == Failure(BaseUriNotAString)
    ensures !config[BaseUri].Arr? ==>
      (Normalise(config).Success? <==> Lit("https://api.createsend.com/api") <= StringCast(config[BaseUri]))
    ensures !config[BaseUri].Arr? && Normalise(config).Failure? ==>
      Normalise(config) == Failure(InvalidBaseUri)
      && Normalise(config).error.Message() == "base_uri config option must start with `https://api.createsend.com/api`."
    ensures Normalise(config).Success? ==> Lookup(Normalise(config).value, BaseUri) == Lookup(config, BaseUri)
  {
    KeysDistinct();
    InvalidBaseUriText();
  }

  /**
   * Nothing else changes: every key but `headers` and `base_uri`, and every
   * header but `Authorization`, is passed through, and no key disappears.
   */
  lemma PassThrough(config: PhpArray)
    ensures Normalise(config).Success? ==>
      var c := Normalise(config).value;
      && c.Keys == config.Keys + {Headers, BaseUri}
      && (forall k :: k != Headers && k != BaseUri ==> Lookup(c, k) == Lookup(config, k))
      && (Headers in config && config[Headers].Arr? ==>
            c[Headers].entries.Keys == config[Headers].entries.Keys + {Authorization}
            && forall k :: k != Authorization ==> Lookup(c[Headers].entries, k) == Lookup(config[Headers].entries, k))
      && (!(Headers in config && config[Headers].Arr?) ==> c[Headers].entries.Keys == {Authorization})
  {
    KeysDistinct();
  }

  /** An integer or boolean never spells a string starting with the required prefix. */
  lemma ScalarBaseUriRejected(v: Value)
    requires v.Null? || v.Bool? || v.Int?
    ensures !(RequiredPrefix <= StringCast(v))
  {
    assert |RequiredPrefix| == 30 && RequiredPrefix[0] == 104;
    if v.Int? {
      assert StringCast(v) == IntDecimal(v.i);
      assert StringCast(v)[0] != 104;
    } else if v == Bool(true) {
      assert StringCast(v) == [49];
    } else {
      assert StringCast(v) == [];
    }
  }

  /** Every accepted configuration comes out normalised. */
  lemma NormaliseEstablishes(config: PhpArray)
    ensures Normalise(config).Success? ==> IsNormalised(Normalise(config).value)
  {
    KeysDistinct();
    if Normalise(config).Success? && Lookup(config, BaseUri).Some? && !IsEmpty(Lookup(config, BaseUri)) && !config[BaseUri].Str? {
      ScalarBaseUriRejected(config[BaseUri]);
    }
  }

  /** A normalised configuration is accepted as it is. */
  lemma NormalisedIsFixpoint(config: PhpArray)
    requires IsNormalised(config)
    ensures Normalise(config) == Success(config)
  {
    KeysDistinct();
    var h := config[Headers].entries;
    assert h[Authorization := h[Authorization]] == h;
    assert config[Headers := Arr(h)] == config;
  }

  /** Normalising twice is normalising once. */
  lemma NormaliseIdempotent(config: PhpArray)
    ensures Normalise(config).Success? ==> Normalise(Normalise(config).value) == Normalise(config)
  {
    NormaliseEstablishes(config);
    if Normalise(config).Success? {
      NormalisedIsFixpoint(Normalise(config).value);
    }
  }

  /** Two API-key strings (string forms of the key) with the same `Authorization` header are equal. */
  lemma CredentialsInjective(a: Bytes, b: Bytes)
    requires BasicCredentials(a) == BasicCredentials(b)
    ensures a == b
  {
    var n := |BasicScheme|;
    assert Base64.Decode(BasicCredentials(a)[n..]) == Some(a + PasswordSuffix);
    assert a == (a + PasswordSuffix)[..|a|];
    assert b == (b + PasswordSuffix)[..|b|];
  }

  /** The documented example: the API key "abc" gives the header "Basic YWJjOng=". */
  lemma AbcExample()
    ensures BasicCredentials(Lit("abc")) == Lit("Basic YWJjOng=")
  {
    var input := Lit("abc") + PasswordSuffix;
    assert input == [97, 98, 99, 58, 120];
    assert input[3..] == [58, 120];
    assert Base64.Quantum(97, 98, 99) == [89, 87, 74, 106];
    assert Base64.Encode([58, 120]) == [79, 110, 103, 61];
    assert Base64.Encode(input) == [89, 87, 74, 106, 79, 110, 103, 61];
    assert BasicScheme == [66, 97, 115, 105, 99, 32];
    assert Lit("Basic YWJjOng=") == [66, 97, 115, 105, 99, 32, 89, 87, 74, 106, 79, 110, 103, 61];
  }

  /** "0" is empty to PHP: as an API key it is missing, as a base URI it is replaced by the default. */
  lemma ZeroIsEmpty()
    ensures Normalise(map[ApiKey := Str(Lit("0"))]) == Failure(MissingApiKey)
    ensures var c := map[ApiKey := Str(Lit("abc")), BaseUri := Str(Lit("0"))];
      Normalise(c).Success? && Normalise(c).value[BaseUri] == Str(DefaultBaseUri)
  {
    var c := map[ApiKey := Str(Lit("abc")), BaseUri := Str(Lit("0"))];
    KeysDistinct();
    assert Lit("abc") != [] && Lit("abc") != Lit("0");
    DefaultBaseUriFilled(c);
  }

  /** The prefix test is on characters, not on URL structure: ".../apix" is accepted. */
  lemma PrefixIsPlainText()
    ensures var c := map[ApiKey := Str(Lit("abc")), BaseUri := Str(Lit("https://api.createsend.com/apix"))];
      Normalise(c).Success? && Normalise(c).value[BaseUri] == c[BaseUri]
  {
    var uri := Lit("https://api.createsend.com/apix");
    var c := map[ApiKey := Str(Lit("abc")), BaseUri := Str(uri)];
    KeysDistinct();
    assert Lit("abc") != [] && Lit("abc") != Lit("0");
    assert uri != [] && uri != Lit("0");
    assert uri[..|RequiredPrefix|] == RequiredPrefix;
    BaseUriChecked(c);
  }
}
