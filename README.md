# Campaign Monitor REST client: configuration normalisation in Dafny

`CampaignMonitorRestClient` is a Guzzle HTTP client subclass for the
Campaign Monitor API. Its constructor takes a Guzzle configuration array.
It does one of two things with it:

- It throws, when `api_key` is missing or PHP-empty (absent, null, false,
  0, `""`, `"0"`, `[]`). It also throws when `base_uri` is non-empty and does
  not start with `https://api.createsend.com/api`.
- Otherwise it sets `headers.Authorization` to
  `"Basic " . base64_encode(api_key . ":x")`. That is HTTP Basic
  authentication from section 2 of RFC 7617, with the key as user name and
  `x` as password. It also puts `https://api.createsend.com/api/v3.2/` into an
  absent or empty `base_uri`, and then hands the array to Guzzle.

This project models that step:

- `php.dfy` (module `Php`): the PHP values involved. Strings are byte
  strings. Arrays are maps keyed by byte strings. It also defines PHP's
  `empty()` and its string conversion.
- `base64.dfy` (module `Base64`): `base64_encode` as the encoding of section 4
  of RFC 4648, with the standard alphabet and `=` padding. A strict decoder is
  its partner. Both round trips are proved, so the encoding is injective.
- `rest_client.dfy` (module `CampaignMonitorRestClient`):
  - `Normalise` is the specification function: the resulting configuration,
    or the reason construction stops.
  - `Construct` is the constructor's statements, updating a local copy of the
    configuration in source order. It is proved equal to `Normalise`.
  - The lemmas state the behaviour the constructor promises: the two
    rejections, the header value, the default, the prefix test, the pass
    through of everything else, the invariant of accepted configurations and
    idempotence.
- `wrappers.dfy`: `Option` and `Result`.

Three details of the code's behaviour are easy to misread:

- "0" and the other PHP-empty values count as a missing API key. The key is
  not trimmed.
- A `base_uri` that is present but empty (including `"0"`) gets the default.
  It is not rejected.
- The prefix test is a plain byte-prefix test, so
  `https://api.createsend.com/apix` is accepted.

Where the code's behaviour depends on the PHP engine, PHP 8 semantics are
modelled:

- Writing `$config['headers']['Authorization']` turns an absent, null or
  false `headers` into a new array. It fails on a string, `true` or an
  integer (`HeadersNotAnArray`).
- `strpos` throws a `TypeError` when `base_uri` is an array
  (`BaseUriNotAString`). Integers and booleans are converted to strings
  first, so they fail the prefix test.
- An array `api_key` that is not empty is converted to `"Array"`.

## Model

| member | source | states |
|---|---|---|
| `CampaignMonitorRestClient.Construct` | src/CampaignMonitorRestClient.php:22-36 | running the constructor's statements in order, on a local copy of the configuration, gives exactly `Normalise(config)`: the same error or the same resulting configuration |
| `CampaignMonitorRestClient.MissingApiKeyRejected` | src/CampaignMonitorRestClient.php:23-24 | construction fails with the missing-key error if and only if `api_key` is absent or PHP-empty, whatever `headers` and `base_uri` hold (the key is checked first); the message is "Missing api_key config option." |
| `CampaignMonitorRestClient.HeadersWriteFails` | src/CampaignMonitorRestClient.php:28 | given an API key, the header write fails if and only if `headers` holds a string, `true` or an integer |
| `CampaignMonitorRestClient.SetAuthorization` | src/CampaignMonitorRestClient.php:28 | assigning `$config['headers']['Authorization']` succeeds exactly when `headers` is absent, null, false or an array |
| `CampaignMonitorRestClient.AuthorizationInstalled` | src/CampaignMonitorRestClient.php:26-28 | on success `headers.Authorization` is `"Basic "` followed by the base 64 encoding of the API key's string form, `:` and `x`, replacing any value the caller supplied |
| `CampaignMonitorRestClient.BasicCredentials` | src/CampaignMonitorRestClient.php:28 | the header value starts with `"Basic "`, and the rest decodes (base 64) to the API key followed by `:x` |
| `CampaignMonitorRestClient.CredentialsInjective` | src/CampaignMonitorRestClient.php:28 | two API-key strings (the string forms of the keys) with the same `Authorization` value are equal; different key values with the same string form, such as `5` and `"5"`, share a header |
| `CampaignMonitorRestClient.AbcExample` | src/CampaignMonitorRestClient.php:28 | the API key `abc` gives the header `Basic YWJjOng=` |
| `CampaignMonitorRestClient.DefaultBaseUriFilled` | src/CampaignMonitorRestClient.php:31-32 | with an API key and writable headers, an absent or PHP-empty `base_uri` makes construction succeed with `base_uri` = `https://api.createsend.com/api/v3.2/` |
| `CampaignMonitorRestClient.BaseUriChecked` | src/CampaignMonitorRestClient.php:34-35 | with an API key and writable headers, a non-empty `base_uri` is accepted if and only if its string form starts with `https://api.createsend.com/api`, and is then kept unchanged; otherwise the base_uri error (with its message) is raised, or a type error for an array |
| `CampaignMonitorRestClient.ScalarBaseUriRejected` | src/CampaignMonitorRestClient.php:34 | a null, boolean or integer `base_uri` never passes the prefix test |
| `CampaignMonitorRestClient.PrefixIsPlainText` | src/CampaignMonitorRestClient.php:34 | `https://api.createsend.com/apix` is accepted and kept: the check is a text prefix, not a URL check |
| `CampaignMonitorRestClient.ZeroIsEmpty` | src/CampaignMonitorRestClient.php:23-32 | an `api_key` of `"0"` is rejected as missing, and a `base_uri` of `"0"` is replaced by the default |
| `CampaignMonitorRestClient.PassThrough` | src/CampaignMonitorRestClient.php:22-36 | on success no key disappears, and only `headers` and `base_uri` may be added. Every other key keeps its value, and every header other than `Authorization` keeps its value |
| `CampaignMonitorRestClient.NormaliseEstablishes` | src/CampaignMonitorRestClient.php:28-36 | every accepted configuration has a non-empty `api_key`, an array `headers` whose `Authorization` is the Basic credentials of that key, and a string `base_uri` starting with `https://api.createsend.com/api` |
| `CampaignMonitorRestClient.NormalisedIsFixpoint` | src/CampaignMonitorRestClient.php:22-36 | a configuration of that shape is accepted unchanged |
| `CampaignMonitorRestClient.NormaliseIdempotent` | src/CampaignMonitorRestClient.php:22-36 | normalising an accepted configuration again gives the same result |
| `CampaignMonitorRestClient.Normalise` | src/CampaignMonitorRestClient.php:22-36 | the whole normalisation step as a function: the resulting configuration or the error. Its own contract says only that success needs a non-empty `api_key` and writable `headers`; its other properties are the lemma rows above |
| `CampaignMonitorRestClient.ConfigError.Message` | src/CampaignMonitorRestClient.php:24-35 | the two exception messages: the missing-key one names `api_key`, and the base_uri one names `base_uri` and the required prefix `https://api.createsend.com/api` |
| `CampaignMonitorRestClient.MissingApiKeyText` | src/CampaignMonitorRestClient.php:24 | the missing-key message is exactly "Missing api_key config option." |
| `CampaignMonitorRestClient.InvalidBaseUriText` | src/CampaignMonitorRestClient.php:35 | the base_uri message is exactly the one thrown at line 35: "base_uri config option must start with", the prefix `https://api.createsend.com/api` in backquotes, and a full stop |
| `Php.IsEmpty` | src/CampaignMonitorRestClient.php:23-31 | PHP's `empty()` on an array entry: an absent entry is empty; for any value that is not an array, `empty()` holds exactly when its string form is `""` or `"0"` |
| `Php.StringCast` | src/CampaignMonitorRestClient.php:28 | the string form PHP's `.` operator uses: only null, false and `""` give the empty string; a string is itself; an integer gives its canonical decimal numeral (`IntDecimal`), which reads back as that integer; `true` gives a one-digit numeral reading 1; an array gives `"Array"` |
| `Php.IntDecimal` | src/CampaignMonitorRestClient.php:28 | the canonical decimal numeral of an integer: `-` comes first exactly for a negative integer and is followed by the numeral of its magnitude, a non-negative integer is its natural numeral, and reading it back gives that integer |
| `Php.NatDecimal` | src/CampaignMonitorRestClient.php:28 | the canonical decimal numeral of a natural number: digits only, no leading zero except for 0 itself, and reading it back gives that number |
| `Base64.Encode` | src/CampaignMonitorRestClient.php:28 | `base64_encode` of n bytes has length 4·⌈n/3⌉ |
| `Base64.EncodeAlphabet` | src/CampaignMonitorRestClient.php:28 | every character of the encoding of n bytes is in the standard alphabet, except the last (3 − n mod 3) mod 3, which are all `=` |
| `Base64.Digit` | src/CampaignMonitorRestClient.php:28 | Table 1 of RFC 4648: every 6-bit value maps to a character of the standard alphabet |
| `Base64.DigitRoundTrip` | src/CampaignMonitorRestClient.php:28 | reading the character of a 6-bit value back gives that value, so Table 1 is one-to-one |
| `Base64.DecodeEncode` | src/CampaignMonitorRestClient.php:28 | decoding the encoding of any byte string gives that byte string back |
| `Base64.EncodeDecode` | src/CampaignMonitorRestClient.php:28 | any text the strict decoder accepts is the encoding of what it decodes to |
| `Base64.EncodeInjective` | src/CampaignMonitorRestClient.php:28 | different byte strings have different encodings |

## Left out

- `parent::__construct($config)` (src/CampaignMonitorRestClient.php:38). The Guzzle client construction is in a library that is not part of this model. The model ends with the configuration that would be passed to it.
- The `data_decode_middleware` handler push (src/CampaignMonitorRestClient.php:42-51). This registers one named response interceptor on Guzzle's handler stack. It is Guzzle plumbing and is not modelled.
- `CampaignMonitor\Psr7\DataAwareResponse` (imported at src/CampaignMonitorRestClient.php:8), with its lazy JSON decoding. It belongs to the response path, not to configuration, and its decoding relies on PHP's JSON library.
- HTTP transport, request methods, networking and concurrency. These are the HTTP library's concern.
- PHP floats, objects and resources as configuration values. `empty(0.0)` and the float-to-string conversion are not modelled.
- PHP integer width. Integers are unbounded; they are only ever printed in decimal here, so the width does not change any result.
- Array order. PHP arrays are ordered, and a newly added `Authorization` or `base_uri` goes last. Maps do not record order.
- Warnings and deprecation notices, which do not stop construction. PHP prints "Array to string conversion" for an array `api_key`; only the resulting `"Array"` is modelled. From PHP 8.1, line 28 on a `false` `headers` emits "Automatic conversion of false to array is deprecated"; only the conversion is modelled.
- PHP 7 engine behaviour, which differs in two places, so `HeadersNotAnArray` and `BaseUriNotAString` are PHP 8 errors only. On PHP 7 the header write on an integer or `true` `headers` only warns and does nothing, so construction goes on with no `Authorization` header. On a string `headers` it writes `B` (the first byte of the value) at offset 0; since PHP 7.1 this holds for the empty string too, while PHP 7.0 turned an empty string into an array. And `strpos` on an array warns and yields null, which raises the base_uri exception instead of a type error.
- The exception class. Both constructor exceptions are plain `\Exception`. They are modelled as `ConfigError` values with their exact messages. The two engine errors have no message in the model.
