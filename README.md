# Scrappa actors: client, fallback search and URL canonicalisation in Dafny

This project models the shared logic of the Scrappa Apify actors and proves properties of that model:

- **Scrappa API client** (`ScrappaClient`, file `scrappa_client.dfy`).
  - It builds the request for a GET or POST call: the URL, the query string encoded from the parameters, the headers and the JSON body.
  - It turns the response into the parsed body or into the error `Scrappa API error (<status>): <detail>`.
  - The client is a class whose configuration is fixed by its constructor.
  - The query encoding is a loop that calls `URLSearchParams.set`. It is proved against a filter over the parameters.
- **Search with fallback** (`FetchWithFallback`, file `fetch_with_fallback.dfy`).
  - The transient-error classifier is a left-to-right scan for the two regular expressions. A lemma proves it equal to the declarative set of messages the regular expressions match.
  - The fallback routine runs against a client class that records every call it receives. Its contract states, for each outcome of the first call, which calls are made and what is returned.
- **LinkedIn profile URL normaliser** (`LinkedInProfile`, file `linkedin_profile.dfy`).
  - The URL is the record of the URL standard.
  - Each of the four assignments is that standard's setter: `hostname`, `search`, `hash` and `pathname`.
- **LinkedIn company URL canonicaliser** (`LinkedInCompany`, file `linkedin_company.dfy`). It applies trim, the country-subdomain rewrite, the cut at the first `?`, and the final match with its first group.
- **Actor input checks** (`ActorInput`, file `actor_input.dfy`): `validateRequiredFields` and `createActorInput`.

Shared modules:

- `Wrappers`: `Option` and `Result`.
- `Text`: the JavaScript string operations used.
  - `trim` and its whitespace set.
  - ASCII case folding, as the `i` flag of a regular expression applies it.
  - Decimal rendering of integers.
  - `join`.
- `Entries`: a JavaScript object as an insertion-ordered list of entries, with property lookup and the override that an object spread performs.
- `JsValue`: parsed JSON values.
  - Truthiness.
  - `String(value)`.
  - `Object.entries`.

Some behaviour of the code is easy to miss in a plain description of it. The model follows the code in each case:

- **Company URL and line terminators.** The final company-URL pattern has no `m` flag, and its `.` does not match a line terminator. An input with a line terminator left after trimming and cutting is therefore rejected.
- **Profile URL path.** The `pathname` setter cannot leave the path of an `http(s)` URL empty. A profile URL whose path is only slashes keeps `/`.
- **Profile URL host.** An empty `hostname` is only stored where the URL standard allows it. A URL with an opaque path (`mailto:x`) ignores the `hostname` and `pathname` setters. Clearing its query and fragment strips trailing spaces from that path.
- **`createActorInput` and falsy values.** `createActorInput` rejects any falsy input and any falsy `apiKey` (`0`, `false`, `""`, `null`). `validateRequiredFields` treats `0` and `false` as present.

## Model

| member | source | states |
|---|---|---|
| `ScrappaClient.Client.constructor` | actors/linkedin-post-scraper/src/shared/scrappa-client.ts:18-22 | The API key is kept; the base URL defaults to `https://scrappa.co/api` and debug to false |
| `ScrappaClient.Client.Request` | actors/linkedin-post-scraper/src/shared/scrappa-client.ts:32-69 | The request sent: URL is base URL + endpoint; a GET carries the encoded parameters and a POST none; `X-API-Key` and `Accept: application/json` always; `Content-Type` and a JSON body only for a POST with a body |
| `ScrappaClient.Client.Get` | actors/linkedin-post-scraper/src/shared/scrappa-client.ts:24-26 | One GET request built as above, with the response handled as below |
| `ScrappaClient.Client.Post` | actors/linkedin-post-scraper/src/shared/scrappa-client.ts:28-30 | One POST request with no query and the body sent as a JSON object |
| `ScrappaClient.SetParam` | actors/linkedin-post-scraper/src/shared/scrappa-client.ts:47-50 | `URLSearchParams.set`: afterwards the key maps to the value; the key set grows by that key only; distinct keys stay distinct |
| `ScrappaClient.SetParamOnce` | actors/linkedin-post-scraper/src/shared/scrappa-client.ts:47-50 | After `set` the key occurs exactly once in the query |
| `ScrappaClient.SetParamKeepsOthers` | actors/linkedin-post-scraper/src/shared/scrappa-client.ts:47-50 | `set` leaves every other key's entries, and their order, unchanged |
| `ScrappaClient.SetParamAppends` | actors/linkedin-post-scraper/src/shared/scrappa-client.ts:47-50 | Setting a new key appends it at the end |
| `ScrappaClient.WithoutTwice` | actors/linkedin-post-scraper/src/shared/scrappa-client.ts:47-50 | Removing a key's entries twice is removing them once |
| `ScrappaClient.EncodeValue` | actors/linkedin-post-scraper/src/shared/scrappa-client.ts:43-51 | A parameter is dropped if and only if it is `undefined`, `null`, `''` or `false`; `true` is sent as `1`, a string as itself and a number as its decimal notation |
| `ScrappaClient.EncodeQuery` | actors/linkedin-post-scraper/src/shared/scrappa-client.ts:42-53 | The query built from the parameters has distinct keys, all of them parameter names |
| `ScrappaClient.EncodeQueryIsFilter` | actors/linkedin-post-scraper/src/shared/scrappa-client.ts:42-53 | For distinct parameter names the query is exactly the parameters, in order, with omitted values dropped, `true` sent as `1` and other values as `String(value)` |
| `ScrappaClient.FilterEncodedMember` | actors/linkedin-post-scraper/src/shared/scrappa-client.ts:43-51 | A pair is in the filtered query if and only if some parameter with that name encodes to that value |
| `ScrappaClient.QueryLookup` | actors/linkedin-post-scraper/src/shared/scrappa-client.ts:42-53 | Looking a name up in the query gives the encoding of that parameter's value, or nothing for an absent or omitted one |
| `ScrappaClient.OmittedParamNotSent` | actors/linkedin-post-scraper/src/shared/scrappa-client.ts:43-48 | A parameter that is `undefined`, `null`, `''` or `false` never appears in the query |
| `ScrappaClient.TrueParamSentAsOne` | actors/linkedin-post-scraper/src/shared/scrappa-client.ts:45-47 | A `true` parameter appears as `key=1` |
| `ScrappaClient.OtherParamSentStringified` | actors/linkedin-post-scraper/src/shared/scrappa-client.ts:49-51 | Every other present parameter appears once with value `String(value)` |
| `ScrappaClient.UseCacheFalseIsDropped` | actors/google-maps-search-scraper/test/scrappa-client.test.mjs:19-31 | The call in the test scenario sends `query=pizza&hl=en` and no `use_cache` |
| `ScrappaClient.MessageOrStatus` | actors/linkedin-post-scraper/src/shared/scrappa-client.ts:81 | `message ?? `HTTP ${status}``: an absent or `null` message gives `HTTP <status>`, a string message is kept |
| `ScrappaClient.ErrorDetail` | actors/linkedin-post-scraper/src/shared/scrappa-client.ts:78-91 | A body that is not JSON, or is `null`, gives the raw text or `HTTP <status>` when that is empty; without truthy `errors` the detail is the message (or its fallback); with them it starts with that message and ` - ` when every entry's messages are an array, and is the text fallback when some entry's messages cannot be joined |
| `ScrappaClient.HandleResponse` | actors/linkedin-post-scraper/src/shared/scrappa-client.ts:77-96 | A 2xx response returns the parsed body unchanged; any other fails with `Scrappa API error (<status>): ` followed by the error detail |
| `ScrappaClient.HandleExchange` | actors/linkedin-post-scraper/src/shared/scrappa-client.ts:75-96 | A transport failure from `fetch` propagates with its message; the call succeeds if and only if the response is 2xx and its body parses, returning that body; a non-2xx response fails with the `Scrappa API error (<status>): ` prefix |
| `ScrappaClient.DetailIsMessage` | actors/linkedin-post-scraper/src/shared/scrappa-client.ts:80-81 | With a JSON error body holding `message` and no `errors`, the detail is the message |
| `ScrappaClient.DetailDefaultsToStatus` | actors/linkedin-post-scraper/src/shared/scrappa-client.ts:81 | With `message` absent or `null` and no `errors`, the detail is `HTTP <status>` |
| `ScrappaClient.FieldErrorsOfStrings` | actors/linkedin-post-scraper/src/shared/scrappa-client.ts:84-86 | Field errors render as `field: m1, m2`, joined with `; ` |
| `ScrappaClient.DetailWithFieldErrors` | actors/linkedin-post-scraper/src/shared/scrappa-client.ts:80-88 | With `errors` given as lists of strings, the detail is the message (or `HTTP <status>` when it is absent or `null`), ` - `, and the rendered field errors |
| `ScrappaClient.FieldErrorsWithoutMessage` | actors/linkedin-post-scraper/src/shared/scrappa-client.ts:81-87 | Field errors without a message give `HTTP <status> - field: message` |
| `ScrappaClient.DetailFromText` | actors/linkedin-post-scraper/src/shared/scrappa-client.ts:89-91 | With a body that is not JSON, the detail is the raw text, or `HTTP <status>` when it is empty |
| `ScrappaClient.HtmlErrorPageSurfaces` | actors/google-maps-search-scraper/test/scrappa-client.test.mjs:34-52 | A 524 HTML page surfaces as `Scrappa API error (524): <page>` |
| `Entries.Lookup` | actors/google-maps-business-details-scraper/src/shared/utils.ts:14 | Property access finds nothing exactly when the key is absent, and otherwise finds an entry of the object |
| `Entries.OverrideLookup` | actors/google-maps-search-scraper/src/fetch-with-fallback.ts:38-41 | After `{...o, key: v}` the key maps to `v` and every other key to what it had |
| `Entries.OverrideDistinct` | actors/google-maps-search-scraper/src/fetch-with-fallback.ts:38-41 | An object spread with one override keeps keys distinct |
| `JsValue.Truthy` | actors/google-maps-business-details-scraper/src/shared/utils.ts:31-35 | A value is truthy if and only if it is not one of `null`, `false`, `0` and `""` |
| `JsValue.ToJsString` | actors/linkedin-post-scraper/src/shared/scrappa-client.ts:50 | `String(value)`: a string is itself, a boolean is `true` or `false`, and a number is its canonical decimal notation, which reads back as the number |
| `JsValue.EntriesOf` | actors/google-maps-search-scraper/src/fetch-with-fallback.ts:38-47 | `Object.entries`, which is also what a spread copies: an object gives its fields in order, an array its indices and elements, a string its indices and characters, anything else nothing |
| `Text.IntToStringIsDecimal` | actors/linkedin-post-scraper/src/shared/scrappa-client.ts:81 | The decimal rendering of a status or number is canonical and reads back as the number |
| `FetchWithFallback.SearchFromFinds` | actors/google-maps-search-scraper/src/fetch-with-fallback.ts:14-20 | The scan from a position succeeds if and only if a match starts at or after it |
| `FetchWithFallback.TimedOutAtIff` | actors/google-maps-search-scraper/src/fetch-with-fallback.ts:19 | The `timed?\s*out` test at a position holds if and only if `time`, an optional `d`, a whitespace run and `out` appear there, ignoring case |
| `FetchWithFallback.ClassifierMatchesRegex` | actors/google-maps-search-scraper/src/fetch-with-fallback.ts:14-20 | The classifier is true if and only if the message contains a 408, 429 or 5xx status marker (case-sensitive) or one of the outage phrases (ignoring case) |
| `FetchWithFallback.TransientStatusMessageIsTransient` | actors/google-maps-search-scraper/src/fetch-with-fallback.ts:15 | Every client error for status 408, 429 or 500-599 is transient, whatever its detail |
| `FetchWithFallback.TransientResponseIsTransient` | actors/linkedin-post-scraper/src/shared/scrappa-client.ts:77-93 | A 408, 429 or 5xx response makes the client fail with a message the classifier calls transient |
| `FetchWithFallback.GatewayTimeoutIsTransient` | actors/google-maps-search-scraper/test/fetch-with-fallback.test.mjs:12 | `Scrappa API error (504): Gateway Time-out` is transient |
| `FetchWithFallback.ValidationFailedIsNotTransient` | actors/google-maps-search-scraper/test/fetch-with-fallback.test.mjs:32 | `Scrappa API error (422): Validation failed` is not transient |
| `FetchWithFallback.RecordingClient.Get` | actors/google-maps-search-scraper/src/fetch-with-fallback.ts:10-12 | A client call is recorded in order and answered by the client's response function |
| `FetchWithFallback.FallbackParams` | actors/google-maps-search-scraper/src/fetch-with-fallback.ts:38-41 | The advanced parameters map `zoom` to the fallback zoom and every other name to its base value; no other names are added |
| `FetchWithFallback.MarkFallback` | actors/google-maps-search-scraper/src/fetch-with-fallback.ts:44-47 | The fallback result is an object with `fallback_used: 'advanced-search'` that keeps every other field of the advanced response |
| `FetchWithFallback.FetchWithFallback` | actors/google-maps-search-scraper/src/fetch-with-fallback.ts:22-48 | Success or a non-transient failure: one call, to `/maps/simple-search` with the base parameters, and its result returned unchanged. Transient failure: exactly one more call, to `/maps/advanced-search` with the fallback parameters, and its failure propagated or its response marked |
| `FetchWithFallback.GatewayTimeoutFallsBack` | actors/google-maps-search-scraper/test/fetch-with-fallback.test.mjs:6-27 | The transient failure of the test scenario makes two calls, the second with `zoom` 13 and the query kept, and returns the items marked as a fallback |
| `FetchWithFallback.ValidationErrorPropagates` | actors/google-maps-search-scraper/test/fetch-with-fallback.test.mjs:29-38 | The 422 failure of the test scenario makes one call and is returned unchanged |
| `LinkedInProfile.CanonicalHost` | actors/linkedin-profile-scraper/src/main.ts:101 | A host of 2-3 lowercase letters and `.linkedin.com` becomes `www.linkedin.com`; every other host is unchanged |
| `LinkedInProfile.NonCountryHostsKept` | actors/linkedin-profile-scraper/src/main.ts:101 | `linkedin.com`, `m.linkedin.com`, `abcd.linkedin.com` and `DE.linkedin.com` are kept |
| `LinkedInProfile.StripTrailing` | actors/linkedin-profile-scraper/src/main.ts:110 | Removing `/+$` leaves a prefix that does not end in `/`, and everything removed is `/` |
| `LinkedInProfile.SetHostname` | actors/linkedin-profile-scraper/src/main.ts:101 | The `hostname` setter changes only the host, stores a non-empty value, and does nothing on an opaque path |
| `LinkedInProfile.ClearSearch` | actors/linkedin-profile-scraper/src/main.ts:104 | `search = ''` removes the query; every other field is unchanged, except that an opaque path loses its trailing spaces when no fragment is left |
| `LinkedInProfile.ClearHash` | actors/linkedin-profile-scraper/src/main.ts:107 | `hash = ''` removes the fragment; every other field is unchanged, except that an opaque path loses its trailing spaces when no query is left |
| `LinkedInProfile.SetPathname` | actors/linkedin-profile-scraper/src/main.ts:110 | The `pathname` setter changes only the path, and stores a non-empty value as given |
| `LinkedInProfile.Normalize` | actors/linkedin-profile-scraper/src/main.ts:98-112 | Scheme, credentials and port untouched; no query and no fragment; the host name becomes its canonical form, so a country host becomes `www.linkedin.com`, every other host name stays and an empty one stays empty; an absent host becomes the empty host on a `file:` URL and on a non-special URL without credentials or port; all trailing `/` removed and nothing else of the path; a path emptied that way becomes `/` on a special or host-less URL and stays empty otherwise |
| `LinkedInProfile.NormalizeLinkedInUrl` | actors/linkedin-profile-scraper/src/main.ts:97-113 | An input the parser rejects is the `Invalid URL` error; any other is parsed and normalised |
| `LinkedInProfile.NormalizeIdempotent` | actors/linkedin-profile-scraper/src/main.ts:101-110 | Normalising twice is normalising once |
| `LinkedInProfile.CountryProfileExample` | actors/linkedin-profile-scraper/src/main.ts:101-110 | `https://de.linkedin.com/in/jane-doe//?trk=abc#top` becomes `https://www.linkedin.com/in/jane-doe` |
| `Text.Trim` | actors/linkedin-company-scraper/src/main.ts:86 | `trim` keeps a contiguous piece with only whitespace around it, and that piece neither starts nor ends with whitespace |
| `Text.TrimIdempotent` | actors/linkedin-company-scraper/src/main.ts:86 | Trimming twice is trimming once |
| `LinkedInCompany.SchemeLength` | actors/linkedin-company-scraper/src/main.ts:88 | `^https?:\/\/` ignoring case: 8 exactly for `https://`, 7 exactly for `http://`, 0 otherwise |
| `LinkedInCompany.SubdomainLength` | actors/linkedin-company-scraper/src/main.ts:88 | `[a-z]{2,3}\.linkedin\.com` ignoring case, trying three letters before two |
| `LinkedInCompany.ReplaceCountrySubdomain` | actors/linkedin-company-scraper/src/main.ts:88 | A 2-3 letter subdomain right after the scheme becomes `www`, with the scheme kept as written; anything else is unchanged |
| `LinkedInCompany.RewriteCountrySubdomain` | actors/linkedin-company-scraper/src/main.ts:88 | `<scheme><xx>.linkedin.com<rest>` becomes `<scheme>www.linkedin.com<rest>` for any two or three letters |
| `LinkedInCompany.BeforeFirstQuestionMark` | actors/linkedin-company-scraper/src/main.ts:90 | `split('?')[0]` is the longest prefix without `?` |
| `LinkedInCompany.BeforeFirstQuestionMarkAppend` | actors/linkedin-company-scraper/src/main.ts:90 | Cutting passes over a leading part without `?` |
| `LinkedInCompany.CutCompanyUrl` | actors/linkedin-company-scraper/src/main.ts:90 | Cutting a `www` company URL keeps the prefix and slug and cuts only the tail |
| `LinkedInCompany.Truncate` | actors/linkedin-company-scraper/src/main.ts:86-90 | The string matched at the end has no `?` and is a prefix of the trimmed, rewritten input |
| `LinkedInCompany.SlugEnd` | actors/linkedin-company-scraper/src/main.ts:92 | The greedy `[a-zA-Z0-9._-]+` ends at the first character outside the class |
| `LinkedInCompany.MatchCompanyUrl` | actors/linkedin-company-scraper/src/main.ts:92-96 | The first group is a prefix of the input reaching past `/company/`, ends where the slug run ends, and is only found in an input without line terminators |
| `LinkedInCompany.MatchCompanyUrlCorrect` | actors/linkedin-company-scraper/src/main.ts:92 | The match fails if and only if no `http(s)://[www.]linkedin.com/company/<slug>` prefix exists; on success it is the prefix up to the end of the longest slug |
| `LinkedInCompany.CanonicalCompanyUrl` | actors/linkedin-company-scraper/src/main.ts:86-96 | Failure is the actor's `Invalid LinkedIn company URL...` message; a success is a prefix of the trimmed, rewritten and cut input |
| `LinkedInCompany.CanonicalCompanyUrlCorrect` | actors/linkedin-company-scraper/src/main.ts:92-96 | The canonicaliser fails exactly when the truncated input is not a company URL, and otherwise returns that input up to the end of the longest slug |
| `LinkedInCompany.CanonicalCompanyUrlIdempotent` | actors/linkedin-company-scraper/src/main.ts:86-96 | Canonicalising a canonical URL returns it unchanged |
| `LinkedInCompany.SurroundingWhitespaceIgnored` | actors/linkedin-company-scraper/src/main.ts:86 | Surrounding whitespace makes no difference to the result |
| `LinkedInCompany.MatchWwwCompanyUrl` | actors/linkedin-company-scraper/src/main.ts:92-96 | A `www` company URL followed by anything that does not continue the slug matches up to the end of the slug |
| `LinkedInCompany.DottedSlugExample` | actors/linkedin-company-scraper/src/main.ts:91-92 | The slug `j.p.morgan` keeps its dots, and `/about` after it is dropped |
| `ActorInput.MissingFields` | actors/google-maps-business-details-scraper/src/shared/utils.ts:13-18 | Every collected name is a required field that is absent, `null` or `''` |
| `ActorInput.MissingFieldsCharacterized` | actors/google-maps-business-details-scraper/src/shared/utils.ts:13-18 | The collected names are a subsequence of the required fields, holding every occurrence of a missing field and nothing else |
| `ActorInput.NoneMissing` | actors/google-maps-business-details-scraper/src/shared/utils.ts:13-20 | Nothing is collected exactly when every required field is present |
| `ActorInput.ValidateRequiredFields` | actors/google-maps-business-details-scraper/src/shared/utils.ts:7-23 | Passes if and only if no required field is missing; otherwise fails with `Missing required fields: ` and the missing names joined with `, ` |
| `ActorInput.ZeroAndFalseArePresent` | actors/google-maps-business-details-scraper/src/shared/utils.ts:15 | A field holding `0` or `false` is not missing |
| `ActorInput.CreateActorInput` | actors/google-maps-business-details-scraper/src/shared/utils.ts:28-40 | A falsy input is `No input provided`; then a falsy or absent `apiKey` is the API-key message; otherwise the input is returned unchanged |
| `ActorInput.AcceptedInputHasApiKey` | actors/google-maps-business-details-scraper/src/shared/utils.ts:31-39 | An accepted input is an object whose `apiKey` also passes `validateRequiredFields` |

## Left out

- Reading the actor input from the platform, other platform calls and environment variables are I/O. `CreateActorInput` takes what the platform returned as a parameter.
- `fetch` is a function parameter of `Get` and `Post`. A response is its status, the outcome of parsing its body as JSON, and its raw text. The model reads the raw text after a failed `json()` call even though the body was already consumed, because stream consumption is runtime behaviour.
- The debug `console.log` of the client, the `console.warn` of the fallback and the actors' log lines are output only.
- URL parsing and serialisation are not modelled. `NormalizeLinkedInUrl` takes the parser as a parameter, and the result is the URL record rather than its string form. The `pathname` setter takes the values the actor passes to parse back to themselves. The client's URL is the string `baseUrl + endpoint`.
- Percent-encoding of the query, `JSON.stringify` of a POST body and `JSON.parse` of a response are not modelled. The model works on the parsed or unserialised values.
- `LinkedInProfile.SetHostname`: a non-empty value is stored as given. The URL standard parses it again as a host (lower-casing, IDNA mapping, rejecting forbidden code points), which the model does not do. The values the actor passes are the URL's own host name and `www.linkedin.com`, both already in parsed form.
- JSON numbers are integers. `String(value)` of a fractional number or of one written with an exponent is not modelled.
- Object keys keep their insertion order. JavaScript moves integer-like keys to the front; that ordering is not modelled.
- Inherited properties (`toString`, `__proto__`) are not found by property access in the model.
- Strings are sequences of code points rather than UTF-16 code units.
- A thrown value that is not an `Error` is not modelled. Every failure carries a message string.
- The `SyntaxError` text of a failed parse is not modelled. Only whether the parse failed matters to the client.
- The `statusCode` checks of the 404 branches in the actors' main routines read a property that the client's plain `Error` never has. They are not part of this model.
- `ActorInput.ValidateRequiredFields` takes the input as a value and so cannot change it. That it leaves the input alone therefore holds by construction and is not a stated postcondition.
- A company URL on a country subdomain is covered step by step: the rewrite, the cut, then the match. One statement covering all three from the raw string to the result is not stated.
