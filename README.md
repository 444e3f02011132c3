# smashgg.js event resolvers and URL normalisers, in Dafny

This project models three pieces of the smashgg.js client library, a wrapper
around the smash.gg HTTP API:

- the URL-scheme normalisers `formatHTTP` and `formatHTTPS`
  (`lib/util/StringUtils.js`), as free functions on strings, including the
  JavaScript pieces they are made of: `indexOf`, `replace` with a string
  pattern, and a case-insensitive `RegExp.test`;
- the `EventById` resolver (`lib/EventById.js`): validation of the id with
  JavaScript truthiness, the expansion fields, the fetch URL, and the static
  `get` that loads the event, writes it into the shared cache and then signals
  ready, or signals the error and writes nothing;
- the `EventByNames` resolver (`lib/EventByNames.js`): validation of the
  tournament name and then the event name, and the two-stage `get`: first the
  tournament is requested; only its `ready` handler records the tournament's
  slug, builds the URL from it and issues the load, whose success is cached
  under a key made of the two names (not the slug) before ready is signalled.

Files, one module each:

- `Wrappers.dfy`: `Option` and `Result`.
- `JsValues.dfy`: JavaScript primitive values, `Falsy`/`Truthy`, the `%s`
  conversion of Node's `util.format` (`FormatS`), and decimal printing of
  integers with its inverse.
- `StringUtils.dfy`: `IndexOf`, `ReplaceFirst`, a backtracking matcher for
  patterns of characters and starred characters (`/http[s]*:\/\//`,
  `/http:\/\//`, `/https:\/\//`) under the `i` flag, and `FormatHttp` /
  `FormatHttps` written branch for branch as the source, each with its closed
  form as postcondition.
- `Entity.dfy`: what the resolvers share with the Event base class: the error
  causes, the expansion fields and how construction settles them (`Resolve`),
  the lifecycle phases `Unloaded`, `AwaitingTournament`, `Loading`, `Ready`,
  `Failed`, the transition function `Step` over inputs (tournament ready,
  tournament failed, load settled), and the effect trace.
- `Cache.dfy`: the shared cache as a class holding a `map<string, object>`.
- `EventById.dfy`, `EventByNames.dfy`: each resolver as a class with its
  fields, its constructor and a static `Get`; `EventByNames` also has the
  tournament handler `OnTournamentReady` and the load continuation
  `OnLoadSettled`.
- `CacheKeys.dfy`: how the keys of the two resolvers relate in the one cache.

Asynchrony is modelled as sequential steps with the outcome as an input.
`Get` returns `Failure(cause)` when construction throws, which is the
promise's synchronous rejection; otherwise it returns `Success(E)`, and E's
promise follows E's phase through the listeners `get` registers: it resolves
with E once E is `Ready` and rejects with the cause once E is `Failed(cause)`.
Each method also returns the observable effects it performed, in order
(`TournamentRequested`, `LoadIssued`, `CacheWritten`, `Emitted`), which is how
"ready is signalled only after the cache write" is stated.

Inputs that stand for code outside the modelled files: the outcome of
`load()` (a `LoadOutcome`), the tournament's slug (a parameter of
`OnTournamentReady`), the expansion fields the Event base constructor leaves
behind (`base`), and `formatExpands` (a function parameter, so every property
holds whatever it computes).

## Model

| member | source | states |
|---|---|---|
| `StringUtils.Test` | lib/util/StringUtils.js:2-4 | `new RegExp(p, 'gi').test(s)` on a fresh expression: whether the pattern matches, with case ignored, at some position of `s`, trying each start in turn and backtracking over the starred character |
| `StringUtils.IndexOf` | lib/util/StringUtils.js:6 | `indexOf` returns the first position at which the text occurs, and -1 exactly when it occurs nowhere |
| `StringUtils.IndexOfZeroIffPrefix` | lib/util/StringUtils.js:6 | `s.indexOf(t) == 0` holds exactly when `s` begins with `t`, compared case-sensitively |
| `StringUtils.ReplaceFirst` | lib/util/StringUtils.js:20 | `replace` with a string pattern rewrites a leading occurrence into the replacement followed by the rest, and leaves a string without an occurrence unchanged |
| `StringUtils.AnySchemeAcceptsPrefix` | lib/util/StringUtils.js:2-4 | the case-insensitive `/http[s]*:\/\//` test accepts every string beginning with `http://` or `https://` |
| `StringUtils.LiteralAcceptsPrefix` | lib/util/StringUtils.js:14-17 | the case-insensitive `/http:\/\//` and `/https:\/\//` tests accept every string beginning with their text |
| `StringUtils.FormatHttp` | lib/util/StringUtils.js:1-11 | the regex test combined with the two `indexOf` checks equals the closed form: the input itself if it begins with `http://` or `https://`, otherwise `http://` + input |
| `StringUtils.FormatHttpHasScheme` | lib/util/StringUtils.js:1-11 | the result always begins with `http://` or `https://` |
| `StringUtils.FormatHttpUnchangedIff` | lib/util/StringUtils.js:6-8 | the input comes back unchanged if and only if it begins, case-sensitively, with `http://` or `https://` |
| `StringUtils.FormatHttpIdempotent` | lib/util/StringUtils.js:1-11 | applying `formatHTTP` twice gives what applying it once gives |
| `StringUtils.UpperCaseSchemeIsPrefixed` | lib/util/StringUtils.js:2-7 | every `HTTP://...` passes the case-insensitive regex, yet fails the case-sensitive prefix checks, so both normalisers prefix it |
| `StringUtils.LaterSchemeIsPrefixed` | lib/util/StringUtils.js:2-7 | any string beginning with neither `http://` nor `https://` (such as `x?u=http://y`, whose scheme is not at the start) gets `http://` (resp. `https://`) prefixed to the whole string |
| `StringUtils.FormatHttps` | lib/util/StringUtils.js:13-26 | the four branches equal the closed form: `https://` + the rest after a leading `http://`; the input itself after a leading `https://`; otherwise `https://` + input |
| `StringUtils.FormatHttpsHasScheme` | lib/util/StringUtils.js:13-26 | the result always begins with `https://` |
| `StringUtils.HttpsIsNotHttp` | lib/util/StringUtils.js:19-23 | a string beginning with `https://` never takes the `http://` branch |
| `StringUtils.FormatHttpsUpgradesLeadingHttp` | lib/util/StringUtils.js:19-20 | on `http://` + rest only that leading occurrence is replaced: the result is `https://` + rest, later occurrences kept |
| `StringUtils.FormatHttpsIdempotent` | lib/util/StringUtils.js:13-26 | applying `formatHTTPS` twice gives what applying it once gives |
| `StringUtils.FormatHttpsAbsorbsFormatHttp` | lib/util/StringUtils.js:1-26 | `formatHTTPS(formatHTTP(s)) == formatHTTPS(s)` for every string |
| `JsValues.Falsy` | lib/EventById.js:58 | JavaScript's `!v`, as in `!id`, `!tournamentName` and `!eventName` (lib/EventByNames.js:68-71): true for undefined, null, false, 0 and the empty string, false for every other value |
| `JsValues.FormatS` | lib/EventById.js:70 | `util.format`'s `%s` conversion, as used for the URLs and cache keys of both resolvers: `undefined`, `null`, `true`/`false`, the decimal form of a number, a string unchanged |
| `JsValues.NatToDecimal` | lib/EventById.js:70 | the `%s` form of a natural number is a non-empty string of digits with no leading zero |
| `JsValues.DecimalRoundTrip` | lib/EventById.js:70 | reading the printed digits back gives the number |
| `JsValues.IntToDecimal` | lib/EventById.js:70 | the `%s` form of an integer starts with `-` exactly when it is negative, and is digits otherwise |
| `JsValues.IntToDecimalInjective` | lib/EventById.js:37 | distinct integer ids print differently |
| `Cache.Cache.Set` | lib/EventById.js:38 | `Cache.set` stores the entity under the key, replacing any previous entry, and no other key changes |
| `EventById.EventUrl` | lib/EventById.js:9 | the `URL` template filled by `format`: `https://api.smash.gg/event/` + `%s` of the id + `?` + `%s` of the expansion string |
| `EventById.CacheKey` | lib/EventById.js:10 | the `CACHE_KEY` template filled by `format`: `event::` + `%s` of the id + `::` + `%s` of the expansion string |
| `EventById.EventById.constructor` | lib/EventById.js:55-71 | stores the id and `isCached` (default true); calls `formatExpands` only when both expansion fields are still unset after the base constructor, else keeps them; sets `url` to `https://api.smash.gg/event/<id>?<expandsString>`; requires a truthy id, the throwing case being `Get`'s Failure |
| `EventById.EventById.Get` | lib/EventById.js:22-53 | a falsy id rejects with the construction error before any load and with the cache untouched; on a successful load the cache gains exactly `event::<id>::<expandsString>` mapped to E, whatever `isCached` is, and the trace is load, cache write, ready; on a failed load the cache is untouched and the trace is load, error with the cause |
| `EventById.UrlIsHttpsNormal` | lib/EventById.js:9 | the built URL is already in the form `formatHTTPS` produces |
| `EventById.UrlDeterminesNumericId` | lib/EventById.js:70 | for one expansion string, different numeric ids give different URLs |
| `EventById.CacheKeyDeterminesNumericId` | lib/EventById.js:37 | for one expansion string, different numeric ids give different cache keys |
| `EventByNames.EventUrl` | lib/EventByNames.js:9 | the `URL` template filled by `format`: `https://api.smash.gg/` + the slug + `/event/` + `%s` of the event name + `?` + `%s` of the expansion string |
| `EventByNames.CacheKey` | lib/EventByNames.js:10 | the `CACHE_KEY` template filled by `format`: `event::` + `%s` of the tournament name + `::` + `%s` of the event name + `::` + `%s` of the expansion string |
| `EventByNames.EventByNames.constructor` | lib/EventByNames.js:65-82 | stores both names and `isCached` (default true) as given; settles the expansion fields as `EventById` does; leaves slug and URL unset; requires both names truthy, the throwing cases being `Get`'s Failure |
| `EventByNames.EventByNames.Get` | lib/EventByNames.js:23-37 | a falsy tournament name rejects with the tournament-name error whatever the event name is; a truthy tournament name with a falsy event name rejects with the event-name error; in both cases no tournament is requested; otherwise E awaits its tournament, the only effect being the request of the tournament with no expansions (`{}`) and the cache bypassed (`false`) |
| `EventByNames.EventByNames.OnTournamentReady` | lib/EventByNames.js:38-43 | the tournament's ready handler records the slug, sets `url` to `https://api.smash.gg/<slug>/event/<eventName>?<expandsString>` and only then issues the load; E moves from awaiting to loading |
| `EventByNames.EventByNames.OnLoadSettled` | lib/EventByNames.js:43-55 | on success the cache gains exactly `event::<tournamentName>::<eventName>::<expandsString>` mapped to E (names, not slug) and ready follows the write; on failure the cache is untouched and the error is signalled with the cause |
| `EventByNames.EventByNames.GetAndLoad` | lib/EventByNames.js:23-56 | the whole name-based `get` when the tournament becomes ready and the load settles: the trace is the tournament request, the load of the slug-built URL, then the cache write under the names' key and ready, or the error with its cause and no write; the phase is `Run` of those two inputs from awaiting; slug and URL agree (`Valid`); E keeps both names, `isCached` (default true) and the expansion fields settled by `Resolve`, and holds the loaded payload in `raw` after a successful load and nothing after a failed one |
| `EventByNames.UrlAgreesWithBareAddress` | lib/EventByNames.js:41 | for every slug, the URL built from it equals `formatHTTPS` of the bare address `api.smash.gg/<slug>/event/<eventName>` followed by the query string |
| `EventByNames.FunctionOneMeleeSinglesUrl` | test/testEvent.js:33 | for the slug `tournament/function-1-recursion-regional` and the event `melee-singles`, the name-based URL before `?` equals `formatHTTPS` of the test's bare address |
| `Entity.Resolve` | lib/EventById.js:64-68 | the expansion fields after construction (also lib/EventByNames.js:77-81): when the base constructor left both the flags and the string unset (falsy), the result of `formatExpands(expands)`; otherwise what it left |
| `Entity.DefaultTrue` | lib/EventById.js:55 | the default parameter `isCached=true` (also lib/EventByNames.js:65): only `undefined` becomes `true`, every other argument is kept |
| `Entity.Step` | lib/EventByNames.js:38-55 | one transition of an event: the tournament's `ready` moves an awaiting event to loading; a settled load moves a loading event to ready or to failed with the cause; a tournament failure, for which no listener exists, changes nothing |
| `Entity.StaysAwaitingWithoutTournament` | lib/EventByNames.js:37-43 | until the tournament is ready, an awaiting event issues no load and stays awaiting, whatever else happens |
| `Entity.TournamentFailuresAreIgnored` | lib/EventByNames.js:37-56 | no handler exists for a tournament error: removing every tournament failure from any sequence of inputs changes no run |
| `Entity.ReadyNeedsTournamentThenLoad` | lib/EventByNames.js:38-50 | an awaiting event becomes ready only after its tournament was ready and, later, its own load succeeded |
| `Entity.LoadingReadyNeedsLoad` | lib/EventByNames.js:43-50 | a loading event becomes ready only through a successful load |
| `Entity.FailureComesFromLoad` | lib/EventByNames.js:51-55 | an event fails only with the cause of its own failed load, never from a tournament failure |
| `Entity.TerminalIsFinal` | lib/EventByNames.js:43-55 | once ready or failed, an event's phase never changes again |
| `CacheKeys.NumericIdKeyDiffersFromNamesKey` | lib/EventByNames.js:45 | an event cached by a numeric id never shares an entry with one cached by names, when the expansion string holds no `:` |
| `CacheKeys.StringIdKeyCanEqualNamesKey` | lib/EventById.js:37 | a string id of the form `<tournament>::<event>` writes the very entry `EventByNames` uses for those names |

## Left out

- Promises, `on('ready')`/`on('error')` registration, `emitEventReady` and `emitEventError` are not modelled as asynchrony: each step runs to completion, with the outcome of `load()` and the tournament's slug as inputs, and the promise's settlement is read off the event's phase.
- The network fetch inside `Event.load` and the `Tournament` lookup are not modelled; `Event.js`, `Tournament.js` and `util/Cache.js` are not part of this model. The base constructor `super(null, expands, isCached)` is represented only by the expansion fields it leaves behind.
- `load()` storing the payload in `raw` is assumed; `E.Tournament = T` is recorded only through the slug the handler reads from it.
- `formatExpands` is a parameter; its flags-to-query-string logic is not modelled.
- `Cache.get`, `Cache.flush` and the singleton lifetime of the cache are not modelled; only `set` is used by these files.
- Logging through `winston` and `console.error` has no behaviour to state.
- The test files are used only as evidence for the concrete URL scenario; the live API calls and date checks in them are not modelled.
- `JsValues.JsValue`: numbers are integers only, so `NaN`, fractions and `-0` are not represented, and ids that are objects are not represented (their `%s` form goes through `util.inspect`).
- `JsValues.NatToDecimal`: prints every natural number in plain decimal; JavaScript's `String(n)` agrees only below 10^21 (from there it uses exponent form such as `1e+21`), and integers above 2^53 are not distinct JavaScript numbers, so the model stands for ids that are safe integers (|n| < 2^53).
- `JsValues.IntToDecimal`: the same limit as `NatToDecimal`: its result and `EventById.UrlDeterminesNumericId`/`EventById.CacheKeyDeterminesNumericId` describe JavaScript only for safe integers (|n| < 2^53).
- `EventByNames.EventByNames.OnTournamentReady`: requires an event still awaiting its tournament, because the tournament is assumed to emit `ready` at most once (`Tournament.js` is not part of this model); the handler registered at lib/EventByNames.js:38 has no guard of its own, so a second `ready` would reset slug and URL, load again, rewrite the cache entry and signal again, which `Entity.Step` does not model (it ignores `ready` outside the awaiting phase).
- A tournament that fails leaves the promise of `EventByNames.get` pending forever: no `on('error')` listener is registered on the tournament (lib/EventByNames.js:37-38), which `Entity.TournamentFailuresAreIgnored` and `Entity.StaysAwaitingWithoutTournament` state as the event staying in the awaiting phase.
- `StringUtils.IndexOf`: positions count characters, whereas JavaScript's `indexOf` counts UTF-16 code units (a character outside the Basic Multilingual Plane counts twice there), and a Dafny string cannot hold the lone surrogates a JavaScript string may contain; `formatHTTP` and `formatHTTPS` only compare the result with 0 (lib/util/StringUtils.js:6, 19 and 21), where both counts agree.
- `StringUtils.ReplaceFirst`: `$` patterns in the replacement are not interpreted; the only replacement used, `https://`, contains none.
- `StringUtils.LowerAscii`: case folding covers ASCII letters only; for the pattern characters used (h, t, p, s, `:`, `/`) this agrees with JavaScript's canonicalisation under the `i` flag, which never maps a non-ASCII character to an ASCII one.
- The `String.prototype` augmentation and the implicit global `ret` of `StringUtils.js` are scoping artefacts; the normalisers are free functions.
- The concurrency-capped aggregators of the library are not part of these files.
