# URL shortener core, modelled in Dafny

A model of the short-link logic of the `golang-urlshort-server` program
(`main.go`). The server hands out 7-character tokens for long URLs, stores
one MongoDB document per create request in the `urls` collection (several
documents may share a token), and redirects a
token back to its URL. On startup it makes sure `urls` exists and gives it a
one-day TTL index. The database, HTTP layer, clock, environment variables
and random generator are replaced by pure values and parameters:

- `Tokens` models `randSeq`. The 62-rune alphabet is the one in main.go. The
  `rand.Intn(62)` results are an oracle sequence `draws`. `IS_TEST` is the
  flag `isTest`.
- `Shortener` models the `urls` collection as a sequence of `Doc`s in
  insertion order, together with the two handlers. `Create` is
  PostGenerateShortURL. `Resolve` is GetRedirectShortURL. FindOne is
  modelled as the first match in insertion order. The clock is the `now`
  argument. `BASE_URL` is `Env.baseURL`. Whether InsertOne or FindOne
  reached the server is a boolean argument. The `log.Fatalf` paths after a
  failed InsertOne, an empty short ID, a failed FindOne and a failed
  ListCollectionNames are error results; the other fatal paths are listed
  under "Left out". `Reap` is one pass of MongoDB's TTL reaper. It is an
  explicit step, and `Resolve` never looks at the clock.
- `Startup` models `setupMongoDatabase` and `contains`. The database is its
  list of collection names plus the set of indexes on `urls`. The mandatory
  `_id` index is left implicit, because dropping all indexes never removes it.
- `Greeting` models how `GetHelloWorld` picks its greeting.
- `Wrappers` holds the `Option` and `Result` types.

The model follows main.go as written:

- main.go:101-106 does not validate the URL, so an empty URL is stored like
  any other.
- main.go:127-145 has no age check. Expired documents stay visible until a
  reap removes them.
- main.go:101-118 has no uniqueness check on the token, so two documents can
  share a token. Which of them FindOne returns (main.go:137, no sort) is not
  fixed by main.go; the model chooses the older one, and
  `Shortener.TestModeCollision` holds under that choice.
- main.go:138-141 sends the same "Get mongo document failed!" response for a
  failed lookup and for a missing token, so the model gives both the same
  error.

## Model

| member | source | states |
|---|---|---|
| `Tokens.Generate` | main.go:172-185 | In test mode the result is "1234567" for every `n`. A negative length is the only failure (Go's `make` panics on it). Otherwise the result is exactly `n` runes, each one from the alphabet. |
| `Tokens.RandSeq` | main.go:177-184 | The loop fills `n` zero runes slot by slot. It returns exactly `Generate`'s result, and slot `i` holds `letters[draws[i]]`. |
| `Tokens.AlphabetIsAlphanumeric` | main.go:177 | The rune list has 62 entries, with no repeats. A rune is in it iff it is an ASCII letter or digit. |
| `Tokens.TestModeSentinel` | main.go:173-175 | In test mode the token is "1234567" for any `n` and any draws. Its length equals `n` iff `n` = 7. |
| `Tokens.EveryTokenReachable` | main.go:177-184 | Every alphanumeric string of length `n` is produced by some sequence of `n` valid draws. |
| `Tokens.DistinctDrawsDistinctTokens` | main.go:177-184 | Two different sequences of `n` draws produce two different tokens. |
| `Shortener.ShortURL` | main.go:116 | The short link consists of the base URL, then "/s/", then the token, as three adjacent slices. |
| `Shortener.FindFirst` | main.go:135-137 | If some document has the token, the result is the first such document, and no earlier document has the token. The result is None iff no document has the token. |
| `Shortener.Create` | main.go:98-119 | Create succeeds iff the insert succeeds, and otherwise fails with the insert error. On success it appends exactly one document: the request URL, a `randSeq(7)` token and `now`. All earlier documents are unchanged. The response echoes the URL and the stored token and gives the short link. The token is "1234567" in test mode; otherwise it is 7 alphabet runes. |
| `Shortener.Resolve` | main.go:126-145 | An empty token is an error, whatever the store holds. Resolve succeeds iff the token is non-empty, the lookup reached the server and some document has the token. The redirect target is the URL of a document with that token. |
| `Shortener.CreateThenResolve` | main.go:101-145 | After a create whose token was not already stored, resolving that token gives the created URL. |
| `Shortener.CreateKeepsResolutions` | main.go:101-137 | A create does not change how any already-stored token resolves, or how any token other than the new one resolves. |
| `Shortener.TestModeCollision` | main.go:101-118 | In test mode, two creates store two documents under "1234567". That token then resolves to the first URL. |
| `Shortener.CreateDoesNotDeduplicate` | main.go:101-106 | Creating a URL that is already stored still appends a new document for it, stamped `now`. |
| `Shortener.Reap` | main.go:204-206 | The reap keeps exactly the documents at most `ttl` seconds old: every copy of a live document stays, and every copy of an expired one goes. |
| `Shortener.ReapAppend` | main.go:204-206 | The reap works document by document: reaping `a + b` is reaping `a` followed by reaping `b`, so the kept documents stay in their order. |
| `Shortener.ReapIdempotent` | main.go:204-206 | Reaping a second time at the same instant removes nothing more. |
| `Shortener.ExpiredUnresolvable` | main.go:204-206 | After a reap, a token whose documents have all expired fails to resolve. |
| `Shortener.ResolveAfterReapIsLive` | main.go:135-145 | After a reap, any token that resolves does so to the URL of a live document carrying that token. |
| `Shortener.CreateReapResolve` | main.go:101-145 | Take a link created at `now` whose token was not already stored. After a reap up to `ttl` seconds later, it resolves to its URL. After a reap more than `ttl` seconds later, it fails to resolve. |
| `Shortener.TestModeScenario` | main_test.go:107-169 | In test mode on an empty collection, creating "https://www.google.com" answers with that URL, `BASE_URL + "/s/1234567"` and "1234567". Resolving "1234567" then gives the URL. Resolving "nosuch1" fails, and resolving "" fails. |
| `Startup.Contains` | main.go:213-220 | The result is true iff some element equals the string. It is false on an empty list. |
| `Startup.Setup` | main.go:187-211 | Setup fails iff listing the collections fails. On success, "urls" is among the collections. No collection is lost, and only "urls" can be added. The list is unchanged when "urls" was already there. Whatever indexes existed before, the index set becomes exactly the TTL index on `lastmodifieddate`, named `ttl_lastmodifieddate`, expiring after 86400 s. |
| `Startup.SetupIdempotent` | main.go:196-207 | Running setup twice gives the same database as running it once. |
| `Greeting.EffectiveLang` | main.go:50-52 | An empty `lang` becomes "en". A non-empty `lang` is used unchanged. |
| `Greeting.Greet` | main.go:50-62 | "bm" gives "Selamat sejahtera, " + name. Every other language, the empty one included, gives "Hello, " + name. The greeting always ends with the name. |
| `Greeting.EmptyLangIsEnglish` | main.go:50-62 | An empty language greets exactly as "en" does. |
| `Greeting.MalayGreetingExample` | main_test.go:94 | The name "anas" with language "bm" gives "Selamat sejahtera, anas". |

## Left out

- Connecting to MongoDB, pinging it and disconnecting are foreign driver calls, replaced by the abstract store. For the same reason the `mongo` status field of the greeting response is not modelled.
- Routing, JSON encoding and decoding, the `sendResponse` envelope and HTTP status codes are I/O plumbing. A request body that fails to decode is part of that plumbing.
- Reads of `IS_TEST`, `BASE_URL`, `APP_HOST` and `APP_PORT`, and `time.Now`, are not modelled as reads. They become parameters.
- Seeding the random generator and its distribution are not modelled. Only the shape of a token is.
- `log.Fatal`/`log.Fatalf` stop the process. Those the model keeps are error results instead.
- The fatal paths of a request body that fails to decode (main.go:93), a failed connection (main.go:166) and a failed Ping in `GetHelloWorld` (main.go:70) are not modelled: they belong to the JSON and driver plumbing left out above.
- main.go:198-207 ignores errors from CreateCollection, DropAll and CreateOne during setup. The model treats these calls as always succeeding.
- MongoDB runs its reaper in the background and asynchronously, which is concurrency outside the program. The model offers only the explicit `Reap` step, and timestamps are whole seconds.
- Shortener.Resolve: FindOne without a sort may return any matching document. The model fixes this choice to the first match in insertion order.
