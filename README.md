# Web.js routing core in Dafny

This project models the routing core of Web.js, a small HTTP framework for Node.js. Three of its files are covered.

- **lib/router.js** is the dispatch engine.
  - `getHandler` answers GET requests in this order: the empty path, `favicon.ico`, the first-match scan of the GET table, and then the URL rules.
  - `urlHandler` runs a first-match scan of the URL rules. It substitutes `$1` to `$9` into the target, then either redirects or reads a file.
  - `fileHandler` is the static fallback: a blocked extension, a directory index, or a plain file.
  - `postHandler` scans the POST table and does not stop on success.
  - Three of them compile route keys, each with its own inline copy of the same steps: `/:name` becomes `\/(.*)`, the first two characters are cut when a `/` is present, and the result is tested as an unanchored, case-insensitive regular expression. The GET and URL compilers take names from `[a-zA-Z0-9-_$]`; the POST compiler also admits `.` in a name. `fileHandler` compiles nothing.
  - Only `getHandler` and `postHandler` collect capture names, with a collector that admits `.` and keeps at most nine names. `urlHandler` declares a name list and never fills it; it substitutes captures by position only.
- **index.js** provides registration. `web.get`, `web.post` and `web.url` copy a handler object into a server's table. `web.run` creates the first server and copies its `getpath` rules into that server.
- **lib/http.js** covers four things:
  - the server object with its five tables;
  - how the request callback picks the routed path and the method;
  - the form data a POST request carries;
  - the `req.type` and `req.header` helpers.

Every handler table is a JavaScript object used as a dictionary. Its `for ... in` order is insertion order, and that order is the router's precedence. So a table is an ordered sequence of entries:

- `obj[k] = v` is `Tables.Put`: an existing key keeps its place.
- A key-by-key copy is `Tables.Merge`.

A response is recorded as a sequence of effects: a file sent, a redirect, the 404 page, a handler invoked with the `req.path` it sees, or an exception that escapes. Handlers are opaque identities. Which ones throw, and which files can be read, are inputs (`Router.Env`).

Modules, one per file:

| file | module | models |
|---|---|---|
| options.dfy | `Options` | the `Option` type |
| js.dfy | `Js` | `indexOf`, `replace` with a string pattern, `split(c)[0]` and `split(c)[1]`, ASCII lower-casing |
| tables.dfy | `Tables` | insertion-ordered objects: lookup, assignment, key-by-key copy |
| pattern.dfy | `Pattern` | the compile rewrite, the name scan, tokens and the backtracking matcher |
| router.dfy | `Router` | `getHandler`, `urlHandler` and `postHandler` as methods, each proved equal to a specification function; `fileHandler`, which has no loop, as the function `FileOutcome`; the lemmas about them |
| http.dfy | `Http` | the `Server` class, path and method selection, form data, `req.type`, `req.header` |
| web.dfy | `Web` | the `Framework` class with `Get`, `Post`, `Url` and `Run` |

Four behaviours of the code that are easy to misread, which the model reproduces:

- The compiled pattern is not anchored, so a key matches anywhere in the path.
- A `(.*)` group can span `/`.
- The GET failure path reads `server.errorHandler`, a property no server has (lib/router.js:64). A throwing GET handler therefore always ends in an escaping exception, even when an error handler is registered.
- `*/sub` in `req.type` is compared with the Content-Type's piece between its first and second `/`, as `split('/')[1]` gives it, not with everything after the first `/`.

## Model

| member | source | states |
|---|---|---|
| Js.IndexOfFrom | lib/http.js:176-183 | `indexOf` finds the first occurrence at or after the start; none is reported only when the pattern occurs nowhere from there |
| Js.IndexOfChar | lib/http.js:176-177 | a one-character search fails exactly when the character is absent, and otherwise stops at its first occurrence |
| Js.ContainsIff | lib/http.js:183 | `!!~s.indexOf(p)` holds exactly when `p` occurs somewhere in `s` |
| Js.ExpandPlain | lib/router.js:97 | a replacement text without `$` is inserted verbatim |
| Js.ReplaceFirstSpec | lib/router.js:97 | `replace` with a string pattern finds the first occurrence, keeps the text before and after it, and puts the expanded replacement in its place (the replacement itself when it has no `$`); with no occurrence nothing changes |
| Js.LowerAscii | lib/http.js:199 | lower-casing keeps the length and lower-cases each character |
| Js.Before | lib/http.js:178-181 | `split(c)[0]` is the longest prefix without `c`, followed by `c` if `c` occurs |
| Js.SecondPiece | lib/http.js:178-181 | `split(c)[1]` is undefined exactly when `c` is absent, and never contains `c` |
| Js.PiecesOf | lib/http.js:178-181 | for `w + c + rest` with no `c` in `w`, the two pieces are `w` and `rest` up to its first `c` |
| Tables.Keys | lib/router.js:36 | the `for ... in` order lists every key in entry order |
| Tables.Find | lib/router.js:22 | the key test finds the first entry holding the key, and fails exactly when no entry holds it |
| Tables.FindFirst | lib/router.js:22 | the first entry holding a key is the one found |
| Tables.PutLookup | index.js:38 | after `obj[k] = v`, `obj[k]` is `v` |
| Tables.PutOther | index.js:38 | `obj[k] = v` leaves every other key's value unchanged |
| Tables.PutKeys | index.js:38 | `obj[k] = v` keeps the key order; a new key goes last |
| Tables.PutKeysMember | index.js:38 | after `obj[k] = v` the keys are exactly the old keys and `k` |
| Tables.PutDistinct | index.js:38 | assignment never duplicates a key |
| Tables.MergeLookup | index.js:37-38 | after a copy, a copied key has the copied value and every other key keeps its old value |
| Tables.MergeKeys | index.js:37-38 | after a copy the old keys keep their positions, and the new keys follow in the copied object's order |
| Tables.MergeDistinct | index.js:37-38 | a copy keeps the keys distinct |
| Tables.MergeKeepsPosition | index.js:38 | re-registering a key does not move it, so its first-match precedence is unchanged |
| Tables.LaterRegistrationWins | index.js:38 | of two registrations of one key, the later value wins |
| Tables.MergeCons | lib/http.js:203-205 | copying entry by entry from the front is the same as the copy |
| Tables.NewKeysFromU | index.js:37-38 | a key new to the table comes from the copied object and was not in the table |
| Tables.LastKeyFresh | index.js:37 | an object's last key is not among its earlier keys |
| Pattern.NameLenChars | lib/router.js:37 | the name after `/:` is the longest run of name characters: all of it is name characters, and the character after it is not |
| Pattern.FindCapture | lib/router.js:45 | the collector's test finds the leftmost `/:` and fails only when there is none |
| Pattern.CollectStep | lib/router.js:44-51 | one round of the collector pushes the name at the leftmost marker, and the rewritten key has the remaining names |
| Pattern.CollectHere | lib/router.js:45-47 | a marker at the start yields its name, then the names of the rewritten key |
| Pattern.CollectLater | lib/router.js:45-47 | a marker found later yields its name, then the names of the rewritten key |
| Pattern.NamesSkip | lib/router.js:45 | a character that does not start a marker contributes no name |
| Pattern.NamesAfterGroup | lib/router.js:47 | a rewritten segment `\/(.*)` contributes no name, so the next round finds the next marker |
| Pattern.RewriteAppendLiteral | lib/router.js:37 | a literal prefix without markers passes through the rewrite unchanged and adds no name |
| Pattern.CompileDropsFirstChar | lib/router.js:37-38 | for a key starting with `/` and a character other than `:` and `/`, the compiled text is the rewrite of the rest: the leading slash and one more character are lost |
| Pattern.SlashMatchesEverything | lib/router.js:38-40 | key `"/"` compiles to the empty pattern and matches every path with no captures |
| Pattern.DollarNameCovered | lib/router.js:37-38 | a name segment may hold `$`: the key `/:$id` is covered, compiles to `(.*)` and collects the name `$id` |
| Pattern.MarkersSkip | lib/router.js:45 | skipping characters without a marker does not change the marker count |
| Pattern.NamesCountMarkers | lib/router.js:44-51 | a key has one capture name per `/:` marker |
| Pattern.ClassesCountAlike | lib/router.js:37-47 | the compile class and the collector class find the same number of names |
| Pattern.PlainClassesAgree | lib/router.js:37-47 | without `.` in the key, both name classes rewrite it to the same text |
| Pattern.PlainNamesAgree | lib/router.js:37-47 | without `.` in the key, both name classes collect the same names |
| Pattern.NameLenNoDot | lib/router.js:37-47 | without `.`, both classes read the same name |
| Pattern.StarCountCons | lib/router.js:39 | the group count of a token list adds up over its head |
| Pattern.TokensGroupTail | lib/router.js:37-39 | `(.*)`, `/(.*)` and `\/(.*)` read as a group, a slash then a group, and a slash then a group |
| Pattern.TokensPlainChar | lib/router.js:39 | a plain character reads as itself and `.` reads as any character |
| Pattern.RewriteTokens | lib/router.js:37-39 | the rewrite of a plain key is a pattern with one group per capture name |
| Pattern.CompileTokens | lib/router.js:37-39 | the compiled text of a plain key is a pattern with one group per capture name, the cut included |
| Pattern.RewriteAtCapture | lib/router.js:37 | a marker and its name become one `\/(.*)` |
| Pattern.RewriteAtPlain | lib/router.js:37 | a character outside a marker is kept |
| Pattern.CutGroup | lib/router.js:38 | cutting two characters off `\/(.*)` leaves `(.*)` |
| Pattern.CutSlashGroup | lib/router.js:38 | cutting two characters off a character followed by `\/(.*)` leaves `/(.*)` |
| Pattern.TokensStarFirst | lib/router.js:39 | a pattern starting with `(.*)` has one more group than its tail |
| Pattern.TokensSlashStar | lib/router.js:39 | a pattern starting with `/(.*)` has one more group than its tail |
| Pattern.NamesAtCapture | lib/router.js:44-51 | a marker at the start adds exactly one name |
| Pattern.NamesAtPlain | lib/router.js:45 | a non-marker character adds no name |
| Pattern.CutAtCapture | lib/router.js:37-38 | a key starting with a marker keeps one group per name after the cut |
| Pattern.CutBeforeCapture | lib/router.js:37-38 | a key with a marker at its second character keeps one group per name after the cut |
| Pattern.CutTwoPlain | lib/router.js:37-38 | a key starting with two plain characters loses them, and no name, to the cut |
| Pattern.DotRun | lib/router.js:39 | a greedy `.*` runs to the first line terminator |
| Pattern.DotRunCovers | lib/router.js:39 | any run without line terminators is within reach of `.*` |
| Pattern.Search | lib/router.js:40 | the test tries start positions left to right and reports the first one that matches |
| Pattern.MatchSound | lib/router.js:40 | what the backtracking matcher returns is a valid split of the input |
| Pattern.BacktrackSound | lib/router.js:40 | what a backtracking group returns is a valid split |
| Pattern.MatchComplete | lib/router.js:40 | if any split exists, the matcher finds one |
| Pattern.BacktrackComplete | lib/router.js:40 | a backtracking group finds a split whenever one exists within its reach |
| Pattern.MatchGreedy | lib/router.js:40 | the matcher's split is preferred to every other: earlier groups are as long as possible |
| Pattern.BacktrackGreedy | lib/router.js:40 | a backtracking group's split is preferred to every split it could have taken |
| Pattern.TestMeansSplit | lib/router.js:40 | the test succeeds exactly when some start position admits a split |
| Pattern.TestLeftmostGreedy | lib/router.js:39-40 | the captures come from the leftmost matching start position and are the preferred split there |
| Pattern.FitsCount | lib/router.js:57-59 | a split has one capture per group |
| Pattern.CapturesPerName | lib/router.js:55-59 | a matching plain key yields exactly one capture per capture name |
| Router.InvokedAppend | lib/router.js:61 | the handlers invoked by two effect sequences in a row are those of each, in order |
| Router.InvokeCalls | lib/router.js:61 | calling a handler invokes it and nothing else, and sends no file |
| Router.FirstMatch | lib/router.js:36-40 | the scan reports the first entry whose compiled key matches, or that no entry matches |
| Router.FirstMatchIs | lib/router.js:36-40 | an entry that matches with no earlier entry matching is the first match |
| Router.CollectNames | lib/router.js:42-51 | the collector loop returns the first nine names, left to right, scanning with the dotted class |
| Router.BindCaptures | lib/router.js:53-59 | the binding loop builds `req.path` exactly as nine rounds of `Bind` |
| Router.BindStep | lib/router.js:57-59 | round `n` writes `keys[n-1]` when capture `n` is non-empty, and otherwise changes nothing |
| Router.BindAddsOwnKey | lib/router.js:57-59 | a round adds at most its own name to the keys |
| Router.BindAddsNothingElse | lib/router.js:57-59 | a round that binds nothing adds no key |
| Router.BindKeysIf | lib/router.js:57-59 | a non-empty capture among the first nine binds its name |
| Router.BindKeyOrder | lib/router.js:57-59 | the keys of `req.path` are the bound names in first-binding order |
| Router.BoundKeysOnlyIf | lib/router.js:57-59 | a name with no non-empty capture is not among the bound names |
| Router.BindKeysOnlyIf | lib/router.js:58 | a name with no non-empty capture among the first nine is absent from `req.path` |
| Router.BindOwnRound | lib/router.js:59 | a round that binds a name sets it to that round's capture |
| Router.BindOtherRound | lib/router.js:57-59 | a round leaves every name it does not bind as it was |
| Router.BindKeeps | lib/router.js:57-59 | later rounds that do not write a name leave its value unchanged |
| Router.BindValue | lib/router.js:57-59 | a name's value is its last non-empty capture |
| Router.BindDistinct | lib/router.js:57-59 | with distinct names, each name is bound to its own capture when that is non-empty, and is absent otherwise |
| Router.SubstituteCaptures | lib/router.js:95-97 | the substitution loop applies rounds 1 to 9 exactly as `Substituted` |
| Router.NoOccurrenceWithoutFirst | lib/router.js:97 | a pattern cannot occur in a text that lacks its first character |
| Router.SubstituteNoDollar | lib/router.js:95-97 | a target without `$` is left as it is |
| Router.SubstituteEmptyCaptures | lib/router.js:96 | empty captures substitute nothing |
| Router.SubstituteOne | lib/router.js:95-97 | the first `$1` is replaced by the capture; a later `$1` stays |
| Router.SubstituteSkipsEmpty | lib/router.js:96 | rounds with empty captures change nothing |
| Router.Extension | lib/router.js:176-177 | the extension is the text after the last `.`, or the whole path without a dot |
| Router.UrlHandler | lib/router.js:84-120 | the URL scan answers as `UrlOutcome`: the first rule, its substituted target, then a redirect, the file, 404, or the file fallback |
| Router.GetHandler | lib/router.js:18-76 | GET dispatch answers as `GetOutcome`: the empty path, `favicon.ico`, the first GET match, or the URL rules |
| Router.IndexHandler | lib/router.js:21-29 | the empty path answers as `IndexOutcome`: the URL table's `/` file, else the GET table's `/` handler, else `index.html` |
| Router.GetScan | lib/router.js:36-74 | the loop over the GET table stops at the first matching key, and with no match hands over to the URL rules |
| Router.GetCall | lib/router.js:42-70 | for the first matching key: collect names, bind captures into `req.path`, call the handler, and turn a throw into the uncaught error of line 64 |
| Router.PostHitsOf | lib/router.js:130-152 | the hits of the POST table are, entry by entry, what matching and binding that entry gives |
| Router.PostEntry | lib/router.js:132-152 | compiling, collecting and testing one POST entry gives its hit |
| Router.PostHandler | lib/router.js:129-167 | the POST loop answers as `PostOutcome`: every hit in order, stopping after a throw |
| Router.PostScan | lib/router.js:130-166 | the loop's effects so far plus what `PostRun` gives for the remaining entries are the whole answer |
| Router.PostStep | lib/router.js:153-165 | one hit writes the HTML head and calls its handler; a throw gives the POST failure answer and stops the loop |
| Router.EmptyPathSelection | lib/router.js:21-29 | the empty path sends a `"/"` rule's file; without one it calls the `"/"` GET handler; without that it sends `index.html` |
| Router.FaviconIgnoresTables | lib/router.js:31-33 | `favicon.ico` is always sent, whatever the tables and the environment |
| Router.GetFirstMatchWins | lib/router.js:36-70 | the first matching GET key's handler is the only one invoked, with its bound captures and the query; a throw escapes |
| Router.GetIgnoresErrorHandlers | lib/router.js:62-68 | the GET outcome does not depend on the error-handler table |
| Router.GetFallsThroughToUrl | lib/router.js:74 | with no matching GET key, the answer is the URL scan's for the same path |
| Router.SlashKeyShadows | lib/router.js:36-40 | a `"/"` GET key matches every path, so no later key is dispatched |
| Router.UrlFirstRuleWins | lib/router.js:86-116 | the first matching rule decides: an `http` target redirects; any other is served if readable and is 404 otherwise |
| Router.UrlRedirectReadsNoFile | lib/router.js:102-107 | a redirect answer does not depend on which files exist |
| Router.UrlFallsToFile | lib/router.js:117-119 | with no matching rule, `fileHandler` answers |
| Router.FileBlockedNeverServes | lib/router.js:177-179 | a blocked extension invokes only its handler and never sends a file |
| Router.FileUnblocked | lib/router.js:180-191 | a dotted path is sent as it is; a dotless one gets `index.html` after an inner slash, or `/index.html` otherwise |
| Router.FileInnerSlashIndex | lib/router.js:183-184 | `"a/b"` is sent as `"a/bindex.html"` |
| Router.FileDirectoryIndex | lib/router.js:185-186 | `"docs"` is sent as `"docs/index.html"` |
| Router.PostCallsEveryMatch | lib/router.js:130-156 | with no throw, every matching POST handler is invoked, in table order |
| Router.PostNoMatch | lib/router.js:129-167 | with no matching key, POST emits nothing |
| Router.PostStopsAtThrow | lib/router.js:157-164 | after a throwing handler, later entries have no effect |
| Router.PostEndsWithFailure | lib/router.js:157-164 | a throw ends the response with the failure answer |
| Router.PostFailureAnswer | lib/router.js:159-163 | the failure answer calls the `post` error handler if registered, and sends 404 otherwise |
| Router.PostHitsMatch | lib/router.js:146 | a POST entry is a hit exactly when its key matches, and the hit carries that entry's handler |
| Http.RoutedPath | lib/http.js:23 | the routed path is the pathname without its first character |
| Http.ReadForm | lib/http.js:201-206 | the upload loop yields `FormData`: fields plus each readable upload, or failure on an unreadable one |
| Http.FormFromMerges | lib/http.js:202-206 | with every upload readable, `req.data` is the fields with the uploads' contents copied in, in order |
| Http.FormFromFails | lib/http.js:204-205 | an upload with a path that cannot be read makes the form step fail |
| Http.UploadedKeys | lib/http.js:203-204 | the copied keys are exactly the upload keys that have a path |
| Http.UploadedDistinct | lib/http.js:203 | the copied uploads have distinct keys |
| Http.UploadedLookup | lib/http.js:205 | an upload with a path is copied with its file's text |
| Http.FormDataHoldsUpload | lib/http.js:202-205 | `req.data[key]` is the text of the upload under that key when it has a path |
| Http.FormDataKeepsField | lib/http.js:202-205 | a field not overridden by an upload with a path keeps its value |
| Http.FormDataFails | lib/http.js:204-205 | an unreadable upload means the POST never reaches the router |
| Http.RequestHeader | lib/http.js:189-195 | `req.header(name)` is the value when truthy, else undefined |
| Http.RequestType | lib/http.js:173-184 | `req.type` is undefined exactly without a Content-Type, and throws exactly for a missing MIME name |
| Http.TypeLooksUpName | lib/http.js:176 | a name without `/` is answered as its MIME type |
| Http.TypeConcrete | lib/http.js:183 | a concrete type matches exactly when it occurs in the Content-Type |
| Http.TypeAnySubtype | lib/http.js:177-183 | `*/sub` matches exactly when `sub` is the Content-Type's second `/` piece |
| Http.TypeMainAny | lib/http.js:177-183 | `main/*` matches exactly when `main` is the Content-Type's text before its first `/` |
| Http.TypeAnyAnyOrdinary | lib/http.js:177-183 | `*/*` does not match a Content-Type with no `*` piece |
| Http.MethodSelection | lib/http.js:199-210 | `GET` reaches only GET dispatch; a method that lower-cases to `post` reaches only the POST scan; any other is not routed |
| Http.MethodSpelling | lib/http.js:199-210 | `get` is not routed, while `POST` and `Post` are |
| Http.Server.constructor | lib/http.js:212-216 | a new server has five empty tables, so no table repeats a key |
| Http.Server.Handle | lib/http.js:199-210 | the request callback answers as `RequestOutcome`; it needs only the tables the request's method reads to hold keys the model covers |
| Http.FreshServerServesFiles | lib/http.js:212-216 | with empty tables, a GET gets the static fallback |
| Web.CopyEntries | index.js:37-38 | the copy loop yields the merge of the table with the object |
| Web.Framework.constructor | index.js:18-23 | the framework starts with no current server and an empty server list |
| Web.Framework.Get | index.js:33-45 | the handlers are merged into the given server's GET table, or the current server's; the other tables are unchanged; a server whose tables had no repeated key still has none; it returns `this` |
| Web.Framework.Post | index.js:51-61 | the same, for the POST table |
| Web.Framework.Url | index.js:67-79 | the same, for the URL table, in its object form |
| Web.Framework.Run | index.js:88-130 | the first run creates and records a server with empty tables; `getpath` is copied into the URL table; no other table changes; the current server's tables hold no repeated key; it returns the server or `this` |

## Left out

- Transport: creating the Node server, `listen`, HTTPS, `web.net` and `web.runHttps` are plain I/O and are not modelled.
- Response bodies: `res.send`, `sendFile`, `sendJSON`, `redirect`, `cookie` and `clearCookie` appear only as recorded effects. The content type of a URL rule's file is not modelled, because the router imports the MIME module object rather than its table.
- File reads and form parsing are inputs. `Env.files` holds the readable files with their text, and `Http.Form` holds the parsed fields and upload paths. The `err` argument of the form callback is not modelled.
- URL parsing: a request arrives with its pathname and query already parsed.
- Pattern.PlainKey: outside its `/:name` segments, a key may hold only `.` (any character) and characters that are not regular-expression metacharacters. A name segment may hold anything its compiler's name class admits, `$` included, because the rewrite removes it. Whether a key is covered depends on the class: under the GET and URL class a name stops at `.`, so in `/:a.$` the `$` stays in the compiled text as an anchor. Keys with such metacharacters are outside the model, because they would need a full JavaScript regular-expression engine. Each dispatch requires this only of the tables it reads.
- Case-insensitive matching compares ASCII letters only. Unicode case folding is not modelled.
- The legacy `RegExp.$n` statics are modelled as the capture list of the route's own match. For GET, the second `uhReg.test` call at lib/router.js:55 makes that exact.
- JavaScript object quirks are out: integer-like keys being enumerated first, and prototype keys satisfying `in`.
- Http.IsPost lower-cases ASCII only. For the target `post` this is exact, since no non-ASCII character lower-cases to one of its letters.
- Router.BindDistinct: it requires distinct names, and either no more captures than names or at least nine names. Otherwise `keys[i-1]` past the end becomes the property name `"undefined"`, which `Router.Bind` models but this lemma does not describe.
- Web.Framework.Get, Post, Url: they require a target server. Calling them before `web.run` with no server throws a TypeError, which is not modelled.
- Web.Framework.Run: the second-server branch (`backserver` with a server already running) calls an undeclared `createHttpServer` and is excluded by the precondition. The port and host metadata are not modelled. `web.server` and `http.server` are one field, because every modelled path sets them together.
- Http.Server.Handle: the request callback in lib/http.js dispatches on the module-global `exports.server`, which is the most recently created server. The model dispatches on the tables of the server whose callback runs. The two are the same while only one server exists, and `web.run` never creates a second one: its first branch is the only successful creation, and its second-server branch throws. A second direct call of the exported `createHttpServer` would make the first server route on the second server's tables; the model does not capture that aliasing.
- Pattern.IsLineTerminator, DotRun, Tokens: a Dafny `char` is a Unicode scalar value, while a JavaScript string is a sequence of UTF-16 code units. A character above U+FFFF is one character here but two code units in the source, so `.` and `(.*)` step over it differently. The key `ab.c` matches the path `ab`, U+1F600, `c` in the model but not in JavaScript. Paths and keys are taken to hold only characters up to U+FFFF.
- These registration helpers are broken or I/O only, and not modelled: `web.erorr`, `web.noMimes`, `web.reg`, `web.set404`, `web.render`, `web.set`, and the string form of `web.url`. Because of this, the error-handler and blocked-extension tables are inputs.
- Concurrency: each request is modelled on its own. The asynchronous order of a POST form callback and later requests is not modelled.
