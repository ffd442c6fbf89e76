# etsy-python call marshalling, modelled in Dafny

The `etsy` Python client does not hard-code the Etsy v2 endpoints. It
fetches the server's method table, a list of endpoint descriptors (name,
URI template, HTTP verb, parameter type names, description), and turns each
descriptor into a callable `APIMethod`. This project models that
call-marshalling core and the OAuth pieces around it:

- `TypeChecker` checks keyword arguments against a descriptor's `params`
  type map. The `int`, `float` and `string` checkers are built in,
  `enum(a, b, c)` type names become membership tests, and any other name
  accepts everything. Compiled checkers are cached by type name.
- `APIMethod` compiles its URI template lazily. The positional names come
  from the greedy pattern `{(.*)}`, and each `{p}` becomes `%(p)s`. It then
  binds positional arguments to those names, moves the path parameters out
  of the keyword arguments, type-checks the rest, fills in the template and
  hands everything to `_execute`. A keyword argument named like a parameter of a
  function it passes through (`self`, `method`, `http_method`, `url`) makes
  Python raise `TypeError` at that call.
- `EtsyAPI` rejects a base URL ending in `/`. It builds its method table and
  endpoints from the (possibly cached) server table. Its `_execute` rewrites
  `:key` path segments from the keyword arguments, prefixes the base URL and
  dispatches on the HTTP verb.
- `MethodTableCache` keeps the method table in a file and reuses it for one
  day, with the flags `used_cache` and `wrote_cache`.
- `EtsyOAuthClient` is modelled as a state machine over its private fields:
  no token, then a pending request token, then authorized.
- `OAuthToken` is the key/secret pair and its dict form in a token file.

Modules and files:

| module | file |
|---|---|
| `Results` | `results.dfy` |
| `Dicts` (insertion-ordered Python dicts) | `dicts.dfy` |
| `Values` (argument values) | `values.dfy` |
| `PyStr` (`split`, `join`, `strip`, `lstrip`, `replace`, `str(int)`) | `pystr.dfy` |
| `Tokens` | `token.dfy` |
| `Environments`, `OAuth` | `oauth.dfy` |
| `TypeCheck` | `typecheck.dfy` |
| `UriTemplate` (placeholder regex, template compilation, `%` formatting) | `uritemplate.dfy` |
| `Descriptors` | `descriptors.dfy` |
| `MethodCache` | `methodcache.dfy` |
| `Api` (`APIMethod`, `EtsyAPI`, `_execute`) | `api.dfy` |

Stateful code is modelled as classes whose methods are proved against pure
specification functions:

- `TypeChecker.Check` is proved against `CheckArgs`.
- `APIMethod.Invoke` is proved against `InvokeSpec`.
- `EtsyAPI.Execute` is proved against `ExecuteSpec`.
- `MethodTableCache.Get` is proved against `GetTable` and `FilesAfterGet`.

The lemmas state what the source promises about those functions.

Python dicts are ordered lists of entries, because iteration order decides
which argument a failed check names. Argument values are a datatype
`Int | Bool | Float | Str | Other`; `bool` counts as an `int`, as in Python.
Network replies, the server's method table, file contents and the clock are
parameters.

## Model

| member | source | states |
|---|---|---|
| TypeCheck.Run | etsy/_core.py:60-76 | every checker hands back the value it was given, unchanged |
| TypeCheck.PrimitiveCheckers | etsy/_core.py:67-76 | `int` accepts exactly ints and bools; `float` accepts exactly ints, bools and floats; `string` accepts exactly strings |
| TypeCheck.IntFloatWidening | etsy/_core.py:67-73 | a float passed for an `int` parameter is reported as a bad value for that parameter; an int passed for a `float` parameter passes the whole check and is returned unchanged |
| TypeCheck.UnknownTypeAcceptsAll | etsy/_core.py:50-65 | a type name that is neither built in nor starts with `enum` accepts every value |
| TypeCheck.EnumName | etsy/_core.py:50-59 | `enum(<body>)` is not a built-in name, it compiles to an enum checker, and its terms are `<body>` split at commas with each piece stripped |
| TypeCheck.EnumAcceptsExactlyItsTerms | etsy/_core.py:58-62 | the checker for `enum(t1, ..., tn)` accepts a value if and only if it is a string equal to one of the terms, compared case-sensitively |
| TypeCheck.EnumTerms | etsy/_core.py:58-59 | an enum type name has at least one term, even `enum()`, whose one term is empty, and no term contains a comma |
| TypeCheck.Compiled | etsy/_core.py:50-62 | a compiled checker accepts a value if and only if the type name does not start with `enum`, or the value is a string among the enum's terms |
| TypeCheck.CheckArgsPasses | etsy/_core.py:34-48 | the check passes if and only if every argument is either `includes` or a declared parameter whose checker accepts its value |
| TypeCheck.CheckArgsReportsFirst | etsy/_core.py:36-47 | a failing check reports the first argument, in order, that is not admissible: "unexpected argument" for an undeclared name, otherwise "bad value" with its type name |
| TypeCheck.CheckArgs | etsy/_core.py:33-48 | an error names an argument of the call together with its value, and never `includes` |
| TypeCheck.TypeChecker.constructor | etsy/_core.py:27-32 | a new checker table holds exactly the three built-in checkers |
| TypeCheck.TypeChecker.Compile | etsy/_core.py:50-56 | compiling gives the enum checker for names starting with `enum` and the accept-all checker otherwise, and caches it under exactly that name |
| TypeCheck.TypeChecker.Resolve | etsy/_core.py:43 | the checker used for a type name is always the one the name stands for; a cached name leaves the table untouched, and an uncached one is added |
| TypeCheck.TypeChecker.Check | etsy/_core.py:34-48 | the outcome is the first error in argument order, or none; the arguments are the same after a passing check; the cache gains exactly the type names looked up before the check returns or raises |
| UriTemplate.NoCloseNoPlaceholders | etsy/_core.py:107 | a URI without `}` has no positional names |
| UriTemplate.Placeholders | etsy/_core.py:107 | no positional name spans a newline, because `.` does not match one |
| UriTemplate.OneLinePlaceholders | etsy/_core.py:107 | on a URI without newlines the greedy pattern yields at most one name: the text between the first `{` and the last `}`, if a `}` follows the first `{` |
| UriTemplate.CaptureSplits | etsy/_core.py:107 | a URI with a capture is text without `{`, then the capture in braces, then text without `}` |
| UriTemplate.BracedPlaceholder | etsy/_core.py:107 | a one-line URI `a{p}b` with no `{` in `a` and no `}` in `b` has exactly the one name `p`, even when `p` itself holds braces |
| UriTemplate.FormatOf | etsy/_core.py:109-111 | a URI in which none of the names occurs in braces is its own template |
| UriTemplate.CompileOneLine | etsy/_core.py:109-111 | compiling `a{p}b` gives `a%(p)sb` and changes nothing else |
| UriTemplate.CloseParenPlain | etsy/_core.py:138 | a mapping key without parentheses ends at the first `)` |
| UriTemplate.Format | etsy/_core.py:138 | formatting can fail only on a template that contains `%` |
| UriTemplate.FormatLiteralPrefix | etsy/_core.py:138 | text without `%` in front of a template is copied to the front of the result, and errors pass through |
| UriTemplate.FormatNoPercent | etsy/_core.py:138 | a template without `%` formats to itself whatever the path parameters |
| UriTemplate.FormatOneSlot | etsy/_core.py:138 | filling `a%(p)sb` gives `a`, then `str` of the value of `p`, then `b`; a missing `p` raises a key error naming `p` |
| Api.Classify | etsy/_core.py:253-262 | GET and DELETE send the arguments as query parameters, POST and PUT as the request body, and every other verb is unsupported (all three as if-and-only-if) |
| Api.ExecuteSpec | etsy/_core.py:241-262 | an unsupported verb is the only error; otherwise the request keeps the verb, the client's access token, the transport of the verb and a URL that starts with the base URL |
| Api.RewriteLoop | etsy/_core.py:242-247 | the segment loop of `_execute` computes exactly `Rewrite` over the `/`-separated segments of the URL |
| Api.Rewrite | etsy/_core.py:242-247 | the rewrite only deletes arguments: each argument still sent was an argument of the call, with the same value |
| Api.RewriteDropsColonKeys | etsy/_core.py:242-247 | the rewrite consumes exactly the keys named by `:` segments that are present, and every other argument is sent unchanged and in order |
| Api.NoColonUrlUnchanged | etsy/_core.py:242-249 | a URL without `:` is not rewritten and all arguments are sent |
| Api.ColonSegmentSubstituted | etsy/_core.py:242-247 | a `/:key` segment, at the end of the URL or followed by more segments, with an argument `key` becomes `/` plus `str` of the argument, the text around it is kept, and `key` is no longer sent |
| Api.ColonSegmentKept | etsy/_core.py:242-247 | a `/:key` segment, at the end or in the middle of the URL, without an argument `key` stays in the URL, and no argument is consumed |
| Api.SegmentsSubstituted | etsy/_core.py:242-247 | for a URL with any number of `:key` segments, where every `:` begins its segment, no `:` segment is a prefix of a different segment, and no substituted value holds `:`: the URL after the loop is its segments joined by `/` again, with each `:key` segment whose key is an argument replaced by `str` of that argument and every other segment kept |
| Api.PrefixCollision | etsy/_core.py:242-247 | substitution is textual: in `/:k/:ks` the replacement of `:k` also rewrites the front of `:ks`, so the argument `ks` is consumed and never appears in the URL |
| Api.BindPositionals | etsy/_core.py:124-128 | binding fails only by naming a duplicated positional among the names bound |
| Api.BindPositionalsSucceeds | etsy/_core.py:124-128 | binding succeeds if and only if the names bound positionally are distinct and none of them is also a keyword argument |
| Api.BindKeepsKeywords | etsy/_core.py:124-128 | after binding, every keyword argument of the call is still there with its value |
| Api.BindHoldsPositionals | etsy/_core.py:124-128 | after binding, each positionally bound name holds its positional value |
| Api.BindAddsOnlyPositionals | etsy/_core.py:124-128 | binding adds no name other than the positionally bound ones |
| Api.BindOutsideNames | etsy/_core.py:124-128 | a bound name that is not a positional name is a keyword argument of the call, with the same value |
| Api.Bind | etsy/_core.py:124-128 | the binding loop returns exactly `BindPositionals`: the first duplicated name, or the arguments with the positional values added |
| Api.ExtractPath | etsy/_core.py:130-135 | moving the path parameters out fails only by naming a missing path parameter |
| Api.ExtractPathSucceeds | etsy/_core.py:130-135 | moving the path parameters out succeeds if and only if the names are distinct and all present |
| Api.ExtractPathRest | etsy/_core.py:130-135 | the arguments left over are the original ones without the path parameters, order kept |
| Api.ExtractPathKeys | etsy/_core.py:130-135 | the path parameters end up with exactly the names collected before plus the path names |
| Api.ExtractPathValues | etsy/_core.py:130-135 | each path parameter holds the value its name had among the arguments |
| Api.ExtractPathKeeps | etsy/_core.py:130-135 | extraction keeps the values of path parameters already collected under names that are not path names |
| Api.Extract | etsy/_core.py:130-135 | the extraction loop returns exactly `ExtractPath`: the first missing path name, or the path parameters and the arguments left over |
| Api.InvokeBindingErrors | etsy/_core.py:100-135 | the binding failures in the order they are raised: a keyword `self`; then positionals given to a method without any; more positionals than names; a positional name that is also a keyword; a path name still missing after binding |
| Api.Clash | etsy/_core.py:137-138 | a keyword argument named like one of the callee's own parameters is found if and only if there is one, and the one found is such an argument |
| Api.InvokeReservedNames | etsy/_core.py:100-138 | a keyword `self` raises at once; a call that goes through had no keyword `method`, `http_method` or `url` except as a path name, since those raise `TypeError` at the type check or at `_execute` |
| Api.BindWithoutNames | etsy/_core.py:124-128 | deleting the path names after binding gives the keyword arguments without the path names, as if nothing had been bound |
| Api.MarshalRest | etsy/_core.py:124-137 | the arguments handed to the type check are the call's keyword arguments without the path names, in call order |
| Api.InvokeSpec | etsy/_core.py:115-138 | a call that goes through keeps the descriptor's verb with that verb's transport, carries the client's signer and a URL under the base URL, and got past the type check's and `_execute`'s parameter clashes |
| Api.InvokeForwardsKeywords | etsy/_core.py:115-138 | the parameters sent are exactly the keyword arguments of the call without the path names and without the keys of the `:` segments of the filled-in URL, in call order and with their values |
| Api.InvokeOnePlaceholder | etsy/_core.py:105-138 | for a URI `a{p}b` called with one positional argument, the template is `a%(p)sb`, and the request is `_execute` on `a`, `str` of the argument, `b` with the keyword arguments as they were |
| Api.GreedyTwoPlaceholders | etsy/_core.py:107 | `/a/{x}/b/{y}` has the single positional name `x}/b/{y` |
| Api.GetUserExample | etsy/_core.py:100-138 | `getUser` on `/users/{user_id}` with the argument 42 sends a GET query request to the base URL followed by `/users/42`, with no parameters |
| Api.TableOf | etsy/_core.py:227 | every descriptor in the method table is filed under its own name |
| Api.TableOfNames | etsy/_core.py:227 | the method table has an entry for exactly the names in the server's list |
| Api.TableOfLastWins | etsy/_core.py:227 | a name maps to the last descriptor in the list that carries it |
| Api.APIMethod.constructor | etsy/_core.py:79-98 | a new endpoint shares the API's type checker, takes its docstring from the description and is not compiled |
| Api.APIMethod.Compile | etsy/_core.py:105-113 | after compiling, the positional names are the greedy captures of the URI and the template is the URI with each `{p}` turned into `%(p)s` |
| Api.APIMethod.Invoke | etsy/_core.py:115-138 | the result is the specification `InvokeSpec` of the call; the checker table stays valid and gains exactly the type names the type check looks up, none when the call raises before the type check |
| Api.APIMethod.Call | etsy/_core.py:100-103 | a keyword `self` raises before compiling; otherwise a call compiles at most once, an already compiled endpoint keeps its names and template, and the result is the invocation on the compiled template; the checker table gains exactly the type names looked up |
| Api.EtsyAPI.constructor | etsy/_core.py:213-232 | the method table is the cached or fetched table by name, the cache file is written back as `get` does, `used_cache` says whether a table was read and `wrote_cache` whether the fetched one was written, and there is one fresh uncompiled endpoint per name, bound to its descriptor |
| Api.EtsyAPI.BindEndpoints | etsy/_core.py:229-230 | there is one fresh, uncompiled endpoint per name of the table, bound to the API and to the last descriptor carrying that name |
| Api.EtsyAPI.Execute | etsy/_core.py:241-262 | the loop computes exactly `ExecuteSpec`: segment rewrite, base URL prefix and verb dispatch |
| Api.NewEtsyAPI | etsy/_core.py:213-216 | construction fails if and only if the base URL ends in `/`, and then nothing is read or written |
| MethodCache.PathJoin | etsy/_core.py:161 | an absolute second part replaces the first; otherwise the result starts with the first part and ends with the second |
| MethodCache.DefaultFile | etsy/_core.py:158-161 | the default file starts with `~/.etsy` when that is a directory and with the temporary directory otherwise, and ends with `methods.v2.json` |
| MethodCache.ResolveFile | etsy/_core.py:149-152 | a given file name is used as it is, and none selects the default file |
| MethodCache.CachedTable | etsy/_core.py:170-180 | the cache yields a table if and only if there is a file name, the file exists and it is at most one day old, and the table is the file's |
| MethodCache.GetTable | etsy/_core.py:163-168 | a missing, stale or empty cached table makes `get` return the server's table; otherwise the cached, non-empty table |
| MethodCache.FreshWindow | etsy/_core.py:174 | a file written at time `w` is used exactly while `now - w <= 86400` |
| MethodCache.SecondGetUsesCache | etsy/_core.py:163-189 | after a fetch of a non-empty table, a `get` within a day returns that table without fetching and writes nothing |
| MethodCache.StaleCacheRefetches | etsy/_core.py:163-189 | a missing or expired file makes `get` return the server's table and write it back stamped with the current time |
| MethodCache.EmptyCachedTableRefetches | etsy/_core.py:163-168 | a fresh but empty cached table counts as no table |
| MethodCache.NoFileNoCaching | etsy/_core.py:170-189 | without a file name nothing is read or written and the server's table is used |
| MethodCache.MethodTableCache.constructor | etsy/_core.py:143-147 | the file name is the resolved one and both flags start false |
| MethodCache.MethodTableCache.GetCached | etsy/_core.py:170-180 | returns `CachedTable`, and `used_cache` becomes true exactly when a table was read |
| MethodCache.MethodTableCache.Cache | etsy/_core.py:182-189 | without a file name nothing changes; otherwise the file holds the table stamped `now` and `wrote_cache` is true |
| MethodCache.MethodTableCache.Get | etsy/_core.py:163-168 | returns `GetTable`, leaves the files as `FilesAfterGet` says, and sets each flag exactly when a read or a write happened |
| OAuth.FirstValue | etsy/_oauth.py:40-41 | the first value of a reply field exists if and only if the field is present with at least one value |
| OAuth.SigninUrl | etsy/_oauth.py:42 | the sign-in URL is a tail of the reply text, and it does not start with any of the characters of `login_url=` |
| OAuth.SigninUrlOfLoginUrl | etsy/_oauth.py:42 | `login_url=` followed by characters of the stripped set and then a URL yields only that URL: the strip removes a character set, not a prefix |
| OAuth.EtsyOAuthClient.constructor | etsy/_oauth.py:10-31 | with a token, the owner key and secret are the token's and an access signer is built from them; without one, key, secret and access token are all absent, so the client is not authorized |
| OAuth.EtsyOAuthClient.GetSigninUrl | etsy/_oauth.py:33-42 | a scope that is not a list or tuple fails before anything is sent; otherwise the space-joined scope is posted, the key and secret become the reply's first values, and the sign-in URL is returned; the access token is untouched |
| OAuth.EtsyOAuthClient.GetAccessToken | etsy/_oauth.py:44-60 | the exchange is signed with the pending key, secret and verifier; the key and secret become the reply's; the client is then authorized and returns the access signer it holds |
| OAuth.EtsyOAuthClient.Save | etsy/_oauth.py:77-81 | saves exactly when authorized, writing the current key and secret; otherwise writes nothing and reports false |
| OAuth.Load | etsy/_oauth.py:70-75 | the loaded client has the given consumer key and secret, is authorized if and only if the token file exists, and then holds the file's key and secret |
| OAuth.SaveThenLoad | etsy/_oauth.py:70-81 | an authorized client saved and loaded again is authorized, with the same consumer key and secret and the same owner key and secret; an unauthorized client writes nothing, so the files are unchanged and the client loaded is authorized only if the file already held a token |
| Tokens.ToDict | etsy/_token.py:9-17 | the dict has the key entry if and only if the key is set, likewise for the secret, with those values and no other entries |
| Tokens.FromDict | etsy/_token.py:19-24 | each field is the dict's entry if present and absent otherwise |
| Tokens.DictRoundTrip | etsy/_token.py:9-24 | decoding the dict form of a token gives back the same token |
| Tokens.DictDropsUnknownFields | etsy/_token.py:9-24 | encoding a decoded dict keeps exactly its two known entries |
| Tokens.EmptyTokenIsEmptyDict | etsy/_token.py:5-17 | a token without key and secret encodes to the empty dict |
| Tokens.Save | etsy/_token.py:26-28 | saving overwrites only the token's file, with its dict form |
| Tokens.Load | etsy/_token.py:19-24 | loading fails if and only if the file is missing, and otherwise decodes it |
| Tokens.SaveLoadRoundTrip | etsy/_token.py:19-28 | loading a token just saved gives back the same token |

## Left out

- Logging: the module-level handler set-up and every `logger.debug` call have no behaviour to verify.
- The HTTP calls of `_execute` and the handling of the response envelope (etsy/_core.py:264-271) are network I/O. `_execute` is modelled up to the request it would send: verb, transport, URL, parameters and signer. `get_method_table` becomes the `server` parameter, the table a `GET /` would return.
- OAuth1 signing by `requests_oauthlib` is a foreign library. A signer is a value recording the inputs it was built from.
- `parse_qs` and `unquote` are foreign code. Token-endpoint replies are inputs that are already parsed and already unquoted.
- File and JSON I/O, `os.path.isdir/isfile/exists`, `os.stat`, `expanduser` and `tempfile.gettempdir` become a map from path to file contents and the booleans and paths of `Host`. Cache files hold the parsed table.
- `time.time()` is a float in the source; here it and modification times are whole seconds.
- The `setattr` binding of endpoints is a name-to-endpoint map. An endpoint named like an existing attribute of `EtsyAPI` would shadow it in the source; that is not modelled.
- The `etsy/_etsy_env.py` environment classes are not part of this model. Their URLs are the parameter `Environments.EtsyEnv`.
- The `%` operator is modelled for `%%` and `%(key)s`. `compile` only turns each `{p}` into `%(p)s`, so any other `%` sequence already in a URI stays in the template; such sequences (`%s`, `%d`, flags, widths) are not modelled and give an `UnsupportedConversion` error, not Python's behaviour (`%s` with a dict, for instance, formats the dict itself).
- Enum membership on a non-string value is false. An object whose custom `__eq__` equals a string term is not modelled.
- A descriptor missing one of the keys `name`, `uri`, `http_method`, `params` or `description` (a `KeyError` in the source) is not modelled: descriptors always have all five.
- `EtsyAPI.__init__` raises on a trailing slash. A Dafny constructor cannot fail, so `NewEtsyAPI` returns `None` in that case and the constructor requires the check to have passed.
- The docstring of `EtsyAPI.__init__` says an explicit `method_cache=None` disables caching, but `resolve_file` maps `None` to the default file. The model follows the code: through the constructor the file name is never absent. The absent case is still modelled in `CachedTable`, `Cache` and `NoFileNoCaching`.
- Api.APIMethod.Invoke: requires `compiled`. The source reads `positionals` and `uri_format`, which only exist after `compile`, so calling `invoke` first raises `AttributeError`; `Call` is the entry point that compiles first.
- Api.SegmentsSubstituted: covers only URLs where every `:` begins its segment, no `:` segment is a prefix of a different segment, and no substituted value holds `:`. Outside those shapes the replacement works on the text and can reach into other segments; `PrefixCollision` exhibits one such URL.
- OAuthToken's `__str__` is JSON text for display only.
