# req: request assembly and response handling

`req` is a command-line HTTP client in the style of curl and httpie. Its
`src/main.rs` turns the command line into one HTTP request. It then decides
what to do with the response. This project models that logic in Dafny and
proves properties of the model:

- `key=value` / `key:value` argument splitting (`split_pair`, `split_once`);
- `build_map`, which folds dotted keys such as `credential.username=x` into a
  nested JSON object. The model walks the key path imperatively with a
  `current` reference into the map, as the program does, and is proved equal
  to a pure specification (`KeyValueTree.Tree`);
- URL normalisation, based on the literal prefix `http`;
- the header list: explicit headers, then the `Authorization` shortcuts, then
  one `Cookie` header, then the JSON and form headers, append-only and in that
  order;
- method inference from an explicit flag or from the kind of body;
- the whole assembly in `main`, with its panics taken in program order;
- the response decision: print and exit 1, save to a file, or print,
  pretty-printing JSON unless raw output is asked for.

Modules and files:

| file | module | contents |
|---|---|---|
| `wrappers.dfy` | `Wrappers` | `Option`, `Result` |
| `text.dfy` | `Text` | pair splitting, `.`/`/` splitting and joining, ASCII case mapping, splitting all arguments |
| `json.dfy` | `Json` | the JSON value type, the leaf rule of `build_map`, and a reference parser for JSON scalars (sections 2, 3, 6 and 7 of RFC 8259) |
| `keyvalue.dfy` | `KeyValueTree` | insertion along a key path, the fold over all arguments, the imperative `BuildMap` |
| `url.dfy` | `Url` | URL normalisation |
| `methods.dfy` | `Methods` | HTTP methods and method inference |
| `headers.dfy` | `Headers` | the header list and its order |
| `request.dfy` | `Request` | the command line, the assembled request, `Assemble` |
| `render.dfy` | `Render` | the response decision and `Path::file_name` |

Panics (`unwrap`, `expect`) are modelled as `Err` values or as the
`MissingFileName` and `NotJson` outcomes. Library calls the program makes are parameters:
`serde_json::from_str` (`Json.Parser`), base64 encoding and
`serde_urlencoded::to_string` (the `Request.Foreign` record).

## Model

| member | source | states |
|---|---|---|
| `Text.FirstPairSep` | src/main.rs:98-105 | There is no separator exactly when no `=` or `:` occurs. Otherwise the index found holds a separator and no separator comes before it. |
| `Text.SplitPair` | src/main.rs:98-105 | `None` exactly when the argument has no `=` or `:`. Otherwise the key has no separator, a separator follows it, and key + separator + value is the argument. |
| `Text.SplitPairUnique` | src/main.rs:98-105 | Any decomposition key + separator + value with a separator-free key is the one the split returns (the split is at the first separator). |
| `Text.IndexOf` | src/main.rs:112 | The index of the first occurrence of a character. |
| `Text.SplitOn` | src/main.rs:112 | `str::split('.')`: at least one piece, no piece contains the delimiter, and joining the pieces with it gives back the string. |
| `Text.SplitOnJoin` | src/main.rs:112 | The other round trip: splitting a join of delimiter-free pieces gives back the pieces. |
| `Text.SplitOnNoSep` | src/main.rs:112 | A string without the delimiter splits into itself. |
| `Text.Join` | src/main.rs:168 | `join("; ")`: the parts with the separator between each two. |
| `Text.JoinSnoc` | src/main.rs:168 | Joining with one more part appends the separator and that part. |
| `Text.SplitOnSnoc` | src/main.rs:112 | Appending a delimiter and a delimiter-free piece adds exactly that piece. |
| `Text.Lower` | src/main.rs:203 | `to_lowercase` on ASCII letters: same length, no upper-case letter left. |
| `Text.Upper` | src/main.rs:173 | `to_uppercase` on ASCII letters: same length, no lower-case letter left. |
| `Text.UpperOfLower` | src/main.rs:173 | Upper-casing ignores a prior lower-casing. |
| `Text.SplitAll` | src/main.rs:140-149 | Splitting every positional query parameter and every `-H` argument succeeds exactly when each one has a separator. Then the results are the splits, in order. Otherwise the reported argument is one of them and has no separator. |
| `Text.SplitAllReportsFirst` | src/main.rs:140-149 | The argument reported is the first malformed one: every argument before it splits. |
| `Json.TrimStart` | src/main.rs:117 | Leading JSON whitespace removed: the result is a suffix that does not start with whitespace, and everything removed is whitespace. |
| `Json.TrimEnd` | src/main.rs:117 | Trailing JSON whitespace removed: the result is a prefix that does not end with whitespace, and everything removed is whitespace. |
| `Json.Digits` | src/main.rs:117 | The end of the longest run of digits from a position. |
| `Json.ScanInt` | src/main.rs:117 | The integer part of a number (reference parser): fails exactly when no digit is at the position. Otherwise it ends right after a leading `0`, or else at the end of the digit run. |
| `Json.ScanFrac` | src/main.rs:117 | The optional fraction (reference parser): fails exactly when a `.` is not followed by a digit. Otherwise it ends at the end of the digits after the `.`, or stays put when there is no `.`. |
| `Json.ScanExp` | src/main.rs:117 | The optional exponent (reference parser): fails exactly when `e`/`E` and an optional sign are not followed by a digit. Otherwise it ends at the end of those digits, or stays put when there is no exponent. |
| `Json.Leaf` | src/main.rs:117 | The stored leaf: the parse of the raw text, or the raw text as a JSON string when it does not parse. |
| `Json.ScalarParse` | src/main.rs:117 | The reference parser never yields an object or an array. |
| `Json.TrimUntouched` | src/main.rs:117 | Text without surrounding whitespace is not trimmed. |
| `Json.NotNumber` | src/main.rs:117 | Text that starts with neither `-` nor a digit is not a number. |
| `Json.NumberEnds` | src/main.rs:117 | A number starts with `-` or a digit and ends with a digit. |
| `Json.NumberNotKeyword` | src/main.rs:117 | A number is none of `true`, `false`, `null`. |
| `Json.NotKeywordParses` | src/main.rs:117 | A trimmed number that is not a keyword parses as that number. |
| `Json.ParseRejects` | src/main.rs:117 | Trimmed text that is no keyword, no number and does not start with `"` is rejected. |
| `Json.WordRejected` | src/main.rs:117 | A bare word is rejected by the reference parser. |
| `Json.LeafOfWord` | src/main.rs:117 | With the reference parser, a bare word is stored as a JSON string: `unwrap_or(Value::String(..))`. |
| `Json.LeafOfNumber` | src/main.rs:117 | With the reference parser, a number literal is stored as that number. |
| `Json.LeafTrue` | src/main.rs:282-289 | `true` is stored as a boolean. |
| `Json.LeafWord` | src/main.rs:283-290 | `abc123` is stored as a string. |
| `Json.LeafBrace` | src/main.rs:284-291 | `{` does not parse and is stored as a string. |
| `Json.LeafInteger` | src/main.rs:285-292 | `5` is stored as a number. |
| `Json.DecimalIsNumber` | src/main.rs:286 | `-5.5` is a JSON number. |
| `Json.LeafDecimal` | src/main.rs:286-293 | `-5.5` is stored as a number. |
| `KeyValueTree.GetPath` | src/main.rs:115-122 | The value a key path leads to, descending through objects. |
| `KeyValueTree.InsertPath` | src/main.rs:115-122 | One argument's walk: create missing objects on the way, store the leaf at the last segment, fail on a non-object on the way. |
| `KeyValueTree.KeyPath` | src/main.rs:111-112 | `key.split('.')` of an argument's key: at least one segment, none containing `.`, joined back by `.` they give the key. |
| `KeyValueTree.Step` | src/main.rs:111-122 | One iteration of the outer loop: split the argument, then insert its leaf along its key path. |
| `KeyValueTree.Tree` | src/main.rs:108-125 | The arguments processed in order from an empty map, stopping at the first panic. |
| `KeyValueTree.InsertThenGet` | src/main.rs:115-122 | After inserting along a path, the path leads to the inserted value. |
| `KeyValueTree.InsertKeepsOthers` | src/main.rs:115-122 | An insertion leaves every path that parts from the inserted one unchanged. |
| `KeyValueTree.EmptyHasNoPath` | src/main.rs:109 | The empty map has nothing at any path. |
| `KeyValueTree.InsertTopLevel` | src/main.rs:118-120 | At top level, the first segment is bound afterwards and every other key keeps its value. |
| `KeyValueTree.ScalarReplacesSubtree` | src/main.rs:118 | Storing a non-object at a path removes everything that was below it: `insert` replaces. |
| `KeyValueTree.InsertIntoEmpty` | src/main.rs:120 | Inserting into an empty object never fails: missing objects are created. |
| `KeyValueTree.InsertFailsIff` | src/main.rs:120 | An insertion panics exactly when some proper prefix of the path holds a non-object (`as_object_mut().unwrap()`). |
| `KeyValueTree.TreeErrSticks` | src/main.rs:110-123 | Once an argument panics, later arguments do not matter. |
| `KeyValueTree.TreeOkPrefix` | src/main.rs:110-123 | A successful build succeeded on every prefix of the arguments. |
| `KeyValueTree.TreeLast` | src/main.rs:110-123 | A successful fold is the last step applied to the fold of the earlier arguments. |
| `KeyValueTree.StepOkSplits` | src/main.rs:111-122 | A successful step split its argument and inserted the leaf at its key path. |
| `KeyValueTree.TreeOkAllSplit` | src/main.rs:111 | A successful build means every argument had a separator. |
| `KeyValueTree.MalformedPanics` | src/main.rs:111 | An argument without `=` or `:` makes the build panic (`split_once(..).unwrap()`). |
| `KeyValueTree.LastWriteWins` | src/main.rs:116-118 | The last argument's leaf is what its key path finds. |
| `KeyValueTree.LastArgumentWins` | src/main.rs:116-118 | The same, stated for the last element of the argument list. |
| `KeyValueTree.LeafSurvives` | src/main.rs:110-123 | An argument's leaf is in the result when every later argument's key path parts from its own. |
| `KeyValueTree.DropLast` | src/main.rs:110 | Dropping the last argument keeps the divergence facts about the earlier ones. |
| `KeyValueTree.SurvivesLast` | src/main.rs:110-123 | A value survives a last argument whose key path parts from its path. |
| `KeyValueTree.StepKeepsOthers` | src/main.rs:111-122 | A step leaves alone every path that parts from its own key path. |
| `KeyValueTree.WalkStart` | src/main.rs:112-113 | The walk invariant holds with `current` at the root and no frames. |
| `KeyValueTree.WalkDescend` | src/main.rs:120 | Descending into an existing or newly created object keeps the walk invariant. |
| `KeyValueTree.WalkBlocked` | src/main.rs:120 | If a non-final segment holds a non-object, the whole insertion fails. |
| `KeyValueTree.WalkArrive` | src/main.rs:116-118 | Inserting at the final segment and plugging the frames back gives the specified map. |
| `KeyValueTree.TreeExtend` | src/main.rs:110-123 | The fold over one more argument is one more step. |
| `KeyValueTree.BuildMap` | src/main.rs:108-125 | The imperative walk with a `current` reference returns `Object` of the specified tree exactly when the tree succeeds. Otherwise it returns the same panic, for the same argument. |
| `KeyValueTree.TreeTwo` | src/main.rs:110-123 | The fold over two arguments. |
| `KeyValueTree.DottedStep` | src/main.rs:111-122 | An `a.b=raw` argument stores raw's leaf under `b` in the object at `a`, creating it when absent. |
| `KeyValueTree.SiblingsShareObject` | src/main.rs:120 | Two dotted keys with the same first segment end up in one shared object. |
| `KeyValueTree.FlatTreeOk` | src/main.rs:110-123 | Undotted keys always build, repeated or not. |
| `KeyValueTree.FlatKeys` | src/main.rs:110-123 | Undotted, distinct keys give each key its own leaf. |
| `KeyValueTree.InsertScalars` | src/main.rs:113-121 | After an insertion, every non-object lies at or below the inserted path, or was already there. |
| `KeyValueTree.DivergeNotPrefix` | src/main.rs:113-121 | A path that parts from a key path never runs through it. |
| `KeyValueTree.InsertMeetsNoScalar` | src/main.rs:119-120 | A path that parts from every earlier key path meets no non-object on the way, so `as_object_mut().unwrap()` does not panic. |
| `KeyValueTree.NoScalarOnTheWay` | src/main.rs:119-120 | No proper prefix of a path that parts from every earlier key path holds a non-object. |
| `KeyValueTree.InsertKeepsUnder` | src/main.rs:113-121 | Such an insertion keeps every non-object under one of the key paths seen so far. |
| `KeyValueTree.StepInsert` | src/main.rs:111-122 | A step on an argument with a separator is the insertion of its leaf at its key path, or the conflict panic. |
| `KeyValueTree.StepKeepsUnder` | src/main.rs:110-123 | An argument whose key path parts from all earlier ones is inserted without a panic and keeps the invariant. |
| `KeyValueTree.DistinctPrefixBuilds` | src/main.rs:110-123 | With pairwise parting key paths, every prefix of the arguments builds, with its non-objects under its key paths. |
| `KeyValueTree.DistinctPathsBuild` | src/main.rs:108-125 | Arguments with separators whose key paths pairwise part from each other (none a prefix of another) build without a panic. Distinct keys alone are not enough. |
| `KeyValueTree.DistinctPathsFound` | src/main.rs:108-125 | For such arguments, every argument's leaf is found at its key path. |
| `KeyValueTree.ThroughScalarPanics` | src/main.rs:119-120 | An argument whose key path runs through a stored non-object panics, as `a=1 a.b=2` does. |
| `KeyValueTree.ScalarTypesShape` | src/main.rs:279-288 | For any parser, each key of `test_build_map_bool` holds the leaf of its value. |
| `KeyValueTree.ScalarTypesExample` | src/main.rs:279-294 | `test_build_map_bool`: true, `"abc123"`, `"{"`, 5 and -5.5. |
| `KeyValueTree.CredentialShape` | src/main.rs:268-277 | The two `credential.*` arguments build one `credential` object holding both leaves. |
| `KeyValueTree.CredentialLeaves` | src/main.rs:275-276 | The username and password leaves are strings. |
| `KeyValueTree.CredentialExample` | src/main.rs:268-277 | `test_build_map`: `credential.username` and `credential.password` hold their strings. |
| `Url.Normalized` | src/main.rs:132-138 | The URL sent: unchanged with the `http` prefix, `http://localhost` before a bare `:port`, `http://` before anything else. |
| `Url.NormalizeUrl` | src/main.rs:132-138 | The in-place reassignment gives the normalised URL: unchanged when it starts with `http`; `http://localhost` + url when it starts with `:`; `http://` + url otherwise. |
| `Url.NormalizedShape` | src/main.rs:132-138 | A normalised URL starts with `http` and ends with the URL given. |
| `Url.UnchangedIff` | src/main.rs:133 | A URL is left unchanged exactly when it starts with `http`. |
| `Url.Idempotent` | src/main.rs:132-138 | Normalising twice is normalising once. |
| `Url.BarePortExample` | src/main.rs:134-137 | `:5000` becomes `http://localhost:5000`. |
| `Url.HostExample` | src/main.rs:137 | `example.com` becomes `http://example.com`. |
| `Url.SchemeExample` | src/main.rs:133 | `https://example.com` is unchanged. |
| `Url.HttpHostExample` | src/main.rs:133 | `httpbin.org/get` is unchanged: only the prefix is tested. |
| `Methods.FromName` | src/main.rs:173 | `Method::from_str`: fails exactly on a name that is not a token. Otherwise the method found has exactly that name, and it is an extension method only when no standard method has that name. |
| `Methods.StandardRoundTrip` | src/main.rs:173 | Every standard method is found under its own name. |
| `Methods.ExtensionRoundTrip` | src/main.rs:173 | A token that is no standard name is found as that extension method. |
| `Methods.UpperKeepsToken` | src/main.rs:173 | Upper-casing keeps a name a token exactly when it was one. |
| `Methods.Infer` | src/main.rs:172-180 | An explicit method is upper-cased, and the program panics exactly when the result is not a token; otherwise the method has the upper-cased name, and it is an extension method only when no standard method has that name. Without one, POST exactly when there is a JSON or form body, GET exactly when there is neither. |
| `Methods.InferStandard` | src/main.rs:172-174 | An explicit standard name, in any case, gives that standard method. |
| `Methods.ExplicitIgnoresBody` | src/main.rs:172-174 | An explicit method overrides the body flags. |
| `Methods.CaseInsensitive` | src/main.rs:173 | Lower-casing the flag chooses the same method. |
| `Methods.Examples` | src/main.rs:172-180 | JSON or form gives POST, nothing gives GET, `put` gives PUT, and `GE T` and the empty name panic. |
| `Methods.ExtensionExample` | src/main.rs:173 | `purge` is sent as the extension method `PURGE`. |
| `Headers.FromPairs` | src/main.rs:145-149 | The explicit headers: one per split argument, in order, with its name and value. |
| `Headers.Shortcuts` | src/main.rs:151-165 | The `Authorization` headers of `--bearer`, `--token` and `--user`, in that order: one per option given, all named `Authorization`, with the values `Bearer <bearer>`, `Token <token>` and `Basic <base64 of user>` at their positions. |
| `Headers.CookieHeader` | src/main.rs:167-169 | One `Cookie` header with all cookies joined by `; `, starting with the first cookie, exactly when there are any. |
| `Headers.HasAccept` | src/main.rs:203 | Some header's lower-cased name is `accept`. |
| `Headers.Assembled` | src/main.rs:145-213 | The whole header list in push order; the explicit headers come first, unchanged. |
| `Headers.CountConcat` | src/main.rs:145-169 | Counting headers by name distributes over concatenation. |
| `Headers.HasAcceptConcat` | src/main.rs:203 | A list has an `accept` header exactly when one of its parts does. |
| `Headers.AcceptOnlyFromExplicit` | src/main.rs:145-205 | Adding the shortcuts and the cookie header never changes whether an `accept` header is present. Only an explicit header can suppress the JSON `Accept`. |
| `Headers.Order` | src/main.rs:145-213 | The list is, in order: the explicit headers, the shortcuts, and the cookie header. Then `Accept: application/json` exactly when there is a JSON body and no explicit header is named `accept` in any case. Then `Content-Type` and `Accept: */*` for a form body. |
| `Headers.CountOne` | src/main.rs:145-169 | The count over a single header. |
| `Headers.ShortcutsCount` | src/main.rs:151-165 | Each shortcut given adds exactly one `Authorization` header and no `Cookie` header. |
| `Headers.CountParts` | src/main.rs:145-169 | For a name other than `Accept` and `Content-Type`, the count is the sum over explicit headers, shortcuts and the cookie header. |
| `Headers.AuthorizationNotDeduplicated` | src/main.rs:151-165 | The `Authorization` headers are the explicit ones plus one per shortcut given. None is replaced. |
| `Headers.CookiesJoinedOnce` | src/main.rs:167-169 | All cookies add one `Cookie` header, right after the shortcuts, holding them joined by `; `. |
| `Headers.NoneNamed` | src/main.rs:145-169 | A list with no header of a name counts zero of it. |
| `Headers.BearerAndExplicitKept` | src/main.rs:145-154 | An explicit `Authorization` and a bearer token are both sent, explicit first. |
| `Request.PushShortcuts` | src/main.rs:151-169 | The pushes append the shortcuts, then the cookie header, to the given list. |
| `Request.PushJsonAccept` | src/main.rs:203-205 | `Accept: application/json` is appended unless some header is named `accept` in any case. |
| `Request.FormText` | src/main.rs:209-211 | The form body's text: the URL encoding of the built tree, when both succeed. |
| `Request.AddBodies` | src/main.rs:199-213 | The JSON body, then the form body. Each panic is returned exactly when the steps before it passed; on success the headers gain the JSON `Accept` default (only without an explicit `accept`) and then the two form headers. |
| `Request.EncodeForm` | src/main.rs:209-211 | Succeeds exactly when the form tree builds and URL-encodes, with that text. Otherwise the build's panic, or the encoding failure of a tree that built. |
| `Request.Assemble` | src/main.rs:130-214 | Panics are taken in program order: parameters, headers, method, JSON body, form body, form encoding. Each one is returned exactly when every earlier step passed and its own step fails, with what caused it. Success happens exactly when none occurs. The request then carries the normalised URL, the inferred method, the split parameters in order, the header list of `Headers.Assembled`, the JSON tree, the form text and the file. |
| `Render.Named` | src/main.rs:244-245 | Path components skip empty and `.` segments: each component kept is one of the segments. |
| `Render.FileName` | src/main.rs:244-246 | A file name is never empty, `.` or `..`, and contains no `/`. |
| `Render.IsSuccess` | src/main.rs:229 | `is_success`: a status in 200-299. |
| `Render.ExpectJson` | src/main.rs:230-233 | The `Content-Type` is present and starts with `application/json`; a missing header counts as not JSON. |
| `Render.Decide` | src/main.rs:229-261 | The decision in program order: status test, then save-to-file, then print. Pretty-printing a body that is not JSON panics. |
| `Render.ExitStatus` | src/main.rs:229-261 | Exit status 1 exactly after a failure status, 101 exactly for a panic (`MissingFileName`, `NotJson`), 0 exactly for a printed or saved body. |
| `Render.ExitOneIff` | src/main.rs:229-240 | Exit status 1 exactly when the status is not a success, failures are not ignored, and the pretty-printer does not panic (raw output, no JSON `Content-Type`, or a body that is JSON). |
| `Render.NotJsonIff` | src/main.rs:229-261 | The pretty-printer panics exactly when raw output is off, the `Content-Type` is JSON, the body is not JSON, and the body is printed rather than saved. |
| `Render.StatusBeforeSave` | src/main.rs:229-250 | The status test comes first: on a failure status, neither save-to-file nor the path matters, and the body is printed with exit 1 or the pretty-printer panics. |
| `Render.PrettyIff` | src/main.rs:229-261 | When the body is printed, it is pretty-printed exactly when raw output is off and `Content-Type` starts with `application/json`. |
| `Render.IgnoreStatusPrints` | src/main.rs:229-261 | With failures ignored and no file asked for, every response is printed or the pretty-printer panics. The exit status is 0 exactly when it does not panic. |
| `Render.SaveOnlyWhenAsked` | src/main.rs:242-250 | A file is written only when asked for, only when the status did not stop the program, and under the path's file name. |
| `Render.NamedSnoc` | src/main.rs:244-245 | One more segment adds one component unless it is empty or `.`. |
| `Render.FileNameIsLastSegment` | src/main.rs:244-246 | The file name of `dir/name` is `name`. |
| `Render.TrailingSlashIgnored` | src/main.rs:244-246 | A trailing slash does not change the file name. |
| `Render.RootHasNoFileName` | src/main.rs:244-246 | `/` has no file name, so save-to-file panics for it. |

## Left out

- The `Cli` argument parser and the example help text: command-line parsing belongs to the clap library. `Request.Cli` holds the parsed values.
- `src/middleware.rs` (the verbose logging middleware) and the library's `FollowRedirectsMiddleware` are not part of this model, and neither is the `--no-follow`/`--verbose` wiring (lines 184-190).
- Network I/O, the response body, printing, colouring and file reading and writing. `Render.Decide` takes the status, the `Content-Type`, whether the body parses as JSON and the URL path as inputs and returns what would be done. The panics of `res.text()`, `res.bytes()` and `fs::write` are not modelled.
- Parsing the URL into a `Uri` (line 243) and the panic when that fails: `Render.Decide` receives the path.
- The file body (lines 216-221): its `Content-Length` and guessed `Content-Type` headers are set on the builder, outside the ordered list, and need file system access and `mime_guess`.
- How the client library combines a JSON body and a form body given together: `Request.Req` keeps both.
- `Json.Parser`: `serde_json::from_str` is a parameter of the model. The lemmas stated for any parser assume nothing about it.
- `Json.ScalarParse`: a reference parser only for the scalar literals and strings without escapes. Arrays, objects and escapes are not parsed by it, so with it `[1]` and `{}` are stored as strings, where `serde_json` yields an array and an object. It also accepts numbers out of the range of an `f64` such as `1e400`, which `serde_json` rejects.
- Panic messages: the model's errors (`MalformedParam`, `MalformedHeader`, `InvalidMethod`, `MalformedPair`, `ConflictingKeyPath`) carry the argument that caused the panic, to say which input it was. The program's messages at lines 111, 120, 142, 147 and 173 are fixed `expect` texts or the default `unwrap` message and do not include the argument.
- `Json.Value`: numbers keep their literal text. No floating-point value is modelled.
- `Request.Foreign`: base64 encoding and `serde_urlencoded::to_string` are parameters. Their outputs are not modelled.
- `Methods.FromName`: extension methods are accepted when the name is a token as section 5.6.2 of RFC 9110 defines it. The exact byte table of the `http` crate is not part of this model.
- `Text.Lower`, `Text.Upper`: `to_lowercase` and `to_uppercase` are modelled on ASCII letters only. Other Unicode letters are left unchanged.
- `KeyValueTree.Tree`: empty key segments (`a..b`, `.a`) are accepted and name a key `""`, as `str::split` produces them.
- `KeyValueTree.BuildMap`: the `current` reference into the map is modelled as a stack of frames (parent object, key) over immutable maps. Nothing in the source aliases the map.
