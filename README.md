# ahjin_game edge server, modelled in Dafny

`server.js` is a small Node HTTP service. It does three things:

* it serves the static files of the directory it was started in;
* it answers the chat endpoint `/api/chat`, which sits behind a CORS
  origin gate;
* it proxies each chat message to the SimSimi talk API.

At startup it reads an optional `.env` file, which never overrides
variables already in the environment.

This project models the request/response logic of that file and proves
properties about it. The modules follow the parts of the program:

| module | file | models |
|---|---|---|
| `Wrappers` | wrappers.dfy | `Option` |
| `Strings` | strings.dfy | JavaScript's `trim` (ECMAScript whitespace set), `startsWith`, `indexOf`, `lastIndexOf`, `split` and its inverse `join` |
| `Json` | json.dfy | parsed JSON values, JavaScript truthiness, `\|\|`, `?.`, and `String(v)`, which can throw |
| `DotEnv` | dotenv.dfy | `loadDotEnv`: the line parser on values, and an `Environment` object whose variable map is updated in a loop |
| `ServerConfig` | config.dfy | the startup configuration and the `ALLOWED_ORIGINS` allow-list |
| `Cors` | cors.dfy | `resolveCorsOrigin` |
| `Uri` | uri.dfy | `decodeURIComponent`, including UTF-8 decoding and its failure cases |
| `Paths` | paths.dfy | POSIX `path.resolve` over a root made of path segments |
| `StaticFiles` | static_files.dfy | `safeResolveFile`, `path.extname` and the MIME table |
| `Body` | body.dfy | `readBody`, as a loop over the request's chunks with its size limit |
| `Chat` | chat.dfy | `requestSimsimiReply` and `handleApiChat` |
| `Server` | server.dfy | the request callback: the pure decision `Route`, plus `Dispatch`, which writes a `ServerResponse` object step by step and is proved to produce exactly `Route`'s answer |

Outside interactions are parameters of type function:

* `JSON.parse` is a `Parser` (text to a value or a `SyntaxError`).
* `fetch` is a `Fetcher` (an upstream call to a response or a thrown error).
  The `AbortController` timeout appears as a thrown `AbortError`.
* `fs.stat` is a `Stat` (a path to a failure or a file kind).

The root directory (`process.cwd()`) is modelled as a sequence of valid path
segments, and the path string the server sees is its `Render`.

## Where the code and its description differ

The model follows the code:

* **Picking the reply.** The reply field is the first *truthy* candidate
  among `atext`, `response`, `reply` and `data.atext`, and is trimmed only
  afterwards. So a blank `atext` such as `"   "` hides a good `response`,
  and the result is `empty_reply` (`Chat.BlankFirstCandidateIsEmptyReply`).
* **Body limit units.** The limit counts UTF-16 code units of the decoded
  text, not bytes (`Body.Utf16Length`).
* **The root check is a string-prefix test.** `..` segments are not always
  rejected. `/../<name>` is served whenever `<name>` extends the root
  directory's own name. A sibling directory such as `/srv/app2` of a root
  `/srv/app` passes the check (`StaticFiles.ParentTraversal` and
  `StaticFiles.SiblingOfRootAccepted`).
* **A decoded path without a leading `/`** (say `%2E`, which decodes to `.`)
  is joined as `"." + path`, giving `..`. Because of that, the lemmas about
  safe paths are stated for decoded paths of the form `"/" + rest`.
* **A malformed percent escape.** It makes `decodeURIComponent` throw a
  `URIError` inside the async request callback. Nothing catches it: the
  callback's promise is rejected and no handler for unhandled rejections is
  installed. The request gets no answer at all, not a 500
  (`Server.MalformedUriUnanswered`). Under Node 15 and later the default
  treatment of an unhandled rejection then ends the process.
* **A U+0000 in the path.** `GET /%00` decodes to a path holding U+0000.
  That path passes the root check. `fs.stat` then throws synchronously
  instead of calling back, and the request again gets no answer
  (`Server.NullBytePathUnanswered`).
* **Conversion errors.** `String(x)` of an object with its own `toString`
  throws a `TypeError`. In `requestSimsimiReply` that error is caught as a
  502 `upstream_fetch_failed`. In `handleApiChat` it becomes a 500
  `server_error`.
* **Names for the missing-key failure.** It carries the error text
  `SIMSIMI_API_KEY is missing` with status 500. The required-message check
  answers `message is required`.
* **Set variables and inherited names.** The `.env` loader keeps a variable
  when `process.env[key] != null`. That test also holds for the names
  `process.env` inherits from `Object.prototype`, such as `constructor` and
  `toString`. So a `.env` line setting one of those names is skipped even
  though the environment does not hold it (`DotEnv.IsSet`,
  `DotEnv.ApplyLinesInheritedSkipped`).

## Model

| member | source | states |
|---|---|---|
| Strings.Trim | server.js:37 | the result has no JavaScript whitespace at either end, is no longer than the input, and is empty exactly when the input is all whitespace |
| Strings.IsJsWhitespace | server.js:37 | the characters `trim` removes: the ECMAScript white space and line terminators; used by `Trim`, `TrimIsInfix` and `TrimUnique` |
| Strings.TrimIsInfix | server.js:37 | the trimmed text sits in the input right after its leading whitespace, and what is cut off before and after it is all whitespace |
| Strings.TrimUnique | server.js:37 | whitespace, then a text with no whitespace at its ends, then whitespace, trims to that text |
| Strings.TrimDropsTrailingWhitespace | server.js:35-37 | one more whitespace character at the end does not change the trim |
| Strings.TrimIdempotent | server.js:41-43 | trimming an already trimmed string changes nothing |
| Strings.TrimOfTrimmed | server.js:41-43 | a string with no whitespace at its ends is its own trim |
| Strings.StartsWith | server.js:38 | `s.startsWith(p)`: `p` is a prefix of `s` |
| Strings.StartsWithTransitive | server.js:74 | a prefix of a prefix is a prefix |
| Strings.StartsWithAfterCommon | server.js:74 | prefixing both strings with the same text keeps the prefix relation |
| Strings.StartsWithDropCommon | server.js:74 | removing a common leading text keeps the prefix relation |
| Strings.IndexOf | server.js:39 | `indexOf` gives no position iff the character is absent; otherwise the position holds it and nothing before it does |
| Strings.IndexOfPrefix | server.js:39 | the first occurrence inside a prefix is unaffected by what follows |
| Strings.IndexOfAfter | server.js:39 | in `p + [c] + rest` with `c` not in `p`, the first `c` is right after `p` |
| Strings.LastIndexOf | server.js:249 | `lastIndexOf`: no position iff the character is absent; otherwise the position holds it and nothing after it does |
| Strings.LastIndexOfBefore | server.js:249 | in `p + [c] + rest` with `c` not in `rest`, the last `c` is right after `p` |
| Strings.Split | server.js:15 | `split` gives at least one piece, and no piece contains the separator |
| Strings.JoinSplit | server.js:15 | joining the pieces of a split with the separator gives back the string |
| Strings.SplitJoin | server.js:73 | splitting a join of separator-free pieces gives back the pieces |
| Strings.SplitAppend | server.js:73 | splitting `a + sep + b` splits `a` and `b` separately |
| Strings.SplitAtFirst | server.js:73 | a separator inside `a` ends the first piece before `a`'s first separator |
| Strings.SplitAfterFree | server.js:73 | after a separator-free `a`, the first piece is `a` |
| Strings.SplitNoSeparator | server.js:71 | a string without the separator splits into itself |
| Strings.SplitTwo | server.js:71 | `a + sep + b` without other separators splits into `[a, b]` |
| Strings.Join | server.js:15 | `parts.join(sep)`, the inverse of `Split` by `JoinSplit` and `SplitJoin` |
| Json.Or | server.js:132 | `a \|\| b` is `a` when `a` is truthy and `b` otherwise |
| Json.Truthy | server.js:132 | JavaScript truthiness, on which every `\|\|` and `if (x)` of the handler turns: `undefined`, `null`, `false`, `0` and `""` are falsy; it decides `Or`, `FirstTruthy` and `TalkKeyField` |
| Json.Get | server.js:132 | `v?.key` is the field's value on an object holding the key, and `undefined` in every other case |
| Json.FirstTruthy | server.js:137-142 | a chain of `\|\|` yields the fallback or one of the candidates, and the fallback when no candidate is truthy |
| Json.FirstTruthyPicksFirst | server.js:137-142 | the chain yields the first truthy candidate |
| Json.FirstTruthyCons | server.js:137-142 | the chain is `\|\|` of its head with the chain of the rest |
| Json.NatToDecimal | server.js:144 | the decimal text of a number is non-empty and made of digits |
| Json.DecimalRoundTrip | server.js:144 | reading the decimal text of `n` back yields `n` |
| Json.NumberToString | server.js:144 | `String(n)` is the decimal text of `n`, with a `-` before negative numbers, and denotes `n` |
| Json.ToJsString | server.js:144 | `String(v)` is the string itself for strings, always succeeds for primitives, and throws on an object exactly when it has its own `toString` |
| Json.ElementsToString | server.js:144 | `String()` of an array: its elements joined with `,`, with `null` and `undefined` as empty text; the array case of `ToJsString` |
| Json.ErrorDetails | server.js:164 | `String(err?.message \|\| err)` is the message when it is non-empty, and otherwise the error's name |
| ServerConfig.Setting | server.js:10-12 | `process.env.X \|\| default`: the variable when it is set and non-empty, the default otherwise |
| ServerConfig.TrimNonEmpty | server.js:16-17 | the `trim` then `filter(Boolean)` pipeline keeps exactly the non-empty trimmed pieces, each non-empty and trimmed |
| ServerConfig.ParseAllowList | server.js:14-17 | the allow-list holds exactly the non-empty trimmed comma pieces, none containing a comma |
| ServerConfig.ParseSingleEntry | server.js:14-17 | a single trimmed origin without commas is the whole allow-list |
| ServerConfig.ConfigFromEnv | server.js:10-17 | the configured version and base URL are never empty, and every allow-list entry is non-empty and trimmed |
| ServerConfig.DefaultConfig | server.js:10-17 | with nothing set, the key is empty, the version is `190410`, the base URL is `https://wsapi.simsimi.com`, and the allow-list is `["*"]` |
| ServerConfig.DefaultAllowList | server.js:14-17 | an unset or empty `ALLOWED_ORIGINS` allows every origin (`["*"]`) |
| ServerConfig.Startup | server.js:5-17 | loading `.env` and then reading the configuration; a key or allow-list set in the real environment wins over the file |
| DotEnv.SplitLines | server.js:35 | `split(/\r?\n/)`: one line per `\n` piece; every piece but the last is its line, followed by `\r` exactly when the piece ends in one; the last piece is kept whole |
| DotEnv.ParseLineIgnoresCarriageReturn | server.js:35-37 | a line with a `\r` at its end sets what the line without it sets |
| DotEnv.ApplyLinesSameParse | server.js:36-50 | two lists of lines that parse alike, one for one, load the same environment |
| DotEnv.SplitLinesLoadsSame | server.js:35-50 | splitting on `\r?\n` loads the same environment as splitting on `\n` alone |
| DotEnv.ParseLine | server.js:37-49 | a line is skipped iff, once trimmed, it is empty, is a comment, or has no `=` after its first character; a parsed key is non-empty, trimmed and free of `=` |
| DotEnv.ParseTrimmed | server.js:38-49 | the same, on a line already trimmed |
| DotEnv.ParseTrimmedSetting | server.js:39-49 | the key is the trimmed text before the first `=`, and the value is the unquoted trimmed text after it |
| DotEnv.UnquoteQuoted | server.js:44-48 | a value wrapped in matching double or single quotes loses exactly those quotes |
| DotEnv.UnquoteUnquoted | server.js:44-48 | any other value is kept as it is |
| DotEnv.Unquote | server.js:44-48 | `value.slice(1, -1)` when the value starts and ends with the same quote; specified by `UnquoteQuoted` and `UnquoteUnquoted` |
| DotEnv.ParseQuotedLine | server.js:39-48 | `KEY="x"` and `KEY='x'` set `KEY` to `x` |
| DotEnv.IsSet | server.js:42 | `process.env[key] != null`: the key is in the environment or is one of the names `process.env` inherits from `Object.prototype` (`constructor`, `toString`, `__proto__`, ...) |
| DotEnv.ApplySetting | server.js:42-50 | a parsed setting is stored unless its key reads as set; one loop step once the line is parsed, specified through `ApplyLinesKeepsExisting`, `ApplyLinesFirstWins`, `ApplyLinesInheritedSkipped` and `ApplyLinesKeys` |
| DotEnv.ApplyLine | server.js:37-50 | one iteration of the loop: parse the line, then `ApplySetting` |
| DotEnv.ApplyLines | server.js:36-51 | the loop over the lines, in order; the specification `LoadDotEnv` is proved against, characterised by `ApplyLinesFirstWins` and `ApplyLinesKeys` |
| DotEnv.FirstSetting | server.js:36-50 | the value of the first line that sets a key, the reference `ApplyLinesFirstWins` compares the loader with |
| DotEnv.ApplyLinesStep | server.js:36-50 | processing the lines from `i` is processing line `i` and then the rest |
| DotEnv.ApplyLinesKeepsExisting | server.js:42 | a variable already in the environment is never overwritten |
| DotEnv.ApplyLinesInheritedSkipped | server.js:42 | a line setting an inherited name such as `constructor` is skipped, so that name is never added |
| DotEnv.ApplyLinesFirstWins | server.js:36-50 | a variable that does not read as set gets the value of the first line that sets it, and is set iff some line sets it |
| DotEnv.ApplyLinesKeys | server.js:36-50 | after loading, a variable is present iff it was before or it is not an inherited name and some line sets it |
| DotEnv.SkippedLinesChangeNothing | server.js:38-40 | blank, comment and `=`-less lines leave the environment as it is |
| DotEnv.LoadedKeepsExisting | server.js:32-52 | loading a file, or finding none, keeps every existing variable |
| DotEnv.Loaded | server.js:32-52 | `loadDotEnv` on the file's content: nothing without a file, otherwise `ApplyLines` of its `\r?\n` lines; `LoadDotEnv` is proved equal to it |
| DotEnv.Environment.constructor | server.js:5 | the environment starts as the given variables |
| DotEnv.Environment.SetUnlessPresent | server.js:42-50 | a setting is stored unless there is none or its key reads as set (present, or an inherited name), and nothing else changes |
| DotEnv.Environment.ApplyToEnvironment | server.js:37-50 | one loop iteration updates the variables as the line's parse says |
| DotEnv.Environment.LoadDotEnv | server.js:32-52 | the loop leaves the variables as the line-by-line specification does, and keeps every variable that was set |
| Cors.ResolveCorsOrigin | server.js:63-68 | the answer is `""` iff an origin is given, the list has no `*`, and the origin is not listed; otherwise it is `*`, or the origin itself when that is listed |
| Cors.WildcardAllowsEveryOrigin | server.js:65 | with `*` in the list every origin gets `*` |
| Cors.ListedOriginsOnly | server.js:66-67 | without `*`, a given origin is echoed iff it is listed, and refused otherwise |
| Uri.DecodeUriComponent | server.js:71 | text without `%` decodes to itself; a decoded text is never longer |
| Uri.HexValue | server.js:71 | the value of a hexadecimal digit of either case, below 16 |
| Uri.EscapedByte | server.js:71 | the byte `%XX` denotes, below 256, present only when two hex digits follow the `%` |
| Uri.ContinuationBits | server.js:71 | the payload bits of `count` escaped continuation bytes `10xxxxxx`, each below 64 |
| Uri.SequenceLength | server.js:71 | the UTF-8 sequence length the leading byte announces, 1 to 4, or 5 for an invalid leading byte |
| Uri.MultiByteScalar | server.js:71 | a multi-byte UTF-8 sequence's code point, rejected when overlong, a surrogate or above U+10FFFF |
| Uri.DecodeEscape | server.js:71 | the character one escape sequence denotes and where it ends, past the `%` and within the text; the step `DecodeUriComponent`, `DecodeAppend` and `AsciiEscape` rest on |
| Uri.MalformedEscapeFails | server.js:71 | a `%` not followed by two hex digits makes decoding fail, wherever it stands after text that decodes |
| Uri.DecodeAppend | server.js:71 | decoding text that decodes, followed by more text, is decoding the two parts and joining the results; a failure of the second part is a failure of the whole |
| Uri.AsciiEscape | server.js:71 | `%hh` below `0x80` decodes to the character with that code |
| Paths.Normalize | server.js:73 | resolving segments onto valid directories gives valid directories |
| Paths.NormalizeStep | server.js:73 | one segment of `path.resolve`: `.` and the empty segment do nothing, `..` drops the last directory, anything else is appended |
| Paths.NormalizeAppend | server.js:73 | resolving `a + b` is resolving `a` and then `b` |
| Paths.NormalizePlain | server.js:73 | plain segments are appended as they are |
| Paths.NormalizeExtends | server.js:73 | without `..` nothing already resolved is removed |
| Paths.NormalizeUpThen | server.js:73 | `./..` then plain segments replace the last directory with those segments |
| Paths.Render | server.js:73 | a resolved path is absolute |
| Paths.RenderChild | server.js:73 | a child's path is the parent's path, `/` and the name |
| Paths.SplitRender | server.js:73 | splitting a rendered path on `/` gives an empty piece followed by the segments |
| Paths.ResolveUnderRoot | server.js:73 | `path.resolve(ROOT, p)` for a relative `p` is the rendering of `p`'s segments resolved onto the root's |
| Paths.PosixResolve | server.js:73 | `path.resolve(ROOT, p)` for a relative `p`; `ResolveUnderRoot` gives it as the rendering of the normalised segments |
| Paths.RenderExtends | server.js:74 | a descendant's path starts with its ancestor's path |
| Paths.RenderAncestorShorter | server.js:74 | a proper ancestor's path is shorter than, and does not start with, the root's path |
| Paths.RenderSiblingIff | server.js:74 | the path of sibling `b` starts with that of sibling `a` iff the name `b` starts with `a` |
| StaticFiles.PathPart | server.js:71 | `split("?")[0]` contains no `?`, and is the whole URL when it has none |
| StaticFiles.SafeResolveFile | server.js:70-76 | decoding fails iff the URI is malformed; a resolved path always starts with the root's path |
| StaticFiles.RelativeTarget | server.js:72-73 | `"." + relativePath`, with `/` standing for `/index.html`; its resolution is stated by `TargetSegments` and `RootServesIndex` |
| StaticFiles.TargetSegments | server.js:71-73 | the resolved target is made of valid segments |
| StaticFiles.SafeResolveFileTarget | server.js:70-76 | the result is the resolved target when it starts with the root's path, and a refusal otherwise |
| StaticFiles.QueryIgnored | server.js:71 | a query string does not change the resolution |
| StaticFiles.IndexTargetSegments | server.js:72-73 | `/` targets `index.html` in the root |
| StaticFiles.RootServesIndex | server.js:72-73 | a URL whose path part is `/` resolves to the root's `index.html` |
| StaticFiles.NoParentTarget | server.js:72-74 | a path with no `..` segment targets the root or something under it |
| StaticFiles.NoParentSegmentAccepted | server.js:70-76 | a decoded `/rest` with no `..` segment is resolved, to a path under the root |
| StaticFiles.AncestorOfRootRejected | server.js:74 | a URL that resolves to a proper ancestor of the root is refused |
| StaticFiles.ParentOfRootRejected | server.js:70-75 | `/..` is refused |
| StaticFiles.ParentTraversal | server.js:70-76 | `/../name` is accepted, as the sibling `name` of the root, iff `name` starts with the root's own name; otherwise it is refused |
| StaticFiles.SiblingRendering | server.js:74 | a sibling directory whose name extends the root's passes the string-prefix check without being under the root |
| StaticFiles.SiblingOfRootAccepted | server.js:70-76 | such a sibling's files are resolved and would be served, although they are outside the root |
| StaticFiles.Basename | server.js:249 | the base name contains no `/` |
| StaticFiles.ExtOfBasename | server.js:249 | the extension is empty, or a proper suffix of the base name that starts with its only `.` |
| StaticFiles.ExtnameOfFile | server.js:249 | `path.extname` of `dir/stem.ext` is `.ext` |
| StaticFiles.Extname | server.js:249 | `path.extname`: the extension of the base name; specified by `ExtOfBasename` and `ExtnameOfFile` |
| StaticFiles.AsciiLowerChar | server.js:249 | upper-case ASCII letters become lower-case, and nothing else changes |
| StaticFiles.AsciiLower | server.js:249 | lower-casing keeps the length and maps every character |
| StaticFiles.AsciiLowerDot | server.js:249 | lower-casing keeps a leading `.` |
| StaticFiles.AsciiLowerIdempotent | server.js:249 | lower-casing twice is lower-casing once |
| StaticFiles.AsciiLowerKeepsPunctuation | server.js:249 | lower-casing introduces no `.` or `/` |
| StaticFiles.ContentType | server.js:249-250 | the content type is `application/octet-stream` iff the lower-cased extension is not in the MIME table |
| StaticFiles.MimeType | server.js:19-30 | the `MIME` table: the ten extensions and their types, keyed in lower case; `ContentType` falls back to `application/octet-stream` off it |
| StaticFiles.ContentTypeIgnoresCase | server.js:249-250 | the content type does not depend on the extension's case |
| StaticFiles.IndexIsHtml | server.js:249-250 | `index.html` is served as `text/html; charset=utf-8` |
| Body.Utf16Length | server.js:84 | `raw.length` counts each character once or twice |
| Body.Concat | server.js:83 | `raw += chunk` over the chunks; specified by `ConcatAppend` and `ConcatPrefixLength` |
| Body.ReadBodySpec | server.js:78-92 | how `readBody` settles, judged on the whole stream; `ReadBody` is proved equal to it, and `ReadBodyCompletes` and `TooLargeWins` characterise it |
| Body.Utf16LengthAppend | server.js:83-84 | the length of `raw + chunk` is the sum of the lengths |
| Body.ConcatAppend | server.js:83 | collecting two runs of chunks concatenates their texts |
| Body.ConcatPrefixLength | server.js:82-87 | the text collected so far is never longer than the whole body |
| Body.ReadBodyCompletes | server.js:78-92 | the body is delivered iff the stream ends normally within the limit, and it is then all the chunks' text |
| Body.TooLargeWins | server.js:84-86 | a body over the limit is rejected with `body_too_large` whether or not the stream later fails |
| Body.ReadBody | server.js:78-92 | the loop settles as the whole-stream specification does; it stops at the first chunk that takes the text over the limit, and reads everything otherwise |
| Chat.OutboundPayload | server.js:103-107 | the upstream payload has `utext`, and `lang` defaulting to `ko`; it has `talkKey` exactly when one was given |
| Chat.IsSuccess | server.js:128 | `upstreamRes.ok`: a status from 200 to 299 |
| Chat.Endpoint | server.js:102 | `${base}/${version}/talk`; `RequestSimsimiReply` and `UpstreamCalledIff` state that the one upstream call goes there |
| Chat.ParseUpstreamBody | server.js:120-126 | empty text is `{}`, parsable text its value, and unparsable text `{raw: text}` |
| Chat.ReplyField | server.js:137-142 | the reply field is `""` or one of the four candidates, and it is truthy iff some candidate is |
| Chat.ReplyCandidates | server.js:137-141 | `atext`, `response`, `reply`, `data.atext`, in that order; `ReplyFieldIsFirstTruthy` picks from them |
| Chat.ReplyFieldIsFirstTruthy | server.js:137-142 | the reply field is the first truthy candidate, in the order `atext`, `response`, `reply`, `data.atext` |
| Chat.TalkKeyField | server.js:157 | the continuation token is `talkKey` if truthy, else `id` if truthy, else `null` |
| Chat.TransportFailure | server.js:159-165 | a thrown error is a 502: `upstream_timeout` iff it is an `AbortError`, else `upstream_fetch_failed`, with the error's message as details |
| Chat.InterpretResponse | server.js:120-158 | a success carries a non-empty trimmed reply; a failure never carries a 2xx status |
| Chat.InterpretOkIff | server.js:137-158 | success iff the upstream status is 2xx and the first truthy candidate converts to a string that is not blank; the reply is then that string trimmed, with the token field; a 2xx without such a reply is the conversion error when `String()` throws, and otherwise a 502 `empty_reply` with the parsed body |
| Chat.UpstreamErrorPassedOn | server.js:128-135 | a non-2xx upstream answer passes on its status, `message \|\| msg \|\| "simsimi_upstream_error"` and the parsed body |
| Chat.BlankFirstCandidateIsEmptyReply | server.js:137-151 | a blank `atext` gives `empty_reply` with status 502, whatever the other fields hold |
| Chat.ReplyWithTalkKey | server.js:137-158 | `{atext, talkKey}` with a trimmed reply gives exactly that reply and token |
| Chat.RequestSimsimiReply | server.js:94-169 | no key means no upstream call and a 500 `SIMSIMI_API_KEY is missing`; otherwise exactly one call to `<base>/<version>/talk` with the key and the payload; every result matches the success and failure properties above |
| Chat.TimeoutIsUpstreamTimeout | server.js:159-165 | an aborted call is reported as `upstream_timeout` with status 502 |
| Chat.RequestSimsimiReplyOutcome | server.js:109-165 | with a key, a thrown error is `TransportFailure` of it, and an upstream answer is `InterpretResponse` of its status and text |
| Chat.FetchErrorIsFetchFailed | server.js:159-165 | any error other than `AbortError` is a 502 `upstream_fetch_failed` with the error's message as details |
| Chat.ChatRequestOf | server.js:174-177 | message, language and token come out trimmed; a falsy `talkKey` gives the empty token |
| Chat.MessageText | server.js:175 | `String(body?.message \|\| "")`, None where `String()` throws; its values are stated by `ChatRequestMessage` and `ChatRequestMessageDefault` |
| Chat.LangText | server.js:176 | `String(body?.lang \|\| "ko")`, None where `String()` throws; its values are stated by `ChatRequestLang` and `ChatRequestLangDefault` |
| Chat.TalkKeyText | server.js:177 | `body?.talkKey ? String(body.talkKey) : ""`, None where `String()` throws; its values are stated by `ChatRequestOf` and `ChatRequestTalkKey` |
| Chat.AssembleRequest | server.js:175-177 | the request exists iff all three conversions succeed, and then holds their trimmed texts |
| Chat.ChatRequestMessage | server.js:175 | a string `message` becomes its trim |
| Chat.ChatRequestMessageDefault | server.js:175 | a falsy `message` becomes `""` |
| Chat.ChatRequestLang | server.js:176 | a non-empty string `lang` becomes its trim |
| Chat.ChatRequestLangDefault | server.js:176 | a falsy `lang` becomes `ko` |
| Chat.ChatRequestTalkKey | server.js:177 | a non-empty string `talkKey` becomes its trim |
| Chat.ChatRequestConverts | server.js:175-177 | when each field is a string or falsy, no conversion throws |
| Chat.ReplyFor | server.js:184-194 | a success is a 200, and a failure keeps its own non-zero status |
| Chat.ServerError | server.js:195-199 | the catch-all answer: 500 with `server_error` and `String(err?.message \|\| err)`; used by `ParseFailureIsServerError`, `ConversionErrorIsServerError` and `OversizeBodyIsServerError` |
| Chat.ReplyForPayload | server.js:184-194 | a success sends 200 with `{reply, talkKey}`; a failure sends `statusCode \|\| 502` with exactly `error \|\| "chat_failed"` and `details \|\| null` |
| Chat.ReplyForStatus | server.js:184-194 | the reply status is 2xx iff the proxy call succeeded |
| Chat.HandleApiChat | server.js:171-201 | a rejected body read is a 500 `server_error` with no upstream call; an upstream call is made only with a key and a complete body, to the configured endpoint |
| Chat.PreparedRequest | server.js:173-177 | the request the handler prepares from the body, None when it answers before the message check |
| Chat.HandlerRelaysResult | server.js:183-194 | a prepared non-blank request goes to the proxy, and the answer is `ReplyFor` of the proxy's result, with the proxy's upstream call |
| Chat.ConversionErrorIsServerError | server.js:175-199 | a field whose `String()` throws is answered 500 `server_error` with the conversion error, and no upstream call |
| Chat.MissingKeyRelayed | server.js:95-189 | without a key a non-blank request is answered 500 `{error: "SIMSIMI_API_KEY is missing", details: null}`, and no upstream call |
| Chat.UpstreamCalledIff | server.js:179-183 | the upstream is called iff the body yields a request with a non-empty message and the key is set, and the call carries that request |
| Chat.BlankMessageRejected | server.js:179-181 | an empty message is answered 400 `message is required` with no upstream call |
| Chat.EmptyObjectHasNoMessage | server.js:174-175 | the empty body `{}` yields an empty message |
| Chat.EmptyObjectPrepared | server.js:173-177 | an empty body, or one that parses to `{}`, is prepared from the fields of `{}` |
| Chat.EmptyObjectBodyRejected | server.js:173-181 | an empty body, or one that parses to `{}`, is answered 400 `message is required` |
| Chat.ParseFailureIsServerError | server.js:173-199 | a non-empty body that `JSON.parse` rejects is a 500 `server_error` with the parse error, and no upstream call |
| Chat.BlankParsedMessageRejected | server.js:173-181 | a body that parses to an object whose `message` is a blank string, with string or falsy `lang` and `talkKey`, is a 400 `message is required` with no upstream call |
| Chat.OversizeBodyIsServerError | server.js:195-199 | a body over the limit is answered 500 with `server_error` and `body_too_large` |
| Chat.HandlerSuccessIff | server.js:184-194 | the handler's answer is 2xx iff the upstream was called and the proxy reported success |
| Server.JsonResponse | server.js:54-61 | `sendJson` keeps the headers already set, adds the JSON content type and sends the payload with the status |
| Server.ErrorPayload | server.js:205 | the error body `{error: kind}` |
| Server.Reject | server.js:204-235 | a `sendJson` error answer that reads no body and calls no upstream |
| Server.CorsHeaders | server.js:215-218 | the four CORS headers with the resolved origin; `ChatAnswersCarryCors` states that every chat answer past the gate carries them |
| Server.IsChatUrl | server.js:209 | `req.url.startsWith("/api/chat")`, a plain prefix test; `ChatUrlPathPart` states that such a URL never has the path part `/` |
| Server.StaticRoute | server.js:237-261 | the static-file steps as a decision: malformed URI and a throwing `stat` unanswered, 403 outside the root, 404 for a failed `stat` or non-file, the file otherwise; `ServeStatic` is proved equal to it |
| Server.Route | server.js:203-262 | the request callback as a decision, the specification `Dispatch` is proved equal to; characterised by the `Server` lemmas below |
| Server.NodeStat | server.js:243 | what is known of Node's `fs.stat` whatever the disk holds: a path holding U+0000 throws |
| Server.ServerResponse.constructor | server.js:203 | a fresh response: status 200, no headers, no body, not finished |
| Server.ServerResponse.SetHeader | server.js:215-218 | `setHeader` sets one header and changes nothing else |
| Server.ServerResponse.WriteHead | server.js:251 | `writeHead` sets the status and merges in its headers |
| Server.ServerResponse.End | server.js:254 | `end` finishes the response with the given body |
| Server.ServerResponse.SendJson | server.js:54-61 | the finished response is the JSON answer over the headers set before |
| Server.ServeStatic | server.js:237-261 | the static-file steps finish the response iff the static route answers, and then with that answer |
| Server.SendFile | server.js:249-257 | the file answer is a 200 with the extension's content type added to the headers, and the contents unless the request is a HEAD |
| Server.Dispatch | server.js:203-262 | the callback finishes the response iff `Route` answers, and then with `Route`'s response, body-read flag and upstream call |
| Server.InvalidRequestRejected | server.js:204-207 | a missing method or URL is answered 400 `invalid_request` |
| Server.OriginGate | server.js:209-214 | a chat URL is refused with 403 `origin_not_allowed` iff an origin is given that is not allowed |
| Server.ChatAnswersCarryCors | server.js:215-218 | every answer from the chat endpoint past the gate carries all four CORS headers |
| Server.PreflightAnswered | server.js:220-224 | an accepted `OPTIONS` to the chat endpoint is a 204 with the CORS headers and no body |
| Server.ChatPostHandled | server.js:227-230 | an accepted `POST` to the chat endpoint is the chat handler's answer with the CORS headers |
| Server.AcceptedOriginNotRefused | server.js:209-218 | an accepted origin never gets the 403 `origin_not_allowed` |
| Server.BodyReadOnlyForChatPost | server.js:203-230 | the body is read iff the request is an accepted `POST` to the chat endpoint, and the upstream is called only then and with a key |
| Server.StaticRouteReadsNothing | server.js:237-257 | a static-file answer neither reads the body nor calls the upstream |
| Server.OtherMethodsNotAllowed | server.js:232-235 | any method but GET and HEAD, outside the chat handler's cases, is a 405 without reading the body |
| Server.RouteOfFileRequest | server.js:209-237 | past the origin gate, GET and HEAD get the static-file answer |
| Server.OutsidePathForbidden | server.js:237-241 | a path resolved outside the root is a 403 `forbidden_path` |
| Server.MalformedUriUnanswered | server.js:237 | a malformed escape in the path leaves the request unanswered with a `URIError` |
| Server.FileServed | server.js:243-257 | a regular file is a 200 with its content type, and its contents for GET but not for HEAD |
| Server.MissingFileNotFound | server.js:243-247 | a `stat` that reports an error to its callback, or finds a non-file, is a 404 `not_found` |
| Server.NullBytePathUnanswered | server.js:243 | with Node's `fs.stat`, a resolved path holding U+0000 leaves the request unanswered with the error `fs.stat` throws |
| Server.StaticKeepsHeaders | server.js:249-251 | a static answer keeps every header set earlier except the content type |
| Server.StaticHeadMatchesGet | server.js:251-256 | for a file request, HEAD has GET's status and headers, and either no body or GET's body |
| Server.HeadMatchesGet | server.js:251-256 | the same holds for the whole dispatcher |
| Server.ParentTraversalForbidden | server.js:237-241 | `GET /../name` is a 403 `forbidden_path` when `name` does not start with the root's own name |
| Server.IndexServedAsHtml | server.js:237-258 | `GET /` serves the root's `index.html` as HTML when it is a regular file |
| Server.ChatUrlPathPart | server.js:209 | a chat URL never has the path part `/`, so `/` is never a chat request |
| Server.EmptyChatBodyRejected | server.js:171-181 | an accepted chat `POST` with an empty body, or one that parses to `{}`, is a 400 `message is required` with no upstream call |

## Left out

- Sockets, the listener and console logging (lines 264-268) are not modelled. A request is a value: method, URL, origin, body chunks, and how the stream ends.
- `PORT` and `SIMSIMI_TIMEOUT_MS` are converted with `Number(...)`; neither is modelled. The timeout appears only as the `AbortError` the fetcher may report.
- `JSON.parse`, `fetch`, `upstreamRes.text()` and `fs.stat` are parameters, so their behaviour is not modelled. A failure of `text()` is folded into the fetcher's thrown error. Of `fs.stat`, only the synchronous throw for a path holding U+0000 is pinned down (`Server.NodeStat`); a stat parameter may also throw for other paths.
- Server.MalformedUriUnanswered: `Unanswered` records only that this request gets no response. Ending the whole process on the unhandled rejection (the default from Node 15 on), which drops every other connection, is not modelled. The same holds for `Server.NullBytePathUnanswered`.
- Server.MissingFileNotFound: it requires a `stat` that calls back. A `stat` that throws (a path holding U+0000) is the case of `Server.NullBytePathUnanswered`.
- Server.NodeStat: the thrown error's message is Node's text up to the path; the ` Received '<path>'` tail Node adds is left off, since the error is never sent.
- DotEnv.IsSet: the inherited names are the properties of a plain `Object.prototype`. A program that adds properties to `Object.prototype` is not modelled.
- `JSON.stringify`, and the `Content-Length` header `sendJson` adds, are not modelled. The body is kept as a JSON value.
- JSON numbers are integers here; floating point is not modelled.
- Json.NumberToString: the digits are written out for every integer. JavaScript's `String(n)` switches to exponent form from 1e21 on (`"1e+21"`); that case is not modelled.
- A `string` is a sequence of code points. Lone surrogates and the UTF-16 layout of strings are not modelled beyond `Body.Utf16Length`.
- A JSON object is a map, so key order is not modelled.
- StaticFiles.AsciiLower: ASCII letters only are lower-cased. The MIME keys are ASCII, so the lookup result is the same as with full Unicode lower-casing.
- Streaming a file's contents, and the `read_failed` 500 sent when that stream fails (lines 258-260), are not modelled. A GET answer names the file whose contents would follow.
- Body.ReadBody: the events after `req.destroy()` are not modelled: once the promise has settled, later events cannot change the result.
- Chat.OversizeBodyIsServerError: `req.destroy()` (line 86) closes the socket, so the 500 it proves is written to a connection that is already gone. The model records the answer the handler writes, not its delivery.
- Json.ErrorDetails: `String(err)` for an error with an empty message is taken to be the error's name; thrown values that are not errors are not modelled.
- Json.ToJsString: `undefined` and `null` elements of an array convert to empty text, as `Array.prototype.join` does. The conversion of objects inside arrays follows the same `toString` rule.
- The timer created and cleared around the upstream call (lines 99-100 and 166-168) has no observable effect in the model.
- The archived client files under `archive/` are not part of this model.
