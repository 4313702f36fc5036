# node-di-ioc, modelled in Dafny

node-di-ioc is a small dependency-injection library for Node.js. It has two parts.

- **The parameter-name tokenizer** (`lib/tokenizer.js`). `extractParameterNames` reads a function's source text from just after its first `(`. It splits on `,`, stops at the first `)` outside comments, and skips `//…\n` and `/*…*/` comments. It refuses default values, rest parameters and destructuring (`=`, `...`, `{`, `}`, `[`, `]`) wherever it checks for them. Each iteration of its loop checks for them first, then runs the line-comment pass and the block-comment pass once each, each pass opening a comment before closing one. So no position inside a comment is checked, and neither is the position a pass lands on when it closes a comment. Unless that character is `,` or `)`, it is kept as part of a name: `(a/**/=1)` yields the name `a=1`. No comment opens there either, except `/*` right after the line feed that ends a line comment (the block-comment pass runs after the line-comment pass). So `//` after that line feed, and `//` or `/*` right after `*/`, open no comment: `(a//`, line feed, `//b)` yields the name `a//b`. It returns one of three things:
  - the parameter names;
  - a failure with a message;
  - `null` when the text ends before a closing `)`.
- **The registry, resolver and detour engine** (`lib/di-ioc.js`). The module keeps one container per namespace.
  - `di` registers producer functions under names. Each producer whose parameter list names something is wrapped in a *detour*. When called, a detour resolves each of its parameter names in the container and falls back to the caller's argument at the same position (`??`).
  - `resolve` invokes a producer. For a singleton it invokes the producer only while the cached `instance` is `null`.
  - `ioc` replaces `obj[funcName]` by a *takeover*. A takeover detours every function argument, then calls the original.

The project has two modules:

- **`Tokenizer`** (`tokenizer.dfy`). It gives a reference definition of one iteration of the scan loop (`ScanStep`), of the whole scan (`Run`) and of the function (`Extract`).
  - It also has the imperative scan as the source writes it. The `Scanner` class is the mutable `tokenizer` record, driven by the `ExtractParameterNames` loop. The scan is proved equal to `Extract`.
  - The properties of `Extract` are proved as lemmas.
- **`DiIoc`** (`di_ioc.dfy`). It models `di`, `ioc`, `createDetourFunction` and `resolve`, and calling a detour and calling a takeover. These are methods over classes:
  - `Registry` is the module-level `namespaces` map.
  - `Container` and `Dependency` are the `{func, singleton, instance}` records.
  - `Target` is the object whose property `ioc` overwrites.

  Each method is proved against a function over values (`DetourOf`, `Resolved`, `Registering`), and those functions carry the lemmas.

The bodies of the program's own functions are not visible. Calling one goes through an `Oracle`, which logs the call and yields either a fresh instance per call or a fixed value. That is enough to contrast singleton and non-singleton resolution.

Thrown errors are `Failure`/`Some` outcomes of type `Error`. Besides the errors the source builds itself, this covers two TypeErrors:

- reading `.result` on the tokenizer's `null`;
- calling a registered `func` that is not a function.

The TypeErrors raised by a `null` or `undefined` item or object are not modelled (see "Left out").

## Model

| member | source | states |
|---|---|---|
| Tokenizer.IndexOf | lib/tokenizer.js:27 | `indexOf`: -1 exactly when the character is absent, otherwise the position of its first occurrence |
| Tokenizer.StartIndex | lib/tokenizer.js:27 | the scan starts one past the first `(`, or at 0 when the text has none |
| Tokenizer.LeadingWhitespaceIsMaximal | lib/tokenizer.js:47 | the whitespace `trim` strips at the front is all whitespace and is followed by a non-whitespace character or the end |
| Tokenizer.TrailingWhitespaceIsMaximal | lib/tokenizer.js:47 | the same at the back |
| Tokenizer.TrimTrims | lib/tokenizer.js:47 | `trim` yields an empty string or one that starts and ends with non-whitespace; it adds no characters; it is empty exactly when the input is all whitespace |
| Tokenizer.FirstToken | lib/tokenizer.js:123-137 | `nextToken` with callbacks that always answer: a result only when applicable, and only a listed token that starts at the index |
| Tokenizer.FirstTokenIsFirst | lib/tokenizer.js:128-134 | the result is the first token in array order that matches; there is no result exactly when the call is not applicable or no token matches |
| Tokenizer.NextToken | lib/tokenizer.js:123-137 | the `for` loop over the token array returns the first matching token, as `FirstToken` defines it |
| Tokenizer.SingleLineComments | lib/tokenizer.js:87-103 | the line-comment pass only moves the index forward, stays within the text, and leaves the buffer, the names and the block-comment flag alone |
| Tokenizer.MultiLineComments | lib/tokenizer.js:105-121 | the block-comment pass only moves the index forward, stays within the text, and leaves the buffer, the names and the line-comment flag alone |
| Tokenizer.ScanStep | lib/tokenizer.js:29-72 | every iteration either returns a record (never `null`) or strictly increases the index, to at most one past the end |
| Tokenizer.StepKeepsWellFormed | lib/tokenizer.js:41-69 | one iteration keeps every collected name well formed and keeps `,` and `)` out of the buffer; a successful return carries only well-formed names |
| Tokenizer.RunNamesWellFormed | lib/tokenizer.js:29-72 | from a well-formed state, every name of a successful scan is non-empty, trimmed, and free of `,` and `)` |
| Tokenizer.ExtractedNamesWellFormed | lib/tokenizer.js:13-75 | every name `extractParameterNames` returns is non-empty, trimmed, and free of `,` and `)` |
| Tokenizer.RunKeepsCollectedNames | lib/tokenizer.js:49 | names already collected stay in front of the result: names are only appended |
| Tokenizer.RunParsedNeedsClose | lib/tokenizer.js:62-63 | success is returned only when a `)` lies ahead in the text |
| Tokenizer.SplitAfterPlain | lib/tokenizer.js:41-60 | for the reference splitter (`split(',')`): text without `,` joins the first piece of what follows it |
| Tokenizer.SplitAtSeparator | lib/tokenizer.js:41-60 | text without `,`, then `,`: that text is the first piece and the rest splits on its own |
| Tokenizer.SplitPlain | lib/tokenizer.js:41-60 | text without `,` is a single piece |
| Tokenizer.NonEmptyTrimmedAppend | lib/tokenizer.js:47-50 | trimming the pieces and dropping the empty ones distributes over concatenation |
| Tokenizer.FlushedPiece | lib/tokenizer.js:47-52 | the separator callback pushes exactly the trimmed buffer, unless it is empty |
| Tokenizer.ClosingPiece | lib/tokenizer.js:47-63 | at `)`, the names returned are those collected plus the last piece of the buffer |
| Tokenizer.SeparatorPiece | lib/tokenizer.js:47-60 | at `,`, the buffer becomes the next piece of the result |
| Tokenizer.CommaSeparatedRun | lib/tokenizer.js:29-72 | outside comments, up to a `)` with only separators and ordinary characters before it, the result is the names collected so far followed by the pieces between separators, trimmed and non-empty, in source order |
| Tokenizer.ParameterListNames | lib/tokenizer.js:13-75 | a parameter list in which every character before its first `)` is `,` or none of `= . { } [ ] /` (so no comment, no unsupported syntax and no lone `.` or `/`) yields exactly `text.split(',')` of that list, each piece trimmed and empty pieces dropped, in source order |
| Tokenizer.RunRejectionMessage | lib/tokenizer.js:31-34 | a failure inside the scan carries `Unsupported parameter names syntax ` followed by one of `= ... { } [ ]` |
| Tokenizer.ExtractRejectionMessage | lib/tokenizer.js:13-75 | every failure is `Not a function` or an unsupported-syntax message |
| Tokenizer.UnsupportedSyntaxRejected | lib/tokenizer.js:31-34 | outside comments, a position where an unsupported token starts ends the scan with the message for the first such token in list order |
| Tokenizer.NoUnsupportedAt | lib/tokenizer.js:77-85 | a character that begins no unsupported token passes the fast-fail check |
| Tokenizer.CommentsAreSkipped | lib/tokenizer.js:36-69 | an iteration that ends inside a comment appends nothing and pushes no name, whatever the character (a separator, `)` or an unsupported token included) |
| Tokenizer.OrdinaryCharacter | lib/tokenizer.js:66-71 | outside comments, an ordinary character is appended to the buffer and the index moves on by one |
| Tokenizer.SeparatorCharacter | lib/tokenizer.js:41-60 | outside comments, `,` pushes the trimmed buffer when it is non-empty, clears it, and moves past the separator |
| Tokenizer.CloseCharacter | lib/tokenizer.js:41-63 | outside comments, `)` returns success with the names collected so far, plus the trimmed buffer when it is non-empty |
| Tokenizer.BlockCommentBody | lib/tokenizer.js:114-120 | inside a block comment the scan continues from just after the first `*/`, with nothing collected from the comment's text |
| Tokenizer.BlockCommentSkipped | lib/tokenizer.js:105-121 | a `/*…*/` comment outside other comments contributes nothing to the result |
| Tokenizer.BlockCommentReachesEnd | lib/tokenizer.js:105-121 | inside a block comment every position before the first `*/` is skipped, unread |
| Tokenizer.BlockCommentRunsToEnd | lib/tokenizer.js:105-121 | inside a block comment every position before the first `*/` is skipped, unread; the step that reaches it closes the comment and appends the character after it, unchecked, unless it is `,` or `)` |
| Tokenizer.BlockCommentOpens | lib/tokenizer.js:105-121 | `/*` outside comments opens a block comment, and the character right after it is skipped unread unless `*/` starts there |
| Tokenizer.EmptyBlockCommentStep | lib/tokenizer.js:105-121 | `/**/` opens and closes in one iteration, which then appends the character after it, unchecked, unless it is `,` or `)` |
| Tokenizer.ClosingStepBuffers | lib/tokenizer.js:114-120 | the iteration that closes a block comment appends the character after `*/` to the buffer, unchecked, unless it is `,` or `)` |
| Tokenizer.CharacterAfterBlockCommentUnchecked | lib/tokenizer.js:29-72 | the character right after a block comment is never fast-fail checked: unless it is `,` or `)` it is appended to the buffer, even `=`, `{` or `[` |
| Tokenizer.LineCommentBody | lib/tokenizer.js:87-103 | inside a line comment the scan continues from just after the first line feed, with nothing collected from the comment's text |
| Tokenizer.LineCommentSkipped | lib/tokenizer.js:87-103 | a `//…\n` comment outside other comments contributes nothing to the result |
| Tokenizer.LineCommentRunsToEnd | lib/tokenizer.js:87-103 | inside a line comment every position before the first line feed is skipped, unread; the step that reaches the line feed closes the comment and appends the character after it, unchecked, unless it is `,` or `)` or starts `/` `*` |
| Tokenizer.LineClosingStepBuffers | lib/tokenizer.js:96-121 | the iteration that closes a line comment lets only `/` `*` open a comment at the next character, since the block-comment pass runs after the line-comment pass; any other character but `,` or `)` is appended to the buffer, `/` included |
| Tokenizer.CharacterAfterLineCommentUnchecked | lib/tokenizer.js:29-72 | the character right after the line feed that ends a line comment is never fast-fail checked and cannot start `//`: unless it is `,` or `)` or starts `/` `*`, it is appended to the buffer |
| Tokenizer.EmptyLineCommentStep | lib/tokenizer.js:87-103 | `//` followed at once by a line feed opens and closes in one iteration, which then appends the character after the line feed as above |
| Tokenizer.LineCommentOpens | lib/tokenizer.js:87-103 | `//` outside comments opens a line comment, and the character right after it is skipped unread unless it is a line feed |
| Tokenizer.LoneSlashKept | lib/tokenizer.js:66-71 | outside comments, a `/` not followed by `/` or `*` is appended to the buffer |
| Tokenizer.ExampleSlashesAfterLineComment | lib/tokenizer.js:13-75 | a parameter list `(a//`, line feed, `//b)`, whatever comes before its `(` and after its `)`, yields the name `a//b`: the `//` after the line feed opens no comment |
| Tokenizer.SlashesRun | lib/tokenizer.js:29-72 | the scan of that list from just after its `(`, whatever follows the `)`, yields `["a//b"]` |
| Tokenizer.SlashesRunFrom | lib/tokenizer.js:29-72 | from any fresh state at its `a`, the same |
| Tokenizer.SlashesRunAtComment | lib/tokenizer.js:29-72 | from the line comment, with `a` buffered, the same |
| Tokenizer.SlashesRunAtSlash | lib/tokenizer.js:29-72 | from the second `/` of the second line, with `a/` buffered, the same |
| Tokenizer.SlashesRunAtName | lib/tokenizer.js:29-72 | from the `b`, with `a//` buffered, the same |
| Tokenizer.ExampleSlashesFunction | lib/tokenizer.js:13-75 | `function (a//`, line feed, `//b) {}` yields `["a//b"]` |
| Tokenizer.OrdinaryStep | lib/tokenizer.js:66-71 | one ordinary character, appended, leaves the outcome to the rest of the scan |
| Tokenizer.OrdinaryRun | lib/tokenizer.js:66-71 | a run of ordinary characters is appended to the buffer as it stands in the text |
| Tokenizer.SeparatorRun | lib/tokenizer.js:41-60 | after a separator the scan continues from the flushed state |
| Tokenizer.CloseRun | lib/tokenizer.js:62-63 | `)` outside comments ends the scan with the flushed names |
| Tokenizer.EmptyParameterList | lib/tokenizer.js:41-63 | `()` yields success with no names |
| Tokenizer.ExampleEmpty | lib/tokenizer.js:13-75 | `function () {}` yields success with no names |
| Tokenizer.FlushedNames | lib/tokenizer.js:47-52 | flushing the buffer ` b` pushes `b`: the leading space is trimmed away |
| Tokenizer.UnspacedFlushed | lib/tokenizer.js:47-52 | a buffer that neither starts nor ends with whitespace is pushed unchanged |
| Tokenizer.UnspacedClose | lib/tokenizer.js:41-63 | a `)` outside comments after such a buffer returns the names collected so far followed by that buffer |
| Tokenizer.ExampleTwoHead | lib/tokenizer.js:29-72 | from a fresh state at `a, b)`, whatever follows the `)`, the scan yields `["a", "b"]` |
| Tokenizer.ExampleTwoAtSeparator | lib/tokenizer.js:41-60 | from the `,` of `, b)` with `a` buffered, the same |
| Tokenizer.ExampleTwoTail | lib/tokenizer.js:29-72 | from ` b)` with `["a"]` collected and an empty buffer, the same |
| Tokenizer.ExampleTwoAtClose | lib/tokenizer.js:41-63 | from the `)` with `["a"]` collected and ` b` buffered, the same |
| Tokenizer.ExampleTwo | lib/tokenizer.js:13-75 | any text starting `function (a, b)`, whatever follows (a body included), yields `["a", "b"]` |
| Tokenizer.ExampleDefaultAfterComment | lib/tokenizer.js:13-75 | a parameter list `(a/**/=1)`, whatever comes before its `(` and after its `)`, yields the name `a=1`: a default value behind a comment is not refused |
| Tokenizer.DefaultRun | lib/tokenizer.js:29-72 | the scan of `(a/**/=1)` from just after its `(`, whatever follows the `)`, yields `["a=1"]` |
| Tokenizer.DefaultRunFrom | lib/tokenizer.js:29-72 | from any fresh state at its `a`, the same |
| Tokenizer.DefaultRunAtComment | lib/tokenizer.js:29-72 | from the comment, with `a` buffered, the same |
| Tokenizer.DefaultRunAtValue | lib/tokenizer.js:29-72 | from the `1`, with `a=` buffered, the same |
| Tokenizer.ExampleDefaultFunction | lib/tokenizer.js:13-75 | `function (a/**/=1) {}` yields `["a=1"]` |
| Tokenizer.Scanner.constructor | lib/tokenizer.js:18-25 | a new record holds the text, is outside comments at index 0, and has an empty buffer and no names |
| Tokenizer.Scanner.FastFailOnUnsupportedParameterNamesSyntax | lib/tokenizer.js:77-85 | returns the unsupported-syntax message of the current state, as `FastFail` defines it |
| Tokenizer.Scanner.TokenizeSingleLineComments | lib/tokenizer.js:87-103 | updates the record in place to the state `SingleLineComments` gives |
| Tokenizer.Scanner.PushParameter | lib/tokenizer.js:46-52 | the separator callback: the record becomes the flushed state |
| Tokenizer.Scanner.TokenizeMultiLineComments | lib/tokenizer.js:105-121 | updates the record in place to the state `MultiLineComments` gives |
| Tokenizer.ExtractParameterNames | lib/tokenizer.js:13-75 | the imperative loop returns exactly `Extract` of its input, and `Not a function` for a non-function |
| DiIoc.Oracle.Invoke | lib/di-ioc.js:92 | calling a function logs the call with its arguments and yields what that function yields as the next call |
| DiIoc.CreateDetourFunction | lib/di-ioc.js:65-82 | equals `DetourOf`; it throws the TypeError exactly when the tokenizer returns `null`; a non-function is returned as it is |
| DiIoc.NonFunctionKept | lib/di-ioc.js:66-70 | a non-function is returned as it is, because the tokenizer's result is empty |
| DiIoc.RejectedParameterListKept | lib/di-ioc.js:66-70 | a function whose parameter list the tokenizer rejects is returned unwrapped |
| DiIoc.WrapperKept | lib/di-ioc.js:66-70 | a detour or a takeover has an empty parameter list, so it is returned unwrapped |
| DiIoc.DetourIdempotent | lib/di-ioc.js:65-82 | whatever `createDetourFunction` returns, over any container, is returned unchanged by a second call |
| DiIoc.DetourNamesWellFormed | lib/di-ioc.js:72-81 | a detour is built only for a function whose tokenized parameter names are non-empty, and all well formed; it wraps that function over the given container |
| DiIoc.Resolve | lib/di-ioc.js:84-99 | the result, the record afterwards and the calls made are those `Resolved` gives for the record found under the name |
| DiIoc.UnregisteredResolvesToNull | lib/di-ioc.js:86-88 | an unregistered name resolves to `null` and calls nothing |
| DiIoc.SingletonProducedOnce | lib/di-ioc.js:90-96 | a singleton whose producer yields a value other than `null` is produced at the first resolution and returned from the cache, with no call, at the next |
| DiIoc.NullSingletonReinvoked | lib/di-ioc.js:91-92 | a singleton whose producer yields `null` stays uncached and is produced again at every resolution |
| DiIoc.CachedSingletonStays | lib/di-ioc.js:90-96 | a singleton holding a value other than `null` returns it and keeps it, with no call |
| DiIoc.NonSingletonProducedEveryTime | lib/di-ioc.js:90-98 | anything but `singleton === true` calls the producer at every resolution and caches nothing; a fresh-instance producer gives different instances |
| DiIoc.NullIsFixed | lib/di-ioc.js:92 | whether a function yields `null` does not depend on which call it is |
| DiIoc.ResolveArgument | lib/di-ioc.js:74-76 | resolving one more name keeps the calls made so far, keeps cached singletons cached, and ties the value to the name: `null` when unregistered, the record's instance for a singleton, a fresh producer call for anything else; it throws only for a registered `func` that is not a function |
| DiIoc.ResolvedAsMeans | lib/di-ioc.js:84-99 | spells out what each resolved value is: `null` for an unregistered name, the singleton's instance (and `null` only when its producer yields `null`), or the result of one of the producer calls made |
| DiIoc.InvokeDetour | lib/di-ioc.js:72-79 | the argument list has one entry per parameter name, each the resolved value or, when that is `null`/`undefined`, the caller's argument at that position. The wrapped function is called last with that list. It throws only when a registered `func` is not a function, and always succeeds when every registered `func` is a function. Unregistered names give `null`; a singleton gives its record's instance; any other registered name gives the result of one of its producer's calls made during this call; cached singletons stay cached. It makes at most one producer call per name, plus the final call on success; every call it makes but that final one is a no-argument call of the producer registered under one of the names, so on a throw the wrapped function is not called; records that are not singletons keep their `instance` |
| DiIoc.InvokeTakeover | lib/di-ioc.js:52-60 | throws exactly when some function argument's text has no closing `)`, and then calls nothing; otherwise it calls the original once. The call gets a list of the call's length, holding at each position the argument's detour or the argument itself |
| DiIoc.Registering | lib/di-ioc.js:17-27 | one `di` call registers at most all its items, and all of them when it throws nothing |
| DiIoc.RegisteringStopsAtFirstConflict | lib/di-ioc.js:17-27 | the items registered are admissible (fresh names, pairwise distinct, detour accepted); the item that stops the call throws `Dependency already registered for <name>` when its name is taken (earlier items of the same call included), and the TypeError otherwise |
| DiIoc.RegisteringSucceeds | lib/di-ioc.js:17-27 | a `di` call throws nothing exactly when all its items are admissible |
| DiIoc.RegisteringNext | lib/di-ioc.js:17-27 | the item at position `i` decides the outcome from there on, and the rest follow with its name taken |
| DiIoc.NamesMembers | lib/di-ioc.js:22 | a name is registered by the first `n` items exactly when one of them carries it |
| DiIoc.RegisteredNone | lib/di-ioc.js:15 | before the first item the container holds exactly its earlier records |
| DiIoc.RegisteredNext | lib/di-ioc.js:22-26 | adding the next item's record under its free name keeps the earlier records, and the records of the earlier items |
| DiIoc.Register | lib/di-ioc.js:18-26 | a taken name throws the duplicate error, and a text without `)` throws the TypeError; either way the container is unchanged. Otherwise exactly one fresh `{func: detour, singleton, instance: null}` record is added under the name |
| DiIoc.RegisterAll | lib/di-ioc.js:17-27 | throws what `Registering` says. The container keeps its earlier records and gains a fresh record for each admitted item (those before the throw stay) |
| DiIoc.Container.constructor | lib/di-ioc.js:15 | a new container holds no records |
| DiIoc.Dependency.constructor | lib/di-ioc.js:22-26 | a new record holds the given `func` and `singleton`, with `instance: null` |
| DiIoc.Target.constructor | lib/di-ioc.js:47 | an object with the given properties |
| DiIoc.Registry.constructor | lib/di-ioc.js:3 | `namespaces` starts empty |
| DiIoc.Registry.Di | lib/di-ioc.js:14-30 | writes into the namespace's container, or a new empty one. It throws what `Registering` says, and the container gains each admitted item's record. On success the container is stored under the namespace and other namespaces are unchanged; on a throw `namespaces` is unchanged, so a new container is not stored |
| DiIoc.Registry.Ioc | lib/di-ioc.js:41-63 | throws `Namespace <ns> not found` or `<funcName> is not a function`, and then the object is unchanged. It succeeds exactly when both checks pass; then only `obj[funcName]` changes, to a takeover of the original over the namespace's container |

## Left out

- `func.toString()` and `typeof … === 'function'` are runtime introspection. A value is either `Callable` or not, and a function carries its source text. The text of a detour or a takeover is the constant `function () {}`. Its empty parameter list is all the tokenizer sees of the real wrapper text.
- The wrappers' closure mechanics are not modelled: `arguments`, `this`, `func.call(null, …)`, `funcOriginal.call(obj, …)` and the spreading of `args`. The model builds the argument list and hands it to the oracle.
- The bodies of producers and callbacks are not modelled. So nested resolution through a producer's own parameters, and the unbounded recursion on dependency cycles, are not modelled. When a detour's producer is resolved, the oracle yields what the wrapped function yields, without calling the detour.
- `String.prototype.trim` uses a written-out whitespace set: the ECMAScript WhiteSpace and LineTerminator characters. Unicode category lookup is not modelled.
- The `current += undefined` step, taken when a comment marker ends exactly at the end of the text, is not modelled. That path always ends in `null`, so it cannot be observed.
- Keys inherited from `Object.prototype` are not modelled (for instance a dependency or namespace named `constructor`). Containers, `namespaces` and objects are plain maps with no prototype.
- The texts of the two TypeErrors are not modelled; `Message` gives none for them. The messages the source builds itself are modelled.
- `InvokeDetour`: does not state the order of the producer calls made while resolving the names, nor which of them produced a singleton's instance; `Resolve` states both per name.
- `NullIsFixed`: a producer yields either a fresh instance on every call or the same value on every call, so one that yields `null` on some calls and a value on others is not modelled; the `null` clauses of `ResolvedAsMeans` and `InvokeDetour` rest on this.
- `RunParsedNeedsClose`: states only that a `)` lies ahead of a successful scan, not that it lies outside comments; `CommaSeparatedRun` and `CloseRun` give the exact outcome where no comment intervenes.
- The TypeError thrown when a `di` item is `null` or `undefined` (reading `dependency.name`, lib/di-ioc.js:18) is not modelled: every item is a record with a name, a function and a flag.
- The TypeError thrown when `ioc` is given a `null` or `undefined` object (reading `obj[funcName]`, lib/di-ioc.js:47) is not modelled: the object is always a `Target`.
- `InvokeTakeover`: the detour of a function argument is built, which can throw; calling that detour later is `InvokeDetour`.
- `DiIoc.Registry.Di`: the ghost out-parameter `container` names the container written into. A new container that is not stored (after a throw) is unreachable afterwards.
