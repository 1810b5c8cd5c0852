# LearningCombinePlayground core, in Dafny

This project models the Swift helpers of the LearningCombinePlayground
playground that its pages build on:

- **`PlaceholderApi`**: the endpoint enum of the JSONPlaceholder service
  (`https://jsonplaceholder.typicode.com`). The model covers
  - `rawValue`, which gives each case its request: the path and, for the
    cases with a parameter, the `userId`/`id` query item;
  - `init?(rawValue:)`, which recognises only the three cases without a
    parameter;
  - `fetchUserByUserId`, modelled by the endpoint it asks for (sabotage
    switches it to the error endpoint) and by how its completion handler
    classifies the response: transport failure, decoding failure, or the
    first decoded user.
- **`String.toUrlComponents`**: it parses the base URL, sets the path to
  `/path`, and adds one query item per dictionary entry, in the dictionary's
  unspecified iteration order. It is modelled as a method with a loop.
- **`LogUtils`**:
  - the `LogEvent` symbols;
  - the line that `err`, `info`, `warn` and `xmpl` each print around a
    timestamp (`xmpl` adds three blank lines above and a rule of fifty `=`
    below);
  - `sourceFileName(filePath:)`.

Modules:

| module | file |
|---|---|
| `Wrappers` | `Option` and `Result` |
| `Models` | `CustomError`, `ExampleUser`, `ExamplePost` |
| `IntText` | Swift's decimal text of an `Int` (string interpolation) and its reading back |
| `StringExtensions` | URL components, query items, and `ToUrlComponents` |
| `PlaceholderApi` | endpoints, requests and the fetch |
| `LogUtils` | log levels, printed lines, and the file-name helper |

Each operation has a partner:
- the endpoint's request is paired with its decoder, and with an
  injectivity proof;
- `ToUrlComponents` is proved against a specification of the query list it
  must produce;
- every printed log line is paired with a parser, with a round trip and a
  soundness proof;
- `sourceFileName` is characterised exactly: its result is the name between
  the last `/` and the following `.`.

`sourceFileName(filePath:)` differs from its doc comment. The comment
(`LogUtils.swift:86`) says it returns the file name "with extension". The code
keeps only the text before the first `.` of the last path component, which
drops the extension. The model follows the code. `SourceFileNameStripsExtension`
states the discrepancy on `Sources/LogUtils.swift`.

## Model

| member | source | states |
|---|---|---|
| PlaceholderApi.RawValue | LearningCombinePlayground.playground/Sources/PlaceholderApi.swift:24-32 | Each case's request: the base URL's origin, the path `/error`, `/posts` or `/users`, and a present query list. That list is empty for the cases without a parameter. For `postsByUserId(n)` it is exactly `userId=<n>`, and for `userByUserId(n)` exactly `id=<n>`. |
| PlaceholderApi.RawValueIsBuiltUrl | LearningCombinePlayground.playground/Sources/PlaceholderApi.swift:26-30 | A query list enumerates the case's dictionary if and only if it gives that case's `rawValue` URL. Every iteration order of the dictionary therefore gives the same request. |
| PlaceholderApi.BuildRawValue | LearningCombinePlayground.playground/Sources/PlaceholderApi.swift:24-32 | Computing `rawValue` through `toUrlComponents` on the base URL gives exactly `RawValue(e)`. |
| PlaceholderApi.FromRawValue | LearningCombinePlayground.playground/Sources/PlaceholderApi.swift:15-22 | A recognised request is the `rawValue` of the case returned. Only `error`, `posts` and `users` are ever returned. |
| PlaceholderApi.RoundTrip | LearningCombinePlayground.playground/Sources/PlaceholderApi.swift:15-32 | `init?(rawValue: e.rawValue)` gives back `e` for the three cases without a parameter. It gives `nil` for `postsByUserId` and `userByUserId`. |
| PlaceholderApi.FromRawValueExact | LearningCombinePlayground.playground/Sources/PlaceholderApi.swift:15-22 | `init?(rawValue:)` returns `e` if and only if the request is `e.rawValue` and `e` has no parameter. |
| PlaceholderApi.RawValueInjective | LearningCombinePlayground.playground/Sources/PlaceholderApi.swift:24-32 | Distinct endpoints, including the same case with distinct ids, have distinct requests. |
| PlaceholderApi.RequestFor | LearningCombinePlayground.playground/Sources/PlaceholderApi.swift:41 | A sabotaged fetch requests `/error`. Otherwise it requests `/users` with the single query item `id=<userId>`. |
| PlaceholderApi.Classify | LearningCombinePlayground.playground/Sources/PlaceholderApi.swift:43-55 | `houstonWeHaveAProblem` if and only if the data is missing or an error is present. `parsingWentWrong` if and only if data came without error but does not decode. Success if and only if it decodes, and the value is then the first user, or `nil` for an empty array. `mathImpossibility` is never produced. |
| PlaceholderApi.FetchUserByUserId | LearningCombinePlayground.playground/Sources/PlaceholderApi.swift:36-57 | The completion, when one is given, is called exactly once: with the classification of the response to the request for `RequestFor(userId, sabotage)`. Without a completion nothing is delivered. |
| PlaceholderApi.SabotageIgnoresUserId | LearningCombinePlayground.playground/Sources/PlaceholderApi.swift:41 | Under sabotage, the user id makes no difference to what the completion receives. |
| IntText.DecimalText | LearningCombinePlayground.playground/Sources/PlaceholderApi.swift:28-30 | The interpolated text of an `Int` is non-empty and starts with `-` exactly for negative values. |
| IntText.DecimalRoundTrip | LearningCombinePlayground.playground/Sources/PlaceholderApi.swift:28-30 | Reading back the interpolated text of any `Int` gives that `Int`. |
| IntText.DecimalTextInjective | LearningCombinePlayground.playground/Sources/PlaceholderApi.swift:28-30 | Distinct ids give distinct query values. |
| StringExtensions.ToUrlComponents | LearningCombinePlayground.playground/Sources/Extensions/String+Extensions.swift:4-15 | The result keeps the parsed base's origin and has path `"/" + path`. Its query list is present and lists each dictionary entry exactly once, with that entry's value, in some order. |
| StringExtensions.EmptyDictionaryGivesEmptyQuery | LearningCombinePlayground.playground/Sources/Extensions/String+Extensions.swift:4-13 | With the default empty dictionary, the only enumeration is the empty, present query list. |
| StringExtensions.SingleEntryEnumeration | LearningCombinePlayground.playground/Sources/Extensions/String+Extensions.swift:8-11 | A one-entry dictionary has exactly one enumeration: that item. |
| LogUtils.RawValue | LearningCombinePlayground.playground/Sources/Utilities/LogUtils.swift:5-10 | Each level's symbol is non-empty and does not start with a newline. |
| LogUtils.FromRawValue | LearningCombinePlayground.playground/Sources/Utilities/LogUtils.swift:5-10 | A recognised symbol is the raw value of the level returned. |
| LogUtils.SymbolsPrefixFree | LearningCombinePlayground.playground/Sources/Utilities/LogUtils.swift:5-10 | No symbol is a prefix of another level's symbol, and each symbol decodes to its own level. |
| LogUtils.ErrMessage | LearningCombinePlayground.playground/Sources/Utilities/LogUtils.swift:30-40 | The `err` line is `🔥 [time] ` followed by the message, with no other characters. |
| LogUtils.InfoMessage | LearningCombinePlayground.playground/Sources/Utilities/LogUtils.swift:43-53 | The `info` line is `ℹ️ [time] ` followed by the message, with no other characters. |
| LogUtils.WarnMessage | LearningCombinePlayground.playground/Sources/Utilities/LogUtils.swift:56-66 | The `warn` line is `⚠️ [time] ` followed by the message, with no other characters. |
| LogUtils.XmplMessage | LearningCombinePlayground.playground/Sources/Utilities/LogUtils.swift:69-81 | The `xmpl` output is three newlines, then `📢 [time] message`, then a newline, then exactly fifty `=`. |
| LogUtils.MessageRoundTrip | LearningCombinePlayground.playground/Sources/Utilities/LogUtils.swift:36-80 | For every level, the printed line parses back to its level, timestamp and message, provided the timestamp has no `]`. |
| LogUtils.ParseMessageSound | LearningCombinePlayground.playground/Sources/Utilities/LogUtils.swift:36-80 | Every text the parser accepts is exactly the line printed for the entry it returns. |
| LogUtils.LevelIsVisible | LearningCombinePlayground.playground/Sources/Utilities/LogUtils.swift:36-80 | Lines printed at different levels never coincide, whatever their timestamps and messages. |
| LogUtils.Components | LearningCombinePlayground.playground/Sources/Utilities/LogUtils.swift:88-89 | Splitting gives at least one part. No part contains the separator. Joining the parts with the separator gives the input back. |
| LogUtils.LastComponent | LearningCombinePlayground.playground/Sources/Utilities/LogUtils.swift:88 | `.last` is a separator-free suffix. It is the whole text or follows a separator. |
| LogUtils.FirstComponent | LearningCombinePlayground.playground/Sources/Utilities/LogUtils.swift:89 | `.first` is a separator-free prefix. It is the whole text or is followed by a separator. |
| LogUtils.SourceFileName | LearningCombinePlayground.playground/Sources/Utilities/LogUtils.swift:87-94 | The result contains neither `/` nor `.`. |
| LogUtils.SourceFileNameCharacterized | LearningCombinePlayground.playground/Sources/Utilities/LogUtils.swift:87-94 | `sourceFileName(path) == name` if and only if `path` is a directory part (empty or ending in `/`), then `name`, then an extension part (empty or starting with `.`, with no `/`). |
| LogUtils.SourceFileNameOfSplit | LearningCombinePlayground.playground/Sources/Utilities/LogUtils.swift:87-94 | Any such split of the path yields its name as the result. |
| LogUtils.PlainNameUnchanged | LearningCombinePlayground.playground/Sources/Utilities/LogUtils.swift:88-93 | A path with no `/` and no `.` is returned unchanged, including `""`. |
| LogUtils.SourceFileNameIdempotent | LearningCombinePlayground.playground/Sources/Utilities/LogUtils.swift:87-94 | Applying the function to its own result changes nothing. |
| LogUtils.SourceFileNameStripsExtension | LearningCombinePlayground.playground/Sources/Utilities/LogUtils.swift:83-93 | `Sources/LogUtils.swift` gives `LogUtils`: the extension is dropped, contrary to the doc comment. |
| LogUtils.SourceFileNameOfHiddenFile | LearningCombinePlayground.playground/Sources/Utilities/LogUtils.swift:88-89 | `/home/.profile` gives `""`: a name starting with `.` leaves nothing. |

## Left out

- Combine itself: publishers, subscribers, operators and schedulers. The playground pages use Combine and do not implement it. The pages, `MyTimer`, `EnvironmentMetrics`, `RoomSensorHandler` and the `Notification` names are not part of this model.
- URLSession and the network. The response to a request is the parameter `respond`, so the asynchronous delivery of the completion and its thread are not modelled. `FetchUserByUserId` states what the completion receives, not when it is called.
- JSONDecoder and Codable. Decoding an array of users is the parameter `decode`, whose `None` stands for a thrown error. The JSON format is not modelled.
- Foundation's `URLComponents(string:)` is the parameter `parse`, of which only the result on the base URL matters. Percent-encoding, rendering the components to a `URL`, and the force-unwrap of `url!` are not modelled: a URL is its origin, path and query items.
- `URLRequest` is its URL alone. Its other properties (method, headers, cache policy) keep their defaults in the source and never differ between two requests.
- `IntText.DecimalText`: Swift's `Int` is 64 bits wide, and the model's integers are unbounded. The text is the same for every value that fits.
- The `DateFormatter` extension, `Date.toTimeString()` and `LogUtils.dateFormatter`. These depend on the clock, calendar, locale and time zone. The timestamp is an opaque string, and the round trip asks only that it contain no `]`.
- `Swift.print` and the `print` wrapper, which only emit the line: the model returns the line they print. `"\(object)"` of an arbitrary value is its description, taken as the message text.
- The `filename`, `funcName` and `line` parameters of the log methods. The source ignores them.
- `CustomError.errorDescription`, which is localized through `NSLocalizedString`.
- `ExamplePost.placeholder` and the dummy data, which are test fixtures of the pages.
