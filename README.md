# http-from-pcap: message accumulation, direction routing and header display

This project models the part of http-from-pcap that sits around Node's native
HTTP parser. Three parts are covered:

- `HTTPMessage` (index.js) is one direction's message object. The parser's
  callbacks update it in place: raw header and URL fragments are appended,
  the headers-complete callback formats the version and folds the raw header
  list into a lowercase-keyed map (last occurrence wins), and body slices are
  appended as chunks. `HTTPRequest` and `HTTPResponse` add the method, or the
  status code and message.
- `HTTPFromTCP` (index.js) owns a request-side and a response-side message
  for one TCP session. It sends "data send" bytes to the request parser and
  "data recv" bytes to the response parser. At session end, each parser gets
  one empty execute and is then freed.
- `headerFromRawHeaders` (bin.js) renders a raw header list as
  `name: value` lines.

Modules:

- `Wrappers`: `Option`. `None` stands for JavaScript's `undefined`, and in
  bin.js for the `false` of `|| false`.
- `Text`: ASCII lowercasing, decimal rendering of numbers and its inverse.
- `RawHeaders`: pairing of the flat raw list, the fold into the header map,
  and the fold loop as a method.
- `Messages`: `byte`, the parser sink class `Parser`, and the class
  `HttpMessage`. The two JavaScript subclasses become one class with a
  `kind`. Their own fields become a `StartLine` value: a request's method, or
  a response's status code and message.
- `Flows`: the class `HttpFromTcp`.
- `Display`: the bin.js formatter, written as the same chain of `map`,
  `filter`, `map` and `join`, plus its line-by-line characterization.

The native parser is a foreign binding. It is modelled as an object that logs
each `execute` (the bytes it was given) and its release. The parser invokes
the message callbacks (`OnHeaders`, `OnHeadersComplete`, `OnBody`,
`OnMessageComplete`) from inside `execute`. In the model, whoever drives the
model calls them directly.

Behaviour of index.js worth knowing, which the model keeps:
- `rawHeaders || this.rawHeaders` keeps the accumulated list only when the
  argument is absent. A present list replaces it even when empty, because
  JavaScript arrays are truthy. The URL is replaced only by a non-empty
  string.
- Session end is not idempotent. Each `end` executes and frees both parsers
  again.
- One message object serves a whole direction. Raw headers accumulated by
  `onHeaders` are never reset between messages.
- Both messages of a session carry the session's `src_name`, `dst_name` and
  `send_isn`. The response's endpoints are not swapped.

## Model

| member | source | states |
|---|---|---|
| `Text.Lower` | index.js:61 | lowercasing keeps the length, maps each character through ASCII lowercasing, and leaves no upper-case ASCII letter |
| `Text.LowerIdempotent` | index.js:61 | a lowercased header name is unchanged by lowercasing again |
| `Text.DecimalRoundTrip` | index.js:56 | the decimal rendering of a version number reads back as that number |
| `Messages.FormatVersion` | index.js:56 | `versionMajor + '.' + versionMinor` determines both numbers: parsing the version string returns exactly (major, minor) |
| `Messages.MethodName` | index.js:100 | `methods[code]` is the table entry when the code is in range and undefined otherwise |
| `RawHeaders.FoldMapKeys` | index.js:59-63 | after folding pairs, a key other than `__proto__` is present iff some pair's name lowercases to it |
| `RawHeaders.FoldMapLastWins` | index.js:59-63 | the value under a key other than `__proto__` is the value of the last pair whose name lowercases to it |
| `RawHeaders.Normalize` | index.js:59-64 | the `headers` object never gets the key `__proto__`: assigning it on a plain object calls the prototype setter, which ignores a string or undefined |
| `RawHeaders.NormalizeKeys` | index.js:59-64 | `headers` has key k iff k is not `__proto__` and some even index i of the raw list has lowercase(raw[i]) == k |
| `RawHeaders.NormalizeLastWins` | index.js:59-64 | for the greatest such even i (name not lowercasing to `__proto__`), `headers[k]` is raw[i+1], or undefined when i is the last index; case variants of a name share one key |
| `RawHeaders.FoldHeaders` | index.js:59-63 | the index-stepping loop, which stores nothing for the key `__proto__`, builds exactly the folded header map of its raw list |
| `Messages.Parser.Execute` | index.js:137 | the parser's log grows by exactly the executed bytes |
| `Messages.Parser.Free` | index.js:88 | `freeParser` adds exactly one release to the parser's log |
| `Messages.Slice` | index.js:75 | `buffer.slice(start, end)` is `buffer[start..end)` when in range, empty when end <= start, never longer than the buffer |
| `Messages.HttpMessage.constructor` | index.js:28-48 | a new message has no chunks, empty version, url and raw headers, an empty header map, nothing emitted, a fresh parser of its kind with an empty log, and method '' or status 0 and ''; its kind, parser kind and start-line variant agree (`Valid`) |
| `Messages.HttpMessage.OnHeaders` | index.js:50-53 | rawHeaders becomes the old list followed by the fragment, url the old url followed by the fragment; nothing else changes |
| `Messages.HttpMessage.SetStartLine` | index.js:97-115 | a request sets only its method, looked up in the method table (undefined out of range); a response sets only status code and message, copied unchanged; a request keeps a method and a response a status |
| `Messages.HttpMessage.OnHeadersCompleteAsWritten` | index.js:55-70 | the version becomes `major.minor`; with no raw-header argument the call fails after that and changes nothing else; otherwise the argument replaces rawHeaders, headers is its fold, url is replaced only by a non-empty one, the variant hook runs and 'http headers' is emitted |
| `Messages.HttpMessage.OnHeadersComplete` | index.js:55-70 | as the as-written version, but the header map is the fold of the raw list the message keeps (the argument if present, otherwise the accumulated one), so it never fails |
| `Messages.HttpMessage.OnBody` | index.js:74-77 | with body tracking on, appends exactly one chunk equal to `buffer[start .. start+length)` and leaves earlier chunks unchanged; with it off, chunks never change |
| `Messages.HttpMessage.OnMessageComplete` | index.js:79-81 | appends one 'http message' event to what the message emitted |
| `Messages.HttpMessage.Free` | index.js:87-89 | the message's parser records one release |
| `Flows.HttpFromTcp.constructor` | index.js:122-146 | request and response are fresh and empty, with method '' and status 0 and '' respectively; the request parser is a request parser and the response parser a response parser, distinct; both carry identical src, dst and isn taken from the session |
| `Flows.HttpFromTcp.OnDataSend` | index.js:136-138 | "data send" bytes are appended to the request parser's log and the response parser's log is unchanged |
| `Flows.HttpFromTcp.OnDataRecv` | index.js:155-157 | "data recv" bytes are appended to the response parser's log and the request parser's log is unchanged |
| `Flows.HttpFromTcp.OnEnd` | index.js:160-166 | each parser receives exactly one empty execute and then exactly one release |
| `Display.KeepEvenLength` | bin.js:30 | filtering to even indices leaves ceil(n/2) elements |
| `Display.KeepEvenAt` | bin.js:30 | element j of the filtered list is element 2j of the input |
| `Display.SplitJoin` | bin.js:32 | joining newline-free lines with `\n` and splitting at newlines gives the lines back |
| `Display.HeaderFromRawHeaders` | bin.js:27-33 | the output is the empty string exactly when the raw list is empty |
| `Display.HeaderLines` | bin.js:27-33 | for a non-empty list without newlines the output has ceil(n/2) lines and no trailing newline; line j is raw[2j] + ": " + raw[2j+1], or + "false" when that value is missing or empty; lines keep raw order and duplicates |
| `Display.OddLastLine` | bin.js:29 | for an odd-length list the final line is raw[n-1] + ": false" |

## Left out

- The native `HTTPParser` and `freeParser` (index.js:3-4) are foreign bindings. They are modelled as a log of executed byte sequences and releases. All HTTP/1.x framing happens inside them, so none of it is modelled. Neither is the link between the bytes executed and the callbacks fired.
- `HTTPFromPCAP`, `pcap.TCPTracker` and packet decoding (index.js:10-25) are capture I/O and a third-party library.
- EventEmitter mechanics are left out. The message records the events it emits ('http headers', 'http message') in a log. `HTTPFromTCP` only re-emits them under new names ('request headers', 'response message', ...), and that renaming is not modelled.
- `onExecute` (index.js:83-85) only writes to the console.
- `Text.Lower` covers ASCII only. JavaScript's `toLowerCase` also maps non-ASCII letters.
- The method table `methods` comes from the native binding. It is a parameter of the headers-complete methods.
- `Flows.HttpFromTcp.OnDataSend`: the parser's three-argument `execute(data, 0, data.length)` is recorded as the executed byte sequence, which is all of `data`.
- The `headers` object's key insertion order is dropped. The header map is an unordered map. Of the names a plain object treats specially, only `__proto__` is modelled (it stores nothing); every other name becomes an ordinary key, as in JavaScript.
- The rest of bin.js (device and file selection, `process.exit`, colouring, console output, piping bodies to stdout, bin.js:10-25 and bin.js:37-53) is CLI and I/O.
- The `upgrade` and `shouldKeepAlive` callback arguments are carried in `HeadersInfo` and never read, as in the source.

## Findings

| source | as written | input that shows it | evidently intended | confidence | as-written member | corrected member |
|---|---|---|---|---|---|---|
| index.js:58-60 | `this.rawHeaders = rawHeaders \|\| this.rawHeaders` falls back to the accumulated list, but the loop then reads `rawHeaders.length` from the argument and throws when it is absent; no header map is built and 'http headers' is never emitted | the parser delivers the header block through `onHeaders` (here `["Host", "h"]`) and calls the headers-complete callback without a raw-header argument | fold the list the message keeps, so `headers` is `{host: "h"}` | not executed; medium (depends on when the native parser omits the argument) | `Messages.HttpMessage.OnHeadersCompleteAsWritten`, exhibited by `Messages.AbsentRawHeadersExample` | `Messages.HttpMessage.OnHeadersComplete` |
