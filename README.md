# lsp-tool: the capability-filtering handshake, in Dafny

lsp-tool wraps a Language Server Protocol server. It runs the server as a
child process and relays the server's standard output to its own. The first
response that carries a `result.capabilities` object is the answer to
`initialize`. In that response it switches off the `...Provider`
capabilities that the user disabled, or did not enable, on the command line.
This project models that interception and the helpers it relies on:

- `Framing` (read_write.go): `stdoutWrite`, which writes one message with its
  `Content-Length` header. It also has a header parser, written from the
  "Header Part" of the "Base Protocol" section of the Language Server
  Protocol Specification 3.17. That parser only states round-trip
  properties. It is not a model of the wrapper's frame splitter
  `jsonRpcSplitFunc`, which is not part of this model.
- `CapabilityFilter` (read_write.go): `filterMode`, and the loop over the
  capability keys. The loop overwrites the entries to disable with `false`
  and records each bare name as enabled or disabled.
- `Interception` (read_write.go): the framed loop of `stdoutReader`. It
  decodes each frame and checks its shape. A frame that is not a
  capabilities-bearing response is re-emitted unchanged and scanning goes
  on. The first frame that is such a response is filtered, re-encoded and
  emitted, and then the loop breaks. A decoding error is fatal.
- `Utils` (utils.go): `indexOf` (linear search) and `panicIfError`.
- `Cli` (main.go): `validateArgs`, and the choice of filter mode and
  provider list in `run`.
- `Wrappers` and `JsonTree` hold the shared datatypes: `Option`, `Result`,
  `Outcome`, and the decoded JSON tree `Json`.

Some things are modelled as values rather than as the Go program's effects:

- The process's standard output is a byte sequence. Each write returns the
  extended sequence.
- JSON decoding and encoding are the two functions of a `Codec` value.
- Frames arrive as a sequence of payloads that are already split.
- Go's unordered map iteration is a choice of any key not yet visited
  (`var k :| k in todo`). So the `enabled` and `disabled` lists are
  specified as multisets, not by their order.

## Model

| member | source | states |
|---|---|---|
| Utils.IndexOf | utils.go:25-32 | The result is -1 exactly when the element does not occur. Otherwise it is a valid index holding the element, and no earlier index holds it. |
| Utils.PanicIfError | utils.go:19-23 | Aborts exactly when an error is given, and with that error. Otherwise it passes. |
| Framing.Decimal | read_write.go:23 | The `%d` rendering of a length is a non-empty run of ASCII digits. It starts with `0` only for zero. |
| Framing.DecimalRoundTrip | read_write.go:23 | Reading back the decimal digits of `n` gives `n`. |
| Framing.Framed | read_write.go:23-25 | A framed message is the header plus the payload, and it ends with the payload. |
| Framing.StdoutWrite | read_write.go:21-28 | Appends exactly `Content-Length: `, the decimal payload length, `\r\n\r\n` and the payload to stdout. A header parser reading the appended bytes gets the payload back with nothing left over. |
| Framing.FrameRoundTrip | read_write.go:21-28 | Parsing the header of a framed payload followed by any bytes yields the payload and exactly those following bytes, so the declared length is the payload's length. |
| Framing.FramedAllRoundTrip | read_write.go:21-28 | A stream of messages written one after another parses back into the same sequence of payloads. |
| CapabilityFilter.HasSuffix | read_write.go:60 | A key that has the `Provider` marker is its leading part followed by the marker. |
| CapabilityFilter.KeyOfName | read_write.go:60-63 | Any name followed by `Provider` has the marker, and stripping the marker gives the name back. With the HasSuffix contract, the marker test holds exactly on such keys. |
| CapabilityFilter.TrimSuffix | read_write.go:60-63 | Stripping `Provider` from a key that ends in it leaves the name that, with `Provider` appended, is the key. Any other key is left as it is. |
| CapabilityFilter.TrimSuffixInjective | read_write.go:60-63 | Two distinct capability keys have distinct bare names. |
| CapabilityFilter.Disables | read_write.go:13-19 | The overwrite condition of read_write.go:66-67. It holds iff the mode is one of the two filtering modes of `filterMode`, and the name is listed exactly when that mode is disable. |
| CapabilityFilter.Filtered | read_write.go:59-72 | The closed form of the filter loop: each entry the decision selects holds `false` and every other entry is as it was. Its contract keeps the key set. Its per-key values are stated by FilterDecisionTable. |
| CapabilityFilter.FilterCapabilities | read_write.go:56-73 | The loop, visiting keys in any order, yields the filtered map. As multisets, `enabled` and `disabled` are the enabled and the disabled bare names. Together they are as long as there are `Provider` keys. |
| CapabilityFilter.FilterDecisionTable | read_write.go:59-72 | Filtering leaves every key without `Provider` unchanged. In enable mode a capability key is set to `false` iff its name is not listed, and in disable mode iff it is listed. Otherwise the value is kept. |
| CapabilityFilter.FilterKeepsKeys | read_write.go:59-72 | Filtering keeps the key set of every capabilities map, the empty one included. With no filter it is the identity. |
| CapabilityFilter.NamesPartition | read_write.go:63-72 | Every capability key's bare name is recorded as enabled or as disabled, and never as both. |
| CapabilityFilter.FilterIdempotent | read_write.go:63-68 | Filtering an already filtered map with the same mode and providers changes nothing. |
| CapabilityFilter.NoFilterEnablesAll | read_write.go:66-71 | With no filter, every bare name is recorded as enabled and none as disabled. |
| CapabilityFilter.EnableExample | read_write.go:59-72 | Enabling only `foo` on the keys `fooProvider`, `barProvider` and `bazProvider` turns off `bar` and `baz` and keeps `foo`. |
| CapabilityFilter.DisableExample | read_write.go:59-72 | Disabling only `bar` on the same keys turns off `bar` alone. |
| Interception.Capabilities | read_write.go:40-54 | The shape check. A document has capabilities iff its root is an object, `result` is present and an object, and `capabilities` is present in it and an object. A missing key acts as Go's nil and fails the check. The capabilities found are that innermost object's members. |
| Interception.ReplaceCapabilities | read_write.go:68 | The write-back of the filtered entries, as `json.Marshal(f)` at read_write.go:78 sees it through the root. The rebuilt document's capabilities are exactly the map given. |
| Interception.ReplaceCapabilitiesOnly | read_write.go:68 | Writing the filtered capabilities back changes nothing outside `result.capabilities`. The root and `result` keep their keys and every other member. |
| Interception.FilterDocumentIdempotent | read_write.go:56-78 | The document handed to the encoder carries the filtered capabilities. Filtering it again changes nothing. |
| Interception.ScanFrom | read_write.go:35-83 | The reference definition of the framed loop from frame `i` on. Its properties are stated by ScanShape, NonCapabilityPassthrough and LaterFramesIgnored. |
| Interception.StdoutReader | read_write.go:35-83 | The loop's emitted payloads and its stopping point are exactly those of ScanFrom from frame 0. What it wrote to stdout is exactly those payloads, framed one after another. |
| Interception.ScanShape | read_write.go:35-83 | Every frame before the stop decoded and had no capabilities object, and each was re-emitted byte for byte. A decoding error stops the loop at that frame with nothing more written. The first capabilities-bearing frame is the only one filtered, and it is the last one emitted. |
| Interception.NonCapabilityPassthrough | read_write.go:40-54 | If every frame decodes and none is a capabilities-bearing response, every frame is re-emitted unchanged and the frames run out. |
| Interception.LaterFramesIgnored | read_write.go:78-82 | Once the loop has broken or aborted, frames after the stopping one make no difference. |
| Cli.ValidateArgs | main.go:50-58 | Passes iff at most one of the enable and disable lists is given and the command is not empty. The list conflict is reported whenever both lists are given, even with an empty command. |
| Cli.ArgError.Message | main.go:50-58 | The error texts of main.go:52 and main.go:55. Each error has its own text. |
| Cli.SelectMode | main.go:84-92 | A non-empty enable list selects enable mode with that list. Otherwise a non-empty disable list selects disable mode with that list. Otherwise no filter is selected, with no providers. |
| Cli.ValidatedSelection | main.go:50-92 | After validation the providers are the one list given. No filter is chosen iff no list was given, and a filtering mode always has a non-empty list. |

## Left out

- JSON decoding and encoding (`json.Unmarshal`, `json.Marshal`) are the parameters `unmarshal` and `marshal`. Numbers are opaque tokens, and Go's float64 number semantics and sorted-key output are not modelled.
- Interception.StdoutReader: `marshal` is total here. The error path of `json.Marshal` (read_write.go:79) is not modelled, because a tree decoded from JSON always encodes.
- The frame splitter `jsonRpcSplitFunc` is not part of this model. So neither are the scanner's own errors (read_write.go:84) nor a malformed header from the server. Frames are given as already split payloads.
- The raw passthrough loop after the break (read_write.go:86-104) is left out. It copies bytes through a 1024-byte buffer and then closes the pipe. No lossless handover is claimed: bytes the scanner read ahead are not replayed there.
- Buffering, flushing and write errors of `bufio.Writer` on `os.Stdout` are not modelled. The write `panicIfError` checks in `stdoutWrite` can therefore not fire.
- Logging (`log.Printf`, `logDebug`) is left out, including the log lines that show the enabled and disabled lists.
- From main.go: spawning the child process, the goroutine, cobra wiring and log-file handling are left out. Only `validateArgs` and the mode selection are modelled.
- The order of the `enabled` and `disabled` lists follows Go's map iteration order, which is unspecified. The model chooses keys arbitrarily and states the lists as multisets.
- The decoded maps are updated in place in Go, and `json.Marshal(f)` serialises the mutated root. The model rebuilds the document with the filtered capabilities instead, in `ReplaceCapabilities`.
- A frame that does not match the expected shape does not switch the relay to passthrough. Scanning goes on with the next frame (read_write.go:41-53), and the model follows that.
- Enable mode with an empty provider list would disable every capability. `run` never selects it, because an empty enable list falls through to the next branch (main.go:86-92).
