/** The framed part of `stdoutReader` in read_write.go: read frames from the
    language server, re-emit every frame that is not a capabilities-bearing
    response as it came, filter the first one that is, emit it, and stop.

    Frames arrive already split (the scanner's split function is not part
    of this model), JSON decoding and encoding are the parameters
    `unmarshal` and `marshal`, and the process's standard output is the
    byte sequence `stdout` that the loop extends. */
module Interception {
  import opened Wrappers
  import opened JsonTree
  import opened Framing
  import opened CapabilityFilter
  import Utils

  /** `encoding/json` as the wrapper uses it. */
  datatype Codec = Codec(unmarshal: seq<byte> -> Result<Json, string>, marshal: Json -> seq<byte>)

  /** Where the framed loop ended: frames ran out, a frame was filtered
      (the loop breaks there), or a frame failed to decode (the process
      panics there). Indices count from the first frame. */
  datatype Stop = Exhausted | Intercepted(index: nat) | Aborted(index: nat, error: string)

  /** What the framed loop wrote, payload by payload, and where it ended. */
  datatype Scan = Scan(emitted: seq<seq<byte>>, stop: Stop)

  /** The type assertion `.(map[string]interface{})`. */
  function AsObject(v: Json): Option<map<string, Json>> {
    if v.Object? then Some(v.fields) else None
  }

  /** Indexing a Go map: a missing key yields nil, which no type
      assertion to an object accepts. */
  function Field(m: map<string, Json>, key: string): Json {
    if key in m then m[key] else Null
  }

  /** The three type assertions: the root is an object, its `result` is an
      object, and that object's `capabilities` is an object. */
  function Capabilities(doc: Json): (r: Option<map<string, Json>>)
    ensures r.Some? <==>
      && doc.Object? && "result" in doc.fields && doc.fields["result"].Object?
      && "capabilities" in doc.fields["result"].fields
      && doc.fields["result"].fields["capabilities"].Object?
    ensures r.Some? ==> r.value == doc.fields["result"].fields["capabilities"].fields
  {
    match AsObject(doc)
    case None => None
    case Some(root) =>
      match AsObject(Field(root, "result"))
      case None => None
      case Some(result) => AsObject(Field(result, "capabilities"))
  }

  /** The document with its capabilities object replaced, as the in-place
      writes into the decoded maps leave it. */
  function ReplaceCapabilities(doc: Json, caps: map<string, Json>): (r: Json)
    requires Capabilities(doc).Some?
    ensures Capabilities(r) == Some(caps)
  {
    var result := doc.fields["result"];
    Object(doc.fields["result" := Object(result.fields["capabilities" := Object(caps)])])
  }

  /** Replacing the capabilities changes nothing outside them: the root
      and `result` keep their keys and every other member, and the new
      capabilities object is the one given. */
  lemma ReplaceCapabilitiesOnly(doc: Json, caps: map<string, Json>)
    requires Capabilities(doc).Some?
    ensures var r := ReplaceCapabilities(doc, caps);
      && Capabilities(r) == Some(caps)
      && r.Object? && r.fields.Keys == doc.fields.Keys
      && (forall k :: k in doc.fields && k != "result" ==> r.fields[k] == doc.fields[k])
      && r.fields["result"].Object?
      && r.fields["result"].fields.Keys == doc.fields["result"].fields.Keys
      && (forall k :: k in doc.fields["result"].fields && k != "capabilities" ==>
            r.fields["result"].fields[k] == doc.fields["result"].fields[k])
  {
  }

  /** The document as the filter leaves it. */
  function FilterDocument(doc: Json, mode: FilterMode, providers: seq<string>): Json
    requires Capabilities(doc).Some?
  {
    ReplaceCapabilities(doc, Filtered(Capabilities(doc).value, mode, providers))
  }

  /** A frame that decodes but does not carry a capabilities object. */
  predicate Skipped(codec: Codec, frame: seq<byte>) {
    codec.unmarshal(frame).Ok? && Capabilities(codec.unmarshal(frame).value).None?
  }

  /** What the framed loop does from frame `i` on. */
  function ScanFrom(frames: seq<seq<byte>>, i: nat, codec: Codec, mode: FilterMode, providers: seq<string>): Scan
    requires i <= |frames|
    decreases |frames| - i
  {
    if i == |frames| then Scan([], Exhausted)
    else
      match codec.unmarshal(frames[i])
      case Err(e) => Scan([], Aborted(i, e))
      case Ok(doc) =>
        if Capabilities(doc).None? then
          var rest := ScanFrom(frames, i + 1, codec, mode, providers);
          Scan([frames[i]] + rest.emitted, rest.stop)
        else
          Scan([codec.marshal(FilterDocument(doc, mode, providers))], Intercepted(i))
  }

  /** The loop's result once `prefix` has already been emitted. */
  function After(prefix: seq<seq<byte>>, r: Scan): Scan {
    Scan(prefix + r.emitted, r.stop)
  }

  /** Skipping frame `i` moves it from the rest of the scan to the prefix. */
  lemma SkipStep(frames: seq<seq<byte>>, i: nat, codec: Codec, mode: FilterMode, providers: seq<string>)
    requires i < |frames| && Skipped(codec, frames[i])
    ensures After(frames[..i], ScanFrom(frames, i, codec, mode, providers)) ==
            After(frames[..i + 1], ScanFrom(frames, i + 1, codec, mode, providers))
    ensures frames[..i + 1] == frames[..i] + [frames[i]]
  {
    var rest := ScanFrom(frames, i + 1, codec, mode, providers);
    assert frames[..i + 1] == frames[..i] + [frames[i]];
    assert frames[..i] + ([frames[i]] + rest.emitted) == frames[..i + 1] + rest.emitted;
  }

  /** The framed loop of `stdoutReader`. */
  method StdoutReader(frames: seq<seq<byte>>, codec: Codec, mode: FilterMode, providers: seq<string>)
    returns (stdout: seq<byte>, emitted: seq<seq<byte>>, stop: Stop)
    ensures Scan(emitted, stop) == ScanFrom(frames, 0, codec, mode, providers)
    ensures stdout == FramedAll(emitted)
  {
    stdout, emitted, stop := [], [], Exhausted;
    var i := 0;
    while i < |frames|
      invariant i <= |frames|
      invariant emitted == frames[..i]
      invariant stdout == FramedAll(emitted)
      invariant ScanFrom(frames, 0, codec, mode, providers) == After(emitted, ScanFrom(frames, i, codec, mode, providers))
    {
      var decoded := codec.unmarshal(frames[i]);
      var status := Utils.PanicIfError(decoded.Error());
      if status.Fail? {
        stop := Aborted(i, status.error);
        return;
      }
      var f := decoded.value;
      var capabilities := Capabilities(f);
      if capabilities.None? {
        SkipStep(frames, i, codec, mode, providers);
        stdout := StdoutWrite(stdout, frames[i]);
        FramedAllAppend(emitted, frames[i]);
        emitted := emitted + [frames[i]];
        assert stdout == FramedAll(emitted);
        i := i + 1;
        continue;
      }
      var filtered, enabled, disabled := FilterCapabilities(capabilities.value, mode, providers);
      var b := codec.marshal(ReplaceCapabilities(f, filtered));
      stdout := StdoutWrite(stdout, b);
      FramedAllAppend(emitted, b);
      emitted := emitted + [b];
      stop := Intercepted(i);
      return;
    }
  }

  /** The frames `i` up to `n` all decode and none carries capabilities. */
  predicate AllSkipped(frames: seq<seq<byte>>, i: nat, n: nat, codec: Codec)
    requires i <= n <= |frames|
  {
    forall j :: i <= j < n ==> Skipped(codec, frames[j])
  }

  /** What the framed loop writes, by how it ends: every frame before the
      stop is re-emitted byte for byte; a frame that fails to decode stops
      the loop with nothing more written; the first capabilities-bearing
      frame is the only one filtered, and is the last one written. */
  lemma {:induction false} ScanShape(frames: seq<seq<byte>>, i: nat, codec: Codec, mode: FilterMode, providers: seq<string>)
    requires i <= |frames|
    ensures var r := ScanFrom(frames, i, codec, mode, providers);
      match r.stop
      case Exhausted =>
        r.emitted == frames[i..] && AllSkipped(frames, i, |frames|, codec)
      case Aborted(n, e) =>
        && i <= n < |frames|
        && codec.unmarshal(frames[n]) == Err(e)
        && r.emitted == frames[i..n] && AllSkipped(frames, i, n, codec)
      case Intercepted(n) =>
        && i <= n < |frames|
        && codec.unmarshal(frames[n]).Ok?
        && Capabilities(codec.unmarshal(frames[n]).value).Some?
        && r.emitted == frames[i..n] + [codec.marshal(FilterDocument(codec.unmarshal(frames[n]).value, mode, providers))]
        && AllSkipped(frames, i, n, codec)
    decreases |frames| - i
  {
    if i < |frames| && Skipped(codec, frames[i]) {
      ScanShape(frames, i + 1, codec, mode, providers);
      var rest := ScanFrom(frames, i + 1, codec, mode, providers);
      assert ScanFrom(frames, i, codec, mode, providers) == Scan([frames[i]] + rest.emitted, rest.stop);
      match rest.stop
      case Exhausted =>
        SliceCons(frames, i, |frames|);
      case Aborted(n, e) =>
        SliceCons(frames, i, n);
      case Intercepted(n) =>
        SliceCons(frames, i, n);
    }
  }

  /** A non-empty slice is its first element followed by the rest. */
  lemma SliceCons<T>(s: seq<T>, i: nat, n: nat)
    requires i < n <= |s|
    ensures s[i..n] == [s[i]] + s[i + 1..n]
    ensures n == |s| ==> s[i..] == [s[i]] + s[i + 1..]
  {
  }

  /** If no frame is a capabilities-bearing response and every frame
      decodes, every frame is re-emitted unchanged and nothing is filtered. */
  lemma NonCapabilityPassthrough(frames: seq<seq<byte>>, codec: Codec, mode: FilterMode, providers: seq<string>)
    requires AllSkipped(frames, 0, |frames|, codec)
    ensures ScanFrom(frames, 0, codec, mode, providers) == Scan(frames, Exhausted)
  {
    ScanShape(frames, 0, codec, mode, providers);
    assert frames[0..] == frames;
  }

  /** Once the loop has stopped, frames after the stopping one are never
      looked at: appending more frames changes nothing. */
  lemma {:induction false} LaterFramesIgnored(frames: seq<seq<byte>>, more: seq<seq<byte>>, i: nat,
                                              codec: Codec, mode: FilterMode, providers: seq<string>)
    requires i <= |frames|
    requires !ScanFrom(frames, i, codec, mode, providers).stop.Exhausted?
    ensures ScanFrom(frames + more, i, codec, mode, providers) == ScanFrom(frames, i, codec, mode, providers)
    decreases |frames| - i
  {
    assert (frames + more)[i] == frames[i];
    if Skipped(codec, frames[i]) {
      LaterFramesIgnored(frames, more, i + 1, codec, mode, providers);
    }
  }

  /** The filtered document carries the filtered capabilities, and filtering
      it again with the same mode and providers gives it back unchanged. */
  lemma FilterDocumentIdempotent(doc: Json, mode: FilterMode, providers: seq<string>)
    requires Capabilities(doc).Some?
    ensures Capabilities(FilterDocument(doc, mode, providers)) == Some(Filtered(Capabilities(doc).value, mode, providers))
    ensures FilterDocument(FilterDocument(doc, mode, providers), mode, providers) == FilterDocument(doc, mode, providers)
  {
    var once := FilterDocument(doc, mode, providers);
    ReplaceCapabilitiesOnly(doc, Filtered(Capabilities(doc).value, mode, providers));
    FilterIdempotent(Capabilities(doc).value, mode, providers);
    var twice := FilterDocument(once, mode, providers);
    assert twice.fields.Keys == once.fields.Keys;
    assert twice.fields["result"].fields == once.fields["result"].fields;
  }
}
