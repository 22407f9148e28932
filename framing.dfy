/** The header framing that `stdoutWrite` puts around every message it
    emits: the "Header Part" of the "Base Protocol" section of the Language
    Server Protocol Specification 3.17, restricted to the one header the
    wrapper writes,

        Content-Length: <decimal byte count>\r\n\r\n<payload>

    The parser below is a specification-level reader of that format, used
    only to state that what is written can be read back; it is not the
    wrapper's own frame scanner. */
module Framing {
  import opened Wrappers

  type byte = b: int | 0 <= b < 256

  /** The bytes of an ASCII string. */
  function Ascii(s: string): (r: seq<byte>)
    requires forall i :: 0 <= i < |s| ==> s[i] as int < 128
    ensures |r| == |s|
    ensures forall i :: 0 <= i < |s| ==> r[i] == s[i] as int
  {
    seq(|s|, i requires 0 <= i < |s| => s[i] as int)
  }

  const HeaderName: seq<byte> := Ascii("Content-Length: ")
  const HeaderEnd: seq<byte> := Ascii("\r\n\r\n")

  const Zero: byte := '0' as int

  predicate IsDigit(b: byte) {
    Zero <= b <= Zero + 9
  }

  predicate AllDigits(s: seq<byte>) {
    forall i :: 0 <= i < |s| ==> IsDigit(s[i])
  }

  /** The shortest decimal text of `n`, as `%d` prints a non-negative int. */
  function Decimal(n: nat): (r: seq<byte>)
    ensures 1 <= |r|
    ensures AllDigits(r)
    ensures r[0] == Zero ==> n == 0
  {
    if n < 10 then [Zero + n] else Decimal(n / 10) + [Zero + n % 10]
  }

  /** The number a string of decimal digits denotes. */
  function DecimalValue(s: seq<byte>): nat
    requires AllDigits(s)
  {
    if s == [] then 0 else DecimalValue(s[..|s| - 1]) * 10 + (s[|s| - 1] - Zero)
  }

  /** Reading the decimal text of `n` back gives `n`. */
  lemma {:induction false} DecimalRoundTrip(n: nat)
    ensures DecimalValue(Decimal(n)) == n
  {
    var d := Decimal(n);
    if n >= 10 {
      assert d[..|d| - 1] == Decimal(n / 10);
      DecimalRoundTrip(n / 10);
    }
  }

  /** The number of leading decimal digits of `s`. */
  function DigitRun(s: seq<byte>): (k: nat)
    ensures k <= |s|
    ensures AllDigits(s[..k])
    ensures k < |s| ==> !IsDigit(s[k])
  {
    if s == [] || !IsDigit(s[0]) then 0
    else
      var k := 1 + DigitRun(s[1..]);
      assert s[..k] == [s[0]] + s[1..][..k - 1];
      k
  }

  lemma {:induction false} DigitRunOfDecimal(ds: seq<byte>, rest: seq<byte>)
    requires AllDigits(ds)
    requires rest != [] && !IsDigit(rest[0])
    ensures DigitRun(ds + rest) == |ds|
  {
    if ds != [] {
      assert (ds + rest)[1..] == ds[1..] + rest;
      DigitRunOfDecimal(ds[1..], rest);
    }
  }

  /** The frame `stdoutWrite` emits for payload `b`. */
  function Framed(b: seq<byte>): (r: seq<byte>)
    ensures |r| == |HeaderName| + |Decimal(|b|)| + |HeaderEnd| + |b|
    ensures r[|r| - |b|..] == b
  {
    HeaderName + Decimal(|b|) + HeaderEnd + b
  }

  /** Reads one frame off the front of `s`: the payload its header
      declares and the bytes that follow it. */
  function ParseFrame(s: seq<byte>): (r: Option<(seq<byte>, seq<byte>)>)
    ensures r.Some? ==> |r.value.1| < |s|
  {
    var n := |HeaderName|;
    if |s| < n || s[..n] != HeaderName then None
    else
      var k := DigitRun(s[n..]);
      var start := n + k + |HeaderEnd|;
      if k == 0 || |s| < start || s[n + k..start] != HeaderEnd then None
      else
        assert s[n..n + k] == s[n..][..k];
        var len := DecimalValue(s[n..n + k]);
        if |s| < start + len then None
        else Some((s[start..start + len], s[start + len..]))
  }

  /** Reads a whole stream of frames; None if any part is not a frame. */
  function ParseFrames(s: seq<byte>): Option<seq<seq<byte>>>
    decreases |s|
  {
    if s == [] then Some([])
    else
      match ParseFrame(s)
      case None => None
      case Some((p, rest)) =>
        match ParseFrames(rest)
        case None => None
        case Some(ps) => Some([p] + ps)
  }

  /** The frames of `ps`, one after another. */
  function FramedAll(ps: seq<seq<byte>>): seq<byte>
  {
    if ps == [] then [] else Framed(ps[0]) + FramedAll(ps[1..])
  }

  lemma HeaderFacts()
    ensures |HeaderName| == 16 && |HeaderEnd| == 4
    ensures HeaderEnd != [] && !IsDigit(HeaderEnd[0])
  {
  }

  /** The pieces of a concatenation are its slices. */
  lemma ConcatSlices<T>(a: seq<T>, b: seq<T>, c: seq<T>, d: seq<T>, e: seq<T>)
    ensures var s := a + b + c + d + e;
      && s[..|a|] == a
      && s[|a|..] == b + (c + d + e)
      && s[|a|..|a| + |b|] == b
      && s[|a| + |b|..|a| + |b| + |c|] == c
      && s[|a| + |b| + |c|..|a| + |b| + |c| + |d|] == d
      && s[|a| + |b| + |c| + |d|..] == e
  {
  }

  /** Reading a frame back yields exactly the payload written, whatever it
      contains (including "\r\n\r\n" or nothing at all), and leaves the
      bytes after it untouched. */
  lemma FrameRoundTrip(b: seq<byte>, rest: seq<byte>)
    ensures ParseFrame(Framed(b) + rest) == Some((b, rest))
  {
    var d := Decimal(|b|);
    var s := Framed(b) + rest;
    assert s == HeaderName + d + HeaderEnd + b + rest;
    ConcatSlices(HeaderName, d, HeaderEnd, b, rest);
    HeaderFacts();
    var n := |HeaderName|;
    DigitRunOfDecimal(d, HeaderEnd + b + rest);
    var k := DigitRun(s[n..]);
    assert k == |d|;
    var start := n + k + |HeaderEnd|;
    assert s[..n] == HeaderName;
    assert s[n + k..start] == HeaderEnd;
    DecimalRoundTrip(|b|);
    assert DecimalValue(s[n..n + k]) == |b|;
    assert s[start..start + |b|] == b;
    assert s[start + |b|..] == rest;
  }

  /** The concatenated frames of a whole stream read back as the same
      sequence of payloads. */
  lemma {:induction false} FramedAllRoundTrip(ps: seq<seq<byte>>)
    ensures ParseFrames(FramedAll(ps)) == Some(ps)
  {
    if ps != [] {
      var s := FramedAll(ps);
      var tail := FramedAll(ps[1..]);
      assert s == Framed(ps[0]) + tail;
      FrameRoundTrip(ps[0], tail);
      FramedAllRoundTrip(ps[1..]);
      assert s != [];
      assert ParseFrames(s) == Some([ps[0]] + ps[1..]);
      assert [ps[0]] + ps[1..] == ps;
    }
  }

  lemma {:induction false} FramedAllAppend(ps: seq<seq<byte>>, p: seq<byte>)
    ensures FramedAll(ps + [p]) == FramedAll(ps) + Framed(p)
  {
    if ps == [] {
      assert [] + [p] == [p];
    } else {
      assert (ps + [p])[1..] == ps[1..] + [p];
      FramedAllAppend(ps[1..], p);
    }
  }

  /** `stdoutWrite`: appends to the output stream the header declaring the
      payload's byte count, the blank line, then the payload. */
  method StdoutWrite(stdout: seq<byte>, b: seq<byte>) returns (stdout': seq<byte>)
    ensures stdout' == stdout + HeaderName + Decimal(|b|) + HeaderEnd + b
    ensures stdout' == stdout + Framed(b)
    ensures ParseFrame(stdout'[|stdout|..]) == Some((b, []))
  {
    stdout' := stdout + HeaderName + Decimal(|b|) + HeaderEnd;
    stdout' := stdout' + b;
    assert stdout'[|stdout|..] == Framed(b) + [];
    FrameRoundTrip(b, []);
  }
}
