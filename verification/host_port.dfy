/**
  `format_host_port` from src/trio/_highlevel_open_tcp_stream.py: the
  `host:port` text used in error messages. A host given as bytes is first
  decoded as ASCII; a host containing `:` (an IPv6 literal) is put in
  square brackets so that the port stays separable.
 */
module HostPort {
  import opened Wrappers

  newtype byte = x: int | 0 <= x < 256

  /** The host argument: `str` or `bytes`. */
  datatype Host = TextHost(text: string) | BytesHost(bytes: seq<byte>)

  /** The port argument: `int` or `str`. */
  datatype Port = IntPort(number: int) | TextPort(text: string)

  /**
    `bytes.decode("ascii")`. The error carries the index of the first byte
    outside the ASCII range, where Python's `UnicodeDecodeError` points.
   */
  function DecodeAscii(bs: seq<byte>): (r: Result<string, nat>)
    ensures r.Ok? <==> forall k | 0 <= k < |bs| :: bs[k] < 128
    ensures r.Ok? ==> |r.value| == |bs| && forall k | 0 <= k < |bs| :: r.value[k] as int == bs[k] as int
    ensures r.Err? ==> r.error < |bs| && bs[r.error] >= 128 && forall k | 0 <= k < r.error :: bs[k] < 128
  {
    if bs == [] then Ok([])
    else if bs[0] >= 128 then Err(0)
    else match DecodeAscii(bs[1..])
      case Ok(rest) => Ok([bs[0] as int as char] + rest)
      case Err(i) => Err(i + 1)
  }

  /** `str.encode("ascii")` on text whose characters are all ASCII. */
  function EncodeAscii(s: string): (r: seq<byte>)
    requires forall k | 0 <= k < |s| :: s[k] as int < 128
    ensures |r| == |s| && forall k | 0 <= k < |s| :: r[k] as int == s[k] as int
  {
    if s == [] then [] else [s[0] as int as byte] + EncodeAscii(s[1..])
  }

  /** Decoding is the inverse of encoding on ASCII text. */
  lemma {:induction false} DecodeEncode(s: string)
    requires forall k | 0 <= k < |s| :: s[k] as int < 128
    ensures DecodeAscii(EncodeAscii(s)) == Ok(s)
  {
    if s != [] {
      var bs := EncodeAscii(s);
      assert bs[1..] == EncodeAscii(s[1..]);
      DecodeEncode(s[1..]);
      assert [bs[0] as int as char] + s[1..] == s;
    }
  }

  predicate IsDigit(c: char) {
    '0' <= c <= '9'
  }

  function DigitChar(d: nat): (c: char)
    requires d < 10
    ensures IsDigit(c) && c as int - '0' as int == d
  {
    (48 + d) as char
  }

  /** The decimal digits of `n`, most significant first, without leading zeros. */
  function Digits(n: nat): (r: string)
    ensures |r| >= 1
    ensures forall c | c in r :: IsDigit(c)
    ensures r[0] == '0' ==> n == 0
  {
    if n < 10 then [DigitChar(n)] else Digits(n / 10) + [DigitChar(n % 10)]
  }

  /** `str(n)` for a Python `int`. */
  function DecimalText(n: int): (r: string)
    ensures forall c | c in r :: c == '-' || IsDigit(c)
    ensures ':' !in r
  {
    if n < 0 then "-" + Digits(-n) else Digits(n)
  }

  /** The value of a non-empty string of decimal digits. */
  function ParseDigits(s: string): (r: Option<nat>)
    ensures r.Some? <==> s != [] && forall c | c in s :: IsDigit(c)
  {
    if s == [] then None
    else
      var init, last := s[..|s| - 1], s[|s| - 1];
      assert s == init + [last];
      if !IsDigit(last) then None
      else if init == [] then Some(last as int - '0' as int)
      else match ParseDigits(init)
        case None => None
        case Some(v) => Some(10 * v + (last as int - '0' as int))
  }

  /** `int(s)` on the texts that `DecimalText` produces. */
  function ParseDecimal(s: string): (r: Option<int>)
    ensures r.Some? ==> s != []
  {
    if s != [] && s[0] == '-' then
      match ParseDigits(s[1..])
      case None => None
      case Some(v) => Some(-(v as int))
    else
      match ParseDigits(s)
      case None => None
      case Some(v) => Some(v)
  }

  lemma {:induction false} ParseDigitsOfDigits(n: nat)
    ensures ParseDigits(Digits(n)) == Some(n)
  {
    if n >= 10 {
      ParseDigitsOfDigits(n / 10);
      var s := Digits(n);
      assert s[..|s| - 1] == Digits(n / 10);
    }
  }

  /** Reading back the decimal text of an integer gives the integer. */
  lemma DecimalRoundTrip(n: int)
    ensures ParseDecimal(DecimalText(n)) == Some(n)
  {
    if n < 0 {
      ParseDigitsOfDigits(-n);
      assert DecimalText(n)[1..] == Digits(-n);
    } else {
      ParseDigitsOfDigits(n);
      assert DecimalText(n)[0] in Digits(n);
    }
  }

  /** What an f-string puts in place of `{port}`. */
  function PortText(port: Port): (r: string)
    ensures port.IntPort? ==> ParseDecimal(r) == Some(port.number)
    ensures port.IntPort? ==> ':' !in r
  {
    match port
    case IntPort(n) => DecimalRoundTrip(n); DecimalText(n)
    case TextPort(s) => s
  }

  /**
    The host as text, or the index of the first non-ASCII byte of a bytes
    host.
   */
  function HostText(host: Host): (r: Result<string, nat>)
    ensures host.TextHost? ==> r == Ok(host.text)
    ensures host.BytesHost? ==> r == DecodeAscii(host.bytes)
  {
    match host
    case TextHost(s) => Ok(s)
    case BytesHost(bs) => DecodeAscii(bs)
  }

  function Bracketed(h: string): string {
    "[" + h + "]"
  }

  /**
    `format_host_port`: fails exactly when a bytes host is not ASCII;
    otherwise host and port text separated by the last `:` of the result,
    the host bracketed exactly when it contains a `:` itself.
   */
  function FormatHostPort(host: Host, port: Port): (r: Result<string, nat>)
    ensures r.Err? <==> host.BytesHost? && exists k | 0 <= k < |host.bytes| :: host.bytes[k] >= 128
    ensures r.Err? ==> r.error < |host.bytes| && host.bytes[r.error] >= 128
    ensures r.Ok? ==>
      var h := HostText(host).value;
      && (':' in h ==> r.value == Bracketed(h) + ":" + PortText(port))
      && (':' !in h ==> r.value == h + ":" + PortText(port))
  {
    match HostText(host)
    case Err(i) => Err(i)
    case Ok(h) => Ok((if ':' in h then Bracketed(h) else h) + ":" + PortText(port))
  }

  /** The index of the last `c` in `s`, if any. */
  function LastIndexOf(s: string, c: char): (r: Option<nat>)
    ensures r.Some? ==> r.value < |s| && s[r.value] == c && c !in s[r.value + 1..]
    ensures r.None? <==> c !in s
  {
    if s == [] then None
    else if s[|s| - 1] == c then Some(|s| - 1)
    else
      var r := LastIndexOf(s[..|s| - 1], c);
      assert s == s[..|s| - 1] + [s[|s| - 1]];
      if r.None? then None
      else
        assert s[r.value + 1..] == s[..|s| - 1][r.value + 1..] + [s[|s| - 1]];
        r
  }

  /**
    Splitting a `host:port` text at its last `:`, removing the brackets
    around a host that needs them. The partner of `FormatHostPort`.
   */
  function SplitHostPort(s: string): (r: Option<(string, string)>)
    ensures r.None? <==> ':' !in s
  {
    match LastIndexOf(s, ':')
    case None => None
    case Some(i) =>
      var hostPart, portPart := s[..i], s[i + 1..];
      if |hostPart| >= 2 && hostPart[0] == '[' && hostPart[|hostPart| - 1] == ']'
         && ':' in hostPart[1..|hostPart| - 1]
      then Some((hostPart[1..|hostPart| - 1], portPart))
      else Some((hostPart, portPart))
  }

  lemma SplitAt(h: string, p: string)
    requires ':' !in p
    ensures LastIndexOf(h + ":" + p, ':') == Some(|h|)
  {
    var s := h + ":" + p;
    assert s[|h|] == ':';
    assert s[|h| + 1..] == p;
  }

  /**
    The formatted text can be split back into the decoded host and the
    port text, provided the port text has no `:` of its own (always the
    case for an integer port).
   */
  lemma FormatThenSplit(host: Host, port: Port)
    requires FormatHostPort(host, port).Ok?
    requires ':' !in PortText(port)
    ensures SplitHostPort(FormatHostPort(host, port).value) == Some((HostText(host).value, PortText(port)))
  {
    var h, p := HostText(host).value, PortText(port);
    if ':' in h {
      SplitBracketed(h, p);
    } else {
      SplitPlain(h, p);
    }
  }

  lemma SplitBracketed(h: string, p: string)
    requires ':' in h && ':' !in p
    ensures SplitHostPort(Bracketed(h) + ":" + p) == Some((h, p))
  {
    var b := Bracketed(h);
    SplitAt(b, p);
    var s := b + ":" + p;
    assert s[..|b|] == b;
    assert s[|b| + 1..] == p;
    assert b[1..|b| - 1] == h;
  }

  lemma SplitPlain(h: string, p: string)
    requires ':' !in h && ':' !in p
    ensures SplitHostPort(h + ":" + p) == Some((h, p))
  {
    SplitAt(h, p);
    var s := h + ":" + p;
    assert s[..|h|] == h;
    assert s[|h| + 1..] == p;
    if |h| >= 2 && h[0] == '[' && h[|h| - 1] == ']' {
      assert forall c | c in h[1..|h| - 1] :: c in h;
    }
  }

  /** An integer port always survives the round trip, whatever the host. */
  lemma IntPortRoundTrip(host: Host, n: int)
    requires FormatHostPort(host, IntPort(n)).Ok?
    ensures match SplitHostPort(FormatHostPort(host, IntPort(n)).value)
      case Some((h, p)) => h == HostText(host).value && ParseDecimal(p) == Some(n)
      case None => false
  {
    FormatThenSplit(host, IntPort(n));
  }
}
