/**
 * The decoder of a node-address reply: a list whose first two elements are a
 * host and a decimal port, decoded under the decoder's fixed scheme.
 */
module RedisUriDecoder {
  import opened Wrappers

  datatype RedisURI = RedisURI(scheme: string, host: string, port: int)

  /** The exceptions decode can raise: parts.get(1) on a one-element list, and Integer.valueOf on a bad numeral. */
  datatype DecodeError = IndexOutOfBounds | NumberFormat

  /** Opaque handles for getDecoder's arguments. */
  datatype Codec = Codec(name: string)
  datatype State = State(level: nat)

  /** The element decoders a reply can be read with; this decoder only ever asks for one. */
  datatype ValueDecoder = StringValueDecoder | OtherValueDecoder(name: string)

  const IntMin := -0x8000_0000
  const IntMax := 0x7fff_ffff

  predicate IsDigit(c: char) {
    '0' <= c <= '9'
  }

  predicate AllDigits(s: string) {
    forall i :: 0 <= i < |s| ==> IsDigit(s[i])
  }

  function DigitValue(c: char): nat
    requires IsDigit(c)
  {
    (c as int - '0' as int) as nat
  }

  /** The value of a string of decimal digits, most significant first. */
  function DigitsValue(s: string): nat
    requires AllDigits(s)
  {
    if s == [] then 0 else 10 * DigitsValue(s[..|s| - 1]) + DigitValue(s[|s| - 1])
  }

  /**
   * Integer.valueOf in radix 10: an optional '-' or '+', then at least one
   * digit, and a value that fits in an int; None stands for the
   * NumberFormatException thrown otherwise.
   */
  function ParseInt(s: string): (r: Option<int>)
    ensures r.Some? ==> IntMin <= r.value <= IntMax
    ensures s == [] || s == "-" || s == "+" ==> r.None?
    ensures (exists i :: 0 < i < |s| && !IsDigit(s[i])) ==> r.None?
    ensures r.Some? ==> var d := if s[0] == '-' || s[0] == '+' then s[1..] else s;
      && d != [] && AllDigits(d)
      && r.value == (if s[0] == '-' then 0 - DigitsValue(d) as int else DigitsValue(d) as int)
    ensures (s != [] &&
             var d := if s[0] == '-' || s[0] == '+' then s[1..] else s;
             d != [] && AllDigits(d) &&
             IntMin <= (if s[0] == '-' then 0 - DigitsValue(d) as int else DigitsValue(d) as int) <= IntMax)
            ==> r.Some?
  {
    if s == [] then None
    else
      var digits := if s[0] == '-' || s[0] == '+' then s[1..] else s;
      if digits == [] || !AllDigits(digits) then None
      else
        var v := if s[0] == '-' then 0 - DigitsValue(digits) as int else DigitsValue(digits) as int;
        if IntMin <= v <= IntMax then Some(v) else None
  }

  /** The decimal digits of n, without leading zeros. */
  function NatDigits(n: nat): (s: string)
    ensures s != [] && AllDigits(s)
  {
    if n < 10 then ['0' + n as char] else NatDigits(n / 10) + ['0' + (n % 10) as char]
  }

  /** Integer.toString: the digits of |n|, after a '-' when n is negative. */
  function IntToString(n: int): string {
    if n < 0 then "-" + NatDigits(-n) else NatDigits(n)
  }

  lemma {:induction false} DigitsRoundTrip(n: nat)
    ensures DigitsValue(NatDigits(n)) == n
  {
    if n >= 10 {
      DigitsRoundTrip(n / 10);
      var s := NatDigits(n);
      assert s[..|s| - 1] == NatDigits(n / 10);
    }
  }

  /** Every int printed in decimal parses back to itself. */
  lemma ParsePrinted(n: int)
    requires IntMin <= n <= IntMax
    ensures ParseInt(IntToString(n)) == Some(n)
  {
    DigitsRoundTrip(if n < 0 then -n else n);
    var s := IntToString(n);
    if n < 0 {
      assert s[1..] == NatDigits(-n);
    } else {
      assert NatDigits(n)[0] != '-' && NatDigits(n)[0] != '+';
    }
  }

  /** A plus sign, leading zeros and a negative zero are all accepted, as Integer.valueOf accepts them. */
  lemma ParseNonCanonical()
    ensures ParseInt("+80") == Some(80)
    ensures ParseInt("080") == Some(80)
    ensures ParseInt("-0") == Some(0)
    ensures ParseInt("80a") == None && ParseInt("8 0") == None
  {
    assert "+80"[1..] == "80";
    assert "-0"[1..] == "0";
    assert "80"[..1] == "8" && ""[..0] == "";
    assert DigitsValue("8") == 8 && DigitsValue("80") == 80;
    assert "080"[..2] == "08" && "08"[..1] == "0";
    assert DigitsValue("0") == 0 && DigitsValue("08") == 8 && DigitsValue("080") == 80;
  }

  /** The reply a node sends for an address: its host and its port in decimal. */
  function AddressReply(host: string, port: int): seq<string> {
    [host, IntToString(port)]
  }

  datatype RedisURIDecoder = RedisURIDecoder(scheme: string) {

    /** Every element of the reply is read as a string. */
    function GetDecoder(codec: Codec, paramNum: int, state: State, size: int): (d: ValueDecoder)
      ensures d == StringValueDecoder
    {
      StringValueDecoder
    }

    /**
     * null (None) for an empty list; otherwise the URI with this decoder's
     * scheme, parts[0] as host and parts[1] read as an int as port.
     */
    function Decode(parts: seq<string>, state: State): (r: Result<Option<RedisURI>, DecodeError>)
      ensures parts == [] <==> r == Ok(None)
      ensures |parts| == 1 ==> r == Err(IndexOutOfBounds)
      ensures |parts| >= 2 ==> (r.Ok? <==> ParseInt(parts[1]).Some?)
      ensures r.Err? ==> parts != [] && (|parts| == 1 || ParseInt(parts[1]).None?)
      ensures r.Ok? && r.value.Some? ==>
        && r.value.value.scheme == scheme
        && r.value.value.host == parts[0]
        && Some(r.value.value.port) == ParseInt(parts[1])
    {
      if parts == [] then Ok(None)
      else if |parts| < 2 then Err(IndexOutOfBounds)
      else match ParseInt(parts[1])
        case None => Err(NumberFormat)
        case Some(port) => Ok(Some(RedisURI(scheme, parts[0], port)))
    }
  }

  /** An address reply decodes to the URI it describes under the decoder's scheme. */
  lemma DecodeAddressReply(decoder: RedisURIDecoder, host: string, port: int, state: State)
    requires IntMin <= port <= IntMax
    ensures decoder.Decode(AddressReply(host, port), state) == Ok(Some(RedisURI(decoder.scheme, host, port)))
  {
    ParsePrinted(port);
  }
}
