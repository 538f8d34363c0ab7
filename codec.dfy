/** Images as opaque tokens, the placeholder batch, data-URI stripping and the
    decimal rendering of seeds. Pixel data, JPEG/PNG codecs and base64 are not
    modelled: decoding is a partial function handed in by the caller. */
module Codec {
  import opened Common

  /** An image of the host's batch. `Zero` is the all-zero 512x512x3 placeholder. */
  datatype Image = Zero | Picture(id: nat)

  /** Base64 text of one generated image -> decoded image, or None when base64 or
      the image codec rejects it. */
  type Decoder = string -> Option<Image>

  /** `torch.zeros((n, 512, 512, 3))`, one placeholder per requested image. */
  function ZeroBatch(n: nat): seq<Image> {
    seq(n, _ => Zero)
  }

  /** Index of the first comma of `s`, if any. */
  function FirstComma(s: string): (r: Option<nat>)
    ensures r.Some? ==> r.value < |s| && s[r.value] == ',' && ',' !in s[..r.value]
    ensures r.None? <==> ',' !in s
  {
    if |s| == 0 then None
    else if s[0] == ',' then Some(0)
    else match FirstComma(s[1..])
      case None => None
      case Some(i) =>
        assert s[..i + 1] == [s[0]] + s[1..][..i];
        Some(i + 1)
  }

  /** `s.split(",", 1)[1] if "," in s else s`: drops a `data:...;base64,` prefix. */
  function StripDataUri(s: string): (r: string)
    ensures ',' !in s ==> r == s
    ensures ',' in s ==> exists i :: 0 <= i < |s| && s[i] == ',' && ',' !in s[..i] && r == s[i + 1..]
  {
    match FirstComma(s)
    case None => s
    case Some(i) => s[i + 1..]
  }

  /** Whatever follows a comma-free prefix and its comma comes back unchanged,
      commas in the payload included. */
  lemma StripAfterPrefix(prefix: string, payload: string)
    requires ',' !in prefix
    ensures StripDataUri(prefix + "," + payload) == payload
  {
    var s := prefix + "," + payload;
    assert s[|prefix|] == ',';
    assert s[..|prefix|] == prefix;
    assert FirstComma(s) == Some(|prefix|);
    assert s[|prefix| + 1..] == payload;
  }

  /** The digit character for 0..9. */
  function DigitChar(d: nat): char
    requires d < 10
  {
    "0123456789"[d]
  }

  /** The digit character of a digit reads back as that digit. */
  lemma DigitCharValue(d: nat)
    requires d < 10
    ensures DigitValue(DigitChar(d)) == d
  {
  }

  /** The value of a digit character. */
  function DigitValue(c: char): nat
  {
    if '0' <= c <= '9' then (c as int - '0' as int) as nat else 0
  }

  /** Decimal digits of a natural number, most significant first, no leading zeros. */
  function Digits(n: nat): (s: string)
    ensures |s| > 0
    ensures forall k :: 0 <= k < |s| ==> '0' <= s[k] <= '9'
    ensures |s| > 1 ==> s[0] != '0'
  {
    if n < 10 then [DigitChar(n)] else Digits(n / 10) + [DigitChar(n % 10)]
  }

  /** Python's `str(n)` for an int. */
  function Decimal(n: int): string
  {
    if n < 0 then "-" + Digits(-n) else Digits(n)
  }

  /** Reads back a string of decimal digits. */
  function ParseDigits(s: string): nat
  {
    if |s| == 0 then 0 else ParseDigits(s[..|s| - 1]) * 10 + DigitValue(s[|s| - 1])
  }

  /** Reads back `str(n)`. */
  function ParseDecimal(s: string): int
  {
    if |s| > 0 && s[0] == '-' then -(ParseDigits(s[1..]) as int) else ParseDigits(s)
  }

  lemma {:induction false} DigitsRoundTrip(n: nat)
    ensures ParseDigits(Digits(n)) == n
  {
    if n >= 10 {
      var s := Digits(n);
      assert s[..|s| - 1] == Digits(n / 10);
      assert s[|s| - 1] == DigitChar(n % 10);
      DigitsRoundTrip(n / 10);
      DigitCharValue(n % 10);
      assert ParseDigits(s) == (n / 10) * 10 + n % 10;
    }
  }

  /** `str` loses nothing: the seed text reads back as the seed, so distinct seeds
      are echoed as distinct strings. */
  lemma DecimalRoundTrip(n: int)
    ensures ParseDecimal(Decimal(n)) == n
  {
    if n < 0 {
      NegativeRoundTrip(n);
    } else {
      DigitsRoundTrip(n);
      ParseUnsigned(Digits(n));
    }
  }

  /** A negative seed is echoed as a minus sign and the digits of its magnitude. */
  lemma NegativeRoundTrip(n: int)
    requires n < 0
    ensures ParseDecimal(Decimal(n)) == n
  {
    var m: nat := -n;
    var d := Digits(m);
    var s := "-" + d;
    assert Decimal(n) == s;
    DigitsRoundTrip(m);
    ParseSigned(d);
    calc {
      ParseDecimal(Decimal(n));
    ==
      ParseDecimal(s);
    ==  // a leading minus sign negates the digits
      -(ParseDigits(d) as int);
    ==  // the digits read back as the magnitude
      -(m as int);
    }
  }

  /** A leading minus sign negates the digits that follow. */
  lemma ParseSigned(d: string)
    ensures ParseDecimal("-" + d) == -(ParseDigits(d) as int)
  {
    assert ("-" + d)[1..] == d;
  }

  /** Text starting with a digit is read as plain digits. */
  lemma ParseUnsigned(d: string)
    requires |d| > 0 && '0' <= d[0] <= '9'
    ensures ParseDecimal(d) == ParseDigits(d)
  {
  }
}
