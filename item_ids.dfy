/**
 * The textual item keys of the rating log. The front end encodes catalog
 * index n as "i" followed by the decimal digits of n; both engines decode a
 * key with Python's `int(key[1:])`, which drops the first character,
 * whatever it is, and parses the rest as a decimal number.
 */
module ItemIds {

  import opened Wrappers

  predicate IsDigit(c: char) {
    '0' <= c <= '9'
  }

  predicate AllDigits(s: string) {
    forall k :: 0 <= k < |s| ==> IsDigit(s[k])
  }

  function DigitChar(d: nat): (c: char)
    requires d < 10
    ensures IsDigit(c) && c as int - '0' as int == d
  {
    ('0' as int + d) as char
  }

  /** Python's `str(n)` for a non-negative int. */
  function NatToString(n: nat): (s: string)
    decreases n
  {
    if n < 10 then [DigitChar(n)] else NatToString(n / 10) + [DigitChar(n % 10)]
  }

  /** The value of a string of decimal digits (leading zeros allowed, as `int` allows them). */
  function ParseDigits(s: string): nat
    requires AllDigits(s)
  {
    if s == [] then 0
    else ParseDigits(s[..|s| - 1]) * 10 + (s[|s| - 1] as int - '0' as int)
  }

  /** `get_item_id`: the key of catalog index n. */
  function EncodeItemId(n: nat): (key: string)
    ensures |key| >= 2 && key[0] == 'i'
  {
    "i" + NatToString(n)
  }

  /**
   * `int(key[1:])`; None where Python raises ValueError (no digits, or a
   * non-digit). It inverts the front end's encoding.
   */
  function DecodeItemId(key: string): (r: Option<nat>)
    ensures r.Some? <==> |key| >= 2 && AllDigits(key[1..])
    ensures forall n: nat :: key == EncodeItemId(n) ==> r == Some(n)
  {
    EncodedKeys(key);
    if |key| >= 2 && AllDigits(key[1..]) then Some(ParseDigits(key[1..])) else None
  }

  /** `[int(item[1:]) for item in keys]`; None as soon as one key fails to decode. */
  function DecodeItemIds(keys: seq<string>): (r: Option<seq<nat>>)
    ensures r.Some? <==> forall k :: 0 <= k < |keys| ==> DecodeItemId(keys[k]).Some?
    ensures r.Some? ==> |r.value| == |keys|
    ensures r.Some? ==> forall k :: 0 <= k < |keys| ==> DecodeItemId(keys[k]) == Some(r.value[k])
  {
    if keys == [] then Some([])
    else
      match (DecodeItemIds(keys[..|keys| - 1]), DecodeItemId(keys[|keys| - 1]))
      case (Some(init), Some(last)) => Some(init + [last])
      case _ => None
  }

  lemma {:induction false} ParseNatToString(n: nat)
    ensures AllDigits(NatToString(n)) && ParseDigits(NatToString(n)) == n
    decreases n
  {
    if n >= 10 {
      ParseNatToString(n / 10);
      var s := NatToString(n);
      assert s[..|s| - 1] == NatToString(n / 10);
    }
  }

  /** The digits after the first character of an encoded key parse back to its number. */
  lemma EncodedKeys(key: string)
    ensures forall n: nat :: key == EncodeItemId(n) ==> AllDigits(key[1..]) && ParseDigits(key[1..]) == n
  {
    forall n: nat | key == EncodeItemId(n) ensures AllDigits(key[1..]) && ParseDigits(key[1..]) == n {
      ParseNatToString(n);
      assert key[1..] == NatToString(n);
    }
  }

  /** Decoding inverts the front end's encoding. */
  lemma DecodeEncode(n: nat)
    ensures DecodeItemId(EncodeItemId(n)) == Some(n)
  {
  }

  /** Distinct catalog indices get distinct keys. */
  lemma EncodeInjective(m: nat, n: nat)
    requires EncodeItemId(m) == EncodeItemId(n)
    ensures m == n
  {
    DecodeEncode(m);
    DecodeEncode(n);
  }

  /** Keys differing only in their first character decode alike: `int(item[1:])` ignores it. */
  lemma DecodeIgnoresPrefix(c: char, digits: string)
    requires |digits| >= 1 && AllDigits(digits)
    ensures DecodeItemId([c] + digits) == Some(ParseDigits(digits))
  {
    assert ([c] + digits)[1..] == digits;
  }
}
