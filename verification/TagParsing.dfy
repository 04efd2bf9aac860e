/** How deletion tags are read: hexadecimal ids and addresses, with the liberties of the parsers. */
module TagParsing {
  import opened Events
  import opened Encoding
  import opened Visibility
  import opened VisibilityStores

  // "0123456789abcdef" and "0123456789ABCDEF"
  const LOWER: Bytes := [48, 49, 50, 51, 52, 53, 54, 55, 56, 57, 97, 98, 99, 100, 101, 102]
  const UPPER: Bytes := [48, 49, 50, 51, 52, 53, 54, 55, 56, 57, 65, 66, 67, 68, 69, 70]

  /** A digit is one of sixteen characters, in either case. */
  lemma HexDigitIff(b: Byte, n: nat)
    ensures HexDigit(b) == Some(n) <==> IsDigit(b, n)
  {
  }

  predicate IsDigit(b: Byte, n: nat) {
    n < 16 && (LOWER[n] == b || UPPER[n] == b)
  }

  /** Two digits make a byte. */
  lemma PairOfDigits(a: Byte, b: Byte, high: nat, low: nat)
    requires IsDigit(a, high) && IsDigit(b, low)
    ensures HexPair(a, b) == Some(16 * high + low)
  {
    HexDigitIff(a, high);
    HexDigitIff(b, low);
  }

  /** So do a plus sign and a digit, and nothing else does. */
  lemma OtherPairs(a: Byte, b: Byte)
    ensures a == 43 ==> HexPair(a, b) == HexDigit(b)
    ensures HexPair(a, b).Some? ==> (exists low :: IsDigit(b, low)) && (a == 43 || exists high :: IsDigit(a, high))
  {
    if HexPair(a, b).Some? {
      HexDigitIff(b, HexDigit(b).value);
      assert IsDigit(b, HexDigit(b).value);
      if a != 43 {
        HexDigitIff(a, HexDigit(a).value);
        assert IsDigit(a, HexDigit(a).value);
      }
    }
  }

  lemma LowerCase(n: nat)
    requires n < 16
    ensures HexCharacter(n) == LOWER[n]
  {
  }

  /** Ids are written in lower case, most significant digit first. */
  lemma {:induction false} WrittenInLowerCase(bytes: Bytes, i: nat)
    requires i < |bytes|
    ensures |HexOf(bytes)| == 2 * |bytes| && HexOf(bytes)[2 * i] == LOWER[bytes[i] / 16] && HexOf(bytes)[2 * i + 1] == LOWER[bytes[i] % 16]
  {
    var hex, rest := HexOf(bytes), HexOf(bytes[1..]);
    HexRoundTrip(bytes);
    assert hex == [HexCharacter(bytes[0] / 16), HexCharacter(bytes[0] % 16)] + rest;
    LowerCase(bytes[0] / 16);
    LowerCase(bytes[0] % 16);
    hide HexOf, HexBytes, HexCharacter;
    if i > 0 {
      WrittenInLowerCase(bytes[1..], i - 1);
      assert hex[2 * i] == rest[2 * (i - 1)] && hex[2 * i + 1] == rest[2 * (i - 1) + 1];
    }
  }

  /** Numbers are written in decimal digits without leading zeros. */
  lemma {:induction false} WrittenInDecimal(n: nat)
    ensures DecimalDigits(n) != [] && (forall i :: 0 <= i < |DecimalDigits(n)| ==> 48 <= DecimalDigits(n)[i] <= 57)
    ensures DecimalDigits(n)[|DecimalDigits(n)| - 1] == 48 + n % 10
    ensures if n < 10 then |DecimalDigits(n)| == 1 else DecimalDigits(n)[0] != 48 && DecimalDigits(n)[..|DecimalDigits(n)| - 1] == DecimalDigits(n / 10)
  {
    if n >= 10 {
      WrittenInDecimal(n / 10);
    }
  }

  /** Only 64 characters name an id, and then the 32 bytes their pairs make. */
  lemma IdIsNamedBy(value: Bytes, id: Id)
    ensures HexTo32(value) == Some(id) <==> |value| == 64 && HexBytes(value) == Some(Be(32, id))
  {
    if |value| == 64 && HexBytes(value).Some? {
      var bytes := HexBytes(value).value;
      HexBytesLength(value);
      BeOfUnBe(bytes);
      Widths();
      BeRoundTrip(32, id);
    }
  }

  lemma {:induction false} BeOfUnBe(b: Bytes)
    ensures Be(|b|, UnBe(b)) == b
  {
    if b != [] {
      BeOfUnBe(b[..|b| - 1]);
    }
  }

  lemma HexBytesAre(value: Bytes, i: nat)
    requires HexBytes(value).Some? && 2 * i + 1 < |value|
    ensures i < |HexBytes(value).value| && HexPair(value[2 * i], value[2 * i + 1]) == Some(HexBytes(value).value[i])
  {
    if i > 0 {
      HexBytesAre(value[2..], i - 1);
    }
  }

  /** A number of 32 bits may have a plus sign in front. */
  lemma PlusIsRead(digits: Bytes)
    requires digits != [] && digits[0] != 43
    ensures ParseU32([43] + digits) == ParseU32(digits)
  {
    assert ([43] + digits)[1..] == digits;
  }

  /** An address without a second colon has an empty `d` value. */
  lemma AddressWithoutD(kind: U32, pubkey: Id)
    ensures ParseAddressTag(DecimalDigits(kind) + [58] + HexOf(Be(32, pubkey))) ==
            Some(ReplaceableKey(pubkey, kind, if kind in {0, 3, 41} || 10_000 <= kind < 20_000 then None else Some([])))
  {
    var hex, digits := HexOf(Be(32, pubkey)), DecimalDigits(kind);
    DigitsRoundTrip(kind);
    PubkeyRoundTrip(pubkey);
    hide DecimalDigits, HexOf, ParseU32, HexTo32, Be;
    assert digits + [58] + hex == digits + ([58] + hex);
    SplitColonOf(digits, hex);
    NoColon(hex);
  }

  lemma {:induction false} NoColon(value: Bytes)
    requires 58 !in value
    ensures SplitColon(value) == (value, None)
  {
    if value != [] {
      NoColon(value[1..]);
      assert value == [value[0]] + value[1..];
    }
  }
}
