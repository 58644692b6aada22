/** The radix-58 text form of public keys: decodeBase58 and encodeBase58 of server/wallet-auth.js. */
module Base58 {
  import opened Wrappers
  import opened Numbers

  datatype Base58Error = ValueRequired | InvalidCharacter

  type Digit58 = d: int | 0 <= d < 58

  /** The digits, the capitals without I and O, and the small letters without l, in that order. */
  function Symbol(d: Digit58): char {
    if d < 9 then '1' + d as char
    else if d < 17 then 'A' + (d - 9) as char
    else if d < 22 then 'J' + (d - 17) as char
    else if d < 33 then 'P' + (d - 22) as char
    else if d < 44 then 'a' + (d - 33) as char
    else 'm' + (d - 44) as char
  }

  /** The symbols ascend, and are all digits and letters but the four that are mistaken for others. */
  lemma {:induction false} SymbolsAscend(c: char)
    ensures forall d: Digit58, e: Digit58 :: d < e ==> Symbol(d) < Symbol(e)
    ensures (exists d: Digit58 :: Symbol(d) == c)
      <==> ('0' <= c <= '9' || 'A' <= c <= 'Z' || 'a' <= c <= 'z') && c !in "0OIl"
  {
    if ('1' <= c <= '9') {
      assert Symbol(c as int - '1' as int) == c;
    } else if 'A' <= c <= 'H' {
      assert Symbol(c as int - 'A' as int + 9) == c;
    } else if 'J' <= c <= 'N' {
      assert Symbol(c as int - 'J' as int + 17) == c;
    } else if 'P' <= c <= 'Z' {
      assert Symbol(c as int - 'P' as int + 22) == c;
    } else if 'a' <= c <= 'k' {
      assert Symbol(c as int - 'a' as int + 33) == c;
    } else if 'm' <= c <= 'z' {
      assert Symbol(c as int - 'm' as int + 44) == c;
    }
  }

  // ----- Digits in a base -----

  predicate DigitsOf(digits: seq<int>, base: nat) {
    forall i :: 0 <= i < |digits| ==> 0 <= digits[i] < base
  }

  /** The number a digit sequence denotes, most significant digit first. */
  function Value(digits: seq<int>, base: nat): (n: nat)
    requires DigitsOf(digits, base)
  {
    if digits == [] then 0 else Value(digits[..|digits| - 1], base) * base + digits[|digits| - 1]
  }

  /** The shortest digits of a number; none for zero. */
  function Digits(n: nat, base: nat): (digits: seq<int>)
    requires base > 1
    ensures DigitsOf(digits, base) && (n > 0 ==> digits != [])
    decreases n
  {
    if n == 0 then []
    else
      Shrinks(n, base);
      Digits(n / base, base) + [n % base]
  }

  lemma {:induction false} Shrinks(n: nat, base: nat)
    requires n > 0 && base > 1
    ensures 0 <= n / base < n && 0 <= n % base < base && n == n / base * base + n % base
  {
    QuotientIsSmaller(n, base, n / base, n % base);
  }

  lemma {:induction false} QuotientIsSmaller(n: nat, base: nat, q: int, m: int)
    requires n > 0 && base > 1 && n == q * base + m && 0 <= m < base
    ensures 0 <= q < n
  {
    if q < 0 {
      NextMultiple(q, 0, base);
    } else if q >= n {
      NextMultiple(n - 1, q, base);
      TwiceIsMore(n, base);
    }
  }

  lemma {:induction false} TwiceIsMore(n: nat, base: nat)
    requires n > 0 && base > 1
    ensures (n - 1) * base + base > n
  {
    assert (n - 1) * base + base == n * base && n * base >= n * 2;
  }

  /** How many leading digits are zero. */
  function Zeros(digits: seq<int>): (z: nat)
    ensures z <= |digits| && (forall i :: 0 <= i < z ==> digits[i] == 0) && (z < |digits| ==> digits[z] != 0)
  {
    if digits == [] || digits[0] != 0 then 0 else 1 + Zeros(digits[1..])
  }

  function Repeat<T>(x: T, n: nat): (r: seq<T>)
    ensures |r| == n && forall i :: 0 <= i < n ==> r[i] == x
  {
    seq(n, i => x)
  }

  lemma {:induction false} DigitsLead(n: nat, base: nat)
    requires base > 1 && n > 0
    ensures Digits(n, base)[0] != 0
    decreases n
  {
    Shrinks(n, base);
    if n / base > 0 {
      DigitsLead(n / base, base);
    } else {
      assert n % base == n;
    }
  }

  lemma {:induction false} ValueOfDigits(n: nat, base: nat)
    requires base > 1
    ensures Value(Digits(n, base), base) == n
    decreases n
  {
    if n > 0 {
      Shrinks(n, base);
      ValueOfDigits(n / base, base);
      var front := Digits(n / base, base);
      assert (front + [n % base])[..|front|] == front;
    }
  }

  /** A number's digits are the digits that denote it, less the leading zeros. */
  lemma {:induction false} DigitsStep(high: nat, last: int, base: nat)
    requires base > 1 && high > 0 && 0 <= last < base
    ensures high * base + last > 0 && Digits(high, base) != []
    ensures Digits(high * base + last, base) == Digits(high, base) + [last]
  {
    Split(high, last, base);
    NextMultiple(0, high, base);
  }

  lemma {:induction false} DigitsOfValue(digits: seq<int>, base: nat)
    requires base > 1 && DigitsOf(digits, base)
    ensures Digits(Value(digits, base), base) == digits[Zeros(digits)..]
  {
    if digits != [] {
      var front, last := digits[..|digits| - 1], digits[|digits| - 1];
      var high := Value(front, base);
      DigitsOfValue(front, base);
      Split(high, last, base);
      ZerosOfFront(digits);
      if high == 0 {
        NoDigits(front, base);
      } else {
        DigitsStep(high, last, base);
        assert digits[Zeros(front)..] == front[Zeros(front)..] + [last];
      }
    }
  }

  lemma {:induction false} ZerosOfFront(digits: seq<int>)
    requires digits != []
    ensures var front := digits[..|digits| - 1];
      Zeros(digits) == if Zeros(front) < |front| then Zeros(front) else if digits[|digits| - 1] == 0 then |digits|
                       else |front|
  {
    var front := digits[..|digits| - 1];
    if Zeros(front) < |front| {
      assert digits[Zeros(front)] != 0;
    }
  }

  lemma {:induction false} NoDigits(digits: seq<int>, base: nat)
    requires base > 1 && DigitsOf(digits, base) && Digits(Value(digits, base), base) == digits[Zeros(digits)..]
    requires Value(digits, base) == 0
    ensures Zeros(digits) == |digits|
  {
  }

  lemma {:induction false} Split(high: nat, last: int, base: nat)
    requires base > 1 && 0 <= last < base
    ensures (high * base + last) / base == high && (high * base + last) % base == last
  {
    var n := high * base + last;
    if n / base < high {
      NextMultiple(n / base, high, base);
    } else if n / base > high {
      NextMultiple(high, n / base, base);
    }
  }

  lemma {:induction false} ValueIgnoresZeros(zeros: nat, digits: seq<int>, base: nat)
    requires base > 1 && DigitsOf(digits, base)
    ensures Value(Repeat(0, zeros) + digits, base) == Value(digits, base)
  {
    var all := Repeat(0, zeros) + digits;
    if digits == [] {
      if zeros > 0 {
        ValueIgnoresZeros(zeros - 1, [], base);
        assert all[..zeros - 1] == Repeat(0, zeros - 1) + [];
      }
    } else {
      ValueIgnoresZeros(zeros, digits[..|digits| - 1], base);
      assert all[..|all| - 1] == Repeat(0, zeros) + digits[..|digits| - 1];
    }
  }

  lemma {:induction false} ZerosOfPadded(zeros: nat, digits: seq<int>)
    requires digits == [] || digits[0] != 0
    ensures Zeros(Repeat(0, zeros) + digits) == zeros
  {
    var all := Repeat(0, zeros) + digits;
    if digits != [] {
      assert all[zeros] == digits[0];
    }
  }

  lemma {:induction false} StrippedLeads(digits: seq<int>)
    ensures digits == Repeat(0, Zeros(digits)) + digits[Zeros(digits)..]
  {
  }

  /**
   * Changing the base and keeping the count of leading zeros is undone by changing back: the heart of
   * both codec directions.
   */
  lemma {:induction false} RebaseRoundTrip(digits: seq<int>, base: nat, other: nat)
    requires base > 1 && other > 1 && DigitsOf(digits, base)
    ensures DigitsOf(Rebase(digits, base, other), other)
    ensures Rebase(Rebase(digits, base, other), other, base) == digits
  {
    var n := Value(digits, base);
    var there := Rebase(digits, base, other);
    if n > 0 {
      DigitsLead(n, other);
    }
    ZerosOfPadded(Zeros(digits), Digits(n, other));
    ValueIgnoresZeros(Zeros(digits), Digits(n, other), other);
    ValueOfDigits(n, other);
    DigitsOfValue(digits, base);
    StrippedLeads(digits);
  }

  function Rebase(digits: seq<int>, base: nat, other: nat): (r: seq<int>)
    requires base > 1 && other > 1 && DigitsOf(digits, base)
    ensures DigitsOf(r, other) && (digits != [] ==> r != [])
  {
    DigitsOfValue(digits, base);
    Repeat(0, Zeros(digits)) + Digits(Value(digits, base), other)
  }

  // ----- Characters and bytes -----

  function IndexOf(c: char): (r: Option<int>)
    ensures r.Some? ==> 0 <= r.value < 58 && Symbol(r.value) == c
  {
    IndexFrom(c, 0)
  }

  function IndexFrom(c: char, from: nat): (r: Option<int>)
    requires from <= 58
    ensures r.Some? ==> from <= r.value < 58 && Symbol(r.value) == c
    decreases 58 - from
  {
    if from == 58 then None else if Symbol(from) == c then Some(from) else IndexFrom(c, from + 1)
  }

  lemma {:induction false} SymbolsAreDistinct()
    ensures forall d: Digit58 :: IndexOf(Symbol(d)) == Some(d)
  {
    forall d: Digit58 ensures IndexOf(Symbol(d)) == Some(d) {
      IndexFinds(d, 0);
    }
  }

  lemma {:induction false} IndexFinds(d: Digit58, from: nat)
    requires from <= d
    ensures IndexFrom(Symbol(d), from) == Some(d)
    decreases 58 - from
  {
    if from < d {
      IndexFinds(d, from + 1);
    }
  }

  predicate Valid(text: string) {
    text != [] && forall c :: c in text ==> IndexOf(c).Some?
  }

  function TextDigits(text: string): (r: seq<int>)
    requires forall c :: c in text ==> IndexOf(c).Some?
    ensures |r| == |text| && DigitsOf(r, 58)
  {
    seq(|text|, i requires 0 <= i < |text| => IndexOf(text[i]).value)
  }

  function Text(digits: seq<int>): (r: string)
    requires DigitsOf(digits, 58)
    ensures |r| == |digits|
  {
    seq(|digits|, i requires 0 <= i < |digits| => Symbol(digits[i]))
  }

  function ByteDigits(bytes: seq<byte>): (r: seq<int>)
    ensures |r| == |bytes| && DigitsOf(r, 256)
  {
    seq(|bytes|, i requires 0 <= i < |bytes| => bytes[i] as int)
  }

  function Bytes(digits: seq<int>): (r: seq<byte>)
    requires DigitsOf(digits, 256)
    ensures |r| == |digits|
  {
    seq(|digits|, i requires 0 <= i < |digits| => digits[i] as byte)
  }

  function Decode(text: string): Result<seq<byte>, Base58Error> {
    if text == [] then Err(ValueRequired)
    else if !Valid(text) then Err(InvalidCharacter)
    else Ok(Bytes(Rebase(TextDigits(text), 58, 256)))
  }

  function Encode(bytes: seq<byte>): string {
    if bytes == [] then "1" else Text(Rebase(ByteDigits(bytes), 256, 58))
  }

  // ----- The loops -----

  /** Reads the text into a number, writes the number in base 256 and restores the leading zeros. */
  method DecodeBase58(value: string) returns (r: Result<seq<byte>, Base58Error>)
    ensures r == Decode(value)
  {
    if value == [] {
      return Err(ValueRequired);
    }
    var number: nat := 0;
    for k := 0 to |value|
      invariant forall c :: c in value[..k] ==> IndexOf(c).Some?
      invariant number == Value(TextDigits(value[..k]), 58)
    {
      var digit := IndexOf(value[k]);
      if digit.None? {
        assert value[k] in value;
        return Err(InvalidCharacter);
      }
      assert value[..k + 1] == value[..k] + [value[k]];
      assert TextDigits(value[..k + 1])[..k] == TextDigits(value[..k]);
      number := number * 58 + digit.value;
    }
    assert value[..|value|] == value;
    var leadingZeroes := 0;
    while leadingZeroes < |value| && value[leadingZeroes] == '1'
      invariant leadingZeroes <= |value| && forall i :: 0 <= i < leadingZeroes ==> value[i] == '1'
    {
      leadingZeroes := leadingZeroes + 1;
    }
    OnesAreZeros(value, leadingZeroes);
    var bytes := WriteBytes(number);
    r := Ok(Repeat(0 as byte, leadingZeroes) + bytes);
    PaddedBytes(leadingZeroes, Digits(number, 256));
  }

  lemma {:induction false} OnesAreZeros(text: string, ones: nat)
    requires forall c :: c in text ==> IndexOf(c).Some?
    requires ones <= |text| && (forall i :: 0 <= i < ones ==> text[i] == '1') && (ones < |text| ==> text[ones] != '1')
    ensures Zeros(TextDigits(text)) == ones
  {
    var digits := TextDigits(text);
    forall i | 0 <= i < |text| ensures digits[i] == 0 <==> text[i] == '1' {
      assert text[i] in text;
      SymbolsAreDistinct();
    }
  }

  lemma {:induction false} PaddedBytes(zeros: nat, digits: seq<int>)
    requires DigitsOf(digits, 256)
    ensures Repeat(0 as byte, zeros) + Bytes(digits) == Bytes(Repeat(0, zeros) + digits)
  {
  }

  function Reverse<T>(s: seq<T>): (r: seq<T>)
    ensures |r| == |s|
  {
    if s == [] then [] else [s[|s| - 1]] + Reverse(s[..|s| - 1])
  }

  /** The bytes of a number: pushed least significant first, then reversed. */
  method WriteBytes(number: nat) returns (bytes: seq<byte>)
    ensures bytes == Bytes(Digits(number, 256))
  {
    var rest := number;
    bytes := [];
    while rest > 0
      invariant Bytes(Digits(number, 256)) == Bytes(Digits(rest, 256)) + Reverse(bytes)
      decreases rest
    {
      Shrinks(rest, 256);
      var digit := (rest % 256) as byte;
      assert Bytes(Digits(rest, 256)) == Bytes(Digits(rest / 256, 256)) + [digit];
      assert (bytes + [digit])[..|bytes|] == bytes;
      bytes := bytes + [digit];
      rest := rest / 256;
    }
    bytes := Reverse(bytes);
  }

  method ReadNumber(bytes: seq<byte>) returns (number: nat)
    ensures number == Value(ByteDigits(bytes), 256)
  {
    number := 0;
    for k := 0 to |bytes|
      invariant number == Value(ByteDigits(bytes[..k]), 256)
    {
      assert ByteDigits(bytes[..k + 1])[..k] == ByteDigits(bytes[..k]);
      number := number * 256 + bytes[k] as int;
    }
    assert bytes[..|bytes|] == bytes;
  }

  /** Reads the bytes into a number, prepends its base-58 digits and restores the leading zeros as ones. */
  method EncodeBase58(bytes: seq<byte>) returns (output: string)
    ensures output == Encode(bytes)
  {
    hide Value, Text, Digits, Rebase, ByteDigits;
    var number := ReadNumber(bytes);
    output := WriteText(number);
    var k := 0;
    while k < |bytes| && bytes[k] == 0
      invariant k <= |bytes| && forall i :: 0 <= i < k ==> bytes[i] == 0
      invariant output == Repeat('1', k) + Text(Digits(number, 58))
    {
      assert Repeat('1', k + 1) == ['1'] + Repeat('1', k);
      output := ['1'] + output;
      k := k + 1;
    }
    EncodedParts(bytes, k, number);
    if output == "" {
      output := "1";
    }
  }

  lemma {:induction false} ZeroBytes(bytes: seq<byte>, k: nat)
    requires k <= |bytes| && (forall i :: 0 <= i < k ==> bytes[i] == 0) && (k < |bytes| ==> bytes[k] != 0)
    ensures Zeros(ByteDigits(bytes)) == k
  {
    var digits := ByteDigits(bytes);
    assert k < |bytes| ==> digits[k] != 0;
  }

  lemma {:induction false} EncodedParts(bytes: seq<byte>, k: nat, number: nat)
    requires k <= |bytes| && (forall i :: 0 <= i < k ==> bytes[i] == 0) && (k < |bytes| ==> bytes[k] != 0)
    requires number == Value(ByteDigits(bytes), 256)
    ensures Text(Rebase(ByteDigits(bytes), 256, 58)) == Repeat('1', k) + Text(Digits(number, 58))
    ensures bytes == [] <==> Repeat('1', k) + Text(Digits(number, 58)) == ""
  {
    ZeroBytes(bytes, k);
    PaddedText(k, Digits(number, 58));
    HasDigits(bytes, k, number);
  }

  lemma {:induction false} HasDigits(bytes: seq<byte>, k: nat, number: nat)
    requires k == Zeros(ByteDigits(bytes)) && number == Value(ByteDigits(bytes), 256)
    ensures bytes == [] <==> k == 0 && Digits(number, 58) == []
  {
    if number == 0 {
      AllZeros(ByteDigits(bytes));
    }
  }

  lemma {:induction false} AllZeros(digits: seq<int>)
    requires DigitsOf(digits, 256) && Value(digits, 256) == 0
    ensures Zeros(digits) == |digits|
  {
    DigitsOfValue(digits, 256);
    NoDigits(digits, 256);
  }

  method WriteText(n: nat) returns (output: string)
    ensures output == Text(Digits(n, 58))
  {
    var number := n;
    output := "";
    while number > 0
      invariant Text(Digits(n, 58)) == Text(Digits(number, 58)) + output
      decreases number
    {
      Shrinks(number, 58);
      assert Text(Digits(number, 58)) == Text(Digits(number / 58, 58)) + [Symbol(number % 58)];
      output := [Symbol(number % 58)] + output;
      number := number / 58;
    }
  }

  lemma {:induction false} PaddedText(zeros: nat, digits: seq<int>)
    requires DigitsOf(digits, 58)
    ensures Repeat('1', zeros) + Text(digits) == Text(Repeat(0, zeros) + digits)
  {
  }

  // ----- The codec -----

  /**
   * Every byte string survives the round trip, leading zeros included, except the empty one, which
   * encodes to the text of a single zero byte.
   */
  lemma {:induction false} DecodeEncode(bytes: seq<byte>)
    ensures Decode(Encode(bytes)) == Ok(bytes) <==> bytes != []
    ensures bytes == [] ==> Decode(Encode(bytes)) == Ok([0 as byte])
  {
    SymbolsAreDistinct();
    if bytes == [] {
      EmptyText();
    } else {
      var digits := Rebase(ByteDigits(bytes), 256, 58);
      var text := Text(digits);
      forall c | c in text ensures IndexOf(c).Some? {
      }
      assert TextDigits(text) == digits;
      RebaseRoundTrip(ByteDigits(bytes), 256, 58);
      assert Bytes(ByteDigits(bytes)) == bytes;
    }
  }

  lemma {:induction false} EmptyText()
    ensures Decode("1") == Ok([0 as byte])
  {
    SymbolsAreDistinct();
    assert Symbol(0) == '1' && IndexOf(Symbol(0)) == Some(0);
    assert Valid("1");
    var digits := TextDigits("1");
    assert digits == [0];
    assert digits[..0] == [];
    assert Value(digits, 58) == 0;
    assert Zeros(digits) == 1 + Zeros(digits[1..]);
    assert Rebase(digits, 58, 256) == [0];
    assert Bytes(Rebase(digits, 58, 256)) == [0 as byte];
  }

  /** Every valid nonempty text is the encoding of what it decodes to: there is one text per key. */
  lemma {:induction false} EncodeDecode(text: string)
    requires Decode(text).Ok?
    ensures Encode(Decode(text).value) == text
  {
    var digits := TextDigits(text);
    var bytes := Bytes(Rebase(digits, 58, 256));
    assert ByteDigits(bytes) == Rebase(digits, 58, 256);
    RebaseRoundTrip(digits, 58, 256);
    forall i | 0 <= i < |text| ensures Symbol(digits[i]) == text[i] {
      assert text[i] in text;
    }
    assert Text(digits) == text;
  }

  /** settlement/merkle.js accepts a text as a key if it is 32 bytes in canonical form. */
  method PublicKeyBytes(value: string) returns (r: Option<seq<byte>>)
    ensures r == match Decode(value)
                 case Err(_) => None
                 case Ok(bytes) => if |bytes| == 32 then Some(bytes) else None
  {
    var decoded := DecodeBase58(value);
    if decoded.Err? {
      return None;
    }
    var again := EncodeBase58(decoded.value);
    EncodeDecode(value);
    return if |decoded.value| != 32 || again != value then None else Some(decoded.value);
  }
}
