/**
 Base58Check addresses (backend/app/pepepow/address.py, script.py, scripthash.py): decoding loses
 nothing, so two different accepted addresses never pay the same key hash.
 */
module Base58 {
  import opened Text
  import opened Wrappers

  const BASE58_ALPHABET := "123456789" + "ABCDEFGH" + "JKLMN" + "PQRSTUVWXYZ" + "abcdefghijk" + "mnopqrstuvwxyz"
  const PEPEW_P2PKH_VERSION: Byte := 0x37
  const PEPEW_ADDRESS_PREFIX := "P"
  const P2PKH_SCRIPT_PREFIX: seq<Byte> := [0x76, 0xa9, 0x14]
  const P2PKH_SCRIPT_SUFFIX: seq<Byte> := [0x88, 0xac]

  datatype AddressError =
    | Empty
    | InvalidCharacter
    | TooShort
    | BadChecksum
    | EmptyPayload
    | BadPrefix
    | BadVersion
    | BadLength

  // ---------- Digits and numbers ----------

  /** The digit a character stands for: six runs of consecutive characters, leaving out 0, I, O and l. */
  function Digit(c: char): Option<nat> {
    if '1' <= c <= '9' then Some(c as int - '1' as int)
    else if 'A' <= c <= 'H' then Some(c as int - 'A' as int + 9)
    else if 'J' <= c <= 'N' then Some(c as int - 'J' as int + 17)
    else if 'P' <= c <= 'Z' then Some(c as int - 'P' as int + 22)
    else if 'a' <= c <= 'k' then Some(c as int - 'a' as int + 33)
    else if 'm' <= c <= 'z' then Some(c as int - 'm' as int + 44)
    else None
  }

  predicate Consecutive(s: string, first: char) {
    forall k :: 0 <= k < |s| ==> s[k] as int == first as int + k
  }

  lemma DigitInjective(c: char, c': char)
    requires Digit(c).Some? && Digit(c) == Digit(c')
    ensures c == c'
  {
  }

  lemma AlphabetAt(i: nat)
    requires i < 58
    ensures Digit(BASE58_ALPHABET[i]) == Some(i)
  {
    if i < 22 {
      assert Consecutive("123456789", '1') && Consecutive("ABCDEFGH", 'A') && Consecutive("JKLMN", 'J');
      assert BASE58_ALPHABET[i] == if i < 9 then "123456789"[i] else if i < 17 then "ABCDEFGH"[i - 9] else "JKLMN"[i - 17];
    } else {
      LettersAt(i);
    }
  }

  lemma LettersAt(i: nat)
    requires 22 <= i < 58
    ensures Digit(BASE58_ALPHABET[i]) == Some(i)
  {
    assert Consecutive("PQRSTUVWXYZ", 'P') && Consecutive("abcdefghijk", 'a') && Consecutive("mnopqrstuvwxyz", 'm');
    assert BASE58_ALPHABET[i] ==
           if i < 33 then "PQRSTUVWXYZ"[i - 22] else if i < 44 then "abcdefghijk"[i - 33] else "mnopqrstuvwxyz"[i - 44];
  }

  /** A character's digit is its place in the alphabet, and characters outside it have none. */
  lemma DigitIsAlphabetIndex(c: char, i: nat)
    ensures Digit(c) == Some(i) <==> i < |BASE58_ALPHABET| && BASE58_ALPHABET[i] == c
  {
    if i < 58 {
      AlphabetAt(i);
      if Digit(c) == Some(i) {
        DigitInjective(c, BASE58_ALPHABET[i]);
      }
    }
  }

  predicate AllDigits(s: string) {
    forall i :: 0 <= i < |s| ==> Digit(s[i]).Some?
  }

  /** The number a base58 string writes, most significant digit first. */
  function Value(s: string): nat
    requires AllDigits(s)
  {
    if s == "" then 0 else Value(s[..|s| - 1]) * 58 + Digit(s[|s| - 1]).value
  }

  /** A number's bytes, most significant first, without leading zeroes. */
  function Bytes(n: nat): (r: seq<Byte>)
    ensures n > 0 ==> r != [] && r[0] != 0
  {
    if n == 0 then [] else Bytes(n / 256) + [n % 256]
  }

  function BitLength(n: nat): nat {
    if n == 0 then 0 else 1 + BitLength(n / 2)
  }

  /** `n` written in exactly `length` bytes. */
  function ToBytes(n: nat, length: nat): seq<Byte> {
    if length == 0 then [] else ToBytes(n / 256, length - 1) + [n % 256]
  }

  function Zeroes(n: nat): seq<Byte> {
    seq(n, _ => 0)
  }

  /** How many '1's a string starts with. */
  function LeadingOnes(s: string): (n: nat)
    ensures n <= |s| && (forall i :: 0 <= i < n ==> s[i] == '1') && (n < |s| ==> s[n] != '1')
  {
    if s != "" && s[0] == '1' then 1 + LeadingOnes(s[1..]) else 0
  }

  lemma {:induction false} ToBytesIsBytes(n: nat)
    ensures ToBytes(n, (BitLength(n) + 7) / 8) == Bytes(n)
    decreases n
  {
    if n > 0 {
      EightBits(n);
      ToBytesIsBytes(n / 256);
      assert (BitLength(n) + 7) / 8 == (BitLength(n / 256) + 7) / 8 + 1;
    }
  }

  lemma EightBits(n: nat)
    requires n > 0
    ensures BitLength(n) > 0
    ensures if n >= 256 then BitLength(n) == BitLength(n / 256) + 8 else BitLength(n) <= 8 && BitLength(n / 256) == 0
  {
    Quarter(n);
    Quarter(n / 4);
    Quarter(n / 16);
    Quarter(n / 64);
    assert n / 4 / 4 == n / 16 && n / 16 / 4 == n / 64 && n / 64 / 4 == n / 256;
  }

  lemma Quarter(n: nat)
    ensures n >= 4 ==> BitLength(n) == 2 + BitLength(n / 4)
    ensures n < 4 ==> BitLength(n) <= 2
  {
    assert n / 2 / 2 == n / 4;
    assert BitLength(n / 2) == if n / 2 == 0 then 0 else 1 + BitLength(n / 4);
    assert n < 4 ==> BitLength(n / 4) == 0;
  }

  // ---------- Decoding ----------

  /** What a string decodes to. */
  function Decode(s: string): Result<seq<Byte>, AddressError> {
    var value := Strip(s);
    if value == "" then Err(Empty)
    else if !AllDigits(value) then Err(InvalidCharacter)
    else Ok(Zeroes(LeadingOnes(value)) + Bytes(Value(value)))
  }

  /** The number a string of digits writes, accumulated digit by digit. */
  method Accumulate(value: string) returns (number: Option<nat>)
    ensures number == if AllDigits(value) then Some(Value(value)) else None
  {
    var n: nat := 0;
    for i := 0 to |value|
      invariant AllDigits(value[..i]) && n == Value(value[..i])
    {
      var index := Digit(value[i]);
      if index.None? {
        return None;
      }
      assert value[..i + 1][..i] == value[..i];
      n := n * 58 + index.value;
    }
    assert value[..|value|] == value;
    return Some(n);
  }

  method B58Decode(s: string) returns (r: Result<seq<Byte>, AddressError>)
    ensures r == Decode(s)
  {
    var value := Strip(s);
    if value == "" {
      return Err(Empty);
    }
    var number := Accumulate(value);
    if number.None? {
      return Err(InvalidCharacter);
    }
    var raw := ToBytes(number.value, (BitLength(number.value) + 7) / 8);
    ToBytesIsBytes(number.value);
    return Ok(Zeroes(LeadingOnes(value)) + raw);
  }

  // ---------- Nothing is lost ----------

  lemma {:induction false} BytesInjective(m: nat, n: nat)
    requires Bytes(m) == Bytes(n)
    ensures m == n
    decreases m
  {
    if m > 0 && n > 0 {
      var a, b := Bytes(m), Bytes(n);
      assert a[..|a| - 1] == Bytes(m / 256) && b[..|b| - 1] == Bytes(n / 256);
      BytesInjective(m / 256, n / 256);
      assert a[|a| - 1] == m % 256 && b[|b| - 1] == n % 256;
    }
  }

  /** Leading '1's add nothing to the number. */
  lemma {:induction false} OnesAreZero(s: string)
    requires AllDigits(s)
    ensures Value(s) == Value(s[LeadingOnes(s)..])
    ensures LeadingOnes(s) < |s| ==> Value(s) > 0
    ensures LeadingOnes(s) == |s| ==> Value(s) == 0
    decreases |s|
  {
    var n := LeadingOnes(s);
    if s != "" {
      var front := s[..|s| - 1];
      OnesAreZero(front);
      OnesOfFront(s);
      if n < |s| {
        assert s[n..][..|s[n..]| - 1] == front[n..];
        assert Value(s[n..]) == Value(front[n..]) * 58 + Digit(s[|s| - 1]).value;
      }
    }
  }

  lemma {:induction false} OnesOfFront(s: string)
    requires s != ""
    ensures var front := s[..|s| - 1];
      LeadingOnes(front) == if LeadingOnes(s) == |s| then |s| - 1 else LeadingOnes(s)
  {
    var n, m := LeadingOnes(s), LeadingOnes(s[..|s| - 1]);
    if m < |s| - 1 {
      assert s[m] != '1';
    }
    if n < |s| {
      assert s[n] != '1';
    }
  }

  /** Strings of digits that do not start with '1' and write the same number are the same. */
  lemma {:induction false} ValueInjective(a: string, b: string)
    requires AllDigits(a) && AllDigits(b) && LeadingOnes(a) == 0 && LeadingOnes(b) == 0
    requires Value(a) == Value(b)
    ensures a == b
    decreases |a|
  {
    PositiveOrEmpty(a);
    PositiveOrEmpty(b);
    if a != "" {
      SameLast(a, b);
      OnesOfFront(a);
      OnesOfFront(b);
      ValueInjective(a[..|a| - 1], b[..|b| - 1]);
      assert a == a[..|a| - 1] + [a[|a| - 1]] && b == b[..|b| - 1] + [b[|b| - 1]];
    }
  }

  lemma PositiveOrEmpty(s: string)
    requires AllDigits(s) && LeadingOnes(s) == 0
    ensures Value(s) == 0 <==> s == ""
  {
    OnesAreZero(s);
  }

  lemma SameLast(a: string, b: string)
    requires a != "" && b != "" && AllDigits(a) && AllDigits(b) && Value(a) == Value(b)
    ensures Value(a[..|a| - 1]) == Value(b[..|b| - 1]) && a[|a| - 1] == b[|b| - 1]
  {
    SameDigits(Value(a[..|a| - 1]), Digit(a[|a| - 1]).value, Value(b[..|b| - 1]), Digit(b[|b| - 1]).value);
    DigitInjective(a[|a| - 1], b[|b| - 1]);
  }

  lemma SameDigits(v: int, d: int, v': int, d': int)
    requires v * 58 + d == v' * 58 + d' && 0 <= d < 58 && 0 <= d' < 58
    ensures v == v' && d == d'
  {
  }

  function LeadingZeroes(s: seq<Byte>): nat {
    if s != [] && s[0] == 0 then 1 + LeadingZeroes(s[1..]) else 0
  }

  lemma {:induction false} CountZeroes(z: nat, n: nat)
    ensures LeadingZeroes(Zeroes(z) + Bytes(n)) == z
    decreases z
  {
    if z == 0 {
      assert Zeroes(0) + Bytes(n) == Bytes(n);
    } else {
      assert (Zeroes(z) + Bytes(n))[1..] == Zeroes(z - 1) + Bytes(n);
      CountZeroes(z - 1, n);
    }
  }

  lemma ZeroesThenBytes(z: nat, z': nat, n: nat, n': nat)
    requires Zeroes(z) + Bytes(n) == Zeroes(z') + Bytes(n')
    ensures z == z' && n == n'
  {
    CountZeroes(z, n);
    CountZeroes(z', n');
    assert (Zeroes(z) + Bytes(n))[z..] == Bytes(n) && (Zeroes(z') + Bytes(n'))[z'..] == Bytes(n');
    BytesInjective(n, n');
  }

  /** Two strings that decode to the same bytes are the same string but for surrounding space. */
  lemma DecodeInjective(a: string, b: string)
    requires Decode(a).Ok? && Decode(a) == Decode(b)
    ensures Strip(a) == Strip(b)
  {
    var s, s' := Strip(a), Strip(b);
    ZeroesThenBytes(LeadingOnes(s), LeadingOnes(s'), Value(s), Value(s'));
    DigitsInjective(s, s');
  }

  lemma DigitsInjective(s: string, s': string)
    requires AllDigits(s) && AllDigits(s') && LeadingOnes(s) == LeadingOnes(s') && Value(s) == Value(s')
    ensures s == s'
  {
    var n := LeadingOnes(s);
    OnesAreZero(s);
    OnesAreZero(s');
    NoMoreOnes(s);
    NoMoreOnes(s');
    ValueInjective(s[n..], s'[n..]);
    SameHalves(s, s', n);
  }

  lemma SameHalves(s: string, s': string, n: nat)
    requires n <= |s| && n <= |s'| && s[n..] == s'[n..] && (forall i :: 0 <= i < n ==> s[i] == s'[i])
    ensures s == s'
  {
    assert s == s[..n] + s[n..] && s' == s'[..n] + s'[n..];
    assert s[..n] == s'[..n];
  }

  lemma NoMoreOnes(s: string)
    ensures LeadingOnes(s[LeadingOnes(s)..]) == 0
  {
  }

  // ---------- What is decoded ----------

  function Power(base: nat, n: nat): nat {
    if n == 0 then 1 else base * Power(base, n - 1)
  }

  /** The number that digits write in a base, each digit at its place. */
  function Positional(digits: seq<nat>, base: nat): nat {
    if digits == [] then 0 else digits[0] * Power(base, |digits| - 1) + Positional(digits[1..], base)
  }

  lemma {:induction false} PositionalAppend(digits: seq<nat>, last: nat, base: nat)
    ensures Positional(digits + [last], base) == Positional(digits, base) * base + last
    decreases |digits|
  {
    var all := digits + [last];
    if digits == [] {
      assert all[1..] == [] && Power(base, 0) == 1;
    } else {
      assert all[1..] == digits[1..] + [last];
      PositionalAppend(digits[1..], last, base);
      Shift(digits[0], Power(base, |digits| - 1), Positional(digits[1..], base), base);
    }
  }

  lemma Shift(d: nat, p: nat, rest: nat, base: nat)
    ensures (d * p + rest) * base == d * (base * p) + rest * base
  {
  }

  /** `digits` are the places in the alphabet of the string's characters. */
  ghost predicate Spells(digits: seq<nat>, s: string) {
    |digits| == |s| && forall i :: 0 <= i < |s| ==> digits[i] < |BASE58_ALPHABET| && BASE58_ALPHABET[digits[i]] == s[i]
  }

  lemma {:induction false} ValueIsPositional(s: string, digits: seq<nat>)
    requires Spells(digits, s)
    ensures AllDigits(s) && Value(s) == Positional(digits, 58)
    decreases |s|
  {
    if s != "" {
      var n := |s| - 1;
      assert Spells(digits[..n], s[..n]);
      ValueIsPositional(s[..n], digits[..n]);
      DigitIsAlphabetIndex(s[n], digits[n]);
      assert digits == digits[..n] + [digits[n]] && s == s[..n] + [s[n]];
      PositionalAppend(digits[..n], digits[n], 58);
    }
  }

  function Numbers(bytes: seq<Byte>): seq<nat> {
    seq(|bytes|, i requires 0 <= i < |bytes| => bytes[i] as nat)
  }

  lemma {:induction false} BytesArePositional(n: nat)
    ensures Positional(Numbers(Bytes(n)), 256) == n
    decreases n
  {
    if n > 0 {
      BytesArePositional(n / 256);
      assert Numbers(Bytes(n)) == Numbers(Bytes(n / 256)) + [n % 256];
      PositionalAppend(Numbers(Bytes(n / 256)), n % 256, 256);
    }
  }

  lemma {:induction false} ZeroesAddNothing(z: nat, digits: seq<nat>)
    ensures Positional(seq(z, _ => 0) + digits, 256) == Positional(digits, 256)
    decreases z
  {
    var all := seq(z, _ => 0) + digits;
    if z == 0 {
      assert all == digits;
    } else {
      assert all[1..] == seq(z - 1, _ => 0) + digits;
      ZeroesAddNothing(z - 1, digits);
    }
  }

  /** Decoding refuses exactly blank strings and strings with a character outside the alphabet. */
  lemma DecodeRefuses(s: string)
    ensures Decode(s) == Err(Empty) <==> Strip(s) == ""
    ensures Decode(s) == Err(InvalidCharacter) <==> exists c :: c in Strip(s) && c !in BASE58_ALPHABET
    ensures Decode(s).Err? ==> Decode(s).error in {Empty, InvalidCharacter}
  {
    var value := Strip(s);
    if c :| c in value && c !in BASE58_ALPHABET {
      OutsideIsNoDigit(c);
      var i :| 0 <= i < |value| && value[i] == c;
      assert Digit(value[i]).None?;
    }
    if !AllDigits(value) {
      var i :| 0 <= i < |value| && Digit(value[i]).None?;
      InsideIsDigit(value[i]);
      assert value[i] in value;
    }
  }

  /** Any other string, its surrounding space aside, is read as a number in base 58, and that number is written in
      bytes: a zero byte for each '1' at the front, and then no more zeroes than the number needs. */
  lemma DecodeMeaning(s: string, digits: seq<nat>)
    requires Strip(s) != "" && Spells(digits, Strip(s))
    ensures Decode(s).Ok?
    ensures var raw, ones := Decode(s).value, LeadingOnes(Strip(s));
      && Positional(Numbers(raw), 256) == Positional(digits, 58)
      && ones <= |raw| && (forall i :: 0 <= i < ones ==> raw[i] == 0) && (ones < |raw| ==> raw[ones] != 0)
  {
    var value := Strip(s);
    ValueIsPositional(value, digits);
    ZeroesThenNumber(LeadingOnes(value), Value(value));
  }

  lemma ZeroesThenNumber(z: nat, n: nat)
    ensures var raw := Zeroes(z) + Bytes(n);
      && Positional(Numbers(raw), 256) == n
      && z <= |raw| && (forall i :: 0 <= i < z ==> raw[i] == 0) && (z < |raw| ==> raw[z] != 0)
  {
    BytesArePositional(n);
    assert Numbers(Zeroes(z) + Bytes(n)) == seq(z, _ => 0) + Numbers(Bytes(n));
    ZeroesAddNothing(z, Numbers(Bytes(n)));
    assert n == 0 ==> Bytes(n) == [];
  }

  lemma InsideIsDigit(c: char)
    requires Digit(c).None?
    ensures c !in BASE58_ALPHABET
  {
    if c in BASE58_ALPHABET {
      var i :| 0 <= i < |BASE58_ALPHABET| && BASE58_ALPHABET[i] == c;
      DigitIsAlphabetIndex(c, i);
      assert false;
    }
  }

  lemma OutsideIsNoDigit(c: char)
    requires c !in BASE58_ALPHABET
    ensures Digit(c).None?
  {
    if Digit(c).Some? {
      DigitIsAlphabetIndex(c, Digit(c).value);
      assert false;
    }
  }

  // ---------- Checksums and addresses ----------

  /** `sum` gives the four checksum bytes of a payload. */
  ghost predicate Checksum(sum: seq<Byte> -> seq<Byte>) {
    forall payload :: |sum(payload)| == 4
  }

  method Base58CheckDecode(address: string, sum: seq<Byte> -> seq<Byte>)
    returns (r: Result<(Byte, seq<Byte>), AddressError>)
    requires Checksum(sum)
    ensures r == CheckDecode(address, sum)
  {
    var value := Strip(address);
    if value == "" {
      return Err(Empty);
    }
    var decoded := B58Decode(value);
    StripTwice(address);
    if decoded.Err? {
      return Err(decoded.error);
    }
    var raw := decoded.value;
    if |raw| < 5 {
      return Err(TooShort);
    }
    var payload, checksum := raw[..|raw| - 4], raw[|raw| - 4..];
    if checksum != sum(payload) {
      return Err(BadChecksum);
    }
    return Ok((payload[0], payload[1..]));
  }

  function CheckDecode(address: string, sum: seq<Byte> -> seq<Byte>): Result<(Byte, seq<Byte>), AddressError> {
    match Decode(address)
    case Err(e) => Err(e)
    case Ok(raw) =>
      if |raw| < 5 then Err(TooShort)
      else if raw[|raw| - 4..] != sum(raw[..|raw| - 4]) then Err(BadChecksum)
      else Ok((raw[0], raw[1..|raw| - 4]))
  }

  function DecodeAddress(address: string, sum: seq<Byte> -> seq<Byte>): (r: Result<(Byte, seq<Byte>), AddressError>)
    ensures r.Ok? ==> r.value.0 == PEPEW_P2PKH_VERSION && |r.value.1| == 20 && CheckDecode(address, sum) == r
  {
    if Strip(address) == "" then Err(Empty)
    else if !(PEPEW_ADDRESS_PREFIX <= Strip(address)) then Err(BadPrefix)
    else
      match CheckDecode(address, sum)
      case Err(e) => Err(e)
      case Ok((version, hash160)) =>
        if version != PEPEW_P2PKH_VERSION then Err(BadVersion)
        else if |hash160| != 20 then Err(BadLength)
        else Ok((version, hash160))
  }

  method DecodePepewP2pkhAddress(address: string, sum: seq<Byte> -> seq<Byte>)
    returns (r: Result<(Byte, seq<Byte>), AddressError>)
    requires Checksum(sum)
    ensures r == DecodeAddress(address, sum)
  {
    var value := Strip(address);
    StripTwice(address);
    if value == "" {
      return Err(Empty);
    }
    if !(PEPEW_ADDRESS_PREFIX <= value) {
      return Err(BadPrefix);
    }
    r := Base58CheckDecode(value, sum);
    if r.Err? {
      return r;
    }
    if r.value.0 != PEPEW_P2PKH_VERSION {
      return Err(BadVersion);
    }
    if |r.value.1| != 20 {
      return Err(BadLength);
    }
  }

  /** Accepted addresses that pay the same key hash are the same address but for surrounding space. */
  lemma AddressesNeverShareKeys(a: string, b: string, sum: seq<Byte> -> seq<Byte>)
    requires DecodeAddress(a, sum).Ok? && DecodeAddress(b, sum).Ok?
    requires DecodeAddress(a, sum).value.1 == DecodeAddress(b, sum).value.1
    ensures Strip(a) == Strip(b)
  {
    WholeFromParts(Decode(a).value, sum);
    WholeFromParts(Decode(b).value, sum);
    DecodeInjective(a, b);
  }

  /** Version and body determine the checksum, and so the whole. */
  lemma WholeFromParts(raw: seq<Byte>, sum: seq<Byte> -> seq<Byte>)
    requires |raw| >= 5 && raw[|raw| - 4..] == sum(raw[..|raw| - 4])
    ensures var payload := [raw[0]] + raw[1..|raw| - 4]; raw == payload + sum(payload)
  {
    assert raw[..|raw| - 4] == [raw[0]] + raw[1..|raw| - 4];
  }

  /** The output script that pays a key hash. */
  function ScriptPubkey(hash160: seq<Byte>): seq<Byte> {
    P2PKH_SCRIPT_PREFIX + hash160 + P2PKH_SCRIPT_SUFFIX
  }

  /** The scripthash of an address, `digest` being the opaque hash of a script. */
  function Scripthash(address: string, sum: seq<Byte> -> seq<Byte>, digest: seq<Byte> -> string): Option<string> {
    match DecodeAddress(address, sum)
    case Err(_) => None
    case Ok((_, hash160)) => Some(digest(ScriptPubkey(hash160)))
  }

  ghost predicate Injective(digest: seq<Byte> -> string) {
    forall a, b | digest(a) == digest(b) :: a == b
  }

  /** An address is accepted exactly when it starts with P and decodes to 25 bytes: 55, twenty bytes of key hash and
      the checksum of those; and it pays that key hash by the 25-byte script around it. */
  lemma AcceptedMeaning(address: string, sum: seq<Byte> -> seq<Byte>)
    requires Checksum(sum)
    ensures DecodeAddress(address, sum).Ok? <==>
              && Strip(address) != "" && Strip(address)[0] == 'P' && Decode(address).Ok?
              && var raw := Decode(address).value;
                 |raw| == 25 && raw[0] == 55 && raw[21..] == sum(raw[..21])
    ensures DecodeAddress(address, sum).Ok? ==>
              && DecodeAddress(address, sum) == Ok((55, Decode(address).value[1..21]))
              && ScriptPubkey(DecodeAddress(address, sum).value.1)
                 == [118, 169, 20] + Decode(address).value[1..21] + [136, 172]
  {
  }

  /** Why any other address is refused: the first of these that applies. */
  lemma RefusedMeaning(address: string, sum: seq<Byte> -> seq<Byte>)
    requires Checksum(sum)
    ensures var r, value := DecodeAddress(address, sum), Strip(address);
      if value == "" then r == Err(Empty)
      else if value[0] != 'P' then r == Err(BadPrefix)
      else if exists c :: c in value && c !in BASE58_ALPHABET then r == Err(InvalidCharacter)
      else
        && Decode(address).Ok?
        && var raw := Decode(address).value;
           if |raw| <= 4 then r == Err(TooShort)
           else if raw[|raw| - 4..] != sum(raw[..|raw| - 4]) then r == Err(BadChecksum)
           else if raw[0] != 55 then r == Err(BadVersion)
           else r.Err? ==> r == Err(BadLength)
  {
    DecodeRefuses(address);
  }

  /** So addresses and scripthashes group payments alike. */
  lemma ScripthashNamesAddress(a: string, b: string, sum: seq<Byte> -> seq<Byte>, digest: seq<Byte> -> string)
    requires Injective(digest) && Scripthash(a, sum, digest).Some?
    requires Scripthash(a, sum, digest) == Scripthash(b, sum, digest)
    ensures Strip(a) == Strip(b)
  {
    var h, h' := DecodeAddress(a, sum).value.1, DecodeAddress(b, sum).value.1;
    assert ScriptPubkey(h)[3..23] == h && ScriptPubkey(h')[3..23] == h';
    AddressesNeverShareKeys(a, b, sum);
  }
}
