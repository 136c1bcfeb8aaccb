/**
The stored form of a password: algorithm, iteration count, salt and derived key, joined by `$`.
The key derivation (PBKDF2, section 5.2 of RFC 8018) is a foreign function.
*/
module PasswordRecord {
  import opened Prelude
  import opened Base64Url

  const ALGORITHM := "pbkdf2_sha256"
  const ITERATIONS: nat := 390000

  /** The derived key of a password under a salt and an iteration count. */
  type Derivation = (string, seq<Byte>, nat) -> seq<Byte>

  datatype ValueError = NotANumber | NotHex | NoIterations

  // ----- numbers and bytes as text

  function DigitChar(d: nat): char
    requires d < 16
  {
    if d < 10 then '0' + d as char else 'a' + (d - 10) as char
  }

  function DigitValue(c: char): Option<nat> {
    if '0' <= c <= '9' then Some((c - '0') as nat)
    else if 'a' <= c <= 'f' then Some((c - 'a') as nat + 10)
    else if 'A' <= c <= 'F' then Some((c - 'A') as nat + 10)
    else None
  }

  function Decimal(n: nat): (s: string)
    ensures s != ""
  {
    if n < 10 then [DigitChar(n)] else Decimal(n / 10) + [DigitChar(n % 10)]
  }

  function ParseDecimal(s: string): Option<nat> {
    if s == "" then None else
      var last := s[|s| - 1];
      if !('0' <= last <= '9') then None
      else if |s| == 1 then Some((last - '0') as nat)
      else match ParseDecimal(s[..|s| - 1])
        case None => None
        case Some(n) => Some(10 * n + (last - '0') as nat)
  }

  function Hex(bs: seq<Byte>): string {
    if bs == [] then "" else [DigitChar(bs[0] / 16), DigitChar(bs[0] % 16)] + Hex(bs[1..])
  }

  function FromHex(s: string): Option<seq<Byte>> {
    if s == "" then Some([])
    else if |s| == 1 || DigitValue(s[0]).None? || DigitValue(s[1]).None? then None
    else match FromHex(s[2..])
      case None => None
      case Some(rest) => Some([DigitValue(s[0]).value * 16 + DigitValue(s[1]).value] + rest)
  }

  lemma {:induction false} DecimalRoundTrip(n: nat)
    ensures ParseDecimal(Decimal(n)) == Some(n) && '$' !in Decimal(n)
  {
    if n >= 10 {
      DecimalRoundTrip(n / 10);
      var s := Decimal(n);
      assert s[..|s| - 1] == Decimal(n / 10);
    }
  }

  lemma DigitRoundTrip(d: nat)
    requires d < 16
    ensures DigitValue(DigitChar(d)) == Some(d) && DigitChar(d) != '$'
  {
  }

  lemma {:induction false} HexRoundTrip(bs: seq<Byte>)
    ensures FromHex(Hex(bs)) == Some(bs) && '$' !in Hex(bs)
  {
    if bs != [] {
      HexRoundTrip(bs[1..]);
      var s, high, low := Hex(bs), bs[0] / 16, bs[0] % 16;
      assert s[0] == DigitChar(high) && s[1] == DigitChar(low) && s[2..] == Hex(bs[1..]);
      DigitRoundTrip(high);
      DigitRoundTrip(low);
      assert bs == [high * 16 + low] + bs[1..];
    }
  }

  // ----- the record

  function Record(iterations: nat, salt: seq<Byte>, derived: seq<Byte>): string {
    ALGORITHM + ['$'] + (Decimal(iterations) + ['$'] + (Hex(salt) + ['$'] + Hex(derived)))
  }

  function HashPassword(kdf: Derivation, password: string, salt: seq<Byte>): string {
    Record(ITERATIONS, salt, kdf(password, salt, ITERATIONS))
  }

  /** A record that does not have four fields, or another algorithm, is refused; a field that
      does not parse raises. */
  function VerifyPassword(kdf: Derivation, password: string, encoded: string): Result<bool, ValueError> {
    var fields := Split(encoded, '$', 3);
    if |fields| != 4 || fields[0] != ALGORITHM then Ok(false)
    else match ParseDecimal(fields[1])
      case None => Err(NotANumber)
      case Some(iterations) =>
        if FromHex(fields[2]).None? || FromHex(fields[3]).None? then Err(NotHex)
        else if iterations == 0 then Err(NoIterations)
        else Ok(kdf(password, FromHex(fields[2]).value, iterations) == FromHex(fields[3]).value)
  }

  /** Hexadecimal text is two lower-case digits a byte, the high one first. */
  lemma {:induction false} HexMeans(bs: seq<Byte>)
    ensures |Hex(bs)| == 2 * |bs|
    ensures forall i :: 0 <= i < |bs| ==> Hex(bs)[2 * i] == "0123456789abcdef"[bs[i] / 16]
                                          && Hex(bs)[2 * i + 1] == "0123456789abcdef"[bs[i] % 16]
  {
    if bs != [] {
      HexMeans(bs[1..]);
      DigitMeans(bs[0] / 16);
      DigitMeans(bs[0] % 16);
      forall i | 1 <= i < |bs|
        ensures Hex(bs)[2 * i] == Hex(bs[1..])[2 * (i - 1)] && Hex(bs)[2 * i + 1] == Hex(bs[1..])[2 * (i - 1) + 1]
        ensures bs[i] == bs[1..][i - 1]
      {
      }
    }
  }

  lemma DigitMeans(d: nat)
    requires d < 16
    ensures DigitChar(d) == "0123456789abcdef"[d]
  {
  }

  /** The stored text of a password. */
  lemma RecordSpelled(kdf: Derivation, password: string, salt: seq<Byte>)
    ensures HashPassword(kdf, password, salt)
         == "pbkdf2_sha256$390000$" + Hex(salt) + "$" + Hex(kdf(password, salt, 390000))
  {
    assert Decimal(390000) == "390000" by {
      assert Decimal(39) == "39";
      assert Decimal(390) == "390";
      assert Decimal(3900) == "3900";
      assert Decimal(39000) == "39000";
    }
    var rest := Hex(salt) + ['$'] + Hex(kdf(password, salt, 390000));
    assert HashPassword(kdf, password, salt) == "pbkdf2_sha256" + ['$'] + ("390000" + ['$'] + rest);
    assert "pbkdf2_sha256" + ['$'] + ("390000" + ['$'] + rest) == "pbkdf2_sha256$390000$" + rest;
  }

  /** A record splits into exactly its four fields, which parse back to what was stored. */
  lemma RecordRoundTrip(iterations: nat, salt: seq<Byte>, derived: seq<Byte>)
    ensures var fields := Split(Record(iterations, salt, derived), '$', 3);
            && |fields| == 4 && fields[0] == ALGORITHM
            && ParseDecimal(fields[1]) == Some(iterations)
            && FromHex(fields[2]) == Some(salt) && FromHex(fields[3]) == Some(derived)
  {
    DecimalRoundTrip(iterations);
    HexRoundTrip(salt);
    HexRoundTrip(derived);
    var tail := Hex(salt) + ['$'] + Hex(derived);
    SplitAtFirst(ALGORITHM, Decimal(iterations) + ['$'] + tail, '$', 3);
    SplitAtFirst(Decimal(iterations), tail, '$', 2);
    SplitAtFirst(Hex(salt), Hex(derived), '$', 1);
  }

  /** A stored record accepts a password exactly when its derived key is that of the password the
      record was made from; so it always accepts that password. */
  lemma VerifyAcceptsSameKey(kdf: Derivation, password: string, candidate: string, salt: seq<Byte>)
    ensures VerifyPassword(kdf, candidate, HashPassword(kdf, password, salt))
         == Ok(kdf(candidate, salt, ITERATIONS) == kdf(password, salt, ITERATIONS))
  {
    RecordRoundTrip(ITERATIONS, salt, kdf(password, salt, ITERATIONS));
  }
}
