/**
The base64url segments and unsigned tokens of the API security agent (RFC 4648 section 5,
unpadded as in section 2 of RFC 7515).

Encoding works by groups of three bytes. Decoding is the character machine of Python's
`binascii.a2b_base64` in its lenient mode, fed after `-` and `_` were mapped to `+` and `/`.
*/
module Base64Url {
  import opened Prelude

  type Byte = x: int | 0 <= x < 256
  type Sextet = x: int | 0 <= x < 64

  // ----- the alphabet

  function Symbol(v: Sextet): char {
    if v < 26 then 'A' + v as char
    else if v < 52 then 'a' + (v - 26) as char
    else if v < 62 then '0' + (v - 52) as char
    else if v == 62 then '-' else '_'
  }

  /** What the decoder reads a character as; both spellings of 62 and 63 are accepted. */
  function Value(c: char): Option<Sextet> {
    if 'A' <= c <= 'Z' then Some((c - 'A') as int)
    else if 'a' <= c <= 'z' then Some((c - 'a') as int + 26)
    else if '0' <= c <= '9' then Some((c - '0') as int + 52)
    else if c == '-' || c == '+' then Some(62)
    else if c == '_' || c == '/' then Some(63)
    else None
  }

  predicate IsSymbol(c: char) {
    Value(c).Some? && c != '+' && c != '/'
  }

  lemma SymbolValue(v: Sextet)
    ensures Value(Symbol(v)) == Some(v) && IsSymbol(Symbol(v))
  {
  }

  lemma ValueSymbol(c: char)
    requires IsSymbol(c)
    ensures Symbol(Value(c).value) == c
  {
  }

  const UPPER := "ABCDEFGHIJKLMNOPQRSTUVWXYZ"
  const LOWER := "abcdefghijklmnopqrstuvwxyz"
  const DECIMAL := "0123456789"

  /** The alphabet of RFC 4648, table 2. */
  const ALPHABET := UPPER + LOWER + DECIMAL + "-_"

  lemma UpperMeans(v: Sextet)
    ensures |UPPER| == 26 && (v < 26 ==> UPPER[v] == Symbol(v))
  {
  }

  lemma LowerMeans(v: Sextet)
    ensures |LOWER| == 26 && (26 <= v < 52 ==> LOWER[v - 26] == Symbol(v))
  {
  }

  lemma DecimalMeans(v: Sextet)
    ensures |DECIMAL| == 10 && (52 <= v < 62 ==> DECIMAL[v - 52] == Symbol(v))
  {
  }

  /** The symbols are the alphabet, and the decoder reads each symbol as its place in it, `+` as 62
      and `/` as 63, and nothing else. */
  lemma AlphabetMeans()
    ensures |ALPHABET| == 64
    ensures forall v: Sextet :: Symbol(v) == ALPHABET[v]
    ensures forall c, v: Sextet ::
              Value(c) == Some(v) <==> c == ALPHABET[v] || (c == '+' && v == 62) || (c == '/' && v == 63)
  {
    UpperMeans(0);
    LowerMeans(0);
    DecimalMeans(0);
    forall v: Sextet
      ensures Symbol(v) == ALPHABET[v]
    {
      UpperMeans(v);
      LowerMeans(v);
      DecimalMeans(v);
    }
    forall c, v: Sextet
      ensures Value(c) == Some(v) <==> c == ALPHABET[v] || (c == '+' && v == 62) || (c == '/' && v == 63)
    {
      SymbolValue(v);
      if IsSymbol(c) {
        ValueSymbol(c);
      }
    }
  }

  // ----- encoding

  /** `base64.urlsafe_b64encode`. */
  function UrlSafeEncode(bs: seq<Byte>): string {
    if |bs| == 0 then ""
    else if |bs| == 1 then [Symbol(bs[0] / 4), Symbol(bs[0] % 4 * 16), '=', '=']
    else if |bs| == 2 then
      [Symbol(bs[0] / 4), Symbol(bs[0] % 4 * 16 + bs[1] / 16), Symbol(bs[1] % 16 * 4), '=']
    else
      [Symbol(bs[0] / 4), Symbol(bs[0] % 4 * 16 + bs[1] / 16),
       Symbol(bs[1] % 16 * 4 + bs[2] / 64), Symbol(bs[2] % 64)] + UrlSafeEncode(bs[3..])
  }

  /** `text.rstrip("=")`. */
  function StripPadding(s: string): string {
    if s != "" && s[|s| - 1] == '=' then StripPadding(s[..|s| - 1]) else s
  }

  function EncodeSegment(bs: seq<Byte>): string {
    StripPadding(UrlSafeEncode(bs))
  }

  // ----- decoding

  datatype DecodeError = NotAscii | BadPadding

  /** The machine's state: characters of the current group read, their bits not yet emitted, and
      the `=` counted since the last symbol. */
  datatype State = State(read: nat, bits: nat, pads: nat)

  predicate Sane(st: State) {
    && st.read < 4
    && st.bits < (if st.read == 1 then 64 else if st.read == 2 then 16 else if st.read == 3 then 4 else 1)
  }

  function Emit(st: State, v: Sextet): seq<Byte>
    requires Sane(st)
  {
    if st.read == 0 then []
    else if st.read == 1 then [st.bits * 4 + v / 16]
    else if st.read == 2 then [st.bits * 16 + v / 4]
    else [st.bits * 64 + v]
  }

  function Advance(st: State, v: Sextet): (st': State)
    requires Sane(st)
    ensures Sane(st')
  {
    if st.read == 0 then State(1, v, 0)
    else if st.read == 1 then State(2, v % 16, 0)
    else if st.read == 2 then State(3, v % 4, 0)
    else State(0, 0, 0)
  }

  function Machine(s: string, st: State): Result<seq<Byte>, DecodeError>
    requires Sane(st)
  {
    if s == "" then
      if st.read == 0 then Ok([]) else Err(BadPadding)
    else if s[0] == '=' then
      if st.read < 2 then Machine(s[1..], st)
      else if st.read + st.pads + 1 >= 4 then Ok([])
      else Machine(s[1..], st.(pads := st.pads + 1))
    else
      match Value(s[0])
      case None => Machine(s[1..], st)
      case Some(v) =>
        match Machine(s[1..], Advance(st, v))
        case Err(e) => Err(e)
        case Ok(rest) => Ok(Emit(st, v) + rest)
  }

  const START := State(0, 0, 0)

  /** `"=" * (-len(s) % 4)`. */
  function Padding(n: nat): string {
    match n % 4
    case 0 => ""
    case 1 => "==="
    case 2 => "=="
    case _ => "="
  }

  function DecodeSegment(s: string): Result<seq<Byte>, DecodeError> {
    if exists i :: 0 <= i < |s| && s[i] as int >= 128 then Err(NotAscii)
    else Machine(s + Padding(|s|), START)
  }

  /** The number `n` as four symbols, six bits at a time, most significant first. */
  ghost predicate SpellsBits(s: string, n: nat) {
    && |s| == 4 && |ALPHABET| == 64 && n < 16777216
    && s[0] == ALPHABET[n / 262144] && s[1] == ALPHABET[n / 4096 % 64]
    && s[2] == ALPHABET[n / 64 % 64] && s[3] == ALPHABET[n % 64]
  }

  lemma FirstSextets(a: Byte, b: Byte, c: Byte)
    ensures (a * 65536 + b * 256 + c) / 262144 == a / 4
    ensures (a * 65536 + b * 256 + c) / 4096 % 64 == a % 4 * 16 + b / 16
  {
    var n, v := a * 65536 + b * 256 + c, a % 4 * 16 + b / 16;
    assert n == 262144 * (a / 4) + 4096 * v + (b % 16 * 256 + c);
    assert n / 4096 == 64 * (a / 4) + v;
  }

  lemma LastSextets(a: Byte, b: Byte, c: Byte)
    ensures (a * 65536 + b * 256 + c) / 64 % 64 == b % 16 * 4 + c / 64
    ensures (a * 65536 + b * 256 + c) % 64 == c % 64
  {
    var n, v := a * 65536 + b * 256 + c, b % 16 * 4 + c / 64;
    assert n == 64 * (64 * (a * 16 + b / 16) + v) + c % 64;
    assert n / 64 == 64 * (a * 16 + b / 16) + v;
  }

  /** The four symbols of three bytes. */
  function Group(a: Byte, b: Byte, c: Byte): (s: string)
    ensures |s| == 4
  {
    [Symbol(a / 4), Symbol(a % 4 * 16 + b / 16), Symbol(b % 16 * 4 + c / 64), Symbol(c % 64)]
  }

  /** They spell the 24 bits of the bytes. */
  lemma GroupMeans(a: Byte, b: Byte, c: Byte)
    ensures SpellsBits(Group(a, b, c), a * 65536 + b * 256 + c)
  {
    FirstSextets(a, b, c);
    LastSextets(a, b, c);
    AlphabetMeans();
  }

  /** Bytes are encoded three by three. One or two at the end are filled up with zero bytes, and `=`
      stands for what those alone would add. */
  lemma EncodingMeans(a: Byte, b: Byte, c: Byte, rest: seq<Byte>)
    ensures UrlSafeEncode([]) == ""
    ensures UrlSafeEncode([a]) == Group(a, 0, 0)[..2] + "=="
    ensures UrlSafeEncode([a, b]) == Group(a, b, 0)[..3] + "="
    ensures UrlSafeEncode([a, b, c] + rest) == Group(a, b, c) + UrlSafeEncode(rest)
  {
    assert ([a, b, c] + rest)[3..] == rest;
  }

  /** As many `=` as bring the text to a multiple of four characters. */
  lemma PaddingMeans(n: nat)
    ensures |Padding(n)| < 4 && (n + |Padding(n)|) % 4 == 0
    ensures forall i :: 0 <= i < |Padding(n)| ==> Padding(n)[i] == '='
  {
  }

  // ----- the block form of decoding

  predicate AllValues(s: string) {
    forall i :: 0 <= i < |s| ==> Value(s[i]).Some?
  }

  predicate AllSymbols(s: string) {
    forall i :: 0 <= i < |s| ==> IsSymbol(s[i])
  }

  function First(v0: Sextet, v1: Sextet): Byte {
    v0 * 4 + v1 / 16
  }

  function Second(v1: Sextet, v2: Sextet): Byte {
    v1 % 16 * 16 + v2 / 4
  }

  function Third(v2: Sextet, v3: Sextet): Byte {
    v2 % 4 * 64 + v3
  }

  /** Decoding by blocks of four characters: the reference for the machine. */
  function Blocks(s: string): Option<seq<Byte>>
    requires AllValues(s)
  {
    if |s| == 0 then Some([])
    else if |s| == 1 then None
    else
      var v0, v1 := Value(s[0]).value, Value(s[1]).value;
      if |s| == 2 then Some([First(v0, v1)]) else
        var v2 := Value(s[2]).value;
        if |s| == 3 then Some([First(v0, v1), Second(v1, v2)]) else
          match Blocks(s[4..])
          case None => None
          case Some(rest) => Some([First(v0, v1), Second(v1, v2), Third(v2, Value(s[3]).value)] + rest)
  }

  function Prepend(bs: seq<Byte>, r: Result<seq<Byte>, DecodeError>): Result<seq<Byte>, DecodeError> {
    match r case Err(e) => Err(e) case Ok(rest) => Ok(bs + rest)
  }

  lemma TwoSymbols(t: string, v0: Sextet, v1: Sextet)
    requires |t| >= 2 && Value(t[0]) == Some(v0) && Value(t[1]) == Some(v1)
    ensures Machine(t, START) == Prepend([First(v0, v1)], Machine(t[2..], State(2, v1 % 16, 0)))
  {
    var rest := t[1..];
    assert rest[0] == t[1] && rest[1..] == t[2..];
    var second := Prepend([First(v0, v1)], Machine(t[2..], State(2, v1 % 16, 0)));
    assert Machine(rest, State(1, v0, 0)) == second;
    assert Machine(t, START) == Prepend([], second);
    assert second.Ok? ==> [] + second.value == second.value;
  }

  lemma ThirdSymbol(t: string, v1: Sextet, v2: Sextet)
    requires |t| >= 3 && Value(t[2]) == Some(v2)
    ensures Machine(t[2..], State(2, v1 % 16, 0)) == Prepend([Second(v1, v2)], Machine(t[3..], State(3, v2 % 4, 0)))
  {
    assert t[2..][1..] == t[3..];
  }

  lemma FourthSymbol(t: string, v2: Sextet, v3: Sextet)
    requires |t| >= 4 && Value(t[3]) == Some(v3)
    ensures Machine(t[3..], State(3, v2 % 4, 0)) == Prepend([Third(v2, v3)], Machine(t[4..], START))
  {
    assert t[3..][1..] == t[4..];
  }

  lemma PaddingEndsGroup(bits: nat)
    ensures bits < 16 ==> Machine("==", State(2, bits, 0)) == Ok([])
    ensures bits < 4 ==> Machine("=", State(3, bits, 0)) == Ok([])
  {
    if bits < 16 {
      assert "=="[1..] == "=";
      assert Machine("==", State(2, bits, 0)) == Machine("=", State(2, bits, 1));
    }
  }

  lemma LoneSymbol(s: string)
    requires |s| == 1 && Value(s[0]).Some?
    ensures Machine(s + "===", START) == Err(BadPadding)
  {
    var st := State(1, Value(s[0]).value, 0);
    assert (s + "===")[1..] == "===";
    assert "==="[1..] == "==" && "=="[1..] == "=" && "="[1..] == "";
    assert Machine("=", st) == Machine("", st) == Err(BadPadding);
    assert Machine("==", st) == Machine("=", st);
    assert Machine("===", st) == Machine("==", st);
  }

  lemma LastTwo(s: string)
    requires |s| == 2 && AllValues(s)
    ensures Machine(s + "==", START) == Ok([First(Value(s[0]).value, Value(s[1]).value)])
  {
    var t := s + "==";
    TwoSymbols(t, Value(s[0]).value, Value(s[1]).value);
    assert t[2..] == "==";
    PaddingEndsGroup(Value(s[1]).value % 16);
    var b := First(Value(s[0]).value, Value(s[1]).value);
    assert [b] + [] == [b];
  }

  lemma LastThree(s: string)
    requires |s| == 3 && AllValues(s)
    ensures Machine(s + "=", START)
         == Ok([First(Value(s[0]).value, Value(s[1]).value), Second(Value(s[1]).value, Value(s[2]).value)])
  {
    var t := s + "=";
    TwoSymbols(t, Value(s[0]).value, Value(s[1]).value);
    ThirdSymbol(t, Value(s[1]).value, Value(s[2]).value);
    assert t[3..] == "=";
    PaddingEndsGroup(Value(s[2]).value % 4);
    var a, b := First(Value(s[0]).value, Value(s[1]).value), Second(Value(s[1]).value, Value(s[2]).value);
    assert [a] + ([b] + []) == [a, b];
  }

  lemma FourSymbols(t: string, v0: Sextet, v1: Sextet, v2: Sextet, v3: Sextet)
    requires |t| >= 4 && Value(t[0]) == Some(v0) && Value(t[1]) == Some(v1)
    requires Value(t[2]) == Some(v2) && Value(t[3]) == Some(v3)
    ensures Machine(t, START) == Prepend([First(v0, v1), Second(v1, v2), Third(v2, v3)], Machine(t[4..], START))
  {
    TwoSymbols(t, v0, v1);
    ThirdSymbol(t, v1, v2);
    FourthSymbol(t, v2, v3);
    PrependThree(First(v0, v1), Second(v1, v2), Third(v2, v3), Machine(t[4..], START));
  }

  lemma PrependThree(a: Byte, b: Byte, c: Byte, r: Result<seq<Byte>, DecodeError>)
    ensures Prepend([a], Prepend([b], Prepend([c], r))) == Prepend([a, b, c], r)
  {
    if r.Ok? {
      assert [a] + ([b] + ([c] + r.value)) == [a, b, c] + r.value;
    }
  }

  lemma BlocksUnfold(s: string)
    requires AllValues(s) && |s| > 3
    ensures OfBlocks(Blocks(s))
         == Prepend([First(Value(s[0]).value, Value(s[1]).value), Second(Value(s[1]).value, Value(s[2]).value),
                     Third(Value(s[2]).value, Value(s[3]).value)], OfBlocks(Blocks(s[4..])))
  {
  }

  lemma PaddingUnfold(s: string)
    requires |s| > 3
    ensures (s + Padding(|s|))[4..] == s[4..] + Padding(|s[4..]|)
  {
  }

  /** On text without foreign characters the machine is the block decoder. */
  lemma {:induction false} MachineIsBlocks(s: string)
    requires AllValues(s)
    ensures Machine(s + Padding(|s|), START) == OfBlocks(Blocks(s))
  {
    if |s| == 1 {
      LoneSymbol(s);
    } else if |s| == 2 {
      LastTwo(s);
    } else if |s| == 3 {
      LastThree(s);
    } else if |s| > 3 {
      MachineIsBlocks(s[4..]);
      MachineIsBlocksForFourMore(s);
    }
  }

  lemma MachineIsBlocksForFourMore(s: string)
    requires AllValues(s) && |s| > 3
    requires Machine(s[4..] + Padding(|s[4..]|), START) == OfBlocks(Blocks(s[4..]))
    ensures Machine(s + Padding(|s|), START) == OfBlocks(Blocks(s))
  {
    PaddingUnfold(s);
    BlocksUnfold(s);
    FourSymbols(s + Padding(|s|), Value(s[0]).value, Value(s[1]).value, Value(s[2]).value, Value(s[3]).value);
  }

  function OfBlocks(r: Option<seq<Byte>>): Result<seq<Byte>, DecodeError> {
    match r case None => Err(BadPadding) case Some(bs) => Ok(bs)
  }

  // ----- the unpadded form of encoding

  /** Encoding without padding: the reference for encode-then-strip. */
  function Segment(bs: seq<Byte>): string {
    if |bs| == 0 then ""
    else if |bs| == 1 then [Symbol(bs[0] / 4), Symbol(bs[0] % 4 * 16)]
    else if |bs| == 2 then [Symbol(bs[0] / 4), Symbol(bs[0] % 4 * 16 + bs[1] / 16), Symbol(bs[1] % 16 * 4)]
    else Quad(bs) + Segment(bs[3..])
  }

  function Quad(bs: seq<Byte>): string
    requires |bs| > 2
  {
    Group(bs[0], bs[1], bs[2])
  }

  lemma {:induction false} StripPaddingAfter(a: string, b: string)
    requires a != "" && a[|a| - 1] != '='
    ensures StripPadding(a + b) == a + StripPadding(b)
  {
    if b == "" {
      assert a + b == a;
    } else if b[|b| - 1] == '=' {
      StripPaddingAfter(a, b[..|b| - 1]);
      assert (a + b)[..|a + b| - 1] == a + b[..|b| - 1];
    }
  }

  lemma StripOneOrTwo(a: string)
    requires a != "" && a[|a| - 1] != '='
    ensures StripPadding(a + "=") == a && StripPadding(a + "==") == a
  {
    assert (a + "=")[..|a + "="| - 1] == a;
    assert (a + "==")[..|a + "=="| - 1] == a + "=";
  }

  lemma {:induction false} EncodeSegmentIsSegment(bs: seq<Byte>)
    ensures EncodeSegment(bs) == Segment(bs)
  {
    var padded := UrlSafeEncode(bs);
    if |bs| == 1 {
      SymbolValue(bs[0] % 4 * 16);
      StripOneOrTwo(Segment(bs));
      assert padded == Segment(bs) + "==";
    } else if |bs| == 2 {
      SymbolValue(bs[1] % 16 * 4);
      StripOneOrTwo(Segment(bs));
      assert padded == Segment(bs) + "=";
    } else if |bs| > 2 {
      SymbolValue(bs[2] % 64);
      assert padded == Quad(bs) + UrlSafeEncode(bs[3..]);
      StripPaddingAfter(Quad(bs), UrlSafeEncode(bs[3..]));
      EncodeSegmentIsSegment(bs[3..]);
    }
  }

  /** Three bytes survive being cut into four sextets, and four sextets being cut into bytes. */
  lemma GroupRoundTrip(b0: Byte, b1: Byte, b2: Byte)
    ensures First(b0 / 4, b0 % 4 * 16 + b1 / 16) == b0
    ensures Second(b0 % 4 * 16 + b1 / 16, b1 % 16 * 4 + b2 / 64) == b1
    ensures Third(b1 % 16 * 4 + b2 / 64, b2 % 64) == b2
  {
  }

  lemma QuadRoundTrip(v0: Sextet, v1: Sextet, v2: Sextet, v3: Sextet)
    ensures First(v0, v1) / 4 == v0
    ensures First(v0, v1) % 4 * 16 + Second(v1, v2) / 16 == v1
    ensures Second(v1, v2) % 16 * 4 + Third(v2, v3) / 64 == v2
    ensures Third(v2, v3) % 64 == v3
  {
  }

  lemma BlocksOfOne(b: Byte)
    ensures AllSymbols(Segment([b])) && Blocks(Segment([b])) == Some([b])
  {
    SymbolValue(b / 4);
    SymbolValue(b % 4 * 16);
    GroupRoundTrip(b, 0, 0);
  }

  lemma BlocksOfTwo(a: Byte, b: Byte)
    ensures AllSymbols(Segment([a, b])) && Blocks(Segment([a, b])) == Some([a, b])
  {
    var v0, v1, v2: Sextet := a / 4, a % 4 * 16 + b / 16, b % 16 * 4;
    SymbolValue(v0);
    SymbolValue(v1);
    SymbolValue(v2);
    BlocksOfThreeSymbols(v0, v1, v2);
    GroupRoundTrip(a, b, 0);
  }

  lemma BlocksOfThreeSymbols(v0: Sextet, v1: Sextet, v2: Sextet)
    requires AllSymbols([Symbol(v0), Symbol(v1), Symbol(v2)])
    ensures Blocks([Symbol(v0), Symbol(v1), Symbol(v2)]) == Some([First(v0, v1), Second(v1, v2)])
  {
    SymbolValue(v0);
    SymbolValue(v1);
    SymbolValue(v2);
  }

  lemma BlocksOfQuad(bs: seq<Byte>, s: string)
    requires |bs| > 2 && AllSymbols(s)
    ensures AllSymbols(Quad(bs) + s)
    ensures OfBlocks(Blocks(Quad(bs) + s)) == Prepend(bs[..3], OfBlocks(Blocks(s)))
  {
    SymbolValue(bs[0] / 4);
    SymbolValue(bs[0] % 4 * 16 + bs[1] / 16);
    SymbolValue(bs[1] % 16 * 4 + bs[2] / 64);
    SymbolValue(bs[2] % 64);
    var t := Quad(bs) + s;
    assert AllSymbols(t) && t[4..] == s;
    BlocksUnfold(t);
    GroupRoundTrip(bs[0], bs[1], bs[2]);
    FirstThree(bs);
  }

  lemma FirstThree(bs: seq<Byte>)
    requires |bs| > 2
    ensures [bs[0], bs[1], bs[2]] == bs[..3]
  {
  }

  lemma {:induction false} BlocksOfSegment(bs: seq<Byte>)
    ensures AllSymbols(Segment(bs)) && Blocks(Segment(bs)) == Some(bs)
  {
    if |bs| == 1 {
      BlocksOfOne(bs[0]);
      assert bs == [bs[0]];
    } else if |bs| == 2 {
      BlocksOfTwo(bs[0], bs[1]);
      assert bs == [bs[0], bs[1]];
    } else if |bs| > 2 {
      BlocksOfSegment(bs[3..]);
      BlocksOfQuad(bs, Segment(bs[3..]));
      assert bs == bs[..3] + bs[3..];
    }
  }

  // ----- main results about segments

  lemma DecodeIsBlocks(s: string)
    requires AllSymbols(s)
    ensures DecodeSegment(s) == OfBlocks(Blocks(s))
  {
    MachineIsBlocks(s);
  }

  /** Every byte string survives encoding, stripping the padding and decoding. */
  lemma SegmentRoundTrip(bs: seq<Byte>)
    ensures DecodeSegment(EncodeSegment(bs)) == Ok(bs)
    ensures AllSymbols(EncodeSegment(bs)) && |EncodeSegment(bs)| % 4 != 1
  {
    EncodeSegmentIsSegment(bs);
    BlocksOfSegment(bs);
    DecodeIsBlocks(Segment(bs));
    BlocksLength(Segment(bs));
  }

  lemma FourFewer(n: nat)
    requires n > 3
    ensures (n - 4) % 4 == n % 4
  {
  }

  lemma {:induction false} BlocksLength(s: string)
    requires AllValues(s)
    ensures Blocks(s).None? <==> |s| % 4 == 1
  {
    if |s| > 3 {
      BlocksLength(s[4..]);
      BlocksUnfold(s);
      FourFewer(|s|);
    }
  }

  /** A segment of alphabet characters decodes exactly when its length is not 1 modulo 4. */
  lemma DecodesIff(s: string)
    requires AllSymbols(s)
    ensures DecodeSegment(s).Ok? <==> |s| % 4 != 1
  {
    DecodeIsBlocks(s);
    BlocksLength(s);
  }

  /** The bits of the last character that no byte uses are zero. */
  predicate Canonical(s: string)
    requires AllSymbols(s)
  {
    && (|s| % 4 == 2 ==> Value(s[|s| - 1]).value % 16 == 0)
    && (|s| % 4 == 3 ==> Value(s[|s| - 1]).value % 4 == 0)
  }

  lemma {:induction false} SegmentOfBlocks(s: string)
    requires AllSymbols(s) && |s| % 4 != 1
    ensures Blocks(s).Some? && (Segment(Blocks(s).value) == s <==> Canonical(s))
  {
    BlocksLength(s);
    if |s| == 2 {
      SegmentOfTwo(s);
    } else if |s| == 3 {
      SegmentOfThree(s);
    } else if |s| > 3 {
      FourFewer(|s|);
      SegmentOfBlocks(s[4..]);
      SegmentOfFourMore(s);
      CanonicalRest(s);
    }
  }

  lemma SegmentOfFourMore(s: string)
    requires AllSymbols(s) && |s| > 3 && Blocks(s).Some?
    ensures Blocks(s[4..]).Some?
    ensures Segment(Blocks(s).value) == s <==> Segment(Blocks(s[4..]).value) == s[4..]
  {
    SegmentOfQuad(s);
    assert s == s[..4] + s[4..];
    SameStart(s[..4], Segment(Blocks(s[4..]).value), s[4..]);
  }

  lemma SameStart(a: string, b: string, c: string)
    ensures a + b == a + c <==> b == c
  {
    assert (a + b)[|a|..] == b && (a + c)[|a|..] == c;
  }

  lemma CanonicalRest(s: string)
    requires AllSymbols(s) && |s| > 3 && |s| % 4 != 1
    ensures Canonical(s) <==> Canonical(s[4..])
  {
    FourFewer(|s|);
    if |s| > 4 {
      assert s[4..][|s| - 5] == s[|s| - 1];
    }
  }

  lemma SegmentOfTwo(s: string)
    requires AllSymbols(s) && |s| == 2
    ensures Segment(Blocks(s).value) == s <==> Value(s[1]).value % 16 == 0
  {
    var v0, v1 := Value(s[0]).value, Value(s[1]).value;
    var last: Sextet := First(v0, v1) % 4 * 16;
    ValueSymbol(s[0]);
    SymbolIs(last, s[1]);
    QuadRoundTrip(v0, v1, 0, 0);
    assert last == v1 <==> v1 % 16 == 0;
    assert Segment(Blocks(s).value) == [Symbol(v0), Symbol(last)];
    assert [Symbol(v0), Symbol(last)] == s <==> Symbol(last) == s[1];
  }

  lemma SegmentOfThree(s: string)
    requires AllSymbols(s) && |s| == 3
    ensures Segment(Blocks(s).value) == s <==> Value(s[2]).value % 4 == 0
  {
    var v0, v1, v2 := Value(s[0]).value, Value(s[1]).value, Value(s[2]).value;
    var last: Sextet := Second(v1, v2) % 16 * 4;
    ValueSymbol(s[0]);
    ValueSymbol(s[1]);
    SymbolIs(last, s[2]);
    LastSextet(v1, v2);
    assert Blocks(s) == Some([First(v0, v1), Second(v1, v2)]);
    SegmentOfTwoBytes(v0, v1, v2);
    assert [s[0], s[1], Symbol(last)] == s <==> Symbol(last) == s[2];
  }

  lemma LastSextet(v1: Sextet, v2: Sextet)
    ensures Second(v1, v2) % 16 * 4 == v2 <==> v2 % 4 == 0
  {
  }

  lemma SegmentOfTwoBytes(v0: Sextet, v1: Sextet, v2: Sextet)
    ensures Segment([First(v0, v1), Second(v1, v2)])
         == [Symbol(v0), Symbol(v1), Symbol(Second(v1, v2) % 16 * 4)]
  {
    QuadRoundTrip(v0, v1, v2, 0);
  }

  lemma SegmentOfQuad(s: string)
    requires AllSymbols(s) && |s| > 3 && Blocks(s).Some?
    ensures Blocks(s[4..]).Some? && Segment(Blocks(s).value) == s[..4] + Segment(Blocks(s[4..]).value)
  {
    BlocksUnfold(s);
    var bs, rest := Blocks(s).value, Blocks(s[4..]).value;
    QuadOfValues(s, bs);
    assert bs[3..] == rest;
  }

  lemma QuadOfValues(s: string, bs: seq<Byte>)
    requires AllSymbols(s) && |s| > 3 && |bs| > 2
    requires bs[0] == First(Value(s[0]).value, Value(s[1]).value)
    requires bs[1] == Second(Value(s[1]).value, Value(s[2]).value)
    requires bs[2] == Third(Value(s[2]).value, Value(s[3]).value)
    ensures Quad(bs) == s[..4]
  {
    ValueSymbol(s[0]);
    ValueSymbol(s[1]);
    ValueSymbol(s[2]);
    ValueSymbol(s[3]);
    QuadRoundTrip(Value(s[0]).value, Value(s[1]).value, Value(s[2]).value, Value(s[3]).value);
  }

  /** Among the segments that decode, exactly the canonical ones are what encoding produces:
      the others are second spellings of the same bytes. */
  lemma ReencodesIffCanonical(s: string)
    requires AllSymbols(s) && |s| % 4 != 1
    ensures DecodeSegment(s).Ok? && (EncodeSegment(DecodeSegment(s).value) == s <==> Canonical(s))
  {
    DecodeIsBlocks(s);
    SegmentOfBlocks(s);
    EncodeSegmentIsSegment(Blocks(s).value);
  }

  // ----- tokens

  /** `header` and `payload` stand for the serialised JSON objects. */
  function CraftAlgNoneJwt(header: seq<Byte>, payload: seq<Byte>): string {
    EncodeSegment(header) + ['.'] + (EncodeSegment(payload) + ['.'] + "")
  }

  /** `token.split(".")`, with no limit on the cuts. */
  function Parts(token: string): seq<string> {
    Split(token, '.', |token|)
  }

  /** A crafted token splits into exactly three parts, the last one empty, and the inspector
      decodes the first two to the header and the payload. */
  lemma CraftedTokenRoundTrip(header: seq<Byte>, payload: seq<Byte>)
    ensures var parts := Parts(CraftAlgNoneJwt(header, payload));
            && |parts| == 3 && parts[2] == ""
            && DecodeSegment(parts[0]) == Ok(header)
            && DecodeSegment(parts[1]) == Ok(payload)
  {
    SegmentRoundTrip(header);
    SegmentRoundTrip(payload);
    SymbolsHaveNoDot(EncodeSegment(header));
    SymbolsHaveNoDot(EncodeSegment(payload));
    PartsOfThree(EncodeSegment(header), EncodeSegment(payload), "");
  }

  lemma SymbolsHaveNoDot(s: string)
    requires AllSymbols(s)
    ensures '.' !in s
  {
  }

  lemma PartsOfThree(h: string, p: string, q: string)
    requires '.' !in h && '.' !in p && '.' !in q
    ensures Parts(h + ['.'] + (p + ['.'] + q)) == [h, p, q]
  {
    var token := h + ['.'] + (p + ['.'] + q);
    SplitAtFirst(h, p + ['.'] + q, '.', |token|);
    SplitAtFirst(p, q, '.', |token| - 1);
    SplitNowhere(q, '.', |token| - 2);
    assert [h] + ([p] + [q]) == [h, p, q];
  }

  /** A segment begins with `eyJ`, as the inspector wants of a token, exactly when the bytes start
      with `{"` and a byte from 64 to 127: a JSON object with a first key that starts with a
      letter, say, but neither `{}` nor `{"1":0}`. */
  lemma SegmentStartsWithEyJIff(json: seq<Byte>)
    ensures "eyJ" <= EncodeSegment(json)
       <==> |json| > 2 && json[0] == '{' as int && json[1] == '"' as int && 64 <= json[2] < 128
  {
    EncodeSegmentIsSegment(json);
    if |json| > 2 {
      QuadStartsWithEyJIff(json);
      assert Segment(json) == Quad(json) + Segment(json[3..]);
      StartsWithThree('e', 'y', 'J', Segment(json));
      StartsWithThree('e', 'y', 'J', Quad(json));
    } else if |json| == 2 {
      SymbolIs(json[1] % 16 * 4, 'J');
      StartsWithThree('e', 'y', 'J', Segment(json));
    }
  }

  lemma QuadStartsWithEyJIff(bs: seq<Byte>)
    requires |bs| > 2
    ensures "eyJ" <= Quad(bs) <==> bs[0] == '{' as int && bs[1] == '"' as int && 64 <= bs[2] < 128
  {
    var v0, v1, v2 := bs[0] / 4, bs[0] % 4 * 16 + bs[1] / 16, bs[1] % 16 * 4 + bs[2] / 64;
    SymbolIs(v0, 'e');
    SymbolIs(v1, 'y');
    SymbolIs(v2, 'J');
    StartsWithThree('e', 'y', 'J', Quad(bs));
  }

  lemma SymbolIs(v: Sextet, c: char)
    requires IsSymbol(c)
    ensures Symbol(v) == c <==> Value(c) == Some(v)
  {
    SymbolValue(v);
    ValueSymbol(c);
  }

  lemma StartsWithThree(a: char, b: char, c: char, s: string)
    ensures [a, b, c] <= s <==> |s| >= 3 && s[0] == a && s[1] == b && s[2] == c
  {
    if |s| >= 3 && s[0] == a && s[1] == b && s[2] == c {
      assert s[..3] == [a, b, c];
    }
  }

  /** A token whose header is the empty object is not recognised. */
  lemma EmptyHeaderIsNotRecognised()
    ensures !("eyJ" <= EncodeSegment(['{' as int, '}' as int]))
  {
    SegmentStartsWithEyJIff(['{' as int, '}' as int]);
  }

  /** `QQ` and `QR` decode alike; only the first is what encoding produces. */
  lemma TwoSpellingsOfOneByte()
    ensures DecodeSegment("QQ") == DecodeSegment("QR") == Ok([65])
    ensures EncodeSegment([65]) == "QQ"
  {
    DecodeIsBlocks("QQ");
    DecodeIsBlocks("QR");
    EncodeSegmentIsSegment([65]);
  }
}
