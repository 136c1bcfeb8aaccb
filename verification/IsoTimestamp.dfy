/**
UTC timestamps and their ISO 8601 text, as `datetime.isoformat()` writes them: six fraction
digits, or none when the microseconds are zero. Columns hold the text and are ordered by it.
*/
module IsoTimestamp {

  datatype Stamp = Stamp(year: nat, month: nat, day: nat, hour: nat, minute: nat, second: nat, micro: nat) {
    predicate Valid() {
      && 1 <= year <= 9999 && 1 <= month <= 12 && 1 <= day <= 31
      && hour < 24 && minute < 60 && second < 60 && micro < 1000000
    }
  }

  type Timestamp = t: Stamp | t.Valid() witness Stamp(1970, 1, 1, 0, 0, 0, 0)

  /** `a` is an earlier instant than `b`. */
  predicate Earlier(a: Timestamp, b: Timestamp) {
    if a.year != b.year then a.year < b.year
    else if a.month != b.month then a.month < b.month
    else if a.day != b.day then a.day < b.day
    else if a.hour != b.hour then a.hour < b.hour
    else if a.minute != b.minute then a.minute < b.minute
    else if a.second != b.second then a.second < b.second
    else a.micro < b.micro
  }

  // ----- the text

  function Digit(n: nat): char
    requires n < 10
  {
    '0' + n as char
  }

  function Pow10(width: nat): (p: nat)
    ensures p > 0
  {
    if width == 0 then 1 else 10 * Pow10(width - 1)
  }

  function Digits(n: nat, width: nat): string {
    if width == 0 then "" else Digits(n / 10, width - 1) + [Digit(n % 10)]
  }

  function Fraction(micro: nat): string {
    if micro == 0 then "+00:00" else ['.'] + (Digits(micro, 6) + "+00:00")
  }

  function Iso(t: Timestamp): string {
    Digits(t.year, 4) + (['-'] + (Digits(t.month, 2) + (['-'] + (Digits(t.day, 2) + (['T'] + TimeText(t))))))
  }

  function TimeText(t: Timestamp): string {
    Digits(t.hour, 2) + ([':'] + (Digits(t.minute, 2) + ([':'] + (Digits(t.second, 2) + Fraction(t.micro)))))
  }

  // ----- the order of text

  /** Binary text order. */
  predicate TextLess(a: string, b: string) {
    b != "" && (a == "" || a[0] < b[0] || (a[0] == b[0] && TextLess(a[1..], b[1..])))
  }

  /** Text is ordered by its first difference, and before its own extensions. */
  ghost predicate DiffersAt(a: string, b: string, k: nat) {
    k <= |a| && k < |b| && a[..k] == b[..k] && (k == |a| || a[k] < b[k])
  }

  lemma {:induction false} TextLessMeans(a: string, b: string)
    ensures TextLess(a, b) <==> exists k: nat :: DiffersAt(a, b, k)
  {
    assert forall k: nat :: k > 0 && DiffersAt(a, b, k) ==> a[0] == a[..k][0] == b[..k][0] == b[0];
    if a != "" && b != "" && a[0] == b[0] {
      TextLessMeans(a[1..], b[1..]);
      if k: nat :| DiffersAt(a, b, k) {
        SameStartDiffers(a, b, k - 1);
      }
      if k: nat :| DiffersAt(a[1..], b[1..], k) {
        SameStartDiffers(a, b, k);
      }
    } else {
      assert TextLess(a, b) <==> DiffersAt(a, b, 0);
    }
  }

  lemma SameStartDiffers(a: string, b: string, k: nat)
    requires a != "" && b != "" && a[0] == b[0]
    ensures DiffersAt(a, b, k + 1) <==> DiffersAt(a[1..], b[1..], k)
  {
    if k < |a| && k < |b| {
      assert a[..k + 1] == [a[0]] + a[1..][..k] && b[..k + 1] == [b[0]] + b[1..][..k];
      assert a[..k + 1][1..] == a[1..][..k] && b[..k + 1][1..] == b[1..][..k];
    }
  }

  lemma {:induction false} TextLessIsStrict(a: string, b: string)
    ensures !(TextLess(a, b) && TextLess(b, a))
    ensures TextLess(a, b) || TextLess(b, a) || a == b
    ensures a == b ==> !TextLess(a, b)
  {
    if a != "" && b != "" && a[0] == b[0] {
      TextLessIsStrict(a[1..], b[1..]);
      assert a == [a[0]] + a[1..] && b == [b[0]] + b[1..];
    }
  }

  lemma {:induction false} TextLessIsTransitive(a: string, b: string, c: string)
    requires TextLess(a, b) && TextLess(b, c)
    ensures TextLess(a, c)
  {
    if a != "" && a[0] == b[0] == c[0] {
      TextLessIsTransitive(a[1..], b[1..], c[1..]);
    }
  }

  lemma SameStart(c: char, a: string, b: string)
    ensures TextLess([c] + a, [c] + b) <==> TextLess(a, b)
  {
    assert ([c] + a)[1..] == a && ([c] + b)[1..] == b;
  }

  lemma {:induction false} SameLength(x: string, y: string, a: string, b: string)
    requires |x| == |y|
    ensures TextLess(x + a, y + b) <==> TextLess(x, y) || (x == y && TextLess(a, b))
  {
    if x == "" {
      assert x + a == a && y + b == b;
    } else {
      SameLength(x[1..], y[1..], a, b);
      assert (x + a)[1..] == x[1..] + a && (y + b)[1..] == y[1..] + b;
      assert x == [x[0]] + x[1..] && y == [y[0]] + y[1..];
      TextLessIsStrict(x, y);
    }
  }

  lemma {:induction false} DigitsOrder(m: nat, n: nat, width: nat)
    requires m < Pow10(width) && n < Pow10(width)
    ensures |Digits(m, width)| == |Digits(n, width)| == width
    ensures TextLess(Digits(m, width), Digits(n, width)) <==> m < n
    ensures Digits(m, width) == Digits(n, width) <==> m == n
  {
    if width > 0 {
      DigitsOrder(m / 10, n / 10, width - 1);
      var x, y := Digits(m / 10, width - 1), Digits(n / 10, width - 1);
      SameLength(x, y, [Digit(m % 10)], [Digit(n % 10)]);
      assert TextLess([Digit(m % 10)], [Digit(n % 10)]) <==> m % 10 < n % 10;
      assert (x + [Digit(m % 10)])[..width - 1] == x && (y + [Digit(n % 10)])[..width - 1] == y;
    }
  }

  /** A zero-padded field decides, and on a tie the rest does. */
  lemma Field(m: nat, n: nat, width: nat, a: string, b: string)
    requires m < Pow10(width) && n < Pow10(width)
    ensures TextLess(Digits(m, width) + a, Digits(n, width) + b) <==> m < n || (m == n && TextLess(a, b))
  {
    DigitsOrder(m, n, width);
    SameLength(Digits(m, width), Digits(n, width), a, b);
  }

  lemma Powers()
    ensures Pow10(2) == 100 && Pow10(4) == 10000 && Pow10(6) == 1000000
  {
    assert Pow10(1) == 10;
    assert Pow10(3) == 1000;
    assert Pow10(5) == 100000;
  }

  /** A missing fraction sorts before every other, because `+` sorts before `.`. */
  lemma FractionOrder(m: nat, n: nat)
    requires m < 1000000 && n < 1000000
    ensures TextLess(Fraction(m), Fraction(n)) <==> m < n
  {
    Powers();
    if m > 0 && n > 0 {
      SameStart('.', Digits(m, 6) + "+00:00", Digits(n, 6) + "+00:00");
      Field(m, n, 6, "+00:00", "+00:00");
      TextLessIsStrict("+00:00", "+00:00");
    } else if m == 0 && n == 0 {
      TextLessIsStrict("+00:00", "+00:00");
    } else {
      assert '+' < '.';
    }
  }

  lemma TimeOrder(a: Timestamp, b: Timestamp)
    ensures TextLess(TimeText(a), TimeText(b)) <==>
            if a.hour != b.hour then a.hour < b.hour
            else if a.minute != b.minute then a.minute < b.minute
            else if a.second != b.second then a.second < b.second
            else a.micro < b.micro
  {
    Powers();
    var sa, sb := Digits(a.second, 2) + Fraction(a.micro), Digits(b.second, 2) + Fraction(b.micro);
    var ma, mb := Digits(a.minute, 2) + ([':'] + sa), Digits(b.minute, 2) + ([':'] + sb);
    FractionOrder(a.micro, b.micro);
    Field(a.second, b.second, 2, Fraction(a.micro), Fraction(b.micro));
    SameStart(':', sa, sb);
    Field(a.minute, b.minute, 2, [':'] + sa, [':'] + sb);
    SameStart(':', ma, mb);
    Field(a.hour, b.hour, 2, [':'] + ma, [':'] + mb);
  }

  /** Sorting by the text is sorting by the instant. */
  lemma IsoOrder(a: Timestamp, b: Timestamp)
    ensures TextLess(Iso(a), Iso(b)) <==> Earlier(a, b)
  {
    Powers();
    var ta, tb := ['T'] + TimeText(a), ['T'] + TimeText(b);
    var da, db := Digits(a.day, 2) + ta, Digits(b.day, 2) + tb;
    var ma, mb := Digits(a.month, 2) + (['-'] + da), Digits(b.month, 2) + (['-'] + db);
    TimeOrder(a, b);
    SameStart('T', TimeText(a), TimeText(b));
    Field(a.day, b.day, 2, ta, tb);
    SameStart('-', da, db);
    Field(a.month, b.month, 2, ['-'] + da, ['-'] + db);
    SameStart('-', ma, mb);
    Field(a.year, b.year, 4, ['-'] + ma, ['-'] + mb);
  }

  predicate AllDigits(s: string) {
    forall i :: 0 <= i < |s| ==> '0' <= s[i] <= '9'
  }

  /** The number that decimal digits stand for. */
  function Numeral(s: string): nat
    requires AllDigits(s)
  {
    if s == "" then 0 else 10 * Numeral(s[..|s| - 1]) + (s[|s| - 1] - '0') as nat
  }

  /** From position `at` on, `s` has the number `n` in `width` digits. */
  predicate HasNumber(s: string, at: nat, width: nat, n: nat) {
    at + width <= |s| && AllDigits(s[at..at + width]) && Numeral(s[at..at + width]) == n
  }

  lemma {:induction false} DigitsMean(n: nat, width: nat)
    requires n < Pow10(width)
    ensures |Digits(n, width)| == width && AllDigits(Digits(n, width)) && Numeral(Digits(n, width)) == n
  {
    if width > 0 {
      DigitsMean(n / 10, width - 1);
      var s := Digits(n, width);
      assert s[..|s| - 1] == Digits(n / 10, width - 1) && s[|s| - 1] == Digit(n % 10);
    }
  }

  lemma NumberThenRest(s: string, at: nat, n: nat, width: nat, rest: string)
    requires n < Pow10(width) && at <= |s| && s[at..] == Digits(n, width) + rest
    ensures HasNumber(s, at, width, n) && s[at + width..] == rest
  {
    DigitsMean(n, width);
    assert |s[at..]| == width + |rest|;
    assert s[at..at + width] == s[at..][..width] == Digits(n, width);
    assert s[at + width..] == s[at..][width..];
  }

  lemma CharThenRest(s: string, at: nat, c: char, rest: string)
    requires at <= |s| && s[at..] == [c] + rest
    ensures at < |s| && s[at] == c && s[at + 1..] == rest
  {
    assert s[at] == s[at..][0] && s[at + 1..] == s[at..][1..];
  }

  ghost predicate HasTime(s: string, at: nat, t: Timestamp) {
    && HasNumber(s, at, 2, t.hour) && HasNumber(s, at + 3, 2, t.minute) && HasNumber(s, at + 6, 2, t.second)
    && at + 8 < |s| && s[at + 2] == ':' && s[at + 5] == ':'
    && if t.micro == 0 then s[at + 8..] == "+00:00"
       else s[at + 8] == '.' && HasNumber(s, at + 9, 6, t.micro) && s[at + 15..] == "+00:00"
  }

  lemma TimeMeans(s: string, at: nat, t: Timestamp)
    requires at <= |s| && s[at..] == TimeText(t)
    ensures HasTime(s, at, t)
  {
    Powers();
    var seconds := Digits(t.second, 2) + Fraction(t.micro);
    var minutes := Digits(t.minute, 2) + ([':'] + seconds);
    NumberThenRest(s, at, t.hour, 2, [':'] + minutes);
    CharThenRest(s, at + 2, ':', minutes);
    NumberThenRest(s, at + 3, t.minute, 2, [':'] + seconds);
    CharThenRest(s, at + 5, ':', seconds);
    NumberThenRest(s, at + 6, t.second, 2, Fraction(t.micro));
    if t.micro != 0 {
      CharThenRest(s, at + 8, '.', Digits(t.micro, 6) + "+00:00");
      NumberThenRest(s, at + 9, t.micro, 6, "+00:00");
    }
  }

  /** The text is the date, `T` and the time in zero-padded decimal fields, then six digits of
      microseconds if there are any, then the offset. */
  lemma IsoMeans(t: Timestamp)
    ensures var s := Iso(t);
            && HasNumber(s, 0, 4, t.year) && HasNumber(s, 5, 2, t.month) && HasNumber(s, 8, 2, t.day)
            && s[4] == '-' && s[7] == '-' && |s| > 10 && s[10] == 'T' && HasTime(s, 11, t)
  {
    Powers();
    var s := Iso(t);
    var day := Digits(t.day, 2) + (['T'] + TimeText(t));
    var month := Digits(t.month, 2) + (['-'] + day);
    NumberThenRest(s, 0, t.year, 4, ['-'] + month);
    CharThenRest(s, 4, '-', month);
    NumberThenRest(s, 5, t.month, 2, ['-'] + day);
    CharThenRest(s, 7, '-', day);
    NumberThenRest(s, 8, t.day, 2, ['T'] + TimeText(t));
    CharThenRest(s, 10, 'T', TimeText(t));
    TimeMeans(s, 11, t);
  }

  lemma IsoIsInjective(a: Timestamp, b: Timestamp)
    requires Iso(a) == Iso(b)
    ensures a == b
  {
    IsoOrder(a, b);
    IsoOrder(b, a);
    TextLessIsStrict(Iso(a), Iso(b));
  }
}
