/**
How the API security agent finds a token in a response: the leftmost match of
`eyJ[a-zA-Z0-9_=-]+\.[a-zA-Z0-9_=-]+\.[a-zA-Z0-9_=-]*`. The class has no dot, so each run of it is
as long as it can be.
*/
module TokenSearch {
  import opened Prelude
  import opened Base64Url

  const START_OF_TOKEN := "eyJ"

  predicate InClass(c: char) {
    'a' <= c <= 'z' || 'A' <= c <= 'Z' || '0' <= c <= '9' || c == '_' || c == '=' || c == '-'
  }

  predicate AllInClass(s: string) {
    forall c :: c in s ==> InClass(c)
  }

  predicate StartsToken(s: string) {
    START_OF_TOKEN <= s
  }

  /** How many characters of the class `s` starts with. */
  function ClassRun(s: string): (n: nat)
    ensures n <= |s|
  {
    EndOfRun(s, 0)
  }

  /** The first position from `i` on that is outside the class. */
  function EndOfRun(s: string, i: nat): (n: nat)
    requires i <= |s|
    ensures i <= n <= |s|
    decreases |s| - i
  {
    if i == |s| || !InClass(s[i]) then i else EndOfRun(s, i + 1)
  }

  /** The length of a non-empty run and the dot after it. */
  function RunAndDot(s: string): (n: Option<nat>)
    ensures n.Some? ==> 2 <= n.value <= |s|
  {
    var run := ClassRun(s);
    if run > 0 && run < |s| && s[run] == '.' then Some(run + 1) else None
  }

  /** The length of two such runs in a row. */
  function TwoRuns(s: string): (n: Option<nat>)
    ensures n.Some? ==> n.value <= |s|
  {
    match RunAndDot(s)
    case None => None
    case Some(a) => match RunAndDot(s[a..]) case None => None case Some(b) => Some(a + b)
  }

  /** The length of what follows `eyJ` in a match. */
  function BodyLength(s: string): (n: Option<nat>)
    ensures n.Some? ==> n.value <= |s|
  {
    match TwoRuns(s) case None => None case Some(n) => Some(n + ClassRun(s[n..]))
  }

  /** The length of the match that starts `s`, if there is one. */
  function MatchLength(s: string): (n: Option<nat>)
    ensures n.Some? ==> n.value <= |s|
  {
    if !StartsToken(s) then None
    else match BodyLength(s[3..]) case None => None case Some(n) => Some(3 + n)
  }

  datatype Match = Match(start: nat, text: string)

  /** The leftmost match in `s`, which stands at position `at` of the searched text. */
  function Search(s: string, at: nat := 0): Option<Match> {
    if MatchLength(s).Some? then Some(Match(at, s[..MatchLength(s).value]))
    else if s == "" then None
    else Search(s[1..], at + 1)
  }

  // ----- runs

  lemma {:induction false} EndOfRunIs(s: string, i: nat, n: nat)
    requires i <= n <= |s| && (forall k :: i <= k < n ==> InClass(s[k])) && (n < |s| ==> !InClass(s[n]))
    ensures EndOfRun(s, i) == n
    decreases n - i
  {
    if i < n {
      EndOfRunIs(s, i + 1, n);
    }
  }

  lemma RunOf(run: string, rest: string)
    requires AllInClass(run)
    requires rest == "" || !InClass(rest[0])
    ensures ClassRun(run + rest) == |run|
  {
    EndOfRunIs(run + rest, 0, |run|);
  }

  lemma {:induction false} EndOfRunIsLongest(s: string, i: nat)
    requires i <= |s|
    ensures forall k :: i <= k < EndOfRun(s, i) ==> InClass(s[k])
    ensures EndOfRun(s, i) < |s| ==> !InClass(s[EndOfRun(s, i)])
    decreases |s| - i
  {
    if i < |s| && InClass(s[i]) {
      EndOfRunIsLongest(s, i + 1);
    }
  }

  lemma RunIsLongest(s: string)
    ensures AllInClass(s[..ClassRun(s)])
    ensures ClassRun(s) < |s| ==> !InClass(s[ClassRun(s)])
  {
    EndOfRunIsLongest(s, 0);
  }

  /** A character outside the class stops every run. */
  lemma RunStops(s: string, t: string)
    requires s != "" && !InClass(s[|s| - 1])
    ensures ClassRun(s + t) == ClassRun(s) < |s|
  {
    var n := ClassRun(s);
    RunIsLongest(s);
    assert s == s[..n] + s[n..];
    Associative(s[..n], s[n..], t);
    RunOf(s[..n], s[n..] + t);
  }

  /** The text ends in a character that is neither in the class nor a dot. */
  predicate EndsApart(s: string) {
    s != "" && !InClass(s[|s| - 1]) && s[|s| - 1] != '.'
  }

  lemma RunAndDotStops(s: string, t: string)
    requires EndsApart(s)
    ensures RunAndDot(s + t) == RunAndDot(s)
    ensures RunAndDot(s).Some? ==> EndsApart(s[RunAndDot(s).value..])
  {
    RunStops(s, t);
  }

  lemma TwoRunsStop(s: string, t: string)
    requires EndsApart(s)
    ensures TwoRuns(s + t) == TwoRuns(s)
    ensures TwoRuns(s).Some? ==> EndsApart(s[TwoRuns(s).value..])
  {
    RunAndDotStops(s, t);
    if RunAndDot(s).Some? {
      var a := RunAndDot(s).value;
      assert (s + t)[a..] == s[a..] + t;
      RunAndDotStops(s[a..], t);
      if RunAndDot(s[a..]).Some? {
        assert s[a..][RunAndDot(s[a..]).value..] == s[a + RunAndDot(s[a..]).value..];
      }
    }
  }

  lemma StartStops(s: string, t: string)
    requires EndsApart(s)
    ensures StartsToken(s + t) <==> StartsToken(s)
    ensures StartsToken(s) ==> EndsApart(s[3..])
  {
    assert InClass(START_OF_TOKEN[0]) && InClass(START_OF_TOKEN[1]) && InClass(START_OF_TOKEN[2]);
    assert START_OF_TOKEN <= s + t ==> forall i :: 0 <= i < 3 ==> (s + t)[i] == START_OF_TOKEN[i];
  }

  lemma BodyStops(s: string, t: string)
    requires EndsApart(s)
    ensures BodyLength(s + t) == BodyLength(s)
  {
    TwoRunsStop(s, t);
    if TwoRuns(s).Some? {
      var n := TwoRuns(s).value;
      assert (s + t)[n..] == s[n..] + t;
      RunStops(s[n..], t);
    }
  }

  /** No match crosses a character that is neither in the class nor a dot. */
  lemma MatchStops(s: string, t: string)
    requires EndsApart(s)
    ensures MatchLength(s + t) == MatchLength(s)
  {
    StartStops(s, t);
    if StartsToken(s) {
      AfterStart(s, t);
      BodyStops(s[3..], t);
    }
  }

  lemma AfterStart(s: string, t: string)
    requires |s| >= 3
    ensures (s + t)[3..] == s[3..] + t
  {
  }

  lemma SearchUnfold(s: string, at: nat)
    ensures Search(s, at) == if MatchLength(s).Some? then Some(Match(at, s[..MatchLength(s).value]))
                             else if s == "" then None else Search(s[1..], at + 1)
  {
  }

  lemma PrefixOf(s: string, t: string, n: nat)
    requires n <= |s|
    ensures (s + t)[..n] == s[..n]
  {
  }

  lemma RestOf(s: string, t: string)
    requires s != ""
    ensures (s + t)[1..] == s[1..] + t
  {
  }

  /** Text that ends apart is searched by itself first. */
  lemma {:induction false} SearchContinues(before: string, rest: string, at: nat)
    requires before == "" || EndsApart(before)
    ensures Search(before + rest, at)
         == if Search(before, at).Some? then Search(before, at) else Search(rest, at + |before|)
  {
    if before == "" {
      assert before + rest == rest;
    } else {
      MatchStops(before, rest);
      SearchUnfold(before + rest, at);
      SearchUnfold(before, at);
      if MatchLength(before).Some? {
        PrefixOf(before, rest, MatchLength(before).value);
      } else {
        RestOf(before, rest);
        SearchContinues(before[1..], rest, at + 1);
      }
    }
  }

  // ----- what the pattern means

  lemma ClassMeans(c: char)
    ensures InClass(c) <==> c == '=' || c in ALPHABET
  {
    AlphabetMeans();
    if IsSymbol(c) {
      ValueSymbol(c);
      assert ALPHABET[Value(c).value] == c;
    }
    if c in ALPHABET {
      var v: int :| 0 <= v < 64 && ALPHABET[v] == c;
      SymbolValue(v);
    }
  }

  /** `s` starts with a header, a payload and a signature in the class, with dots between; the header
      starts with `eyJ` and more, the payload is not empty, the signature goes on as far as it can. */
  ghost predicate StartsWithToken(s: string, h: string, p: string, signature: string, rest: string) {
    && s == "eyJ" + (h + ("." + (p + ("." + (signature + rest)))))
    && AllInClass(h) && AllInClass(p) && AllInClass(signature) && h != "" && p != ""
    && (rest == "" || !InClass(rest[0]))
  }

  lemma MatchOfToken(s: string, h: string, p: string, signature: string, rest: string)
    requires StartsWithToken(s, h, p, signature, rest)
    ensures MatchLength(s) == Some(|s| - |rest|)
  {
    BodyOf(h, p, signature + rest);
    RunOf(signature, rest);
    StartOf("eyJ", s[3..]);
    MatchOfBody(s, |h| + |p| + 2 + |signature|);
  }

  lemma RunSplits(s: string) returns (run: string, rest: string)
    requires RunAndDot(s).Some?
    ensures s == run + ("." + rest) && AllInClass(run) && run != "" && rest == s[RunAndDot(s).value..]
  {
    RunIsLongest(s);
    var n := RunAndDot(s).value;
    run, rest := s[..n - 1], s[n..];
  }

  lemma BodySplits(body: string) returns (h: string, p: string, after: string)
    requires TwoRuns(body).Some?
    ensures body == h + ("." + (p + ("." + after))) && body[TwoRuns(body).value..] == after
    ensures AllInClass(h) && AllInClass(p) && h != "" && p != ""
  {
    var rest;
    h, rest := RunSplits(body);
    p, after := RunSplits(rest);
    RestOfBoth(body, RunAndDot(body).value, RunAndDot(rest).value);
  }

  lemma RestOfBoth(s: string, a: nat, b: nat)
    requires a + b <= |s|
    ensures s[a + b..] == s[a..][b..]
  {
  }

  lemma SplitsAfterStart(s: string)
    requires StartsToken(s)
    ensures s == "eyJ" + s[3..]
  {
  }

  lemma SignatureSplits(after: string) returns (signature: string, rest: string)
    ensures after == signature + rest && AllInClass(signature) && |signature| == ClassRun(after)
    ensures rest == "" || !InClass(rest[0])
  {
    RunIsLongest(after);
    signature, rest := after[..ClassRun(after)], after[ClassRun(after)..];
  }

  lemma TokenOfMatch(s: string) returns (h: string, p: string, signature: string, rest: string)
    requires MatchLength(s).Some?
    ensures StartsWithToken(s, h, p, signature, rest) && MatchLength(s).value == |s| - |rest|
  {
    var after;
    h, p, after := BodySplits(s[3..]);
    signature, rest := SignatureSplits(after);
    SplitsAfterStart(s);
  }

  predicate NoMatchAt(s: string, i: nat) {
    i < |s| && MatchLength(s[i..]).None?
  }

  /** The search that starts at position `k`. */
  function SearchFrom(s: string, at: nat, k: nat): Option<Match> {
    if k <= |s| then Search(s[k..], at + k) else None
  }

  lemma SkipTo(s: string, at: nat, k: nat)
    requires NoMatchAt(s, k)
    ensures SearchFrom(s, at, k) == SearchFrom(s, at, k + 1)
  {
    SearchUnfold(s[k..], at + k);
    RestOfBoth(s, k, 1);
  }

  lemma {:induction false} Constant<T(!new)>(f: nat -> T, k: nat)
    requires forall i: nat :: i < k ==> f(i) == f(i + 1)
    ensures f(0) == f(k)
  {
    if k > 0 {
      Constant(f, k - 1);
    }
  }

  lemma SearchSkips(s: string, at: nat, k: nat)
    requires forall i :: 0 <= i < k ==> NoMatchAt(s, i)
    ensures SearchFrom(s, at, 0) == SearchFrom(s, at, k)
  {
    var from := (i: nat) => SearchFrom(s, at, i);
    forall i: nat | i < k ensures from(i) == from(i + 1) {
      SkipTo(s, at, i);
    }
    Constant(from, k);
  }

  /** What the search finds is the leftmost match, if there is one. */
  lemma SearchIsLeftmost(s: string, at: nat, k: nat)
    requires k <= |s| && (forall i :: 0 <= i < k ==> NoMatchAt(s, i))
    requires MatchLength(s[k..]).Some? || k == |s|
    ensures Search(s, at) == if MatchLength(s[k..]).None? then None
                             else Some(Match(at + k, s[k..][..MatchLength(s[k..]).value]))
  {
    SearchSkips(s, at, k);
    SearchUnfold(s[k..], at + k);
    assert s[0..] == s;
  }

  // ----- a token in a text

  lemma SegmentsAreInClass(s: string)
    requires AllSymbols(s)
    ensures AllInClass(s)
  {
  }

  lemma RunAndDotOf(run: string, rest: string)
    requires run != "" && AllInClass(run)
    ensures RunAndDot(run + ("." + rest)) == Some(|run| + 1)
    ensures (run + ("." + rest))[|run| + 1..] == rest
  {
    RunOf(run, "." + rest);
  }

  lemma BodyOfRuns(s: string, a: nat, rest: string, b: nat, after: string)
    requires RunAndDot(s) == Some(a) && s[a..] == rest && RunAndDot(rest) == Some(b) && rest[b..] == after
    ensures BodyLength(s) == Some(a + b + ClassRun(after))
  {
    assert s[a + b..] == s[a..][b..];
  }

  lemma BodyOf(h: string, p: string, after: string)
    requires AllInClass(h) && AllInClass(p) && h != "" && p != ""
    ensures BodyLength(h + ("." + (p + ("." + after)))) == Some(|h| + |p| + 2 + ClassRun(after))
  {
    var rest := p + ("." + after);
    var s := h + ("." + rest);
    RunAndDotOf(h, rest);
    RunAndDotOf(p, after);
    BodyOfRuns(s, |h| + 1, rest, |p| + 1, after);
  }

  lemma MatchOfBody(s: string, n: nat)
    requires StartsToken(s) && BodyLength(s[3..]) == Some(n)
    ensures MatchLength(s) == Some(3 + n)
  {
  }

  /** A token with a header the pattern accepts and a payload matches, with the class characters
      that happen to follow it. */
  lemma TokenMatches(h: string, p: string, after: string)
    requires AllInClass(h) && AllInClass(p)
    requires StartsToken(h) && |h| > 3 && p != ""
    ensures MatchLength(h + ("." + (p + ("." + after)))) == Some(|h| + |p| + 2 + ClassRun(after))
  {
    var rest := "." + (p + ("." + after));
    BodyOf(h[3..], p, after);
    AfterStart(h, rest);
    StartOf(h, rest);
    MatchOfBody(h + rest, |h| - 3 + |p| + 2 + ClassRun(after));
  }

  lemma StartOf(h: string, rest: string)
    requires StartsToken(h)
    ensures StartsToken(h + rest)
  {
  }

  lemma TokenSpelled(h: string, p: string, after: string)
    ensures h + ['.'] + (p + ['.'] + "") + after == h + ("." + (p + ("." + after)))
  {
    assert p + ['.'] + "" == p + ".";
    Associative(p, ".", after);
    Associative(h, ".", p + ("." + after));
    Associative(h + ".", p + ".", after);
  }

  lemma {:induction false} SearchIsInside(s: string, at: nat)
    ensures Search(s, at).Some? ==> at <= Search(s, at).value.start < at + |s|
  {
    if MatchLength(s).None? && s != "" {
      SearchIsInside(s[1..], at + 1);
    }
  }

  /** What the inspector finds of a token: the token and the class characters that follow it. */
  function Found(header: seq<Byte>, payload: seq<Byte>, after: string): string {
    CraftAlgNoneJwt(header, payload) + after[..ClassRun(after)]
  }

  lemma FoundAtOnce(header: seq<Byte>, payload: seq<Byte>, after: string, at: nat)
    requires StartsToken(EncodeSegment(header)) && payload != []
    ensures Search(CraftAlgNoneJwt(header, payload) + after, at) == Some(Match(at, Found(header, payload, after)))
  {
    var h, p, token := EncodeSegment(header), EncodeSegment(payload), CraftAlgNoneJwt(header, payload);
    SegmentsAreLongEnough(header, payload);
    TokenSpelled(h, p, after);
    TokenMatches(h, p, after);
    SearchUnfold(token + after, at);
    LongerPrefix(token, after, ClassRun(after));
  }

  lemma LongerPrefix(s: string, t: string, n: nat)
    requires n <= |t|
    ensures (s + t)[..|s| + n] == s + t[..n]
  {
  }

  lemma SegmentsAreLongEnough(header: seq<Byte>, payload: seq<Byte>)
    requires StartsToken(EncodeSegment(header)) && payload != []
    ensures |EncodeSegment(header)| > 3 && EncodeSegment(payload) != ""
    ensures AllInClass(EncodeSegment(header)) && AllInClass(EncodeSegment(payload))
  {
    SegmentRoundTrip(header);
    SegmentRoundTrip(payload);
    SegmentsAreInClass(EncodeSegment(header));
    SegmentsAreInClass(EncodeSegment(payload));
    SegmentStartsWithEyJIff(header);
    EncodeSegmentIsSegment(header);
    EncodeSegmentIsSegment(payload);
  }

  /** In a text where a token follows other text that ends apart from it, the token is what the
      search finds exactly when the text before it has no match of its own. */
  lemma TokenIsFoundIff(before: string, header: seq<Byte>, payload: seq<Byte>, after: string)
    requires before == "" || EndsApart(before)
    requires StartsToken(EncodeSegment(header)) && payload != []
    ensures Search(before + (CraftAlgNoneJwt(header, payload) + after))
         == Some(Match(|before|, Found(header, payload, after)))
       <==> Search(before).None?
  {
    SearchContinues(before, CraftAlgNoneJwt(header, payload) + after, 0);
    FoundAtOnce(header, payload, after, |before|);
    SearchIsInside(before, 0);
  }

  /** What is found splits into three parts, whatever follows the token, and the inspector decodes
      the first two to the header and the payload. */
  lemma FoundTokenDecodes(header: seq<Byte>, payload: seq<Byte>, after: string)
    ensures var parts := Parts(Found(header, payload, after));
            && parts == [EncodeSegment(header), EncodeSegment(payload), after[..ClassRun(after)]]
            && DecodeSegment(parts[0]) == Ok(header)
            && DecodeSegment(parts[1]) == Ok(payload)
  {
    SegmentRoundTrip(header);
    SegmentRoundTrip(payload);
    SymbolsHaveNoDot(EncodeSegment(header));
    SymbolsHaveNoDot(EncodeSegment(payload));
    var h, p, run := EncodeSegment(header), EncodeSegment(payload), after[..ClassRun(after)];
    assert '.' !in run by {
      RunIsLongest(after);
    }
    PartsOfThree(h, p, run);
    Associative(h + ['.'], p + ['.'] + "", run);
    assert p + ['.'] + "" + run == p + ['.'] + run;
  }
}
