/**
How reading a file in text mode translates line ends, and what that does to the pieces the timeout
rewrite scans: scanning the translated text is translating the scanned pieces.
*/
module Newlines {
  import opened Prelude
  import T = TimeoutRewriter

  /** How text mode reads line ends: `\r\n` and a lone `\r` both become `\n`. */
  function UniversalNewlines(s: string): (r: string)
    ensures '\r' !in r
    ensures '\r' !in s ==> r == s
  {
    if s == "" then ""
    else if s[0] != '\r' then [s[0]] + UniversalNewlines(s[1..])
    else ['\n'] + UniversalNewlines(if |s| > 1 && s[1] == '\n' then s[2..] else s[1..])
  }

  /** How many characters of `s` the first character read stands for. */
  function FirstWidth(s: string): (k: nat)
    requires s != ""
    ensures 1 <= k <= |s|
  {
    if s[0] == '\r' && |s| > 1 && s[1] == '\n' then 2 else 1
  }

  function FirstRead(s: string): char
    requires s != ""
  {
    if s[0] == '\r' then '\n' else s[0]
  }

  lemma NewlinesUnfold(s: string)
    requires s != ""
    ensures UniversalNewlines(s) == [FirstRead(s)] + UniversalNewlines(s[FirstWidth(s)..])
  {
  }

  lemma {:induction false} NewlinesConcat(a: string, b: string)
    requires a == "" || a[|a| - 1] != '\r'
    ensures UniversalNewlines(a + b) == UniversalNewlines(a) + UniversalNewlines(b)
  {
    if a == "" {
      assert a + b == b;
    } else {
      var k := FirstWidth(a);
      assert FirstWidth(a + b) == k && (a + b)[k..] == a[k..] + b;
      NewlinesUnfold(a);
      NewlinesUnfold(a + b);
      NewlinesConcat(a[k..], b);
      Associative([FirstRead(a)], UniversalNewlines(a[k..]), UniversalNewlines(b));
    }
  }

  /** `\r\n` and a lone `\r` are read as one `\n` each, and everything else as it is. */
  lemma LineEndsAreRead(a: string, b: string)
    requires '\r' !in a
    ensures UniversalNewlines(a + "\r\n" + b) == a + "\n" + UniversalNewlines(b)
    ensures b == "" || b[0] != '\n' ==> UniversalNewlines(a + "\r" + b) == a + "\n" + UniversalNewlines(b)
  {
    NewlinesKeepPlain(a);
    LineEndIsRead("\r\n", b);
    Associative(a, "\r\n", b);
    NewlinesConcat(a, "\r\n" + b);
    Associative(a, "\n", UniversalNewlines(b));
    if b == "" || b[0] != '\n' {
      LineEndIsRead("\r", b);
      Associative(a, "\r", b);
      NewlinesConcat(a, "\r" + b);
    }
  }

  lemma LineEndIsRead(end: string, b: string)
    requires end == "\r\n" || (end == "\r" && (b == "" || b[0] != '\n'))
    ensures UniversalNewlines(end + b) == "\n" + UniversalNewlines(b)
  {
    NewlinesUnfold(end + b);
    assert (end + b)[|end|..] == b;
  }

  /** No newline in `h`: reading text mode neither makes nor destroys `h` at the start of a text. */
  lemma {:induction false} NewlinesKeepStart(h: string, s: string)
    requires '\r' !in h && '\n' !in h
    ensures h <= UniversalNewlines(s) <==> h <= s
  {
    if h != "" && s != "" {
      if s[0] != '\r' {
        NewlinesKeepStart(h[1..], s[1..]);
        assert UniversalNewlines(s)[1..] == UniversalNewlines(s[1..]);
        assert h <= s <==> h[0] == s[0] && h[1..] <= s[1..];
        assert h <= UniversalNewlines(s) <==> h[0] == s[0] && h[1..] <= UniversalNewlines(s[1..]);
      } else {
        assert UniversalNewlines(s)[0] == '\n';
      }
    }
  }

  lemma {:induction false} NewlinesKeepOccurrence(s: string, sub: string)
    requires '\r' !in sub && '\n' !in sub && sub != ""
    ensures Contains(UniversalNewlines(s), sub) <==> Contains(s, sub)
  {
    var t := UniversalNewlines(s);
    NewlinesKeepStart(sub, s);
    ContainsUnfold(s, sub);
    ContainsUnfold(t, sub);
    if s != "" {
      if s[0] != '\r' {
        assert t[1..] == UniversalNewlines(s[1..]);
        NewlinesKeepOccurrence(s[1..], sub);
      } else if |s| > 1 && s[1] == '\n' {
        assert t[1..] == UniversalNewlines(s[2..]);
        ContainsUnfold(s[1..], sub);
        assert s[1..][1..] == s[2..];
        NewlinesKeepOccurrence(s[2..], sub);
      } else {
        assert t[1..] == UniversalNewlines(s[1..]);
        NewlinesKeepOccurrence(s[1..], sub);
      }
    }
  }

  lemma ContainsUnfold(s: string, sub: string)
    requires sub != ""
    ensures Contains(s, sub) <==> sub <= s || (s != "" && Contains(s[1..], sub))
  {
    if i: nat :| OccursAt(s, sub, i) {
      if i > 0 {
        assert s[1..][i - 1..i - 1 + |sub|] == s[i..i + |sub|];
        assert OccursAt(s[1..], sub, i - 1);
      }
    }
    if sub <= s {
      assert OccursAt(s, sub, 0);
    }
    if s != "" {
      OccursLater(s, sub);
    }
  }

  lemma OccursLater(s: string, sub: string)
    requires s != ""
    ensures Contains(s[1..], sub) ==> Contains(s, sub)
  {
    if i: nat :| i <= |s[1..]| && OccursAt(s[1..], sub, i) {
      assert s[1..][i..i + |sub|] == s[i + 1..i + 1 + |sub|];
      assert OccursAt(s, sub, i + 1);
    }
  }

  function NewlinesInCall(call: T.Call): T.Call {
    T.Call(call.method_, UniversalNewlines(call.args))
  }

  /** Reading text mode, on the pieces of a scan. */
  function NewlinesInPieces(ps: seq<T.Piece>): seq<T.Piece> {
    if ps == [] then []
    else
      match ps[0]
      case Matched(call) => [T.Matched(NewlinesInCall(call))] + NewlinesInPieces(ps[1..])
      case Plain(c) =>
        if c != '\r' then [ps[0]] + NewlinesInPieces(ps[1..])
        else [T.Plain('\n')]
             + NewlinesInPieces(if |ps| > 1 && ps[1] == T.Plain('\n') then ps[2..] else ps[1..])
  }

  lemma {:induction false} NewlinesKeepChar(c: char, s: string)
    requires c != '\r' && c != '\n'
    ensures c in UniversalNewlines(s) <==> c in s
  {
    if s != "" {
      if s[0] == '\r' && |s| > 1 && s[1] == '\n' {
        NewlinesKeepChar(c, s[2..]);
        assert s == ['\r', '\n'] + s[2..];
      } else {
        NewlinesKeepChar(c, s[1..]);
        assert s == [s[0]] + s[1..];
      }
    }
  }

  lemma HeadHasNoNewline(name: string)
    requires name in T.HTTP_METHODS
    ensures '\r' !in T.Head(name) && '\n' !in T.Head(name) && T.Head(name)[0] == 'r'
  {
    assert forall c :: c in T.Head(name) ==> c in T.PREFIX || c in name || c == '(';
    assert '\r' !in name && '\n' !in name;
  }

  lemma NewlinesOfCallText(call: T.Call)
    requires call.method_ in T.HTTP_METHODS
    ensures UniversalNewlines(T.CallText(call)) == T.CallText(NewlinesInCall(call))
  {
    HeadHasNoNewline(call.method_);
    NewlinesConcat(T.Head(call.method_), call.args + ")");
    Associative(T.Head(call.method_), call.args, ")");
    Associative(T.Head(call.method_), UniversalNewlines(call.args), ")");
    NewlinesBeforeClose(call.args);
  }

  lemma {:induction false} NewlinesBeforeClose(args: string)
    ensures UniversalNewlines(args + ")") == UniversalNewlines(args) + ")"
  {
    if args == "" {
      assert args + ")" == ")" && UniversalNewlines(")") == ")";
    } else {
      var k := FirstWidth(args);
      assert FirstWidth(args + ")") == k && (args + ")")[k..] == args[k..] + ")";
      NewlinesUnfold(args);
      NewlinesUnfold(args + ")");
      NewlinesBeforeClose(args[k..]);
      Associative([FirstRead(args)], UniversalNewlines(args[k..]), ")");
    }
  }

  /** Reading text mode keeps a match, up to the newlines of its arguments. */
  lemma NewlinesKeepMatch(s: string)
    requires T.MatchAt(s).Some?
    ensures var call, t := T.MatchAt(s).value, UniversalNewlines(s);
            && T.MatchAt(t) == Some(NewlinesInCall(call))
            && T.Rest(t) == UniversalNewlines(T.Rest(s))
  {
    var call, rest := T.MatchAt(s).value, T.Rest(s);
    var text := T.CallText(NewlinesInCall(call));
    NewlinesOfCallText(call);
    NewlinesConcat(T.CallText(call), rest);
    NewlinesKeepChar(')', call.args);
    T.MatchOfCallText(NewlinesInCall(call), UniversalNewlines(rest));
    assert (text + UniversalNewlines(rest))[|text|..] == UniversalNewlines(rest);
  }

  /** Reading text mode makes no match. */
  lemma NewlinesMakeNoMatch(s: string)
    requires T.MatchAt(s).None?
    ensures T.MatchAt(UniversalNewlines(s)).None?
  {
    var t := UniversalNewlines(s);
    if T.MatchAt(t).Some? {
      var name := T.MatchAt(t).value.method_;
      T.MatchIsPrefix(t);
      HeadHasNoNewline(name);
      NewlinesKeepStart(T.Head(name), s);
      var head, rest := T.Head(name), s[|T.Head(name)|..];
      assert s == head + rest;
      NewlinesConcat(head, rest);
      assert UniversalNewlines(head) == head by { NewlinesKeepPlain(head); }
      assert t[|head|..] == UniversalNewlines(rest);
      T.UpToCloseIsFirst(t[|head|..]);
      NewlinesKeepChar(')', rest);
      T.MatchExists(s, name);
    }
  }

  lemma NewlinesKeepPlain(s: string)
    requires '\r' !in s
    ensures UniversalNewlines(s) == s
  {
  }

  lemma MatchStart(s: string)
    ensures T.MatchAt(s).Some? ==> s != "" && s[0] == 'r'
  {
    if T.MatchAt(s).Some? {
      T.MatchIsPrefix(s);
      HeadHasNoNewline(T.MatchAt(s).value.method_);
    }
  }

  lemma ScanAtNewline(s: string)
    requires s != ""
    ensures |T.Scan(s)| > 0 && (T.Scan(s)[0] == T.Plain('\n') <==> s[0] == '\n')
    ensures s[0] == '\n' ==> T.Scan(s) == [T.Plain('\n')] + T.Scan(s[1..])
  {
    T.ScanUnfold(s);
    MatchStart(s);
  }

  /** Scanning what text mode reads is scanning the file and reading its pieces. */
  lemma {:induction false} ScanOfNewlines(s: string)
    ensures T.Scan(UniversalNewlines(s)) == NewlinesInPieces(T.Scan(s))
  {
    if s != "" {
      var t, ps := UniversalNewlines(s), T.Scan(s);
      match T.MatchAt(s)
      case Some(call) =>
        NewlinesKeepMatch(s);
        ScanOfNewlines(T.Rest(s));
        assert ps[1..] == T.Scan(T.Rest(s));
        T.ScanUnfold(t);
      case None =>
        NewlinesMakeNoMatch(s);
        T.ScanUnfold(t);
        assert ps[1..] == T.Scan(s[1..]);
        if s[0] != '\r' {
          assert t[1..] == UniversalNewlines(s[1..]);
          ScanOfNewlines(s[1..]);
        } else {
          ScanOfReturn(s);
          if |s| > 1 && s[1] == '\n' {
            ScanOfNewlines(s[2..]);
          } else {
            ScanOfNewlines(s[1..]);
          }
        }
    }
  }

  lemma ScanOfReturn(s: string)
    requires s != "" && s[0] == '\r'
    ensures var rest := if |s| > 1 && s[1] == '\n' then s[2..] else s[1..];
            && T.Scan(UniversalNewlines(s)) == [T.Plain('\n')] + T.Scan(UniversalNewlines(rest))
            && NewlinesInPieces(T.Scan(s)) == [T.Plain('\n')] + NewlinesInPieces(T.Scan(rest))
  {
    var t, ps := UniversalNewlines(s), T.Scan(s);
    var rest := if |s| > 1 && s[1] == '\n' then s[2..] else s[1..];
    assert t[1..] == UniversalNewlines(rest);
    ScanAtNewline(t);
    T.ScanUnfold(s);
    MatchStart(s);
    assert ps[0] == T.Plain('\r') && ps[1..] == T.Scan(s[1..]);
    if |s| > 1 {
      ScanAtNewline(s[1..]);
      if s[1] == '\n' {
        assert ps[2..] == ps[1..][1..] == T.Scan(s[2..]);
      }
    }
  }

  lemma NewlinesKeepTimed(call: T.Call)
    ensures T.Timed(NewlinesInCall(call)) <==> T.Timed(call)
  {
    NewlinesKeepOccurrence(call.args, T.MARK);
  }

  lemma {:induction false} CallsStay(ps: seq<T.Piece>, call: T.Call)
    requires T.Matched(call) in ps
    ensures T.Matched(NewlinesInCall(call)) in NewlinesInPieces(ps)
  {
    if ps[0] != T.Matched(call) {
      assert ps == [ps[0]] + ps[1..];
      if ps[0] == T.Plain('\r') && |ps| > 1 && ps[1] == T.Plain('\n') {
        assert ps == [ps[0], ps[1]] + ps[2..];
        CallsStay(ps[2..], call);
      } else {
        CallsStay(ps[1..], call);
      }
    }
  }

  /** A piece without `\r`, the whitespace apart that the rewrite strips anyway. */
  predicate ReturnsAreStripped(p: T.Piece) {
    match p
    case Plain(c) => c != '\r'
    case Matched(call) => '\r' !in if T.Timed(call) then call.args else T.RStrip(call.args)
  }

  function NewlinesInPiece(p: T.Piece): T.Piece {
    match p case Plain(_) => p case Matched(call) => T.Matched(NewlinesInCall(call))
  }

  lemma {:induction false} NewlinesPieceByPiece(ps: seq<T.Piece>)
    requires forall i :: 0 <= i < |ps| ==> ReturnsAreStripped(ps[i])
    ensures |NewlinesInPieces(ps)| == |ps|
    ensures forall i :: 0 <= i < |ps| ==> NewlinesInPieces(ps)[i] == NewlinesInPiece(ps[i])
  {
    if ps != [] {
      NewlinesPieceByPiece(ps[1..]);
    }
  }

  lemma {:induction false} NewlinesOfSpace(space: string)
    requires forall c :: c in space ==> T.IsSpace(c)
    ensures forall c :: c in UniversalNewlines(space) ==> T.IsSpace(c)
  {
    if space != "" {
      NewlinesUnfold(space);
      NewlinesOfSpace(space[FirstWidth(space)..]);
    }
  }

  /** An untimed call keeps its arguments up to trailing whitespace when no other `\r` is in them. */
  lemma StrippedCallIsKept(call: T.Call)
    requires !T.Timed(call) && '\r' !in T.RStrip(call.args)
    ensures T.TimeoutAdded(call, T.AddTimeout(NewlinesInCall(call)))
  {
    StrippedCallReadsAlike(call);
    T.AddTimeoutAdds(call);
  }

  lemma StrippedCallReadsAlike(call: T.Call)
    requires !T.Timed(call) && '\r' !in T.RStrip(call.args)
    ensures T.AddTimeout(NewlinesInCall(call)) == T.AddTimeout(call)
  {
    var stem := T.RStrip(call.args);
    T.RStripSplits(call.args);
    var space := call.args[|stem|..];
    assert call.args == stem + space;
    assert T.RStrip(UniversalNewlines(call.args)) == stem by {
      StemIsKept(stem, space);
    }
    NewlinesKeepTimed(call);
  }

  lemma StemIsKept(stem: string, space: string)
    requires '\r' !in stem && (stem != "" ==> !T.IsSpace(stem[|stem| - 1]))
    requires forall c :: c in space ==> T.IsSpace(c)
    ensures T.RStrip(UniversalNewlines(stem + space)) == stem
  {
    NewlinesConcat(stem, space);
    NewlinesOfSpace(space);
    T.RStripOfSpace(stem, UniversalNewlines(space));
  }

  lemma PieceIsKept(p: T.Piece)
    requires ReturnsAreStripped(p)
    ensures var p' := T.RewritePiece(NewlinesInPiece(p));
            if p.Matched? && !T.Timed(p.call) then p'.Matched? && T.TimeoutAdded(p.call, p'.call) else p' == p
  {
    if p.Matched? {
      NewlinesKeepTimed(p.call);
      if !T.Timed(p.call) {
        StrippedCallIsKept(p.call);
      }
    }
  }

  lemma StrippedReturnsAreHarmless(ps: seq<T.Piece>)
    requires forall i :: 0 <= i < |ps| ==> ReturnsAreStripped(ps[i])
    ensures T.OnlyTimeoutsAdded(ps, T.RewriteAll(NewlinesInPieces(ps)))
  {
    NewlinesPieceByPiece(ps);
    T.RewriteAllAt(NewlinesInPieces(ps));
    forall i | 0 <= i < |ps|
      ensures var p' := T.RewriteAll(NewlinesInPieces(ps))[i];
              if ps[i].Matched? && !T.Timed(ps[i].call)
              then p'.Matched? && T.TimeoutAdded(ps[i].call, p'.call) else p' == ps[i]
    {
      PieceIsKept(ps[i]);
    }
  }

  lemma CharsOfPiece(ps: seq<T.Piece>, i: nat, c: char)
    requires i < |ps| && c in T.PieceText(ps[i])
    ensures c in T.Render(ps)
  {
    T.RenderAt(ps, i);
  }

  lemma KeptPieceHasNoReturn(p: T.Piece, p': T.Piece)
    requires '\r' !in T.PieceText(p')
    requires if p.Matched? && !T.Timed(p.call) then p'.Matched? && T.TimeoutAdded(p.call, p'.call) else p' == p
    ensures ReturnsAreStripped(p)
  {
    if p.Matched? {
      assert forall c :: c in p'.call.args ==> c in T.PieceText(p');
      if !T.Timed(p.call) {
        var stem, space :| T.AddedAfter(p.call.args, stem, space, p'.call.args);
        T.RStripOfSpace(stem, space);
        assert forall c :: c in stem ==> c in p'.call.args;
      }
    }
  }

  lemma KeptPiecesHaveNoReturn(ps: seq<T.Piece>, ps': seq<T.Piece>)
    requires T.OnlyTimeoutsAdded(ps, ps') && '\r' !in T.Render(ps')
    ensures forall i :: 0 <= i < |ps| ==> ReturnsAreStripped(ps[i])
  {
    forall i | 0 <= i < |ps|
      ensures ReturnsAreStripped(ps[i])
    {
      if '\r' in T.PieceText(ps'[i]) {
        CharsOfPiece(ps', i, '\r');
      }
      KeptPieceHasNoReturn(ps[i], ps'[i]);
    }
  }
}
