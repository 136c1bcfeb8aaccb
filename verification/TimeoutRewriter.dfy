/**
The automatic remediation that adds `timeout=10` to calls of the `requests` library: a
leftmost, non-overlapping scan for `requests.<method>(<no closing parenthesis>)` whose
matches are rewritten in place.

The text is read as a list of pieces, plain characters and calls. The central fact is that
scanning the rewritten text finds the same pieces with the calls rewritten.
*/
module TimeoutRewriter {
  import opened Prelude

  const PREFIX := "requests."
  const HTTP_METHODS: seq<string> := ["get", "post", "put", "delete", "head", "patch", "request"]
  const MARK := "timeout"
  const ADDED := "timeout=10"

  datatype Call = Call(method_: string, args: string)
  datatype Piece = Plain(c: char) | Matched(call: Call)

  function Head(name: string): string {
    PREFIX + name + "("
  }

  function CallText(call: Call): string {
    Head(call.method_) + call.args + ")"
  }

  function PieceText(p: Piece): string {
    match p
    case Plain(c) => [c]
    case Matched(call) => CallText(call)
  }

  function Render(ps: seq<Piece>): string {
    if ps == [] then "" else PieceText(ps[0]) + Render(ps[1..])
  }

  // ----- the pattern

  /** The first of `names` whose call head starts `s`. */
  function MethodAt(s: string, names: seq<string>): (r: Option<string>)
    ensures r.Some? ==> r.value in names && Head(r.value) <= s
  {
    if names == [] then None
    else if Head(names[0]) <= s then Some(names[0])
    else MethodAt(s, names[1..])
  }

  /** The text before the first closing parenthesis of `s`. */
  function UpToClose(s: string): Option<string> {
    if s == "" then None
    else if s[0] == ')' then Some("")
    else match UpToClose(s[1..]) case None => None case Some(rest) => Some([s[0]] + rest)
  }

  /** The match of the pattern at the start of `s`, if there is one. */
  function MatchAt(s: string): Option<Call> {
    match MethodAt(s, HTTP_METHODS)
    case None => None
    case Some(name) =>
      match UpToClose(s[|Head(name)|..])
      case None => None
      case Some(args) => Some(Call(name, args))
  }

  /** The scan of `re.sub`: matches from the left, each search resuming after the last match. */
  function Scan(s: string): seq<Piece> {
    if s == "" then [] else
      match MatchAt(s)
      case None => [Plain(s[0])] + Scan(s[1..])
      case Some(call) =>
        assert |CallText(call)| <= |s| by { MatchIsPrefix(s); }
        [Matched(call)] + Scan(s[|CallText(call)|..])
  }

  // ----- the rewrite

  /** What `str.isspace` accepts, one character at a time. */
  predicate IsSpace(c: char) {
    || '\t' <= c <= '\r' || '\U{1C}' <= c <= ' ' || c == '\U{85}' || c == '\U{A0}' || c == '\U{1680}'
    || '\U{2000}' <= c <= '\U{200A}' || c == '\U{2028}' || c == '\U{2029}' || c == '\U{202F}'
    || c == '\U{205F}' || c == '\U{3000}'
  }

  function RStrip(s: string): string {
    if s != "" && IsSpace(s[|s| - 1]) then RStrip(s[..|s| - 1]) else s
  }

  predicate Timed(call: Call) {
    Contains(call.args, MARK)
  }

  function AddTimeout(call: Call): Call {
    if Timed(call) then call else
      var stem := RStrip(call.args);
      Call(call.method_, stem + Insertion(stem))
  }

  function Insertion(stem: string): string {
    if stem == "" then ADDED else ", " + ADDED
  }

  function RewritePiece(p: Piece): Piece {
    match p
    case Plain(_) => p
    case Matched(call) => Matched(AddTimeout(call))
  }

  function RewriteAll(ps: seq<Piece>): seq<Piece> {
    if ps == [] then [] else [RewritePiece(ps[0])] + RewriteAll(ps[1..])
  }

  function Patch(s: string): string {
    Render(RewriteAll(Scan(s)))
  }

  // ----- facts about the pattern

  lemma {:induction false} MethodAtComplete(s: string, names: seq<string>, name: string)
    requires name in names && Head(name) <= s
    ensures MethodAt(s, names).Some?
  {
    if !(Head(names[0]) <= s) {
      MethodAtComplete(s, names[1..], name);
    }
  }

  lemma {:induction false} UpToCloseIsFirst(s: string)
    ensures UpToClose(s).Some? <==> ')' in s
    ensures UpToClose(s).Some? ==> UpToClose(s).value + ")" <= s && ')' !in UpToClose(s).value
  {
    if s != "" && s[0] != ')' {
      UpToCloseIsFirst(s[1..]);
    }
  }

  lemma {:induction false} UpToCloseOf(args: string, rest: string)
    requires ')' !in args
    ensures UpToClose(args + ")" + rest) == Some(args)
  {
    var s := args + ")" + rest;
    if args == "" {
      assert s[0] == ')';
    } else {
      UpToCloseOf(args[1..], rest);
      assert s[0] == args[0] && s[1..] == args[1..] + ")" + rest;
      assert args == [args[0]] + args[1..];
    }
  }

  lemma MatchIsPrefix(s: string)
    ensures MatchAt(s).Some? ==>
              var call := MatchAt(s).value;
              CallText(call) <= s && call.method_ in HTTP_METHODS && ')' !in call.args
  {
    if MatchAt(s).Some? {
      var call := MatchAt(s).value;
      var rest := s[|Head(call.method_)|..];
      UpToCloseIsFirst(rest);
      assert s == Head(call.method_) + rest;
    }
  }

  /** An opening parenthesis ends a call head and occurs nowhere else in it. */
  lemma HeadShape(name: string)
    requires name in HTTP_METHODS
    ensures forall i :: 0 <= i < |Head(name)| ==> (Head(name)[i] == '(' <==> i == |Head(name)| - 1)
    ensures ')' !in Head(name)
  {
    assert forall i :: 0 <= i < |name| ==> name[i] != '(' && name[i] != ')';
    assert forall i :: 0 <= i < |PREFIX| ==> PREFIX[i] != '(' && PREFIX[i] != ')';
  }

  lemma HeadIsUnique(s: string, a: string, b: string)
    requires a in HTTP_METHODS && b in HTTP_METHODS
    requires Head(a) <= s && Head(b) <= s
    ensures a == b
  {
    HeadShape(a);
    HeadShape(b);
    assert s[|Head(a)| - 1] == '(' && s[|Head(b)| - 1] == '(';
    assert |Head(a)| == |Head(b)|;
    assert Head(a) == Head(b);
    assert Head(a)[|PREFIX|..|Head(a)| - 1] == a && Head(b)[|PREFIX|..|Head(b)| - 1] == b;
  }

  /** A match exists exactly where a call head is followed, somewhere, by a `)`. */
  lemma MatchExists(s: string, name: string)
    requires name in HTTP_METHODS && Head(name) <= s && ')' in s[|Head(name)|..]
    ensures MatchAt(s).Some?
  {
    MethodAtComplete(s, HTTP_METHODS, name);
    HeadIsUnique(s, name, MethodAt(s, HTTP_METHODS).value);
    UpToCloseIsFirst(s[|Head(name)|..]);
  }

  lemma MatchOfCallText(call: Call, rest: string)
    requires call.method_ in HTTP_METHODS && ')' !in call.args
    ensures MatchAt(CallText(call) + rest) == Some(call)
  {
    var s := CallText(call) + rest;
    assert Head(call.method_) <= s;
    MethodAtComplete(s, HTTP_METHODS, call.method_);
    HeadIsUnique(s, call.method_, MethodAt(s, HTTP_METHODS).value);
    assert s[|Head(call.method_)|..] == call.args + ")" + rest;
    UpToCloseOf(call.args, rest);
  }

  /** What the pattern matches, written out. */
  lemma MatchMeans(s: string, name: string, args: string)
    ensures MatchAt(s) == Some(Call(name, args))
       <==> && name in {"get", "post", "put", "delete", "head", "patch", "request"}
            && ')' !in args
            && "requests." + name + "(" + args + ")" <= s
  {
    var text := CallText(Call(name, args));
    assert text == "requests." + name + "(" + args + ")";
    assert name in HTTP_METHODS <==> name in {"get", "post", "put", "delete", "head", "patch", "request"};
    MatchIsPrefix(s);
    if name in HTTP_METHODS && ')' !in args && text <= s {
      MatchOfCallText(Call(name, args), s[|text|..]);
      assert s == text + s[|text|..];
    }
  }

  lemma TimedMeans(call: Call)
    ensures Timed(call) <==> Surrounds(call.args, "timeout")
  {
    ContainsMeans(call.args, "timeout");
  }

  /** The whitespace of `str.isspace`, character by character. */
  lemma SpacesAre(c: char)
    ensures IsSpace(c) <==>
            c in {'\t', '\n', '\U{B}', '\U{C}', '\r', '\U{1C}', '\U{1D}', '\U{1E}', '\U{1F}', ' ', '\U{85}', '\U{A0}',
                  '\U{1680}', '\U{2000}', '\U{2001}', '\U{2002}', '\U{2003}', '\U{2004}', '\U{2005}', '\U{2006}',
                  '\U{2007}', '\U{2008}', '\U{2009}', '\U{200A}', '\U{2028}', '\U{2029}', '\U{202F}', '\U{205F}',
                  '\U{3000}'}
  {
  }

  // ----- facts about the rewrite

  lemma {:induction false} RStripSplits(s: string)
    ensures RStrip(s) <= s
    ensures forall i :: |RStrip(s)| <= i < |s| ==> IsSpace(s[i])
    ensures RStrip(s) != "" ==> !IsSpace(RStrip(s)[|RStrip(s)| - 1])
  {
    if s != "" && IsSpace(s[|s| - 1]) {
      RStripSplits(s[..|s| - 1]);
    }
  }

  lemma AddTimeoutShape(call: Call)
    requires ')' !in call.args
    ensures AddTimeout(call).method_ == call.method_
    ensures ')' !in AddTimeout(call).args
    ensures Timed(AddTimeout(call))
    ensures AddTimeout(AddTimeout(call)) == AddTimeout(call)
  {
    if !Timed(call) {
      var stem := RStrip(call.args);
      StemHasNoClose(call.args);
      InsertionIsTimed(stem);
      assert forall c :: c in stem + Insertion(stem) <==> c in stem || c in Insertion(stem);
    }
  }

  lemma StemHasNoClose(args: string)
    requires ')' !in args
    ensures ')' !in RStrip(args)
  {
    RStripSplits(args);
  }

  lemma InsertionIsTimed(stem: string)
    ensures Contains(stem + Insertion(stem), MARK)
    ensures ')' !in Insertion(stem)
  {
    var i := if stem == "" then 0 else 2;
    assert Insertion(stem)[i..i + |MARK|] == MARK;
    assert (stem + Insertion(stem))[|stem| + i..|stem| + i + |MARK|] == Insertion(stem)[i..i + |MARK|];
    assert OccursAt(stem + Insertion(stem), MARK, |stem| + i);
  }

  lemma {:induction false} RewriteAllAt(ps: seq<Piece>)
    ensures |RewriteAll(ps)| == |ps|
    ensures forall i :: 0 <= i < |ps| ==> RewriteAll(ps)[i] == RewritePiece(ps[i])
  {
    if ps != [] {
      RewriteAllAt(ps[1..]);
    }
  }

  lemma PatchUnfold(s: string)
    requires s != ""
    ensures Patch(s) == match MatchAt(s)
                        case None => [s[0]] + Patch(s[1..])
                        case Some(call) => CallText(AddTimeout(call)) + Patch(Rest(s))
  {
    var ps := Scan(s);
    assert RewriteAll(ps) == [RewritePiece(ps[0])] + RewriteAll(ps[1..]);
  }

  /** What is left of `s` after the match at its start. */
  function Rest(s: string): (r: string)
    requires MatchAt(s).Some?
    ensures |r| < |s|
    ensures s == CallText(MatchAt(s).value) + r
    ensures MatchAt(s).value.method_ in HTTP_METHODS && ')' !in MatchAt(s).value.args
  {
    MatchIsPrefix(s);
    s[|CallText(MatchAt(s).value)|..]
  }

  lemma ScanUnfold(s: string)
    requires s != ""
    ensures Scan(s) == match MatchAt(s)
                       case None => [Plain(s[0])] + Scan(s[1..])
                       case Some(call) => [Matched(call)] + Scan(Rest(s))
  {
  }

  /** The rewrite creates no call head: the tail `h` of a head that starts the rewritten text
      already started the source text. */
  lemma {:induction false} NoNewHead(h: string, s: string)
    requires forall i :: 0 <= i < |h| ==> (h[i] == '(' <==> i == |h| - 1)
    requires h <= Patch(s)
    ensures h <= s
    decreases |s|
  {
    if h != "" && s != "" {
      PatchUnfold(s);
      match MatchAt(s)
      case None =>
        assert Patch(s)[1..] == Patch(s[1..]);
        NoNewHead(h[1..], s[1..]);
      case Some(call) =>
        MatchIsPrefix(s);
        HeadIsKept(call, Patch(Rest(s)));
        MatchedHead(h, Patch(s), s, call.method_);
    }
  }

  lemma HeadIsKept(call: Call, rest: string)
    ensures Head(call.method_) <= CallText(AddTimeout(call)) + rest
  {
    Associative(Head(call.method_), AddTimeout(call).args, ")");
    Associative(Head(call.method_), AddTimeout(call).args + ")", rest);
  }

  lemma MatchedHead(h: string, t: string, s: string, name: string)
    requires forall i :: 0 <= i < |h| ==> (h[i] == '(' <==> i == |h| - 1)
    requires name in HTTP_METHODS && Head(name) <= t && Head(name) <= s && h <= t
    ensures h <= s
  {
    HeadShape(name);
    assert t[|Head(name)| - 1] == '(';
    assert |h| <= |Head(name)|;
    assert h <= Head(name);
  }

  lemma {:induction false} NoNewClose(s: string)
    requires ')' in Patch(s)
    ensures ')' in s
  {
    if s != "" {
      PatchUnfold(s);
      match MatchAt(s)
      case None =>
        if s[0] != ')' {
          NoNewClose(s[1..]);
        }
      case Some(call) =>
        var rest := Rest(s);
        assert ')' in CallText(call);
    }
  }

  lemma NoNewMatch(s: string)
    requires s != "" && MatchAt(s).None?
    ensures MatchAt([s[0]] + Patch(s[1..])).None?
  {
    var t := [s[0]] + Patch(s[1..]);
    if MatchAt(t).Some? {
      var name := MatchAt(t).value.method_;
      MatchIsPrefix(t);
      HeadShape(name);
      PatchUnfold(s);
      NoNewHead(Head(name), s);
      assert ')' in Patch(s[1..]) by {
        CloseAfterHead(t, name);
        assert t[1..] == Patch(s[1..]);
      }
      NoNewClose(s[1..]);
      CloseIsAfterHead(s, name);
      MatchExists(s, name);
    }
  }

  lemma CloseAfterHead(t: string, name: string)
    requires MatchAt(t).Some? && MatchAt(t).value.method_ == name
    ensures t != "" && ')' in t[1..]
  {
    UpToCloseIsFirst(t[|Head(name)|..]);
    var k :| 0 <= k < |t[|Head(name)|..]| && t[|Head(name)|..][k] == ')';
    assert t[1..][|Head(name)| - 1 + k] == ')';
  }

  lemma CloseIsAfterHead(s: string, name: string)
    requires name in HTTP_METHODS && Head(name) <= s && ')' in s[1..]
    ensures ')' in s[|Head(name)|..]
  {
    HeadShape(name);
    var i :| 0 <= i < |s| && s[i] == ')';
    assert i >= |Head(name)|;
    assert s[|Head(name)|..][i - |Head(name)|] == ')';
  }

  // ----- main results about the text

  /** Scanning the rewritten text finds the source's pieces with the calls rewritten. */
  lemma {:induction false} RescanIsStable(s: string)
    ensures Scan(Patch(s)) == RewriteAll(Scan(s))
  {
    if s != "" {
      PatchUnfold(s);
      match MatchAt(s)
      case None =>
        NoNewMatch(s);
        RescanIsStable(s[1..]);
        assert Patch(s)[1..] == Patch(s[1..]);
      case Some(call) =>
        var rest, call' := Rest(s), AddTimeout(call);
        AddTimeoutShape(call);
        MatchOfCallText(call', Patch(rest));
        RescanIsStable(rest);
        assert Patch(s)[|CallText(call')|..] == Patch(rest);
        assert RewriteAll(Scan(s))[1..] == RewriteAll(Scan(rest));
    }
  }

  lemma {:induction false} RenderScan(s: string)
    ensures Render(Scan(s)) == s
    ensures forall p :: p in Scan(s) && p.Matched? ==> p.call.method_ in HTTP_METHODS && ')' !in p.call.args
  {
    if s != "" {
      match MatchAt(s)
      case None => RenderScan(s[1..]);
      case Some(call) => RenderScan(Rest(s));
    }
  }

  /** The scan is leftmost and does not overlap: at every piece the rest of the text starts with a match
      exactly if the piece is that match. */
  lemma {:induction false} ScanIsLeftmost(s: string, i: nat)
    requires i < |Scan(s)|
    ensures MatchAt(Render(Scan(s)[i..])) == if Scan(s)[i].Matched? then Some(Scan(s)[i].call) else None
  {
    ScanUnfold(s);
    if i == 0 {
      RenderScan(s);
      assert Scan(s)[0..] == Scan(s);
    } else {
      var rest := if MatchAt(s).Some? then Rest(s) else s[1..];
      assert Scan(s)[1..] == Scan(rest) && Scan(s)[i..] == Scan(rest)[i - 1..];
      ScanIsLeftmost(rest, i - 1);
    }
  }

  /** `new_` is `old_` up to added timeouts: the same pieces, where an untimed call keeps its
      method and its arguments up to trailing whitespace and gains one insertion before the `)`. */
  ghost predicate OnlyTimeoutsAdded(old_: seq<Piece>, new_: seq<Piece>) {
    && |new_| == |old_|
    && forall i :: 0 <= i < |old_| ==>
         if old_[i].Matched? && !Timed(old_[i].call)
         then new_[i].Matched? && TimeoutAdded(old_[i].call, new_[i].call)
         else new_[i] == old_[i]
  }

  ghost predicate TimeoutAdded(before: Call, after: Call) {
    && after.method_ == before.method_
    && exists stem, space :: AddedAfter(before.args, stem, space, after.args)
  }

  ghost predicate AddedAfter(before: string, stem: string, space: string, after: string) {
    && before == stem + space
    && (forall c :: c in space ==> IsSpace(c))
    && (stem != "" ==> !IsSpace(stem[|stem| - 1]))
    && after == if stem == "" then "timeout=10" else stem + ", timeout=10"
  }

  lemma AddTimeoutAdds(call: Call)
    requires !Timed(call)
    ensures TimeoutAdded(call, AddTimeout(call))
  {
    RStripSplits(call.args);
    var stem := RStrip(call.args);
    var space := call.args[|stem|..];
    InsertionSpelled(stem);
    assert AddedAfter(call.args, stem, space, AddTimeout(call).args);
  }

  lemma InsertionSpelled(stem: string)
    ensures stem + Insertion(stem) == if stem == "" then "timeout=10" else stem + ", timeout=10"
  {
    assert ", " + ADDED == ", timeout=10";
  }

  ghost predicate AllSpace(s: string) {
    forall c :: c in s ==> IsSpace(c)
  }

  /** Untimed arguments of whitespace only become `timeout=10`; any others become the arguments without
      trailing whitespace, then `, timeout=10`. */
  lemma AddTimeoutText(call: Call) returns (stem: string, space: string)
    requires !Timed(call)
    ensures AllSpace(call.args) ==> AddTimeout(call).args == "timeout=10"
    ensures !AllSpace(call.args) ==>
              && call.args == stem + space && AllSpace(space)
              && stem != "" && !IsSpace(stem[|stem| - 1])
              && AddTimeout(call).args == stem + ", timeout=10"
  {
    stem := RStrip(call.args);
    space := StemAndSpace(call.args);
    UntimedText(call);
  }

  lemma UntimedText(call: Call)
    requires !Timed(call)
    ensures AddTimeout(call).args
         == if RStrip(call.args) == "" then "timeout=10" else RStrip(call.args) + ", timeout=10"
  {
    InsertionSpelled(RStrip(call.args));
  }

  lemma StemAndSpace(args: string) returns (space: string)
    ensures args == RStrip(args) + space && AllSpace(space)
    ensures RStrip(args) != "" ==> !IsSpace(RStrip(args)[|RStrip(args)| - 1])
    ensures RStrip(args) == "" <==> AllSpace(args)
  {
    var stem := RStrip(args);
    RStripSplits(args);
    space := args[|stem|..];
    if stem != "" {
      assert stem[|stem| - 1] in args;
    }
  }

  /** `requests.get()` gets the timeout as its only argument. */
  lemma EmptyCallGetsTheTimeout(s: string)
    requires s == "requests.get()"
    ensures Patch(s) == "requests.get(timeout=10)"
  {
    var call := Call("get", "");
    assert !Timed(call);
    PatchOneCall(call, "");
    HeadOfGet();
    EmptyCallSpelled();
    assert AddTimeout(call) == Call("get", "timeout=10") by {
      InsertionSpelled("");
    }
  }

  lemma EmptyCallSpelled()
    ensures "requests.get(" + "" + ")" + "" == "requests.get()"
    ensures "requests.get(" + "timeout=10" + ")" + "" == "requests.get(timeout=10)"
  {
  }

  lemma PatchOnlyAddsTimeouts(s: string)
    ensures OnlyTimeoutsAdded(Scan(s), Scan(Patch(s)))
  {
    RescanIsStable(s);
    var ps := Scan(s);
    RewriteAllAt(ps);
    forall i | 0 <= i < |ps| && ps[i].Matched? && !Timed(ps[i].call)
      ensures TimeoutAdded(ps[i].call, AddTimeout(ps[i].call))
    {
      AddTimeoutAdds(ps[i].call);
    }
  }

  lemma PatchedCallsAreTimed(s: string)
    ensures forall p :: p in Scan(Patch(s)) && p.Matched? ==> Timed(p.call)
  {
    RescanIsStable(s);
    RenderScan(s);
    RewriteAllAt(Scan(s));
    forall i | 0 <= i < |Scan(s)| && Scan(s)[i].Matched?
      ensures Timed(AddTimeout(Scan(s)[i].call))
    {
      AddTimeoutShape(Scan(s)[i].call);
    }
  }

  lemma {:induction false} TimedPiecesStay(ps: seq<Piece>)
    requires forall p :: p in ps && p.Matched? ==> Timed(p.call)
    ensures RewriteAll(ps) == ps
  {
    RewriteAllAt(ps);
  }

  lemma PatchIsIdempotent(s: string)
    ensures Patch(Patch(s)) == Patch(s)
  {
    PatchedCallsAreTimed(s);
    TimedPiecesStay(Scan(Patch(s)));
    RenderScan(Patch(s));
  }

  /** A text changes exactly when some matched call does not mention a timeout. */
  lemma PatchChangesIff(s: string)
    ensures Patch(s) != s <==> exists p :: p in Scan(s) && p.Matched? && !Timed(p.call)
  {
    if Patch(s) == s {
      PatchedCallsAreTimed(s);
    } else if forall p :: p in Scan(s) && p.Matched? ==> Timed(p.call) {
      TimedPiecesStay(Scan(s));
      RenderScan(s);
    }
  }

  // ----- which call receives the timeout

  /** How many more `(` than `)` the text has. */
  function Depth(s: string): int {
    if s == "" then 0
    else Depth(s[..|s| - 1]) + (if s[|s| - 1] == '(' then 1 else if s[|s| - 1] == ')' then -1 else 0)
  }

  /** `s` starts inside `depth` brackets of an argument list: the place of the `)` that closes the
      list. Brackets are counted as text, in string literals and comments too. */
  function OwnClose(s: string, depth: nat := 0): Option<nat> {
    if s == "" then None
    else if s[0] == ')' && depth == 0 then Some(0)
    else
      match OwnClose(s[1..], if s[0] == '(' then depth + 1 else if s[0] == ')' then depth - 1 else depth)
      case None => None
      case Some(k) => Some(k + 1)
  }

  /** Position `k` of `s`, which starts inside an argument list, is in that list and in no bracket
      opened in it. */
  ghost predicate InOwnList(s: string, k: nat)
    requires k <= |s|
  {
    Depth(s[..k]) == 0 && forall j :: 0 <= j < k ==> Depth(s[..j]) >= 0
  }

  lemma {:induction false} FirstCloseIsOwnIff(s: string, depth: nat)
    requires UpToClose(s).Some?
    ensures OwnClose(s, depth) == Some(|UpToClose(s).value|) <==> depth == 0 && '(' !in UpToClose(s).value
  {
    if s[0] != ')' {
      var inner := if s[0] == '(' then depth + 1 else depth;
      FirstCloseIsOwnIff(s[1..], inner);
      assert UpToClose(s).value == [s[0]] + UpToClose(s[1..]).value;
    }
  }

  lemma {:induction false} DepthWithoutClose(s: string)
    requires ')' !in s
    ensures Depth(s) >= 0 && (Depth(s) == 0 <==> '(' !in s)
  {
    if s != "" {
      DepthWithoutClose(s[..|s| - 1]);
      assert s == s[..|s| - 1] + [s[|s| - 1]];
    }
  }

  lemma InOwnListIff(stem: string, rest: string)
    requires ')' !in stem
    ensures InOwnList(stem + rest, |stem|) <==> '(' !in stem
  {
    var s := stem + rest;
    assert s[..|stem|] == stem;
    forall j | 0 <= j <= |stem|
      ensures Depth(s[..j]) >= 0
    {
      assert s[..j] == stem[..j];
      DepthWithoutClose(stem[..j]);
    }
    DepthWithoutClose(stem);
  }

  lemma {:induction false} RenderAt(ps: seq<Piece>, i: nat)
    requires i < |ps|
    ensures Render(ps) == Render(ps[..i]) + PieceText(ps[i]) + Render(ps[i + 1..])
  {
    if i > 0 {
      RenderAt(ps[1..], i - 1);
      assert ps[1..][i..] == ps[i + 1..];
      RenderPrefix(ps, i);
      Regroup(PieceText(ps[0]), Render(ps[1..][..i - 1]), PieceText(ps[i]), Render(ps[i + 1..]));
      Associative(PieceText(ps[0]) + Render(ps[1..][..i - 1]), PieceText(ps[i]), Render(ps[i + 1..]));
      Associative(Render(ps[1..][..i - 1]), PieceText(ps[i]), Render(ps[i + 1..]));
      Associative(PieceText(ps[0]), Render(ps[1..][..i - 1]), PieceText(ps[i]) + Render(ps[i + 1..]));
    }
  }

  lemma RenderPrefix(ps: seq<Piece>, i: nat)
    requires 0 < i < |ps|
    ensures Render(ps[..i]) == PieceText(ps[0]) + Render(ps[1..][..i - 1])
  {
    assert ps[..i][0] == ps[0] && ps[..i][1..] == ps[1..][..i - 1];
  }

  /** The text of `ps` after the head of its `i`-th piece, a call. */
  function AfterHead(ps: seq<Piece>, i: nat): string
    requires i < |ps| && ps[i].Matched?
  {
    ps[i].call.args + ")" + Render(ps[i + 1..])
  }

  lemma TextAtCall(ps: seq<Piece>, i: nat)
    requires i < |ps| && ps[i].Matched?
    ensures Render(ps) == Render(ps[..i]) + Head(ps[i].call.method_) + AfterHead(ps, i)
  {
    RenderAt(ps, i);
    Regroup(Render(ps[..i]), Head(ps[i].call.method_), ps[i].call.args + ")", Render(ps[i + 1..]));
    Associative(Head(ps[i].call.method_), ps[i].call.args, ")");
  }

  lemma Regroup(a: string, b: string, c: string, d: string)
    ensures a + (b + c) + d == a + b + (c + d)
  {
    Associative(a, b, c);
    Associative(a + b, c, d);
  }

  /** For every call the scan finds, the `)` of the match is the one that closes the call's own
      argument list exactly when its arguments have no `(`. */
  lemma MatchedCloseIsOwnIff(s: string, i: nat)
    requires i < |Scan(s)| && Scan(s)[i].Matched?
    ensures var call := Scan(s)[i].call;
            && s == Render(Scan(s)[..i]) + Head(call.method_) + AfterHead(Scan(s), i)
            && (OwnClose(AfterHead(Scan(s), i)) == Some(|call.args|) <==> '(' !in call.args)
  {
    RenderScan(s);
    TextAtCall(Scan(s), i);
    var call := Scan(s)[i].call;
    assert Scan(s)[i] in Scan(s);
    UpToCloseOf(call.args, Render(Scan(s)[i + 1..]));
    FirstCloseIsOwnIff(AfterHead(Scan(s), i), 0);
  }

  /** In the rewritten text the timeout given to a call stands in the call's own argument list
      exactly when its arguments had no `(`. Otherwise it stands in a bracket opened in between. */
  lemma TimeoutIsOwnArgumentIff(s: string, i: nat)
    requires i < |Scan(s)| && Scan(s)[i].Matched? && !Timed(Scan(s)[i].call)
    ensures var call, ps := Scan(s)[i].call, RewriteAll(Scan(s));
            var stem := RStrip(call.args);
            && |ps| == |Scan(s)| && ps[i] == Matched(AddTimeout(call))
            && Patch(s) == Render(ps[..i]) + Head(call.method_) + AfterHead(ps, i)
            && stem + Insertion(stem) <= AfterHead(ps, i)
            && (InOwnList(AfterHead(ps, i), |stem|) <==> '(' !in call.args)
            && (OwnClose(AfterHead(ps, i)) == Some(|AddTimeout(call).args|) <==> '(' !in call.args)
  {
    RenderScan(s);
    assert Scan(s)[i] in Scan(s);
    RewriteAllAt(Scan(s));
    TextAtCall(RewriteAll(Scan(s)), i);
    TimeoutPlace(Scan(s)[i].call, Render(RewriteAll(Scan(s))[i + 1..]));
  }

  lemma TimeoutPlace(call: Call, rest: string)
    requires ')' !in call.args && !Timed(call)
    ensures var stem, after := RStrip(call.args), AddTimeout(call).args + ")" + rest;
            && stem + Insertion(stem) <= after
            && (InOwnList(after, |stem|) <==> '(' !in call.args)
            && (OwnClose(after) == Some(|AddTimeout(call).args|) <==> '(' !in call.args)
  {
    var stem, after := RStrip(call.args), AddTimeout(call).args + ")" + rest;
    BracketsOfStem(call);
    AddTimeoutShape(call);
    Associative(stem + Insertion(stem), ")", rest);
    Associative(stem, Insertion(stem), ")" + rest);
    InOwnListIff(stem, Insertion(stem) + (")" + rest));
    UpToCloseOf(AddTimeout(call).args, rest);
    FirstCloseIsOwnIff(after, 0);
  }

  lemma BracketsOfStem(call: Call)
    requires !Timed(call) && ')' !in call.args
    ensures ')' !in RStrip(call.args)
    ensures '(' in RStrip(call.args) <==> '(' in call.args
    ensures '(' in AddTimeout(call).args <==> '(' in call.args
  {
    var stem := RStrip(call.args);
    StemHasNoClose(call.args);
    OpenIsInStem(call.args);
    assert '(' !in Insertion(stem);
    assert forall c :: c in stem + Insertion(stem) <==> c in stem || c in Insertion(stem);
  }

  lemma OpenIsInStem(args: string)
    ensures '(' in RStrip(args) <==> '(' in args
  {
    RStripSplits(args);
    assert args == RStrip(args) + args[|RStrip(args)|..];
    assert !IsSpace('(');
  }

  /** `requests.get(f(x))`: the timeout goes to `f`. */
  lemma NestedCallGetsTheTimeout(s: string)
    requires s == "requests.get(f(x))"
    ensures Patch(s) == "requests.get(f(x, timeout=10))"
    ensures !InOwnList("f(x, timeout=10))", |"f(x"|)
  {
    var args, rest := "f(x", ")";
    ShortCallGetsTheTimeout(args, rest);
    HeadOfGet();
    SourceSpelled();
    PatchedSpelled();
    InnerListHasTheTimeout();
  }

  lemma HeadOfGet()
    ensures Head("get") == "requests.get("
  {
  }

  lemma SourceSpelled()
    ensures "requests.get(" + "f(x" + ")" + ")" == "requests.get(f(x))"
  {
  }

  lemma PatchedSpelled()
    ensures "requests.get(" + ("f(x" + ", timeout=10") + ")" + ")" == "requests.get(f(x, timeout=10))"
  {
  }

  lemma InnerListHasTheTimeout()
    ensures !InOwnList("f(x, timeout=10))", |"f(x"|)
  {
    InOwnListIff("f(x", ", timeout=10))");
    assert "f(x" + ", timeout=10))" == "f(x, timeout=10))";
  }

  /** A call of `get` with few arguments that end in no space. */
  lemma ShortCallGetsTheTimeout(args: string, rest: string)
    requires 0 < |args| < |MARK| && ')' !in args && !IsSpace(args[|args| - 1])
    requires |rest| <= 1
    ensures Patch(Head("get") + args + ")" + rest) == Head("get") + (args + ", timeout=10") + ")" + rest
  {
    ShortArgumentsAreUntimed(args);
    PatchOneCall(Call("get", args), rest);
    ShortTextStays(rest);
  }

  lemma ShortArgumentsAreUntimed(args: string)
    requires 0 < |args| < |MARK| && !IsSpace(args[|args| - 1])
    ensures AddTimeout(Call("get", args)) == Call("get", args + ", timeout=10")
  {
    RStripKeeps(args);
    assert ", " + ADDED == ", timeout=10";
  }

  lemma ShortTextStays(s: string)
    requires |s| <= 1
    ensures Patch(s) == s
  {
    if s != "" {
      MatchIsPrefix(s);
      PatchUnfold(s);
    }
  }

  lemma {:induction false} RStripOfSpace(stem: string, space: string)
    requires forall c :: c in space ==> IsSpace(c)
    requires stem != "" ==> !IsSpace(stem[|stem| - 1])
    ensures RStrip(stem + space) == stem
  {
    if space == "" {
      assert stem + space == stem;
    } else {
      var s := stem + space;
      assert s[|s| - 1] == space[|space| - 1] && s[..|s| - 1] == stem + space[..|space| - 1];
      RStripOfSpace(stem, space[..|space| - 1]);
    }
  }

  // ----- trailing commas

  /** The arguments end in a comma, whitespace aside. */
  ghost predicate EndsInComma(args: string) {
    exists before, space :: CommaAndSpace(args, before, space)
  }

  ghost predicate CommaAndSpace(args: string, before: string, space: string) {
    args == before + "," + space && forall c :: c in space ==> IsSpace(c)
  }

  /** What follows the old arguments in the rewritten call starts with a comma, and before that comma
      there is another or nothing. */
  predicate EmptyArgumentBeforeTimeout(call: Call) {
    var k, args := |RStrip(call.args)|, AddTimeout(call).args;
    k < |args| && args[k] == ',' && (k == 0 || args[k - 1] == ',')
  }

  /** An empty argument, which Python does not accept, precedes the timeout exactly when the
      arguments end in a comma. */
  lemma EmptyArgumentIff(call: Call)
    requires !Timed(call)
    ensures EmptyArgumentBeforeTimeout(call) <==> EndsInComma(call.args)
  {
    var stem := RStrip(call.args);
    InsertionSpelled(stem);
    StemEndsInCommaIff(call.args);
  }

  lemma StemEndsInCommaIff(args: string)
    ensures EndsInComma(args) <==> RStrip(args) != "" && RStrip(args)[|RStrip(args)| - 1] == ','
  {
    var stem := RStrip(args);
    RStripSplits(args);
    if stem != "" && stem[|stem| - 1] == ',' {
      assert stem == stem[..|stem| - 1] + ",";
      assert args == stem + args[|stem|..];
      assert CommaAndSpace(args, stem[..|stem| - 1], args[|stem|..]);
    }
    if before, space :| CommaAndSpace(args, before, space) {
      RStripOfSpace(before + ",", space);
    }
  }

  /** `requests.get(u,)` is rewritten to text that is no Python. */
  lemma TrailingCommaIsDoubled(s: string)
    requires s == "requests.get(u,)"
    ensures Patch(s) == "requests.get(u,, timeout=10)"
  {
    ShortCallGetsTheTimeout("u,", "");
    HeadOfGet();
    CommaSpelled();
  }

  lemma CommaSpelled()
    ensures "requests.get(" + "u," + ")" + "" == "requests.get(u,)"
    ensures "requests.get(" + ("u," + ", timeout=10") + ")" + "" == "requests.get(u,, timeout=10)"
  {
  }

  lemma RStripKeeps(s: string)
    requires s != "" && !IsSpace(s[|s| - 1])
    ensures RStrip(s) == s
  {
  }

  lemma PatchOneCall(call: Call, rest: string)
    requires call.method_ in HTTP_METHODS && ')' !in call.args
    ensures Patch(CallText(call) + rest) == CallText(AddTimeout(call)) + Patch(rest)
  {
    var s := CallText(call) + rest;
    MatchOfCallText(call, rest);
    PatchUnfold(s);
    assert Rest(s) == rest;
  }
}
