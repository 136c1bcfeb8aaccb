/**
Applying the timeout rewrite to the files that findings point at. The workspace holds the
regular files by resolved path, so two spellings of one file are one entry.
*/
module Remediation {
  import opened Prelude
  import opened Newlines
  import T = TimeoutRewriter

  /** `Unreadable` stands for a file whose reading raises `OSError` or `UnicodeDecodeError`. */
  datatype Content = Text(text: string) | Unreadable

  /** What `_patch_file` leaves in a file: the file as it was, byte for byte, unless some call
      is rewritten. */
  function Patched(c: Content): Content {
    if c.Unreadable? then c else
      var original := UniversalNewlines(c.text);
      if T.Patch(original) == original then c else Text(T.Patch(original))
  }

  function LStrip(s: string): string {
    if s != "" && T.IsSpace(s[0]) then LStrip(s[1..]) else s
  }

  /** `text.rsplit(":", 1)[0]`: what precedes the last colon, or the whole text. */
  function BeforeLastColon(s: string): string {
    if ':' !in s then s
    else if s[|s| - 1] == ':' then s[..|s| - 1]
    else BeforeLastColon(s[..|s| - 1])
  }

  /** The path a finding's evidence names, if it names one. */
  function NamedPath(evidence: Option<string>): Option<string> {
    var text := if evidence.None? then "" else T.RStrip(LStrip(evidence.value));
    if text == "" then None else Some(BeforeLastColon(text))
  }

  lemma {:induction false} LStripSplits(s: string)
    ensures |LStrip(s)| <= |s| && LStrip(s) == s[|s| - |LStrip(s)|..]
    ensures T.AllSpace(s[..|s| - |LStrip(s)|])
    ensures LStrip(s) != "" ==> !T.IsSpace(LStrip(s)[0])
  {
    if s != "" && T.IsSpace(s[0]) {
      LStripSplits(s[1..]);
      var n := |s| - |LStrip(s)|;
      assert s[..n] == [s[0]] + s[1..][..n - 1];
    }
  }

  lemma {:induction false} BeforeLastColonMeans(s: string)
    ensures ':' !in s ==> BeforeLastColon(s) == s
    ensures ':' in s ==> BeforeLastColon(s) + ":" <= s && ':' !in s[|BeforeLastColon(s)| + 1..]
  {
    if ':' in s && s[|s| - 1] != ':' {
      BeforeLastColonMeans(s[..|s| - 1]);
      assert s == s[..|s| - 1] + [s[|s| - 1]];
    }
  }

  /** Evidence that is a path, with a line number after the last colon or without, and whitespace
      around it, names that path; evidence without text names none. */
  lemma EvidenceNamesPath(before: string, path: string, suffix: string, after: string)
    requires T.AllSpace(before) && T.AllSpace(after)
    requires path != "" && !T.IsSpace(path[0])
    requires if suffix == "" then ':' !in path && !T.IsSpace(path[|path| - 1])
             else suffix[0] == ':' && ':' !in suffix[1..] && !T.IsSpace(suffix[|suffix| - 1])
    ensures NamedPath(Some(before + (path + suffix) + after)) == Some(path)
    ensures NamedPath(None) == NamedPath(Some(before)) == None
  {
    var text := path + suffix;
    StripsAround(before, text, after);
    StripsAround(before, "", "");
    assert before + "" + "" == before;
    BeforeLastColonMeans(text);
    if suffix != "" {
      LastColonIsUnique(text, BeforeLastColon(text), path);
    } else {
      assert text == path;
    }
  }

  lemma LastColonIsUnique(s: string, a: string, b: string)
    requires a + ":" <= s && ':' !in s[|a| + 1..] && b + ":" <= s && ':' !in s[|b| + 1..]
    ensures a == b
  {
    assert s[|a|] == ':' && s[|b|] == ':';
    assert a == s[..|a|] && b == s[..|b|];
    assert forall k :: |a| < k < |s| ==> s[k] == s[|a| + 1..][k - |a| - 1];
    assert forall k :: |b| < k < |s| ==> s[k] == s[|b| + 1..][k - |b| - 1];
  }

  lemma StripsAround(before: string, text: string, after: string)
    requires T.AllSpace(before) && T.AllSpace(after)
    requires text != "" ==> !T.IsSpace(text[0]) && !T.IsSpace(text[|text| - 1])
    ensures T.RStrip(LStrip(before + text + after)) == text
  {
    LStripOf(before, text + after);
    Associative(before, text, after);
    if text == "" {
      LStripOf(after, "");
      assert after + "" == after && "" + after == after;
      assert LStrip(after) == "";
    } else {
      T.RStripOfSpace(text, after);
    }
  }

  lemma {:induction false} LStripOf(before: string, text: string)
    requires T.AllSpace(before)
    ensures LStrip(before + text) == LStrip(text)
    ensures text != "" && !T.IsSpace(text[0]) ==> LStrip(before + text) == text
  {
    if before == "" {
      assert before + text == text;
    } else {
      assert (before + text)[1..] == before[1..] + text;
      LStripOf(before[1..], text);
    }
  }

  lemma {:induction false} PatchBringsNoReturn(s: string)
    requires '\r' !in s
    ensures '\r' !in T.Patch(s)
  {
    if s != "" {
      T.PatchUnfold(s);
      match T.MatchAt(s)
      case None => PatchBringsNoReturn(s[1..]);
      case Some(call) =>
        var rest := T.Rest(s);
        assert forall c :: c in rest || c in T.CallText(call) ==> c in s;
        PatchBringsNoReturn(rest);
        T.RStripSplits(call.args);
        assert '\r' !in T.CallText(call);
        AddTimeoutBringsNoReturn(call);
    }
  }

  lemma AddTimeoutBringsNoReturn(call: T.Call)
    requires '\r' !in T.CallText(call)
    ensures '\r' !in T.CallText(T.AddTimeout(call))
  {
    T.RStripSplits(call.args);
    var head, stem := T.Head(call.method_), T.RStrip(call.args);
    assert forall c :: c in head || c in call.args ==> c in T.CallText(call);
    assert forall c :: c in stem ==> c in call.args;
    assert '\r' !in T.Insertion(stem);
  }

  /** Patching a patched file changes nothing; a file changes exactly when some scanned call
      does not mention a timeout. */
  lemma PatchedTwice(c: Content)
    ensures Patched(Patched(c)) == Patched(c)
    ensures Patched(c) != c <==>
            c.Text? && exists p :: p in T.Scan(UniversalNewlines(c.text)) && p.Matched? && !T.Timed(p.call)
  {
    if c.Text? {
      var original := UniversalNewlines(c.text);
      T.PatchIsIdempotent(original);
      T.PatchChangesIff(original);
      PatchBringsNoReturn(original);
    }
  }

  // ----- what happens to a file's carriage returns

  lemma UntouchedFileHasTimedCalls(c: Content)
    requires c.Text? && Patched(c) == c
    ensures T.OnlyTimeoutsAdded(T.Scan(c.text), T.Scan(c.text))
  {
    var ps := T.Scan(c.text);
    PatchedTwice(c);
    ScanOfNewlines(c.text);
    forall i | 0 <= i < |ps| && ps[i].Matched?
      ensures T.Timed(ps[i].call)
    {
      CallsStay(ps, ps[i].call);
      NewlinesKeepTimed(ps[i].call);
    }
  }

  /** In a file, too, only timeouts are added, exactly when nothing is rewritten or no `\r` is in
      the text but in whitespace that the rewrite strips. */
  lemma FileKeepsTextIff(c: Content)
    requires c.Text?
    ensures T.OnlyTimeoutsAdded(T.Scan(c.text), T.Scan(Patched(c).text)) <==>
            Patched(c) == c || forall i :: 0 <= i < |T.Scan(c.text)| ==> ReturnsAreStripped(T.Scan(c.text)[i])
  {
    var ps, read := T.Scan(c.text), UniversalNewlines(c.text);
    if Patched(c) == c {
      UntouchedFileHasTimedCalls(c);
    } else {
      T.RescanIsStable(read);
      ScanOfNewlines(c.text);
      assert T.Scan(Patched(c).text) == T.RewriteAll(NewlinesInPieces(ps));
      if forall i :: 0 <= i < |ps| ==> ReturnsAreStripped(ps[i]) {
        StrippedReturnsAreHarmless(ps);
      }
      if T.OnlyTimeoutsAdded(ps, T.Scan(T.Patch(read))) {
        PatchBringsNoReturn(read);
        T.RenderScan(T.Patch(read));
        KeptPiecesHaveNoReturn(ps, T.Scan(T.Patch(read)));
      }
    }
  }

  /** `requests.get(u)` and a Windows line end: the `\r` after the call is lost. */
  lemma WindowsLineEndIsLost(s: string)
    requires s == "requests.get(u)\r\n"
    ensures Patched(Text(s)) == Text("requests.get(u, timeout=10)\n")
    ensures !T.OnlyTimeoutsAdded(T.Scan(s), T.Scan(Patched(Text(s)).text))
  {
    ReturnAfterCall(T.Call("get", "u"), "\r\n");
    T.ShortCallGetsTheTimeout("u", "\n");
    T.HeadOfGet();
    SourceSpelled();
    PatchedSpelled();
    assert s == T.CallText(T.Call("get", "u")) + "\r\n";
    assert UniversalNewlines("\r\n") == "\n";
    FileKeepsTextIff(Text(s));
  }

  lemma SourceSpelled()
    ensures "requests.get(" + "u" + ")" == "requests.get(u)"
    ensures "requests.get(u)" + "\r\n" == "requests.get(u)\r\n"
  {
  }

  lemma PatchedSpelled()
    ensures "requests.get(" + ("u" + ", timeout=10") + ")" == "requests.get(u, timeout=10)"
    ensures "requests.get(u, timeout=10)" + "\n" == "requests.get(u, timeout=10)\n"
  {
  }

  lemma ReturnAfterCall(call: T.Call, rest: string)
    requires call.method_ in T.HTTP_METHODS && ')' !in call.args && '\r' !in call.args
    requires rest != "" && rest[0] == '\r'
    ensures var s := T.CallText(call) + rest;
            && |T.Scan(s)| > 1 && !ReturnsAreStripped(T.Scan(s)[1])
            && UniversalNewlines(s) == T.CallText(call) + UniversalNewlines(rest)
  {
    var s := T.CallText(call) + rest;
    T.MatchOfCallText(call, rest);
    T.ScanUnfold(s);
    assert T.Rest(s) == rest;
    T.ScanUnfold(rest);
    MatchStart(rest);
    NewlinesOfCallText(call);
    NewlinesKeepPlain(call.args);
    NewlinesConcat(T.CallText(call), rest);
  }

  class Workspace {
    const resolve: string -> string
    var files: map<string, Content>

    constructor (resolve: string -> string, files: map<string, Content>)
      ensures this.resolve == resolve && this.files == files
    {
      this.resolve, this.files := resolve, files;
    }

    method PatchFile(path: string) returns (changed: bool)
      requires resolve(path) in files
      modifies this
      ensures files == old(files)[resolve(path) := Patched(old(files)[resolve(path)])]
      ensures changed <==> files != old(files)
    {
      PatchedTwice(files[resolve(path)]);
      ghost var before := files;
      if files[resolve(path)].Unreadable? {
        return false;
      }
      var original := UniversalNewlines(files[resolve(path)].text);
      T.PatchChangesIff(original);
      var patched := T.Patch(original);
      if patched == original {
        assert files == before[resolve(path) := before[resolve(path)]];
        return false;
      }
      files := files[resolve(path) := Text(patched)];
      assert files[resolve(path)] != before[resolve(path)];
      return true;
    }

    /** Every readable file some finding names is patched once, however often and in whatever
        order it is named; the result lists exactly the files that changed. */
    method ApplyTimeoutFixes(evidences: seq<Option<string>>) returns (patchedFiles: set<string>)
      modifies this
      ensures files == AllPatched(old(files), Named(resolve, evidences))
      ensures patchedFiles == Changed(old(files), files)
    {
      ghost var before := files;
      patchedFiles := {};
      NothingPatched(before);
      for i := 0 to |evidences|
        invariant files == AllPatched(before, Named(resolve, evidences[..i]))
        invariant patchedFiles == Changed(before, files)
      {
        NamedGrows(resolve, evidences, i);
        var path := NamedPath(evidences[i]);
        if path.None? {
          continue;
        }
        if resolve(path.value) !in files {
          MissingFileIgnored(before, Named(resolve, evidences[..i]), resolve(path.value));
          continue;
        }
        PatchOneMore(before, Named(resolve, evidences[..i]), resolve(path.value));
        var changed := PatchFile(path.value);
        if changed {
          patchedFiles := patchedFiles + {resolve(path.value)};
        }
      }
      assert evidences[..|evidences|] == evidences;
    }
  }

  /** The resolved paths that findings name. */
  ghost function Named(resolve: string -> string, evidences: seq<Option<string>>): set<string> {
    set e | e in evidences && NamedPath(e).Some? :: resolve(NamedPath(e).value)
  }

  ghost function AllPatched(files: map<string, Content>, named: set<string>): map<string, Content> {
    map f | f in files :: if f in named then Patched(files[f]) else files[f]
  }

  ghost function Changed(before: map<string, Content>, after: map<string, Content>): set<string> {
    set f | f in before && f in after && after[f] != before[f]
  }

  lemma NothingPatched(files: map<string, Content>)
    ensures AllPatched(files, {}) == files && Changed(files, files) == {}
  {
  }

  lemma NamedGrows(resolve: string -> string, evidences: seq<Option<string>>, i: nat)
    requires i < |evidences|
    ensures Named(resolve, evidences[..i + 1]) == Named(resolve, evidences[..i])
            + if NamedPath(evidences[i]).Some? then {resolve(NamedPath(evidences[i]).value)} else {}
  {
    assert evidences[..i + 1] == evidences[..i] + [evidences[i]];
  }

  lemma MissingFileIgnored(before: map<string, Content>, named: set<string>, target: string)
    requires target !in before
    ensures AllPatched(before, named + {target}) == AllPatched(before, named)
  {
  }

  lemma PatchOneMore(before: map<string, Content>, named: set<string>, target: string)
    requires target in before
    ensures var now := AllPatched(before, named);
            var after := now[target := Patched(now[target])];
            && after == AllPatched(before, named + {target})
            && Changed(before, after) == Changed(before, now) + if after != now then {target} else {}
  {
    PatchedTwice(before[target]);
    var now := AllPatched(before, named);
    PatchedGrows(before, named, target);
    ChangedGrows(before, now, target, Patched(now[target]));
  }

  lemma PatchedGrows(before: map<string, Content>, named: set<string>, target: string)
    requires target in before && Patched(Patched(before[target])) == Patched(before[target])
    ensures var now := AllPatched(before, named);
            now[target := Patched(now[target])] == AllPatched(before, named + {target})
  {
  }

  lemma ChangedGrows(before: map<string, Content>, now: map<string, Content>, target: string, content: Content)
    requires target in before && target in now
    requires now[target] != before[target] ==> content == now[target]
    ensures var after := now[target := content];
            Changed(before, after) == Changed(before, now) + if after != now then {target} else {}
  {
    var after := now[target := content];
    if content == now[target] {
      assert after == now;
    } else {
      assert after[target] != now[target];
      assert forall f :: f in Changed(before, after) <==> f in Changed(before, now) || f == target;
    }
  }
}
