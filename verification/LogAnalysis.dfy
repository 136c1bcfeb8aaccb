/**
The log correlation of the blue-team agent. What a line says about itself (failed login, source
address, lower-cased text) comes from foreign pattern functions; the counting is modelled.

Every line leaves tags; the result is a function of the multiset of tags alone.
*/
module LogAnalysis {
  import opened Prelude
  import A = Assessments

  const BRUTE_FORCE_THRESHOLD := 5
  const SCANNER_PATH_THRESHOLD := 3
  const MAX_LOG_FILES := 20
  const MAX_LINES_PER_FILE := 5000

  const INJECTION_SIGNATURES: seq<string> := [
    "union select", "' or '1'='1", " or 1=1", "<script>", "../../../", "etc/passwd", "select * from", "drop table"]
  const COMMAND_SIGNATURES: seq<string> := [
    "sudo su", "useradd", "usermod -ag sudo", "chmod 777", "/etc/shadow", "nc -e", "| sh", "| bash"]
  const SCANNER_SIGNATURES: seq<string> := [
    "/wp-login.php", "/phpmyadmin", "/.env", "/.git/config", "/xmlrpc.php", "/actuator/env", "/.aws/credentials"]

  /** A path or an address, by its text. */
  datatype Name = Name(text: string)

  datatype Line = Line(text: string)

  datatype Patterns = Patterns(failedLogin: Line -> bool, addressIn: Line -> Option<Name>, lowered: Line -> string)

  /** `None` is a file that could not be read. */
  datatype LogFile = LogFile(path: Name, lines: Option<seq<Line>>)

  datatype Event =
    | WebAttack(file: Name, line: Line, signature: string)
    | PrivilegedCommand(file: Name, line: Line, signature: string)
    | BruteForce(file: Name, source: Name, count: nat)
    | Scanning(source: Name, count: nat)

  // ----- what a line says

  /** The first of `signatures` that occurs in `text`. */
  function FirstSignature(text: string, signatures: seq<string>): (r: Option<string>)
    ensures r.None? <==> forall s :: s in signatures ==> !Contains(text, s)
    ensures r.Some? ==> r.value in signatures && Contains(text, r.value)
  {
    if signatures == [] then None
    else if Contains(text, signatures[0]) then Some(signatures[0])
    else FirstSignature(text, signatures[1..])
  }

  function SourceOf(p: Patterns, line: Line, default: Name): Name {
    match p.addressIn(line) case None => default case Some(address) => address
  }

  /** The line is a failed login attributed to `source`. */
  predicate FailedLoginFrom(p: Patterns, line: Line, source: Name) {
    p.failedLogin(line) && SourceOf(p, line, Name("unknown")) == source
  }

  predicate Probes(p: Patterns, line: Line) {
    exists s :: s in SCANNER_SIGNATURES && Contains(p.lowered(line), s)
  }

  datatype Tag = Failure(file: Name, source: Name) | Probe(source: Name) | Raised(event: Event)

  function FailureTags(p: Patterns, file: Name, line: Line): multiset<Tag> {
    if p.failedLogin(line) then multiset{Failure(file, SourceOf(p, line, Name("unknown")))} else multiset{}
  }

  function AttackTags(p: Patterns, file: Name, line: Line): multiset<Tag> {
    match FirstSignature(p.lowered(line), INJECTION_SIGNATURES)
    case None => multiset{}
    case Some(s) => multiset{Raised(WebAttack(file, line, s))}
  }

  function CommandTags(p: Patterns, file: Name, line: Line): multiset<Tag> {
    match FirstSignature(p.lowered(line), COMMAND_SIGNATURES)
    case None => multiset{}
    case Some(s) => multiset{Raised(PrivilegedCommand(file, line, s))}
  }

  function ProbeTags(p: Patterns, file: Name, line: Line): multiset<Tag> {
    if Probes(p, line) then multiset{Probe(SourceOf(p, line, file))} else multiset{}
  }

  function LineTags(p: Patterns, file: Name, line: Line): multiset<Tag> {
    FailureTags(p, file, line) + AttackTags(p, file, line) + CommandTags(p, file, line) + ProbeTags(p, file, line)
  }

  /** The tags that the lines of a file leave, as a function of the file's name and the line. */
  type Tagger = (Name, Line) -> multiset<Tag>

  function TaggerOf(p: Patterns): Tagger {
    (file: Name, line: Line) => LineTags(p, file, line)
  }

  function Tags(g: Tagger, file: Name, lines: seq<Line>): multiset<Tag> {
    if lines == [] then multiset{}
    else Tags(g, file, lines[..|lines| - 1]) + g(file, lines[|lines| - 1])
  }

  /** The lines that are read: the first 5000, none of an unreadable file. */
  function Retained(f: LogFile): seq<Line> {
    if f.lines.None? then []
    else if |f.lines.value| <= MAX_LINES_PER_FILE then f.lines.value
    else f.lines.value[..MAX_LINES_PER_FILE]
  }

  function AllTags(g: Tagger, files: seq<LogFile>): multiset<Tag> {
    if files == [] then multiset{}
    else AllTags(g, files[..|files| - 1]) + Tags(g, files[|files| - 1].path, Retained(files[|files| - 1]))
  }

  // ----- the findings that tags call for

  /** How often the findings contain `e`: once per line that raises it, and once for a counter
      that reached its threshold, with exactly that count. */
  function Expected(tags: multiset<Tag>, e: Event): nat {
    match e
    case WebAttack(_, _, _) => tags[Raised(e)]
    case PrivilegedCommand(_, _, _) => tags[Raised(e)]
    case BruteForce(file, source, count) =>
      if count >= 5 && tags[Failure(file, source)] == count then 1 else 0
    case Scanning(source, count) =>
      if count >= 3 && tags[Probe(source)] == count then 1 else 0
  }

  ghost predicate CallsFor(tags: multiset<Tag>, events: seq<Event>) {
    forall e :: multiset(events)[e] == Expected(tags, e)
  }

  /** Number of lines that are failed logins attributed to `source`. */
  function FailedLogins(p: Patterns, lines: seq<Line>, source: Name): nat {
    if lines == [] then 0
    else FailedLogins(p, lines[..|lines| - 1], source)
         + if FailedLoginFrom(p, lines[|lines| - 1], source) then 1 else 0
  }

  lemma LineTagsFailure(p: Patterns, path: Name, line: Line, file: Name, source: Name)
    ensures TaggerOf(p)(path, line)[Failure(file, source)]
         == if path == file && FailedLoginFrom(p, line, source) then 1 else 0
  {
    assert AttackTags(p, path, line)[Failure(file, source)] == 0;
    assert CommandTags(p, path, line)[Failure(file, source)] == 0;
    assert ProbeTags(p, path, line)[Failure(file, source)] == 0;
  }

  lemma {:induction false} FailureTagsCountLogins(p: Patterns, path: Name, lines: seq<Line>, file: Name, source: Name)
    ensures Tags(TaggerOf(p), path, lines)[Failure(file, source)]
         == if path == file then FailedLogins(p, lines, source) else 0
  {
    if lines != [] {
      FailureTagsCountLogins(p, path, lines[..|lines| - 1], file, source);
      LineTagsFailure(p, path, lines[|lines| - 1], file, source);
    }
  }

  ghost predicate PathsDistinct(files: seq<LogFile>) {
    forall i, j :: 0 <= i < j < |files| ==> files[i].path != files[j].path
  }

  lemma LastFile(g: Tagger, files: seq<LogFile>, tag: Tag)
    requires files != []
    ensures var last := files[|files| - 1];
            AllTags(g, files)[tag] == AllTags(g, files[..|files| - 1])[tag] + Tags(g, last.path, Retained(last))[tag]
  {
  }

  ghost predicate LeavesNone(g: Tagger, f: LogFile, tag: Tag) {
    Tags(g, f.path, Retained(f))[tag] == 0
  }

  lemma {:induction false} NoTagElsewhere(g: Tagger, files: seq<LogFile>, tag: Tag)
    requires forall i :: 0 <= i < |files| ==> LeavesNone(g, files[i], tag)
    ensures AllTags(g, files)[tag] == 0
  {
    if files != [] {
      LastFile(g, files, tag);
      NoTagElsewhere(g, files[..|files| - 1], tag);
    }
  }

  /** A tag that only one file leaves is left as often as this file leaves it. */
  lemma {:induction false} TagOfFile(g: Tagger, files: seq<LogFile>, k: nat, tag: Tag)
    requires k < |files| && forall i :: 0 <= i < |files| && i != k ==> LeavesNone(g, files[i], tag)
    ensures AllTags(g, files)[tag] == Tags(g, files[k].path, Retained(files[k]))[tag]
  {
    var n := |files| - 1;
    LastFile(g, files, tag);
    if k < n {
      assert LeavesNone(g, files[n], tag);
      TagOfFile(g, files[..n], k, tag);
    } else {
      NoTagElsewhere(g, files[..n], tag);
    }
  }

  /** A brute-force finding is reported for a file and source exactly when at least five of the
      file's first 5000 lines are failed logins attributed to it, once, with that very number. */
  lemma BruteForceIsExact(p: Patterns, files: seq<LogFile>, events: seq<Event>, k: nat, source: Name, count: nat)
    requires PathsDistinct(files) && k < |files| && CallsFor(AllTags(TaggerOf(p), files), events)
    ensures multiset(events)[BruteForce(files[k].path, source, count)]
         == if count >= 5 && FailedLogins(p, Retained(files[k]), source) == count then 1 else 0
  {
    forall i | 0 <= i < |files|
      ensures Tags(TaggerOf(p), files[i].path, Retained(files[i]))[Failure(files[k].path, source)]
           == if i == k then FailedLogins(p, Retained(files[k]), source) else 0
    {
      FailureTagsCountLogins(p, files[i].path, Retained(files[i]), files[k].path, source);
    }
    TagOfFile(TaggerOf(p), files, k, Failure(files[k].path, source));
  }

  /** The signature with which a line raises an event of this kind, if it does. */
  function SignatureOf(p: Patterns, line: Line, e: Event): Option<string> {
    match e
    case WebAttack(_, _, _) => FirstSignature(p.lowered(line), INJECTION_SIGNATURES)
    case PrivilegedCommand(_, _, _) => FirstSignature(p.lowered(line), COMMAND_SIGNATURES)
    case _ => None
  }

  lemma LineTagsRaised(p: Patterns, path: Name, line: Line, e: Event)
    requires e.WebAttack? || e.PrivilegedCommand?
    ensures TaggerOf(p)(path, line)[Raised(e)]
         == if line == e.line && Raises(p, path, e) then 1 else 0
  {
    assert FailureTags(p, path, line)[Raised(e)] == 0;
    assert ProbeTags(p, path, line)[Raised(e)] == 0;
    assert e.WebAttack? ==> CommandTags(p, path, line)[Raised(e)] == 0;
    assert e.PrivilegedCommand? ==> AttackTags(p, path, line)[Raised(e)] == 0;
  }

  predicate Raises(p: Patterns, path: Name, e: Event)
    requires e.WebAttack? || e.PrivilegedCommand?
  {
    path == e.file && SignatureOf(p, e.line, e) == Some(e.signature)
  }

  lemma LastOccurrence<T>(s: seq<T>, x: T)
    requires s != []
    ensures multiset(s)[x] == multiset(s[..|s| - 1])[x] + if s[|s| - 1] == x then 1 else 0
  {
    assert s == s[..|s| - 1] + [s[|s| - 1]];
  }

  lemma LastTag(g: Tagger, path: Name, lines: seq<Line>, tag: Tag)
    requires lines != []
    ensures var n := |lines| - 1;
            Tags(g, path, lines)[tag] == Tags(g, path, lines[..n])[tag] + g(path, lines[n])[tag]
  {
  }

  lemma {:induction false} RaisedTagsCountLines(p: Patterns, path: Name, lines: seq<Line>, e: Event)
    requires e.WebAttack? || e.PrivilegedCommand?
    ensures Tags(TaggerOf(p), path, lines)[Raised(e)]
         == if Raises(p, path, e) then multiset(lines)[e.line] else 0
  {
    if lines != [] {
      var n := |lines| - 1;
      RaisedTagsCountLines(p, path, lines[..n], e);
      LastTag(TaggerOf(p), path, lines, Raised(e));
      LineTagsRaised(p, path, lines[n], e);
      LastOccurrence(lines, e.line);
    }
  }

  /** An attack or a command is reported exactly as often as its line is among the file's first 5000
      lines, with the first signature that the line contains, and otherwise not. */
  lemma RaisedIsExact(p: Patterns, files: seq<LogFile>, events: seq<Event>, k: nat, e: Event)
    requires PathsDistinct(files) && k < |files| && CallsFor(AllTags(TaggerOf(p), files), events)
    requires (e.WebAttack? || e.PrivilegedCommand?) && e.file == files[k].path
    ensures multiset(events)[e]
         == if SignatureOf(p, e.line, e) == Some(e.signature) then multiset(Retained(files[k]))[e.line] else 0
  {
    RaisedTagsOfFile(p, files, k, e);
  }

  lemma RaisedTagsOfFile(p: Patterns, files: seq<LogFile>, k: nat, e: Event)
    requires PathsDistinct(files) && k < |files|
    requires (e.WebAttack? || e.PrivilegedCommand?) && e.file == files[k].path
    ensures AllTags(TaggerOf(p), files)[Raised(e)]
         == if Raises(p, e.file, e) then multiset(Retained(files[k]))[e.line] else 0
  {
    forall i | 0 <= i < |files| && i != k
      ensures LeavesNone(TaggerOf(p), files[i], Raised(e))
    {
      RaisedTagsCountLines(p, files[i].path, Retained(files[i]), e);
    }
    TagOfFile(TaggerOf(p), files, k, Raised(e));
    RaisedTagsCountLines(p, e.file, Retained(files[k]), e);
  }

  // ----- what lines, signatures and sources mean

  lemma RetainedMeans(f: LogFile)
    ensures f.lines.None? ==> Retained(f) == []
    ensures f.lines.Some? ==> Retained(f) <= f.lines.value
    ensures f.lines.Some? ==> |Retained(f)| == if |f.lines.value| <= 5000 then |f.lines.value| else 5000
  {
  }

  lemma {:induction false} FirstSignatureMeans(text: string, signatures: seq<string>, i: nat)
    requires i < |signatures| && Surrounds(text, signatures[i])
    requires forall k :: 0 <= k < i ==> !Surrounds(text, signatures[k])
    ensures FirstSignature(text, signatures) == Some(signatures[i])
  {
    ContainsMeans(text, signatures[0]);
    if i > 0 {
      FirstSignatureMeans(text, signatures[1..], i - 1);
    }
  }

  ghost predicate SurroundsAny(text: string, words: seq<string>) {
    exists i :: 0 <= i < |words| && Surrounds(text, words[i])
  }

  lemma SignatureFound(text: string, signatures: seq<string>)
    ensures FirstSignature(text, signatures).Some? <==> SurroundsAny(text, signatures)
    ensures (exists s :: s in signatures && Contains(text, s)) <==> SurroundsAny(text, signatures)
  {
    forall s ensures Contains(text, s) <==> Surrounds(text, s) {
      ContainsMeans(text, s);
    }
    if i :| 0 <= i < |signatures| && Surrounds(text, signatures[i]) {
      assert signatures[i] in signatures && Contains(text, signatures[i]);
    }
  }

  /** Which lower-cased lines raise an attack, raise a command, and probe. */
  lemma SignaturesMean(p: Patterns, line: Line, file: Name)
    ensures AttackTags(p, file, line) != multiset{} <==> SurroundsAny(p.lowered(line), [
              "union select", "' or '1'='1", " or 1=1", "<script>", "../../../", "etc/passwd", "select * from",
              "drop table"])
    ensures CommandTags(p, file, line) != multiset{} <==> SurroundsAny(p.lowered(line), [
              "sudo su", "useradd", "usermod -ag sudo", "chmod 777", "/etc/shadow", "nc -e", "| sh", "| bash"])
    ensures Probes(p, line) <==> SurroundsAny(p.lowered(line), [
              "/wp-login.php", "/phpmyadmin", "/.env", "/.git/config", "/xmlrpc.php", "/actuator/env",
              "/.aws/credentials"])
  {
    SignatureFound(p.lowered(line), INJECTION_SIGNATURES);
    SignatureFound(p.lowered(line), COMMAND_SIGNATURES);
    SignatureFound(p.lowered(line), SCANNER_SIGNATURES);
  }

  /** To whom a line is attributed: the address in it, or else `unknown` for a failed login and the
      file for a probe. */
  lemma SourcesMean(p: Patterns, path: Name, line: Line, source: Name)
    ensures FailedLoginFrom(p, line, source) <==>
            p.failedLogin(line) && (p.addressIn(line) == Some(source)
                                    || (p.addressIn(line).None? && source == Name("unknown")))
    ensures ProbeFrom(p, path, line, source) <==>
            Probes(p, line) && (p.addressIn(line) == Some(source) || (p.addressIn(line).None? && source == path))
  {
  }

  /** Number of lines of the file at `path` that probe for scanners' targets, attributed to `source`. */
  function ProbingLines(p: Patterns, path: Name, lines: seq<Line>, source: Name): nat {
    if lines == [] then 0
    else ProbingLines(p, path, lines[..|lines| - 1], source)
         + if ProbeFrom(p, path, lines[|lines| - 1], source) then 1 else 0
  }

  /** The line asks for a sensitive path; without an address the probe is the file's. */
  predicate ProbeFrom(p: Patterns, path: Name, line: Line, source: Name) {
    Probes(p, line) && SourceOf(p, line, path) == source
  }

  function ProbesIn(p: Patterns, files: seq<LogFile>, source: Name): nat {
    if files == [] then 0 else
      var last := files[|files| - 1];
      ProbesIn(p, files[..|files| - 1], source) + ProbingLines(p, last.path, Retained(last), source)
  }

  lemma LineTagsProbe(p: Patterns, path: Name, line: Line, source: Name)
    ensures TaggerOf(p)(path, line)[Probe(source)] == if ProbeFrom(p, path, line, source) then 1 else 0
  {
    assert FailureTags(p, path, line)[Probe(source)] == 0;
    assert AttackTags(p, path, line)[Probe(source)] == 0;
    assert CommandTags(p, path, line)[Probe(source)] == 0;
  }

  lemma {:induction false} ProbeTagsCountLines(p: Patterns, path: Name, lines: seq<Line>, source: Name)
    ensures Tags(TaggerOf(p), path, lines)[Probe(source)] == ProbingLines(p, path, lines, source)
  {
    if lines != [] {
      ProbeTagsCountLines(p, path, lines[..|lines| - 1], source);
      LineTagsProbe(p, path, lines[|lines| - 1], source);
    }
  }

  lemma {:induction false} ProbeTagsAreProbes(p: Patterns, files: seq<LogFile>, source: Name)
    ensures AllTags(TaggerOf(p), files)[Probe(source)] == ProbesIn(p, files, source)
  {
    if files != [] {
      var n := |files| - 1;
      LastFile(TaggerOf(p), files, Probe(source));
      ProbeTagsCountLines(p, files[n].path, Retained(files[n]), source);
      ProbeTagsAreProbes(p, files[..n], source);
    }
  }

  /** A scanning finding is reported for a source exactly when at least three probing lines, over
      all files, are attributed to it, once, with that very number. */
  lemma ScanningIsExact(p: Patterns, files: seq<LogFile>, events: seq<Event>, source: Name, count: nat)
    requires CallsFor(AllTags(TaggerOf(p), files), events)
    ensures multiset(events)[Scanning(source, count)]
         == if count >= 3 && ProbesIn(p, files, source) == count then 1 else 0
  {
    ProbeTagsAreProbes(p, files, source);
  }

  // ----- the order of lines does not matter

  lemma {:induction false} TagsConcat(g: Tagger, file: Name, a: seq<Line>, b: seq<Line>)
    ensures Tags(g, file, a + b) == Tags(g, file, a) + Tags(g, file, b)
  {
    if b == [] {
      assert a + b == a;
    } else {
      var c, init, last := a + b, b[..|b| - 1], b[|b| - 1];
      TagsConcat(g, file, a, init);
      assert c[..|c| - 1] == a + init && c[|c| - 1] == last;
      SumAssociates(Tags(g, file, a), Tags(g, file, init), g(file, last));
    }
  }

  lemma SumAssociates(a: multiset<Tag>, b: multiset<Tag>, c: multiset<Tag>)
    ensures a + b + c == a + (b + c)
  {
  }

  lemma TagsOfOne(g: Tagger, file: Name, line: Line)
    ensures Tags(g, file, [line]) == g(file, line)
  {
    assert [line][..0] == [];
  }

  /** Moving one line to the end. */
  lemma TagsOfMoved(g: Tagger, file: Name, a: seq<Line>, line: Line, b: seq<Line>)
    ensures Tags(g, file, a + [line] + b) == Tags(g, file, a + b) + g(file, line)
  {
    TagsConcat(g, file, a + [line], b);
    TagsConcat(g, file, a, [line]);
    TagsConcat(g, file, a, b);
    TagsOfOne(g, file, line);
  }

  lemma WithoutOne(init: seq<Line>, last: Line, a: seq<Line>, b: seq<Line>)
    requires multiset(init + [last]) == multiset(a + [last] + b)
    ensures multiset(init) == multiset(a + b)
  {
    assert multiset(init + [last]) == multiset(init) + multiset{last};
    assert multiset(a + [last] + b) == multiset(a + b) + multiset{last};
    assert multiset(init) == multiset(init + [last]) - multiset{last};
    assert multiset(a + b) == multiset(a + [last] + b) - multiset{last};
  }

  lemma {:induction false} TagsOfPermutation(g: Tagger, file: Name, a: seq<Line>, b: seq<Line>)
    requires multiset(a) == multiset(b)
    ensures Tags(g, file, a) == Tags(g, file, b)
  {
    if a == [] {
      assert |multiset(b)| == 0;
    } else {
      var init, last := a[..|a| - 1], a[|a| - 1];
      assert a == init + [last];
      assert last in multiset(b);
      var k :| 0 <= k < |b| && b[k] == last;
      var before, after := b[..k], b[k + 1..];
      assert b == before + [last] + after;
      WithoutOne(init, last, before, after);
      TagsOfPermutation(g, file, init, before + after);
      TagsOfMoved(g, file, before, last, after);
    }
  }

  /** The same paths, each with the same retained lines in any order. */
  ghost predicate SameUpToLineOrder(a: seq<LogFile>, b: seq<LogFile>) {
    && |a| == |b|
    && forall i :: 0 <= i < |a| ==> a[i].path == b[i].path && multiset(Retained(a[i])) == multiset(Retained(b[i]))
  }

  lemma {:induction false} AllTagsOfPermutation(g: Tagger, a: seq<LogFile>, b: seq<LogFile>)
    requires SameUpToLineOrder(a, b)
    ensures AllTags(g, a) == AllTags(g, b)
  {
    if a != [] {
      var n := |a| - 1;
      AllTagsOfPermutation(g, a[..n], b[..n]);
      TagsOfPermutation(g, a[n].path, Retained(a[n]), Retained(b[n]));
    }
  }

  /** Reordering a file's retained lines leaves the multiset of findings as it is. */
  lemma LineOrderDoesNotMatter(p: Patterns, a: seq<LogFile>, b: seq<LogFile>, x: seq<Event>, y: seq<Event>)
    requires SameUpToLineOrder(a, b) && CallsFor(AllTags(TaggerOf(p), a), x) && CallsFor(AllTags(TaggerOf(p), b), y)
    ensures multiset(x) == multiset(y)
  {
    AllTagsOfPermutation(TaggerOf(p), a, b);
    forall e
      ensures multiset(x)[e] == multiset(y)[e]
    {
      assert multiset(x)[e] == Expected(AllTags(TaggerOf(p), a), e);
    }
  }

  // ----- the analysis

  type FailureCounter = map<(Name, Name), nat>
  type ProbeCounter = map<Name, nat>

  function Tally<K>(m: map<K, nat>, k: K): nat {
    if k in m then m[k] else 0
  }

  /** The counters and findings so far hold what the tags so far call for, thresholds apart. */
  ghost predicate Tallies(tags: multiset<Tag>, failures: FailureCounter, probes: ProbeCounter, events: seq<Event>) {
    && (forall file, source :: Tally(failures, (file, source)) == tags[Failure(file, source)])
    && (forall source :: Tally(probes, source) == tags[Probe(source)])
    && (forall e :: multiset(events)[e] == tags[Raised(e)])
    && (forall e: Event :: e.BruteForce? || e.Scanning? ==> tags[Raised(e)] == 0)
  }

  lemma TallyFailure(tags: multiset<Tag>, failures: FailureCounter, probes: ProbeCounter, events: seq<Event>,
                     file: Name, source: Name)
    requires Tallies(tags, failures, probes, events)
    ensures Tallies(tags + multiset{Failure(file, source)},
                    failures[(file, source) := Tally(failures, (file, source)) + 1], probes, events)
  {
  }

  lemma TallyProbe(tags: multiset<Tag>, failures: FailureCounter, probes: ProbeCounter, events: seq<Event>,
                   source: Name)
    requires Tallies(tags, failures, probes, events)
    ensures Tallies(tags + multiset{Probe(source)}, failures, probes[source := Tally(probes, source) + 1], events)
  {
  }

  lemma TallyEvent(tags: multiset<Tag>, failures: FailureCounter, probes: ProbeCounter, events: seq<Event>,
                   event: Event)
    requires Tallies(tags, failures, probes, events) && (event.WebAttack? || event.PrivilegedCommand?)
    ensures Tallies(tags + multiset{Raised(event)}, failures, probes, events + [event])
  {
  }

  method CountFailure(p: Patterns, file: Name, line: Line, failures: FailureCounter, ghost probes: ProbeCounter,
                      ghost events: seq<Event>, ghost tags: multiset<Tag>) returns (failures': FailureCounter)
    requires Tallies(tags, failures, probes, events)
    ensures Tallies(tags + FailureTags(p, file, line), failures', probes, events)
  {
    if !p.failedLogin(line) {
      assert tags + FailureTags(p, file, line) == tags;
      return failures;
    }
    var source := SourceOf(p, line, Name("unknown"));
    TallyFailure(tags, failures, probes, events, file, source);
    failures' := failures[(file, source) := Tally(failures, (file, source)) + 1];
  }

  method RaiseAttack(p: Patterns, file: Name, line: Line, ghost failures: FailureCounter, ghost probes: ProbeCounter,
                     events: seq<Event>, ghost tags: multiset<Tag>) returns (events': seq<Event>)
    requires Tallies(tags, failures, probes, events)
    ensures Tallies(tags + AttackTags(p, file, line), failures, probes, events')
  {
    var signature := FirstSignature(p.lowered(line), INJECTION_SIGNATURES);
    if signature.None? {
      assert tags + AttackTags(p, file, line) == tags;
      return events;
    }
    TallyEvent(tags, failures, probes, events, WebAttack(file, line, signature.value));
    events' := events + [WebAttack(file, line, signature.value)];
  }

  method RaiseCommand(p: Patterns, file: Name, line: Line, ghost failures: FailureCounter, ghost probes: ProbeCounter,
                      events: seq<Event>, ghost tags: multiset<Tag>) returns (events': seq<Event>)
    requires Tallies(tags, failures, probes, events)
    ensures Tallies(tags + CommandTags(p, file, line), failures, probes, events')
  {
    var signature := FirstSignature(p.lowered(line), COMMAND_SIGNATURES);
    if signature.None? {
      assert tags + CommandTags(p, file, line) == tags;
      return events;
    }
    TallyEvent(tags, failures, probes, events, PrivilegedCommand(file, line, signature.value));
    events' := events + [PrivilegedCommand(file, line, signature.value)];
  }

  method CountProbe(p: Patterns, file: Name, line: Line, ghost failures: FailureCounter, probes: ProbeCounter,
                    ghost events: seq<Event>, ghost tags: multiset<Tag>) returns (probes': ProbeCounter)
    requires Tallies(tags, failures, probes, events)
    ensures Tallies(tags + ProbeTags(p, file, line), failures, probes', events)
  {
    if !Probes(p, line) {
      assert tags + ProbeTags(p, file, line) == tags;
      return probes;
    }
    var source := SourceOf(p, line, file);
    TallyProbe(tags, failures, probes, events, source);
    probes' := probes[source := Tally(probes, source) + 1];
  }

  /** The tags of one line, added one kind after the other. */
  lemma LineTagsInTurn(p: Patterns, file: Name, line: Line, tags: multiset<Tag>)
    ensures tags + FailureTags(p, file, line) + AttackTags(p, file, line) + CommandTags(p, file, line)
            + ProbeTags(p, file, line) == tags + TaggerOf(p)(file, line)
  {
    var a, b, c, d := FailureTags(p, file, line), AttackTags(p, file, line),
                      CommandTags(p, file, line), ProbeTags(p, file, line);
    SumAssociates(tags, a, b);
    SumAssociates(tags, a + b, c);
    SumAssociates(tags, a + b + c, d);
  }

  /** The body of the loop over the lines of a file. */
  method ReadLine(p: Patterns, file: Name, line: Line, failures: FailureCounter, probes: ProbeCounter,
                  events: seq<Event>,
                  ghost tags: multiset<Tag>)
    returns (failures': FailureCounter, probes': ProbeCounter, events': seq<Event>)
    requires Tallies(tags, failures, probes, events)
    ensures Tallies(tags + TaggerOf(p)(file, line), failures', probes', events')
  {
    LineTagsInTurn(p, file, line, tags);
    ghost var seen := tags;
    failures' := CountFailure(p, file, line, failures, probes, events, seen);
    seen := seen + FailureTags(p, file, line);
    events' := RaiseAttack(p, file, line, failures', probes, events, seen);
    seen := seen + AttackTags(p, file, line);
    events' := RaiseCommand(p, file, line, failures', probes, events', seen);
    seen := seen + CommandTags(p, file, line);
    probes' := CountProbe(p, file, line, failures', probes, events', seen);
  }

  lemma NextLineTags(g: Tagger, file: Name, lines: seq<Line>, i: nat, tags: multiset<Tag>)
    requires i < |lines|
    ensures tags + Tags(g, file, lines[..i]) + g(file, lines[i]) == tags + Tags(g, file, lines[..i + 1])
  {
    assert lines[..i + 1][..i] == lines[..i];
    SumAssociates(tags, Tags(g, file, lines[..i]), g(file, lines[i]));
  }

  method ReadFile(p: Patterns, file: LogFile, failures: FailureCounter, probes: ProbeCounter, events: seq<Event>,
                  ghost tags: multiset<Tag>)
    returns (failures': FailureCounter, probes': ProbeCounter, events': seq<Event>)
    requires Tallies(tags, failures, probes, events)
    ensures Tallies(tags + Tags(TaggerOf(p), file.path, Retained(file)), failures', probes', events')
  {
    failures', probes', events' := failures, probes, events;
    ghost var g := TaggerOf(p);
    var lines := Retained(file);
    ghost var seen := tags;
    assert seen == tags + Tags(g, file.path, lines[..0]);
    for i := 0 to |lines|
      invariant seen == tags + Tags(g, file.path, lines[..i])
      invariant Tallies(seen, failures', probes', events')
    {
      failures', probes', events' := ReadLine(p, file.path, lines[i], failures', probes', events', seen);
      NextLineTags(g, file.path, lines, i, tags);
      seen := seen + g(file.path, lines[i]);
    }
    assert lines[..|lines|] == lines;
  }

  predicate ReportsFailure(e: Event, failures: FailureCounter) {
    e.BruteForce? && e.count >= BRUTE_FORCE_THRESHOLD && Tally(failures, (e.file, e.source)) == e.count
  }

  predicate ReportsProbe(e: Event, probes: ProbeCounter) {
    e.Scanning? && e.count >= SCANNER_PATH_THRESHOLD && Tally(probes, e.source) == e.count
  }

  method ReportFailures(failures: FailureCounter, events: seq<Event>) returns (events': seq<Event>)
    ensures forall e :: multiset(events')[e] == multiset(events)[e] + if ReportsFailure(e, failures) then 1 else 0
  {
    events' := events;
    var keys := failures.Keys;
    while keys != {}
      invariant keys <= failures.Keys
      invariant forall e :: multiset(events')[e] == multiset(events)[e]
                  + if ReportsFailure(e, failures) && (e.file, e.source) !in keys then 1 else 0
      decreases |keys|
    {
      var k :| k in keys;
      keys := keys - {k};
      if failures[k] >= BRUTE_FORCE_THRESHOLD {
        events' := events' + [BruteForce(k.0, k.1, failures[k])];
      }
    }
  }

  method ReportProbes(probes: ProbeCounter, events: seq<Event>) returns (events': seq<Event>)
    ensures forall e :: multiset(events')[e] == multiset(events)[e] + if ReportsProbe(e, probes) then 1 else 0
  {
    events' := events;
    var keys := probes.Keys;
    while keys != {}
      invariant keys <= probes.Keys
      invariant forall e :: multiset(events')[e] == multiset(events)[e]
                  + if ReportsProbe(e, probes) && e.source !in keys then 1 else 0
      decreases |keys|
    {
      var k :| k in keys;
      keys := keys - {k};
      if probes[k] >= SCANNER_PATH_THRESHOLD {
        events' := events' + [Scanning(k, probes[k])];
      }
    }
  }

  /** The event findings of the log analysis. */
  method CollectEvents(p: Patterns, files: seq<LogFile>) returns (events: seq<Event>)
    ensures CallsFor(AllTags(TaggerOf(p), files), events)
  {
    ghost var g := TaggerOf(p);
    var failures: FailureCounter, probes: ProbeCounter := map[], map[];
    events := [];
    for i := 0 to |files|
      invariant Tallies(AllTags(g, files[..i]), failures, probes, events)
    {
      failures, probes, events := ReadFile(p, files[i], failures, probes, events, AllTags(g, files[..i]));
      assert files[..i + 1][..i] == files[..i];
    }
    assert files[..|files|] == files;
    ghost var tags := AllTags(g, files);
    var withFailures := ReportFailures(failures, events);
    ghost var raised := events;
    events := ReportProbes(probes, withFailures);
    forall e
      ensures multiset(events)[e] == Expected(tags, e)
    {
      assert multiset(raised)[e] == tags[Raised(e)];
    }
  }

  // ----- the summary

  function SeverityOf(e: Event): A.Severity {
    match e
    case WebAttack(_, _, _) => A.Critical
    case PrivilegedCommand(_, _, _) => A.High
    case BruteForce(_, _, _) => A.High
    case Scanning(_, _) => A.Medium
  }

  function Severities(events: seq<Event>): seq<A.Severity> {
    seq(|events|, i requires 0 <= i < |events| => SeverityOf(events[i]))
  }

  type SeverityCounter = map<A.Severity, nat>

  /** The counter has the number of events of each severity, and no entry for a severity without. */
  ghost predicate Summarises(counts: SeverityCounter, events: seq<Event>) {
    && (forall severity :: Tally(counts, severity) == multiset(Severities(events))[severity])
    && (forall severity :: severity in counts ==> counts[severity] > 0)
  }

  method CountSeverities(events: seq<Event>) returns (counts: SeverityCounter)
    ensures Summarises(counts, events)
  {
    counts := map[];
    for i := 0 to |events|
      invariant Summarises(counts, events[..i])
    {
      var severity := SeverityOf(events[i]);
      counts := counts[severity := Tally(counts, severity) + 1];
      assert Severities(events[..i + 1]) == Severities(events[..i]) + [severity];
    }
    assert events[..|events|] == events;
  }

  predicate HasSeverity(e: Event, s: A.Severity) {
    match e
    case WebAttack(_, _, _) => s == A.Critical
    case PrivilegedCommand(_, _, _) => s == A.High
    case BruteForce(_, _, _) => s == A.High
    case Scanning(_, _) => s == A.Medium
  }

  /** The positions of the events whose kind has the severity. */
  ghost function WithSeverity(events: seq<Event>, s: A.Severity): set<nat> {
    set i: nat | i < |events| && HasSeverity(events[i], s)
  }

  lemma LastWithSeverity(events: seq<Event>, s: A.Severity)
    requires events != []
    ensures var n := |events| - 1;
            |WithSeverity(events, s)| == |WithSeverity(events[..n], s)| + if HasSeverity(events[n], s) then 1 else 0
  {
    var n := |events| - 1;
    var before, added := WithSeverity(events[..n], s), HasSeverity(events[n], s);
    forall i: nat ensures i in WithSeverity(events, s) <==> i in before || (i == n && added) {
      assert i < n ==> events[..n][i] == events[i];
    }
    LastCounted(WithSeverity(events, s), before, n, added);
  }

  lemma {:induction false} SeveritiesAreCounted(events: seq<Event>, s: A.Severity)
    ensures multiset(Severities(events))[s] == |WithSeverity(events, s)|
  {
    if events == [] {
      assert WithSeverity(events, s) == {};
    } else {
      var n := |events| - 1;
      SeveritiesAreCounted(events[..n], s);
      LastWithSeverity(events, s);
      assert Severities(events) == Severities(events[..n]) + [SeverityOf(events[n])];
      LastOccurrence(Severities(events), s);
    }
  }

  /** A summary counts the events of each severity. */
  lemma SummaryCounts(counts: SeverityCounter, events: seq<Event>, s: A.Severity)
    requires Summarises(counts, events)
    ensures s in counts <==> WithSeverity(events, s) != {}
    ensures s in counts ==> counts[s] == |WithSeverity(events, s)|
  {
    SeveritiesAreCounted(events, s);
  }

  /** The counts of a summary add up to its total. */
  lemma {:induction false} SummaryAddsUp(counts: SeverityCounter, events: seq<Event>)
    requires Summarises(counts, events)
    ensures Tally(counts, A.Critical) + Tally(counts, A.High) + Tally(counts, A.Medium) == |events|
    ensures A.Low !in counts
  {
    NoOtherSeverity(events);
    assert Tally(counts, A.Low) == 0;
  }

  lemma {:induction false} NoOtherSeverity(events: seq<Event>)
    ensures var found := multiset(Severities(events));
            found[A.Critical] + found[A.High] + found[A.Medium] == |events| && found[A.Low] == 0
  {
    if events != [] {
      var n := |events| - 1;
      NoOtherSeverity(events[..n]);
      assert Severities(events) == Severities(events[..n]) + [SeverityOf(events[n])];
    }
  }

  /** What the analysis reports: nothing without log files, that nothing was found, or the events
      and before them a summary of their number and severities. */
  datatype Report =
    | NoLogs
    | NothingFound(logFiles: nat)
    | Incident(logFiles: nat, total: nat, counts: SeverityCounter, events: seq<Event>)

  function EventsOf(r: Report): seq<Event> {
    if r.Incident? then r.events else []
  }

  method AnalyzeLogs(p: Patterns, files: seq<LogFile>) returns (report: Report)
    ensures CallsFor(AllTags(TaggerOf(p), files), EventsOf(report))
    ensures report.NoLogs? <==> files == []
    ensures !report.NoLogs? ==> report.logFiles == |files| && (report.Incident? <==> EventsOf(report) != [])
    ensures report.Incident? ==> report.total == |report.events| && Summarises(report.counts, report.events)
  {
    if files == [] {
      return NoLogs;
    }
    var events := CollectEvents(p, files);
    if events == [] {
      return NothingFound(|files|);
    }
    var counts := CountSeverities(events);
    report := Incident(|files|, |events|, counts, events);
  }

  // ----- discovering log files

  /** A path that a glob pattern yields, and whether it is a regular file. */
  datatype Candidate = Candidate(path: Name, isFile: bool)

  /** The distinct regular files, in the order first seen. */
  function LogFiles(candidates: seq<Candidate>): seq<Name> {
    if candidates == [] then [] else
      var before, last := LogFiles(candidates[..|candidates| - 1]), candidates[|candidates| - 1];
      if last.isFile && last.path !in before then before + [last.path] else before
  }

  function Flatten(globs: seq<seq<Candidate>>): seq<Candidate> {
    if globs == [] then [] else Flatten(globs[..|globs| - 1]) + globs[|globs| - 1]
  }

  function FirstFiles(files: seq<Name>): seq<Name> {
    if |files| <= MAX_LOG_FILES then files else files[..MAX_LOG_FILES]
  }

  lemma {:induction false} LogFilesGrow(a: seq<Candidate>, b: seq<Candidate>)
    ensures LogFiles(a) <= LogFiles(a + b) && Distinct(LogFiles(a))
  {
    if b != [] {
      LogFilesGrow(a, b[..|b| - 1]);
      assert (a + b)[..|a + b| - 1] == a + b[..|b| - 1];
    } else {
      assert a + b == a;
      if a != [] {
        LogFilesGrow(a[..|a| - 1], []);
        assert a[..|a| - 1] + [] == a[..|a| - 1];
      }
    }
  }

  ghost predicate FirstSeenAt(candidates: seq<Candidate>, path: Name, i: nat) {
    i < |candidates| && candidates[i] == Candidate(path, true)
    && forall k :: 0 <= k < i ==> candidates[k] != Candidate(path, true)
  }

  /** The files found are the regular candidates, each once, in the order of their first candidates,
      whose positions are `at`. */
  lemma {:induction false} LogFilesMean(candidates: seq<Candidate>) returns (at: seq<nat>)
    ensures var files := LogFiles(candidates);
            && |at| == |files| && (forall i :: 0 <= i < |files| ==> FirstSeenAt(candidates, files[i], at[i]))
            && (forall i, j :: 0 <= i < j < |at| ==> at[i] < at[j])
            && (forall c :: c in candidates && c.isFile ==> c.path in files)
  {
    at := [];
    if candidates != [] {
      var n := |candidates| - 1;
      var last := candidates[n];
      at := LogFilesMean(candidates[..n]);
      assert candidates == candidates[..n] + [last];
      assert forall i :: 0 <= i < |at| ==> at[i] < n;
      if last.isFile && last.path !in LogFiles(candidates[..n]) {
        assert forall k :: 0 <= k < n ==> candidates[..n][k] in candidates[..n];
        at := at + [n];
      }
    }
  }

  lemma FirstFilesMean(files: seq<Name>)
    ensures FirstFiles(files) <= files && |FirstFiles(files)| == if |files| <= 20 then |files| else 20
  {
  }

  lemma {:induction false} FlattenGrows(globs: seq<seq<Candidate>>, i: nat)
    requires i <= |globs|
    ensures Flatten(globs[..i]) <= Flatten(globs)
  {
    if i < |globs| {
      FlattenGrows(globs[..|globs| - 1], i);
      assert globs[..|globs| - 1][..i] == globs[..i];
    } else {
      assert globs[..i] == globs;
    }
  }

  /** The first twenty distinct regular files over all patterns in turn; a file given as the
      target stands for itself. */
  method DiscoverLogFiles(targetFile: Option<Name>, targetIsDir: bool, globs: seq<seq<Candidate>>)
    returns (discovered: seq<Name>)
    ensures discovered == if targetFile.Some? then [targetFile.value]
                          else if !targetIsDir then []
                          else FirstFiles(LogFiles(Flatten(globs)))
    ensures |discovered| <= MAX_LOG_FILES && Distinct(discovered)
  {
    if targetFile.Some? {
      return [targetFile.value];
    }
    if !targetIsDir {
      return [];
    }
    LogFilesGrow(Flatten(globs), []);
    discovered := [];
    for i := 0 to |globs|
      invariant discovered == LogFiles(Flatten(globs[..i])) && |discovered| < MAX_LOG_FILES
    {
      ghost var j;
      assert globs[..i + 1][..i] == globs[..i];
      discovered, j := ScanPattern(Flatten(globs[..i]), globs[i], discovered);
      if |discovered| >= MAX_LOG_FILES {
        CappedHere(globs, i, j);
        return;
      }
      assert globs[i][..|globs[i]|] == globs[i];
    }
    assert globs[..|globs|] == globs;
    NoneAddedAfter(Flatten(globs));
  }

  lemma NoneAddedAfter(candidates: seq<Candidate>)
    ensures Distinct(LogFiles(candidates))
  {
    LogFilesGrow(candidates, []);
  }

  /** The loop over what one pattern yields; it ends early, after `j` candidates, at the cap. */
  method ScanPattern(ghost before: seq<Candidate>, glob: seq<Candidate>, found: seq<Name>)
    returns (discovered: seq<Name>, ghost j: nat)
    requires found == LogFiles(before) && |found| < MAX_LOG_FILES
    ensures j <= |glob| && discovered == LogFiles(before + glob[..j]) && |discovered| <= MAX_LOG_FILES
    ensures |discovered| < MAX_LOG_FILES ==> j == |glob|
  {
    discovered, j := found, 0;
    assert before + glob[..0] == before;
    for i := 0 to |glob|
      invariant j == i && discovered == LogFiles(before + glob[..i]) && |discovered| < MAX_LOG_FILES
    {
      ghost var seen := before + glob[..i + 1];
      assert seen[..|seen| - 1] == before + glob[..i];
      if glob[i].isFile && glob[i].path !in discovered {
        discovered := discovered + [glob[i].path];
      }
      j := i + 1;
      if |discovered| >= MAX_LOG_FILES {
        return;
      }
    }
  }

  /** Twenty files found part of the way are the first twenty of all. */
  lemma CappedHere(globs: seq<seq<Candidate>>, i: nat, j: nat)
    requires i < |globs| && j <= |globs[i]|
    requires |LogFiles(Flatten(globs[..i]) + globs[i][..j])| == MAX_LOG_FILES
    ensures LogFiles(Flatten(globs[..i]) + globs[i][..j]) == FirstFiles(LogFiles(Flatten(globs)))
    ensures Distinct(LogFiles(Flatten(globs[..i]) + globs[i][..j]))
  {
    var seen := Flatten(globs[..i]) + globs[i][..j];
    SeenIsPrefix(globs, i, j);
    FlattenGrows(globs, i + 1);
    PrefixOfFiles(seen, Flatten(globs));
  }

  lemma SeenIsPrefix(globs: seq<seq<Candidate>>, i: nat, j: nat)
    requires i < |globs| && j <= |globs[i]|
    ensures Flatten(globs[..i]) + globs[i][..j] <= Flatten(globs[..i + 1])
  {
    assert globs[..i + 1][..i] == globs[..i];
    assert globs[i] == globs[i][..j] + globs[i][j..];
    Associative(Flatten(globs[..i]), globs[i][..j], globs[i][j..]);
  }

  lemma PrefixOfFiles(seen: seq<Candidate>, all: seq<Candidate>)
    requires seen <= all && |LogFiles(seen)| == MAX_LOG_FILES
    ensures LogFiles(seen) == FirstFiles(LogFiles(all)) && Distinct(LogFiles(seen))
  {
    assert all == seen + all[|seen|..];
    LogFilesGrow(seen, all[|seen|..]);
  }
}
