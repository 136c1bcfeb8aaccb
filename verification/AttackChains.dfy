/**
The red-team agent's attack chains: findings are grouped by the file their evidence names, and a
file whose findings open at least two steps of an attack gets one chain.
*/
module AttackChains {
  import opened Prelude

  /** The steps in the order an attacker takes them. */
  datatype Step =
    HarvestCredentials | BypassAuthentication | ExploitInjection | ExecuteCode | EscalatePrivileges | PivotInternally

  /** A file, by the text that names it. */
  datatype File = File(path: string)

  datatype Finding = Finding(title: string, evidence: Option<string>)

  /** Reported as a finding titled `CHAIN_TITLE` whose evidence is the file. */
  datatype Chain = Chain(file: File, steps: seq<Step>)

  const CHAIN_TITLE := "Chained attack path identified"

  const NOWHERE := File("")

  function Keywords(step: Step): seq<string> {
    match step
    case HarvestCredentials => ["credential"]
    case BypassAuthentication => ["authentication check"]
    case ExploitInjection => ["injection"]
    case ExecuteCode => ["eval()", "exec()", "deserialization"]
    case EscalatePrivileges => ["privilege escalation"]
    case PivotInternally => ["lateral movement"]
  }

  function Rank(step: Step): nat {
    match step
    case HarvestCredentials => 0
    case BypassAuthentication => 1
    case ExploitInjection => 2
    case ExecuteCode => 3
    case EscalatePrivileges => 4
    case PivotInternally => 5
  }

  predicate Opens(title: string, step: Step) {
    exists word :: word in Keywords(step) && Contains(title, word)
  }

  predicate SomeOpens(titles: set<string>, step: Step) {
    exists title :: title in titles && Opens(title, step)
  }

  /** The text of the evidence before the first colon; empty if there is no evidence. */
  function FileKey(f: Finding): File {
    match f.evidence
    case None => NOWHERE
    case Some(text) => File(Split(text, ':', |text|)[0])
  }

  /** The file of a finding is its evidence, or what its evidence has before the first colon. */
  lemma FileKeyMeans(title: string, path: string, rest: string)
    requires ':' !in path
    ensures FileKey(Finding(title, Some(path))) == FileKey(Finding(title, Some(path + ":" + rest))) == File(path)
    ensures FileKey(Finding(title, None)) == File("") == NOWHERE
  {
    SplitNowhere(path, ':', |path|);
    SplitAtFirst(path, rest, ':', |path + ":" + rest|);
  }

  /** What a lower-cased title says of each step. */
  lemma OpensMeans(title: string)
    ensures Opens(title, HarvestCredentials) <==> Surrounds(title, "credential")
    ensures Opens(title, BypassAuthentication) <==> Surrounds(title, "authentication check")
    ensures Opens(title, ExploitInjection) <==> Surrounds(title, "injection")
    ensures Opens(title, ExecuteCode)
            <==> Surrounds(title, "eval()") || Surrounds(title, "exec()") || Surrounds(title, "deserialization")
    ensures Opens(title, EscalatePrivileges) <==> Surrounds(title, "privilege escalation")
    ensures Opens(title, PivotInternally) <==> Surrounds(title, "lateral movement")
  {
    forall word ensures Contains(title, word) <==> Surrounds(title, word) {
      ContainsMeans(title, word);
    }
    var code := Keywords(ExecuteCode);
    assert code[0] == "eval()" && code[1] == "exec()" && code[2] == "deserialization";
    forall step | step != ExecuteCode ensures Opens(title, step) <==> Contains(title, Keywords(step)[0]) {
      assert Keywords(step) == [Keywords(step)[0]];
    }
  }

  /** The order of the steps. */
  lemma AttackOrderMeans()
    ensures InAttackOrder([HarvestCredentials, BypassAuthentication, ExploitInjection, ExecuteCode,
                           EscalatePrivileges, PivotInternally])
  {
  }

  // ----- what the chains of a list of findings are

  /** Some finding of the file opens the step. `lower` is the lower-casing of titles. */
  ghost predicate Exposed(lower: string -> string, findings: seq<Finding>, file: File, step: Step) {
    exists f :: f in findings && FileKey(f) == file && Opens(lower(f.title), step)
  }

  ghost predicate InAttackOrder(steps: seq<Step>) {
    forall i, j :: 0 <= i < j < |steps| ==> Rank(steps[i]) < Rank(steps[j])
  }

  /** `steps` are the steps the file is exposed to, in the attacker's order. */
  ghost predicate IsPath(lower: string -> string, findings: seq<Finding>, file: File, steps: seq<Step>) {
    && InAttackOrder(steps)
    && forall step :: step in steps <==> Exposed(lower, findings, file, step)
  }

  ghost predicate TwiceExposed(lower: string -> string, findings: seq<Finding>, file: File) {
    exists a, b :: a != b && Exposed(lower, findings, file, a) && Exposed(lower, findings, file, b)
  }

  function KeysOf(findings: seq<Finding>): seq<File> {
    seq(|findings|, i requires 0 <= i < |findings| => FileKey(findings[i]))
  }

  /** The position of the first finding about the file. */
  function FirstAt(keys: seq<File>, file: File): (k: nat)
    ensures k <= |keys|
    ensures k < |keys| ==> keys[k] == file
    ensures forall j :: 0 <= j < k ==> keys[j] != file
  {
    if keys == [] || keys[0] == file then 0 else 1 + FirstAt(keys[1..], file)
  }

  /** The files are listed in the order in which the findings first mention them. */
  ghost predicate InOrderOfMention(keys: seq<File>, files: seq<File>) {
    forall i, j :: 0 <= i < j < |files| ==> FirstAt(keys, files[i]) < FirstAt(keys, files[j])
  }

  function FilesOf(chains: seq<Chain>): seq<File> {
    seq(|chains|, i requires 0 <= i < |chains| => chains[i].file)
  }

  /** One chain for each named file that is exposed to two steps or more, with the whole path of
      the file, in the order in which the files are first mentioned. */
  ghost predicate AreChains(lower: string -> string, findings: seq<Finding>, chains: seq<Chain>) {
    && InOrderOfMention(KeysOf(findings), FilesOf(chains))
    && (forall c :: c in chains ==> IsChain(lower, findings, c))
    && (forall file :: file != NOWHERE && TwiceExposed(lower, findings, file) ==> file in FilesOf(chains))
  }

  ghost predicate IsChain(lower: string -> string, findings: seq<Finding>, c: Chain) {
    c.file != NOWHERE && |c.steps| >= 2 && IsPath(lower, findings, c.file, c.steps)
  }

  // ----- the program

  /** `files` are the files named by the first `n` keys, in order of mention. */
  ghost predicate Listed(keys: seq<File>, n: nat, files: seq<File>) {
    && InOrderOfMention(keys, files)
    && forall file :: file in files <==> file != NOWHERE && FirstAt(keys, file) < n
  }

  /** The dictionary holds the lower-cased titles of the first `n` findings. */
  ghost predicate Collected(lower: string -> string, findings: seq<Finding>, n: nat, files: seq<File>,
                            titlesByFile: map<File, set<string>>)
    requires n <= |findings|
  {
    && titlesByFile.Keys == Elems(files)
    && forall file :: file in files ==> titlesByFile[file] == TitlesOf(lower, findings[..n], file)
  }

  function OwnTitle(lower: string -> string, f: Finding, file: File): set<string> {
    if FileKey(f) == file then {lower(f.title)} else {}
  }

  /** The lower-cased titles of the findings about the file. */
  function TitlesOf(lower: string -> string, findings: seq<Finding>, file: File): set<string> {
    if findings == [] then {}
    else TitlesOf(lower, findings[..|findings| - 1], file) + OwnTitle(lower, findings[|findings| - 1], file)
  }

  /** A dictionary, as its keys in insertion order and its contents, after `n` findings. */
  ghost predicate Grouped(lower: string -> string, findings: seq<Finding>, n: nat, files: seq<File>,
                          titlesByFile: map<File, set<string>>)
  {
    n <= |findings| && Listed(KeysOf(findings), n, files) && Collected(lower, findings, n, files, titlesByFile)
  }

  /** `titles_by_file.setdefault(key, set()).add(title)`. */
  method AddTitle(files: seq<File>, titlesByFile: map<File, set<string>>, key: File, title: string)
    returns (files': seq<File>, titlesByFile': map<File, set<string>>)
    ensures files' == if key in titlesByFile then files else files + [key]
    ensures titlesByFile' == titlesByFile[key := (if key in titlesByFile then titlesByFile[key] else {}) + {title}]
  {
    files', titlesByFile' := files, titlesByFile;
    if key !in titlesByFile' {
      files', titlesByFile' := files' + [key], titlesByFile'[key := {}];
    }
    titlesByFile' := titlesByFile'[key := titlesByFile'[key] + {title}];
  }

  method GroupByFile(lower: string -> string, findings: seq<Finding>)
    returns (files: seq<File>, titlesByFile: map<File, set<string>>)
    ensures Grouped(lower, findings, |findings|, files, titlesByFile)
  {
    files, titlesByFile := [], map[];
    NothingGrouped(lower, findings);
    for n := 0 to |findings|
      invariant Grouped(lower, findings, n, files, titlesByFile)
    {
      ghost var files0 := files;
      ghost var titles0 := titlesByFile;
      var key := FileKey(findings[n]);
      if key != NOWHERE {
        files, titlesByFile := AddTitle(files, titlesByFile, key, lower(findings[n].title));
      }
      GroupGrows(lower, findings, n, files0, titles0, files, titlesByFile);
    }
  }

  lemma NothingGrouped(lower: string -> string, findings: seq<Finding>)
    ensures Grouped(lower, findings, 0, [], map[])
  {
  }

  lemma GroupGrows(lower: string -> string, findings: seq<Finding>, n: nat, files: seq<File>,
                   titles: map<File, set<string>>, files': seq<File>, titles': map<File, set<string>>)
    requires n < |findings| && Grouped(lower, findings, n, files, titles)
    requires var key := FileKey(findings[n]);
             if key == NOWHERE then files' == files && titles' == titles
             else
               && files' == (if key in titles then files else files + [key])
               && titles' == titles[key := (if key in titles then titles[key] else {}) + {lower(findings[n].title)}]
    ensures Grouped(lower, findings, n + 1, files', titles')
  {
    assert KeysOf(findings)[n] == FileKey(findings[n]);
    assert FileKey(findings[n]) in titles <==> FileKey(findings[n]) in files;
    ListGrows(KeysOf(findings), n, files, files');
    CollectionGrows(lower, findings, n, files, titles, files', titles');
  }

  lemma CollectionGrows(lower: string -> string, findings: seq<Finding>, n: nat, files: seq<File>,
                        titles: map<File, set<string>>, files': seq<File>, titles': map<File, set<string>>)
    requires n < |findings| && Listed(KeysOf(findings), n, files) && Collected(lower, findings, n, files, titles)
    requires var key := FileKey(findings[n]);
             if key == NOWHERE then files' == files && titles' == titles
             else
               && files' == (if key in files then files else files + [key])
               && titles' == titles[key := (if key in files then titles[key] else {}) + {lower(findings[n].title)}]
    ensures Collected(lower, findings, n + 1, files', titles')
  {
    forall file | file in files'
      ensures titles'[file] == TitlesOf(lower, findings[..n + 1], file)
    {
      if file !in files {
        NoTitles(lower, findings, n, file);
      }
      TitlesGrow(lower, findings, n, file);
    }
  }

  lemma NotYetMentioned(findings: seq<Finding>, i: nat, file: File)
    requires i < |findings| && i < FirstAt(KeysOf(findings), file)
    ensures FileKey(findings[i]) != file
  {
    assert KeysOf(findings)[i] == FileKey(findings[i]);
  }

  lemma {:induction false} NoTitles(lower: string -> string, findings: seq<Finding>, n: nat, file: File)
    requires n <= |findings| && n <= FirstAt(KeysOf(findings), file)
    ensures TitlesOf(lower, findings[..n], file) == {}
  {
    if n > 0 {
      NoTitles(lower, findings, n - 1, file);
      TitlesGrow(lower, findings, n - 1, file);
      NotYetMentioned(findings, n - 1, file);
    }
  }

  lemma ListGrows(keys: seq<File>, n: nat, files: seq<File>, files': seq<File>)
    requires n < |keys| && Listed(keys, n, files)
    requires files' == if keys[n] == NOWHERE || keys[n] in files then files else files + [keys[n]]
    ensures Listed(keys, n + 1, files')
    ensures keys[n] != NOWHERE && files' == files ==> keys[n] in files
  {
    var key := keys[n];
    assert FirstAt(keys, key) <= n;
    forall file | file != NOWHERE ensures file in files' <==> FirstAt(keys, file) < n + 1 {
      if FirstAt(keys, file) == n {
        assert file == key;
      }
    }
    forall i, j | 0 <= i < j < |files'| ensures FirstAt(keys, files'[i]) < FirstAt(keys, files'[j]) {
      if j == |files| {
        assert files[i] in files;
      }
    }
  }

  lemma TitlesGrow(lower: string -> string, findings: seq<Finding>, n: nat, file: File)
    requires n < |findings|
    ensures TitlesOf(lower, findings[..n + 1], file)
         == TitlesOf(lower, findings[..n], file) + OwnTitle(lower, findings[n], file)
  {
    assert findings[..n + 1][..n] == findings[..n];
  }

  lemma {:induction false} TitlesMembers(lower: string -> string, findings: seq<Finding>, file: File)
    ensures forall title :: title in TitlesOf(lower, findings, file)
                            <==> exists f :: f in findings && FileKey(f) == file && lower(f.title) == title
  {
    if findings != [] {
      var init, last := findings[..|findings| - 1], findings[|findings| - 1];
      TitlesMembers(lower, init, file);
      assert findings == init + [last];
    }
  }

  ghost predicate OpenedBelow(titles: set<string>, steps: seq<Step>, rank: nat) {
    && InAttackOrder(steps)
    && forall step :: step in steps <==> Rank(step) < rank && SomeOpens(titles, step)
  }

  method AppendIfOpened(titles: set<string>, steps: seq<Step>, step: Step) returns (r: seq<Step>)
    requires OpenedBelow(titles, steps, Rank(step))
    ensures OpenedBelow(titles, r, Rank(step) + 1)
  {
    r := if SomeOpens(titles, step) then steps + [step] else steps;
    assert forall s :: Rank(s) <= Rank(step) ==> s == step || Rank(s) < Rank(step);
    assert forall i :: 0 <= i < |steps| ==> steps[i] in steps;
  }

  method StepsOpened(titles: set<string>) returns (steps: seq<Step>)
    ensures InAttackOrder(steps)
    ensures forall step :: step in steps <==> SomeOpens(titles, step)
  {
    steps := AppendIfOpened(titles, [], HarvestCredentials);
    steps := AppendIfOpened(titles, steps, BypassAuthentication);
    steps := AppendIfOpened(titles, steps, ExploitInjection);
    steps := AppendIfOpened(titles, steps, ExecuteCode);
    steps := AppendIfOpened(titles, steps, EscalatePrivileges);
    steps := AppendIfOpened(titles, steps, PivotInternally);
    assert forall step: Step :: Rank(step) < 6;
  }

  lemma OpenedIsExposed(lower: string -> string, findings: seq<Finding>, file: File, step: Step)
    ensures SomeOpens(TitlesOf(lower, findings, file), step) <==> Exposed(lower, findings, file, step)
  {
    TitlesMembers(lower, findings, file);
    if Exposed(lower, findings, file, step) {
      var f :| f in findings && FileKey(f) == file && Opens(lower(f.title), step);
      assert lower(f.title) in TitlesOf(lower, findings, file);
    }
  }

  lemma TwoStepsIffTwiceExposed(lower: string -> string, findings: seq<Finding>, file: File, steps: seq<Step>)
    requires IsPath(lower, findings, file, steps)
    ensures TwiceExposed(lower, findings, file) <==> |steps| >= 2
  {
    if |steps| >= 2 {
      assert steps[0] in steps && steps[1] in steps && Rank(steps[0]) < Rank(steps[1]);
    }
  }

  /** The chains of the first `n` of `files`. */
  ghost predicate ChainsSoFar(lower: string -> string, findings: seq<Finding>, files: seq<File>,
                              n: nat, chains: seq<Chain>)
    requires n <= |files|
  {
    && InOrderOfMention(KeysOf(findings), FilesOf(chains))
    && (forall c :: c in chains ==> c.file in files[..n] && IsChain(lower, findings, c))
    && (forall file :: file in files[..n] && TwiceExposed(lower, findings, file) ==> file in FilesOf(chains))
  }

  method ChainAttackPaths(lower: string -> string, findings: seq<Finding>) returns (chains: seq<Chain>)
    ensures AreChains(lower, findings, chains)
  {
    chains := [];
    var files, titlesByFile := GroupByFile(lower, findings);
    assert findings[..|findings|] == findings;
    for n := 0 to |files|
      invariant ChainsSoFar(lower, findings, files, n, chains)
    {
      var steps := StepsOpened(titlesByFile[files[n]]);
      forall step ensures step in steps <==> Exposed(lower, findings, files[n], step) {
        OpenedIsExposed(lower, findings, files[n], step);
      }
      TwoStepsIffTwiceExposed(lower, findings, files[n], steps);
      if |steps| >= 2 {
        var chain := Chain(files[n], steps);
        ChainIsAdded(lower, findings, files, n, chains, chain);
        chains := chains + [chain];
      } else {
        FileIsSkipped(lower, findings, files, n, chains);
      }
    }
    ExposedIsMentioned(lower, findings);
  }

  lemma ChainIsAdded(lower: string -> string, findings: seq<Finding>, files: seq<File>, n: nat, chains: seq<Chain>,
                     added: Chain)
    requires n < |files| && InOrderOfMention(KeysOf(findings), files)
    requires ChainsSoFar(lower, findings, files, n, chains)
    requires IsChain(lower, findings, added) && added.file == files[n]
    ensures ChainsSoFar(lower, findings, files, n + 1, chains + [added])
  {
    FilesGrow(chains, added, files[..n]);
    MentionOrderGrows(KeysOf(findings), files, n, FilesOf(chains));
    assert files[..n + 1] == files[..n] + [files[n]];
    forall c | c in chains + [added] ensures c.file in files[..n + 1] && IsChain(lower, findings, c) {
      assert c in chains || c == added;
    }
  }

  lemma FileIsSkipped(lower: string -> string, findings: seq<Finding>, files: seq<File>, n: nat, chains: seq<Chain>)
    requires n < |files| && ChainsSoFar(lower, findings, files, n, chains)
    requires !TwiceExposed(lower, findings, files[n])
    ensures ChainsSoFar(lower, findings, files, n + 1, chains)
  {
    assert files[..n + 1] == files[..n] + [files[n]];
  }

  lemma FilesGrow(chains: seq<Chain>, added: Chain, files: seq<File>)
    requires forall c :: c in chains ==> c.file in files
    ensures FilesOf(chains + [added]) == FilesOf(chains) + [added.file]
    ensures forall file :: file in FilesOf(chains) ==> file in files
  {
    forall i | 0 <= i < |chains| ensures FilesOf(chains)[i] in files {
      assert chains[i] in chains;
    }
  }

  lemma MentionOrderGrows(keys: seq<File>, files: seq<File>, n: nat, some: seq<File>)
    requires n < |files| && InOrderOfMention(keys, files) && InOrderOfMention(keys, some)
    requires forall file :: file in some ==> file in files[..n]
    ensures InOrderOfMention(keys, some + [files[n]])
  {
    forall i | 0 <= i < |some| ensures FirstAt(keys, some[i]) < FirstAt(keys, files[n]) {
      assert some[i] in files[..n];
    }
  }

  lemma ExposedIsMentioned(lower: string -> string, findings: seq<Finding>)
    ensures forall file, step :: Exposed(lower, findings, file, step) ==> FirstAt(KeysOf(findings), file) < |findings|
  {
    forall file, step | Exposed(lower, findings, file, step)
      ensures FirstAt(KeysOf(findings), file) < |findings|
    {
      var k :| 0 <= k < |findings| && FileKey(findings[k]) == file;
      assert KeysOf(findings)[k] == file;
    }
  }

  // ----- what that means for the report

  lemma {:induction false} AscendingIsUnique<T(!new)>(rank: T -> int, a: seq<T>, b: seq<T>)
    requires forall i, j :: 0 <= i < j < |a| ==> rank(a[i]) < rank(a[j])
    requires forall i, j :: 0 <= i < j < |b| ==> rank(b[i]) < rank(b[j])
    requires forall x :: x in a <==> x in b
    ensures a == b
  {
    assert |a| > 0 ==> a[0] in b;
    assert |b| > 0 ==> b[0] in a;
    if |a| > 0 && |b| > 0 {
      var a', b' := a[..|a| - 1], b[..|b| - 1];
      var x, y := a[|a| - 1], b[|b| - 1];
      assert x in b && y in a;
      assert rank(x) <= rank(y) <= rank(x);
      assert x == y && x !in a' && x !in b';
      assert a == a' + [x] && b == b' + [x];
      forall z ensures z in a' <==> z in b' {
        assert z in a' ==> z in a;
        assert z in b' ==> z in b;
      }
      AscendingIsUnique(rank, a', b');
    }
  }

  ghost predicate SameExposure(lower: string -> string, findings: seq<Finding>, findings': seq<Finding>) {
    forall file, step | file != NOWHERE ::
      Exposed(lower, findings, file, step) <==> Exposed(lower, findings', file, step)
  }

  /** The files that get a chain, and its steps, depend only on what each file is exposed to. */
  lemma SameExposureSameChains(lower: string -> string, findings: seq<Finding>, a: seq<Chain>,
                               findings': seq<Finding>, b: seq<Chain>)
    requires AreChains(lower, findings, a) && AreChains(lower, findings', b)
    requires SameExposure(lower, findings, findings')
    ensures forall c :: c in a <==> c in b
  {
    forall c ensures c in a <==> c in b {
      if c in a {
        ChainIsKept(lower, findings, c, findings', b);
      }
      if c in b {
        ChainIsKept(lower, findings', c, findings, a);
      }
    }
  }

  lemma ChainIsKept(lower: string -> string, findings: seq<Finding>, c: Chain,
                    findings': seq<Finding>, chains: seq<Chain>)
    requires IsChain(lower, findings, c) && AreChains(lower, findings', chains)
    requires SameExposure(lower, findings, findings')
    ensures c in chains
  {
    assert IsPath(lower, findings', c.file, c.steps);
    TwoStepsIffTwiceExposed(lower, findings', c.file, c.steps);
    var k :| 0 <= k < |chains| && FilesOf(chains)[k] == c.file;
    assert chains[k] in chains && chains[k].file == c.file;
    PathIsUnique(lower, findings', c.file, c.steps, chains[k].steps);
  }

  lemma PathIsUnique(lower: string -> string, findings: seq<Finding>, file: File, a: seq<Step>, b: seq<Step>)
    requires IsPath(lower, findings, file, a) && IsPath(lower, findings, file, b)
    ensures a == b
  {
    AscendingIsUnique((step: Step) => Rank(step), a, b);
  }

  /** Order and repetition of the findings only decide the order of the chains. */
  lemma FindingOrderDoesNotMatter(lower: string -> string, findings: seq<Finding>, a: seq<Chain>,
                                  findings': seq<Finding>, b: seq<Chain>)
    requires AreChains(lower, findings, a) && AreChains(lower, findings', b)
    requires forall f :: f in findings <==> f in findings'
    ensures forall c :: c in a <==> c in b
  {
    SameExposureSameChains(lower, findings, a, findings', b);
  }

  lemma FilesOfSameChains(a: seq<Chain>, b: seq<Chain>)
    requires forall c :: c in a ==> c in b
    ensures forall file :: file in FilesOf(a) ==> file in FilesOf(b)
  {
    forall file | file in FilesOf(a) ensures file in FilesOf(b) {
      var i :| 0 <= i < |a| && a[i].file == file;
      assert a[i] in a;
      var k :| 0 <= k < |b| && b[k] == a[i];
      assert FilesOf(b)[k] == file;
    }
  }

  /** Chains of findings that expose the same and mention files in the same order are the same. */
  lemma ChainsAreUnique(lower: string -> string, findings: seq<Finding>, a: seq<Chain>,
                        findings': seq<Finding>, b: seq<Chain>)
    requires AreChains(lower, findings, a) && AreChains(lower, findings', b)
    requires SameExposure(lower, findings, findings')
    requires InOrderOfMention(KeysOf(findings), FilesOf(b))
    ensures a == b
  {
    SameExposureSameChains(lower, findings, a, findings', b);
    FilesOfSameChains(a, b);
    FilesOfSameChains(b, a);
    var keys := KeysOf(findings);
    AscendingIsUnique((file: File) => FirstAt(keys, file), FilesOf(a), FilesOf(b));
    forall i | 0 <= i < |a| ensures a[i] == b[i] {
      assert a[i].file == FilesOf(a)[i] == FilesOf(b)[i] == b[i].file;
      assert a[i] in a && a[i] in b;
      var k :| 0 <= k < |b| && b[k] == a[i];
      assert FilesOf(b)[k] == FilesOf(b)[i];
    }
  }

  function Reported(chains: seq<Chain>): seq<Finding> {
    seq(|chains|, i requires 0 <= i < |chains| => Finding(CHAIN_TITLE, Some(chains[i].file.path)))
  }

  /** Every keyword has one of these letters; the title of a chain has none of them. */
  const TELLING_LETTERS := {'r', 'u', 'j', 'v', 'x', 's', 'l'}

  lemma KeywordsTell(step: Step, word: string)
    requires word in Keywords(step)
    ensures exists letter :: letter in word && letter in TELLING_LETTERS
  {
    match step
    case HarvestCredentials => assert word[1] == 'r';
    case BypassAuthentication => assert word[1] == 'u';
    case ExploitInjection => assert word[2] == 'j';
    case ExecuteCode => assert word[1] == 'v' || word[1] == 'x' || word[2] == 's';
    case EscalatePrivileges => assert word[1] == 'r';
    case PivotInternally => assert word[0] == 'l';
  }

  lemma UntellingOpensNothing(title: string, step: Step)
    requires forall letter :: letter in title ==> letter !in TELLING_LETTERS
    ensures !Opens(title, step)
  {
    forall word | word in Keywords(step) ensures !Contains(title, word) {
      KeywordsTell(step, word);
    }
  }

  lemma ReportedExposeNothing(lower: string -> string, findings: seq<Finding>, chains: seq<Chain>)
    requires lower(CHAIN_TITLE) == "chained attack path identified"
    ensures forall file, step ::
              Exposed(lower, findings, file, step) <==> Exposed(lower, findings + Reported(chains), file, step)
  {
    forall step ensures !Opens(lower(CHAIN_TITLE), step) {
      UntellingOpensNothing(lower(CHAIN_TITLE), step);
    }
  }

  lemma {:induction false} FirstAtInPrefix(keys: seq<File>, more: seq<File>, file: File)
    requires FirstAt(keys, file) < |keys|
    ensures FirstAt(keys + more, file) == FirstAt(keys, file)
  {
    assert (keys + more)[FirstAt(keys, file)] == file;
  }

  /** Chains reported as findings lead to no further chain and change none. */
  lemma ChainingTwiceAddsNothing(lower: string -> string, findings: seq<Finding>, chains: seq<Chain>, again: seq<Chain>)
    requires lower(CHAIN_TITLE) == "chained attack path identified"
    requires AreChains(lower, findings, chains) && AreChains(lower, findings + Reported(chains), again)
    ensures again == chains
  {
    var reported := Reported(chains);
    ReportedExposeNothing(lower, findings, chains);
    assert KeysOf(findings + reported) == KeysOf(findings) + KeysOf(reported);
    ExposedIsMentioned(lower, findings);
    forall i | 0 <= i < |again|
      ensures FirstAt(KeysOf(findings + reported), again[i].file) == FirstAt(KeysOf(findings), again[i].file)
    {
      assert IsChain(lower, findings + reported, again[i]);
      assert again[i].steps[0] in again[i].steps;
      FirstAtInPrefix(KeysOf(findings), KeysOf(reported), again[i].file);
    }
    ChainsAreUnique(lower, findings, chains, findings + reported, again);
  }
}
