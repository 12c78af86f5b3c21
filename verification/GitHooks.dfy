/** The Git pre-commit hook and the check of generated files.  Both read the index, work on
    a temporary copy, look again, and only then write, next to an editor and to other Git
    commands.  Blobs are named by their content, and a fingerprint by what it hashes. */
module GitHooks {
  import opened Wrappers
  import opened Text

  type Path = string
  type Blob = string

  datatype Entry = Entry(mode: string, content: Blob)

  type Index = map<Path, Entry>

  datatype File = Regular(content: Blob) | Symlink

  type Fingerprint = map<Path, Entry>

  // -------------------------------------------------------------- classification

  predicate Generated(p: Path) {
    HasSuffix(p, ".freezed.dart") || HasSuffix(p, ".g.dart")
  }

  predicate MobileInput(p: Path) {
    HasPrefix(p, "mobile/")
    && (HasSuffix(p, ".dart") || HasSuffix(p, ".yaml") || HasSuffix(p, ".lock") || p == "mobile/.fvmrc")
  }

  predicate FormatTarget(p: Path) {
    || ((HasPrefix(p, "mobile/lib/") || HasPrefix(p, "mobile/test/")) && HasSuffix(p, ".dart") && !Generated(p))
    || (HasPrefix(p, "server/") && !HasPrefix(p, "server/agent/") && HasSuffix(p, ".go"))
  }

  predicate UsesCodegen(index: Index) {
    || (exists p :: p in index && Generated(p))
    || ("mobile/pubspec.yaml" in index && Contains(index["mobile/pubspec.yaml"].content, "build_runner:"))
  }

  function FingerprintOf(index: Index): Fingerprint {
    map p | p in index && MobileInput(p) :: index[p]
  }

  /** `git diff --cached --name-only`. */
  function Changed(index: Index, head: Index): set<Path> {
    set p | p in index.Keys + head.Keys && !(p in index && p in head && index[p] == head[p])
  }

  /** The changed files that the hook formats. */
  function Targets(index: Index, head: Index): set<Path> {
    set p | p in Changed(index, head) && p in index && index[p].mode != "160000" && FormatTarget(p)
  }

  predicate NeedsVerification(index: Index, changes: set<Path>) {
    && (UsesCodegen(index) || exists p :: p in changes && Generated(p))
    && exists p :: p in changes && MobileInput(p)
  }

  // ------------------------------------------------------- what the hook may do

  /** The index with the formatter's output for every target: same paths, same modes. */
  function Formatted(index: Index, head: Index, format: (Path, Blob) -> Blob): (r: Index)
    ensures r.Keys == index.Keys
    ensures forall p :: p in index ==> r[p].mode == index[p].mode
  {
    map p | p in index ::
      if p in Targets(index, head) then index[p].(content := format(p, index[p].content)) else index[p]
  }

  /** What is staged of the targets. */
  function TargetBlobs(index: Index, head: Index): map<Path, Blob> {
    map p | p in Targets(index, head) :: index[p].content
  }

  /** The targets whose formatted content differs from what is staged. */
  function Updates(index: Index, head: Index, format: (Path, Blob) -> Blob): map<Path, Blob> {
    map p | p in Targets(index, head) && format(p, index[p].content) != index[p].content :: format(p, index[p].content)
  }

  /** `git update-index`: the given paths get the new contents under their old modes. */
  function Restaged(index: Index, updates: map<Path, Blob>): Index {
    map p | p in index :: if p in updates then index[p].(content := updates[p]) else index[p]
  }

  lemma RestagingFormats(index: Index, head: Index, format: (Path, Blob) -> Blob)
    ensures Restaged(index, Updates(index, head, format)) == Formatted(index, head, format)
  {
  }

  ghost predicate Idempotent(format: (Path, Blob) -> Blob) {
    forall p, b :: format(p, format(p, b)) == format(p, b)
  }

  /** With an idempotent formatter a second run finds nothing to format, even if HEAD moved
      to a commit that leaves the same files changed. */
  lemma SecondRunHasNothingToDo(index: Index, head: Index, later: Index, format: (Path, Blob) -> Blob)
    requires Idempotent(format) && Changed(index, later) == Changed(index, head)
    ensures
      var once := Formatted(index, head, format);
      AllFormatted(once, later, format) && Formatted(once, later, format) == once
  {
    var once := Formatted(index, head, format);
    assert forall p :: p in index && p !in Targets(index, head) ==> once[p] == index[p];
    forall p | p in Targets(once, later)
      ensures p in Targets(index, head) && format(p, once[p].content) == once[p].content
    {
    }
    assert Formatted(once, later, format) == once;
  }

  /** Generated files under mobile/lib are themselves inputs of the fingerprint. */
  function GeneratedIn(inputs: Fingerprint): map<Path, Blob> {
    map p | p in inputs && HasPrefix(p, "mobile/lib/") && Generated(p) :: inputs[p].content
  }

  lemma GeneratedAreInputs(p: Path)
    requires HasPrefix(p, "mobile/lib/") && Generated(p)
    ensures MobileInput(p)
  {
    assert p[..7] == "mobile/" by { assert p[..11] == "mobile/lib/"; assert p[..7] == p[..11][..7]; }
    var suffix := if HasSuffix(p, ".g.dart") then ".g.dart" else ".freezed.dart";
    assert p[|p| - |suffix|..] == suffix;
    assert p[|p| - 5..] == p[|p| - |suffix|..][|suffix| - 5..] == ".dart";
  }

  /** So two indexes with one fingerprint hold the same generated files, of everything that
      the build reads or writes. */
  lemma FingerprintCoversGeneratedFiles(a: Index, b: Index, p: Path)
    requires FingerprintOf(a) == FingerprintOf(b) && HasPrefix(p, "mobile/lib/") && Generated(p)
    ensures p in a <==> p in b
    ensures p in a ==> a[p] == b[p]
  {
    GeneratedAreInputs(p);
    assert p in a <==> p in FingerprintOf(a);
    assert p in b <==> p in FingerprintOf(b);
    if p in a {
      assert a[p] == FingerprintOf(a)[p] == FingerprintOf(b)[p];
    }
  }

  // ----------------------------------------------- what the paths are, spelled

  /** A path that a build of the app reads. */
  ghost predicate SpelledInput(p: Path) {
    || Between(p, "mobile/", ".dart") || Between(p, "mobile/", ".yaml") || Between(p, "mobile/", ".lock")
    || p == "mobile/.fvmrc"
  }

  /** A path that a build writes. */
  ghost predicate SpelledGenerated(p: Path) {
    (exists m :: p == m + ".g.dart") || (exists m :: p == m + ".freezed.dart")
  }

  /** A path whose files are formatted. */
  ghost predicate SpelledTarget(p: Path) {
    || ((Between(p, "mobile/lib/", ".dart") || Between(p, "mobile/test/", ".dart")) && !SpelledGenerated(p))
    || (Between(p, "server/", ".go") && !exists m :: p == "server/agent/" + m)
  }

  /** A prefix that ends with a slash and a suffix that begins with a dot do not overlap. */
  lemma Apart(p: Path, prefix: string, suffix: string)
    requires suffix != "" && suffix[0] == '.' && '.' !in prefix
    ensures HasPrefix(p, prefix) && HasSuffix(p, suffix) <==> Between(p, prefix, suffix)
  {
    BetweenIff(p, prefix, suffix);
    if HasPrefix(p, prefix) && HasSuffix(p, suffix) {
      var k := |p| - |suffix|;
      assert p[k] == p[k..][0] == '.';
      assert forall i :: 0 <= i < |prefix| ==> p[i] == p[..|prefix|][i] == prefix[i];
      assert k >= |prefix|;
    }
  }

  lemma InputsAreSpelled(p: Path)
    ensures MobileInput(p) <==> SpelledInput(p)
  {
    Apart(p, "mobile/", ".dart");
    Apart(p, "mobile/", ".yaml");
    Apart(p, "mobile/", ".lock");
    assert "mobile/.fvmrc"[..7] == "mobile/";
  }

  lemma GeneratedAreSpelled(p: Path)
    ensures Generated(p) <==> SpelledGenerated(p)
  {
    SuffixIff(p, ".g.dart");
    SuffixIff(p, ".freezed.dart");
  }

  lemma TargetsAreSpelled(p: Path)
    ensures FormatTarget(p) <==> SpelledTarget(p)
  {
    GeneratedAreSpelled(p);
    Apart(p, "mobile/lib/", ".dart");
    Apart(p, "mobile/test/", ".dart");
    Apart(p, "server/", ".go");
    PrefixIff(p, "server/agent/");
  }

  /** Which staged files the hook formats: those that differ from HEAD, are no submodules, and
      lie where the app's or the server's own sources do. */
  lemma WhatIsFormatted(index: Index, head: Index, format: (Path, Blob) -> Blob, p: Path)
    requires p in index
    ensures Formatted(index, head, format)[p].content
         == if SpelledTarget(p) && !(p in head && head[p] == index[p]) && index[p].mode != "160000"
            then format(p, index[p].content) else index[p].content
  {
    TargetsAreSpelled(p);
  }

  /** Staged, and to be formatted: what differs from HEAD where the sources lie. */
  ghost predicate SpelledChange(index: Index, head: Index, p: Path) {
    && p in index && SpelledTarget(p) && index[p].mode != "160000"
    && !(p in head && head[p] == index[p])
  }

  lemma ChangesAreTargets(index: Index, head: Index, p: Path)
    ensures SpelledChange(index, head, p) <==> p in Targets(index, head)
  {
    TargetsAreSpelled(p);
  }

  /** If a run got past writing, what the formatter changes of such a file is written. */
  lemma PassedRunsWrite(index: Index, head: Index, format: (Path, Blob) -> Blob, writes: seq<Write>, p: Path)
    requires p in index && WritesAll(writes, Updates(index, head, format))
    ensures SpelledChange(index, head, p) && format(p, index[p].content) != index[p].content ==>
              exists w :: w in writes && w.path == p && w.content == format(p, index[p].content)
  {
    ChangesAreTargets(index, head, p);
    if SpelledChange(index, head, p) && format(p, index[p].content) != index[p].content {
      assert Wrote(writes, p, Updates(index, head, format)[p]);
    }
  }

  /** Before any write such a file was, at some moment after the formatters had ended, as it is
      staged. */
  lemma RunsLookAgain(index: Index, head: Index, writes: seq<Write>, moments: seq<map<Path, File>>, start: nat,
                      p: Path, w: Write)
    requires LookedAgain(moments, start, writes, TargetBlobs(index, head)) && w in writes
    requires SpelledChange(index, head, p)
    ensures exists k :: start <= k < w.at <= |moments| && p in moments[k] && moments[k][p] == Regular(index[p].content)
  {
    ChangesAreTargets(index, head, p);
    var before := moments[..w.at];
    assert SeenSince(before, start, p, TargetBlobs(index, head)[p]);
    var k :| start <= k < |before| && p in before[k] && before[k][p] == Regular(index[p].content);
    assert moments[k] == before[k];
  }

  /** And nothing else is written. */
  lemma OnlySuchAreWritten(index: Index, head: Index, format: (Path, Blob) -> Blob, writes: seq<Write>, w: Write)
    requires OnlyFormats(writes, index, head, format) && w in writes
    ensures SpelledChange(index, head, w.path) && w.content == format(w.path, index[w.path].content)
  {
    ChangesAreTargets(index, head, w.path);
  }

  /** Two indexes have one fingerprint exactly when they agree on every path that a build
      reads. */
  lemma FingerprintIff(a: Index, b: Index)
    ensures FingerprintOf(a) == FingerprintOf(b) <==>
              forall p :: SpelledInput(p) ==> (p in a <==> p in b) && (p in a ==> a[p] == b[p])
  {
    forall p: Path
      ensures MobileInput(p) <==> SpelledInput(p)
    {
      InputsAreSpelled(p);
    }
    if FingerprintOf(a) == FingerprintOf(b) {
      forall p | SpelledInput(p)
        ensures (p in a <==> p in b) && (p in a ==> a[p] == b[p])
      {
        assert p in FingerprintOf(a) <==> p in FingerprintOf(b);
        assert p in a ==> FingerprintOf(a)[p] == FingerprintOf(b)[p];
      }
    }
  }

  /** The index has generated files, or the app's pubspec names the builder. */
  ghost predicate SpelledCodegen(index: Index) {
    || (exists p :: p in index && SpelledGenerated(p))
    || ("mobile/pubspec.yaml" in index
        && exists before, after :: index["mobile/pubspec.yaml"].content == before + "build_runner:" + after)
  }

  lemma CodegenIsSpelled(index: Index)
    ensures UsesCodegen(index) <==> SpelledCodegen(index)
  {
    forall p: Path
      ensures Generated(p) <==> SpelledGenerated(p)
    {
      GeneratedAreSpelled(p);
    }
    if "mobile/pubspec.yaml" in index {
      ContainsIff(index["mobile/pubspec.yaml"].content, "build_runner:");
    }
  }

  /** When a commit needs a verification: it changes what a build reads, and the index, or the
      change, has to do with generated files. */
  lemma VerificationIsNeededIff(index: Index, changes: set<Path>)
    ensures NeedsVerification(index, changes) <==>
              && (exists p :: p in changes && SpelledInput(p))
              && (SpelledCodegen(index) || exists p :: p in changes && SpelledGenerated(p))
  {
    CodegenIsSpelled(index);
    forall p: Path
      ensures (Generated(p) <==> SpelledGenerated(p)) && (MobileInput(p) <==> SpelledInput(p))
    {
      GeneratedAreSpelled(p);
      InputsAreSpelled(p);
    }
  }

  /** The generated files are what the builder makes of these inputs. */
  ghost predicate Fresh(inputs: Fingerprint, build: Fingerprint -> map<Path, Blob>) {
    GeneratedIn(inputs) == build(inputs)
  }

  /** Which are all the generated files under mobile/lib, with their contents. */
  lemma FreshFiles(index: Index, build: Fingerprint -> map<Path, Blob>, m: string, p: Path)
    requires Fresh(FingerprintOf(index), build)
    requires p == "mobile/lib/" + m + ".g.dart" || p == "mobile/lib/" + m + ".freezed.dart"
    ensures p in index <==> p in build(FingerprintOf(index))
    ensures p in index ==> index[p].content == build(FingerprintOf(index))[p]
  {
    assert p[..11] == "mobile/lib/";
    assert p == ("mobile/lib/" + m) + ".g.dart" || p == ("mobile/lib/" + m) + ".freezed.dart";
    GeneratedAreSpelled(p);
    GeneratedAreInputs(p);
    assert p in index <==> p in GeneratedIn(FingerprintOf(index));
  }

  /** A write to a working file; `at` is the number of moments that had passed. */
  datatype Write = Write(path: Path, content: Blob, at: nat)

  /** What Git holds: the index, the paths in conflict, and HEAD. */
  datatype Staging = Staging(index: Index, unmerged: set<Path>, head: Index)

  /** An index that a hook has staged; `at` is the number of other Git states that had passed. */
  datatype Restage = Restage(index: Index, at: nat)

  /** At most one index was staged between the two logs, and it was this one. */
  predicate StagesAtMost(before: seq<Restage>, after: seq<Restage>, index: Index) {
    after == before || (|after| == |before| + 1 && after[..|before|] == before && after[|before|].index == index)
  }

  /** The newest entry of a log that is longer than n, or what there was before. */
  function NewestOr<T>(log: seq<T>, n: nat, before: T): T {
    if |log| <= n then before else log[|log| - 1]
  }

  /** The working files as others last left them, but for a hook's write since. */
  function FilesAfter(moments: seq<map<Path, File>>, written: seq<Write>): map<Path, File>
    requires moments != []
  {
    var last := moments[|moments| - 1];
    if written != [] && written[|written| - 1].at == |moments|
    then last[written[|written| - 1].path := Regular(written[|written| - 1].content)]
    else last
  }

  /** With no write in between, the working files are as others have left them since. */
  lemma NoWriteNoTrace(moments: seq<map<Path, File>>, later: seq<map<Path, File>>, written: seq<Write>)
    requires moments != [] && moments <= later && (written != [] ==> written[|written| - 1].at <= |moments|)
    ensures FilesAfter(later, written) == NewestOr(later, |moments|, FilesAfter(moments, written))
  {
  }

  /** With no restaging in between, so is what Git holds. */
  lemma NoRestageNoTrace(others: seq<Staging>, later: seq<Staging>, restaged: seq<Restage>)
    requires others != [] && others <= later && (restaged != [] ==> restaged[|restaged| - 1].at <= |others|)
    ensures StagingAfter(later, restaged) == NewestOr(later, |others|, StagingAfter(others, restaged))
  {
  }

  /** What Git holds as others last left it, but for an index that a hook has staged since. */
  function StagingAfter(others: seq<Staging>, restaged: seq<Restage>): Staging
    requires others != []
  {
    var last := others[|others| - 1];
    if restaged != [] && restaged[|restaged| - 1].at == |others|
    then last.(index := restaged[|restaged| - 1].index)
    else last
  }

  /** At one of the moments from `start` on, the file was regular and had this content. */
  predicate SeenSince(moments: seq<map<Path, File>>, start: nat, p: Path, content: Blob) {
    exists i :: start <= i < |moments| && p in moments[i] && moments[i][p] == Regular(content)
  }

  /** Each write puts the formatter's output, different from what is staged, into a target. */
  ghost predicate OnlyFormats(writes: seq<Write>, index: Index, head: Index, format: (Path, Blob) -> Blob) {
    forall w :: w in writes ==>
      w.path in Targets(index, head) && w.content == format(w.path, index[w.path].content) != index[w.path].content
  }

  predicate Wrote(writes: seq<Write>, p: Path, content: Blob) {
    exists w :: w in writes && w.path == p && w.content == content
  }

  /** The write loop on its way: all but the `rest` of the updates are written, after `start`. */
  ghost predicate UnderWay(writes: seq<Write>, updates: map<Path, Blob>, rest: set<Path>, start: nat, now: nat) {
    && rest <= updates.Keys && |writes| == |updates| - |rest|
    && (forall w :: w in writes ==>
          start <= w.at <= now && w.path in updates && w.content == updates[w.path])
    && (forall p :: p in updates.Keys - rest ==> Wrote(writes, p, updates[p]))
  }

  lemma OneMoreWritten(writes: seq<Write>, w: Write, updates: map<Path, Blob>, rest: set<Path>, start: nat,
                       before: nat, now: nat)
    requires UnderWay(writes, updates, rest, start, before) && start <= before <= now
    requires w.path in rest && w.content == updates[w.path] && start <= w.at <= now
    ensures UnderWay(writes + [w], updates, rest - {w.path}, start, now)
  {
    forall p | p in updates.Keys - (rest - {w.path})
      ensures Wrote(writes + [w], p, updates[p])
    {
      if p == w.path {
        assert (writes + [w])[|writes|] == w;
      } else {
        var v :| v in writes && v.path == p && v.content == updates[p];
        assert v in writes + [w];
      }
    }
  }

  lemma AllWritten(writes: seq<Write>, updates: map<Path, Blob>, start: nat, now: nat)
    requires UnderWay(writes, updates, {}, start, now)
    ensures WritesAll(writes, updates)
  {
    assert updates.Keys - {} == updates.Keys;
  }

  /** Each update is written; together with as many writes as updates: each one once. */
  ghost predicate WritesAll(writes: seq<Write>, updates: map<Path, Blob>) {
    |writes| == |updates| && forall p :: p in updates ==> Wrote(writes, p, updates[p])
  }

  /** At every moment from `start` on, the file was regular and had this content. */
  ghost predicate Steady(moments: seq<map<Path, File>>, start: nat, p: Path, content: Blob) {
    forall i :: start <= i < |moments| ==> p in moments[i] && moments[i][p] == Regular(content)
  }

  lemma SteadyBefore(moments: seq<map<Path, File>>, later: seq<map<Path, File>>, start: nat, p: Path, content: Blob)
    requires moments <= later && Steady(later, start, p, content)
    ensures Steady(moments, start, p, content)
  {
    assert forall i :: 0 <= i < |moments| ==> moments[i] == later[i];
  }

  /** Every one of these files was. */
  ghost predicate AllSeen(moments: seq<map<Path, File>>, start: nat, blobs: map<Path, Blob>) {
    forall p :: p in blobs ==> SeenSince(moments, start, p, blobs[p])
  }

  lemma StillSeen(moments: seq<map<Path, File>>, later: seq<map<Path, File>>, start: nat, earlier: nat,
                  blobs: map<Path, Blob>)
    requires moments <= later && earlier <= start && AllSeen(moments, start, blobs)
    ensures AllSeen(later, earlier, blobs)
  {
    forall p | p in blobs
      ensures SeenSince(later, earlier, p, blobs[p])
    {
      var i :| start <= i < |moments| && p in moments[i] && moments[i][p] == Regular(blobs[p]);
      assert later[i] == moments[i];
    }
  }

  lemma SeenNow(moments: seq<map<Path, File>>, start: nat, blobs: map<Path, Blob>, p: Path, content: Blob)
    requires start < |moments| && p in moments[|moments| - 1] && moments[|moments| - 1][p] == Regular(content)
    requires AllSeen(moments, start, blobs)
    ensures AllSeen(moments, start, blobs[p := content])
  {
  }

  /** Before each write every one of these files was seen with its content, at a moment from
      `start` on. */
  ghost predicate LookedAgain(moments: seq<map<Path, File>>, start: nat, writes: seq<Write>, blobs: map<Path, Blob>) {
    forall w :: w in writes ==> start <= w.at <= |moments| && AllSeen(moments[..w.at], start, blobs)
  }

  lemma LookedBefore(earlier: seq<map<Path, File>>, moments: seq<map<Path, File>>, start: nat, writes: seq<Write>,
                     blobs: map<Path, Blob>)
    requires earlier <= moments && start <= |earlier| && AllSeen(earlier, start, blobs)
    requires forall w :: w in writes ==> |earlier| <= w.at <= |moments|
    ensures LookedAgain(moments, start, writes, blobs)
  {
    forall w | w in writes
      ensures AllSeen(moments[..w.at], start, blobs)
    {
      assert earlier <= moments[..w.at];
      StillSeen(earlier, moments[..w.at], start, start, blobs);
    }
  }

  datatype Failure =
    | Stopped         // before the hook wrote anything
    | WriteFailed     // while writing working files or restaging
    | Unverified      // after restaging: no receipt for this mobile snapshot

  /** Why a verification did not pass; NotStarted: the index is unmerged, or the old receipt
      cannot be removed. */
  datatype CheckFailure = NotStarted | CheckFailed

  datatype Checked = NotApplicable | Verified

  /** The receipt after a verification; `removable`: Git answers and the old receipt can be
      removed; `passes`: the generated files turned out fresh and the index stayed. */
  function AfterVerify(receipt: Option<Fingerprint>, index: Index, unmerged: set<Path>, removable: bool,
                       passes: bool): Option<Fingerprint>
  {
    if unmerged != {} || !removable then receipt
    else if passes then Some(FingerprintOf(index))
    else None
  }

  /** Exactly when a verification that does not pass leaves no receipt. */
  lemma FailedRecheckIff(receipt: Option<Fingerprint>, index: Index, unmerged: set<Path>, removable: bool)
    ensures AfterVerify(receipt, index, unmerged, removable, false) == None
       <==> receipt == None || (unmerged == {} && removable)
  {
  }

  /** At an index with a conflict the older receipt stays, and a later commit may rest on it. */
  lemma UnmergedKeepsReceipt(index: Index, conflict: Path)
    ensures AfterVerify(Some(FingerprintOf(index)), index, {conflict}, true, false) == Some(FingerprintOf(index))
    ensures VouchedBy([VerifyPassed(index), VerifyNotStarted, CommitPassed(index, {})], 2, 0)
  {
  }

  /** The repository.  `unmerged` are the paths in conflict.  `written` and `restaged` log what
      the hooks did to working files and to the index; `moments` and `others` log the working
      files and what Git holds as editors and other commands left them; and `formattedAt` says
      how many moments had passed when the formatters last ended.  The program reads none of
      these logs. */
  class Repository {
    var index: Index
    var unmerged: set<Path>
    var head: Index
    var work: map<Path, File>
    var receipt: Option<Fingerprint>
    var written: seq<Write>
    ghost var restaged: seq<Restage>
    var moments: seq<map<Path, File>>
    var others: seq<Staging>
    var formattedAt: nat

    /** The logs account for every working file and for all that Git holds: nothing but others
        and the logged writes and restagings has made them what they are. */
    ghost predicate Accounted()
      reads this
    {
      && moments != [] && others != []
      && work == FilesAfter(moments, written)
      && Staging(index, unmerged, head) == StagingAfter(others, restaged)
      && (written != [] ==> written[|written| - 1].at <= |moments|)
      && (restaged != [] ==> restaged[|restaged| - 1].at <= |others|)
    }

    constructor (index: Index, head: Index, work: map<Path, File>)
      ensures Accounted() && receipt == None && unmerged == {}
      ensures this.index == index && this.head == head && this.work == work
    {
      this.index, this.unmerged, this.head, this.work := index, {}, head, work;
      receipt, written, restaged, formattedAt := None, [], [], 0;
      moments, others := [work], [Staging(index, {}, head)];
    }

    /** An editor may do anything to working files, at any time. */
    method EditorRuns()
      requires Accounted()
      modifies this`work, this`moments
      ensures Accounted() && moments == old(moments) + [work]
      ensures written != [] ==> written[|written| - 1].at < |moments|
    {
      work := *;
      moments := moments + [work];
    }

    /** While the hook only reads, other Git commands may run too. */
    method OthersRun()
      requires Accounted()
      modifies this`work, this`moments, this`index, this`unmerged, this`head, this`others
      ensures Accounted() && moments == old(moments) + [work]
      ensures others == old(others) + [Staging(index, unmerged, head)]
    {
      work, index, unmerged, head := *, *, *, *;
      moments := moments + [work];
      others := others + [Staging(index, unmerged, head)];
    }

    /** Somebody stages this. */
    method OthersStage(index: Index, unmerged: set<Path>, head: Index)
      requires Accounted()
      modifies this`index, this`unmerged, this`head, this`others
      ensures Accounted()
      ensures this.index == index && this.unmerged == unmerged && this.head == head
    {
      this.index, this.unmerged, this.head := index, unmerged, head;
      others := others + [Staging(index, unmerged, head)];
    }

    /** The formatters and the other tools run on a copy, and take their time. */
    method ToolsRun() returns (ok: bool)
      requires Accounted()
      modifies this`work, this`moments, this`index, this`unmerged, this`head, this`others, this`formattedAt
      ensures Accounted() && moments == old(moments) + [work]
      ensures old(others) <= others
      ensures formattedAt == |moments|
    {
      OthersRun();
      formattedAt := |moments|;
      ok := *;
    }

    /** A hook writes one working file, which no hook has written since others last ran. */
    method WriteFile(name: Path, content: Blob) returns (w: Write)
      requires Accounted() && (written != [] ==> written[|written| - 1].at < |moments|)
      modifies this`work, this`written
      ensures Accounted() && w == Write(name, content, |moments|) && written == old(written) + [w]
    {
      w := Write(name, content, |moments|);
      work := work[name := Regular(content)];
      written := written + [w];
    }

    /** The editor gets in before the write; and the write may fail, without effect. */
    method WriteNext(name: Path, content: Blob) returns (w: Option<Write>)
      requires Accounted()
      modifies this`work, this`moments, this`written
      ensures Accounted() && old(moments) <= moments
      ensures w.None? ==> written == old(written)
      ensures w.Some? ==> written == old(written) + [w.value] && w.value == Write(name, content, |moments|)
    {
      EditorRuns();
      if * {
        return None;
      }
      var done := WriteFile(name, content);
      return Some(done);
    }

    /** A hook stages the given contents under their old modes. */
    method StageContents(updates: map<Path, Blob>)
      requires Accounted()
      modifies this`index, this`restaged
      ensures Accounted() && index == Restaged(old(index), updates)
      ensures restaged == old(restaged) + [Restage(index, |others|)]
    {
      index := Restaged(index, updates);
      restaged := restaged + [Restage(index, |others|)];
    }

    /** Reads the targets; each must be a regular file that equals its staged blob. */
    method ReadOriginals(before: Index, targets: set<Path>) returns (originals: Option<map<Path, Blob>>)
      requires Accounted()
      requires targets <= before.Keys
      modifies this`work, this`moments, this`index, this`unmerged, this`head, this`others
      ensures Accounted() && old(others) <= others
      ensures old(moments) <= moments
      ensures originals.Some? ==> originals.value == map p | p in targets :: before[p].content
      ensures originals.Some? ==> AllSeen(moments, |old(moments)|, originals.value)
      ensures originals.Some? ==> forall p :: p in targets ==> before[p].mode in {"100644", "100755"}
    {
      var read: map<Path, Blob> := map[];
      var rest := targets;
      while rest != {}
        invariant Accounted() && old(others) <= others
        invariant rest <= targets && read.Keys == targets - rest
        invariant old(moments) <= moments && AllSeen(moments, |old(moments)|, read)
        invariant forall p :: p in read ==> read[p] == before[p].content && before[p].mode in {"100644", "100755"}
        decreases rest
      {
        ghost var earlier := moments;
        OthersRun();
        StillSeen(earlier, moments, |old(moments)|, |old(moments)|, read);
        var name :| name in rest;
        if name !in work || work[name].Symlink? || before[name].mode !in {"100644", "100755"} {
          return None;
        }
        if work[name].content != before[name].content {
          return None;
        }
        SeenNow(moments, |old(moments)|, read, name, work[name].content);
        read := read[name := work[name].content];
        rest := rest - {name};
      }
      return Some(read);
    }

    /** Looks at the working files once more, just before the write loop. */
    method Unedited(originals: map<Path, Blob>) returns (same: bool)
      requires Accounted()
      modifies this`work, this`moments
      ensures Accounted()
      ensures old(moments) <= moments
      ensures same ==> AllSeen(moments, |old(moments)|, originals)
    {
      var rest := originals.Keys;
      ghost var seen: map<Path, Blob> := map[];
      while rest != {}
        invariant Accounted() && rest <= originals.Keys && old(moments) <= moments
        invariant seen == originals - rest && AllSeen(moments, |old(moments)|, seen)
        decreases rest
      {
        ghost var earlier := moments;
        EditorRuns();
        StillSeen(earlier, moments, |old(moments)|, |old(moments)|, seen);
        var name :| name in rest;
        if name !in work || work[name] != Regular(originals[name]) {
          return false;
        }
        SeenNow(moments, |old(moments)|, seen, name, originals[name]);
        rest := rest - {name};
        seen := seen[name := originals[name]];
      }
      assert seen == originals;
      return true;
    }

    /** The tools run; then the index, and after it the working files, are looked at again. */
    method RunToolsAndRecheck(before: Index, changes: set<Path>, files: map<Path, Blob>) returns (ready: bool)
      requires Accounted()
      modifies this`work, this`moments, this`index, this`unmerged, this`head, this`others, this`formattedAt
      ensures Accounted() && old(others) <= others
      ensures old(moments) <= moments
      ensures |old(moments)| < formattedAt <= |moments|
      ensures ready ==> index == before && unmerged == {} && Changed(index, head) == changes
      ensures ready ==> AllSeen(moments, formattedAt, files)
    {
      var ok := ToolsRun();
      if !ok || unmerged != {} || index != before || Changed(index, head) != changes {
        return false;   // also: whitespace errors, a formatter, a syntax or lint check
      }
      ready := Unedited(files);
    }

    /** The first half of pre_commit: everything up to the last look at the working files.
        On success the index is the one read at the start, nothing has been written, and after
        the formatters ended every target was seen unedited once more. */
    method Prepare(format: (Path, Blob) -> Blob) returns (r: Result<map<Path, Blob>, Failure>)
      requires Accounted()
      modifies this`work, this`moments, this`index, this`unmerged, this`head, this`others, this`formattedAt
      ensures Accounted() && old(others) <= others
      ensures old(moments) <= moments
      ensures old(unmerged) != {} ==> r.Err?
      ensures r.Err? ==> r.error == Stopped
      ensures work == NewestOr(moments, |old(moments)|, old(work))
      ensures Staging(index, unmerged, head)
           == NewestOr(others, |old(others)|, Staging(old(index), old(unmerged), old(head)))
      ensures r.Ok? ==> index == old(index) && unmerged == {} && Changed(index, head) == Changed(index, old(head))
      ensures r.Ok? ==> r.value == Updates(old(index), old(head), format)
      ensures r.Ok? ==> |old(moments)| < formattedAt <= |moments|
      ensures r.Ok? ==> AllSeen(moments, formattedAt, TargetBlobs(old(index), old(head)))
    {
      r := Err(Stopped);
      if unmerged == {} {
        var before, changes, targets := index, Changed(index, head), Targets(index, head);
        var read := ReadOriginals(before, targets);
        if read.Some? {
          var originals := read.value;
          var ready := RunToolsAndRecheck(before, changes, originals);
          if ready {
            r := Ok(map p | p in targets && format(p, before[p].content) != originals[p]
                        :: format(p, before[p].content));
          }
        }
      }
      NoWriteNoTrace(old(moments), moments, written);
      NoRestageNoTrace(old(others), others, restaged);
    }

    /** The write loop; `writes` are its writes. */
    method WriteFiles(updates: map<Path, Blob>) returns (ok: bool, writes: seq<Write>)
      requires Accounted()
      modifies this`work, this`moments, this`written
      ensures Accounted()
      ensures old(moments) <= moments && written == old(written) + writes
      ensures forall w :: w in writes ==> |old(moments)| <= w.at <= |moments|
      ensures forall w :: w in writes ==> w.path in updates && w.content == updates[w.path]
      ensures ok ==> WritesAll(writes, updates)
      ensures updates == map[] ==> ok
    {
      writes := [];
      var rest := updates.Keys;
      while rest != {}
        invariant Accounted() && old(moments) <= moments && written == old(written) + writes
        invariant UnderWay(writes, updates, rest, |old(moments)|, |moments|)
        decreases rest
      {
        ghost var before := |moments|;
        var name :| name in rest;
        var w := WriteNext(name, updates[name]);
        if w.None? {
          return false, writes;
        }
        OneMoreWritten(writes, w.value, updates, rest, |old(moments)|, before, |moments|);
        writes := writes + [w.value];
        rest := rest - {name};
      }
      AllWritten(writes, updates, |old(moments)|, |moments|);
      return true, writes;
    }

    /** The write loop and the restaging of exactly the bytes that were formatted. */
    method Apply(updates: map<Path, Blob>) returns (r: Result<(), Failure>)
      requires Accounted()
      requires updates.Keys <= index.Keys
      modifies this`work, this`moments, this`index, this`written, this`restaged
      ensures Accounted()
      ensures old(moments) <= moments
      ensures r.Err? ==> r.error == WriteFailed && index == old(index) && restaged == old(restaged)
      ensures r.Ok? ==> index == Restaged(old(index), updates)
      ensures StagesAtMost(old(restaged), restaged, Restaged(old(index), updates))
      ensures updates == map[] ==> restaged == old(restaged)
      ensures old(written) <= written
      ensures forall w :: w in written[|old(written)|..] ==> |old(moments)| <= w.at <= |moments|
      ensures forall w :: w in written[|old(written)|..] ==> w.path in updates && w.content == updates[w.path]
      ensures r.Ok? ==> WritesAll(written[|old(written)|..], updates)
      ensures updates == map[] ==> r.Ok?
    {
      var ok, writes := WriteFiles(updates);
      assert written[|old(written)|..] == writes;
      if !ok {
        return Err(WriteFailed);
      }
      if updates != map[] {
        if * {
          return Err(WriteFailed);
        }
        StageContents(updates);
      }
      return Ok(());
    }

    /** The same, said of the formatter, once every target was seen after it had ended. */
    method ApplyFormatted(updates: map<Path, Blob>, ghost base: Index, format: (Path, Blob) -> Blob)
      returns (r: Result<(), Failure>)
      requires Accounted() && updates == Updates(index, base, format)
      requires formattedAt <= |moments| && AllSeen(moments, formattedAt, TargetBlobs(index, base))
      modifies this`work, this`moments, this`index, this`written, this`restaged
      ensures Accounted()
      ensures old(moments) <= moments && old(written) <= written
      ensures r.Err? ==> r.error == WriteFailed && index == old(index) && restaged == old(restaged)
      ensures r.Ok? ==> index == Formatted(old(index), base, format)
      ensures r.Ok? ==> WritesAll(written[|old(written)|..], Updates(old(index), base, format))
      ensures StagesAtMost(old(restaged), restaged, Formatted(old(index), base, format))
      ensures OnlyFormats(written[|old(written)|..], old(index), base, format)
      ensures LookedAgain(moments, formattedAt, written[|old(written)|..], TargetBlobs(old(index), base))
      ensures AllFormatted(old(index), base, format) ==> written == old(written) && restaged == old(restaged)
    {
      RestagingFormats(index, base, format);
      r := Apply(updates);
      LookedBefore(old(moments), moments, formattedAt, written[|old(written)|..], TargetBlobs(old(index), base));
      assert AllFormatted(old(index), base, format) ==> updates == map[];
    }

    /** The last check of pre_commit, on the index after restaging. */
    method ReceiptAllows(changes: set<Path>) returns (ok: bool)
      ensures ok <==> NeedsVerification(index, changes) ==> receipt == Some(FingerprintOf(index))
    {
      return !NeedsVerification(index, changes) || receipt == Some(FingerprintOf(index));
    }

    /** The second half of pre_commit: writing, restaging and the look at the receipt. */
    method WriteAndVerify(updates: map<Path, Blob>, ghost base: Index, format: (Path, Blob) -> Blob,
                          changes: set<Path>)
      returns (r: Result<(), Failure>)
      requires Accounted() && updates == Updates(index, base, format)
      requires formattedAt <= |moments| && AllSeen(moments, formattedAt, TargetBlobs(index, base))
      modifies this`work, this`moments, this`index, this`written, this`restaged
      ensures Accounted()
      ensures r != Err(Stopped) && old(moments) <= moments && old(written) <= written
      ensures r == Err(WriteFailed) ==> index == old(index) && restaged == old(restaged)
      ensures PastWriting(r) ==> index == Formatted(old(index), base, format)
      ensures PastWriting(r) ==> WritesAll(written[|old(written)|..], Updates(old(index), base, format))
      ensures PastWriting(r) ==>
                (r.Ok? <==> (NeedsVerification(index, changes) ==> receipt == Some(FingerprintOf(index))))
      ensures StagesAtMost(old(restaged), restaged, Formatted(old(index), base, format))
      ensures OnlyFormats(written[|old(written)|..], old(index), base, format)
      ensures LookedAgain(moments, formattedAt, written[|old(written)|..], TargetBlobs(old(index), base))
      ensures AllFormatted(old(index), base, format) ==> written == old(written) && restaged == old(restaged)
    {
      r := ApplyFormatted(updates, base, format);
      if r.Err? {
        return;
      }
      var allowed := ReceiptAllows(changes);
      if !allowed {
        return Err(Unverified);
      }
    }

    /** pre_commit.  Whatever the editor does, and whatever fails: every entry of the index is
        the old one, or keeps its mode and gets the formatter's output of the old blob; a
        failure before the write loop leaves no trace of the hook; nothing but formatted
        targets is ever written, and before each write every target was seen, after the
        formatters had ended, to be as it is staged; and a commit that needs generated files
        passes only with a receipt for the very inputs that are staged after formatting. */
    method PreCommit(format: (Path, Blob) -> Blob) returns (r: Result<(), Failure>)
      requires Accounted()
      modifies this`work, this`moments, this`index, this`unmerged, this`head, this`others, this`formattedAt
      modifies this`written, this`restaged
      ensures Accounted() && old(others) <= others
      ensures old(written) <= written
      ensures old(unmerged) != {} ==> r == Err(Stopped)
      ensures r == Err(Stopped) ==>
                && written == old(written) && restaged == old(restaged)
                && work == NewestOr(moments, |old(moments)|, old(work))
                && Staging(index, unmerged, head)
                == NewestOr(others, |old(others)|, Staging(old(index), old(unmerged), old(head)))
      ensures r == Err(WriteFailed) ==> index == old(index) && restaged == old(restaged)
      ensures PastWriting(r) ==> index == Formatted(old(index), old(head), format)
      ensures PastWriting(r) ==> Changed(old(index), head) == Changed(old(index), old(head))
      ensures PastWriting(r) ==>
                WritesAll(written[|old(written)|..], Updates(old(index), old(head), format))
      ensures PastWriting(r) ==>
                (r.Ok? <==> (NeedsVerification(index, Changed(old(index), old(head))) ==>
                               receipt == Some(FingerprintOf(index))))
      ensures old(moments) <= moments
      ensures r != Err(Stopped) ==> |old(moments)| < formattedAt
      ensures OnlyFormats(written[|old(written)|..], old(index), old(head), format)
      ensures LookedAgain(moments, formattedAt, written[|old(written)|..], TargetBlobs(old(index), old(head)))
      ensures StagesAtMost(old(restaged), restaged, Formatted(old(index), old(head), format))
      ensures AllFormatted(old(index), old(head), format) ==> written == old(written) && restaged == old(restaged)
    {
      var changes := Changed(index, head);
      ghost var base := head;
      var prepared := Prepare(format);
      if prepared.Err? {
        assert written[|old(written)|..] == [];
        return Err(prepared.error);
      }
      r := WriteAndVerify(prepared.value, base, format, changes);
    }

    /** verify_generated.  On a merged index it removes the old receipt, if it can, before
        anything else; it leaves a new one exactly when it succeeds, and then the generated
        files of the index it read are fresh. */
    method VerifyGenerated(build: Fingerprint -> map<Path, Blob>, removable: bool)
      returns (r: Result<Checked, CheckFailure>)
      requires Accounted()
      modifies this`work, this`moments, this`index, this`unmerged, this`head, this`others, this`receipt
      ensures Accounted() && old(others) <= others
      ensures work == NewestOr(moments, |old(moments)|, old(work))
      ensures Staging(index, unmerged, head)
           == NewestOr(others, |old(others)|, Staging(old(index), old(unmerged), old(head)))
      ensures receipt == AfterVerify(old(receipt), old(index), old(unmerged), removable, r == Ok(Verified))
      ensures r == Err(NotStarted) <==> old(unmerged) != {} || !removable
      ensures r == Ok(Verified) ==> index == old(index) && Fresh(FingerprintOf(old(index)), build)
      ensures r == Ok(NotApplicable) <==>
                old(unmerged) == {} && removable && !UsesCodegen(old(index))
                && GeneratedIn(FingerprintOf(old(index))) == map[]
    {
      if unmerged != {} || !removable {
        return Err(NotStarted);
      }
      var before := index;
      receipt := None;
      var inputs := FingerprintOf(before);
      var expected := GeneratedIn(inputs);
      if expected == map[] && !UsesCodegen(before) {
        return Ok(NotApplicable);
      }
      OthersRun();
      if * {
        return Err(CheckFailed);   // no SDK, packages or builder, or the build failed
      }
      var actual := build(inputs);
      if expected != actual {
        return Err(CheckFailed);
      }
      if unmerged != {} || index != before {
        return Err(CheckFailed);
      }
      receipt := Some(inputs);
      return Ok(Verified);
    }
  }

  ghost predicate AllFormatted(index: Index, head: Index, format: (Path, Blob) -> Blob) {
    forall p :: p in Targets(index, head) ==> format(p, index[p].content) == index[p].content
  }

  /** The run got as far as restaging. */
  predicate PastWriting(r: Result<(), Failure>) {
    r.Ok? || r.error == Unverified
  }

  /** A run that finds everything formatted writes and restages nothing. */
  method RunAgain(repo: Repository, format: (Path, Blob) -> Blob) returns (r: Result<(), Failure>)
    requires repo.Accounted()
    requires AllFormatted(repo.index, repo.head, format)
    requires Formatted(repo.index, repo.head, format) == repo.index
    modifies repo
    ensures repo.Accounted()
    ensures repo.written == old(repo.written) && repo.restaged == old(repo.restaged)
    ensures r != Err(Stopped) ==> repo.index == old(repo.index)
  {
    repo.EditorRuns();
    repo.receipt := *;   // a verification in between may have left one, or removed it
    r := repo.PreCommit(format);
    if r.Err? {
      match r.error
      case Stopped =>
      case WriteFailed =>
      case Unverified =>
    }
  }

  /** Two runs in a row, with an editor in between, the first one passed or stopped for want of a
      verification: with an idempotent formatter the second restages and writes nothing,
      whatever its verdict, so that both together write each file once and restage at most
      once. */
  method RunTwice(repo: Repository, format: (Path, Blob) -> Blob)
    returns (first: Result<(), Failure>, second: Result<(), Failure>)
    requires Idempotent(format) && repo.Accounted()
    modifies repo
    ensures old(repo.written) <= repo.written
    ensures PastWriting(first) ==>
              WritesAll(repo.written[|old(repo.written)|..], Updates(old(repo.index), old(repo.head), format))
    ensures repo.Accounted()
    ensures PastWriting(first) ==>
              StagesAtMost(old(repo.restaged), repo.restaged, Formatted(old(repo.index), old(repo.head), format))
    ensures PastWriting(first) && second != Err(Stopped) ==>
              repo.index == Formatted(old(repo.index), old(repo.head), format)
  {
    ghost var index0, head0 := repo.index, repo.head;
    first := repo.PreCommit(format);
    second := first;
    if PastWriting(first) {
      SecondRunHasNothingToDo(index0, head0, repo.head, format);
      second := RunAgain(repo, format);
    }
  }

  // ----------------------------------------------------- a working day's history

  datatype Action = Stage(index: Index, unmerged: set<Path>, head: Index) | Verify(removable: bool) | Commit

  datatype Logged =
    | Staged
    | VerifyPassed(index: Index)
    | VerifyFailed                                        // or not applicable
    | VerifyNotStarted                                    // an old receipt stays
    | CommitPassed(index: Index, changes: set<Path>)      // the index after formatting
    | CommitRefused(index: Index, changes: set<Path>)     // for want of a verification
    | CommitStopped                                       // for any other reason

  function StandingAfter(before: Option<Fingerprint>, entry: Logged): Option<Fingerprint> {
    match entry
    case VerifyPassed(index) => Some(FingerprintOf(index))
    case VerifyFailed => None
    case _ => before
  }

  /** The verification that still stands: the last one that read the index, if it passed. */
  function Standing(log: seq<Logged>): Option<Fingerprint> {
    if log == [] then None else StandingAfter(Standing(log[..|log| - 1]), log[|log| - 1])
  }

  /** Entry j is a passed verification of the same mobile inputs, and no later verification
      was made before entry i. */
  predicate VouchedBy(log: seq<Logged>, i: nat, j: nat) {
    && j < i < |log| && log[i].CommitPassed? && log[j].VerifyPassed?
    && FingerprintOf(log[j].index) == FingerprintOf(log[i].index)
    && forall k :: j < k < i ==> !log[k].VerifyPassed? && !log[k].VerifyFailed?
  }

  /** Every commit that needed generated files was vouched for, and its generated files are
      what the builder makes of its inputs. */
  ghost predicate OnlyVerifiedCommits(log: seq<Logged>, build: Fingerprint -> map<Path, Blob>) {
    forall i: nat :: i < |log| && log[i].CommitPassed? && NeedsVerification(log[i].index, log[i].changes) ==>
      && Fresh(FingerprintOf(log[i].index), build)
      && exists j: nat :: VouchedBy(log, i, j)
  }

  /** Every commit that was refused for want of a verification needed one, and none stood for
      the mobile inputs that it had staged. */
  predicate RefusedAt(log: seq<Logged>, i: nat)
    requires i < |log|
  {
    log[i].CommitRefused? ==>
      NeedsVerification(log[i].index, log[i].changes) && Standing(log[..i]) != Some(FingerprintOf(log[i].index))
  }

  predicate OnlyUnverifiedRefused(log: seq<Logged>) {
    forall i: nat :: i < |log| ==> RefusedAt(log, i)
  }

  lemma OneMoreRefused(log: seq<Logged>, entry: Logged)
    requires OnlyUnverifiedRefused(log)
    requires entry.CommitRefused? ==>
               NeedsVerification(entry.index, entry.changes) && Standing(log) != Some(FingerprintOf(entry.index))
    ensures OnlyUnverifiedRefused(log + [entry])
  {
    var all := log + [entry];
    assert all[..|log|] == log;
    forall i: nat | i < |all|
      ensures RefusedAt(all, i)
    {
      if i < |log| {
        assert all[..i] == log[..i] && all[i] == log[i];
        assert RefusedAt(log, i);
      }
    }
  }

  lemma {:induction false} StandingIsVouched(log: seq<Logged>, entry: Logged)
    requires entry.CommitPassed? && Standing(log) == Some(FingerprintOf(entry.index))
    ensures exists j: nat :: VouchedBy(log + [entry], |log|, j)
    decreases |log|
  {
    var n := |log| - 1;
    var all := log + [entry];
    if log[n].VerifyPassed? {
      assert VouchedBy(all, |log|, n);
    } else {
      StandingIsVouched(log[..n], entry);
      var shorter := log[..n] + [entry];
      var j: nat :| VouchedBy(shorter, n, j);
      assert forall k :: 0 <= k < n ==> all[k] == shorter[k];
      assert VouchedBy(all, |log|, j);
    }
  }

  lemma VouchedStays(log: seq<Logged>, entry: Logged, i: nat, j: nat)
    requires VouchedBy(log, i, j)
    ensures VouchedBy(log + [entry], i, j)
  {
    assert forall k :: 0 <= k < |log| ==> (log + [entry])[k] == log[k];
  }

  lemma LogGrows(log: seq<Logged>, entry: Logged, build: Fingerprint -> map<Path, Blob>)
    requires OnlyVerifiedCommits(log, build)
    requires entry.CommitPassed? && NeedsVerification(entry.index, entry.changes) ==>
               Standing(log) == Some(FingerprintOf(entry.index)) && Fresh(FingerprintOf(entry.index), build)
    ensures OnlyVerifiedCommits(log + [entry], build)
  {
    var all := log + [entry];
    forall i: nat | i < |all| && all[i].CommitPassed? && NeedsVerification(all[i].index, all[i].changes)
      ensures Fresh(FingerprintOf(all[i].index), build) && exists j: nat :: VouchedBy(all, i, j)
    {
      if i < |log| {
        assert all[i] == log[i];
        var j: nat :| VouchedBy(log, i, j);
        VouchedStays(log, entry, i, j);
      } else {
        StandingIsVouched(log, entry);
      }
    }
  }

  predicate EntryOf(entry: Logged, action: Action) {
    match action
    case Stage(_, _, _) => entry.Staged?
    case Verify(_) => entry.VerifyPassed? || entry.VerifyFailed? || entry.VerifyNotStarted?
    case Commit => entry.CommitPassed? || entry.CommitRefused? || entry.CommitStopped?
  }

  /** The entry of a commit tells the hook's verdict. */
  predicate Verdict(entry: Logged, r: Result<(), Failure>) {
    && (entry.CommitPassed? <==> r.Ok?)
    && (entry.CommitRefused? <==> r == Err(Unverified))
    && (entry.CommitStopped? <==> r.Err? && r.error != Unverified)
  }

  /** One action: what it does to the receipt is what it does to the standing verification; and
      a commit, whose verdict is also answered, is judged by that. */
  method Act(repo: Repository, action: Action, format: (Path, Blob) -> Blob, build: Fingerprint -> map<Path, Blob>)
    returns (entry: Logged, commit: Option<Result<(), Failure>>)
    requires repo.Accounted()
    requires repo.receipt.Some? ==> Fresh(repo.receipt.value, build)
    modifies repo
    ensures repo.Accounted()
    ensures repo.receipt == StandingAfter(old(repo.receipt), entry)
    ensures repo.receipt.Some? ==> Fresh(repo.receipt.value, build)
    ensures EntryOf(entry, action) && (entry.VerifyPassed? ==> entry.index == old(repo.index))
    ensures commit.Some? <==> action.Commit?
    ensures commit.Some? ==> Verdict(entry, commit.value)
    ensures entry.CommitPassed? || entry.CommitRefused? ==>
              && entry.index == repo.index == Formatted(old(repo.index), old(repo.head), format)
              && entry.changes == Changed(old(repo.index), old(repo.head))
    ensures entry.CommitPassed? && NeedsVerification(entry.index, entry.changes) ==>
              old(repo.receipt) == Some(FingerprintOf(entry.index))
    ensures entry.CommitRefused? ==>
              NeedsVerification(entry.index, entry.changes) && old(repo.receipt) != Some(FingerprintOf(entry.index))
    ensures entry.CommitStopped? ==> repo.restaged == old(repo.restaged)
    ensures commit == Some(Err(Stopped)) ==> repo.written == old(repo.written)
    ensures !action.Commit? ==> repo.written == old(repo.written) && repo.restaged == old(repo.restaged)
  {
    commit := None;
    match action {
      case Stage(index, unmerged, head) =>
        repo.OthersStage(index, unmerged, head);
        entry := Staged;
      case Verify(removable) =>
        var before := repo.index;
        var r := repo.VerifyGenerated(build, removable);
        entry := match r
                 case Ok(Verified) => VerifyPassed(before)
                 case Ok(NotApplicable) => VerifyFailed
                 case Err(NotStarted) => VerifyNotStarted
                 case Err(CheckFailed) => VerifyFailed;
      case Commit =>
        var changes := Changed(repo.index, repo.head);
        var r := repo.PreCommit(format);
        commit := Some(r);
        entry := match r
                 case Ok(_) => CommitPassed(repo.index, changes)
                 case Err(Unverified) => CommitRefused(repo.index, changes)
                 case Err(Stopped) => CommitStopped
                 case Err(WriteFailed) => CommitStopped;
    }
  }

  /** Any sequence of staging, verifying and committing, from a repository without a receipt:
      a commit that needs generated files passes only on the strength of the last
      verification that got as far as the index, and that one passed on the same mobile
      inputs; a failed one takes the older receipt with it; and a commit is refused as
      unverified only where none stands for its inputs. */
  method Day(repo: Repository, actions: seq<Action>, format: (Path, Blob) -> Blob,
             build: Fingerprint -> map<Path, Blob>)
    returns (log: seq<Logged>)
    requires repo.receipt == None && repo.Accounted()
    modifies repo
    ensures |log| == |actions| && forall i :: 0 <= i < |log| ==> EntryOf(log[i], actions[i])
    ensures repo.Accounted() && repo.receipt == Standing(log)
    ensures OnlyVerifiedCommits(log, build) && OnlyUnverifiedRefused(log)
  {
    log := [];
    for i := 0 to |actions|
      invariant |log| == i && forall k :: 0 <= k < i ==> EntryOf(log[k], actions[k])
      invariant repo.Accounted() && repo.receipt == Standing(log)
      invariant repo.receipt.Some? ==> Fresh(repo.receipt.value, build)
      invariant OnlyVerifiedCommits(log, build) && OnlyUnverifiedRefused(log)
    {
      var entry, commit := Act(repo, actions[i], format, build);
      LogGrows(log, entry, build);
      OneMoreRefused(log, entry);
      assert (log + [entry])[..|log|] == log;
      log := log + [entry];
    }
  }

  /** So in the log of a day a passed commit that changed what a build of the app reads, of an
      index that uses code generation, rests on a verification that passed on an index with
      the same such files; and they are what the builder makes. */
  lemma MobileCommitsAreVouched(log: seq<Logged>, build: Fingerprint -> map<Path, Blob>, i: nat, p: Path)
    requires OnlyVerifiedCommits(log, build) && i < |log| && log[i].CommitPassed?
    requires p in log[i].changes && SpelledInput(p)
    requires SpelledCodegen(log[i].index) || exists q :: q in log[i].changes && SpelledGenerated(q)
    ensures exists j: nat ::
              && VouchedBy(log, i, j)
              && forall q :: SpelledInput(q) ==>
                   && (q in log[j].index <==> q in log[i].index)
                   && (q in log[i].index ==> log[j].index[q] == log[i].index[q])
    ensures Fresh(FingerprintOf(log[i].index), build)
  {
    VerificationIsNeededIff(log[i].index, log[i].changes);
    var j: nat :| VouchedBy(log, i, j);
    FingerprintIff(log[j].index, log[i].index);
  }

  /** What that lets through: with a receipt for the formatted index, a re-check that fails on a
      conflict, and the conflict resolved to the same index, the commit is not refused for want
      of a verification. */
  method CommitOnOldReceipt(repo: Repository, index: Index, head: Index, conflict: Path,
                            format: (Path, Blob) -> Blob, build: Fingerprint -> map<Path, Blob>)
    returns (check: Result<Checked, CheckFailure>, commit: Result<(), Failure>)
    requires repo.Accounted() && repo.receipt == Some(FingerprintOf(Formatted(index, head, format)))
    modifies repo
    ensures check == Err(NotStarted) && commit != Err(Unverified)
    ensures commit.Ok? ==> repo.index == Formatted(index, head, format)
  {
    repo.OthersStage(index, {conflict}, head);
    check := repo.VerifyGenerated(build, true);
    repo.OthersStage(index, {}, head);
    commit := repo.PreCommit(format);
  }
}
