/** The formatting hooks of an agent's turn: `capture` notes the working files when a prompt is
    submitted, `finish` formats what changed since, when the turn stops.  Editors and Git
    commands run alongside.  Digests are named by what they hash. */
module CodexHooks {
  import opened Wrappers
  import opened GitHooks

  /** The baseline file of a turn; Broken: it was created but not written. */
  datatype Baseline = Taken(files: map<Path, Blob>) | Broken

  datatype Skipped = Skipped(staged: set<Path>)

  /** A file that the turn changed: not there at the baseline, or with another content. */
  predicate ChangedSince(baseline: map<Path, Blob>, p: Path, content: Blob) {
    p in baseline ==> baseline[p] != content
  }

  /** The files of a baseline that was taken. */
  function FilesOf(baseline: Option<Baseline>): map<Path, Blob> {
    if baseline.Some? && baseline.value.Taken? then baseline.value.files else map[]
  }

  /** What the hook may write, given what it read: changed since the baseline, not staged. */
  function Selected(baseline: map<Path, Blob>, seen: map<Path, Blob>, staged: set<Path>): map<Path, Blob> {
    map p | p in seen && ChangedSince(baseline, p, seen[p]) && p !in staged :: seen[p]
  }

  /** The changed files that are left to the pre-commit hook. */
  function SkippedFiles(baseline: map<Path, Blob>, seen: map<Path, Blob>, staged: set<Path>): set<Path> {
    set p | p in seen && ChangedSince(baseline, p, seen[p]) && p in staged
  }

  /** The report of one `finish`: the writes it made, what it had read before, and how many
      moments had passed when its formatters ended. */
  datatype Report = Report(ok: bool, writes: seq<Write>, seen: map<Path, Blob>, staged: set<Path>, formattedAt: nat)

  /** What the formatter changes, and into what. */
  function FormatChanges(files: map<Path, Blob>, format: (Path, Blob) -> Blob): map<Path, Blob> {
    map p | p in files && format(p, files[p]) != files[p] :: format(p, files[p])
  }

  /** Every selected file that the formatter changes was written, once. */
  ghost predicate Complete(r: Report, baseline: map<Path, Blob>, format: (Path, Blob) -> Blob) {
    WritesAll(r.writes, FormatChanges(Selected(baseline, r.seen, r.staged), format))
  }

  /** Every write is the formatter's output for a file that was read as changed since the
      baseline and is not staged. */
  ghost predicate Proper(r: Report, baseline: map<Path, Blob>, format: (Path, Blob) -> Blob) {
    var changed := FormatChanges(Selected(baseline, r.seen, r.staged), format);
    forall w :: w in r.writes ==> w.path in changed && w.content == changed[w.path]
  }

  /** A report tells of files that are formatted, of proper writes only, and of all of them if it
      tells of success; and before each write every selected file was seen, after the formatters
      had ended, to be what had been read. */
  ghost predicate Sound(r: Report, baseline: Option<Baseline>, moments: seq<map<Path, File>>,
                        format: (Path, Blob) -> Blob)
  {
    && (forall p :: p in r.seen ==> FormatTarget(p))
    && Proper(r, FilesOf(baseline), format)
    && (r.writes != [] || r.ok ==> baseline.Some? && baseline.value.Taken?)
    && (r.ok ==> Complete(r, FilesOf(baseline), format))
    && LookedAgain(moments, r.formattedAt, r.writes, Selected(FilesOf(baseline), r.seen, r.staged))
  }

  /** What a finish answers, given what Git held when it began: the files that a report calls
      staged, if it wrote anything or succeeded, are those staged then; at a conflict, and
      after every failure before the write loop, nothing was written; and success names the
      changed files that are left to the pre-commit hook. */
  predicate Told(answer: Result<Skipped, Failure>, r: Report, baseline: Option<Baseline>, git: Staging) {
    && (r.ok <==> answer.Ok?)
    && (r.writes != [] || r.ok ==> r.staged == Changed(git.index, git.head))
    && (answer == Err(Stopped) ==> r.writes == [])
    && (git.unmerged != {} ==> answer == Err(Stopped))
    && (answer.Ok? ==> answer.value.staged == SkippedFiles(FilesOf(baseline), r.seen, r.staged))
  }

  /** What was read holds every format target that kept one content from `start` on. */
  ghost predicate Covers(files: map<Path, Blob>, moments: seq<map<Path, File>>, start: nat, ignored: Path -> bool) {
    forall p, content :: FormatTarget(p) && !ignored(p) && Steady(moments, start, p, content) ==>
      p in files && files[p] == content
  }

  lemma StillCovers(files: map<Path, Blob>, moments: seq<map<Path, File>>, later: seq<map<Path, File>>, start: nat,
                    ignored: Path -> bool)
    requires moments <= later && Covers(files, moments, start, ignored)
    ensures Covers(files, later, start, ignored)
  {
    forall p, content | FormatTarget(p) && !ignored(p) && Steady(later, start, p, content)
      ensures p in files && files[p] == content
    {
      SteadyBefore(moments, later, start, p, content);
    }
  }

  /** A file that kept one content since the baseline was taken does not count as changed, and
      is not written. */
  lemma SteadyIsNotWritten(r: Report, baseline: map<Path, Blob>, moments: seq<map<Path, File>>, taken: nat, began: nat,
                           ignored: Path -> bool, format: (Path, Blob) -> Blob, p: Path, content: Blob)
    requires Proper(r, baseline, format) && AllSeen(moments, began, r.seen) && taken <= began
    requires Covers(baseline, moments, taken, ignored)
    requires FormatTarget(p) && !ignored(p) && Steady(moments, taken, p, content)
    ensures forall w :: w in r.writes ==> w.path != p
  {
    if p in r.seen {
      assert SeenSince(moments, began, p, r.seen[p]);
      assert r.seen[p] == content;
    }
  }

  class Workspace {
    const repo: Repository
    var baseline: Option<Baseline>    // the state file of the turn

    constructor (repo: Repository)
      ensures this.repo == repo && baseline == None
    {
      this.repo, baseline := repo, None;
    }

    /** working_files: the format targets that are regular files, each read at its own moment;
        none that stays the same meanwhile is missed. */
    method WorkingFiles(ignored: Path -> bool) returns (files: Option<map<Path, Blob>>)
      requires repo.Accounted()
      modifies repo`work, repo`moments, repo`index, repo`unmerged, repo`head, repo`others
      ensures repo.Accounted() && old(repo.moments) <= repo.moments && old(repo.others) <= repo.others
      ensures files.Some? ==> forall p :: p in files.value ==> FormatTarget(p)
      ensures files.Some? ==> AllSeen(repo.moments, |old(repo.moments)|, files.value)
      ensures files.Some? ==> Covers(files.value, repo.moments, |old(repo.moments)|, ignored)
    {
      repo.OthersRun();
      var names := repo.index.Keys + set p | p in repo.work && !ignored(p);
      var listed := set p | p in names && FormatTarget(p);
      var read := ReadListed(listed);
      forall p, content | FormatTarget(p) && !ignored(p) && Steady(repo.moments, |old(repo.moments)|, p, content)
        ensures p in read && read[p] == content
      {
        assert p in repo.moments[|old(repo.moments)|];
        assert Steady(repo.moments, |old(repo.moments)| + 1, p, content);
      }
      if * {
        return None;   // a file vanished while it was read, or Git failed
      }
      return Some(read);
    }

    /** Reads the listed files that are regular, one by one. */
    method ReadListed(listed: set<Path>) returns (read: map<Path, Blob>)
      requires repo.Accounted()
      modifies repo`work, repo`moments, repo`index, repo`unmerged, repo`head, repo`others
      ensures repo.Accounted() && old(repo.moments) <= repo.moments && old(repo.others) <= repo.others
      ensures read.Keys <= listed && AllSeen(repo.moments, |old(repo.moments)|, read)
      ensures forall p, content :: p in listed && Steady(repo.moments, |old(repo.moments)|, p, content) ==>
                p in read && read[p] == content
    {
      read := map[];
      var rest := listed;
      while rest != {}
        invariant repo.Accounted() && old(repo.moments) <= repo.moments && old(repo.others) <= repo.others
        invariant rest <= listed && read.Keys <= listed - rest
        invariant AllSeen(repo.moments, |old(repo.moments)|, read)
        invariant forall p, content :: p in listed - rest && Steady(repo.moments, |old(repo.moments)|, p, content) ==>
                    p in read && read[p] == content
        decreases rest
      {
        ghost var earlier := repo.moments;
        repo.OthersRun();
        StillSeen(earlier, repo.moments, |old(repo.moments)|, |old(repo.moments)|, read);
        forall p, content | p in listed - rest && Steady(repo.moments, |old(repo.moments)|, p, content)
          ensures p in read && read[p] == content
        {
          SteadyBefore(earlier, repo.moments, |old(repo.moments)|, p, content);
        }
        var name :| name in rest;
        rest := rest - {name};
        assert repo.moments[|earlier|] == repo.work;
        if name in repo.work && repo.work[name].Regular? {
          SeenNow(repo.moments, |old(repo.moments)|, read, name, repo.work[name].content);
          read := read[name := repo.work[name].content];
        }
      }
    }

    /** capture: a baseline that exists is never replaced; a new one holds what was read. */
    method Capture(ignored: Path -> bool) returns (made: Option<Baseline>)
      requires repo.Accounted()
      modifies repo`work, repo`moments, repo`index, repo`unmerged, repo`head, repo`others, this`baseline
      ensures repo.Accounted() && old(repo.moments) <= repo.moments && old(repo.others) <= repo.others
      ensures old(baseline).None? && made.Some? && made.value.Taken? ==>
                && AllSeen(repo.moments, |old(repo.moments)|, made.value.files)
                && Covers(made.value.files, repo.moments, |old(repo.moments)|, ignored)
      ensures baseline == if old(baseline).Some? then old(baseline) else made
    {
      if * {
        return baseline;   // no ids in the payload, or the state directory is out of reach
      }
      if baseline.Some? {
        return baseline;
      }
      baseline := Some(Broken);
      var files := WorkingFiles(ignored);
      if files.Some? {
        baseline := Some(Taken(files.value));
      }
      return baseline;
    }

    /** finish: the index stays what others make of it; a failure before the write loop
        applies nothing; the baseline goes only when everything was applied; without a
        baseline nothing happens; and no write is made before every selected file was looked
        at once more after the formatters. */
    method Finish(ignored: Path -> bool, format: (Path, Blob) -> Blob)
      returns (r: Result<Skipped, Failure>, report: Report)
      requires repo.Accounted()
      modifies repo`work, repo`moments, repo`index, repo`unmerged, repo`head, repo`others, repo`formattedAt
      modifies repo`written, this`baseline
      ensures repo.Accounted() && old(repo.moments) <= repo.moments && old(repo.others) <= repo.others
      ensures repo.written == old(repo.written) + report.writes
      ensures Sound(report, old(baseline), repo.moments, format)
      ensures report.writes != [] ==> report.formattedAt == repo.formattedAt > |old(repo.moments)|
      ensures AllSeen(repo.moments, |old(repo.moments)|, report.seen)
      ensures report.writes != [] || r.Ok? ==> Covers(report.seen, repo.moments, |old(repo.moments)|, ignored)
      ensures Told(r, report, old(baseline), Staging(old(repo.index), old(repo.unmerged), old(repo.head)))
      ensures r == Err(Stopped) ==> repo.work == NewestOr(repo.moments, |old(repo.moments)|, old(repo.work))
      ensures r.Ok? ==> repo.index == old(repo.index)
      ensures baseline == if r.Ok? then None else old(baseline)
    {
      report := Report(false, [], map[], {}, 0);
      if baseline.None? || baseline.value.Broken? {
        return Err(Stopped), report;
      }
      var before := baseline.value.files;
      r, report := FormatChanged(before, ignored, format);
      if r.Ok? {
        if * {
          report := report.(ok := false);
          return Err(WriteFailed), report;   // the state file could not be removed
        }
        baseline := None;
      }
    }

    /** finish up to its writes: what was read, what is staged, and whether all is still so after
        the formatters. */
    method ReadAndFormat(before: map<Path, Blob>, ignored: Path -> bool)
      returns (ready: bool, seen: map<Path, Blob>, staged: set<Path>)
      requires repo.Accounted()
      modifies repo`work, repo`moments, repo`index, repo`unmerged, repo`head, repo`others, repo`formattedAt
      ensures repo.Accounted() && old(repo.moments) <= repo.moments && old(repo.others) <= repo.others
      ensures repo.work == NewestOr(repo.moments, |old(repo.moments)|, old(repo.work))
      ensures AllSeen(repo.moments, |old(repo.moments)|, seen) && forall p :: p in seen ==> FormatTarget(p)
      ensures old(repo.unmerged) != {} ==> !ready
      ensures ready ==>
                && repo.index == old(repo.index) && staged == Changed(old(repo.index), old(repo.head))
                && |old(repo.moments)| < repo.formattedAt <= |repo.moments|
                && AllSeen(repo.moments, repo.formattedAt, Selected(before, seen, staged))
                && Covers(seen, repo.moments, |old(repo.moments)|, ignored)
    {
      ready, seen, staged := false, map[], {};
      if repo.unmerged != {} {
        return;
      }
      var index0 := repo.index;
      staged := Changed(repo.index, repo.head);
      var current := WorkingFiles(ignored);
      if current.Some? {
        ghost var read := repo.moments;
        seen := current.value;
        ready := repo.RunToolsAndRecheck(index0, staged, Selected(before, seen, staged));
        StillSeen(read, repo.moments, |old(repo.moments)|, |old(repo.moments)|, seen);
        StillCovers(seen, read, repo.moments, |old(repo.moments)|, ignored);
      }
      NoWriteNoTrace(old(repo.moments), repo.moments, repo.written);
    }

    /** finish, but for the state file. */
    method FormatChanged(before: map<Path, Blob>, ignored: Path -> bool, format: (Path, Blob) -> Blob)
      returns (r: Result<Skipped, Failure>, report: Report)
      requires repo.Accounted()
      modifies repo`work, repo`moments, repo`index, repo`unmerged, repo`head, repo`others, repo`formattedAt
      modifies repo`written
      ensures repo.Accounted() && old(repo.moments) <= repo.moments && old(repo.others) <= repo.others
      ensures repo.written == old(repo.written) + report.writes
      ensures Sound(report, Some(Taken(before)), repo.moments, format)
      ensures report.writes != [] ==> report.formattedAt == repo.formattedAt > |old(repo.moments)|
      ensures AllSeen(repo.moments, |old(repo.moments)|, report.seen)
      ensures report.writes != [] || r.Ok? ==> Covers(report.seen, repo.moments, |old(repo.moments)|, ignored)
      ensures Told(r, report, Some(Taken(before)), Staging(old(repo.index), old(repo.unmerged), old(repo.head)))
      ensures r == Err(Stopped) ==> repo.work == NewestOr(repo.moments, |old(repo.moments)|, old(repo.work))
      ensures r.Ok? ==> repo.index == old(repo.index)
    {
      var ready, seen, staged := ReadAndFormat(before, ignored);
      report := Report(false, [], seen, staged, 0);
      if !ready {
        return Err(Stopped), report;
      }
      ghost var looked := repo.moments;
      var selected := Selected(before, seen, staged);
      var ok, writes := repo.WriteFiles(FormatChanges(selected, format));
      StillSeen(looked, repo.moments, |old(repo.moments)|, |old(repo.moments)|, seen);
      StillCovers(seen, looked, repo.moments, |old(repo.moments)|, ignored);
      LookedBefore(looked, repo.moments, repo.formattedAt, writes, selected);
      report := Report(ok, writes, seen, staged, repo.formattedAt);
      if !ok {
        return Err(WriteFailed), report;
      }
      return Ok(Skipped(SkippedFiles(before, seen, staged))), report;
    }
  }

  // ------------------------------------------------------------ a turn's events

  datatype Event = Prompt | Stop

  /** How many moments and how many states of Git had passed when an event began, and how many
      moments when it ended. */
  datatype Span = Span(began: nat, commands: nat, ended: nat)

  datatype Logged =
    | Prompted(made: Option<Baseline>, when: Span)
    | Stopping(answer: Result<Skipped, Failure>, report: Report, when: Span)

  /** A baseline and the moment at which its capture began. */
  datatype Captured = Captured(baseline: Baseline, began: nat)

  function After(before: Option<Captured>, entry: Logged): Option<Captured> {
    match entry
    case Prompted(made, when) =>
      if before.Some? then before else if made.Some? then Some(Captured(made.value, when.began)) else None
    case Stopping(_, report, _) => if report.ok then None else before
  }

  /** The baseline in force after a log: the first one captured since the last finish that
      applied everything. */
  function InForce(log: seq<Logged>): Option<Captured> {
    if log == [] then None else After(InForce(log[..|log| - 1]), log[|log| - 1])
  }

  function BaselineOf(captured: Option<Captured>): Option<Baseline> {
    if captured.Some? then Some(captured.value.baseline) else None
  }

  function WritesIn(entry: Logged): seq<Write> {
    if entry.Stopping? then entry.report.writes else []
  }

  /** The writes that a log tells of, in order. */
  function WritesOf(log: seq<Logged>): seq<Write> {
    if log == [] then [] else WritesOf(log[..|log| - 1]) + WritesIn(log[|log| - 1])
  }

  /** The baseline in force holds what has been there ever since its capture began. */
  ghost predicate Holds(captured: Option<Captured>, moments: seq<map<Path, File>>, ignored: Path -> bool) {
    captured.Some? ==>
      && captured.value.began <= |moments|
      && (captured.value.baseline.Taken? ==>
            Covers(captured.value.baseline.files, moments, captured.value.began, ignored))
  }

  ghost predicate Unwritten(writes: seq<Write>, p: Path) {
    forall w :: w in writes ==> w.path != p
  }

  /** A report is sound for the baseline in force; what it had read was read after it began, and
      misses no file that stayed; its writes came after its own formatters; and no file was
      written that kept one content from the capture in force to the end. */
  ghost predicate SoundSince(before: Option<Captured>, r: Report, began: nat, moments: seq<map<Path, File>>,
                             ignored: Path -> bool, format: (Path, Blob) -> Blob)
  {
    && Sound(r, BaselineOf(before), moments, format)
    && AllSeen(moments, began, r.seen)
    && (r.writes != [] || r.ok ==> Covers(r.seen, moments, began, ignored))
    && (r.writes != [] ==> r.formattedAt > began)
    && (before.Some? ==> forall p, content ::
          FormatTarget(p) && !ignored(p) && Steady(moments, before.value.began, p, content) ==>
          Unwritten(r.writes, p))
  }

  /** An entry lies within the logs; and a stop answered as its report has it, given what Git held
      when it began, and that report is sound. */
  ghost predicate SoundAfter(before: Option<Captured>, entry: Logged, moments: seq<map<Path, File>>,
                             others: seq<Staging>, ignored: Path -> bool, format: (Path, Blob) -> Blob)
  {
    && entry.when.began <= entry.when.ended <= |moments| && 0 < entry.when.commands <= |others|
    && (entry.Stopping? ==>
          && Told(entry.answer, entry.report, BaselineOf(before), others[entry.when.commands - 1])
          && SoundSince(before, entry.report, entry.when.began, moments[..entry.when.ended], ignored, format))
  }

  /** So for an entry of a log, after those before it. */
  ghost predicate SoundAt(log: seq<Logged>, i: nat, moments: seq<map<Path, File>>, others: seq<Staging>,
                          ignored: Path -> bool, format: (Path, Blob) -> Blob)
    requires i < |log|
  {
    SoundAfter(InForce(log[..i]), log[i], moments, others, ignored, format)
  }

  /** And for every entry. */
  ghost predicate SoundLog(log: seq<Logged>, moments: seq<map<Path, File>>, others: seq<Staging>,
                           ignored: Path -> bool, format: (Path, Blob) -> Blob)
  {
    forall i: nat :: i < |log| ==> SoundAt(log, i, moments, others, ignored, format)
  }

  /** The one ended when the other began, or before. */
  predicate Before(a: Logged, b: Logged) {
    a.when.ended <= b.when.began && a.when.commands <= b.when.commands
  }

  /** The entry of an event that began when so many moments and states of Git had passed, or
      later. */
  predicate EntryOf(entry: Logged, e: Event, moments: nat, commands: nat) {
    (entry.Stopping? <==> e.Stop?) && moments <= entry.when.began && commands <= entry.when.commands
  }

  /** The entries are of these events, one after the other. */
  ghost predicate InOrder(log: seq<Logged>, events: seq<Event>, moments: nat, commands: nat) {
    && |log| == |events|
    && (forall i :: 0 <= i < |log| ==> EntryOf(log[i], events[i], moments, commands))
    && (forall i, j :: 0 <= i < j < |log| ==> Before(log[i], log[j]))
  }

  /** What has happened to a workspace, and its state file. */
  datatype Past = Past(written: seq<Write>, moments: seq<map<Path, File>>, others: seq<Staging>,
                       baseline: Option<Baseline>)

  function PastOf(w: Workspace): Past
    reads w, w.repo
  {
    Past(w.repo.written, w.repo.moments, w.repo.others, w.baseline)
  }

  /** The logs have grown, and that of the writes by these. */
  predicate Grew(was: Past, now: Past, writes: seq<Write>) {
    was.moments <= now.moments && was.others <= now.others && now.written == was.written + writes
  }

  lemma GrewAgain(start: Past, was: Past, now: Past, writes: seq<Write>, more: seq<Write>)
    requires Grew(start, was, writes) && Grew(was, now, more)
    ensures Grew(start, now, writes + more)
  {
  }

  /** The log tells of these events and of all their writes, in order, each entry sound after
      those before it; and the state file is the baseline in force. */
  ghost predicate Tells(log: seq<Logged>, events: seq<Event>, start: Past, now: Past, ignored: Path -> bool,
                        format: (Path, Blob) -> Blob)
  {
    && Grew(start, now, WritesOf(log))
    && InOrder(log, events, |start.moments|, |start.others|)
    && SoundLog(log, now.moments, now.others, ignored, format)
    && now.baseline == BaselineOf(InForce(log)) && Holds(InForce(log), now.moments, ignored)
  }

  /** So does an entry, of the event that led from one past to the next. */
  ghost predicate TellsOne(before: Option<Captured>, entry: Logged, e: Event, was: Past, now: Past,
                           ignored: Path -> bool, format: (Path, Blob) -> Blob)
  {
    && Grew(was, now, WritesIn(entry))
    && (entry.Stopping? <==> e.Stop?) && entry.when == Span(|was.moments|, |was.others|, |now.moments|)
    && SoundAfter(before, entry, now.moments, now.others, ignored, format)
    && now.baseline == BaselineOf(After(before, entry)) && Holds(After(before, entry), now.moments, ignored)
  }

  lemma SoundStays(log: seq<Logged>, was: Past, now: Past, ignored: Path -> bool, format: (Path, Blob) -> Blob)
    requires was.moments <= now.moments && was.others <= now.others
    requires SoundLog(log, was.moments, was.others, ignored, format)
    ensures SoundLog(log, now.moments, now.others, ignored, format)
  {
    forall i: nat | i < |log|
      ensures SoundAt(log, i, now.moments, now.others, ignored, format)
    {
      assert SoundAt(log, i, was.moments, was.others, ignored, format);
      assert now.moments[..log[i].when.ended] == was.moments[..log[i].when.ended];
    }
  }

  lemma OneMoreSound(log: seq<Logged>, entry: Logged, now: Past, ignored: Path -> bool,
                     format: (Path, Blob) -> Blob)
    requires SoundLog(log, now.moments, now.others, ignored, format)
    requires SoundAfter(InForce(log), entry, now.moments, now.others, ignored, format)
    ensures SoundLog(log + [entry], now.moments, now.others, ignored, format)
  {
    var all := log + [entry];
    forall i: nat | i < |all|
      ensures SoundAt(all, i, now.moments, now.others, ignored, format)
    {
      if i < |log| {
        assert all[..i] == log[..i] && all[i] == log[i];
        assert SoundAt(log, i, now.moments, now.others, ignored, format);
      } else {
        assert all[..i] == log;
      }
    }
  }

  lemma OneMoreInOrder(log: seq<Logged>, events: seq<Event>, entry: Logged, e: Event, moments: nat, commands: nat)
    requires InOrder(log, events, moments, commands) && EntryOf(entry, e, moments, commands)
    requires forall i :: 0 <= i < |log| ==> Before(log[i], entry)
    ensures InOrder(log + [entry], events + [e], moments, commands)
  {
  }

  lemma AllBefore(log: seq<Logged>, entry: Logged, was: Past, ignored: Path -> bool, format: (Path, Blob) -> Blob)
    requires SoundLog(log, was.moments, was.others, ignored, format)
    requires |was.moments| <= entry.when.began && |was.others| <= entry.when.commands
    ensures forall i :: 0 <= i < |log| ==> Before(log[i], entry)
  {
    forall i: nat | i < |log|
      ensures Before(log[i], entry)
    {
      assert SoundAt(log, i, was.moments, was.others, ignored, format);
    }
  }

  lemma OneMoreToTell(log: seq<Logged>, entry: Logged)
    ensures WritesOf(log + [entry]) == WritesOf(log) + WritesIn(entry)
    ensures InForce(log + [entry]) == After(InForce(log), entry)
  {
    assert (log + [entry])[..|log|] == log;
  }

  lemma NothingToTell(start: Past, ignored: Path -> bool, format: (Path, Blob) -> Blob)
    requires start.baseline == None
    ensures Tells([], [], start, start, ignored, format)
  {
  }

  /** What others do leaves a log as true as it was. */
  lemma StillTells(log: seq<Logged>, events: seq<Event>, start: Past, was: Past, now: Past, ignored: Path -> bool,
                   format: (Path, Blob) -> Blob)
    requires Tells(log, events, start, was, ignored, format) && Grew(was, now, []) && now.baseline == was.baseline
    ensures Tells(log, events, start, now, ignored, format)
  {
    GrewAgain(start, was, now, WritesOf(log), []);
    assert WritesOf(log) + [] == WritesOf(log);
    SoundStays(log, was, now, ignored, format);
    HoldsOn(InForce(log), was.moments, now.moments, ignored);
  }

  /** One more event: the entries before stay sound, and the new one comes after them. */
  lemma OneMoreEvent(log: seq<Logged>, events: seq<Event>, entry: Logged, e: Event, start: Past, was: Past, now: Past,
                     ignored: Path -> bool, format: (Path, Blob) -> Blob)
    requires Tells(log, events, start, was, ignored, format)
    requires TellsOne(InForce(log), entry, e, was, now, ignored, format)
    ensures Tells(log + [entry], events + [e], start, now, ignored, format)
  {
    SoundStays(log, was, now, ignored, format);
    OneMoreSound(log, entry, now, ignored, format);
    OneMoreToTell(log, entry);
    GrewAgain(start, was, now, WritesOf(log), WritesIn(entry));
    AllBefore(log, entry, was, ignored, format);
    OneMoreInOrder(log, events, entry, e, |start.moments|, |start.others|);
  }

  /** Over any sequence of prompts and stops of one turn, with edits and Git commands at any
      moment: no hook stages anything; the writes made are those of the logged stops; a
      repeated capture never moves the baseline; and each write is a formatted file that had
      changed since the baseline in force and was not staged when the stop began, made after
      every such file was looked at once more behind the formatters.  A file that has stayed
      as it was since that baseline is never written. */
  method Turn(w: Workspace, events: seq<Event>, ignored: Path -> bool, format: (Path, Blob) -> Blob)
    returns (log: seq<Logged>)
    requires w.repo.Accounted() && w.baseline == None
    modifies w, w.repo
    ensures w.repo.Accounted() && w.repo.restaged == old(w.repo.restaged) && w.repo.receipt == old(w.repo.receipt)
    ensures Tells(log, events, old(PastOf(w)), PastOf(w), ignored, format)
  {
    log := [];
    ghost var start, told: seq<Event> := PastOf(w), [];
    NothingToTell(start, ignored, format);
    for i := 0 to |events|
      invariant w.repo.Accounted() && told == events[..i]
      invariant w.repo.restaged == old(w.repo.restaged) && w.repo.receipt == old(w.repo.receipt)
      invariant Tells(log, told, start, PastOf(w), ignored, format)
    {
      log := Round(w, log, told, events[i], start, ignored, format);
      told := told + [events[i]];
    }
    assert told == events;
  }

  /** Others at work, and then an event. */
  method Round(w: Workspace, before: seq<Logged>, ghost events: seq<Event>, e: Event, ghost start: Past,
               ignored: Path -> bool, format: (Path, Blob) -> Blob)
    returns (log: seq<Logged>)
    requires w.repo.Accounted() && Tells(before, events, start, PastOf(w), ignored, format)
    modifies w, w.repo
    ensures w.repo.Accounted() && w.repo.restaged == old(w.repo.restaged) && w.repo.receipt == old(w.repo.receipt)
    ensures Tells(log, events + [e], start, PastOf(w), ignored, format)
  {
    Meanwhile(w, before, events, start, ignored, format);
    log := TurnStep(w, before, events, e, start, ignored, format);
  }

  /** What others do between two events. */
  method Meanwhile(w: Workspace, ghost log: seq<Logged>, ghost events: seq<Event>, ghost start: Past,
                   ghost ignored: Path -> bool, ghost format: (Path, Blob) -> Blob)
    requires w.repo.Accounted() && Tells(log, events, start, PastOf(w), ignored, format)
    modifies w.repo
    ensures w.repo.Accounted() && w.repo.restaged == old(w.repo.restaged) && w.repo.receipt == old(w.repo.receipt)
    ensures w.repo.others[|w.repo.others| - 1] == Staging(w.repo.index, w.repo.unmerged, w.repo.head)
    ensures Tells(log, events, start, PastOf(w), ignored, format)
  {
    w.repo.OthersRun();
    StillTells(log, events, start, old(PastOf(w)), PastOf(w), ignored, format);
  }

  /** One event, and its entry in the log. */
  method TurnStep(w: Workspace, before: seq<Logged>, ghost events: seq<Event>, e: Event, ghost start: Past,
                  ignored: Path -> bool, format: (Path, Blob) -> Blob)
    returns (log: seq<Logged>)
    requires w.repo.Accounted() && Tells(before, events, start, PastOf(w), ignored, format)
    requires w.repo.others[|w.repo.others| - 1] == Staging(w.repo.index, w.repo.unmerged, w.repo.head)
    modifies w, w.repo
    ensures w.repo.Accounted() && w.repo.restaged == old(w.repo.restaged) && w.repo.receipt == old(w.repo.receipt)
    ensures Tells(log, events + [e], start, PastOf(w), ignored, format)
  {
    var entry;
    if e.Prompt? {
      entry := PromptStep(w, InForce(before), ignored, format);
    } else {
      entry := StopStep(w, InForce(before), ignored, format);
    }
    OneMoreEvent(before, events, entry, e, start, old(PastOf(w)), PastOf(w), ignored, format);
    log := before + [entry];
  }

  /** A prompt is submitted. */
  method PromptStep(w: Workspace, ghost captured: Option<Captured>, ignored: Path -> bool,
                    ghost format: (Path, Blob) -> Blob)
    returns (entry: Logged)
    requires w.repo.Accounted() && w.baseline == BaselineOf(captured)
    requires Holds(captured, w.repo.moments, ignored)
    modifies w, w.repo
    ensures w.repo.Accounted() && w.repo.restaged == old(w.repo.restaged) && w.repo.receipt == old(w.repo.receipt)
    ensures TellsOne(captured, entry, Prompt, old(PastOf(w)), PastOf(w), ignored, format)
  {
    var began, commands := |w.repo.moments|, |w.repo.others|;
    var made := w.Capture(ignored);
    entry := Prompted(made, Span(began, commands, |w.repo.moments|));
    HoldsOn(captured, old(w.repo.moments), w.repo.moments, ignored);
  }

  /** The turn stops. */
  method StopStep(w: Workspace, ghost captured: Option<Captured>, ignored: Path -> bool, format: (Path, Blob) -> Blob)
    returns (entry: Logged)
    requires w.repo.Accounted() && w.baseline == BaselineOf(captured)
    requires w.repo.others[|w.repo.others| - 1] == Staging(w.repo.index, w.repo.unmerged, w.repo.head)
    requires Holds(captured, w.repo.moments, ignored)
    modifies w, w.repo
    ensures w.repo.Accounted() && w.repo.restaged == old(w.repo.restaged) && w.repo.receipt == old(w.repo.receipt)
    ensures TellsOne(captured, entry, Stop, old(PastOf(w)), PastOf(w), ignored, format)
  {
    var began, commands := |w.repo.moments|, |w.repo.others|;
    var r, report := w.Finish(ignored, format);
    entry := Stopping(r, report, Span(began, commands, |w.repo.moments|));
    HoldsOn(captured, old(w.repo.moments), w.repo.moments, ignored);
    StopIsSound(captured, entry, PastOf(w), ignored, format);
  }

  lemma HoldsOn(captured: Option<Captured>, moments: seq<map<Path, File>>, later: seq<map<Path, File>>,
                ignored: Path -> bool)
    requires Holds(captured, moments, ignored) && moments <= later
    ensures Holds(captured, later, ignored)
  {
    if captured.Some? && captured.value.baseline.Taken? {
      StillCovers(captured.value.baseline.files, moments, later, captured.value.began, ignored);
    }
  }

  lemma StopIsSound(captured: Option<Captured>, entry: Logged, now: Past, ignored: Path -> bool,
                    format: (Path, Blob) -> Blob)
    requires entry.Stopping? && entry.when.began <= entry.when.ended == |now.moments|
    requires 0 < entry.when.commands <= |now.others|
    requires Told(entry.answer, entry.report, BaselineOf(captured), now.others[entry.when.commands - 1])
    requires Sound(entry.report, BaselineOf(captured), now.moments, format)
    requires AllSeen(now.moments, entry.when.began, entry.report.seen)
    requires entry.report.writes != [] || entry.report.ok ==>
               Covers(entry.report.seen, now.moments, entry.when.began, ignored)
    requires entry.report.writes != [] ==> entry.report.formattedAt > entry.when.began
    requires Holds(captured, now.moments, ignored)
    requires captured.Some? ==> captured.value.began <= entry.when.began
    ensures SoundAfter(captured, entry, now.moments, now.others, ignored, format)
  {
    var moments, r := now.moments, entry.report;
    assert moments[..entry.when.ended] == moments;
    if captured.Some? && r.writes != [] {
      forall p, content | FormatTarget(p) && !ignored(p) && Steady(moments, captured.value.began, p, content)
        ensures Unwritten(r.writes, p)
      {
        SteadyIsNotWritten(r, FilesOf(BaselineOf(captured)), moments, captured.value.began, entry.when.began, ignored,
                           format, p, content);
      }
    }
  }

  /** Said of a logged turn without its own terms: whatever a stop writes is the formatter's
      output for a file that is formatted, was read with another content, did not have that
      content in the first baseline captured since the last successful stop, and was in the
      index as in HEAD when the stop began. */
  lemma TurnWritesOnly(log: seq<Logged>, i: nat, moments: seq<map<Path, File>>, others: seq<Staging>,
                       ignored: Path -> bool, format: (Path, Blob) -> Blob, w: Write)
    requires SoundLog(log, moments, others, ignored, format) && i < |log|
    requires log[i].Stopping? && w in log[i].report.writes
    ensures
      var seen, before := log[i].report.seen, BaselineOf(InForce(log[..i]));
      && SpelledTarget(w.path) && w.path in seen
      && w.content == format(w.path, seen[w.path]) != seen[w.path]
      && before.Some? && before.value.Taken?
      && (w.path in before.value.files ==> before.value.files[w.path] != seen[w.path])
      && 0 < log[i].when.commands <= |others|
      && var git := others[log[i].when.commands - 1];
         && (w.path in git.index <==> w.path in git.head)
         && (w.path in git.index ==> git.index[w.path] == git.head[w.path])
  {
    assert SoundAt(log, i, moments, others, ignored, format);
    TargetsAreSpelled(w.path);
  }

  /** Before that write every file that was to be written was still what had been read, at some
      moment after the formatters. */
  lemma TurnLooksAgain(log: seq<Logged>, i: nat, moments: seq<map<Path, File>>, others: seq<Staging>,
                       ignored: Path -> bool, format: (Path, Blob) -> Blob, w: Write, p: Path)
    requires SoundLog(log, moments, others, ignored, format) && i < |log|
    requires log[i].Stopping? && w in log[i].report.writes && p in log[i].report.seen
    requires p !in log[i].report.staged
    requires
      var before := FilesOf(BaselineOf(InForce(log[..i])));
      !(p in before && before[p] == log[i].report.seen[p])
    ensures exists k :: log[i].when.began < log[i].report.formattedAt <= k < w.at <= log[i].when.ended <= |moments|
                        && p in moments[k] && moments[k][p] == Regular(log[i].report.seen[p])
  {
    assert SoundAt(log, i, moments, others, ignored, format);
    var r, before := log[i].report, FilesOf(BaselineOf(InForce(log[..i])));
    var here := moments[..log[i].when.ended];
    assert p in Selected(before, r.seen, r.staged);
    assert SeenSince(here[..w.at], r.formattedAt, p, r.seen[p]);
    var k :| r.formattedAt <= k < |here[..w.at]| && p in here[..w.at][k] && here[..w.at][k][p] == Regular(r.seen[p]);
    assert moments[k] == here[..w.at][k];
  }

  /** And a stop that succeeds has written every such file that it read, and names every changed
      one that is staged. */
  lemma TurnMissesNothing(log: seq<Logged>, i: nat, moments: seq<map<Path, File>>, others: seq<Staging>,
                          ignored: Path -> bool, format: (Path, Blob) -> Blob, p: Path)
    requires SoundLog(log, moments, others, ignored, format) && i < |log|
    requires log[i].Stopping? && log[i].answer.Ok? && p in log[i].report.seen
    ensures
      var content, before := log[i].report.seen[p], BaselineOf(InForce(log[..i]));
      && before.Some? && before.value.Taken? && 0 < log[i].when.commands <= |others|
      && var git := others[log[i].when.commands - 1];
         var staged := (p in git.index) != (p in git.head) || (p in git.index && git.index[p] != git.head[p]);
         var changed := !(p in before.value.files && before.value.files[p] == content);
         && (changed && !staged && format(p, content) != content ==>
               Wrote(log[i].report.writes, p, format(p, content)))
         && (p in log[i].answer.value.staged <==> changed && staged)
  {
    assert SoundAt(log, i, moments, others, ignored, format);
    var r, before := log[i].report, FilesOf(BaselineOf(InForce(log[..i])));
    assert p in FormatChanges(Selected(before, r.seen, r.staged), format) <==>
      ChangedSince(before, p, r.seen[p]) && p !in r.staged && format(p, r.seen[p]) != r.seen[p];
  }

  /** A prompt delivered again is without effect on the baseline in force. */
  lemma {:induction false} RepeatedPromptsKeepBaseline(log: seq<Logged>, more: seq<Logged>)
    requires InForce(log).Some?
    requires forall i :: 0 <= i < |more| ==> more[i].Prompted? || !more[i].report.ok
    ensures InForce(log + more) == InForce(log)
    decreases |more|
  {
    if more == [] {
      assert log + more == log;
    } else {
      var n := |more| - 1;
      assert (log + more)[..|log + more| - 1] == log + more[..n];
      RepeatedPromptsKeepBaseline(log, more[..n]);
    }
  }
}
