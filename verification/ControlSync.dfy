/**
  Publishing local control files on the control branch: reconcile with the branch as it is, commit on top of it, and move
  the ref only if nobody else did in between; writers race and retry.
 */
module ControlSync {
  import opened Wrappers
  import opened ControlMerge
  import opened TextLines

  type Files = map<string, string>

  datatype SyncError = LocalFileMissing(path: string) | AppendOnlyConflict(path: string) | LostTooManyRaces | RequestFailed

  const MAX_REF_UPDATE_ATTEMPTS := 4

  predicate IsLog(path: string) {
    |path| >= 6 && path[|path| - 6..] == ".jsonl"
  }

  function MergedText(remote: string, local: string): string {
    Unlines(Merge(Lines(remote), Lines(local)))
  }

  // ---------- Reconciling ----------

  /** What one path comes to: the content to publish, which for a log is also written back. */
  function ReconciledFile(path: string, files: Files, remote: Files): Result<string, SyncError> {
    if path !in files then Err(LocalFileMissing(path))
    else if path !in remote then Ok(files[path])
    else if IsLog(path) then Ok(MergedText(remote[path], files[path]))
    else if remote[path] != files[path] then Err(AppendOnlyConflict(path))
    else Ok(files[path])
  }

  /** The local files afterwards, with what was written before an error, and the contents to publish. */
  function Reconciled(files: Files, contents: Files, paths: seq<string>, remote: Files): (Files, Result<Files, SyncError>)
    decreases |paths|
  {
    if paths == [] then (files, Ok(contents))
    else
      match ReconciledFile(paths[0], files, remote)
      case Err(error) => (files, Err(error))
      case Ok(content) => Reconciled(files[paths[0] := content], contents[paths[0] := content], paths[1..], remote)
  }

  class ControlBranchPersistence {
    var files: Files

    constructor (files: Files)
      ensures this.files == files
    {
      this.files := files;
    }

    /** `_reconcile_local_files`. */
    method ReconcileLocalFiles(paths: seq<string>, remote: Files) returns (r: Result<Files, SyncError>)
      modifies this
      ensures (files, r) == Reconciled(old(files), map[], paths, remote)
    {
      var reconciled: Files := map[];
      assert paths[0..] == paths;
      for i := 0 to |paths|
        invariant Reconciled(files, reconciled, paths[i..], remote) == Reconciled(old(files), map[], paths, remote)
      {
        var path := paths[i];
        assert paths[i..][1..] == paths[i + 1..];
        if path !in files {
          return Err(LocalFileMissing(path));
        }
        var content := files[path];
        if path !in remote {
          assert files[path := content] == files;
          reconciled := reconciled[path := content];
        } else if IsLog(path) {
          var merged := MergeJsonl(remote[path], content);
          if merged != content {
            files := files[path := merged];
          } else {
            assert files[path := merged] == files;
          }
          reconciled := reconciled[path := merged];
        } else {
          if remote[path] != content {
            return Err(AppendOnlyConflict(path));
          }
          assert files[path := content] == files;
          reconciled := reconciled[path := content];
        }
      }
      r := Ok(reconciled);
    }

    /**
      `sync_paths`. Between reading the ref and moving it in round `i`, other writers push the trees `others[i]`. The call
      ends in the first round that nobody interferes with, by publishing, or whose reconciling fails, by raising that
      error; when every round is lost, it raises after the last.
     */
    method SyncPaths(
        paths: seq<string>, branch: ControlBranch, others: seq<seq<Files>>) returns (r: Result<nat, SyncError>)
      requires branch.history != [] && |others| == MAX_REF_UPDATE_ATTEMPTS
      modifies this, branch
      ensures KeepsAll(old(files), files)
      ensures paths == [] ==> r.Ok? && files == old(files) && branch.history == old(branch.history)
      ensures paths != [] ==> Ends(old(files), paths, old(branch.history), others, r, files, branch.history)
      ensures r.Ok? && paths != [] ==>
                Published(files, paths, old(branch.history) + Concat(others[..r.value]), branch.history)
    {
      hide KeepsAll, Reconciled, Publishable, PublishedWith, Ends, AllLost, FilesAt, RoundOf;
      NothingToKeep(files);
      if paths == [] {
        return Ok(0);
      }
      ghost var start, prior := files, branch.history;
      FirstRound(start, paths, prior, others);
      for i := 0 to MAX_REF_UPDATE_ATTEMPTS
        invariant branch.history == prior + Concat(others[..i])
        invariant AllLost(start, paths, prior, others, i) && files == FilesAt(start, paths, prior, others, i)
        invariant KeepsAll(start, files)
      {
        ghost var before := branch.history;
        var base := |branch.history| - 1;
        var head := branch.history[base];
        RoundKeeps(start, files, paths, head);
        var contents := ReconcileLocalFiles(paths, head);
        RoundEnds(start, paths, prior, others, i, files, contents);
        if contents.Err? {
          return Err(contents.error);
        }
        branch.OthersPush(others[i]);
        ConcatGrows(others, i);
        var moved := branch.UpdateRef(base, head + contents.value);
        if moved {
          assert others[i] == [] && branch.history == before + [head + contents.value];
          RoundPublishes(files, paths, before, branch.history, contents.value);
          return Ok(i);
        }
      }
      assert others[..|others|] == others;
      LostRoundsEnd(start, paths, prior, others);
      r := Err(LostTooManyRaces);
    }
  }

  // ---------- The rounds of a sync ----------

  /** The branch as round `i` finds it, when all rounds before it were lost. */
  function HeadAt(history: seq<Files>, others: seq<seq<Files>>, i: nat): Files
    requires history != [] && i < |others|
  {
    var seen := history + Concat(others[..i]);
    seen[|seen| - 1]
  }

  /** What reconciling leaves and answers in round `i`. */
  function RoundOf(start: Files, paths: seq<string>, history: seq<Files>, others: seq<seq<Files>>, i: nat): (Files, Result<Files, SyncError>)
    requires history != [] && i < |others|
    decreases i, 1
  {
    Reconciled(FilesAt(start, paths, history, others, i), map[], paths, HeadAt(history, others, i))
  }

  /** The local files when round `i` begins. */
  function FilesAt(start: Files, paths: seq<string>, history: seq<Files>, others: seq<seq<Files>>, i: nat): Files
    requires history != [] && i <= |others|
    decreases i, 0
  {
    if i == 0 then start else RoundOf(start, paths, history, others, i - 1).0
  }

  /** In every round before the `n`-th the files could be reconciled, and somebody else moved the ref. */
  predicate AllLost(start: Files, paths: seq<string>, history: seq<Files>, others: seq<seq<Files>>, n: nat)
    requires history != [] && n <= |others|
  {
    forall i | 0 <= i < n :: RoundOf(start, paths, history, others, i).1.Ok? && others[i] != []
  }

  /** Round `i` is the last: all before it were lost, and the files and the branch are as it leaves them. */
  predicate EndsIn(
      start: Files, paths: seq<string>, history: seq<Files>, others: seq<seq<Files>>, i: nat, files: Files, after: seq<Files>)
    requires history != [] && i < |others|
  {
    && AllLost(start, paths, history, others, i)
    && files == RoundOf(start, paths, history, others, i).0
    && match RoundOf(start, paths, history, others, i).1
       case Ok(contents) =>
         others[i] == [] && after == history + Concat(others[..i]) + [HeadAt(history, others, i) + contents]
       case Err(_) => after == history + Concat(others[..i])
  }

  /** How a sync of some paths may end: published, out of rounds, or with the error of a round. */
  ghost predicate Ends(
      start: Files, paths: seq<string>, history: seq<Files>, others: seq<seq<Files>>, r: Result<nat, SyncError>,
      files: Files, after: seq<Files>)
    requires history != []
  {
    match r
    case Ok(i) =>
      i < |others| && EndsIn(start, paths, history, others, i, files, after) && RoundOf(start, paths, history, others, i).1.Ok?
    case Err(LostTooManyRaces) =>
      AllLost(start, paths, history, others, |others|) && files == FilesAt(start, paths, history, others, |others|)
      && after == history + Concat(others)
    case Err(error) =>
      exists i: nat :: i < |others| && EndsIn(start, paths, history, others, i, files, after)
                       && RoundOf(start, paths, history, others, i).1 == Err(error)
  }

  /** A sync ends by publishing in a round if and only if that round is free, its files can be reconciled, and every round
      before it was lost; and it gives up on the races if and only if all rounds were lost. */
  lemma {:induction false} EndsExactlyWhere(
      start: Files, paths: seq<string>, history: seq<Files>, others: seq<seq<Files>>, r: Result<nat, SyncError>,
      files: Files, after: seq<Files>, i: nat)
    requires history != [] && i < |others| && Ends(start, paths, history, others, r, files, after)
    ensures r == Ok(i) <==> AllLost(start, paths, history, others, i) && RoundOf(start, paths, history, others, i).1.Ok? && others[i] == []
    ensures r == Err(LostTooManyRaces) <==> AllLost(start, paths, history, others, |others|)
  {
    hide Reconciled, HeadAt, FilesAt, RoundOf, Concat;
    match r
    case Ok(k) => OneLastRound(start, paths, history, others, i, k);
    case Err(LostTooManyRaces) =>
    case Err(error) =>
      var k: nat :| k < |others| && EndsIn(start, paths, history, others, k, files, after)
                    && RoundOf(start, paths, history, others, k).1 == Err(error);
      OneLastRound(start, paths, history, others, i, k);
      ErrorIsNoRace(start, paths, history, others, k);
  }

  /** No round after the last is reached with all before it lost. */
  lemma OneLastRound(start: Files, paths: seq<string>, history: seq<Files>, others: seq<seq<Files>>, i: nat, k: nat)
    requires history != [] && i < |others| && k < |others|
    requires AllLost(start, paths, history, others, k) && (RoundOf(start, paths, history, others, k).1.Err? || others[k] == [])
    ensures AllLost(start, paths, history, others, i) ==> i <= k
    ensures i < k ==> RoundOf(start, paths, history, others, i).1.Ok? && others[i] != []
    ensures !AllLost(start, paths, history, others, |others|)
  {
    hide RoundOf;
    assert !(RoundOf(start, paths, history, others, k).1.Ok? && others[k] != []);
  }

  lemma ErrorIsNoRace(start: Files, paths: seq<string>, history: seq<Files>, others: seq<seq<Files>>, i: nat)
    requires history != [] && i < |others|
    ensures RoundOf(start, paths, history, others, i).1 != Err(LostTooManyRaces)
  {
    ReconcilingLosesNoRace(FilesAt(start, paths, history, others, i), map[], paths, HeadAt(history, others, i));
  }

  lemma FirstRound(start: Files, paths: seq<string>, history: seq<Files>, others: seq<seq<Files>>)
    requires history != []
    ensures AllLost(start, paths, history, others, 0) && FilesAt(start, paths, history, others, 0) == start
    ensures history + Concat(others[..0]) == history
  {
  }

  lemma LostRoundsEnd(start: Files, paths: seq<string>, history: seq<Files>, others: seq<seq<Files>>)
    requires history != [] && AllLost(start, paths, history, others, |others|)
    ensures Ends(start, paths, history, others, Err(LostTooManyRaces), FilesAt(start, paths, history, others, |others|), history + Concat(others))
  {
  }

  /** A round that began as it should ends the sync, or leaves the next to begin as it should. */
  lemma {:induction false} RoundEnds(
      start: Files, paths: seq<string>, history: seq<Files>, others: seq<seq<Files>>, i: nat, files: Files, contents: Result<Files, SyncError>)
    requires history != [] && i < |others| && AllLost(start, paths, history, others, i)
    requires (files, contents) == Reconciled(FilesAt(start, paths, history, others, i), map[], paths, HeadAt(history, others, i))
    ensures contents.Err? ==> Ends(start, paths, history, others, Err(contents.error), files, history + Concat(others[..i]))
    ensures contents.Ok? && others[i] == [] ==>
              Ends(start, paths, history, others, Ok(i), files,
                   history + Concat(others[..i]) + [HeadAt(history, others, i) + contents.value])
    ensures contents.Ok? && others[i] != [] ==>
              AllLost(start, paths, history, others, i + 1) && FilesAt(start, paths, history, others, i + 1) == files
  {
    hide Reconciled, HeadAt;
    ErrorIsNoRace(start, paths, history, others, i);
    if contents.Err? {
      assert EndsIn(start, paths, history, others, i, files, history + Concat(others[..i]));
    }
  }

  /** One round of reconciling, whether or not it wins the race. */
  lemma RoundKeeps(start: Files, files: Files, paths: seq<string>, head: Files)
    requires KeepsAll(start, files)
    ensures var (next, r) := Reconciled(files, map[], paths, head);
            && KeepsAll(start, next)
            && r != Err(LostTooManyRaces)
            && (r.Ok? ==> Publishable(next, r.value, head) && forall path :: path in r.value <==> path in paths)
  {
    hide Reconciled, KeepsLines;
    ReconcilingLosesNoRace(files, map[], paths, head);
    ReconciledIsPublishable(files, map[], paths, head);
    KeepsLinesCompose(start, files, Reconciled(files, map[], paths, head).0);
  }

  lemma RoundPublishes(files: Files, paths: seq<string>, before: seq<Files>, after: seq<Files>, contents: Files)
    requires before != [] && after == before + [before[|before| - 1] + contents]
    requires Publishable(files, contents, before[|before| - 1]) && forall path :: path in contents <==> path in paths
    ensures Published(files, paths, before, after)
  {
    assert PublishedWith(files, paths, before, after, contents);
  }

  /** One commit more, which overlays the paths with the local files and extends what was there. */
  ghost predicate PublishedWith(
      files: Files, paths: seq<string>, before: seq<Files>, after: seq<Files>, contents: Files) {
    && before != []
    && after == before + [before[|before| - 1] + contents]
    && Publishable(files, contents, before[|before| - 1])
    && forall path :: path in contents <==> path in paths
  }

  ghost predicate Published(files: Files, paths: seq<string>, before: seq<Files>, after: seq<Files>) {
    exists contents :: PublishedWith(files, paths, before, after, contents)
  }

  /** The ref of the control branch, by the trees it has pointed to. */
  class ControlBranch {
    var history: seq<Files>

    constructor (tree: Files)
      ensures history == [tree]
    {
      history := [tree];
    }

    method OthersPush(trees: seq<Files>)
      modifies this
      ensures history == old(history) + trees
    {
      history := history + trees;
    }

    /** `_update_ref` without force: refused unless the ref is still where the commit started from. */
    method UpdateRef(base: nat, tree: Files) returns (moved: bool)
      modifies this
      ensures moved <==> base == |old(history)| - 1
      ensures history == if moved then old(history) + [tree] else old(history)
    {
      moved := base == |history| - 1;
      if moved {
        history := history + [tree];
      }
    }
  }

  function Concat<T>(parts: seq<seq<T>>): seq<T> {
    if parts == [] then [] else Concat(parts[..|parts| - 1]) + parts[|parts| - 1]
  }

  lemma ConcatGrows<T>(parts: seq<seq<T>>, i: nat)
    requires i < |parts|
    ensures Concat(parts[..i + 1]) == Concat(parts[..i]) + parts[i]
  {
    assert parts[..i + 1][..i] == parts[..i];
  }

  lemma KeepsLinesCompose(a: Files, b: Files, c: Files)
    requires a.Keys == b.Keys == c.Keys
    requires forall path | path in a :: KeepsLines(path, a[path], b[path])
    requires forall path | path in b :: KeepsLines(path, b[path], c[path])
    ensures forall path | path in a :: KeepsLines(path, a[path], c[path])
  {
    hide Lines, IsLog;
  }

  lemma {:induction false} ReconcilingLosesNoRace(files: Files, contents: Files, paths: seq<string>, remote: Files)
    ensures Reconciled(files, contents, paths, remote).1 != Err(LostTooManyRaces)
    decreases |paths|
  {
    hide MergedText, IsLog;
    if paths != [] && ReconciledFile(paths[0], files, remote).Ok? {
      var content := ReconciledFile(paths[0], files, remote).value;
      ReconcilingLosesNoRace(files[paths[0] := content], contents[paths[0] := content], paths[1..], remote);
    }
  }

  /** `b` is `a` with lines added to its logs and files added; every other file is as it was. */
  ghost predicate Extends(a: Files, b: Files) {
    forall path | path in a :: path in b && FileExtends(path, a[path], b[path])
  }

  ghost predicate FileExtends(path: string, a: string, b: string) {
    if IsLog(path) then Lines(a) <= Lines(b) else b == a
  }

  lemma ExtendsCompose(a: Files, b: Files, c: Files)
    requires Extends(a, b) && Extends(b, c)
    ensures Extends(a, c)
  {
    forall path | path in a
      ensures path in c && FileExtends(path, a[path], c[path])
    {
      assert FileExtends(path, a[path], b[path]) && FileExtends(path, b[path], c[path]);
    }
  }

  /** A file keeps its lines, or its whole content when it is not a log. */
  ghost predicate KeepsLines(path: string, a: string, b: string) {
    if IsLog(path) then forall line | line in Lines(a) :: line in Lines(b) else b == a
  }

  ghost predicate KeepsAll(a: Files, b: Files) {
    a.Keys == b.Keys && forall path | path in a :: KeepsLines(path, a[path], b[path])
  }

  lemma NothingToKeep(files: Files)
    ensures KeepsAll(files, files)
  {
    hide Lines, IsLog;
  }

  lemma ReconciledFileKeeps(path: string, files: Files, remote: Files)
    requires ReconciledFile(path, files, remote).Ok?
    ensures path in files && KeepsLines(path, files[path], ReconciledFile(path, files, remote).value)
    ensures path in remote ==> FileExtends(path, remote[path], ReconciledFile(path, files, remote).value)
  {
    hide Lines, Unlines;
    if path in remote && IsLog(path) {
      MergedLinesReadBack(remote[path], files[path]);
    }
  }

  /** What a reconciliation in progress has to publish: files as they now are, extending the branch. */
  ghost predicate Publishable(files: Files, contents: Files, remote: Files) {
    forall path | path in contents ::
      && path in files && contents[path] == files[path]
      && (path in remote ==> FileExtends(path, remote[path], contents[path]))
  }

  /** Reconciling loses no local line, and what it publishes extends the branch it was reconciled with. */
  lemma {:induction false} ReconciledIsPublishable(files: Files, contents: Files, paths: seq<string>, remote: Files)
    requires Publishable(files, contents, remote)
    ensures var (next, r) := Reconciled(files, contents, paths, remote);
            && next.Keys == files.Keys
            && (forall path | path in files :: KeepsLines(path, files[path], next[path]))
            && (r.Ok? ==>
                  && Publishable(next, r.value, remote)
                  && (forall path :: path in r.value <==> path in contents || path in paths))
    decreases |paths|
  {
    hide Lines, MergedText, IsLog;
    if paths == [] {
    } else if ReconciledFile(paths[0], files, remote).Ok? {
      var path, content := paths[0], ReconciledFile(paths[0], files, remote).value;
      ReconciledFileKeeps(path, files, remote);
      ReconciledIsPublishable(files[path := content], contents[path := content], paths[1..], remote);
    }
  }

  // ---------- What reconciling says ----------

  predicate IsJsonl(path: string) {
    |path| >= 6 && path[|path| - 6..] == ['.', 'j', 's', 'o', 'n', 'l']
  }

  /** The file is on the branch with another content, and is no log. */
  predicate Conflicts(path: string, files: Files, remote: Files) {
    path in files && path in remote && !IsJsonl(path) && remote[path] != files[path]
  }

  /** The content of a path is the local one, or the merge of the branch's log and the local one. */
  ghost predicate IsReconciled(path: string, content: string, files: Files, remote: Files) {
    path in files &&
    if path in remote && IsJsonl(path) then
      Lines(content) == Lines(remote[path]) + Minus(Lines(files[path]), Lines(remote[path]))
    else content == files[path]
  }

  lemma FileIsReconciled(path: string, files: Files, remote: Files)
    ensures var r := ReconciledFile(path, files, remote);
            && (r == Err(LocalFileMissing(path)) <==> path !in files)
            && (r == Err(AppendOnlyConflict(path)) <==> Conflicts(path, files, remote))
            && (r.Ok? <==> path in files && !Conflicts(path, files, remote))
            && (r.Ok? ==> IsReconciled(path, r.value, files, remote))
  {
    hide Lines, Unlines;
    if path in files && path in remote {
      MergedLinesReadBack(remote[path], files[path]);
    }
  }

  lemma SameForOthers(path: string, other: string, content: string, files: Files, remote: Files)
    requires path != other && path in files
    ensures (other in files[path := content]) == (other in files)
    ensures Conflicts(other, files[path := content], remote) == Conflicts(other, files, remote)
    ensures forall c :: IsReconciled(other, c, files[path := content], remote) == IsReconciled(other, c, files, remote)
  {
  }

  /**
    Reconciling succeeds exactly when every local file is there and none is on the branch with another content unless it is a log. It
    then publishes every path with its reconciled content; otherwise it names the first path that fails and why. Either way the local
    logs of the paths before that are rewritten, and no other file.
   */
  lemma {:induction false} ReconcilingSays(files: Files, contents: Files, paths: seq<string>, remote: Files)
    requires forall i, j | 0 <= i < j < |paths| :: paths[i] != paths[j]
    ensures var (next, r) := Reconciled(files, contents, paths, remote);
            && (r.Ok? <==> forall path | path in paths :: path in files && !Conflicts(path, files, remote))
            && (r.Ok? ==> forall path | path in paths :: path in r.value && path in next
                                        && next[path] == r.value[path] && IsReconciled(path, r.value[path], files, remote))
            && (r.Ok? ==> forall path | path !in paths :: (path in r.value <==> path in contents) && (path in contents ==> r.value[path] == contents[path]))
            && (r.Err? ==> exists k :: FailsFirst(paths, files, remote, k, r.error))
            && next.Keys == files.Keys
            && (forall path | path in files && (path !in paths || path !in remote || !IsJsonl(path)) :: next[path] == files[path])
    decreases |paths|
  {
    hide ReconciledFile, Lines, IsJsonl, Minus;
    if paths != [] {
      var path := paths[0];
      var r := ReconciledFile(path, files, remote);
      FileIsReconciled(path, files, remote);
      if r.Err? {
        assert FailsFirst(paths, files, remote, 0, r.error);
      } else {
        var rest, moved := paths[1..], files[path := r.value];
        ReconcilingSays(moved, contents[path := r.value], rest, remote);
        forall other | other != path
          ensures (other in moved) == (other in files) && Conflicts(other, moved, remote) == Conflicts(other, files, remote)
          ensures forall c :: IsReconciled(other, c, moved, remote) == IsReconciled(other, c, files, remote)
        {
          SameForOthers(path, other, r.value, files, remote);
        }
        assert path !in rest && forall other | other in rest :: other != path;
        FailsLater(paths, files, moved, remote);
      }
    }
  }

  /** The `k`-th path is the first that cannot be reconciled, and this is why. */
  ghost predicate FailsFirst(paths: seq<string>, files: Files, remote: Files, k: int, error: SyncError) {
    && 0 <= k < |paths|
    && (forall i | 0 <= i < k :: paths[i] in files && !Conflicts(paths[i], files, remote))
    && (if paths[k] !in files then error == LocalFileMissing(paths[k])
        else Conflicts(paths[k], files, remote) && error == AppendOnlyConflict(paths[k]))
  }

  lemma FailsLater(paths: seq<string>, files: Files, moved: Files, remote: Files)
    requires paths != [] && paths[0] in files && !Conflicts(paths[0], files, remote)
    requires forall other | other in paths[1..] :: (other in moved) == (other in files) && Conflicts(other, moved, remote) == Conflicts(other, files, remote)
    ensures forall k, error | FailsFirst(paths[1..], moved, remote, k, error) :: FailsFirst(paths, files, remote, k + 1, error)
  {
    hide Conflicts;
    forall k, error | FailsFirst(paths[1..], moved, remote, k, error)
      ensures FailsFirst(paths, files, remote, k + 1, error)
    {
      assert forall i | 0 <= i <= k :: paths[1..][i] == paths[i + 1] && paths[1..][i] in paths[1..];
      assert forall i | 0 < i < k + 1 :: paths[i] == paths[1..][i - 1];
    }
  }

  // ---------- Writers racing ----------

  datatype Pc =
    | Idle
    | Attempt(attempt: nat)
    | Ready(attempt: nat, base: nat, contents: Files)
    | Synced
    | Raised(error: SyncError)
  {
    predicate Syncing() {
      Attempt? || Ready?
    }
  }

  datatype Writer = Writer(pc: Pc, paths: seq<string>, files: Files)

  /** The trees the branch has pointed to, oldest first, and the writers. */
  datatype World = World(history: seq<Files>, writers: map<nat, Writer>)
  {
    predicate Valid() {
      history != []
    }

    function Head(): Files
      requires Valid()
    {
      history[|history| - 1]
    }
  }

  /**
    Between two requests any other writer may move. A tree is read whole, because it is read by its own name; a request
    may fail at any point.
   */
  datatype Action =
    | Start(writer: nat, paths: seq<string>)
    | Read(writer: nat)
    | Push(writer: nat)
    | Edit(writer: nat, path: string, content: string)
    | Break(writer: nat)

  function Set(world: World, w: nat, writer: Writer): World {
    world.(writers := world.writers[w := writer])
  }

  /** The ref moves only forward from the commit that was read: `force` is false. */
  function AfterPush(world: World, w: nat): World
    requires world.Valid() && w in world.writers && world.writers[w].pc.Ready?
  {
    var writer := world.writers[w];
    if writer.pc.base == |world.history| - 1 then
      Set(world, w, writer.(pc := Synced)).(history := world.history + [world.Head() + writer.pc.contents])
    else if writer.pc.attempt + 1 < MAX_REF_UPDATE_ATTEMPTS then
      Set(world, w, writer.(pc := Attempt(writer.pc.attempt + 1)))
    else Set(world, w, writer.(pc := Raised(LostTooManyRaces)))
  }

  function AfterRead(world: World, w: nat): World
    requires world.Valid() && w in world.writers && world.writers[w].pc.Attempt?
  {
    var writer := world.writers[w];
    var (files, r) := Reconciled(writer.files, map[], writer.paths, world.Head());
    match r
    case Err(error) => Set(world, w, writer.(pc := Raised(error), files := files))
    case Ok(contents) => Set(world, w, writer.(pc := Ready(writer.pc.attempt, |world.history| - 1, contents), files := files))
  }

  /** One step; an action whose writer is not there for it changes nothing. */
  function Perform(world: World, action: Action): (next: World)
    requires world.Valid()
    ensures next.Valid()
  {
    if action.writer !in world.writers then world
    else
      var writer := world.writers[action.writer];
      match action
      case Start(w, paths) =>
        if writer.pc.Syncing() || paths == [] then world else Set(world, w, writer.(pc := Attempt(0), paths := paths))
      case Read(w) => if writer.pc.Attempt? then AfterRead(world, w) else world
      case Push(w) => if writer.pc.Ready? then AfterPush(world, w) else world
      case Edit(w, path, content) =>
        if writer.pc.Syncing() then world else Set(world, w, writer.(files := writer.files[path := content]))
      case Break(w) => if writer.pc.Syncing() then Set(world, w, writer.(pc := Raised(RequestFailed))) else world
  }

  function RunAll(world: World, actions: seq<Action>): (next: World)
    requires world.Valid()
    ensures next.Valid()
    decreases |actions|
  {
    if actions == [] then world else RunAll(Perform(world, actions[0]), actions[1..])
  }

  // ---------- What every step keeps ----------

  ghost predicate WriterOk(writer: Writer, history: seq<Files>) {
    match writer.pc
    case Ready(attempt, base, contents) =>
      && attempt < MAX_REF_UPDATE_ATTEMPTS
      && base < |history|
      && Publishable(writer.files, contents, history[base])
      && (forall path :: path in contents <==> path in writer.paths)
    case Attempt(attempt) => attempt < MAX_REF_UPDATE_ATTEMPTS
    case _ => true
  }

  /** The branch only ever grew, and every commit about to be published fits the tree it was made from. */
  ghost predicate SyncInv(world: World) {
    && world.Valid()
    && (forall i | 0 < i < |world.history| :: Extends(world.history[i - 1], world.history[i]))
    && (forall w | w in world.writers :: WriterOk(world.writers[w], world.history))
  }

  lemma OverlayExtends(tree: Files, contents: Files, files: Files)
    requires Publishable(files, contents, tree)
    ensures Extends(tree, tree + contents)
  {
    hide IsLog, Lines;
  }

  lemma ReadKeepsInv(world: World, w: nat)
    requires SyncInv(world) && w in world.writers && world.writers[w].pc.Attempt?
    ensures SyncInv(AfterRead(world, w))
  {
    hide Reconciled, Extends;
    var writer := world.writers[w];
    ReconciledIsPublishable(writer.files, map[], writer.paths, world.Head());
    hide Publishable;
  }

  lemma PushKeepsInv(world: World, w: nat)
    requires SyncInv(world) && w in world.writers && world.writers[w].pc.Ready?
    ensures SyncInv(AfterPush(world, w))
  {
    hide Extends, Publishable;
    var writer := world.writers[w];
    if writer.pc.base == |world.history| - 1 {
      OverlayExtends(world.Head(), writer.pc.contents, writer.files);
    }
  }

  lemma PerformKeepsInv(world: World, action: Action)
    requires SyncInv(world)
    ensures SyncInv(Perform(world, action))
  {
    hide Reconciled, Publishable, Extends, AfterRead, AfterPush;
    if action.writer in world.writers {
      match action
      case Read(w) => if world.writers[w].pc.Attempt? { ReadKeepsInv(world, w); }
      case Push(w) => if world.writers[w].pc.Ready? { PushKeepsInv(world, w); }
      case _ =>
    }
  }

  // ---------- Whole runs ----------

  lemma {:induction false} RunKeepsInv(world: World, actions: seq<Action>)
    requires SyncInv(world)
    ensures SyncInv(RunAll(world, actions))
    decreases |actions|
  {
    hide SyncInv, Perform;
    SyncInvIsValid(world);
    if actions != [] {
      PerformKeepsInv(world, actions[0]);
      RunKeepsInv(Perform(world, actions[0]), actions[1..]);
    }
  }

  lemma SyncInvIsValid(world: World)
    requires SyncInv(world)
    ensures world.Valid()
  {
  }

  lemma {:induction false} TreesExtendEarlierOnes(world: World, i: nat, j: nat)
    requires SyncInv(world) && i <= j < |world.history|
    ensures Extends(world.history[i], world.history[j])
    decreases j
  {
    hide WriterOk;
    if i < j {
      TreesExtendEarlierOnes(world, i, j - 1);
      ExtendsCompose(world.history[i], world.history[j - 1], world.history[j]);
    }
  }

  lemma {:induction false} HistoryGrows(world: World, actions: seq<Action>)
    requires world.Valid()
    ensures world.history <= RunAll(world, actions).history
    decreases |actions|
  {
    if actions != [] {
      StepGrowsHistory(world, actions[0]);
      hide Perform;
      HistoryGrows(Perform(world, actions[0]), actions[1..]);
    }
  }

  lemma StepGrowsHistory(world: World, action: Action)
    requires world.Valid()
    ensures world.history <= Perform(world, action).history
  {
    hide Reconciled;
  }

  /**
    However writers race, break off and retry, the branch only grows: its logs gain lines at the end, and a file of any
    other kind never changes once it is there.
   */
  lemma BranchOnlyGrows(world: World, actions: seq<Action>)
    requires SyncInv(world)
    ensures SyncInv(RunAll(world, actions))
    ensures Extends(world.Head(), RunAll(world, actions).Head())
  {
    hide SyncInv, Extends;
    SyncInvIsValid(world);
    RunKeepsInv(world, actions);
    HistoryGrows(world, actions);
    TreesExtendEarlierOnes(RunAll(world, actions), |world.history| - 1, |RunAll(world, actions).history| - 1);
  }

  /** A successful push publishes the writer's files at its paths, and touches no other path. */
  lemma PushPublishes(world: World, w: nat)
    requires SyncInv(world) && w in world.writers && world.writers[w].pc.Ready?
    requires Perform(world, Push(w)).writers[w].pc.Synced?
    ensures var next, writer := Perform(world, Push(w)), world.writers[w];
            && next.history == world.history + [next.Head()]
            && next.Head().Keys == world.Head().Keys + (set path | path in writer.paths)
            && (forall path | path in writer.paths :: path in writer.files && next.Head()[path] == writer.files[path])
            && (forall path | path in world.Head() && path !in writer.paths :: next.Head()[path] == world.Head()[path])
  {
    hide Extends, FileExtends;
    assert WriterOk(world.writers[w], world.history);
  }

  // ---------- What a sync publishes ----------

  /** No step of this run is the writer's own edit or a new sync of its. */
  ghost predicate OneSync(actions: seq<Action>, w: nat) {
    forall action | action in actions && action.writer == w :: action.Read? || action.Push?
  }

  lemma StepKeepsLocalLines(world: World, action: Action, w: nat)
    requires world.Valid() && w in world.writers && (action.writer == w ==> action.Read? || action.Push?)
    ensures w in Perform(world, action).writers
    ensures KeepsAll(world.writers[w].files, Perform(world, action).writers[w].files)
    ensures Perform(world, action).writers[w].paths == world.writers[w].paths
  {
    hide Reconciled, KeepsLines, MergedText;
    var writer := world.writers[w];
    NothingToKeep(writer.files);
    if action == Read(w) {
      ReconciledIsPublishable(writer.files, map[], writer.paths, world.Head());
    }
  }

  lemma {:induction false} RunKeepsLocalLines(world: World, actions: seq<Action>, w: nat)
    requires world.Valid() && w in world.writers && OneSync(actions, w)
    ensures var end := RunAll(world, actions);
            && w in end.writers && end.writers[w].paths == world.writers[w].paths
            && KeepsAll(world.writers[w].files, end.writers[w].files)
    decreases |actions|
  {
    hide Perform, KeepsLines;
    NothingToKeep(world.writers[w].files);
    if actions != [] {
      var next := Perform(world, actions[0]);
      StepKeepsLocalLines(world, actions[0], w);
      RunKeepsLocalLines(next, actions[1..], w);
      KeepsLinesCompose(world.writers[w].files, next.writers[w].files, RunAll(world, actions).writers[w].files);
    }
  }

  /**
    When a sync succeeds, every line its writer's files had when it began is on the branch, and stays there whatever
    anybody does afterwards.
   */
  lemma {:induction false} SyncedLinesStayOnTheBranch(
      world: World, during: seq<Action>, w: nat, afterwards: seq<Action>, path: string, line: string)
    requires SyncInv(world) && w in world.writers && OneSync(during, w)
    requires var ready := RunAll(world, during);
             w in ready.writers && ready.writers[w].pc.Ready? && Perform(ready, Push(w)).writers[w].pc.Synced?
    requires path in world.writers[w].paths && path in world.writers[w].files && line in Lines(world.writers[w].files[path])
    ensures var end := RunAll(Perform(RunAll(world, during), Push(w)), afterwards);
            path in end.Head() && line in Lines(end.Head()[path])
  {
    hide SyncInv, Perform, Lines, IsLog, RunAll;
    SyncInvIsValid(world);
    var ready := RunAll(world, during);
    var synced := Perform(ready, Push(w));
    RunKeepsInv(world, during);
    RunKeepsLocalLines(world, during, w);
    PushPublishes(ready, w);
    PerformKeepsInv(ready, Push(w));
    BranchOnlyGrows(synced, afterwards);
    assert KeepsLines(path, world.writers[w].files[path], synced.Head()[path]);
    assert line in Lines(synced.Head()[path]);
    assert FileExtends(path, synced.Head()[path], RunAll(synced, afterwards).Head()[path]);
  }
}
