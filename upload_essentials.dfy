/** UploadEssentials: the script that walks the working tree and uploads
  * the source files of the essential directories and of the root, stopping
  * after 100 successful uploads. The tree is an input; the walk is
  * `os.walk` top-down with hidden directories and node_modules pruned. */
module UploadEssentials {
  import opened Basics
  import opened Text
  import opened GithubUpload

  /** A directory: its file names and its subdirectories, in listing order. */
  datatype Dir = Dir(name: string, files: seq<string>, subdirs: seq<Dir>)

  /** One step of the walk: the directory's path, the names of the
    * directories leading to it from the top, and its files. */
  datatype Step = Step(root: string, names: seq<string>, files: seq<string>)

  predicate Hidden(name: string) { |name| > 0 && name[0] == '.' }

  /** The directories the walk does not descend into. */
  predicate Pruned(name: string) { Hidden(name) || name == "node_modules" }

  /** `os.path.join(root, name)` on a POSIX system. */
  function Join(root: string, name: string): string { root + "/" + name }

  /** The walk from `d`, whose path is `root`: the directory itself, then
    * each subdirectory that is not pruned, depth first. */
  function Walk(d: Dir, root: string, names: seq<string>): (r: seq<Step>)
    ensures |r| >= 1 && r[0] == Step(root, names, d.files)
    ensures forall s :: s in r ==> |names| <= |s.names| && s.names[..|names|] == names
    decreases d, 1
  {
    [Step(root, names, d.files)] + WalkAll(d.subdirs, root, names)
  }

  /** The walks of the subdirectories `ds` of the directory at `root`, in
    * order, every step lying below it. */
  function WalkAll(ds: seq<Dir>, root: string, names: seq<string>): (r: seq<Step>)
    ensures forall s :: s in r ==> |names| < |s.names| && s.names[..|names|] == names
    decreases ds, 0
  {
    if ds == [] then []
    else
      var names' := names + [ds[0].name];
      var first := if Pruned(ds[0].name) then [] else Walk(ds[0], Join(root, ds[0].name), names');
      assert forall s :: s in first ==> |names| < |s.names| && s.names[..|names|] == names by {
        forall s | s in first ensures |names| < |s.names| && s.names[..|names|] == names {
          assert s.names[..|names'|] == names';
          assert s.names[..|names|] == s.names[..|names'|][..|names|];
        }
      }
      first + WalkAll(ds[1..], root, names)
  }

  /** The walk enters every subdirectory that is not pruned: it steps into
    * it with its joined path and its name appended. */
  lemma {:induction false} WalkAllVisits(ds: seq<Dir>, root: string, names: seq<string>, k: nat)
    requires k < |ds| && !Pruned(ds[k].name)
    ensures Step(Join(root, ds[k].name), names + [ds[k].name], ds[k].files) in WalkAll(ds, root, names)
    decreases k
  {
    var names' := names + [ds[0].name];
    var first := if Pruned(ds[0].name) then [] else Walk(ds[0], Join(root, ds[0].name), names');
    assert WalkAll(ds, root, names) == first + WalkAll(ds[1..], root, names);
    if k == 0 {
      assert first[0] in first;
    } else {
      WalkAllVisits(ds[1..], root, names, k - 1);
    }
  }

  /** No step of the walk lies under a pruned directory. */
  lemma {:induction false} WalkSkipsPruned(d: Dir, root: string, names: seq<string>)
    requires forall k :: 0 <= k < |names| ==> !Pruned(names[k])
    ensures forall s, k :: s in Walk(d, root, names) && 0 <= k < |s.names| ==> !Pruned(s.names[k])
    decreases d, 1
  {
    WalkAllSkipsPruned(d.subdirs, root, names);
  }

  lemma {:induction false} WalkAllSkipsPruned(ds: seq<Dir>, root: string, names: seq<string>)
    requires forall k :: 0 <= k < |names| ==> !Pruned(names[k])
    ensures forall s, k :: s in WalkAll(ds, root, names) && 0 <= k < |s.names| ==> !Pruned(s.names[k])
    decreases ds, 0
  {
    if ds != [] {
      if !Pruned(ds[0].name) {
        var names' := names + [ds[0].name];
        assert forall k :: 0 <= k < |names'| ==> !Pruned(names'[k]);
        WalkSkipsPruned(ds[0], Join(root, ds[0].name), names');
      }
      WalkAllSkipsPruned(ds[1..], root, names);
    }
  }

  // ---------------------------------------------------------------------
  // The repository path

  predicate DotOrSlash(c: char) { c == '.' || c == '/' }

  /** `s.lstrip('./')`: every leading '.' and '/' removed. */
  function StripDotsAndSlashes(s: string): (r: string)
    ensures r == [] || !DotOrSlash(r[0])
  {
    if s != [] && DotOrSlash(s[0]) then StripDotsAndSlashes(s[1..]) else s
  }

  /** Stripping only removes characters from the front. */
  lemma {:induction false} StripIsSuffix(s: string)
    ensures |StripDotsAndSlashes(s)| <= |s|
    ensures StripDotsAndSlashes(s) == s[|s| - |StripDotsAndSlashes(s)|..]
  {
    if s != [] && DotOrSlash(s[0]) {
      StripIsSuffix(s[1..]);
    }
  }

  /** The path a file is stored under in the repository. */
  function RepositoryPath(filePath: string): string {
    StripDotsAndSlashes(ReplaceChar(filePath, '\\', '/'))
  }

  /** A repository path never starts with '.' or '/', holds no backslash,
    * and normalising it again changes nothing. */
  lemma RepositoryPathNormal(filePath: string)
    ensures var p := RepositoryPath(filePath);
      (p == [] || (p[0] != '.' && p[0] != '/')) &&
      (forall k :: 0 <= k < |p| ==> p[k] != '\\') &&
      RepositoryPath(p) == p
  {
    var p := RepositoryPath(filePath);
    var q := ReplaceChar(filePath, '\\', '/');
    StripIsSuffix(q);
    forall k | 0 <= k < |p| ensures p[k] != '\\' {
      assert p[k] == q[|q| - |p| + k];
    }
    assert ReplaceChar(p, '\\', '/') == p;
  }

  /** The top-level directories whose files are uploaded. */
  const EssentialDirs: seq<string> := ["src/", "components/", "server/", "shared/", "archive/", "api/", "utils/", "system/"]

  /** A path under an essential directory, or a file at the root. */
  predicate Eligible(path: string) {
    (exists k :: 0 <= k < |EssentialDirs| && EssentialDirs[k] <= path) || '/' !in path
  }

  /** The repository path a file of directory `root` is uploaded to, if it
    * is uploaded at all: hidden files are skipped, and so are files outside
    * the essential directories and the root. */
  function FileCandidate(root: string, file: string): (r: seq<string>)
    ensures |r| <= 1
  {
    var path := RepositoryPath(Join(root, file));
    if !Hidden(file) && Eligible(path) then [path] else []
  }

  /** The repository paths the step's files would be uploaded to, in order. */
  function StepCandidates(root: string, files: seq<string>): seq<string> {
    if files == [] then []
    else StepCandidates(root, files[..|files| - 1]) + FileCandidate(root, files[|files| - 1])
  }

  /** The repository paths of the whole walk that would be uploaded, in order. */
  function Candidates(steps: seq<Step>): seq<string> {
    if steps == [] then []
    else Candidates(steps[..|steps| - 1]) + StepCandidates(steps[|steps| - 1].root, steps[|steps| - 1].files)
  }

  /** Every candidate is an eligible, normalised path. */
  lemma {:induction false} StepCandidatesEligible(root: string, files: seq<string>)
    ensures forall p :: p in StepCandidates(root, files) ==> Eligible(p) && p == RepositoryPath(p)
    decreases |files|
  {
    if files != [] {
      var init := StepCandidates(root, files[..|files| - 1]);
      var path := RepositoryPath(Join(root, files[|files| - 1]));
      StepCandidatesEligible(root, files[..|files| - 1]);
      RepositoryPathNormal(Join(root, files[|files| - 1]));
      assert path == RepositoryPath(path);
      var last := FileCandidate(root, files[|files| - 1]);
      assert StepCandidates(root, files) == init + last;
      forall p | p in init + last ensures Eligible(p) && p == RepositoryPath(p) {
        if p in init {
          assert Eligible(p) && p == RepositoryPath(p);
        } else {
          assert p in last;
          assert p == path;
        }
      }
    }
  }

  lemma StepCandidatesStep(root: string, files: seq<string>, j: nat)
    requires j < |files|
    ensures StepCandidates(root, files[..j + 1]) == StepCandidates(root, files[..j]) + FileCandidate(root, files[j])
  {
    assert files[..j + 1][..j] == files[..j];
  }

  lemma {:induction false} StepCandidatesPrefix(root: string, files: seq<string>, j: nat)
    requires j <= |files|
    ensures StepCandidates(root, files[..j]) <= StepCandidates(root, files)
    decreases |files| - j
  {
    if j < |files| {
      StepCandidatesPrefix(root, files, j + 1);
      assert files[..j + 1][..j] == files[..j];
    } else {
      assert files[..j] == files;
    }
  }

  lemma CandidatesStep(steps: seq<Step>, i: nat)
    requires i < |steps|
    ensures Candidates(steps[..i + 1]) == Candidates(steps[..i]) + StepCandidates(steps[i].root, steps[i].files)
  {
    assert steps[..i + 1][..i] == steps[..i];
  }

  lemma {:induction false} CandidatesPrefix(steps: seq<Step>, i: nat)
    requires i <= |steps|
    ensures Candidates(steps[..i]) <= Candidates(steps)
    decreases |steps| - i
  {
    if i < |steps| {
      CandidatesPrefix(steps, i + 1);
      assert steps[..i + 1][..i] == steps[..i];
    } else {
      assert steps[..i] == steps;
    }
  }

  const Limit := 100

  /** Attempting at most one more path while under the limit keeps the count
    * of successes and keeps every earlier count under the limit. */
  lemma CountStep(respond: nat -> Outcome, attempts: seq<string>, candidate: seq<string>, uploaded: nat)
    requires |candidate| <= 1 && uploaded == Successes(respond, |attempts|) && uploaded < Limit
    requires forall m :: 0 <= m < |attempts| ==> Successes(respond, m) < Limit
    ensures var next := attempts + candidate;
      var up := if candidate != [] && Succeeded(respond(|attempts|)) then uploaded + 1 else uploaded;
      up == Successes(respond, |next|) && up <= Limit && forall m :: 0 <= m < |next| ==> Successes(respond, m) < Limit
  {
    if candidate != [] {
      assert |attempts + candidate| == |attempts| + 1;
    } else {
      assert attempts + candidate == attempts;
    }
  }

  /** The inner loop, over one step's files: starting from the attempts
    * and count so far, it attempts the step's candidates in order and
    * breaks once the count reaches 100, having scanned the files before
    * `scanned`. The count only changes on an attempt, so testing it before
    * each file is the same as testing it after each attempt. */
  method UploadStep(step: Step, respond: nat -> Outcome, before: seq<string>, count: nat)
    returns (attempts: seq<string>, uploaded: nat, scanned: nat)
    requires count == Successes(respond, |before|) && count < Limit
    requires forall m :: 0 <= m < |before| ==> Successes(respond, m) < Limit
    ensures scanned <= |step.files|
    ensures attempts == before + StepCandidates(step.root, step.files[..scanned])
    ensures scanned == |step.files| || uploaded == Limit
    ensures uploaded == Successes(respond, |attempts|) && uploaded <= Limit
    ensures forall m :: 0 <= m < |attempts| ==> Successes(respond, m) < Limit
  {
    attempts := before;
    uploaded := count;
    scanned := 0;
    ghost var found: seq<string> := [];
    while scanned < |step.files| && uploaded < Limit
      invariant 0 <= scanned <= |step.files|
      invariant found == StepCandidates(step.root, step.files[..scanned]) && attempts == before + found
      invariant uploaded == Successes(respond, |attempts|) && uploaded <= Limit
      invariant forall m :: 0 <= m < |attempts| ==> Successes(respond, m) < Limit
    {
      var candidate := FileCandidate(step.root, step.files[scanned]);
      StepCandidatesStep(step.root, step.files, scanned);
      CountStep(respond, attempts, candidate, uploaded);
      if candidate != [] {
        if Succeeded(respond(|attempts|)) {
          uploaded := uploaded + 1;
        }
        attempts := attempts + candidate;
      }
      found := found + candidate;
      scanned := scanned + 1;
    }
  }

  lemma PrefixAppend(a: seq<string>, b: seq<string>, c: seq<string>)
    requires b <= c
    ensures a + b <= a + c
  {
    assert (a + c)[..|a + b|] == a + c[..|b|];
  }

  lemma PrefixTrans(a: seq<string>, b: seq<string>, c: seq<string>)
    requires a <= b && b <= c
    ensures a <= c
  {
    assert c[..|a|] == b[..|a|];
  }

  /** The outer loop, over the steps of the walk. */
  method UploadSteps(steps: seq<Step>, respond: nat -> Outcome) returns (attempts: seq<string>, uploaded: nat)
    ensures attempts <= Candidates(steps)
    ensures uploaded == Successes(respond, |attempts|) && uploaded <= Limit
    ensures attempts == Candidates(steps) || uploaded == Limit
    ensures forall m :: 0 <= m < |attempts| ==> Successes(respond, m) < Limit
  {
    attempts := [];
    uploaded := 0;
    var i := 0;
    while i < |steps| && uploaded < Limit
      invariant 0 <= i <= |steps|
      invariant uploaded < Limit ==> attempts == Candidates(steps[..i])
      invariant uploaded == Limit ==> attempts <= Candidates(steps)
      invariant uploaded == Successes(respond, |attempts|) && uploaded <= Limit
      invariant forall m :: 0 <= m < |attempts| ==> Successes(respond, m) < Limit
    {
      var step := steps[i];
      var scanned;
      ghost var done := attempts;
      CandidatesStep(steps, i);
      attempts, uploaded, scanned := UploadStep(step, respond, attempts, uploaded);
      if uploaded == Limit {
        StepCandidatesPrefix(step.root, step.files, scanned);
        PrefixAppend(done, StepCandidates(step.root, step.files[..scanned]), StepCandidates(step.root, step.files));
        CandidatesPrefix(steps, i + 1);
        PrefixTrans(attempts, Candidates(steps[..i + 1]), Candidates(steps));
      } else {
        assert step.files[..scanned] == step.files;
      }
      i := i + 1;
    }
    if uploaded < Limit {
      assert steps[..|steps|] == steps;
    }
  }

  /** The script: the loops over the walk of `tree` from ".", attempt `k`
    * coming to `respond(k)`. The attempts are the candidates in walk order
    * up to the one that brings the count of successes to 100, or all of
    * them. */
  method UploadAll(tree: Dir, respond: nat -> Outcome) returns (attempts: seq<string>, uploaded: nat)
    ensures attempts <= Candidates(Walk(tree, ".", []))
    ensures uploaded == Successes(respond, |attempts|) && uploaded <= Limit
    ensures attempts == Candidates(Walk(tree, ".", [])) || uploaded == Limit
    ensures forall m :: 0 <= m < |attempts| ==> Successes(respond, m) < Limit
  {
    attempts, uploaded := UploadSteps(Walk(tree, ".", []), respond);
  }
}
