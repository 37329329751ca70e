/** UploadToGithub: the script that uploads every file of the working tree
  * that no skip pattern matches, sorting the paths into uploaded and
  * failed ones, and lists the first ten failures. The recursive listing
  * of the tree is an input. */
module UploadToGithub {
  import opened Basics
  import opened Text
  import opened GithubUpload

  /** The substrings that exclude a path. */
  const SkipPatterns: seq<string> :=
    [".git/", "node_modules/", ".env", ".replit", ".config/", ".upm/", "replit.nix", "__pycache__/", ".pyc", "uv.lock"]

  /** should_skip_file's loop over `patterns`: true at the first pattern
    * found in the path. */
  function SkipMatch(path: string, patterns: seq<string>): (skip: bool)
    ensures skip <==> exists k :: 0 <= k < |patterns| && Contains(path, patterns[k])
  {
    if patterns == [] then false
    else if Contains(path, patterns[0]) then true
    else
      var rest := SkipMatch(path, patterns[1..]);
      assert forall k :: 1 <= k < |patterns| ==> patterns[k] == patterns[1..][k - 1];
      rest
  }

  predicate ShouldSkip(path: string) { SkipMatch(path, SkipPatterns) }

  /** Matching is by substring alone: '.env' also excludes '.envrc' and a
    * file named 'my.environment.md', and '.git/' a directory 'web.git/'. */
  lemma SkipIsTextual()
    ensures ShouldSkip(".envrc")
    ensures ShouldSkip("docs/my.environment.md")
    ensures ShouldSkip("vendor/web.git/index.js")
  {
    assert SkipPatterns[0] == ".git/" && SkipPatterns[2] == ".env";
    assert ".envrc"[0..0 + 4] == ".env";
    ContainsAt(".envrc", ".env", 0);
    assert "docs/my.environment.md"[7..7 + 4] == ".env";
    ContainsAt("docs/my.environment.md", ".env", 7);
    assert "vendor/web.git/index.js"[10..10 + 5] == ".git/";
    ContainsAt("vendor/web.git/index.js", ".git/", 10);
  }

  /** The repository path: the relative path with backslashes turned into
    * slashes. */
  function GithubPath(path: string): (r: string)
    ensures |r| == |path| && forall k :: 0 <= k < |r| ==> r[k] != '\\'
  {
    ReplaceChar(path, '\\', '/')
  }

  /** One path `rglob('*')` yields. */
  datatype Entry = Entry(path: string, isFile: bool)

  /** The repository paths of the files to upload, in listing order. */
  function EligiblePaths(entries: seq<Entry>): (r: seq<string>)
    ensures |r| <= |entries|
    ensures forall p :: p in r <==>
      (exists k :: 0 <= k < |entries| && entries[k].isFile && !ShouldSkip(entries[k].path) && p == GithubPath(entries[k].path))
  {
    if entries == [] then []
    else
      var init, e := entries[..|entries| - 1], entries[|entries| - 1];
      assert forall k :: 0 <= k < |init| ==> init[k] == entries[k];
      EligiblePaths(init) + (if e.isFile && !ShouldSkip(e.path) then [GithubPath(e.path)] else [])
  }

  /** The paths whose upload succeeded, attempt `k` being for `paths[k]`. */
  function UploadedOf(paths: seq<string>, respond: nat -> Outcome): seq<string> {
    if paths == [] then []
    else
      var n := |paths| - 1;
      UploadedOf(paths[..n], respond) + (if Succeeded(respond(n)) then [paths[n]] else [])
  }

  /** The paths whose upload failed. */
  function FailedOf(paths: seq<string>, respond: nat -> Outcome): seq<string> {
    if paths == [] then []
    else
      var n := |paths| - 1;
      FailedOf(paths[..n], respond) + (if Succeeded(respond(n)) then [] else [paths[n]])
  }

  /** Every eligible path lands in exactly one of the two lists. */
  lemma {:induction false} PartitionExact(paths: seq<string>, respond: nat -> Outcome)
    ensures |UploadedOf(paths, respond)| + |FailedOf(paths, respond)| == |paths|
    ensures multiset(UploadedOf(paths, respond)) + multiset(FailedOf(paths, respond)) == multiset(paths)
    decreases |paths|
  {
    if paths != [] {
      var n := |paths| - 1;
      var init, p := paths[..n], paths[n];
      PartitionExact(init, respond);
      assert paths == init + [p];
      AttemptStep(init, p, respond);
      PartitionStep(UploadedOf(init, respond), FailedOf(init, respond), init, p, Succeeded(respond(n)));
    }
  }

  /** Adding one path to one of two lists that split the paths so far
    * splits the paths with it. */
  lemma PartitionStep(up: seq<string>, down: seq<string>, init: seq<string>, p: string, ok: bool)
    requires |up| + |down| == |init| && multiset(up) + multiset(down) == multiset(init)
    ensures var up', down' := up + (if ok then [p] else []), down + (if ok then [] else [p]);
      |up'| + |down'| == |init + [p]| && multiset(up') + multiset(down') == multiset(init + [p])
  {
    assert multiset(init + [p]) == multiset(init) + multiset{p};
    if ok {
      assert multiset(up + [p]) == multiset(up) + multiset{p};
      assert down + [] == down;
    } else {
      assert multiset(down + [p]) == multiset(down) + multiset{p};
      assert up + [] == up;
    }
  }

  /** One more listed entry adds its repository path when it is an eligible
    * file. */
  lemma EligibleStep(entries: seq<Entry>, i: nat)
    requires i < |entries|
    ensures EligiblePaths(entries[..i + 1]) == EligiblePaths(entries[..i]) +
      (if entries[i].isFile && !ShouldSkip(entries[i].path) then [GithubPath(entries[i].path)] else [])
  {
    assert entries[..i + 1][..i] == entries[..i];
  }

  /** One more attempt lands its path in one of the two lists. */
  lemma AttemptStep(paths: seq<string>, p: string, respond: nat -> Outcome)
    ensures UploadedOf(paths + [p], respond) == UploadedOf(paths, respond) + (if Succeeded(respond(|paths|)) then [p] else [])
    ensures FailedOf(paths + [p], respond) == FailedOf(paths, respond) + (if Succeeded(respond(|paths|)) then [] else [p])
  {
    UploadedStep(paths, p, respond);
    FailedStep(paths, p, respond);
  }

  lemma UploadedStep(paths: seq<string>, p: string, respond: nat -> Outcome)
    ensures UploadedOf(paths + [p], respond) == UploadedOf(paths, respond) + (if Succeeded(respond(|paths|)) then [p] else [])
  {
    assert (paths + [p])[..|paths|] == paths;
  }

  lemma FailedStep(paths: seq<string>, p: string, respond: nat -> Outcome)
    ensures FailedOf(paths + [p], respond) == FailedOf(paths, respond) + (if Succeeded(respond(|paths|)) then [] else [p])
  {
    assert (paths + [p])[..|paths|] == paths;
  }

  /** How many failures the summary lists at most. */
  const PreviewSize := 10

  /** main: each file that is not skipped is uploaded, attempt `k` coming to
    * `respond(k)`, and its path appended to the uploaded or the failed
    * list; `shown` is what the summary lists of the failures. */
  method Run(entries: seq<Entry>, respond: nat -> Outcome)
    returns (uploadedFiles: seq<string>, failedFiles: seq<string>, shown: seq<string>)
    ensures uploadedFiles == UploadedOf(EligiblePaths(entries), respond)
    ensures failedFiles == FailedOf(EligiblePaths(entries), respond)
    ensures |uploadedFiles| + |failedFiles| == |EligiblePaths(entries)|
    ensures shown <= failedFiles && |shown| == Min(PreviewSize, |failedFiles|)
  {
    uploadedFiles := [];
    failedFiles := [];
    ghost var paths: seq<string> := [];
    var i := 0;
    while i < |entries|
      invariant 0 <= i <= |entries|
      invariant paths == EligiblePaths(entries[..i])
      invariant uploadedFiles == UploadedOf(paths, respond) && failedFiles == FailedOf(paths, respond)
      invariant |uploadedFiles| + |failedFiles| == |paths|
    {
      var e := entries[i];
      EligibleStep(entries, i);
      if e.isFile && !ShouldSkip(e.path) {
        var githubPath := GithubPath(e.path);
        AttemptStep(paths, githubPath, respond);
        var attempt := |uploadedFiles| + |failedFiles|;
        if Succeeded(respond(attempt)) {
          uploadedFiles := uploadedFiles + [githubPath];
        } else {
          failedFiles := failedFiles + [githubPath];
        }
        paths := paths + [githubPath];
      } else {
        assert paths + [] == paths;
      }
      i := i + 1;
    }
    assert entries[..|entries|] == entries;
    shown := if |failedFiles| <= PreviewSize then failedFiles else failedFiles[..PreviewSize];
  }
}
