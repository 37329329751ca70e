/** The single-file upload both upload scripts share: a PUT of the file's
  * contents to the repository's contents API, which succeeds exactly when
  * GitHub answers 200 or 201. The response (or the exception raised while
  * reading the file or sending the request) is an input. */
module GithubUpload {
  const Owner := "DaleTiley"
  const Repository := "timberflow"
  const Branch := "main"
  const ContentsApi := "https://api.github.com/repos/" + Owner + "/" + Repository + "/contents/"

  /** What an upload attempt came to. */
  datatype Outcome = Responded(status: int) | Raised

  /** The request body's commit message and branch, and the URL. */
  datatype Upload = Upload(url: string, message: string, branch: string)

  /** The request for `githubPath`. */
  function UploadRequest(githubPath: string): (u: Upload)
    ensures ContentsApi <= u.url && u.url[|ContentsApi|..] == githubPath
    ensures u.message == "Add " + githubPath && u.branch == "main"
  {
    Upload(ContentsApi + githubPath, "Add " + githubPath, Branch)
  }

  /** upload_file's result. */
  predicate Succeeded(o: Outcome) {
    o.Responded? && o.status in {200, 201}
  }

  /** Only the two success statuses count; any other status, including
    * other 2xx codes, and any exception is a failure. */
  lemma SucceededCases(o: Outcome)
    ensures Succeeded(o) <==> o == Responded(200) || o == Responded(201)
    ensures Succeeded(Responded(200)) && Succeeded(Responded(201))
    ensures !Succeeded(Responded(204)) && !Succeeded(Raised)
  {}

  /** The number of successes among the first `n` attempts, attempt `k`
    * having come to `respond(k)`. */
  function Successes(respond: nat -> Outcome, n: nat): (c: nat)
    ensures c <= n
  {
    if n == 0 then 0
    else Successes(respond, n - 1) + (if Succeeded(respond(n - 1)) then 1 else 0)
  }

  /** Counting more attempts never lowers the count. */
  lemma {:induction false} SuccessesMonotone(respond: nat -> Outcome, m: nat, n: nat)
    requires m <= n
    ensures Successes(respond, m) <= Successes(respond, n)
    decreases n - m
  {
    if m < n {
      SuccessesMonotone(respond, m, n - 1);
    }
  }
}
