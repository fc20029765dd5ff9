/** The deploy webhook receiver: the GitHub signature check and what each request leads to.
    HMAC-SHA256 (as lower-case hex), `JSON.parse` and the deployment itself are parameters. */
module Webhook {
  import opened Wrappers
  import opened Json
  import Text

  const DefaultSecret := "webhook-secret"

  /** `process.env.GITHUB_WEBHOOK_SECRET || 'webhook-secret'`: the signatures are never keyed
      with an empty secret, and the environment's value is used whenever it is non-empty. */
  function Secret(env: Option<string>): (s: string)
    ensures s != ""
    ensures env.Some? && env.value != "" ==> s == env.value
    ensures s == DefaultSecret <==> env.None? || env.value in {"", DefaultSecret}
  {
    Text.OrElse(env, DefaultSecret)
  }

  type Headers = map<string, string>

  /** The header GitHub computes: `sha256=` and the hex digest of the body under the secret. */
  function Sign(secret: string, body: string, hmac: (string, string) -> string): string
  {
    "sha256=" + hmac(secret, body)
  }

  /** `verifySignature`: a missing or empty header fails; otherwise the header must equal the
      signature computed here, character for character. */
  function VerifySignature(headers: Headers, body: string, secret: string, hmac: (string, string) -> string): (ok: bool)
    ensures ok <==> "x-hub-signature-256" in headers && headers["x-hub-signature-256"] == Sign(secret, body, hmac)
  {
    if "x-hub-signature-256" !in headers || headers["x-hub-signature-256"] == "" then false
    else Sign(secret, body, hmac) == headers["x-hub-signature-256"]
  }

  /** A correctly signed request verifies; a signature made for another body verifies only if
      the digests of the two bodies coincide. */
  lemma SignThenVerify(headers: Headers, body: string, other: string, secret: string, hmac: (string, string) -> string)
    ensures VerifySignature(headers["x-hub-signature-256" := Sign(secret, body, hmac)], body, secret, hmac)
    ensures VerifySignature(headers["x-hub-signature-256" := Sign(secret, body, hmac)], other, secret, hmac)
            ==> hmac(secret, other) == hmac(secret, body)
  {
    var h := headers["x-hub-signature-256" := Sign(secret, body, hmac)];
    if VerifySignature(h, other, secret, hmac) {
      assert "sha256=" + hmac(secret, other) == "sha256=" + hmac(secret, body);
      assert hmac(secret, other) == ("sha256=" + hmac(secret, other))[7..];
    }
  }

  datatype Request = Request(httpMethod: string, url: string, headers: Headers, body: string)

  /** The status and text the receiver answers with, and whether it ran the deployment. */
  datatype Response = Response(status: int, text: string, deployed: bool)

  const MainRef := "refs/heads/main"

  /** The payload names the main branch and a repository, so the handler goes on to deploy. */
  predicate PushToMain(fields: map<string, Json>)
  {
    Get(fields, "ref") == Some(JStr(MainRef)) && Truthy(Get(fields, "repository"))
  }

  /** The request handler.  `parse` is `JSON.parse` (`None` when it throws) and `deploy` is
      the outcome of running the deployment.  Reading a field of a null payload, or the
      `pusher.name` the log line reads when `pusher` is missing or null, throws into the
      400 branch. */
  function Handle(req: Request, secret: string, hmac: (string, string) -> string,
                  parse: string -> Option<Json>, deploy: bool): (r: Response)
    ensures req.httpMethod != "POST" || req.url != "/webhook" ==> r == Response(404, "", false)
    ensures r.deployed ==> VerifySignature(req.headers, req.body, secret, hmac)
    ensures r.deployed <==>
      && req.httpMethod == "POST" && req.url == "/webhook"
      && VerifySignature(req.headers, req.body, secret, hmac)
      && parse(req.body).Some? && parse(req.body).value.JObj?
      && PushToMain(parse(req.body).value.fields)
      && !Nullish(Get(parse(req.body).value.fields, "pusher"))
    ensures r.deployed ==> r == (if deploy then Response(200, "Deployment successful", true) else Response(500, "Deployment failed", true))
    ensures req.httpMethod == "POST" && req.url == "/webhook" && !VerifySignature(req.headers, req.body, secret, hmac)
            ==> r == Response(401, "Unauthorized", false)
  {
    if req.httpMethod != "POST" || req.url != "/webhook" then Response(404, "", false)
    else if !VerifySignature(req.headers, req.body, secret, hmac) then Response(401, "Unauthorized", false)
    else match parse(req.body)
      case None => Response(400, "Bad request", false)
      case Some(payload) =>
        match payload
        case JNull => Response(400, "Bad request", false)
        case JObj(fields) =>
          if PushToMain(fields) then
            if Nullish(Get(fields, "pusher")) then Response(400, "Bad request", false)
            else if deploy then Response(200, "Deployment successful", true)
            else Response(500, "Deployment failed", true)
          else Response(200, "OK", false)
        case _ => Response(200, "OK", false)
  }

  /** A signed push to any other branch is acknowledged with 200 `OK` and deploys nothing. */
  lemma OtherBranchSkipped(req: Request, secret: string, hmac: (string, string) -> string,
                           parse: string -> Option<Json>, deploy: bool, branch: string)
    requires req.httpMethod == "POST" && req.url == "/webhook"
    requires VerifySignature(req.headers, req.body, secret, hmac)
    requires parse(req.body).Some? && parse(req.body).value.JObj?
    requires Get(parse(req.body).value.fields, "ref") == Some(JStr(branch)) && branch != MainRef
    ensures Handle(req, secret, hmac, parse, deploy) == Response(200, "OK", false)
  {
  }

  /** The URL is compared whole, so a query string is a 404 even with a valid signature. */
  lemma QueryStringIsNotFound(req: Request, secret: string, hmac: (string, string) -> string,
                              parse: string -> Option<Json>, deploy: bool)
    requires req.url == "/webhook?source=github"
    ensures Handle(req, secret, hmac, parse, deploy).status == 404
  {
  }

  // ---------------------------------------------------------------- loading the script

  /** A line that starts with `#`. */
  predicate HashLine(line: string)
  {
    |line| > 0 && line[0] == '#'
  }

  /** A `#!` line: a hashbang comment when it is the first line of a script (section 12.5 of
      ECMAScript 2023). */
  predicate IsHashbang(line: string)
  {
    |line| >= 2 && line[..2] == "#!"
  }

  predicate NoHashLines(lines: seq<string>)
  {
    forall i :: 0 <= i < |lines| ==> !HashLine(lines[i])
  }

  /** Whether the parser accepts the opening lines of a script, the lines before its first
      statement, each blank, a `//` comment or a `#` line.  Only the first line may start with
      `#`, and then only as a hashbang; a `#` on any later line is a syntax error, and a script
      with a syntax error runs none of its lines. */
  function HeaderParses(lines: seq<string>): (ok: bool)
    ensures ok <==> forall i :: 0 <= i < |lines| && HashLine(lines[i]) ==> i == 0 && IsHashbang(lines[i])
  {
    if |lines| == 0 then true
    else
      assert forall i :: 1 <= i < |lines| ==> lines[i] == lines[1..][i - 1];
      (!HashLine(lines[0]) || IsHashbang(lines[0])) && NoHashLines(lines[1..])
  }

  /** The receiver's opening lines as written: a hashbang, a blank line and two shell-style
      comment lines. */
  const HeaderAsWritten: seq<string> := [
    "#!/bin/bash",
    "",
    "#" + " GitHub Webhook Receiver for automated deployments",
    "#" + " This script runs on EC2 and listens for GitHub webhooks"
  ]

  /** The same opening lines with the two comments written as JavaScript comments. */
  const HeaderCorrected: seq<string> := [
    "#!/bin/bash",
    "",
    "//" + " GitHub Webhook Receiver for automated deployments",
    "//" + " This script runs on EC2 and listens for GitHub webhooks"
  ]

  /** As written, the third line is a `#` line after the first, so the script never parses and
      `Handle` never gets to answer a request. */
  lemma HeaderAsWrittenRejected()
    ensures !HeaderParses(HeaderAsWritten)
    ensures HashLine(HeaderAsWritten[2])
  {
    assert HeaderAsWritten[2][0] == "#"[0];
  }

  /** Any `#` line after the first rejects the whole script. */
  lemma HashAfterFirstLineRejects(lines: seq<string>, i: nat)
    requires 0 < i < |lines| && HashLine(lines[i])
    ensures !HeaderParses(lines)
  {
  }

  /** A hashbang followed only by blank lines and `//` comments parses, so the corrected file
      starts and serves requests as `Handle` describes. */
  lemma {:induction false} SlashCommentHeaderParses(lines: seq<string>)
    requires |lines| > 0 && IsHashbang(lines[0])
    requires forall i :: 1 <= i < |lines| ==> lines[i] == "" || (|lines[i]| >= 2 && lines[i][0] == '/' && lines[i][1] == '/')
    ensures HeaderParses(lines)
  {
    forall i | 1 <= i < |lines|
      ensures !HashLine(lines[i])
    {
      if lines[i] != "" {
        assert lines[i][0] == '/';
      }
    }
  }

  /** The corrected header parses. */
  lemma HeaderCorrectedParses()
    ensures HeaderParses(HeaderCorrected)
  {
    assert HeaderCorrected[0][..2] == "#!";
    assert HeaderCorrected[2][0] == HeaderCorrected[2][1] == "//"[0];
    assert HeaderCorrected[3][0] == HeaderCorrected[3][1] == "//"[1];
    SlashCommentHeaderParses(HeaderCorrected);
  }
}
