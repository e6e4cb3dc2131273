/**
 * The two HTTP routes of backend/server.js that guard their inputs:
 * `POST /execute` (lines 98-111) and `POST /get-video-token` (lines 116-143).
 * A request body field is `None` when absent or null; JavaScript treats it,
 * and the empty string, as falsy.
 */
module Routes {
  import opened Wrappers
  import Execute
  import Workspace

  datatype Body = ErrorMessage(error: string) | ExecutionResult(result: Execute.ExecResult) | TokenIssued(token: string)
  datatype Response = Response(status: nat, body: Body)

  datatype ExecuteRequest = ExecuteRequest(code: Option<string>, language: Option<string>, input: Option<string>)
  datatype TokenRequest = TokenRequest(roomName: Option<string>, participantName: Option<string>, email: Option<string>)

  /** JavaScript truthiness of a string-valued field. */
  predicate Truthy(field: Option<string>) {
    field.Some? && field.value != ""
  }

  const CodeAndLanguageRequired: string := "Code and language are required"
  const TokenFieldsRequired: string := "roomName, participantName, and email are required"
  const TokenFailed: string := "Failed to generate video token"

  /** The job a validated `/execute` body describes. */
  function JobOf(req: ExecuteRequest): Execute.Job
    requires Truthy(req.code) && Truthy(req.language)
  {
    Execute.Job(req.language.value, req.code.value, req.input)
  }

  /**
   * The answer of `/execute`, given how the promise of `executeCode` settles
   * when it is called: 400 for a missing field, 200 with the result it
   * resolves to, or 500 with the message it rejects with.
   */
  function ExecuteResponse(req: ExecuteRequest, host: Execute.Host, faults: Execute.Faults, outcome: Execute.ExecOutcome): (resp: Response)
    ensures resp.status in {200, 400, 500}
    ensures resp.status == 400 <==> !Truthy(req.code) || !Truthy(req.language)
    ensures resp.status == 400 ==> resp.body == ErrorMessage(CodeAndLanguageRequired)
    ensures resp.status != 400 ==> var settled := Execute.Execute(host, JobOf(req), faults, outcome).settled;
      && (resp.status == 500 <==> settled.Rejected?)
      && (settled.Resolved? ==> resp.body == ExecutionResult(settled.value))
      && (settled.Rejected? ==> resp.body == ErrorMessage(settled.reason))
  {
    if !Truthy(req.code) || !Truthy(req.language) then Response(400, ErrorMessage(CodeAndLanguageRequired))
    else
      match Execute.Execute(host, JobOf(req), faults, outcome).settled
      case Resolved(result) => Response(200, ExecutionResult(result))
      case Rejected(reason) => Response(500, ErrorMessage(reason))
  }

  /** A 500 from `/execute` happens exactly when the container could not be spawned after staging succeeded. */
  lemma ServerErrorOnlyWhenSpawnThrows(req: ExecuteRequest, host: Execute.Host, faults: Execute.Faults, outcome: Execute.ExecOutcome)
    ensures ExecuteResponse(req, host, faults, outcome).status == 500 <==>
      Truthy(req.code) && Truthy(req.language) &&
      Execute.Stage(host, JobOf(req), faults).Staged? && outcome.SpawnThrew?
  {
  }

  /**
   * `/execute`: validates the body, then awaits `executeCode`; a rejection
   * lands in the route's `catch`. A rejected request never touches the
   * filesystem.
   */
  method HandleExecute(fs: Workspace.FileSystem, req: ExecuteRequest, host: Execute.Host, faults: Execute.Faults, outcome: Execute.ExecOutcome)
    returns (resp: Response)
    requires fs.platform == host.platform
    modifies fs
    ensures resp == ExecuteResponse(req, host, faults, outcome)
    ensures resp.status == 400 ==> fs.entries == old(fs.entries)
    ensures resp.status != 400 ==> fs.entries == Execute.FinalEntries(host, JobOf(req), faults, outcome, old(fs.entries))
  {
    if !Truthy(req.code) || !Truthy(req.language) {
      return Response(400, ErrorMessage(CodeAndLanguageRequired));
    }
    var settled, _, _ := Execute.ExecuteCode(fs, host, JobOf(req), faults, outcome);
    match settled {
      case Resolved(result) => resp := Response(200, ExecutionResult(result));
      case Rejected(reason) => resp := Response(500, ErrorMessage(reason));
    }
  }

  /**
   * `/get-video-token`: 400 unless all three fields are truthy; otherwise the
   * token the external signer produced (`minted`), or 500 when it threw.
   */
  function VideoTokenResponse(req: TokenRequest, minted: Option<string>): (resp: Response)
    ensures resp.status == 400 <==> !(Truthy(req.roomName) && Truthy(req.participantName) && Truthy(req.email))
    ensures resp.status == 400 ==> resp.body == ErrorMessage(TokenFieldsRequired)
    ensures resp.status != 400 && minted.Some? ==> resp == Response(200, TokenIssued(minted.value))
    ensures resp.status != 400 && minted.None? ==> resp == Response(500, ErrorMessage(TokenFailed))
  {
    if !Truthy(req.roomName) || !Truthy(req.participantName) || !Truthy(req.email) then
      Response(400, ErrorMessage(TokenFieldsRequired))
    else
      match minted
      case Some(token) => Response(200, TokenIssued(token))
      case None => Response(500, ErrorMessage(TokenFailed))
  }
}
