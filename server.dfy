/** The server side of `src/bin/client.rs`: `run_server` and its inner
    `process_request`.  The environment is a map from variable names to
    values, and `Stage::file_check` is a function passed in. */
module Server {
  import opened Contract
  import opened Framing

  /** The environment variable that names the default big-disk path. */
  const BiggusDiskus: string := "BIGGUS_DISKUS"

  /** `Stage::file_check(big_disk, run_number_list, None)`. */
  type FileCheck = (Stage, string, seq<string>) -> Status

  /** The big-disk path the server uses for a request: the request's own
      override, else the environment's `BIGGUS_DISKUS`, else none. */
  function EffectiveBigDisk(request: Request, env: map<string, string>): Option<string>
  {
    match request.bigDisk
    case Some(path) => Some(path)
    case None => if BiggusDiskus in env then Some(env[BiggusDiskus]) else None
  }

  /** `process_request`: parse the request text, resolve the big disk, run
      the stage's check. */
  function ProcessRequest(codec: Json, env: map<string, string>, fileCheck: FileCheck, text: string)
    : (r: Result<Status, ServerError>)
    ensures r == Err(RequestParse) <==> codec.requestFromString(text).None?
    ensures r == Err(BiggusDiskusNotSet) <==>
      codec.requestFromString(text).Some? &&
      codec.requestFromString(text).value.bigDisk.None? && BiggusDiskus !in env
    ensures r.Ok? <==>
      codec.requestFromString(text).Some? &&
      EffectiveBigDisk(codec.requestFromString(text).value, env).Some?
    ensures r.Ok? ==>
      var request := codec.requestFromString(text).value;
      r.value == fileCheck(request.stage, EffectiveBigDisk(request, env).value, request.runNumberList)
  {
    match codec.requestFromString(text)
    case None => Err(RequestParse)
    case Some(request) =>
      match EffectiveBigDisk(request, env)
      case None => Err(BiggusDiskusNotSet)
      case Some(path) => Ok(fileCheck(request.stage, path, request.runNumberList))
  }

  /** The response `run_server` builds from `process_request`'s result. */
  function ServerResponse(codec: Json, env: map<string, string>, fileCheck: FileCheck, text: string)
    : (r: Response)
    ensures r == Error(RequestParse) <==> codec.requestFromString(text).None?
    ensures r == Error(BiggusDiskusNotSet) <==>
      codec.requestFromString(text).Some? &&
      codec.requestFromString(text).value.bigDisk.None? && BiggusDiskus !in env
    ensures r.Success? ==>
      var request := codec.requestFromString(text).value;
      EffectiveBigDisk(request, env).Some? &&
      r.status == fileCheck(request.stage, EffectiveBigDisk(request, env).value, request.runNumberList)
  {
    match ProcessRequest(codec, env, fileCheck, text)
    case Err(e) => Error(e)
    case Ok(status) => Success(status)
  }

  /** Everything `run_server` prints: the serialised response between the
      two delimiters, with no newline after it. */
  function ServerOutput(codec: Json, env: map<string, string>, fileCheck: FileCheck, text: string)
    : (out: string)
    ensures var json := codec.responseToString(ServerResponse(codec, env, fileCheck, text));
      |out| == |json| + 4 && out[..2] == "||" && out[2..|out| - 2] == json && out[|out| - 2..] == "||"
  {
    Frame(codec.responseToString(ServerResponse(codec, env, fileCheck, text)))
  }

  /** An override in the request is used whatever the environment says. */
  lemma OverrideBeatsEnvironment(codec: Json, env1: map<string, string>, env2: map<string, string>,
                                 fileCheck: FileCheck, text: string, request: Request, path: string)
    requires codec.requestFromString(text) == Some(request) && request.bigDisk == Some(path)
    ensures ServerResponse(codec, env1, fileCheck, text) == ServerResponse(codec, env2, fileCheck, text)
    ensures ServerResponse(codec, env1, fileCheck, text) ==
            Success(fileCheck(request.stage, path, request.runNumberList))
  {
  }

  /** Without an override, the environment decides: unset gives
      `Error(BiggusDiskusNotSet)`, set gives the check on its value. */
  lemma EnvironmentWithoutOverride(codec: Json, env: map<string, string>, fileCheck: FileCheck,
                                   text: string, request: Request)
    requires codec.requestFromString(text) == Some(request) && request.bigDisk.None?
    ensures ServerResponse(codec, env, fileCheck, text) ==
      if BiggusDiskus in env then Success(fileCheck(request.stage, env[BiggusDiskus], request.runNumberList))
      else Error(BiggusDiskusNotSet)
  {
  }

  /** What the server prints is a frame the client's regex decodes back to
      the serialised response, provided the serialisation has no newline. */
  lemma ServerOutputDecodes(codec: Json, env: map<string, string>, fileCheck: FileCheck, text: string)
    requires '\n' !in codec.responseToString(ServerResponse(codec, env, fileCheck, text))
    ensures Capture(ServerOutput(codec, env, fileCheck, text)) ==
            Some(codec.responseToString(ServerResponse(codec, env, fileCheck, text)))
  {
    CaptureOfFrame(codec.responseToString(ServerResponse(codec, env, fileCheck, text)));
  }
}
