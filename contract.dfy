/** The request/response contract shared by the client and the server
    (the `status_v2::request` types), plus the small wrappers the rest of
    the model uses for optional values, fallible results and panics. */
module Contract {

  datatype Option<+T> = None | Some(value: T)

  datatype Result<+T, +E> = Ok(value: T) | Err(error: E)

  /** What a Rust call that may `panic!` or `expect` produces: its value, or
      the panic with the message the source prints. */
  datatype Outcome<+T> = Done(value: T) | Panic(message: string)

  /** The stage-check result; produced by `Stage::file_check`, which this
      model does not look into. */
  type Status(==, !new)

  /** Everything of a stage's configuration apart from its host preference. */
  type StageConfig(==, !new)

  /** One pipeline stage: its opaque configuration and its optional list of
      preferred computers. */
  datatype Stage = Stage(config: StageConfig, preferredComputer: Option<seq<string>>)

  /** A pipeline: its ordered stages and an optional default preference. */
  datatype Pipe = Pipe(stages: seq<Stage>, preferredComputer: Option<seq<string>>)

  datatype Request = Request(stage: Stage, bigDisk: Option<string>, runNumberList: seq<string>)

  datatype ServerError = RequestParse | BiggusDiskusNotSet

  datatype Response = Success(status: Status) | Error(error: ServerError)

  datatype ConnectionError = UnableToConnect | UnableToStartShell

  /** serde_json as seen by this program: the two serialisers and the two
      parsers (a parse failure is `None`). */
  datatype Json = Json(
    requestToString: Request -> string,
    requestFromString: string -> Option<Request>,
    responseToString: Response -> string,
    responseFromString: string -> Option<Response>)

  /** The value of an optional list, or the empty list (`unwrap_or(vec![])`). */
  function ListOrEmpty(xs: Option<seq<string>>): seq<string>
  {
    match xs
    case Some(l) => l
    case None => []
  }
}
