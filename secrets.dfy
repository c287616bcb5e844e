/**
 * The secret template functions of functions/main.go as functions over the
 * package state: whether the SSM and KMS clients exist, the three caches, and
 * the log of calls made to AWS. AWS itself (session creation, GetParameter,
 * GetParametersByPathPages, Decrypt), base64 decoding and json.Unmarshal are
 * oracles in `Aws`; those that talk to AWS see the calls made so far. A panic
 * of the Go code is an `Err` here. Class Functions.SecretFunctions runs the same
 * steps imperatively and is proved to agree with these functions.
 */
module AwsFunctions {
  import opened Wrappers

  type Bytes = seq<bv8>

  /** An SSM parameter as GetParametersByPath returns it. */
  datatype Param = Param(name: string, value: string)

  /** A JSON value, kept as its text; what json.Unmarshal makes of it is not modelled. */
  datatype JsonValue = JsonValue(text: string)

  /**
   * What GetParametersByPathPages hands to its callback, page by page, and
   * whether it got through all pages without an error.
   */
  datatype Paging = Paging(pages: seq<seq<Param>>, complete: bool)

  /** One call to AWS. */
  datatype Call =
    | NewSession                                              // newAwsSession
    | GetParameter(name: string, decrypt: bool)               // ssmSvc.GetParameter
    | GetParametersByPath(path: string, decrypt: bool, recursive: bool) // ssmSvc.GetParametersByPathPages
    | Decrypt(blob: Bytes)                                    // kmsSvc.Decrypt

  type Log = seq<Call>

  /** The collaborators; `None`/`false` is the collaborator's error. */
  datatype Aws = Aws(
    newSession: Log -> bool,
    getParameter: (Log, string, bool) -> Option<string>,
    parametersByPath: (Log, string, bool, bool) -> Paging,
    decodeBase64: string -> Option<Bytes>,
    decrypt: (Log, Bytes) -> Option<string>,
    parseJson: string -> Option<map<string, JsonValue>>)

  /** Why a secret function panics. */
  datatype Failure =
    | SessionFailed
    | ParameterFailed(name: string)
    | PathFailed(path: string)
    | DecodeFailed(cipherText: string)
    | DecryptFailed(cipherText: string)
    | JsonFailed(name: string)

  /** The package variables of functions/main.go:17-21 and the calls made so far. */
  datatype Secrets = Secrets(
    ssmSvc: bool,
    kmsSvc: bool,
    ssmCache: map<string, string>,
    ssmPathCache: map<string, map<string, string>>,
    kmsCache: map<string, string>,
    calls: Log)

  /** What a secret function returns and the state it leaves. */
  datatype Answer<T> = Answer(result: Result<T, Failure>, after: Secrets)

  /** Both clients exist. */
  predicate Ready(st: Secrets) {
    st.ssmSvc && st.kmsSvc
  }

  /** The state before any template function ran: no clients, empty caches, no calls. */
  function Initial(): Secrets {
    Secrets(false, false, map[], map[], map[], [])
  }

  // ---------------------------------------------------------------- bootstrapClients

  /** bootstrapClients (functions/main.go:25-36): create both clients unless both exist. */
  function Bootstrap(aws: Aws, st: Secrets): Answer<()> {
    if Ready(st) then Answer(Ok(()), st)
    else
      var calls := st.calls + [NewSession];
      if !aws.newSession(st.calls) then Answer(Err(SessionFailed), st.(calls := calls))
      else Answer(Ok(()), st.(ssmSvc := true, kmsSvc := true, calls := calls))
  }

  // ---------------------------------------------------------------- ssmValue

  /** ssmValue (functions/main.go:69-89). */
  function SsmValue(aws: Aws, st: Secrets, key: string, isEncrypted: bool): Answer<string> {
    var b := Bootstrap(aws, st);
    if b.result.Err? then Answer(Err(b.result.error), b.after)
    else
      var s := b.after;
      if key in s.ssmCache then Answer(Ok(s.ssmCache[key]), s)
      else
        var s' := s.(calls := s.calls + [GetParameter(key, isEncrypted)]);
        match aws.getParameter(s.calls, key, isEncrypted)
        case None => Answer(Err(ParameterFailed(key)), s')
        case Some(v) => Answer(Ok(v), s'.(ssmCache := s.ssmCache[key := v]))
  }

  // ---------------------------------------------------------------- ssmJSON

  /** ssmJSON (functions/main.go:91-102): the parameter through ssmValue, then json.Unmarshal. */
  function SsmJson(aws: Aws, st: Secrets, key: string, isEncrypted: bool): Answer<map<string, JsonValue>> {
    var b := Bootstrap(aws, st);
    if b.result.Err? then Answer(Err(b.result.error), b.after)
    else
      var v := SsmValue(aws, b.after, key, isEncrypted);
      match v.result
      case Err(e) => Answer(Err(e), v.after)
      case Ok(data) =>
        match aws.parseJson(data)
        case None => Answer(Err(JsonFailed(key)), v.after)
        case Some(m) => Answer(Ok(m), v.after)
  }

  // ---------------------------------------------------------------- ssmPath

  /** The parameters of all pages, page after page, as the callback collects them. */
  function Collected(pages: seq<seq<Param>>): seq<Param>
    decreases |pages|
  {
    if pages == [] then [] else Collected(pages[..|pages| - 1]) + pages[|pages| - 1]
  }

  /** The loop of functions/main.go:131-133: name to value, a later name overwriting an earlier. */
  function FoldParams(objects: seq<Param>): map<string, string>
    decreases |objects|
  {
    if objects == [] then map[]
    else
      var last := objects[|objects| - 1];
      FoldParams(objects[..|objects| - 1])[last.name := last.value]
  }

  /** ssmPath (functions/main.go:104-136). */
  function SsmPath(aws: Aws, st: Secrets, path: string, isEncrypted: bool, recursive: bool): Answer<map<string, string>> {
    var b := Bootstrap(aws, st);
    if b.result.Err? then Answer(Err(b.result.error), b.after)
    else
      var s := b.after;
      if path in s.ssmPathCache then Answer(Ok(s.ssmPathCache[path]), s)
      else
        var s' := s.(calls := s.calls + [GetParametersByPath(path, isEncrypted, recursive)]);
        var paging := aws.parametersByPath(s.calls, path, isEncrypted, recursive);
        if !paging.complete then Answer(Err(PathFailed(path)), s')
        else
          var m := FoldParams(Collected(paging.pages));
          Answer(Ok(m), s'.(ssmPathCache := s.ssmPathCache[path := m]))
  }

  // ---------------------------------------------------------------- kmsValue

  /** kmsValue (functions/main.go:138-159). */
  function KmsValue(aws: Aws, st: Secrets, cipherText: string): Answer<string> {
    var b := Bootstrap(aws, st);
    if b.result.Err? then Answer(Err(b.result.error), b.after)
    else
      var s := b.after;
      if cipherText in s.kmsCache then Answer(Ok(s.kmsCache[cipherText]), s)
      else
        match aws.decodeBase64(cipherText)
        case None => Answer(Err(DecodeFailed(cipherText)), s)
        case Some(blob) =>
          var s' := s.(calls := s.calls + [Decrypt(blob)]);
          match aws.decrypt(s.calls, blob)
          case None => Answer(Err(DecryptFailed(cipherText)), s')
          case Some(plain) => Answer(Ok(plain), s'.(kmsCache := s.kmsCache[cipherText := plain]))
  }
}
