/**
 * The repository file behind the contents API, reduced to what the store can
 * observe: the stored bytes (decoded or not), a version that every accepted
 * write bumps, the version token (`sha`) that names it, and compare-and-swap
 * on write.
 */
module Remote {
  import opened Common
  import opened Text
  import opened Json

  /** The stored content as `load` decodes it: a JSON document, or bytes that fail base64, UTF-8 or JSON decoding. */
  datatype Blob = Doc(doc: JsonValue) | Garbled

  datatype File = Absent | Present(blob: Blob)

  /** A status the remote answers when it refuses a request for its own reasons (401, 403, 422, 500, ...). */
  type FailureCode = c: int | c != 200 && c != 201 && c != 404 && c != 409 witness 500

  /**
   * Whether the remote serves this session's requests. `ReadOnly` answers
   * reads but refuses every write with its status (a token without write
   * access, a protected branch, a rate limit on writes); `Down` refuses every
   * request (bad credential, server error). A refused request changes nothing.
   */
  datatype Health = Up | ReadOnly(code: FailureCode) | Down(code: FailureCode)

  /** The file at the configured path and branch, and how the remote answers right now. */
  datatype RemoteState = RemoteState(file: File, version: nat, health: Health)

  /** The `sha` the remote reports for version `v`. */
  function Token(v: nat): (t: string)
    ensures t != ""
  {
    "v" + Decimal(v)
  }

  /** Different versions have different tokens, so a stale token never matches. */
  lemma TokenInjective(v: nat, w: nat)
    requires Token(v) == Token(w)
    ensures v == w
  {
    assert Decimal(v) == Token(v)[1..];
    assert Decimal(w) == Token(w)[1..];
    DecimalInjective(v, w);
  }

  /** A GET of the contents URL: status, the decoded content, and the `sha` field. */
  datatype GetResponse = GetResponse(code: int, blob: Blob, sha: Option<string>)

  /** A PUT of the contents URL: status and the new `content.sha`. */
  datatype PutResponse = PutResponse(code: int, sha: Option<string>)

  /** What the remote answers to a GET. */
  function ServeGet(s: RemoteState): (g: GetResponse)
    ensures s.health.Down? ==> g.code == s.health.code
    ensures !s.health.Down? && s.file.Absent? ==> g.code == 404
    ensures !s.health.Down? && s.file.Present? ==> g == GetResponse(200, s.file.blob, Some(Token(s.version)))
  {
    if s.health.Down? then GetResponse(s.health.code, Garbled, None)
    else if s.file.Absent? then GetResponse(404, Garbled, None)
    else GetResponse(200, s.file.blob, Some(Token(s.version)))
  }

  /**
   * What the remote answers to a PUT of `blob`, with `pre` as the `sha`
   * precondition when present, and its state afterwards. A write is accepted
   * when the precondition names the current version, or when there is no
   * precondition and no file yet; an existing file written without a
   * precondition is refused with 422, as the contents API does.
   */
  function ServePut(s: RemoteState, blob: Blob, pre: Option<string>): (r: (PutResponse, RemoteState))
    ensures r.0.code == 200 || r.0.code == 201 <==>
      s.health.Up? && (if pre.Some? then s.file.Present? && pre.value == Token(s.version) else s.file.Absent?)
    ensures r.0.code == 200 || r.0.code == 201 ==>
      r.1 == s.(file := Present(blob), version := s.version + 1) && r.0.sha == Some(Token(s.version + 1))
    ensures r.0.code != 200 && r.0.code != 201 ==> r.1 == s
    ensures r.0.code == 409 <==> s.health.Up? && pre.Some? && !(s.file.Present? && pre.value == Token(s.version))
    ensures !s.health.Up? ==> r == (PutResponse(s.health.code, None), s)
  {
    if !s.health.Up? then
      (PutResponse(s.health.code, None), s)
    else if pre.Some? then
      if s.file.Present? && pre.value == Token(s.version) then
        (PutResponse(200, Some(Token(s.version + 1))), s.(file := Present(blob), version := s.version + 1))
      else
        (PutResponse(409, None), s)
    else if s.file.Absent? then
      (PutResponse(201, Some(Token(s.version + 1))), s.(file := Present(blob), version := s.version + 1))
    else
      (PutResponse(422, None), s)
  }

  /** A write that names a version older than the current one is a conflict and changes nothing. */
  lemma StaleTokenConflicts(s: RemoteState, blob: Blob, v: nat)
    requires s.health.Up? && v < s.version
    ensures ServePut(s, blob, Some(Token(v))) == (PutResponse(409, None), s)
  {
    if Token(v) == Token(s.version) {
      TokenInjective(v, s.version);
    }
  }

  /**
   * What happens at the remote between two of this session's requests:
   * nothing, a write by another session that wins the race (it goes through
   * unless the remote is down), or a change in how the remote answers this
   * session (an outage or a write refusal starts or ends).
   */
  datatype Rival = Quiet | RivalWrite(doc: JsonValue) | Turn(health: Health)

  function RivalStep(s: RemoteState, rival: Rival): (r: RemoteState)
    ensures rival.Quiet? ==> r == s
    ensures rival.RivalWrite? && s.health.Down? ==> r == s
    ensures rival.RivalWrite? && !s.health.Down? ==>
      r == s.(file := Present(Doc(rival.doc)), version := s.version + 1)
    ensures rival.Turn? ==> r.file == s.file && r.version == s.version && r.health == rival.health
  {
    match rival
    case Quiet => s
    case RivalWrite(d) => if !s.health.Down? then s.(file := Present(Doc(d)), version := s.version + 1) else s
    case Turn(h) => s.(health := h)
  }

  /** The remote file as a mutable object that serves the store's requests. */
  class RemoteFile {
    var file: File
    var version: nat
    var health: Health

    function State(): RemoteState
      reads this
    {
      RemoteState(file, version, health)
    }

    constructor (init: RemoteState)
      ensures State() == init
    {
      file, version, health := init.file, init.version, init.health;
    }

    method Get() returns (g: GetResponse)
      ensures g == ServeGet(State())
    {
      if health.Down? {
        g := GetResponse(health.code, Garbled, None);
      } else if file.Absent? {
        g := GetResponse(404, Garbled, None);
      } else {
        g := GetResponse(200, file.blob, Some(Token(version)));
      }
    }

    method Put(blob: Blob, pre: Option<string>) returns (p: PutResponse)
      modifies this
      ensures (p, State()) == ServePut(old(State()), blob, pre)
    {
      if !health.Up? {
        p := PutResponse(health.code, None);
      } else if (pre.Some? && file.Present? && pre.value == Token(version)) || (pre.None? && file.Absent?) {
        p := PutResponse(if pre.Some? then 200 else 201, Some(Token(version + 1)));
        file, version := Present(blob), version + 1;
      } else if pre.Some? {
        p := PutResponse(409, None);
      } else {
        p := PutResponse(422, None);
      }
    }

    /** Another session's step, applied by the environment. */
    method Interfere(rival: Rival)
      modifies this
      ensures State() == RivalStep(old(State()), rival)
    {
      match rival
      case Quiet =>
      case RivalWrite(d) =>
        if !health.Down? {
          file, version := Present(Doc(d)), version + 1;
        }
      case Turn(h) =>
        health := h;
    }
  }
}
