/**
 * `GithubJSONStore`: load the stored JSON array and its `sha`, commit a whole
 * array under a `sha` precondition, and append one record with a bounded
 * load / append / commit retry loop.
 */
module GithubStore {
  import opened Common
  import opened Json
  import opened Remote

  /** The RuntimeError `load` and `commit` raise, and the AttributeError of appending to a non-list. */
  datatype StoreError =
    | LoadFailed(code: int)
    | CreateFailed(code: int)
    | CommitFailed(code: int)
    | NotAList

  /** What `load` returns: the decoded document and the `sha` it came with. */
  datatype Loaded = Loaded(data: JsonValue, sha: Option<string>)

  /** Python truthiness of an `Optional[str]`: None and "" are false. */
  predicate Truthy(sha: Option<string>) {
    sha.Some? && sha.value != ""
  }

  /** The `sha` field of the PUT payload: sent only when the given sha is truthy. */
  function Precondition(sha: Option<string>): (pre: Option<string>)
    ensures pre.Some? <==> Truthy(sha)
    ensures pre.Some? ==> pre == sha
  {
    if Truthy(sha) then sha else None
  }

  /** The 200 branch of `load`: the decoded array, or `[]` when decoding fails. */
  function Decoded(b: Blob): (d: JsonValue)
    ensures b.Garbled? ==> d == JArray([])
    ensures b.Doc? ==> d == b.doc
  {
    match b
    case Doc(d) => d
    case Garbled => JArray([])
  }

  /** How `load` reads the status of its GET: done, create the file, or raise. */
  datatype GetStep = Done(loaded: Loaded) | CreateEmpty | Raise(code: int)

  function AfterGet(g: GetResponse): (step: GetStep)
    ensures g.code == 200 ==> step == Done(Loaded(Decoded(g.blob), g.sha))
    ensures g.code == 404 ==> step == CreateEmpty
    ensures g.code != 200 && g.code != 404 ==> step == Raise(g.code)
  {
    if g.code == 200 then Done(Loaded(Decoded(g.blob), g.sha))
    else if g.code == 404 then CreateEmpty
    else Raise(g.code)
  }

  /** How `load` reads the status of the PUT that creates `[]`. */
  function AfterCreate(p: PutResponse): (r: Result<Loaded, StoreError>)
    ensures p.code == 200 || p.code == 201 <==> r.Ok?
    ensures r.Ok? ==> r.value == Loaded(JArray([]), p.sha)
    ensures r.Err? ==> r.error == CreateFailed(p.code)
  {
    if p.code == 200 || p.code == 201 then Ok(Loaded(JArray([]), p.sha)) else Err(CreateFailed(p.code))
  }

  /** How `commit` reads the status of its PUT: the new sha, None on a conflict, or raise. */
  function AfterCommit(p: PutResponse): (r: Result<Option<string>, StoreError>)
    ensures p.code == 200 || p.code == 201 ==> r == Ok(p.sha)
    ensures p.code == 409 ==> r == Ok(None)
    ensures r.Err? <==> p.code != 200 && p.code != 201 && p.code != 409
    ensures r.Err? ==> r.error == CommitFailed(p.code)
  {
    if p.code == 200 || p.code == 201 then Ok(p.sha)
    else if p.code == 409 then Ok(None)
    else Err(CommitFailed(p.code))
  }

  /** `load(path)` against the remote in state `s`: its result and the remote's state afterwards. */
  function LoadOn(s: RemoteState): (r: (Result<Loaded, StoreError>, RemoteState))
    ensures s.health.Down? ==> r == (Err(LoadFailed(s.health.code)), s)
    ensures !s.health.Down? && s.file.Present? ==>
      r == (Ok(Loaded(Decoded(s.file.blob), Some(Token(s.version)))), s)
    ensures s.health.Up? && s.file.Absent? ==>
      r == (Ok(Loaded(JArray([]), Some(Token(s.version + 1)))),
            s.(file := Present(Doc(JArray([]))), version := s.version + 1))
    ensures s.health.ReadOnly? && s.file.Absent? ==> r == (Err(CreateFailed(s.health.code)), s)
  {
    match AfterGet(ServeGet(s))
    case Done(l) => (Ok(l), s)
    case Raise(c) => (Err(LoadFailed(c)), s)
    case CreateEmpty =>
      var (p, s') := ServePut(s, Doc(JArray([])), None);
      (AfterCreate(p), s')
  }

  /** `commit(path, data, sha, message)` against the remote in state `s`. */
  function CommitOn(s: RemoteState, data: JsonValue, sha: Option<string>): (r: (Result<Option<string>, StoreError>, RemoteState))
    ensures r.0 == Ok(None) || r.0.Err? ==> r.1 == s
    ensures !s.health.Up? ==> r == (Err(CommitFailed(s.health.code)), s)
    ensures s.health.Up? && Truthy(sha) && s.file.Present? && sha.value == Token(s.version) ==>
      r == (Ok(Some(Token(s.version + 1))), s.(file := Present(Doc(data)), version := s.version + 1))
    ensures s.health.Up? && Truthy(sha) && !(s.file.Present? && sha.value == Token(s.version)) ==>
      r == (Ok(None), s)
    ensures s.health.Up? && !Truthy(sha) && s.file.Absent? ==>
      r == (Ok(Some(Token(s.version + 1))), s.(file := Present(Doc(data)), version := s.version + 1))
    ensures s.health.Up? && !Truthy(sha) && s.file.Present? ==> r == (Err(CommitFailed(422)), s)
  {
    var (p, s') := ServePut(s, Doc(data), Precondition(sha));
    (AfterCommit(p), s')
  }

  /**
   * One pass of `append_with_retry`'s loop: load, append `record` to the
   * loaded list, let another session act (`rival`), commit against the loaded
   * sha. Ok(true) when the commit gave a truthy sha, Ok(false) to try again.
   */
  function AttemptOn(s: RemoteState, record: JsonValue, rival: Rival): (Result<bool, StoreError>, RemoteState) {
    var load := LoadOn(s);
    var l, s1 := load.0, load.1;
    if l.Err? then (Err(l.error), s1)
    else if !l.value.data.JArray? then (Err(NotAList), s1)
    else
      var commit := CommitOn(RivalStep(s1, rival), JArray(l.value.data.items + [record]), l.value.sha);
      if commit.0.Err? then (Err(commit.0.error), commit.1)
      else (Ok(Truthy(commit.0.value)), commit.1)
  }

  /** The outcome of a run of the retry loop: result, final remote state, passes made. */
  datatype Run = Run(result: Result<bool, StoreError>, state: RemoteState, attempts: nat)

  /** The other session's step during pass `k` (none once the schedule runs out). */
  function RivalAt(rivals: seq<Rival>, k: nat): Rival {
    if k < |rivals| then rivals[k] else Quiet
  }

  /** Passes `k`, `k + 1`, ... of the loop, with `left` passes of `range(max_retries)` still to go. */
  function AppendFrom(s: RemoteState, record: JsonValue, left: int, rivals: seq<Rival>, k: nat): (run: Run)
    decreases if left < 0 then 0 else left
  {
    if left <= 0 then Run(Ok(false), s, 0)
    else
      var a := AttemptOn(s, record, RivalAt(rivals, k));
      if a.0.Err? || a.0.value then Run(a.0, a.1, 1)
      else
        var rest := AppendFrom(a.1, record, left - 1, rivals, k + 1);
        rest.(attempts := rest.attempts + 1)
  }

  /** `append_with_retry(path, record, max_retries)` with `rivals[k]` acting during pass `k`. */
  function AppendOn(s: RemoteState, record: JsonValue, maxRetries: int, rivals: seq<Rival>): Run {
    AppendFrom(s, record, maxRetries, rivals, 0)
  }

  /** Two runs that end with the same result in the same remote state (however many passes each made). */
  predicate SameEnd(a: Run, b: Run) {
    a.result == b.result && a.state == b.state
  }

  /**
   * One pass of the loop against a run that ends like `goal`: an error or a
   * success ends it like `goal`, a conflict leaves the remaining passes
   * ending like `goal`.
   */
  lemma PassKeepsGoal(s: RemoteState, record: JsonValue, left: int, rivals: seq<Rival>, k: nat,
                      r: Result<bool, StoreError>, s': RemoteState, goal: Run)
    requires left > 0 && r == AttemptOn(s, record, RivalAt(rivals, k)).0
    requires s' == AttemptOn(s, record, RivalAt(rivals, k)).1
    requires SameEnd(AppendFrom(s, record, left, rivals, k), goal)
    ensures r.Err? || r.value ==> SameEnd(Run(r, s', 0), goal)
    ensures r.Ok? && !r.value ==> SameEnd(AppendFrom(s', record, left - 1, rivals, k + 1), goal)
  {
  }

  /** With no passes left the run ends at once with False. */
  lemma NoPassLeft(s: RemoteState, record: JsonValue, left: int, rivals: seq<Rival>, k: nat, goal: Run)
    requires left <= 0 && SameEnd(AppendFrom(s, record, left, rivals, k), goal)
    ensures SameEnd(Run(Ok(false), s, 0), goal)
  {
  }

  /** The loaded `sha` always names the version the remote holds right after the load. */
  lemma LoadedShaIsCurrent(s: RemoteState)
    requires LoadOn(s).0.Ok?
    ensures LoadOn(s).0.value.sha == Some(Token(LoadOn(s).1.version))
    ensures !LoadOn(s).1.health.Down? && LoadOn(s).1.file.Present?
  {
  }

  /**
   * A pass that succeeds wrote exactly the list it loaded with `record`
   * appended at the end, against the version it loaded, no other session
   * wrote in between, and the remote was accepting this session's writes.
   */
  lemma AttemptSuccessWritesLoadedPlusRecord(s: RemoteState, record: JsonValue, rival: Rival)
    requires AttemptOn(s, record, rival).0 == Ok(true)
    ensures LoadOn(s).0.Ok? && LoadOn(s).0.value.data.JArray?
    ensures RivalStep(LoadOn(s).1, rival).file == LoadOn(s).1.file
    ensures RivalStep(LoadOn(s).1, rival).version == LoadOn(s).1.version
    ensures var s1, items := LoadOn(s).1, LoadOn(s).0.value.data.items;
      AttemptOn(s, record, rival).1 ==
        RemoteState(Present(Doc(JArray(items + [record]))), s1.version + 1, Up)
  {
    LoadedShaIsCurrent(s);
    var s1 := LoadOn(s).1;
    var s2 := RivalStep(s1, rival);
    if s2.version != s1.version {
      assert s2.version == s1.version + 1;
      if Token(s1.version) == Token(s2.version) {
        TokenInjective(s1.version, s2.version);
      }
    }
  }

  /** A pass that asks for another try changed nothing but what the load and the other session did. */
  lemma AttemptRetryLeavesNoWrite(s: RemoteState, record: JsonValue, rival: Rival)
    requires AttemptOn(s, record, rival).0 == Ok(false)
    ensures AttemptOn(s, record, rival).1 == RivalStep(LoadOn(s).1, rival)
  {
  }

  /**
   * `range(max_retries)` bounds the passes: none when `max_retries <= 0`, at
   * most `max_retries` otherwise, and a False result used every one of them.
   */
  lemma {:induction false} AppendFromBounded(s: RemoteState, record: JsonValue, left: int, rivals: seq<Rival>, k: nat)
    ensures var run := AppendFrom(s, record, left, rivals, k);
      (left <= 0 ==> run == Run(Ok(false), s, 0)) &&
      (left > 0 ==> 1 <= run.attempts <= left) &&
      (run.result == Ok(false) ==> run.attempts == (if left < 0 then 0 else left))
    decreases if left < 0 then 0 else left
  {
    if left > 0 {
      var a := AttemptOn(s, record, RivalAt(rivals, k));
      if !(a.0.Err? || a.0.value) {
        AppendFromBounded(a.1, record, left - 1, rivals, k + 1);
      }
    }
  }

  lemma AppendBounded(s: RemoteState, record: JsonValue, maxRetries: int, rivals: seq<Rival>)
    ensures var run := AppendOn(s, record, maxRetries, rivals);
      (maxRetries <= 0 ==> run == Run(Ok(false), s, 0)) &&
      (maxRetries > 0 ==> 1 <= run.attempts <= maxRetries) &&
      (run.result == Ok(false) ==> run.attempts == (if maxRetries < 0 then 0 else maxRetries))
  {
    AppendFromBounded(s, record, maxRetries, rivals, 0);
  }

  /** After a True result the stored array ends with `record`. */
  lemma {:induction false} AppendFromSuccessEndsWithRecord(s: RemoteState, record: JsonValue, left: int, rivals: seq<Rival>, k: nat)
    requires AppendFrom(s, record, left, rivals, k).result == Ok(true)
    ensures var st := AppendFrom(s, record, left, rivals, k).state;
      st.file.Present? && st.file.blob.Doc? && st.file.blob.doc.JArray? &&
      |st.file.blob.doc.items| > 0 && st.file.blob.doc.items[|st.file.blob.doc.items| - 1] == record
    decreases if left < 0 then 0 else left
  {
    var a := AttemptOn(s, record, RivalAt(rivals, k));
    if a.0 == Ok(true) {
      AttemptSuccessWritesLoadedPlusRecord(s, record, RivalAt(rivals, k));
    } else {
      AppendFromSuccessEndsWithRecord(a.1, record, left - 1, rivals, k + 1);
    }
  }

  lemma AppendSuccessEndsWithRecord(s: RemoteState, record: JsonValue, maxRetries: int, rivals: seq<Rival>)
    requires AppendOn(s, record, maxRetries, rivals).result == Ok(true)
    ensures var st := AppendOn(s, record, maxRetries, rivals).state;
      st.file.Present? && st.file.blob.Doc? && st.file.blob.doc.JArray? &&
      |st.file.blob.doc.items| > 0 && st.file.blob.doc.items[|st.file.blob.doc.items| - 1] == record
  {
    AppendFromSuccessEndsWithRecord(s, record, maxRetries, rivals, 0);
  }

  /**
   * One pass that writes nothing of its own: the load, and then, when the
   * loaded document is a list and a commit follows, what happens at the
   * remote before that commit.
   */
  function IdlePass(s: RemoteState, rival: Rival): RemoteState {
    var load := LoadOn(s);
    if load.0.Ok? && load.0.value.data.JArray? then RivalStep(load.1, rival) else load.1
  }

  /** The remote's state after `n` passes from pass `k` on had none of this call's commits taken effect. */
  function IdleFrom(s: RemoteState, n: int, rivals: seq<Rival>, k: nat): RemoteState
    decreases if n < 0 then 0 else n
  {
    if n <= 0 then s
    else IdleFrom(IdlePass(s, RivalAt(rivals, k)), n - 1, rivals, k + 1)
  }

  /**
   * A pass that does not report success wrote nothing of its own: a refused
   * load, a stored document that is not a list, a refused commit and a
   * conflict all leave the remote where the load and the other sessions put it.
   */
  lemma AttemptWithoutSuccessLeavesNoWrite(s: RemoteState, record: JsonValue, rival: Rival)
    requires AttemptOn(s, record, rival).0 != Ok(true)
    ensures AttemptOn(s, record, rival).1 == IdlePass(s, rival)
  {
  }

  /**
   * A commit the remote refuses inside the loop ends the call with that
   * RuntimeError (no further pass), and the remote keeps only what the load
   * and the other sessions did.
   */
  lemma CommitRefusalRaises(s: RemoteState, record: JsonValue, rival: Rival)
    requires LoadOn(s).0.Ok? && LoadOn(s).0.value.data.JArray?
    requires !RivalStep(LoadOn(s).1, rival).health.Up?
    ensures var s2 := RivalStep(LoadOn(s).1, rival);
      AttemptOn(s, record, rival) == (Err(CommitFailed(s2.health.code)), s2)
  {
  }

  /**
   * Whenever the call does not return True (False after every pass, or an
   * exception), none of its commits took effect: the remote is where the
   * loads and the other sessions alone put it, over the passes it made.
   */
  lemma {:induction false} UnsavedAppendFromLeavesNoTrace(s: RemoteState, record: JsonValue, left: int, rivals: seq<Rival>, k: nat)
    requires AppendFrom(s, record, left, rivals, k).result != Ok(true)
    ensures var run := AppendFrom(s, record, left, rivals, k);
      run.state == IdleFrom(s, run.attempts, rivals, k)
    decreases if left < 0 then 0 else left
  {
    if left > 0 {
      var run := AppendFrom(s, record, left, rivals, k);
      var rival := RivalAt(rivals, k);
      var a := AttemptOn(s, record, rival);
      AttemptWithoutSuccessLeavesNoWrite(s, record, rival);
      if a.0.Err? {
        assert run == Run(a.0, a.1, 1);
        assert IdleFrom(s, 1, rivals, k) == IdleFrom(IdlePass(s, rival), 0, rivals, k + 1);
      } else {
        var rest := AppendFrom(a.1, record, left - 1, rivals, k + 1);
        assert run == rest.(attempts := rest.attempts + 1);
        UnsavedAppendFromLeavesNoTrace(a.1, record, left - 1, rivals, k + 1);
        assert IdleFrom(s, run.attempts, rivals, k) == IdleFrom(a.1, rest.attempts, rivals, k + 1);
      }
    }
  }

  lemma UnsavedAppendLeavesNoTrace(s: RemoteState, record: JsonValue, maxRetries: int, rivals: seq<Rival>)
    requires AppendOn(s, record, maxRetries, rivals).result != Ok(true)
    ensures var run := AppendOn(s, record, maxRetries, rivals);
      run.state == IdleFrom(s, run.attempts, rivals, 0)
  {
    UnsavedAppendFromLeavesNoTrace(s, record, maxRetries, rivals, 0);
  }

  /**
   * True comes from the first pass whose commit succeeds, and that commit is
   * the call's only write: every pass before it left no write of its own, and
   * the last pass, run from where those passes left the remote, returned True
   * and produced the final state.
   */
  lemma {:induction false} AppendFromSucceedsOnce(s: RemoteState, record: JsonValue, left: int, rivals: seq<Rival>, k: nat)
    requires AppendFrom(s, record, left, rivals, k).result == Ok(true)
    ensures var run := AppendFrom(s, record, left, rivals, k);
      1 <= run.attempts &&
      AttemptOn(IdleFrom(s, run.attempts - 1, rivals, k), record, RivalAt(rivals, k + run.attempts - 1)) == (Ok(true), run.state)
    decreases if left < 0 then 0 else left
  {
    var run := AppendFrom(s, record, left, rivals, k);
    var rival := RivalAt(rivals, k);
    var a := AttemptOn(s, record, rival);
    if a.0 == Ok(true) {
      assert run == Run(a.0, a.1, 1);
    } else {
      var rest := AppendFrom(a.1, record, left - 1, rivals, k + 1);
      assert run == rest.(attempts := rest.attempts + 1);
      AttemptWithoutSuccessLeavesNoWrite(s, record, rival);
      AppendFromSucceedsOnce(a.1, record, left - 1, rivals, k + 1);
      assert IdleFrom(s, run.attempts - 1, rivals, k) == IdleFrom(a.1, rest.attempts - 1, rivals, k + 1);
      assert k + run.attempts - 1 == k + 1 + rest.attempts - 1;
    }
  }

  lemma AppendSucceedsOnce(s: RemoteState, record: JsonValue, maxRetries: int, rivals: seq<Rival>)
    requires AppendOn(s, record, maxRetries, rivals).result == Ok(true)
    ensures var run := AppendOn(s, record, maxRetries, rivals);
      1 <= run.attempts &&
      AttemptOn(IdleFrom(s, run.attempts - 1, rivals, 0), record, RivalAt(rivals, run.attempts - 1)) == (Ok(true), run.state)
  {
    var run := AppendFrom(s, record, maxRetries, rivals, 0);
    AppendFromSucceedsOnce(s, record, maxRetries, rivals, 0);
    assert 0 + run.attempts - 1 == run.attempts - 1;
  }

  /** A remote that is down when the call starts: the first `load` raises and the exception ends the call. */
  lemma LoadRefusalRaises(s: RemoteState, record: JsonValue, maxRetries: int, rivals: seq<Rival>)
    requires maxRetries >= 1 && s.health.Down?
    ensures AppendOn(s, record, maxRetries, rivals) == Run(Err(LoadFailed(s.health.code)), s, 1)
  {
  }

  /** The list a load of `s` hands to the caller, when the stored document is not some other JSON value. */
  function ItemsSeen(s: RemoteState): seq<JsonValue> {
    if s.file.Present? && s.file.blob.Doc? && s.file.blob.doc.JArray? then s.file.blob.doc.items else []
  }

  /**
   * A step that removes nothing from the stored list: every other session's
   * write is a list that starts with the list stored before it, as a write
   * by another copy of this app (load, append, commit) is.
   */
  predicate AppendOnly(s: RemoteState, rival: Rival) {
    rival.RivalWrite? ==> rival.doc.JArray? && ItemsSeen(s) <= rival.doc.items
  }

  /**
   * A remote that reads but refuses this session's writes: the first pass
   * loads, its commit is refused, and the call raises that status at once
   * with the remote unchanged.
   */
  lemma ReadOnlyRemoteRaisesOnCommit(s: RemoteState, record: JsonValue, maxRetries: int, rivals: seq<Rival>)
    requires maxRetries >= 1 && s.health.ReadOnly? && RivalAt(rivals, 0) == Quiet
    requires s.file.Present? && s.file.blob.Doc? && s.file.blob.doc.JArray?
    ensures AppendOn(s, record, maxRetries, rivals) == Run(Err(CommitFailed(s.health.code)), s, 1)
  {
  }

  /**
   * With no other writer, a healthy remote and at least one pass, the first
   * pass succeeds and the remote holds the old list plus `record`; a missing
   * file is first created as `[]`, an undecodable one is read as `[]`.
   */
  lemma UncontendedAppendSucceeds(s: RemoteState, record: JsonValue, maxRetries: int, rivals: seq<Rival>)
    requires maxRetries >= 1 && s.health.Up? && RivalAt(rivals, 0) == Quiet
    requires s.file.Present? && s.file.blob.Doc? ==> s.file.blob.doc.JArray?
    ensures var run := AppendOn(s, record, maxRetries, rivals);
      run.result == Ok(true) && run.attempts == 1 &&
      run.state == s.(file := Present(Doc(JArray(ItemsSeen(s) + [record]))),
                      version := s.version + (if s.file.Absent? then 2 else 1))
  {
  }

  /**
   * Two sessions load the same version: the first commit wins and bumps the
   * token, the second gets None (not an error) and changes nothing, and the
   * second session's reload-and-retry then succeeds.
   */
  lemma TwoWritersRace(s: RemoteState, first: JsonValue, second: JsonValue)
    requires s.health.Up? && s.file.Present?
    ensures var t := LoadOn(s).0.value.sha;
      var c1 := CommitOn(s, first, t);
      var c2 := CommitOn(c1.1, second, t);
      c1.0 == Ok(Some(Token(s.version + 1))) && c1.0 != Ok(t) &&
      c2 == (Ok(None), c1.1) &&
      LoadOn(c1.1).0 == Ok(Loaded(first, Some(Token(s.version + 1)))) &&
      CommitOn(c1.1, second, LoadOn(c1.1).0.value.sha).0 == Ok(Some(Token(s.version + 2)))
  {
    if Token(s.version + 1) == Token(s.version) {
      TokenInjective(s.version + 1, s.version);
    }
  }

  /**
   * The race through `append_with_retry`: another session appends `theirs`
   * between this call's first load and its commit; the first pass gets 409,
   * the second reloads and appends `record` after `theirs`.
   */
  lemma TwoWritersRaceRetried(s: RemoteState, record: JsonValue, theirs: JsonValue, maxRetries: int)
    requires maxRetries >= 2 && s.health.Up? && s.file.Present? && s.file.blob.Doc? && s.file.blob.doc.JArray?
    ensures var items := s.file.blob.doc.items;
      AppendOn(s, record, maxRetries, [RivalWrite(JArray(items + [theirs]))]) ==
      Run(Ok(true), s.(file := Present(Doc(JArray(items + [theirs] + [record]))), version := s.version + 2), 2)
  {
    var items := s.file.blob.doc.items;
    var s1 := RivalStep(s, RivalWrite(JArray(items + [theirs])));
    if Token(s.version) == Token(s1.version) {
      TokenInjective(s.version, s1.version);
    }
    var rivals := [RivalWrite(JArray(items + [theirs]))];
    var s2 := s.(file := Present(Doc(JArray(items + [theirs] + [record]))), version := s.version + 2);
    assert AttemptOn(s, record, RivalAt(rivals, 0)) == (Ok(false), s1);
    assert AttemptOn(s1, record, RivalAt(rivals, 1)) == (Ok(true), s2);
    assert AppendFrom(s1, record, maxRetries - 1, rivals, 1) == Run(Ok(true), s2, 1);
  }

  /**
   * One pass against a session that always writes first: the call returns
   * False and the remote holds only the other session's write.
   */
  lemma ForcedConflictSinglePass(s: RemoteState, record: JsonValue, theirs: JsonValue)
    requires s.health.Up? && s.file.Present? && s.file.blob.Doc? && s.file.blob.doc.JArray?
    ensures AppendOn(s, record, 1, [RivalWrite(theirs)]) ==
      Run(Ok(false), s.(file := Present(Doc(theirs)), version := s.version + 1), 1)
  {
    var s2 := RivalStep(s, RivalWrite(theirs));
    if Token(s.version) == Token(s2.version) {
      TokenInjective(s.version, s2.version);
    }
  }

  /** The store: repository coordinates and the remote file it talks to. */
  class GithubJSONStore {
    const owner: string
    const repo: string
    const token: string
    const branch: string
    const remote: RemoteFile

    constructor (owner: string, repo: string, token: string, branch: string, remote: RemoteFile)
      ensures this.owner == owner && this.repo == repo && this.token == token
      ensures this.branch == branch && this.remote == remote
    {
      this.owner, this.repo, this.token, this.branch, this.remote := owner, repo, token, branch, remote;
    }

    method Load() returns (r: Result<Loaded, StoreError>)
      modifies remote
      ensures (r, remote.State()) == LoadOn(old(remote.State()))
    {
      var g := remote.Get();
      if g.code == 200 {
        r := Ok(Loaded(Decoded(g.blob), g.sha));
      } else if g.code == 404 {
        var p := remote.Put(Doc(JArray([])), None);
        if p.code == 200 || p.code == 201 {
          r := Ok(Loaded(JArray([]), p.sha));
        } else {
          r := Err(CreateFailed(p.code));
        }
      } else {
        r := Err(LoadFailed(g.code));
      }
    }

    method Commit(data: JsonValue, sha: Option<string>) returns (r: Result<Option<string>, StoreError>)
      modifies remote
      ensures (r, remote.State()) == CommitOn(old(remote.State()), data, sha)
    {
      var pre := if Truthy(sha) then sha else None;
      var p := remote.Put(Doc(data), pre);
      if p.code == 200 || p.code == 201 {
        r := Ok(p.sha);
      } else if p.code == 409 {
        r := Ok(None);
      } else {
        r := Err(CommitFailed(p.code));
      }
    }

    /** One pass of the retry loop's body. */
    method AttemptOnce(record: JsonValue, rival: Rival) returns (r: Result<bool, StoreError>)
      modifies remote
      ensures r == AttemptOn(old(remote.State()), record, rival).0
      ensures remote.State() == AttemptOn(old(remote.State()), record, rival).1
    {
      var loaded := Load();
      if loaded.Err? {
        return Err(loaded.error);
      }
      var data := loaded.value.data;
      if !data.JArray? {
        return Err(NotAList);
      }
      var items := data.items + [record];
      remote.Interfere(rival);
      var c := Commit(JArray(items), loaded.value.sha);
      if c.Err? {
        return Err(c.error);
      }
      r := Ok(Truthy(c.value));
    }

    /**
     * The retry loop. `rivals` is the environment's schedule: what other
     * sessions write between this call's load and commit in each pass. The
     * result and the remote's final state are those of `AppendOn`.
     */
    method AppendWithRetry(record: JsonValue, maxRetries: int, rivals: seq<Rival>) returns (r: Result<bool, StoreError>)
      modifies remote
      ensures SameEnd(Run(r, remote.State(), 0), AppendOn(old(remote.State()), record, maxRetries, rivals))
    {
      ghost var goal := AppendFrom(remote.State(), record, maxRetries, rivals, 0);
      var attempt: nat := 0;
      while attempt < maxRetries
        invariant SameEnd(AppendFrom(remote.State(), record, maxRetries - attempt, rivals, attempt), goal)
        decreases maxRetries - attempt
      {
        ghost var before := remote.State();
        var a := AttemptOnce(record, RivalAt(rivals, attempt));
        PassKeepsGoal(before, record, maxRetries - attempt, rivals, attempt, a, remote.State(), goal);
        if a.Err? || a.value {
          return a;
        }
        attempt := attempt + 1;
      }
      NoPassLeft(remote.State(), record, maxRetries - attempt, rivals, attempt, goal);
      return Ok(false);
    }
  }
}
