/**
 * The "Hoje" tab of the form: the selected day and time kept in the session,
 * the quick -5/-10/-15 minute buttons, the "Agora" reset, the future-time
 * guard, and the two save buttons that append a record through the store.
 */
module Form {
  import opened Common
  import opened Calendar
  import opened DateText
  import opened Json
  import opened Models
  import opened Remote
  import opened GithubStore
  import opened Listing

  /** `append_with_retry`'s default `max_retries`, which both buttons use. */
  const Retries := 3

  /** The `label` of a record saved with the "Agora" button. */
  const AutoLabel := "Automático"

  /** The `label` of a record saved with the "Salvar" button. */
  const ManualLabel := "Manual"

  /** The `st.session_state` entries the tab reads and writes. */
  class Session {
    var usuario: string
    var dia: Date
    var hora: TimeOfDay

    predicate Valid()
      reads this
    {
      ValidDate(dia) && ValidTime(hora)
    }

    /** `datetime.combine(dia_sel, hora_sel)`, the selection as one local datetime. */
    function Selected(): DateTime
      reads this
    {
      DateTime(dia, hora)
    }

    /** `_init_session_defaults`: today and the current time without microseconds. */
    constructor (usuario: string, today: Date, now: TimeOfDay)
      requires ValidDate(today) && ValidTime(now)
      ensures Valid()
      ensures this.usuario == usuario && dia == today && hora == now.(micro := 0)
    {
      this.usuario, dia, hora := usuario, today, now.(micro := 0);
    }

    /**
     * `_adjust_minutes(delta_min)`: move the selection by `delta_min` minutes,
     * rolling over into the previous or next day. When the result would leave
     * Python's date range, `OverflowError` escapes and the session keeps its
     * old values.
     */
    method AdjustMinutes(delta: int) returns (r: Result<(), Overflow>)
      requires Valid()
      modifies this
      ensures Valid() && usuario == old(usuario)
      ensures r.Ok? <==> ShiftMinutes(old(Selected()), delta).Ok?
      ensures r.Ok? ==> Selected() == ShiftMinutes(old(Selected()), delta).value
      ensures r.Err? ==> Selected() == old(Selected())
    {
      var shifted := ShiftMinutes(DateTime(dia, hora), delta);
      if shifted.Err? {
        return Err(shifted.error);
      }
      dia := shifted.value.date;
      hora := shifted.value.time;
      r := Ok(());
    }

    /** The small "Agora" button: today and the current time without microseconds. */
    method ResetToNow(today: Date, now: TimeOfDay)
      requires ValidDate(today) && ValidTime(now)
      modifies this
      ensures Valid() && usuario == old(usuario)
      ensures dia == today && hora == now.(micro := 0)
    {
      dia := today;
      hora := now.(micro := 0);
    }
  }

  /**
   * `(not ALLOW_FUTURE) and (dt_sel > agora)`: the manual save is refused.
   * Both sides carry the same zone, so Python compares their wall-clock fields.
   */
  predicate SaveBlocked(allowFuture: bool, selected: DateTime, now: DateTime) {
    !allowFuture && DateTimeLt(now, selected)
  }

  /** The guard refuses exactly the selections later on the time line than now, and only when the flag is off. */
  lemma SaveBlockedIffLater(allowFuture: bool, selected: DateTime, now: DateTime)
    requires ValidDateTime(selected) && ValidDateTime(now)
    ensures SaveBlocked(allowFuture, selected, now) <==> !allowFuture && MicroStamp(now) < MicroStamp(selected)
  {
    DateTimeLtIffEarlier(now, selected);
  }

  /** A selection that is not later than now is never refused, whatever the flag. */
  lemma PastOrPresentNeverBlocked(allowFuture: bool, selected: DateTime, now: DateTime)
    requires ValidDateTime(selected) && ValidDateTime(now) && MicroStamp(selected) <= MicroStamp(now)
    ensures !SaveBlocked(allowFuture, selected, now)
  {
    SaveBlockedIffLater(allowFuture, selected, now);
  }

  /** What the user sees after pressing a save button. */
  datatype SaveOutcome =
    | Blocked                                   // "Horário no futuro não permitido"
    | NotSaved                                  // append_with_retry returned False
    | Raised(error: StoreError)                 // an exception escaped append_with_retry
    | Saved(reload: Result<Loaded, StoreError>) // success, then `data, current_sha = store.load(...)`

  /**
   * `append_with_retry(GITHUB_PATH, rec.to_dict())` and, on True, the reload
   * of `data`: the outcome and the remote's state afterwards. `between` is
   * what happens at the remote after the successful commit and before the
   * reload (another session's write, an outage starting).
   */
  function AppendAndReload(s: RemoteState, record: JsonValue, rivals: seq<Rival>, between: Rival): (r: (SaveOutcome, RemoteState))
    ensures var run := AppendOn(s, record, Retries, rivals);
      (run.result.Err? ==> r == (Raised(run.result.error), run.state)) &&
      (run.result == Ok(false) ==> r == (NotSaved, run.state)) &&
      (run.result == Ok(true) ==>
        var later := RivalStep(run.state, between);
        r == (Saved(LoadOn(later).0), LoadOn(later).1))
  {
    var run := AppendOn(s, record, Retries, rivals);
    match run.result
    case Err(e) => (Raised(e), run.state)
    case Ok(ok) =>
      if ok then
        var later := RivalStep(run.state, between);
        (Saved(LoadOn(later).0), LoadOn(later).1)
      else (NotSaved, run.state)
  }

  /** The record a button builds: `RegistroPonto.novo(usuario, dt, label=..., tag=rotulo, obs=observacao)`. */
  function ButtonRecord(id: string, usuario: string, dt: DateTime, offset: int, origin: string,
                        tag: string, obs: string): Registro
    requires ValidDateTime(dt) && -1440 < offset < 1440
  {
    Novo(id, usuario, dt, Some(offset), origin, tag, Some(obs))
  }

  /** The "Salvar" button against the remote in state `s`. */
  function SaveManualOn(s: RemoteState, allowFuture: bool, selected: DateTime, now: DateTime,
                        id: string, usuario: string, offset: int, tag: string, obs: string,
                        rivals: seq<Rival>, between: Rival): (r: (SaveOutcome, RemoteState))
    requires ValidDateTime(selected) && -1440 < offset < 1440
    ensures SaveBlocked(allowFuture, selected, now) ==> r == (Blocked, s)
    ensures !SaveBlocked(allowFuture, selected, now) ==>
      r == AppendAndReload(s, ToJson(ButtonRecord(id, usuario, selected, offset, ManualLabel, tag, obs)), rivals, between)
  {
    if SaveBlocked(allowFuture, selected, now) then (Blocked, s)
    else AppendAndReload(s, ToJson(ButtonRecord(id, usuario, selected, offset, ManualLabel, tag, obs)), rivals, between)
  }

  /** A run that reports success leaves the remote accepting this session's writes. */
  lemma {:induction false} AppendFromSuccessHealthy(s: RemoteState, record: JsonValue, left: int, rivals: seq<Rival>, k: nat)
    requires AppendFrom(s, record, left, rivals, k).result == Ok(true)
    ensures AppendFrom(s, record, left, rivals, k).state.health.Up?
    decreases if left < 0 then 0 else left
  {
    var a := AttemptOn(s, record, RivalAt(rivals, k));
    if a.0 == Ok(true) {
      AttemptSuccessWritesLoadedPlusRecord(s, record, RivalAt(rivals, k));
    } else {
      AppendFromSuccessHealthy(a.1, record, left - 1, rivals, k + 1);
    }
  }

  /** The stored list right after a run that reported success ends with `record`, and the remote is up. */
  lemma SavedRunEndsWithRecord(s: RemoteState, record: JsonValue, rivals: seq<Rival>)
    requires AppendOn(s, record, Retries, rivals).result == Ok(true)
    ensures var st := AppendOn(s, record, Retries, rivals).state;
      st.health.Up? && st.file.Present? && st.file.blob.Doc? && st.file.blob.doc.JArray? &&
      |ItemsSeen(st)| > 0 && ItemsSeen(st)[|ItemsSeen(st)| - 1] == record
  {
    AppendSuccessEndsWithRecord(s, record, Retries, rivals);
    AppendBounded(s, record, Retries, rivals);
    AppendFromSuccessHealthy(s, record, Retries, rivals, 0);
  }

  /**
   * After a reported save, the reload raises exactly when an outage began
   * after the commit; otherwise, when no other session removed items in
   * between, the reloaded list still holds the record that was built.
   */
  lemma SavedRecordKept(s: RemoteState, record: JsonValue, rivals: seq<Rival>, between: Rival)
    requires AppendAndReload(s, record, rivals, between).0.Saved?
    requires AppendOnly(AppendOn(s, record, Retries, rivals).state, between)
    ensures var reload := AppendAndReload(s, record, rivals, between).0.reload;
      (reload.Err? <==> between.Turn? && between.health.Down?) &&
      (reload.Ok? ==> reload.value.data.JArray? && record in reload.value.data.items)
  {
    var st := AppendOn(s, record, Retries, rivals).state;
    SavedRunEndsWithRecord(s, record, rivals);
    var items := ItemsSeen(st);
    assert record in items by {
      assert items[|items| - 1] == record;
    }
    if between.RivalWrite? {
      assert items <= between.doc.items;
      assert record in between.doc.items by {
        assert between.doc.items[|items| - 1] == record;
      }
    }
  }

  /**
   * When nothing but a change in the remote's answers falls between the
   * commit and the reload, the reloaded list, if the reload succeeds, ends
   * with the record that was built.
   */
  lemma SavedRecordIsLast(s: RemoteState, record: JsonValue, rivals: seq<Rival>, between: Rival)
    requires AppendAndReload(s, record, rivals, between).0.Saved?
    requires !between.RivalWrite?
    ensures var reload := AppendAndReload(s, record, rivals, between).0.reload;
      reload.Ok? ==>
        reload.value.data.JArray? && |reload.value.data.items| > 0 &&
        reload.value.data.items[|reload.value.data.items| - 1] == record
  {
    SavedRunEndsWithRecord(s, record, rivals);
  }

  /** A record a button builds is on the day of its datetime and belongs to its user. */
  lemma ButtonRecordOnDay(id: string, usuario: string, dt: DateTime, offset: int, origin: string,
                          tag: string, obs: string)
    requires ValidDateTime(dt) && -1440 < offset < 1440
    ensures var rec := ToJson(ButtonRecord(id, usuario, dt, offset, origin, tag, obs));
      rec.JObject? && OnDayOf(rec, DateIso(dt.date), usuario)
  {
  }

  /** An object of the given day and user in the stored list is in the "Hoje" list, unless that list raises. */
  lemma ListedToday(items: seq<JsonValue>, rec: JsonValue, dayText: string, user: string)
    requires rec in items && rec.JObject? && OnDayOf(rec, dayText, user)
    ensures var today := DayRecords(items, dayText, user);
      today.Err? || rec in today.value
  {
    var today := DayRecords(items, dayText, user);
    if today.Ok? {
      assert multiset(items)[rec] > 0;
      assert multiset(today.value)[rec] > 0;
    }
  }

  /**
   * A manual save that is reported saved shows up in the "Hoje" list of the
   * same user and day, unless some stored element is not an object (the
   * comprehension then raises).
   */
  lemma SavedRecordListedToday(s: RemoteState, allowFuture: bool, selected: DateTime, now: DateTime,
                               id: string, usuario: string, offset: int, tag: string, obs: string,
                               rivals: seq<Rival>, between: Rival)
    requires ValidDateTime(selected) && -1440 < offset < 1440
    requires SaveManualOn(s, allowFuture, selected, now, id, usuario, offset, tag, obs, rivals, between).0.Saved?
    requires AppendOnly(AppendOn(s, ToJson(ButtonRecord(id, usuario, selected, offset, ManualLabel, tag, obs)),
                                 Retries, rivals).state, between)
    ensures var reload := SaveManualOn(s, allowFuture, selected, now, id, usuario, offset, tag, obs, rivals, between).0.reload;
      var rec := ToJson(ButtonRecord(id, usuario, selected, offset, ManualLabel, tag, obs));
      reload.Ok? ==> (
        reload.value.data.JArray? &&
        var today := DayRecords(reload.value.data.items, DateIso(selected.date), usuario);
        today.Err? || rec in today.value)
  {
    var rec := ToJson(ButtonRecord(id, usuario, selected, offset, ManualLabel, tag, obs));
    var out := AppendAndReload(s, rec, rivals, between);
    assert SaveManualOn(s, allowFuture, selected, now, id, usuario, offset, tag, obs, rivals, between) == out;
    SavedRecordKept(s, rec, rivals, between);
    if out.0.reload.Ok? {
      ButtonRecordOnDay(id, usuario, selected, offset, ManualLabel, tag, obs);
      ListedToday(out.0.reload.value.data.items, rec, DateIso(selected.date), usuario);
    }
  }

  /** The "Agora" save button: no future guard, the record takes the current time. */
  function SaveNowOn(s: RemoteState, now: DateTime, id: string, usuario: string, offset: int,
                     tag: string, obs: string, rivals: seq<Rival>, between: Rival): (r: (SaveOutcome, RemoteState))
    requires ValidDateTime(now) && -1440 < offset < 1440
    ensures r.0 != Blocked
    ensures r == AppendAndReload(s, ToJson(ButtonRecord(id, usuario, now, offset, AutoLabel, tag, obs)), rivals, between)
  {
    AppendAndReload(s, ToJson(ButtonRecord(id, usuario, now, offset, AutoLabel, tag, obs)), rivals, between)
  }

  /** A record a button builds falls in a history period exactly when its day does. */
  lemma ButtonRecordInPeriod(id: string, usuario: string, dt: DateTime, offset: int, origin: string,
                             tag: string, obs: string, ini: Date, fim: Date)
    requires ValidDateTime(dt) && -1440 < offset < 1440
    ensures InPeriod(ToJson(ButtonRecord(id, usuario, dt, offset, origin, tag, obs)), ini, fim) <==>
      DateLe(ini, dt.date) && DateLe(dt.date, fim)
  {
    var r := ButtonRecord(id, usuario, dt, offset, origin, tag, obs);
    assert Get(ToJson(r), "date") == Found(JString(r.date));
  }

  /** The manual "Salvar" button, run against the store. */
  method SaveManual(store: GithubJSONStore, session: Session, allowFuture: bool, now: DateTime,
                    id: string, offset: int, tag: string, obs: string, rivals: seq<Rival>, between: Rival)
    returns (o: SaveOutcome)
    requires session.Valid() && -1440 < offset < 1440
    modifies store.remote
    ensures (o, store.remote.State()) ==
      SaveManualOn(old(store.remote.State()), allowFuture, session.Selected(), now,
                   id, session.usuario, offset, tag, obs, rivals, between)
  {
    var selected := DateTime(session.dia, session.hora);
    if !allowFuture && DateTimeLt(now, selected) {
      return Blocked;
    }
    var rec := Novo(id, session.usuario, selected, Some(offset), ManualLabel, tag, Some(obs));
    o := AppendThenReload(store, ToJson(rec), rivals, between);
  }

  /** The "Agora" save button, run against the store. */
  method SaveNow(store: GithubJSONStore, session: Session, now: DateTime,
                 id: string, offset: int, tag: string, obs: string, rivals: seq<Rival>, between: Rival)
    returns (o: SaveOutcome)
    requires ValidDateTime(now) && -1440 < offset < 1440
    modifies store.remote
    ensures (o, store.remote.State()) ==
      SaveNowOn(old(store.remote.State()), now, id, session.usuario, offset, tag, obs, rivals, between)
  {
    var rec := Novo(id, session.usuario, now, Some(offset), AutoLabel, tag, Some(obs));
    o := AppendThenReload(store, ToJson(rec), rivals, between);
  }

  /** `ok = store.append_with_retry(...)`, then on success `data, current_sha = store.load(...)`. */
  method AppendThenReload(store: GithubJSONStore, record: JsonValue, rivals: seq<Rival>, between: Rival)
    returns (o: SaveOutcome)
    modifies store.remote
    ensures (o, store.remote.State()) == AppendAndReload(old(store.remote.State()), record, rivals, between)
  {
    var ok := store.AppendWithRetry(record, Retries, rivals);
    if ok.Err? {
      return Raised(ok.error);
    }
    if !ok.value {
      return NotSaved;
    }
    store.remote.Interfere(between);
    var reload := store.Load();
    o := Saved(reload);
  }
}
