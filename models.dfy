/** The time-clock record `RegistroPonto`, how `novo` builds one, and its dict form. */
module Models {
  import opened Common
  import opened Calendar
  import opened DateText
  import opened Json

  /**
   * One clock event; `obs` is Optional[str] in the dataclass. The dataclass
   * field `label` ("Automático" or "Manual") is `origin` here, since `label`
   * is a Dafny keyword.
   */
  datatype Registro = Registro(
    id: string,
    usuario: string,
    date: string,
    time: string,
    origin: string,
    tag: string,
    obs: Option<string>,
    createdAt: string)

  /** The eight keys `asdict` produces, in declaration order. */
  const FieldNames: set<string> := {"id", "usuario", "date", "time", "label", "tag", "obs", "created_at"}

  /** `obs or ""`: None and "" both become "". */
  function ObsOrEmpty(obs: Option<string>): (r: string)
    ensures obs.Some? && obs.value != "" ==> r == obs.value
    ensures obs.None? || obs.value == "" <==> r == ""
  {
    match obs
    case Some(s) => s
    case None => ""
  }

  /**
   * `RegistroPonto.novo(usuario, dt, label, tag, obs)`. The fresh uuid4 is the
   * parameter `id`, and `offset` is the UTC offset (minutes) of the aware `dt`,
   * or None for a naive one.
   */
  function Novo(id: string, usuario: string, dt: DateTime, offset: Option<int>,
                origin: string, tag: string, obs: Option<string>): (r: Registro)
    requires ValidDateTime(dt)
    requires offset.Some? ==> -1440 < offset.value < 1440
    ensures r.id == id && r.usuario == usuario && r.origin == origin && r.tag == tag
    ensures r.obs == Some(ObsOrEmpty(obs))
    ensures r.date == DateIso(dt.date) && r.time == TimeHms(dt.time) && r.createdAt == DateTimeIso(dt, offset)
    ensures ParseYmd(r.date) == Some(dt.date)
    ensures |r.time| == 8 && r.time[2] == ':' && r.time[5] == ':'
    ensures AllDigits(r.time[..2]) && DigitsValue(r.time[..2]) == dt.time.hour
    ensures AllDigits(r.time[3..5]) && DigitsValue(r.time[3..5]) == dt.time.minute
    ensures AllDigits(r.time[6..]) && DigitsValue(r.time[6..]) == dt.time.second
    ensures |r.createdAt| >= 19 && r.createdAt[..10] == r.date && r.createdAt[10] == 'T'
    ensures r.createdAt[11..19] == r.time
  {
    ParseIsoRoundTrip(dt.date);
    Registro(id, usuario, DateIso(dt.date), TimeHms(dt.time), origin, tag,
             Some(ObsOrEmpty(obs)), DateTimeIso(dt, offset))
  }

  function ObsJson(obs: Option<string>): JsonValue {
    match obs
    case Some(s) => JString(s)
    case None => JNull
  }

  /** `to_dict()` (`dataclasses.asdict`): each field under its own name. */
  function ToDict(r: Registro): (m: map<string, JsonValue>)
    ensures m.Keys == FieldNames
    ensures m["id"] == JString(r.id) && m["usuario"] == JString(r.usuario)
    ensures m["date"] == JString(r.date) && m["time"] == JString(r.time)
    ensures m["label"] == JString(r.origin) && m["tag"] == JString(r.tag)
    ensures m["obs"] == ObsJson(r.obs) && m["created_at"] == JString(r.createdAt)
  {
    map["id" := JString(r.id), "usuario" := JString(r.usuario), "date" := JString(r.date),
        "time" := JString(r.time), "label" := JString(r.origin), "tag" := JString(r.tag),
        "obs" := ObsJson(r.obs), "created_at" := JString(r.createdAt)]
  }

  /** The record as the JSON object appended to the stored array. */
  function ToJson(r: Registro): JsonValue {
    JObject(ToDict(r))
  }

  /** The string stored under `k`, if there is one. */
  function StringField(m: map<string, JsonValue>, k: string): Option<string> {
    if k in m && m[k].JString? then Some(m[k].s) else None
  }

  /**
   * Reading a stored dict back into a record, the inverse that states what
   * `to_dict` keeps: every field present, each a string (`obs` a string or
   * null). The program itself never rebuilds records from dicts. Unlike the
   * dataclass constructor `RegistroPonto(**d)`, this accepts extra keys and
   * refuses values of other types.
   */
  function FromDict(m: map<string, JsonValue>): (r: Option<Registro>)
    ensures r.Some? ==> forall k :: k in FieldNames ==> k in m
  {
    var id, u, d, t := StringField(m, "id"), StringField(m, "usuario"), StringField(m, "date"), StringField(m, "time");
    var l, g, c := StringField(m, "label"), StringField(m, "tag"), StringField(m, "created_at");
    if id.Some? && u.Some? && d.Some? && t.Some? && l.Some? && g.Some? && c.Some? && "obs" in m
       && (m["obs"].JString? || m["obs"].JNull?)
    then
      Some(Registro(id.value, u.value, d.value, t.value, l.value, g.value,
                    if m["obs"].JString? then Some(m["obs"].s) else None, c.value))
    else None
  }

  /** Rebuilding a record from `to_dict()` gives back the same record. */
  lemma DictRoundTrip(r: Registro)
    ensures FromDict(ToDict(r)) == Some(r)
  {
  }

  /** A dict with exactly the eight keys that rebuilds into `r` is `r.to_dict()`. */
  lemma DictRoundTripBack(m: map<string, JsonValue>, r: Registro)
    requires m.Keys == FieldNames
    requires FromDict(m) == Some(r)
    ensures ToDict(r) == m
  {
    var d := ToDict(r);
    assert d["id"] == m["id"] && d["usuario"] == m["usuario"] && d["date"] == m["date"];
    assert d["time"] == m["time"] && d["label"] == m["label"] && d["tag"] == m["tag"];
    assert d["obs"] == m["obs"] && d["created_at"] == m["created_at"];
    assert d.Keys == m.Keys;
  }
}
