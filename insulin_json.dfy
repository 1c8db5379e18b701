/** The JSON codec of a configuration and the template helpers
    (core/objects InsulinExtension). JSON is held as a tree of values, not as text. */
module InsulinJson {
  import opened Wrappers
  import opened InsulinConfig
  import opened InsulinCatalogue

  datatype JValue =
    | JString(str: string)
    | JNumber(num: int)
    | JArray(items: seq<JValue>)
    | JObject(fields: map<string, JValue>)
    | JNull

  /** A JSON object: its keys and their values. */
  type JObj = map<string, JValue>

  const LABEL_KEY := "insulinLabel"
  const END_TIME_KEY := "insulinEndTime"
  const PEAK_TIME_KEY := "insulinPeakTime"
  const TEMPLATE_KEY := "insulinTemplate"

  /** `toJson()`: one key per field, exactly the four keys. */
  function ToJson(c: ICfg): (j: JObj)
    ensures j.Keys == {LABEL_KEY, END_TIME_KEY, PEAK_TIME_KEY, TEMPLATE_KEY}
  {
    map[LABEL_KEY := JString(c.insulinLabel),
        END_TIME_KEY := JNumber(c.insulinEndTime),
        PEAK_TIME_KEY := JNumber(c.insulinPeakTime),
        TEMPLATE_KEY := JNumber(c.insulinTemplate)]
  }

  /** `optString(key, default)` on a string or an absent/null value. */
  function OptString(j: JObj, key: string, default: string): (s: string)
    ensures key !in j ==> s == default
    ensures key in j && j[key].JString? ==> s == j[key].str
    ensures key in j && !j[key].JString? ==> s == default
  {
    if key in j && j[key].JString? then j[key].str else default
  }

  /** `optLong(key, default)` on a number or an absent value. */
  function OptLong(j: JObj, key: string, default: int): (n: int)
    ensures key !in j ==> n == default
    ensures key in j && j[key].JNumber? ==> n == j[key].num
    ensures key in j && !j[key].JNumber? ==> n == default
  {
    if key in j && j[key].JNumber? then j[key].num else default
  }

  /** `optInt(key, default)`: the number narrowed to an `Int`. */
  function OptInt(j: JObj, key: string, default: Int32): (n: Int32)
    ensures key !in j ==> n == default
    ensures key in j && j[key].JNumber? && -0x8000_0000 <= j[key].num < 0x8000_0000 ==> n == j[key].num
    ensures key in j && j[key].JNumber? ==> (j[key].num - n) % 0x1_0000_0000 == 0
    ensures key in j && !j[key].JNumber? ==> n == default
  {
    if key in j && j[key].JNumber? then ToInt32(j[key].num) else default
  }

  /** `ICfg.fromJson(json)`: a missing object or missing keys give "" and 0. */
  function FromJson(json: Option<JObj>): (c: ICfg)
    ensures json.None? ==> c == ICfg("", 0, 0, 0)
    ensures json.Some? && LABEL_KEY !in json.value ==> c.insulinLabel == ""
    ensures json.Some? && END_TIME_KEY !in json.value ==> c.insulinEndTime == 0
    ensures json.Some? && PEAK_TIME_KEY !in json.value ==> c.insulinPeakTime == 0
    ensures json.Some? && TEMPLATE_KEY !in json.value ==> c.insulinTemplate == 0
  {
    match json
    case None => ICfg("", 0, 0, 0)
    case Some(j) =>
      ICfg(OptString(j, LABEL_KEY, ""), OptLong(j, END_TIME_KEY, 0),
           OptLong(j, PEAK_TIME_KEY, 0), OptInt(j, TEMPLATE_KEY, 0))
  }

  /** `getTemplate()`: the recorded template, or the one matching the peak when none is recorded. */
  function GetTemplate(c: ICfg): (t: InsulinType)
    ensures c.insulinTemplate == 0 ==> t == FromPeak(c.insulinPeakTime)
    ensures forall e: InsulinType :: c.insulinTemplate == e.Value() ==> t == e
    ensures (forall e: InsulinType :: c.insulinTemplate != e.Value()) && c.insulinTemplate != 0 ==>
              t == OrefRapidActing
  {
    FromIntCases(c.insulinTemplate);
    if c.insulinTemplate != 0 then FromInt(c.insulinTemplate)
    else FromPeak(c.insulinPeakTime)
  }

  /** `setTemplate(t)`: records the template's value and changes nothing else. */
  function SetTemplate(c: ICfg, t: InsulinType): (r: ICfg)
    ensures r.insulinTemplate == t.Value()
    ensures r.insulinLabel == c.insulinLabel && r.insulinEndTime == c.insulinEndTime
    ensures r.insulinPeakTime == c.insulinPeakTime
  {
    c.(insulinTemplate := t.Value())
  }

  /** Decoding an encoded config gives it back, field for field. */
  lemma FromJsonToJson(c: ICfg)
    ensures FromJson(Some(ToJson(c))) == c
  {
  }

  /** Reading the template back after setting it gives that template, UNKNOWN included,
      because no catalogue value is 0. */
  lemma GetTemplateAfterSet(c: ICfg, t: InsulinType)
    ensures GetTemplate(SetTemplate(c, t)) == t
  {
  }
}
