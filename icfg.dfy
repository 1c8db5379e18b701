/** The insulin configuration entity (`ICfg` in core/data): a label, the
    duration of insulin action and the time to peak activity in milliseconds,
    and the catalogue template it came from. */
module InsulinConfig {
  import opened Wrappers

  /** Kotlin `Int`: a 32-bit two's-complement integer. */
  type Int32 = x: int | -0x8000_0000 <= x < 0x8000_0000

  /** The largest whole minute count whose `minutes * 60000` still fits an `Int`. */
  const MAX_EXACT_MINUTES := 35791

  /** Kotlin `Int` arithmetic and `Long.toInt()`: keep the low 32 bits, read as signed. */
  function ToInt32(x: int): (r: Int32)
    ensures -0x8000_0000 <= x < 0x8000_0000 ==> r == x
    ensures (x - r) % 0x1_0000_0000 == 0
  {
    (x + 0x8000_0000) % 0x1_0000_0000 - 0x8000_0000
  }

  /** Kotlin `ms / 60000` on a `Long`: division truncating toward zero. */
  function TruncMinutes(ms: int): (m: int)
    ensures 0 <= ms ==> 0 <= m && m * 60000 <= ms < m * 60000 + 60000
    ensures ms < 0 ==> m <= 0 && m * 60000 - 60000 < ms <= m * 60000
  {
    if ms >= 0 then ms / 60000 else -((-ms) / 60000)
  }

  /** `(ms / 60000).toInt()`: whole minutes of a millisecond count, as an `Int`. */
  function PeakMinutes(ms: int): (m: Int32)
    ensures -0x8000_0000 * 60000 < ms < 0x8000_0000 * 60000 ==> m == TruncMinutes(ms)
  {
    ToInt32(TruncMinutes(ms))
  }

  datatype ICfg = ICfg(
    insulinLabel: string,
    insulinEndTime: int,    // DIA, milliseconds (a Kotlin Long)
    insulinPeakTime: int,   // time to peak, milliseconds (a Kotlin Long)
    insulinTemplate: Int32  // catalogue value, 0 for none
  ) {

    /** Equivalence ignores the label and the template; a missing config is never equivalent. */
    predicate IsEqual(other: Option<ICfg>)
      ensures other.None? ==> !IsEqual(other)
      ensures IsEqual(other) ==> other.value.GetDia() == GetDia() && other.value.GetPeak() == GetPeak()
    {
      match other
      case None => false
      case Some(o) => insulinEndTime == o.insulinEndTime && insulinPeakTime == o.insulinPeakTime
    }

    /** DIA in tenths of an hour: `Math.round(ms / 3600.0 / 100.0) / 10.0`,
        the nearest tenth with halves rounded up. */
    function GetDia(): (tenths: int)
      ensures tenths * 360000 - 180000 <= insulinEndTime < tenths * 360000 + 180000
    {
      (insulinEndTime + 180000) / 360000
    }

    /** Time to peak in whole minutes, truncated toward zero. */
    function GetPeak(): (minutes: Int32)
      ensures 0 <= insulinPeakTime < 0x8000_0000 * 60000 ==>
                0 <= minutes && minutes * 60000 <= insulinPeakTime < minutes * 60000 + 60000
      ensures -0x8000_0000 * 60000 < insulinPeakTime < 0 ==>
                minutes <= 0 && minutes * 60000 - 60000 < insulinPeakTime <= minutes * 60000
    {
      PeakMinutes(insulinPeakTime)
    }

    /** `setDia(dia)` for a DIA of `tenths / 10.0` hours: only the end time changes,
        and reading the DIA back gives the value set. */
    function SetDia(tenths: int): (c: ICfg)
      ensures c.insulinEndTime == tenths * 360000
      ensures c.GetDia() == tenths
      ensures c.insulinLabel == insulinLabel && c.insulinPeakTime == insulinPeakTime
      ensures c.insulinTemplate == insulinTemplate
    {
      this.(insulinEndTime := tenths * 360000)
    }

    /** `setPeak(peak)`: `peak * 60000` is computed in `Int`, so it wraps for large
        peaks; below that bound reading the peak back gives the value set. */
    function SetPeak(peak: Int32): (c: ICfg)
      ensures -MAX_EXACT_MINUTES <= peak <= MAX_EXACT_MINUTES ==>
                c.insulinPeakTime == peak * 60000 && c.GetPeak() == peak
      ensures c.insulinLabel == insulinLabel && c.insulinEndTime == insulinEndTime
      ensures c.insulinTemplate == insulinTemplate
    {
      this.(insulinPeakTime := ToInt32(peak * 60000))
    }

    /** `deepClone()`: a copy with the same four fields. */
    function DeepClone(): (c: ICfg)
      ensures c == this && c.IsEqual(Some(this))
    {
      ICfg(insulinLabel, insulinEndTime, insulinPeakTime, insulinTemplate)
    }
  }

  /** The secondary constructor `ICfg(label, peak, dia, template)` with `dia` in
      tenths of an hour: `dia * 3600 * 1000` ms and `peak * 60000` ms. */
  function NewICfg(name: string, peak: Int32, dia: int, template: Int32): (c: ICfg)
    ensures c.insulinLabel == name && c.insulinTemplate == template
    ensures c.insulinEndTime == dia * 360000 && c.GetDia() == dia
    ensures -MAX_EXACT_MINUTES <= peak <= MAX_EXACT_MINUTES ==>
              c.insulinPeakTime == peak * 60000 && c.GetPeak() == peak
  {
    ICfg(name, dia * 360000, ToInt32(peak * 60000), template)
  }

  /** `isEqual` is an equivalence relation. */
  lemma IsEqualIsEquivalence(a: ICfg, b: ICfg, c: ICfg)
    ensures a.IsEqual(Some(a))
    ensures a.IsEqual(Some(b)) <==> b.IsEqual(Some(a))
    ensures a.IsEqual(Some(b)) && b.IsEqual(Some(c)) ==> a.IsEqual(Some(c))
  {
  }

  /** Changing the label or the template never changes equivalence. */
  lemma IsEqualIgnoresLabelAndTemplate(a: ICfg, b: ICfg, name: string, template: Int32)
    ensures a.IsEqual(Some(b)) <==> a.(insulinLabel := name, insulinTemplate := template).IsEqual(Some(b))
    ensures a.IsEqual(Some(b)) <==> a.IsEqual(Some(b.(insulinLabel := name, insulinTemplate := template)))
  {
  }

  /** Writing back the DIA just read changes nothing the DIA can see, and doing it twice
      gives the same config as doing it once. */
  lemma DiaWriteBackIdempotent(c: ICfg)
    ensures c.SetDia(c.GetDia()).GetDia() == c.GetDia()
    ensures c.SetDia(c.GetDia()).SetDia(c.SetDia(c.GetDia()).GetDia()) == c.SetDia(c.GetDia())
  {
  }

  /** The same for the peak, while the minute count is small enough not to wrap. */
  lemma PeakWriteBackIdempotent(c: ICfg)
    requires -MAX_EXACT_MINUTES <= c.GetPeak() <= MAX_EXACT_MINUTES
    ensures c.SetPeak(c.GetPeak()).GetPeak() == c.GetPeak()
    ensures c.SetPeak(c.GetPeak()).SetPeak(c.SetPeak(c.GetPeak()).GetPeak()) == c.SetPeak(c.GetPeak())
  {
  }
}
