/** The fixed catalogue of insulin templates (`Insulin.InsulinType`) and its
    two lookups. */
module InsulinCatalogue {
  import opened Wrappers
  import opened Seqs
  import opened InsulinConfig

  /** The entries, in declaration order. */
  datatype InsulinType = Unknown | OrefRapidActing | OrefUltraRapidActing | OrefFreePeak | OrefLyumjev
  {
    /** The persisted template id. */
    function Value(): Int32
    {
      match this
      case Unknown => -1
      case OrefRapidActing => 2
      case OrefUltraRapidActing => 3
      case OrefFreePeak => 4
      case OrefLyumjev => 5
    }

    /** Time to peak, minutes. */
    function Peak(): Int32
    {
      match this
      case Unknown => -1
      case OrefRapidActing => 75
      case OrefUltraRapidActing => 55
      case OrefFreePeak => 50
      case OrefLyumjev => 45
    }

    /** Duration of action in tenths of an hour (6.0 h for every entry). */
    function Dia(): int
    {
      match this
      case Unknown => 60
      case OrefRapidActing => 60
      case OrefUltraRapidActing => 60
      case OrefFreePeak => 60
      case OrefLyumjev => 60
    }

    /** The enum constant's own name (`this.name`). */
    function Name(): string
    {
      match this
      case Unknown => "UNKNOWN"
      case OrefRapidActing => "OREF_RAPID_ACTING"
      case OrefUltraRapidActing => "OREF_ULTRA_RAPID_ACTING"
      case OrefFreePeak => "OREF_FREE_PEAK"
      case OrefLyumjev => "OREF_LYUMJEV"
    }

    /** `getICfg()`: a config named after the entry, carrying its peak, DIA and value. */
    function GetICfg(): (c: ICfg)
      ensures c.insulinLabel == Name() && c.insulinTemplate == Value()
      ensures c.insulinPeakTime == Peak() * 60000 && c.insulinEndTime == Dia() * 360000
      ensures c.GetPeak() == Peak() && c.GetDia() == Dia()
    {
      NewICfg(Name(), Peak(), Dia(), Value())
    }
  }

  /** `entries` / `values()`: every constant, in declaration order. */
  const Entries: seq<InsulinType> := [Unknown, OrefRapidActing, OrefUltraRapidActing, OrefFreePeak, OrefLyumjev]

  /** The companion's `entries.associateBy(InsulinType::value)` looked up at `value`:
      the last entry of `es` carrying it, since a later entry replaces an earlier one
      with the same key. */
  function LookupValue(es: seq<InsulinType>, value: int): (r: Option<InsulinType>)
    ensures r.Some? ==> r.value in es && r.value.Value() == value
    ensures r.None? ==> forall k :: 0 <= k < |es| ==> es[k].Value() != value
    ensures r.None? ==> forall e :: e in es ==> e.Value() != value
  {
    if es == [] then None
    else if es[|es| - 1].Value() == value then Some(es[|es| - 1])
    else LookupValue(es[..|es| - 1], value)
  }

  /** `fromInt(type)`: the entry with that value, else OREF_RAPID_ACTING. */
  function FromInt(value: int): (t: InsulinType)
    ensures t.Value() == value || (t == OrefRapidActing && forall e: InsulinType :: e.Value() != value)
  {
    CatalogueShape();
    match LookupValue(Entries, value)
    case Some(e) => e
    case None => OrefRapidActing
  }

  /** `fromPeak(ms)`: the first entry, in declaration order, whose peak equals
      `(ms / 60000).toInt()`, else OREF_FREE_PEAK. */
  function FromPeak(ms: int): (t: InsulinType)
    ensures t.Peak() == PeakMinutes(ms)
            || (t == OrefFreePeak && forall e: InsulinType :: e.Peak() != PeakMinutes(ms))
  {
    CatalogueShape();
    var minutes := PeakMinutes(ms);
    match FirstIndex(Entries, (e: InsulinType) => e.Peak() == minutes)
    case Some(i) => Entries[i]
    case None => OrefFreePeak
  }

  /** The catalogue lists every constant once; values are pairwise distinct and never 0,
      peaks are pairwise distinct, and every DIA is 6.0 hours. */
  lemma CatalogueShape()
    ensures |Entries| == 5 && forall e: InsulinType :: e in Entries
    ensures forall e: InsulinType, f: InsulinType :: e.Value() == f.Value() ==> e == f
    ensures forall e: InsulinType :: e.Value() != 0
    ensures forall e: InsulinType, f: InsulinType :: e.Peak() == f.Peak() ==> e == f
    ensures forall e: InsulinType :: e.Dia() == 60
  {
    forall e: InsulinType ensures e in Entries {
      match e
      case Unknown => assert Entries[0] == e;
      case OrefRapidActing => assert Entries[1] == e;
      case OrefUltraRapidActing => assert Entries[2] == e;
      case OrefFreePeak => assert Entries[3] == e;
      case OrefLyumjev => assert Entries[4] == e;
    }
  }

  /** `fromInt` finds every entry by its value, UNKNOWN included. */
  lemma FromIntOfValue(e: InsulinType)
    ensures FromInt(e.Value()) == e
  {
    CatalogueShape();
    var i := match e
      case Unknown => 0
      case OrefRapidActing => 1
      case OrefUltraRapidActing => 2
      case OrefFreePeak => 3
      case OrefLyumjev => 4;
    assert Entries[i] == e;
  }

  /** Any id that is no entry's value, 0 among them, falls back to OREF_RAPID_ACTING. */
  lemma FromIntFallback(value: int)
    requires forall e: InsulinType :: e.Value() != value
    ensures FromInt(value) == OrefRapidActing
  {
  }

  /** `fromInt` on any id: the entry carrying it, or the fallback when none does. */
  lemma FromIntCases(value: int)
    ensures forall e: InsulinType :: e.Value() == value ==> FromInt(value) == e
    ensures (forall e: InsulinType :: e.Value() != value) ==> FromInt(value) == OrefRapidActing
  {
    forall e: InsulinType | e.Value() == value ensures FromInt(value) == e {
      FromIntOfValue(e);
    }
  }

  /** `fromPeak` answers the entry whose peak matches the truncated minutes when there
      is one, and OREF_FREE_PEAK when there is none. */
  lemma FromPeakMatches(ms: int)
    ensures (exists e: InsulinType :: e.Peak() == PeakMinutes(ms)) ==> FromPeak(ms).Peak() == PeakMinutes(ms)
    ensures (forall e: InsulinType :: e.Peak() != PeakMinutes(ms)) ==> FromPeak(ms) == OrefFreePeak
  {
    var minutes := PeakMinutes(ms);
    var p := (e: InsulinType) => e.Peak() == minutes;
    if r: InsulinType :| r.Peak() == minutes {
      assert r in Entries;
      var i :| 0 <= i < |Entries| && Entries[i] == r;
      assert p(Entries[i]);
    }
  }

  /** Peaks are distinct, so `fromPeak` finds every entry from its own peak. */
  lemma FromPeakOfPeak(e: InsulinType)
    ensures FromPeak(e.Peak() * 60000) == e
  {
    assert PeakMinutes(e.Peak() * 60000) == e.Peak();
    FromPeakMatches(e.Peak() * 60000);
  }

  /** The minutes are truncated toward zero: -59999 ms is 0 minutes (no entry), while
      -60000 ms is -1 minute, UNKNOWN's peak. */
  lemma FromPeakTruncates()
    ensures FromPeak(-59999) == OrefFreePeak
    ensures FromPeak(-60000) == Unknown
  {
    assert PeakMinutes(-59999) == 0;
    FromPeakMatches(-59999);
    FromPeakOfPeak(Unknown);
  }
}
