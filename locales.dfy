/**
 * The shipped unit tables (en-US, pt-BR, es) and the process-wide locale
 * registry: `defaultLocales` reseeds it, `registerLocale` adds or replaces
 * one validated table.
 */
module Locales {
  import opened Commons
  import opened Utils

  /** `pluralize` with its default starting index 1. */
  function Plural(xs: seq<string>): seq<string>
  {
    Pluralized(xs, SliceIndex(1, |xs|))
  }

  /** The default pluralization of three and of two spellings. */
  lemma PluralOfThree(x: string, y: string, z: string)
    ensures Plural([x, y, z]) == [x, y, y + "s", z, z + "s"]
  {
    var a := [x, y, z];
    assert a[..1] == [x] && a[1..] == [y, z] && a[1..][1..] == [z];
    assert Twins([z]) == [z, z + "s"] + Twins([]);
  }

  lemma PluralOfTwo(x: string, y: string)
    ensures Plural([x, y]) == [x, y, y + "s"]
  {
    var a := [x, y];
    assert a[..1] == [x] && a[1..] == [y];
    assert Twins([y]) == [y, y + "s"] + Twins([]);
  }

  /** The en-US table: each list is `pluralize` of the spellings in `EnUsPluralized`. */
  const EN_US: TimeStrings := [
    Entry(Milliseconds, ["ms", "msec", "msecs", "millisecond", "milliseconds"]),
    Entry(Seconds, ["s", "sec", "secs", "second", "seconds"]),
    Entry(Minutes, ["m", "min", "mins", "minute", "minutes"]),
    Entry(Hours, ["h", "hr", "hrs", "hour", "hours"]),
    Entry(Days, ["d", "day", "days"]),
    Entry(Weeks, ["w", "wk", "wks", "week", "weeks"]),
    Entry(Months, ["mo", "month", "months"]),
    Entry(Years, ["y", "yr", "yrs", "year", "years"])
  ]

  /** The pt-BR table: each list is `pluralize` of the spellings in `PtBrPluralized`. */
  const PT_BR: TimeStrings := [
    Entry(Milliseconds, ["ms", "msec", "msecs", "milissegundo", "milissegundos"]),
    Entry(Seconds, ["s", "seg", "segs", "segundo", "segundos"]),
    Entry(Minutes, ["m", "min", "mins", "minuto", "minutos"]),
    Entry(Hours, ["h", "hr", "hrs", "hora", "horas"]),
    Entry(Days, ["d", "dia", "dias"]),
    Entry(Weeks, ["s", "sem", "sems", "semana", "semanas"]),
    Entry(Months, ["m", "mes", "mess"]),
    Entry(Years, ["a", "ano", "anos"])
  ]

  /** The es table: each list is `pluralize` of the spellings in `EsPluralized`. */
  const ES: TimeStrings := [
    Entry(Milliseconds, ["ms", "mseg", "msegs", "milisegundo", "milisegundos"]),
    Entry(Seconds, ["s", "seg", "segs", "segundo", "segundos"]),
    Entry(Minutes, ["m", "min", "mins", "minuto", "minutos"]),
    Entry(Hours, ["h", "hr", "hrs", "hora", "horas"]),
    Entry(Days, ["d", "dia", "dias"]),
    Entry(Weeks, ["s", "sem", "sems", "semana", "semanas"]),
    Entry(Months, ["m", "mes", "mess"]),
    Entry(Years, ["a", "ano", "anos"])
  ]

  /** The three shipped locales, keyed as defaultLocales stores them. */
  const BUILTINS: map<string, TimeStrings> := map["en-US" := EN_US, "pt-BR" := PT_BR, "es" := ES]

  /** The en-US lists are the default pluralization of the source spellings. */
  lemma EnUsPluralized()
    ensures EN_US[0].synonyms == Plural(["ms", "msec", "millisecond"])
    ensures EN_US[1].synonyms == Plural(["s", "sec", "second"])
    ensures EN_US[2].synonyms == Plural(["m", "min", "minute"])
    ensures EN_US[3].synonyms == Plural(["h", "hr", "hour"])
    ensures EN_US[4].synonyms == Plural(["d", "day"])
    ensures EN_US[5].synonyms == Plural(["w", "wk", "week"])
    ensures EN_US[6].synonyms == Plural(["mo", "month"])
    ensures EN_US[7].synonyms == Plural(["y", "yr", "year"])
  {
    EnUsPluralizedShort();
    EnUsPluralizedLong();
  }

  lemma EnUsPluralizedShort()
    ensures EN_US[0].synonyms == Plural(["ms", "msec", "millisecond"])
    ensures EN_US[1].synonyms == Plural(["s", "sec", "second"])
    ensures EN_US[2].synonyms == Plural(["m", "min", "minute"])
    ensures EN_US[3].synonyms == Plural(["h", "hr", "hour"])
  {
    PluralOfThree("ms", "msec", "millisecond"); assert "msec" + "s" == "msecs"; assert "millisecond" + "s" == "milliseconds";
    PluralOfThree("s", "sec", "second"); assert "sec" + "s" == "secs"; assert "second" + "s" == "seconds";
    PluralOfThree("m", "min", "minute"); assert "min" + "s" == "mins"; assert "minute" + "s" == "minutes";
    PluralOfThree("h", "hr", "hour"); assert "hr" + "s" == "hrs"; assert "hour" + "s" == "hours";
  }

  lemma EnUsPluralizedLong()
    ensures EN_US[4].synonyms == Plural(["d", "day"])
    ensures EN_US[5].synonyms == Plural(["w", "wk", "week"])
    ensures EN_US[6].synonyms == Plural(["mo", "month"])
    ensures EN_US[7].synonyms == Plural(["y", "yr", "year"])
  {
    PluralOfTwo("d", "day"); assert "day" + "s" == "days";
    PluralOfThree("w", "wk", "week"); assert "wk" + "s" == "wks"; assert "week" + "s" == "weeks";
    PluralOfTwo("mo", "month"); assert "month" + "s" == "months";
    PluralOfThree("y", "yr", "year"); assert "yr" + "s" == "yrs"; assert "year" + "s" == "years";
  }

  /** The pt-BR lists are the default pluralization of the source spellings. */
  lemma PtBrPluralized()
    ensures PT_BR[0].synonyms == Plural(["ms", "msec", "milissegundo"])
    ensures PT_BR[1].synonyms == Plural(["s", "seg", "segundo"])
    ensures PT_BR[2].synonyms == Plural(["m", "min", "minuto"])
    ensures PT_BR[3].synonyms == Plural(["h", "hr", "hora"])
    ensures PT_BR[4].synonyms == Plural(["d", "dia"])
    ensures PT_BR[5].synonyms == Plural(["s", "sem", "semana"])
    ensures PT_BR[6].synonyms == Plural(["m", "mes"])
    ensures PT_BR[7].synonyms == Plural(["a", "ano"])
  {
    PtBrPluralizedShort();
    PtBrPluralizedLong();
  }

  lemma PtBrPluralizedShort()
    ensures PT_BR[0].synonyms == Plural(["ms", "msec", "milissegundo"])
    ensures PT_BR[1].synonyms == Plural(["s", "seg", "segundo"])
    ensures PT_BR[2].synonyms == Plural(["m", "min", "minuto"])
    ensures PT_BR[3].synonyms == Plural(["h", "hr", "hora"])
  {
    PluralOfThree("ms", "msec", "milissegundo"); assert "msec" + "s" == "msecs"; assert "milissegundo" + "s" == "milissegundos";
    PluralOfThree("s", "seg", "segundo"); assert "seg" + "s" == "segs"; assert "segundo" + "s" == "segundos";
    PluralOfThree("m", "min", "minuto"); assert "min" + "s" == "mins"; assert "minuto" + "s" == "minutos";
    PluralOfThree("h", "hr", "hora"); assert "hr" + "s" == "hrs"; assert "hora" + "s" == "horas";
  }

  lemma PtBrPluralizedLong()
    ensures PT_BR[4].synonyms == Plural(["d", "dia"])
    ensures PT_BR[5].synonyms == Plural(["s", "sem", "semana"])
    ensures PT_BR[6].synonyms == Plural(["m", "mes"])
    ensures PT_BR[7].synonyms == Plural(["a", "ano"])
  {
    PluralOfTwo("d", "dia"); assert "dia" + "s" == "dias";
    PluralOfThree("s", "sem", "semana"); assert "sem" + "s" == "sems"; assert "semana" + "s" == "semanas";
    PluralOfTwo("m", "mes"); assert "mes" + "s" == "mess";
    PluralOfTwo("a", "ano"); assert "ano" + "s" == "anos";
  }

  /** The es lists are the default pluralization of the source spellings. */
  lemma EsPluralized()
    ensures ES[0].synonyms == Plural(["ms", "mseg", "milisegundo"])
    ensures ES[1].synonyms == Plural(["s", "seg", "segundo"])
    ensures ES[2].synonyms == Plural(["m", "min", "minuto"])
    ensures ES[3].synonyms == Plural(["h", "hr", "hora"])
    ensures ES[4].synonyms == Plural(["d", "dia"])
    ensures ES[5].synonyms == Plural(["s", "sem", "semana"])
    ensures ES[6].synonyms == Plural(["m", "mes"])
    ensures ES[7].synonyms == Plural(["a", "ano"])
  {
    EsPluralizedShort();
    EsPluralizedLong();
  }

  lemma EsPluralizedShort()
    ensures ES[0].synonyms == Plural(["ms", "mseg", "milisegundo"])
    ensures ES[1].synonyms == Plural(["s", "seg", "segundo"])
    ensures ES[2].synonyms == Plural(["m", "min", "minuto"])
    ensures ES[3].synonyms == Plural(["h", "hr", "hora"])
  {
    PluralOfThree("ms", "mseg", "milisegundo"); assert "mseg" + "s" == "msegs"; assert "milisegundo" + "s" == "milisegundos";
    PluralOfThree("s", "seg", "segundo"); assert "seg" + "s" == "segs"; assert "segundo" + "s" == "segundos";
    PluralOfThree("m", "min", "minuto"); assert "min" + "s" == "mins"; assert "minuto" + "s" == "minutos";
    PluralOfThree("h", "hr", "hora"); assert "hr" + "s" == "hrs"; assert "hora" + "s" == "horas";
  }

  lemma EsPluralizedLong()
    ensures ES[4].synonyms == Plural(["d", "dia"])
    ensures ES[5].synonyms == Plural(["s", "sem", "semana"])
    ensures ES[6].synonyms == Plural(["m", "mes"])
    ensures ES[7].synonyms == Plural(["a", "ano"])
  {
    PluralOfTwo("d", "dia"); assert "dia" + "s" == "dias";
    PluralOfThree("s", "sem", "semana"); assert "sem" + "s" == "sems"; assert "semana" + "s" == "semanas";
    PluralOfTwo("m", "mes"); assert "mes" + "s" == "mess";
    PluralOfTwo("a", "ano"); assert "ano" + "s" == "anos";
  }

  /** A shipped table lists all eight fields in declared order, each non-empty. */
  ghost predicate Complete(t: TimeStrings)
  {
    FieldsOf(t) == FIELDS && forall k :: 0 <= k < |t| ==> |t[k].synonyms| > 0
  }

  /** Eight non-empty synonym lists, stated one by one, make all lists non-empty. */
  lemma EightNonEmpty(t: TimeStrings)
    requires |t| == 8
    requires |t[0].synonyms| > 0 && |t[1].synonyms| > 0 && |t[2].synonyms| > 0 && |t[3].synonyms| > 0
    requires |t[4].synonyms| > 0 && |t[5].synonyms| > 0 && |t[6].synonyms| > 0 && |t[7].synonyms| > 0
    ensures forall k :: 0 <= k < |t| ==> |t[k].synonyms| > 0
  {
  }

  /** A complete table is well formed, and so validateTimeStrings accepts it. */
  lemma CompleteIsWellFormed(t: TimeStrings)
    requires Complete(t)
    ensures WellFormed(t)
    ensures ValidationError(Raw(t)).None?
  {
    WellFormedIffValidates(t);
  }

  /** Every table of a locale map passes validation. */
  ghost predicate AllWellFormed(m: map<string, TimeStrings>)
  {
    forall l :: l in m ==> WellFormed(m[l])
  }

  /** Storing a well-formed table keeps a locale map well formed. */
  lemma StorePreserves(m: map<string, TimeStrings>, l: string, t: TimeStrings)
    requires AllWellFormed(m) && WellFormed(t)
    ensures AllWellFormed(m[l := t])
  {
  }

  /** Every shipped table is well formed and would pass validation. */
  lemma BuiltinsWellFormed()
    ensures AllWellFormed(BUILTINS)
    ensures forall l :: l in BUILTINS ==> ValidationError(Raw(BUILTINS[l])).None?
  {
    EnUsComplete();
    PtBrComplete();
    EsComplete();
    StorePreserves(map[], "en-US", EN_US);
    StorePreserves(map["en-US" := EN_US], "pt-BR", PT_BR);
    StorePreserves(map["en-US" := EN_US, "pt-BR" := PT_BR], "es", ES);
    forall l | l in BUILTINS
      ensures ValidationError(Raw(BUILTINS[l])).None?
    {
      WellFormedIffValidates(BUILTINS[l]);
    }
  }

  /** Eight entries whose fields are, one by one, the declared fields have exactly the declared keys. */
  lemma {:induction false} InDeclaredOrder(t: TimeStrings)
    requires |t| == 8
    requires t[0].field == Milliseconds && t[1].field == Seconds && t[2].field == Minutes && t[3].field == Hours
    requires t[4].field == Days && t[5].field == Weeks && t[6].field == Months && t[7].field == Years
    ensures FieldsOf(t) == FIELDS
  {
    var fs := FieldsOf(t);
    assert fs[0] == FIELDS[0] && fs[1] == FIELDS[1] && fs[2] == FIELDS[2] && fs[3] == FIELDS[3];
    assert fs[4] == FIELDS[4] && fs[5] == FIELDS[5] && fs[6] == FIELDS[6] && fs[7] == FIELDS[7];
  }

  /** The EN_US table has the eight fields in declared order, each non-empty, and passes validation. */
  lemma EnUsComplete()
    ensures Complete(EN_US) && WellFormed(EN_US)
    ensures ValidationError(Raw(EN_US)).None?
  {
    EnUsFields();
    EightNonEmpty(EN_US);
    CompleteIsWellFormed(EN_US);
  }

  lemma EnUsFields()
    ensures FieldsOf(EN_US) == FIELDS
  {
    InDeclaredOrder(EN_US);
  }

  /** The PT_BR table has the eight fields in declared order, each non-empty, and passes validation. */
  lemma PtBrComplete()
    ensures Complete(PT_BR) && WellFormed(PT_BR)
    ensures ValidationError(Raw(PT_BR)).None?
  {
    PtBrFields();
    EightNonEmpty(PT_BR);
    CompleteIsWellFormed(PT_BR);
  }

  lemma PtBrFields()
    ensures FieldsOf(PT_BR) == FIELDS
  {
    InDeclaredOrder(PT_BR);
  }

  /** The ES table has the eight fields in declared order, each non-empty, and passes validation. */
  lemma EsComplete()
    ensures Complete(ES) && WellFormed(ES)
    ensures ValidationError(Raw(ES)).None?
  {
    EsFields();
    EightNonEmpty(ES);
    CompleteIsWellFormed(ES);
  }

  lemma EsFields()
    ensures FieldsOf(ES) == FIELDS
  {
    InDeclaredOrder(ES);
  }

  /** The en-US list lengths: a three-spelling list pluralizes to 5 entries, a two-spelling list to 3. */
  lemma EnUsLengths()
    ensures |EN_US[0].synonyms| == 5 && |EN_US[1].synonyms| == 5 && |EN_US[2].synonyms| == 5
    ensures |EN_US[3].synonyms| == 5 && |EN_US[4].synonyms| == 3 && |EN_US[5].synonyms| == 5
    ensures |EN_US[6].synonyms| == 3 && |EN_US[7].synonyms| == 5
  {
  }

  /** A locale map after the three shipped tables are set on it, in the order defaultLocales sets them. */
  function Reseeded(base: map<string, TimeStrings>): map<string, TimeStrings>
  {
    base["en-US" := EN_US]["pt-BR" := PT_BR]["es" := ES]
  }

  /** Reseeding adds the three shipped keys with their shipped tables and keeps every other entry. */
  lemma ReseededContents(base: map<string, TimeStrings>)
    ensures Reseeded(base).Keys == base.Keys + BUILTINS.Keys
    ensures forall l :: l in BUILTINS ==> Reseeded(base)[l] == BUILTINS[l]
    ensures forall l :: l in base && l !in BUILTINS ==> Reseeded(base)[l] == base[l]
  {
  }

  /** Reseeding keeps every table of the map well formed. */
  lemma ReseededWellFormed(base: map<string, TimeStrings>)
    requires AllWellFormed(base)
    ensures AllWellFormed(Reseeded(base))
  {
    EnUsComplete();
    PtBrComplete();
    EsComplete();
    var m1 := base["en-US" := EN_US];
    var m2 := m1["pt-BR" := PT_BR];
    StorePreserves(base, "en-US", EN_US);
    StorePreserves(m1, "pt-BR", PT_BR);
    StorePreserves(m2, "es", ES);
  }

  /** Reseeding an empty map gives exactly the shipped tables. */
  lemma ReseededEmpty()
    ensures Reseeded(map[]) == BUILTINS
    ensures Reseeded(map[]).Keys == {"en-US", "pt-BR", "es"}
  {
  }

  /** The process-wide `locales` map, owned by one object. */
  class LocaleRegistry {
    var locales: map<string, TimeStrings>

    /** Every registered table is well formed. */
    ghost predicate Valid()
      reads this
    {
      AllWellFormed(locales)
    }

    /** `new Map()`: the registry starts empty. */
    constructor ()
      ensures Valid() && locales == map[]
    {
      locales := map[];
    }

    /** `locales.get(locale)`. */
    function Get(locale: string): (r: Option<TimeStrings>)
      reads this
      ensures r.Some? <==> locale in locales
      ensures r.Some? ==> r.value == locales[locale]
    {
      if locale in locales then Some(locales[locale]) else None
    }

    /** `defaultLocales(clean)`: optionally clear, then (re)set the three shipped tables. */
    method DefaultLocales(clean: bool)
      requires Valid()
      modifies this
      ensures Valid()
      ensures locales == Reseeded(if clean then map[] else old(locales))
    {
      if clean {
        locales := map[];
      }
      ReseededWellFormed(locales);
      locales := locales["en-US" := EN_US];
      locales := locales["pt-BR" := PT_BR];
      locales := locales["es" := ES];
    }

    /**
     * `registerLocale(locale, strings, overwrite)`: refuse a taken name
     * unless overwriting (before looking at the table), then validate, then
     * set. On any error the registry is left as it was.
     */
    method RegisterLocale(locale: string, strings: RawTimeStrings, overwrite: bool)
      returns (r: Completion<map<string, TimeStrings>>)
      requires Valid()
      modifies this
      ensures Valid()
      ensures r.Throw? ==> locales == old(locales)
      ensures locale in old(locales) && !overwrite ==> r == Throw(AlreadyRegistered(locale))
      ensures !(locale in old(locales) && !overwrite) ==>
                (r.Throw? <==> ValidationError(strings).Some?) &&
                (r.Throw? ==> ValidationError(strings) == Some(r.error))
      ensures r.Normal? ==>
                && (forall k :: 0 <= k < |strings| ==> strings[k].value.Array?)
                && locales == old(locales)[locale := Typed(strings)]
                && r.value == locales
                && |locales| == |old(locales)| + (if locale in old(locales) then 0 else 1)
    {
      if locale in locales && !overwrite {
        return Throw(AlreadyRegistered(locale));
      }
      var v := ValidateTimeStrings(strings);
      if v.Throw? {
        return Throw(v.error);
      }
      PassesWellFormed(strings);
      locales := locales[locale := Typed(strings)];
      return Normal(locales);
    }
  }
}
