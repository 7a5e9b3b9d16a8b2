/**
 * Worked inputs from the library's documented behaviour, each evaluated
 * step by step on the model: scanning, unit resolution and whole parses.
 */
module Scenarios {
  import opened Commons
  import opened Numbers
  import opened Tokenizer
  import opened Utils
  import opened Locales
  import opened ParseTime
  import opened ParseTimeProperties

  const DEFAULTS := Options(None, false, None, false)

  // ------------------------------------------------------- shared steps

  /** A non-numeric string parses to what the loop makes of its terms. */
  lemma TextParse(locales: map<string, TimeStrings>, s: string, o: Options, now: real,
                  xs: seq<Term>, t: TimeStrings)
    requires EffectiveTable(locales, o) == Some(t) && !o.fromNow
    requires StringToNumber(s) == NaN && Terms(Tokens(ToLowerCase(s))) == xs
    ensures ParseSpec(locales, Str(s), o, now) ==
              match Accumulate(xs, t, 0.0)
              case Sum(v) => Normal(Some(v))
              case Stuck(u) => ErrorOrNull(UnknownUnit(u, LocaleName(o)), o.throwError)
  {
  }

  /** One term whose unit names field `f`. */
  lemma SingleTerm(q: real, u: string, t: TimeStrings, f: Field)
    requires Resolve(t, u) == Some(f)
    ensures Accumulate([Term(q, Some(u))], t, 0.0) == Sum(Scaled(q, f))
  {
    var xs := [Term(q, Some(u))];
    assert xs[..0] == [];
  }

  /** One term whose unit no list holds. */
  lemma SingleStuck(x: Term, t: TimeStrings)
    requires !Resolves(x, t)
    ensures Accumulate([x], t, 0.0) == Stuck(x.unit.value)
  {
    var xs := [x];
    assert xs[..0] == [];
  }

  /** Two terms that both resolve add up. */
  lemma TwoTerms(x: Term, y: Term, t: TimeStrings)
    requires Resolves(x, t) && Resolves(y, t)
    ensures Accumulate([x, y], t, 0.0) == Sum(Amount(x, t, 0.0) + Amount(y, t, 0.0))
  {
    var xs := [x, y];
    assert xs[..1] == [x];
    assert [x][..0] == [];
    assert Accumulate([x], t, 0.0) == Sum(Amount(x, t, 0.0));
  }

  /** Two terms with known units add up to the sum of both amounts. */
  lemma TwoTermSum(x: Term, y: Term, t: TimeStrings, f: Field, g: Field, v: real)
    requires x.unit.Some? && Resolve(t, x.unit.value) == Some(f)
    requires y.unit.Some? && Resolve(t, y.unit.value) == Some(g)
    requires Scaled(x.quantity, f) + Scaled(y.quantity, g) == v
    ensures Accumulate([x, y], t, 0.0) == Sum(v)
  {
    AmountOf(x, t, f);
    AmountOf(y, t, g);
    TwoTerms(x, y, t);
  }

  /** A non-numeric text whose terms add up to `v` parses to `v`. */
  lemma TextSum(locales: map<string, TimeStrings>, s: string, o: Options, now: real,
                xs: seq<Term>, t: TimeStrings, v: real)
    requires EffectiveTable(locales, o) == Some(t) && !o.fromNow
    requires StringToNumber(s) == NaN && Terms(Tokens(ToLowerCase(s))) == xs
    requires Accumulate(xs, t, 0.0) == Sum(v)
    ensures ParseSpec(locales, Str(s), o, now) == Normal(Some(v))
  {
    TextParse(locales, s, o, now, xs, t);
  }

  lemma AmountOf(x: Term, t: TimeStrings, f: Field)
    requires x.unit.Some? && Resolve(t, x.unit.value) == Some(f)
    ensures Resolves(x, t) && Amount(x, t, 0.0) == Scaled(x.quantity, f)
  {
  }

  /** A non-numeric text whose loop stops at unit `u` leaves through the error gate. */
  lemma TextStuck(locales: map<string, TimeStrings>, s: string, o: Options, now: real,
                  xs: seq<Term>, t: TimeStrings, u: string)
    requires EffectiveTable(locales, o) == Some(t) && !o.fromNow
    requires StringToNumber(s) == NaN && Terms(Tokens(ToLowerCase(s))) == xs
    requires Accumulate(xs, t, 0.0) == Stuck(u)
    ensures ParseSpec(locales, Str(s), o, now) == ErrorOrNull(UnknownUnit(u, LocaleName(o)), o.throwError)
  {
    TextParse(locales, s, o, now, xs, t);
  }

  lemma OneValue()
    ensures IsQuantity("1") && QuantityValue("1") == 1.0
  {
    DigitsToNumber("1");
    assert "1"[..0] == "";
  }

  // ------------------------------------------------------------ ".5ms"

  lemma HalfMsMatch()
    ensures MatchAt(".5ms", 0) == Some(Match(0, 4, Token(".5", Some("ms"))))
  {
    var s := ".5ms";
    assert s[0] == '.' && s[1] == '5' && s[2] == 'm' && s[3] == 's';
    MatchOfParts(s, 0, 0, 0, 2, 2, 4);
    assert s[0..2] == ".5" && s[2..4] == "ms";
  }

  lemma HalfValue()
    ensures IsQuantity(".5") && QuantityValue(".5") == 0.5
  {
    var b := ".5";
    assert DotIndex(b) == 0;
    assert b[..0] == "" && b[1..] == "5";
    assert FractionValue("5") == 0.5 by {
      assert "5"[1..] == "";
    }
  }

  lemma HalfMsTerms()
    ensures Terms(Tokens(ToLowerCase(".5ms"))) == [Term(0.5, Some("ms"))]
  {
    HalfMsText();
    HalfMsMatch();
    assert ScanFrom(".5ms", 4) == [];
    HalfValue();
  }

  lemma HalfMsText()
    ensures ToLowerCase(".5ms") == ".5ms"
    ensures StringToNumber(".5ms") == NaN
  {
    ToLowerCaseFixes(".5ms");
    LetterEndIsNaN(".5ms");
  }

  lemma MsResolves()
    ensures Resolve(EN_US, "ms") == Some(Milliseconds)
  {
    assert "ms" in EN_US[0].synonyms;
    ResolveFirst(EN_US, "ms", 0);
  }

  /** `parseTime(".5ms")` is 0.5: a bare fraction is a quantity. */
  lemma HalfMillisecond(locales: map<string, TimeStrings>, now: real)
    requires "en-US" in locales && locales["en-US"] == EN_US
    ensures ParseSpec(locales, Str(".5ms"), DEFAULTS, now) == Normal(Some(0.5))
  {
    MsResolves();
    HalfMillisecondIn(locales, now, EN_US);
  }

  lemma HalfMillisecondIn(locales: map<string, TimeStrings>, now: real, t: TimeStrings)
    requires EffectiveTable(locales, DEFAULTS) == Some(t) && Resolve(t, "ms") == Some(Milliseconds)
    ensures ParseSpec(locales, Str(".5ms"), DEFAULTS, now) == Normal(Some(0.5))
  {
    HalfMsText();
    HalfMsTerms();
    HalfMsSum(t);
    TextSum(locales, ".5ms", DEFAULTS, now, [Term(0.5, Some("ms"))], t, 0.5);
  }

  lemma HalfMsSum(t: TimeStrings)
    requires Resolve(t, "ms") == Some(Milliseconds)
    ensures Accumulate([Term(0.5, Some("ms"))], t, 0.0) == Sum(0.5)
  {
    SingleTerm(0.5, "ms", t, Milliseconds);
  }

  // ------------------------------------------------------------ "-.5h"

  lemma NegHalfHourMatch()
    ensures MatchAt("-.5h", 0) == Some(Match(0, 4, Token("-.5", Some("h"))))
  {
    var s := "-.5h";
    assert s[0] == '-' && s[1] == '.' && s[2] == '5' && s[3] == 'h';
    MatchOfParts(s, 0, 1, 1, 3, 3, 4);
    assert s[0..3] == "-.5" && s[3..4] == "h";
  }

  lemma NegHalfValue()
    ensures IsQuantity("-.5") && QuantityValue("-.5") == -0.5
  {
    HalfValue();
    NegatedDecimal(".5");
    assert "-" + ".5" == "-.5";
  }

  lemma NegHalfHourTerms()
    ensures Terms(Tokens(ToLowerCase("-.5h"))) == [Term(-0.5, Some("h"))]
  {
    NegHalfHourText();
    NegHalfHourMatch();
    assert ScanFrom("-.5h", 4) == [];
    NegHalfValue();
  }

  lemma NegHalfHourText()
    ensures ToLowerCase("-.5h") == "-.5h"
    ensures StringToNumber("-.5h") == NaN
  {
    ToLowerCaseFixes("-.5h");
    LetterEndIsNaN("-.5h");
  }

  lemma HourResolves()
    ensures Resolve(EN_US, "h") == Some(Hours)
  {
    assert "h" !in EN_US[0].synonyms && "h" !in EN_US[1].synonyms && "h" !in EN_US[2].synonyms;
    assert "h" in EN_US[3].synonyms;
    ResolveFirst(EN_US, "h", 3);
  }

  /** `parseTime("-.5h")` is -1 800 000: the sign belongs to the quantity. */
  lemma NegativeHalfHour(locales: map<string, TimeStrings>, now: real)
    requires "en-US" in locales && locales["en-US"] == EN_US
    ensures ParseSpec(locales, Str("-.5h"), DEFAULTS, now) == Normal(Some(-1_800_000.0))
  {
    HourResolves();
    NegativeHalfHourIn(locales, now, EN_US);
  }

  lemma NegativeHalfHourIn(locales: map<string, TimeStrings>, now: real, t: TimeStrings)
    requires EffectiveTable(locales, DEFAULTS) == Some(t) && Resolve(t, "h") == Some(Hours)
    ensures ParseSpec(locales, Str("-.5h"), DEFAULTS, now) == Normal(Some(-1_800_000.0))
  {
    NegHalfHourText();
    NegHalfHourTerms();
    NegHalfHourSum(t);
    TextSum(locales, "-.5h", DEFAULTS, now, [Term(-0.5, Some("h"))], t, -1_800_000.0);
  }

  lemma NegHalfHourSum(t: TimeStrings)
    requires Resolve(t, "h") == Some(Hours)
    ensures Accumulate([Term(-0.5, Some("h"))], t, 0.0) == Sum(-1_800_000.0)
  {
    SingleTerm(-0.5, "h", t, Hours);
  }

  // ------------------------------------------------------ "1m" in pt-BR

  lemma OneMinuteMatch()
    ensures MatchAt("1m", 0) == Some(Match(0, 2, Token("1", Some("m"))))
  {
    var s := "1m";
    assert s[0] == '1' && s[1] == 'm';
    MatchOfParts(s, 0, 0, 1, 1, 1, 2);
    assert s[0..1] == "1" && s[1..2] == "m";
  }

  lemma OneMinuteTerms()
    ensures Terms(Tokens(ToLowerCase("1m"))) == [Term(1.0, Some("m"))]
  {
    OneMinuteText();
    OneMinuteMatch();
    assert ScanFrom("1m", 2) == [];
    OneValue();
  }

  lemma OneMinuteText()
    ensures ToLowerCase("1m") == "1m"
    ensures StringToNumber("1m") == NaN
  {
    ToLowerCaseFixes("1m");
    LetterEndIsNaN("1m");
  }

  /** In pt-BR "m" is listed under both minutes and months; minutes come first. */
  lemma PtBrMinute()
    ensures Resolve(PT_BR, "m") == Some(Minutes)
  {
    assert "m" !in PT_BR[0].synonyms && "m" !in PT_BR[1].synonyms;
    assert "m" in PT_BR[2].synonyms;
    ResolveFirst(PT_BR, "m", 2);
  }

  /** In pt-BR "s" is listed under both seconds and weeks; seconds come first. */
  lemma PtBrSecond()
    ensures Resolve(PT_BR, "s") == Some(Seconds)
  {
    assert "s" !in PT_BR[0].synonyms;
    assert "s" in PT_BR[1].synonyms;
    ResolveFirst(PT_BR, "s", 1);
  }

  const PT_BR_OPTIONS := Options(None, false, Some("pt-BR"), false)

  /** `parseTime("1m", { locale: "pt-BR" })` is one minute. */
  lemma PtBrOneMinute(locales: map<string, TimeStrings>, now: real)
    requires "pt-BR" in locales && locales["pt-BR"] == PT_BR
    ensures ParseSpec(locales, Str("1m"), PT_BR_OPTIONS, now) == Normal(Some(60_000.0))
  {
    PtBrMinute();
    OneMinuteIn(locales, now, PT_BR);
  }

  lemma OneMinuteIn(locales: map<string, TimeStrings>, now: real, t: TimeStrings)
    requires EffectiveTable(locales, PT_BR_OPTIONS) == Some(t) && Resolve(t, "m") == Some(Minutes)
    ensures ParseSpec(locales, Str("1m"), PT_BR_OPTIONS, now) == Normal(Some(60_000.0))
  {
    OneMinuteText();
    OneMinuteTerms();
    OneMinuteSum(t);
    TextSum(locales, "1m", PT_BR_OPTIONS, now, [Term(1.0, Some("m"))], t, 60_000.0);
  }

  lemma OneMinuteSum(t: TimeStrings)
    requires Resolve(t, "m") == Some(Minutes)
    ensures Accumulate([Term(1.0, Some("m"))], t, 0.0) == Sum(60_000.0)
  {
    SingleTerm(1.0, "m", t, Minutes);
  }

  // ------------------------------------------------------------ "1s 1m"

  lemma OneSecondMatch()
    ensures MatchAt("1s 1m", 0) == Some(Match(0, 2, Token("1", Some("s"))))
  {
    var s := "1s 1m";
    assert s[0] == '1' && s[1] == 's' && s[2] == ' ';
    MatchOfParts(s, 0, 0, 1, 1, 1, 2);
    assert s[0..1] == "1" && s[1..2] == "s";
  }

  lemma GapNoMatch()
    ensures MatchAt("1s 1m", 2).None?
  {
    var s := "1s 1m";
    assert s[2] == ' ';
    NoMatchAt(s, 2);
  }

  lemma SecondMinuteMatch()
    ensures MatchAt("1s 1m", 3) == Some(Match(3, 5, Token("1", Some("m"))))
  {
    var s := "1s 1m";
    assert s[3] == '1' && s[4] == 'm';
    MatchOfParts(s, 3, 3, 4, 4, 4, 5);
    assert s[3..4] == "1" && s[4..5] == "m";
  }

  lemma SecondMinuteTokens()
    ensures Tokens("1s 1m") == [Token("1", Some("s")), Token("1", Some("m"))]
  {
    var s := "1s 1m";
    var m0 := Match(0, 2, Token("1", Some("s")));
    var m1 := Match(3, 5, Token("1", Some("m")));
    OneSecondMatch();
    GapNoMatch();
    SecondMinuteMatch();
    assert ScanFrom(s, 5) == [];
    assert ScanFrom(s, 3) == [m1];
    assert ScanFrom(s, 2) == [m1];
    assert ScanFrom(s, 0) == [m0, m1];
    TokensOfScan(s, [m0, m1]);
  }

  lemma SecondMinuteTerms()
    ensures Terms(Tokens(ToLowerCase("1s 1m"))) == [Term(1.0, Some("s")), Term(1.0, Some("m"))]
  {
    SecondMinuteText();
    SecondMinuteTokens();
    OneValue();
  }

  lemma SecondMinuteText()
    ensures ToLowerCase("1s 1m") == "1s 1m"
    ensures StringToNumber("1s 1m") == NaN
  {
    ToLowerCaseFixes("1s 1m");
    LetterEndIsNaN("1s 1m");
  }

  lemma SecondResolves()
    ensures Resolve(EN_US, "s") == Some(Seconds)
  {
    assert "s" !in EN_US[0].synonyms && "s" in EN_US[1].synonyms;
    ResolveFirst(EN_US, "s", 1);
  }

  lemma MinuteResolves()
    ensures Resolve(EN_US, "m") == Some(Minutes)
  {
    assert "m" !in EN_US[0].synonyms && "m" !in EN_US[1].synonyms && "m" in EN_US[2].synonyms;
    ResolveFirst(EN_US, "m", 2);
  }

  /** `parseTime("1s 1m")` adds the two units. */
  lemma SecondAndMinute(locales: map<string, TimeStrings>, now: real)
    requires "en-US" in locales && locales["en-US"] == EN_US
    ensures ParseSpec(locales, Str("1s 1m"), DEFAULTS, now) == Normal(Some(61_000.0))
  {
    SecondResolves();
    MinuteResolves();
    SecondAndMinuteIn(locales, now, EN_US);
  }

  lemma SecondAndMinuteIn(locales: map<string, TimeStrings>, now: real, t: TimeStrings)
    requires EffectiveTable(locales, DEFAULTS) == Some(t)
    requires Resolve(t, "s") == Some(Seconds) && Resolve(t, "m") == Some(Minutes)
    ensures ParseSpec(locales, Str("1s 1m"), DEFAULTS, now) == Normal(Some(61_000.0))
  {
    SecondMinuteText();
    SecondMinuteTerms();
    SecondMinuteSum(t);
    TextSum(locales, "1s 1m", DEFAULTS, now, [Term(1.0, Some("s")), Term(1.0, Some("m"))], t, 61_000.0);
  }

  lemma SecondMinuteSum(t: TimeStrings)
    requires Resolve(t, "s") == Some(Seconds) && Resolve(t, "m") == Some(Minutes)
    ensures Accumulate([Term(1.0, Some("s")), Term(1.0, Some("m"))], t, 0.0) == Sum(61_000.0)
  {
    TwoTermSum(Term(1.0, Some("s")), Term(1.0, Some("m")), t, Seconds, Minutes, 61_000.0);
  }

  // ------------------------------------------------------------ "1.5H"

  lemma UpperHourText()
    ensures ToLowerCase("1.5H") == "1.5h"
    ensures StringToNumber("1.5H") == NaN && StringToNumber("1.5h") == NaN
  {
    var s := ToLowerCase("1.5H");
    assert s[3] == 'h';
    LetterEndIsNaN("1.5h");
    assert "1.5H"[3] == 'H';
    assert !IsDecimal("1.5H");
  }

  /** `parseTime("1.5H")` is `parseTime("1.5h")`. */
  lemma UpperCaseUnit(locales: map<string, TimeStrings>, now: real)
    ensures ParseSpec(locales, Str("1.5H"), DEFAULTS, now) == ParseSpec(locales, Str("1.5h"), DEFAULTS, now)
  {
    UpperHourText();
    ToLowerCaseFixes("1.5h");
    CaseInsensitive(locales, "1.5H", "1.5h", DEFAULTS, now);
  }

  // --------------------------------------- "1 dia" with a custom day list

  const DIA: TimeStrings := [Entry(Days, ["dia"])]
  const DIA_OPTIONS := Options(Some(DIA), false, None, false)

  lemma OneDiaMatch()
    ensures MatchAt("1 dia", 0) == Some(Match(0, 5, Token("1", Some("dia"))))
  {
    var s := "1 dia";
    assert s[0] == '1' && s[1] == ' ' && s[2] == 'd' && s[3] == 'i' && s[4] == 'a';
    MatchOfParts(s, 0, 0, 1, 1, 2, 5);
    assert s[0..1] == "1" && s[2..5] == "dia";
  }

  lemma OneDiaTerms()
    ensures Terms(Tokens(ToLowerCase("1 dia"))) == [Term(1.0, Some("dia"))]
  {
    DiaText();
    OneDiaMatch();
    assert ScanFrom("1 dia", 5) == [];
    OneValue();
  }

  lemma DiaText()
    ensures ToLowerCase("1 dia") == "1 dia"
    ensures StringToNumber("1 dia") == NaN
  {
    ToLowerCaseFixes("1 dia");
    LetterEndIsNaN("1 dia");
  }

  /** An entry of the merge in front is the base entry with its list overridden. */
  lemma MergedEntry(base: TimeStrings, cs: TimeStrings, k: nat)
    requires k < |base|
    ensures Merge(base, cs)[k] == Override(base[k], cs)
  {
    var o := Overridden(base, cs);
    assert (o + Added(cs, base))[k] == o[k];
  }

  /**
   * A unit that the overrides put in the fifth list, and that no earlier
   * list holds (the overrides leave the first four lists alone), resolves to
   * the fifth key in the merged table.
   */
  lemma FifthResolves(base: TimeStrings, cs: TimeStrings, u: string, l: seq<string>)
    requires |base| > 4 && Lookup(cs, base[4].field) == Some(l) && u in l
    requires Lookup(cs, base[0].field).None? && Lookup(cs, base[1].field).None?
    requires Lookup(cs, base[2].field).None? && Lookup(cs, base[3].field).None?
    requires u !in base[0].synonyms && u !in base[1].synonyms
    requires u !in base[2].synonyms && u !in base[3].synonyms
    ensures Resolve(Merge(base, cs), u) == Some(base[4].field)
  {
    var t := Merge(base, cs);
    MergedEntry(base, cs, 0);
    MergedEntry(base, cs, 1);
    MergedEntry(base, cs, 2);
    MergedEntry(base, cs, 3);
    MergedEntry(base, cs, 4);
    assert t[0] == base[0] && t[1] == base[1] && t[2] == base[2] && t[3] == base[3];
    assert t[4].synonyms == l;
    forall j | 0 <= j < 4
      ensures u !in t[j].synonyms
    {
      if j == 0 {
      } else if j == 1 {
      } else if j == 2 {
      } else {
        assert j == 3;
      }
    }
    ResolveFirst(t, u, 4);
  }

  /** The custom list holds days only. */
  lemma DiaLookup(f: Field)
    ensures Lookup(DIA, f) == if f == Days then Some(["dia"]) else None
  {
    assert DIA[1..] == [];
  }

  /** A word differing from each of five spellings is none of them. */
  lemma NotAmongFive(u: string, l: seq<string>)
    requires |l| == 5 && u != l[0] && u != l[1] && u != l[2] && u != l[3] && u != l[4]
    ensures u !in l
  {
  }

  /** No en-US list before the day list spells "dia". */
  lemma EnUsHasNoDia()
    ensures "dia" !in EN_US[0].synonyms && "dia" !in EN_US[1].synonyms
    ensures "dia" !in EN_US[2].synonyms && "dia" !in EN_US[3].synonyms
  {
    NotAmongFive("dia", EN_US[0].synonyms);
    NotAmongFive("dia", EN_US[1].synonyms);
    NotAmongFive("dia", EN_US[2].synonyms);
    NotAmongFive("dia", EN_US[3].synonyms);
  }

  /** The overrides replace the day list, so "dia" names days in the merged table. */
  lemma DiaResolves()
    ensures Resolve(Merge(EN_US, DIA), "dia") == Some(Days)
  {
    EnUsFields();
    assert FieldsOf(EN_US)[4] == Days && FieldsOf(EN_US)[0] == Milliseconds && FieldsOf(EN_US)[1] == Seconds;
    assert FieldsOf(EN_US)[2] == Minutes && FieldsOf(EN_US)[3] == Hours;
    DiaLookup(Milliseconds);
    DiaLookup(Seconds);
    DiaLookup(Minutes);
    DiaLookup(Hours);
    DiaLookup(Days);
    EnUsHasNoDia();
    FifthResolves(EN_US, DIA, "dia", ["dia"]);
  }

  lemma DiaTable(locales: map<string, TimeStrings>)
    requires "en-US" in locales && locales["en-US"] == EN_US
    ensures EffectiveTable(locales, DIA_OPTIONS) == Some(Merge(EN_US, DIA))
  {
  }

  /** `parseTime("1 dia", { customStrings: { days: ["dia"] } })` is one day. */
  lemma CustomDay(locales: map<string, TimeStrings>, now: real)
    requires "en-US" in locales && locales["en-US"] == EN_US
    ensures ParseSpec(locales, Str("1 dia"), DIA_OPTIONS, now) == Normal(Some(86_400_000.0))
  {
    DiaTable(locales);
    DiaResolves();
    CustomDayIn(locales, now, Merge(EN_US, DIA));
  }

  lemma CustomDayIn(locales: map<string, TimeStrings>, now: real, t: TimeStrings)
    requires EffectiveTable(locales, DIA_OPTIONS) == Some(t) && Resolve(t, "dia") == Some(Days)
    ensures ParseSpec(locales, Str("1 dia"), DIA_OPTIONS, now) == Normal(Some(86_400_000.0))
  {
    DiaText();
    OneDiaTerms();
    OneDiaSum(t);
    TextSum(locales, "1 dia", DIA_OPTIONS, now, [Term(1.0, Some("dia"))], t, 86_400_000.0);
  }

  lemma OneDiaSum(t: TimeStrings)
    requires Resolve(t, "dia") == Some(Days)
    ensures Accumulate([Term(1.0, Some("dia"))], t, 0.0) == Sum(86_400_000.0)
  {
    SingleTerm(1.0, "dia", t, Days);
  }

  // ------------------------------------------------- an unknown unit: "1x"

  lemma OneXTerms()
    ensures Terms(Tokens(ToLowerCase("1x"))) == [Term(1.0, Some("x"))]
  {
    OneXText();
    var s := "1x";
    assert s[0] == '1' && s[1] == 'x';
    MatchOfParts(s, 0, 0, 1, 1, 1, 2);
    assert s[0..1] == "1" && s[1..2] == "x";
    assert ScanFrom(s, 2) == [];
    OneValue();
  }

  lemma OneXText()
    ensures ToLowerCase("1x") == "1x"
    ensures StringToNumber("1x") == NaN
  {
    ToLowerCaseFixes("1x");
    LetterEndIsNaN("1x");
  }

  lemma XAbsent()
    ensures "x" !in EN_US[0].synonyms && "x" !in EN_US[1].synonyms
    ensures "x" !in EN_US[2].synonyms && "x" !in EN_US[3].synonyms
    ensures "x" !in EN_US[4].synonyms && "x" !in EN_US[5].synonyms
    ensures "x" !in EN_US[6].synonyms && "x" !in EN_US[7].synonyms
  {
  }

  lemma NoListHolds(t: TimeStrings, u: string)
    requires |t| == 8
    requires u !in t[0].synonyms && u !in t[1].synonyms && u !in t[2].synonyms && u !in t[3].synonyms
    requires u !in t[4].synonyms && u !in t[5].synonyms && u !in t[6].synonyms && u !in t[7].synonyms
    ensures Resolve(t, u).None?
  {
    ResolveMeaning(t, u);
  }

  /** `parseTime("1x")` is null, and throws under throwError: no list holds "x". */
  lemma UnknownUnitGate(locales: map<string, TimeStrings>, now: real)
    requires "en-US" in locales && locales["en-US"] == EN_US
    ensures ParseSpec(locales, Str("1x"), DEFAULTS, now) == Normal(None)
    ensures ParseSpec(locales, Str("1x"), DEFAULTS.(throwError := true), now) == Throw(UnknownUnit("x", "en-US"))
  {
    XAbsent();
    NoListHolds(EN_US, "x");
    UnknownUnitIn(locales, now, EN_US);
  }

  lemma UnknownUnitIn(locales: map<string, TimeStrings>, now: real, t: TimeStrings)
    requires EffectiveTable(locales, DEFAULTS) == Some(t) && Resolve(t, "x").None?
    ensures ParseSpec(locales, Str("1x"), DEFAULTS, now) == Normal(None)
    ensures ParseSpec(locales, Str("1x"), DEFAULTS.(throwError := true), now) == Throw(UnknownUnit("x", "en-US"))
  {
    OneXText();
    OneXTerms();
    OneXStuck(t);
    TextStuck(locales, "1x", DEFAULTS, now, [Term(1.0, Some("x"))], t, "x");
    TextStuck(locales, "1x", DEFAULTS.(throwError := true), now, [Term(1.0, Some("x"))], t, "x");
  }

  lemma OneXStuck(t: TimeStrings)
    requires Resolve(t, "x").None?
    ensures Accumulate([Term(1.0, Some("x"))], t, 0.0) == Stuck("x")
  {
    SingleStuck(Term(1.0, Some("x")), t);
  }

  // ---------------------------------------------- "100" and unknown names

  /** `parseTime("100")` is 100: a numeric string bypasses the units. */
  lemma PlainNumber(locales: map<string, TimeStrings>, now: real)
    requires "en-US" in locales
    ensures ParseSpec(locales, Str("100"), DEFAULTS, now) == Normal(Some(100.0))
  {
    DigitsToNumber("100");
    assert "100"[..2] == "10" && "10"[..1] == "1" && "1"[..0] == "";
    NumericPassthrough(locales, Str("100"), DEFAULTS, now);
  }

  /** `parseTime("1m", { locale: "test" })` throws with only the built-in tables registered. */
  lemma UnknownNameThrows(now: real)
    ensures ParseSpec(BUILTINS, Str("1m"), Options(None, false, Some("test"), false), now)
            == Throw(UnknownLocale("test"))
  {
    ReseededEmpty();
  }
}
