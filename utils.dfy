/**
 * Helpers of the library: `pluralize` (builds a synonym list with simple
 * English plurals), `errorOrNull` (the throw-or-null gate) and
 * `validateTimeStrings` (the checks a table passes before registration).
 */
module Utils {
  import opened Commons

  // ---------------------------------------------------------------- pluralize

  /**
   * The index at which `array.slice(0, k)` ends and `array.slice(k)` begins:
   * a negative `k` counts from the end, and both are clamped to [0, n].
   */
  function SliceIndex(k: int, n: nat): (c: nat)
    ensures c <= n
    ensures 0 <= k <= n ==> c == k
    ensures k >= n ==> c == n
    ensures k < 0 ==> n - c == (if -k < n then -k else n)
  {
    if k < 0 then (if n + k > 0 then n + k else 0)
    else if k < n then k
    else n
  }

  /** Each entry followed immediately by the same entry with "s" appended. */
  function Twins(xs: seq<string>): seq<string>
  {
    if xs == [] then [] else [xs[0], xs[0] + "s"] + Twins(xs[1..])
  }

  /** What `pluralize` returns once its starting index is resolved to `c`. */
  function Pluralized(a: seq<string>, c: nat): seq<string>
    requires c <= |a|
  {
    a[..c] + Twins(a[c..])
  }

  lemma {:induction false} TwinsAppend(xs: seq<string>, x: string)
    ensures Twins(xs + [x]) == Twins(xs) + [x, x + "s"]
  {
    if xs != [] {
      assert (xs + [x])[1..] == xs[1..] + [x];
      TwinsAppend(xs[1..], x);
    }
  }

  /** Every entry gets exactly one twin, right after it. */
  lemma {:induction false} TwinsAt(xs: seq<string>)
    ensures |Twins(xs)| == 2 * |xs|
    ensures forall i :: 0 <= i < |xs| ==>
              Twins(xs)[2 * i] == xs[i] && Twins(xs)[2 * i + 1] == xs[i] + "s"
  {
    if xs != [] {
      var rest := Twins(xs[1..]);
      TwinsAt(xs[1..]);
      assert Twins(xs) == [xs[0], xs[0] + "s"] + rest;
      forall i | 1 <= i < |xs|
        ensures Twins(xs)[2 * i] == xs[i] && Twins(xs)[2 * i + 1] == xs[i] + "s"
      {
        assert xs[1..][i - 1] == xs[i];
        assert Twins(xs)[2 * i] == rest[2 * (i - 1)];
        assert Twins(xs)[2 * i + 1] == rest[2 * (i - 1) + 1];
      }
    }
  }

  /** `pluralize(array, startingIndex)`: a `for` loop pushing each item and its plural. */
  method Pluralize(items: seq<string>, startingIndex: int) returns (result: seq<string>)
    ensures result == Pluralized(items, SliceIndex(startingIndex, |items|))
  {
    var c := SliceIndex(startingIndex, |items|);
    result := items[..c];
    var i := c;
    while i < |items|
      invariant c <= i <= |items|
      invariant result == items[..c] + Twins(items[c..i])
    {
      var item := items[i];
      TwinsAppend(items[c..i], item);
      assert items[c..i + 1] == items[c..i] + [item];
      result := result + [item];
      result := result + [item + "s"];
      i := i + 1;
    }
    assert items[c..i] == items[c..];
  }

  /**
   * The shape of `pluralize`'s output: the entries before `c` unchanged, then
   * every later entry followed by its "s" form, in order.
   */
  lemma PluralizedShape(a: seq<string>, c: nat)
    requires c <= |a|
    ensures |Pluralized(a, c)| == |a| + (|a| - c)
    ensures forall j :: 0 <= j < c ==> Pluralized(a, c)[j] == a[j]
    ensures forall i :: c <= i < |a| ==>
              Pluralized(a, c)[c + 2 * (i - c)] == a[i] &&
              Pluralized(a, c)[c + 2 * (i - c) + 1] == a[i] + "s"
  {
    var r := Pluralized(a, c);
    TwinsAt(a[c..]);
    forall i | c <= i < |a|
      ensures r[c + 2 * (i - c)] == a[i] && r[c + 2 * (i - c) + 1] == a[i] + "s"
    {
      assert a[c..][i - c] == a[i];
    }
  }

  /** For a non-negative starting index k the output has n + max(0, n - k) entries. */
  lemma PluralizeLength(a: seq<string>, k: int)
    requires k >= 0
    ensures |Pluralized(a, SliceIndex(k, |a|))| == |a| + (if |a| > k then |a| - k else 0)
  {
    PluralizedShape(a, SliceIndex(k, |a|));
  }

  /** A starting index at or past the end pluralizes nothing. */
  lemma PluralizeFromEnd(a: seq<string>, k: int)
    requires k >= |a|
    ensures Pluralized(a, SliceIndex(k, |a|)) == a
  {
    assert SliceIndex(k, |a|) == |a|;
    assert a[|a|..] == [] && Twins([]) == [];
    assert a[..|a|] == a;
  }

  /** Starting index 0 pluralizes every entry. */
  lemma PluralizeFromZero(a: seq<string>)
    ensures Pluralized(a, SliceIndex(0, |a|)) == Twins(a)
  {
    assert SliceIndex(0, |a|) == 0;
    assert a[..0] == [] && a[0..] == a;
  }

  /** The three calls of the library's own examples. */
  lemma PluralizeExamples()
    ensures Pluralized(["s", "sec", "second"], SliceIndex(1, 3)) == ["s", "sec", "secs", "second", "seconds"]
    ensures Pluralized(["s", "sec", "second"], SliceIndex(0, 3)) == ["s", "ss", "sec", "secs", "second", "seconds"]
    ensures Pluralized(["s", "sec", "second"], SliceIndex(2, 3)) == ["s", "sec", "second", "seconds"]
  {
    var a := ["s", "sec", "second"];
    assert a[..1] == ["s"] && a[1..] == ["sec", "second"];
    assert a[..0] == [] && a[0..] == a;
    assert a[..2] == ["s", "sec"] && a[2..] == ["second"];
    assert ["sec", "second"][1..] == ["second"];
    assert ["second"][1..] == [];
    assert "second" + "s" == "seconds";
    assert Twins(["second"]) == ["second", "seconds"] + Twins([]);
    assert "sec" + "s" == "secs";
    assert Twins(["sec", "second"]) == ["sec", "secs"] + Twins(["second"]);
    assert a[1..] == ["sec", "second"];
    assert "s" + "s" == "ss";
    assert Twins(a) == ["s", "ss"] + Twins(["sec", "second"]);
  }

  // -------------------------------------------------------------- errorOrNull

  /** `errorOrNull(error, shouldThrow)`: throw the error, or return null. */
  function ErrorOrNull<T>(error: Error, shouldThrow: bool): (r: Completion<Option<T>>)
    ensures r.Throw? <==> shouldThrow
    ensures r.Throw? ==> r.error == error
    ensures r.Normal? ==> r.value == None
  {
    if shouldThrow then Throw(error) else Normal(None)
  }

  // ------------------------------------------------------ validateTimeStrings

  /**
   * What a JavaScript caller may store under a key: a falsy non-array
   * (undefined, null, false, 0, ""), any other non-array, or an array of
   * strings (arrays are truthy, even empty ones).
   */
  datatype FieldValue = Falsy | NonArray | Array(items: seq<string>)

  datatype RawEntry = RawEntry(key: Field, value: FieldValue)

  /** An object handed to registerLocale, as its own keys in property order. */
  type RawTimeStrings = seq<RawEntry>

  /** `strings[key]`: the value stored under the key, if the key is there. */
  function Get(t: RawTimeStrings, f: Field): Option<FieldValue>
  {
    if t == [] then None else if t[0].key == f then Some(t[0].value) else Get(t[1..], f)
  }

  /** `!!strings[key]`. */
  predicate IsTruthy(v: Option<FieldValue>)
  {
    v.Some? && !v.value.Falsy?
  }

  /** The keys validateTimeStrings insists on; `milliseconds` is not among them. */
  const REQUIRED: seq<Field> := [Seconds, Minutes, Hours, Days, Weeks, Months, Years]

  ghost predicate RankOrdered(fs: seq<Field>)
  {
    forall i, j :: 0 <= i < j < |fs| ==> Rank(fs[i]) < Rank(fs[j])
  }

  /** `keys.filter((key) => !strings[key])`. */
  function MissingAmong(keys: seq<Field>, t: RawTimeStrings): (r: seq<Field>)
    requires RankOrdered(keys)
    ensures forall f :: f in r <==> f in keys && !IsTruthy(Get(t, f))
    ensures RankOrdered(r)
    ensures forall j :: 0 <= j < |r| ==> r[j] in keys
  {
    if keys == [] then []
    else
      var rest := MissingAmong(keys[1..], t);
      if IsTruthy(Get(t, keys[0])) then rest
      else
        forall j | 0 <= j < |rest|
          ensures Rank(keys[0]) < Rank(rest[j])
        {
          var i :| 0 <= i < |keys[1..]| && keys[1..][i] == rest[j];
          assert keys[i + 1] == rest[j];
        }
        ConsOrdered(keys[0], rest);
        [keys[0]] + rest
  }

  lemma ConsOrdered(f: Field, rest: seq<Field>)
    requires RankOrdered(rest)
    requires forall j :: 0 <= j < |rest| ==> Rank(f) < Rank(rest[j])
    ensures RankOrdered([f] + rest)
  {
    var r := [f] + rest;
    forall i, j | 0 <= i < j < |r|
      ensures Rank(r[i]) < Rank(r[j])
    {
      assert r[j] == rest[j - 1];
      if i > 0 {
        assert r[i] == rest[i - 1];
      }
    }
  }

  /** Every required key that is absent or falsy, in declared order. */
  function MissingRequired(t: RawTimeStrings): (r: seq<Field>)
    ensures forall f :: f in r <==> f in REQUIRED && !IsTruthy(Get(t, f))
    ensures RankOrdered(r)
  {
    RequiredInOrder();
    MissingAmong(REQUIRED, t)
  }

  lemma RequiredInOrder()
    ensures RankOrdered(REQUIRED)
  {
    forall i, j | 0 <= i < j < |REQUIRED|
      ensures Rank(REQUIRED[i]) < Rank(REQUIRED[j])
    {
      RequiredRank(i);
      RequiredRank(j);
    }
  }

  /** The required keys are the fields after milliseconds, in declaration order. */
  lemma RequiredRank(k: nat)
    requires k < |REQUIRED|
    ensures Rank(REQUIRED[k]) == k + 1
  {
    if k == 0 {
    } else if k == 1 {
    } else if k == 2 {
    } else if k == 3 {
    } else if k == 4 {
    } else if k == 5 {
    } else {
    }
  }

  predicate IsNonEmptyArray(v: FieldValue)
  {
    v.Array? && |v.items| > 0
  }

  /** The first entry, in property order, that is not a non-empty array. */
  function FirstBadEntry(t: RawTimeStrings): (r: Option<nat>)
    ensures r.None? <==> forall k :: 0 <= k < |t| ==> IsNonEmptyArray(t[k].value)
    ensures r.Some? ==> r.value < |t| && !IsNonEmptyArray(t[r.value].value)
    ensures r.Some? ==> forall k :: 0 <= k < r.value ==> IsNonEmptyArray(t[k].value)
  {
    if t == [] then None
    else if !IsNonEmptyArray(t[0].value) then Some(0)
    else
      match FirstBadEntry(t[1..])
      case None => None
      case Some(k) => Some(k + 1)
  }

  /** The error thrown for an entry that is not a non-empty array. */
  function EntryError(e: RawEntry): Error
  {
    if !e.value.Array? then NotAnArray(e.key) else EmptyArray(e.key)
  }

  /** The error validateTimeStrings throws on `t`, if any. */
  function ValidationError(t: RawTimeStrings): Option<Error>
  {
    var missing := MissingRequired(t);
    if missing != [] then Some(MissingKeys(missing))
    else
      match FirstBadEntry(t)
      case None => None
      case Some(k) => Some(EntryError(t[k]))
  }

  /** A table that validates: every required key present, every key a non-empty array. */
  ghost predicate Passes(t: RawTimeStrings)
  {
    && (forall f :: f in REQUIRED ==> IsTruthy(Get(t, f)))
    && (forall k :: 0 <= k < |t| ==> IsNonEmptyArray(t[k].value))
  }

  /** `validateTimeStrings(strings)`: the presence filter, then a loop over the entries. */
  method ValidateTimeStrings(strings: RawTimeStrings) returns (r: Completion<()>)
    ensures r.Normal? <==> ValidationError(strings).None?
    ensures r.Throw? ==> ValidationError(strings) == Some(r.error)
  {
    var missingKeys := MissingRequired(strings);
    if |missingKeys| > 0 {
      return Throw(MissingKeys(missingKeys));
    }
    var i := 0;
    while i < |strings|
      invariant 0 <= i <= |strings|
      invariant forall k :: 0 <= k < i ==> IsNonEmptyArray(strings[k].value)
    {
      var entry := strings[i];
      if !entry.value.Array? {
        return Throw(NotAnArray(entry.key));
      }
      if |entry.value.items| == 0 {
        return Throw(EmptyArray(entry.key));
      }
      i := i + 1;
    }
    return Normal(());
  }

  /** Validation fails exactly on the tables that do not pass. */
  lemma ValidationSucceedsIff(t: RawTimeStrings)
    ensures ValidationError(t).None? <==> Passes(t)
  {
    if MissingRequired(t) != [] {
      var f := MissingRequired(t)[0];
      assert f in REQUIRED && !IsTruthy(Get(t, f));
    }
  }

  /**
   * The missing-keys error names every absent or falsy required key, and
   * fires before any entry is inspected; an absent `milliseconds` never
   * raises it.
   */
  lemma MissingKeysReported(t: RawTimeStrings)
    ensures Milliseconds !in MissingRequired(t)
    ensures MissingRequired(t) != [] ==> ValidationError(t) == Some(MissingKeys(MissingRequired(t)))
    ensures MissingRequired(t) == [] && FirstBadEntry(t).Some? ==>
              var k := FirstBadEntry(t).value;
              ValidationError(t) == Some(if t[k].value.Array? then EmptyArray(t[k].key) else NotAnArray(t[k].key))
  {
  }

  /** Once validated, every value is an array: the typed view of the table. */
  function Typed(t: RawTimeStrings): (r: TimeStrings)
    requires forall k :: 0 <= k < |t| ==> t[k].value.Array?
    ensures |r| == |t|
    ensures forall k :: 0 <= k < |t| ==> r[k] == Entry(t[k].key, t[k].value.items)
  {
    if t == [] then [] else [Entry(t[0].key, t[0].value.items)] + Typed(t[1..])
  }

  /** A registered table: every required field present, every field non-empty. */
  ghost predicate WellFormed(t: TimeStrings)
  {
    && (forall f :: f in REQUIRED ==> f in FieldsOf(t))
    && (forall k :: 0 <= k < |t| ==> |t[k].synonyms| > 0)
  }

  lemma {:induction false} GetTyped(t: RawTimeStrings)
    requires forall k :: 0 <= k < |t| ==> t[k].value.Array?
    ensures forall f :: Get(t, f).Some? <==> f in FieldsOf(Typed(t))
  {
    if t != [] {
      GetTyped(t[1..]);
      assert Typed(t)[1..] == Typed(t[1..]);
      assert FieldsOf(Typed(t)) == [t[0].key] + FieldsOf(Typed(t[1..]));
    }
  }

  /** A table that validates keeps its keys, order and spellings and is well formed. */
  lemma PassesWellFormed(t: RawTimeStrings)
    requires ValidationError(t).None?
    ensures forall k :: 0 <= k < |t| ==> t[k].value.Array?
    ensures WellFormed(Typed(t))
  {
    ValidationSucceedsIff(t);
    GetTyped(t);
  }

  /** A typed table handed to validation as an object: every value is its array. */
  function Raw(t: TimeStrings): (r: RawTimeStrings)
    ensures |r| == |t|
    ensures forall k :: 0 <= k < |t| ==> r[k].key == t[k].field && r[k].value == Array(t[k].synonyms)
    ensures Typed(r) == t
  {
    seq(|t|, k requires 0 <= k < |t| => RawEntry(t[k].field, Array(t[k].synonyms)))
  }

  /** In a table of arrays, whatever a key holds is an array. */
  lemma {:induction false} GetArray(t: RawTimeStrings, f: Field)
    requires forall k :: 0 <= k < |t| ==> t[k].value.Array?
    ensures Get(t, f).Some? ==> Get(t, f).value.Array?
  {
    if t != [] && t[0].key != f {
      GetArray(t[1..], f);
    }
  }

  /** validateTimeStrings accepts a typed table exactly when it is well formed. */
  lemma WellFormedIffValidates(t: TimeStrings)
    ensures ValidationError(Raw(t)).None? <==> WellFormed(t)
  {
    var r := Raw(t);
    ValidationSucceedsIff(r);
    if ValidationError(r).None? {
      PassesWellFormed(r);
    }
    if WellFormed(t) {
      GetTyped(r);
      forall f | f in REQUIRED
        ensures IsTruthy(Get(r, f))
      {
        GetArray(r, f);
      }
      assert Passes(r);
    }
  }
}
