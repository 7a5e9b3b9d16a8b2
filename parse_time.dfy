/**
 * parseTime: pick the locale's unit table (merging per-call overrides into
 * it), pass numeric input straight through, and otherwise scan the
 * lower-cased text and add up, token by token, the quantity times the
 * millisecond value of the first field whose spellings contain the unit.
 *
 * `ParseSpec` is the whole computation as one function; the method
 * `ParseTime` runs the source's loop and is proved equal to it.
 */
module ParseTime {
  import opened Commons
  import opened Numbers
  import opened Tokenizer
  import opened Utils
  import opened Locales

  /** The options object; an absent option reads as None or false. */
  datatype Options = Options(
    customStrings: Option<TimeStrings>,
    fromNow: bool,
    locale: Option<string>,
    throwError: bool)

  /** `timeString`: a number or a string. */
  datatype Input = Num(n: Number) | Str(s: string)

  /** `options?.locale ?? 'en-US'`. */
  function LocaleName(o: Options): string
  {
    match o.locale
    case Some(l) => l
    case None => "en-US"
  }

  // ------------------------------------------------------ customStrings merge

  /** One entry of the base table, with its list replaced when the overrides hold its key. */
  function Override(e: Entry, cs: TimeStrings): (r: Entry)
    ensures r.field == e.field
    ensures Lookup(cs, e.field).Some? ==> r.synonyms == Lookup(cs, e.field).value
    ensures Lookup(cs, e.field).None? ==> r == e
  {
    match Lookup(cs, e.field)
    case Some(v) => Entry(e.field, v)
    case None => e
  }

  function Overridden(base: TimeStrings, cs: TimeStrings): (r: TimeStrings)
    ensures |r| == |base|
    ensures forall k :: 0 <= k < |r| ==> r[k] == Override(base[k], cs)
  {
    if base == [] then [] else [Override(base[0], cs)] + Overridden(base[1..], cs)
  }

  /** The override entries whose key the base table does not have, in their own order. */
  function Added(cs: TimeStrings, base: TimeStrings): (r: TimeStrings)
    ensures forall k :: 0 <= k < |r| ==> r[k] in cs && r[k].field !in FieldsOf(base)
    ensures forall e :: e in cs && e.field !in FieldsOf(base) ==> e in r
  {
    if cs == [] then []
    else if cs[0].field in FieldsOf(base) then Added(cs[1..], base)
    else [cs[0]] + Added(cs[1..], base)
  }

  /**
   * Added keeps the order of the overrides: the entries added from two
   * consecutive runs of overrides are those of the first run, then those
   * of the second.
   */
  lemma {:induction false} AddedAppend(a: TimeStrings, b: TimeStrings, base: TimeStrings)
    ensures Added(a + b, base) == Added(a, base) + Added(b, base)
  {
    if a == [] {
      assert a + b == b;
    } else {
      var rest := a[1..];
      assert (a + b)[0] == a[0];
      assert (a + b)[1..] == rest + b;
      AddedAppend(rest, b, base);
      var x, y := Added(rest, base), Added(b, base);
      if a[0].field !in FieldsOf(base) {
        assert [a[0]] + (x + y) == ([a[0]] + x) + y;
      }
    }
  }

  /** When the base has none of the override keys, every override entry is added, in order. */
  lemma {:induction false} AddedDisjoint(cs: TimeStrings, base: TimeStrings)
    requires forall k :: 0 <= k < |cs| ==> cs[k].field !in FieldsOf(base)
    ensures Added(cs, base) == cs
  {
    if cs != [] {
      AddedDisjoint(cs[1..], base);
    }
  }

  /** A single override entry is added exactly when its key is new. */
  lemma AddedSingle(e: Entry, base: TimeStrings)
    ensures Added([e], base) == if e.field in FieldsOf(base) then [] else [e]
  {
    assert [e][1..] == [];
  }

  /**
   * `{ ...base, ...cs }`: the base keys keep their places and take the
   * override's value where it has one; the override's other keys follow.
   */
  function Merge(base: TimeStrings, cs: TimeStrings): TimeStrings
  {
    Overridden(base, cs) + Added(cs, base)
  }

  /** The first entry with a field decides a lookup in a concatenation. */
  lemma {:induction false} LookupAppend(a: TimeStrings, b: TimeStrings, f: Field)
    ensures Lookup(a + b, f) == if f in FieldsOf(a) then Lookup(a, f) else Lookup(b, f)
  {
    if a == [] {
      assert a + b == b;
    } else {
      assert (a + b)[0] == a[0];
      assert FieldsOf(a) == [a[0].field] + FieldsOf(a[1..]);
      if a[0].field != f {
        assert (a + b)[1..] == a[1..] + b;
        LookupAppend(a[1..], b, f);
      }
    }
  }

  lemma {:induction false} OverriddenLookup(base: TimeStrings, cs: TimeStrings, f: Field)
    requires f in FieldsOf(base)
    ensures Lookup(Overridden(base, cs), f) ==
              if f in FieldsOf(cs) then Lookup(cs, f) else Lookup(base, f)
  {
    assert FieldsOf(base) == [base[0].field] + FieldsOf(base[1..]);
    if base[0].field != f {
      assert Overridden(base, cs)[1..] == Overridden(base[1..], cs);
      OverriddenLookup(base[1..], cs, f);
    }
  }

  lemma {:induction false} AddedLookup(cs: TimeStrings, base: TimeStrings, f: Field)
    requires f !in FieldsOf(base)
    ensures Lookup(Added(cs, base), f) == Lookup(cs, f)
  {
    if cs != [] {
      AddedLookup(cs[1..], base, f);
      if cs[0].field !in FieldsOf(base) {
        LookupCons(cs[0], Added(cs[1..], base), f);
      }
    }
  }

  lemma LookupCons(e: Entry, rest: TimeStrings, f: Field)
    ensures Lookup([e] + rest, f) == if e.field == f then Some(e.synonyms) else Lookup(rest, f)
  {
    assert ([e] + rest)[1..] == rest;
  }

  lemma {:induction false} OverriddenFields(base: TimeStrings, cs: TimeStrings)
    ensures FieldsOf(Overridden(base, cs)) == FieldsOf(base)
  {
    var r := Overridden(base, cs);
    assert forall k :: 0 <= k < |r| ==> FieldsOf(r)[k] == FieldsOf(base)[k];
  }

  /**
   * The merge answers every field as the override does where it has the
   * field, and as the base does elsewhere.
   */
  lemma MergeLookup(base: TimeStrings, cs: TimeStrings, f: Field)
    ensures Lookup(Merge(base, cs), f) == if f in FieldsOf(cs) then Lookup(cs, f) else Lookup(base, f)
  {
    var o := Overridden(base, cs);
    var a := Added(cs, base);
    LookupAppend(o, a, f);
    OverriddenFields(base, cs);
    if f in FieldsOf(base) {
      OverriddenLookup(base, cs, f);
    } else {
      AddedLookup(cs, base, f);
    }
  }

  lemma FieldsOfAppend(a: TimeStrings, b: TimeStrings)
    ensures FieldsOf(a + b) == FieldsOf(a) + FieldsOf(b)
  {
    var l, r := FieldsOf(a + b), FieldsOf(a) + FieldsOf(b);
    assert |l| == |r|;
    forall k | 0 <= k < |l|
      ensures l[k] == r[k]
    {
      if k < |a| {
        assert (a + b)[k] == a[k];
      } else {
        assert (a + b)[k] == b[k - |a|];
      }
    }
  }

  /**
   * The merge keeps the base's keys in their order, in front; every key
   * after them is an override entry whose key the base lacks.
   */
  lemma MergeKeyOrder(base: TimeStrings, cs: TimeStrings)
    ensures |Merge(base, cs)| >= |base|
    ensures FieldsOf(Merge(base, cs))[..|base|] == FieldsOf(base)
    ensures forall k :: |base| <= k < |Merge(base, cs)| ==>
              Merge(base, cs)[k] in cs && Merge(base, cs)[k].field !in FieldsOf(base)
  {
    var o := Overridden(base, cs);
    var a := Added(cs, base);
    var m := o + a;
    FieldsOfAppend(o, a);
    OverriddenFields(base, cs);
    assert FieldsOf(m)[..|o|] == FieldsOf(o);
    forall k | |base| <= k < |m|
      ensures m[k] in cs && m[k].field !in FieldsOf(base)
    {
      assert m[k] == a[k - |o|];
    }
  }

  /** Spreading overrides over a missing table (`{ ...undefined, ...cs }`) copies the overrides. */
  lemma MergeIntoNothing(cs: TimeStrings)
    ensures Merge([], cs) == cs
  {
    AddedAll(cs);
  }

  lemma {:induction false} AddedAll(cs: TimeStrings)
    ensures Added(cs, []) == cs
  {
    if cs != [] {
      AddedAll(cs[1..]);
    }
  }

  // --------------------------------------------------------- locale selection

  /**
   * The table parseTime works with: the registered table for the locale
   * name, with the overrides merged in when there are any. Only an
   * unregistered name without overrides leaves no table.
   */
  function EffectiveTable(locales: map<string, TimeStrings>, o: Options): (r: Option<TimeStrings>)
    ensures r.None? <==> LocaleName(o) !in locales && o.customStrings.None?
  {
    var name := LocaleName(o);
    var registered := if name in locales then Some(locales[name]) else None;
    match o.customStrings
    case Some(cs) => Some(Merge(if registered.Some? then registered.value else [], cs))
    case None => registered
  }

  // ---------------------------------------------------------- unit resolution

  /** `Object.keys(table).find(key => table[key].includes(unit))`, as the index of that key. */
  function FirstKeyWith(t: TimeStrings, unit: string): (r: Option<nat>)
    ensures r.None? <==> forall k :: 0 <= k < |t| ==> unit !in t[k].synonyms
    ensures r.Some? ==> r.value < |t| && unit in t[r.value].synonyms
    ensures r.Some? ==> forall j :: 0 <= j < r.value ==> unit !in t[j].synonyms
  {
    if t == [] then None
    else if unit in t[0].synonyms then Some(0)
    else match FirstKeyWith(t[1..], unit)
      case None => None
      case Some(k) => Some(k + 1)
  }

  /** The field a unit resolves to: the first key, in table order, whose list contains it. */
  function Resolve(t: TimeStrings, unit: string): Option<Field>
  {
    match FirstKeyWith(t, unit)
    case None => None
    case Some(k) => Some(t[k].field)
  }

  /** Resolution fails exactly when no list holds the unit, and otherwise picks the earliest key that does. */
  lemma ResolveMeaning(t: TimeStrings, unit: string)
    ensures Resolve(t, unit).None? <==> forall k :: 0 <= k < |t| ==> unit !in t[k].synonyms
    ensures Resolve(t, unit).Some? ==>
              exists k :: 0 <= k < |t| && t[k].field == Resolve(t, unit).value && unit in t[k].synonyms &&
                (forall j :: 0 <= j < k ==> unit !in t[j].synonyms)
  {
    var r := FirstKeyWith(t, unit);
    if r.Some? {
      var k := r.value;
      assert t[k].field == Resolve(t, unit).value && unit in t[k].synonyms;
    }
  }

  // ---------------------------------------------------------- lowercasing

  /** `toLowerCase` on one character (A to Z only). */
  function LowerChar(c: char): (d: char)
    ensures 'A' <= c <= 'Z' ==> d as int == c as int + 32
    ensures !('A' <= c <= 'Z') ==> d == c
  {
    if 'A' <= c <= 'Z' then (c as int + 32) as char else c
  }

  function ToLowerCase(s: string): (r: string)
    ensures |r| == |s|
    ensures forall k :: 0 <= k < |s| ==> r[k] == LowerChar(s[k])
    ensures forall k :: 0 <= k < |r| ==> !('A' <= r[k] <= 'Z')
  {
    seq(|s|, k requires 0 <= k < |s| => LowerChar(s[k]))
  }

  /** Text without upper-case letters is its own lower case. */
  lemma ToLowerCaseFixes(s: string)
    requires forall k :: 0 <= k < |s| ==> !('A' <= s[k] <= 'Z')
    ensures ToLowerCase(s) == s
  {
  }

  /** Lowercasing twice is lowercasing once. */
  lemma ToLowerCaseIdempotent(s: string)
    ensures ToLowerCase(ToLowerCase(s)) == ToLowerCase(s)
  {
  }

  /** Conversely, the earliest list holding the unit decides its field. */
  lemma ResolveFirst(t: TimeStrings, unit: string, k: nat)
    requires k < |t| && unit in t[k].synonyms
    requires forall j :: 0 <= j < k ==> unit !in t[j].synonyms
    ensures Resolve(t, unit) == Some(t[k].field)
  {
    var r := FirstKeyWith(t, unit);
    assert r.Some?;
    assert !(r.value < k) && !(k < r.value);
  }

  // ------------------------------------------------------------- accumulation

  /** A quantity group always reads as a finite number. */
  lemma QuantityIsFinite(q: string)
    requires IsQuantity(q)
    ensures StringToNumber(q).Finite?
  {
    var b := if q[0] == '-' then q[1..] else q;
    assert q[0] != '+';
    assert IsDecimal(b) by {
      assert b[|b| - 1] != '.';
    }
    assert b != "Infinity" by {
      assert IsDigit(b[|b| - 1]);
    }
  }

  /** `Number(quantity)`. */
  function QuantityValue(q: string): (v: real)
    requires IsQuantity(q)
    ensures StringToNumber(q) == Finite(v)
  {
    QuantityIsFinite(q);
    StringToNumber(q).value
  }

  predicate Quantities(ts: seq<Token>)
  {
    forall k :: 0 <= k < |ts| ==> IsQuantity(ts[k].quantity)
  }

  /** What the loop body reads from one match: `Number(quantity)` and the unit group. */
  datatype Term = Term(quantity: real, unit: Option<string>)

  function Terms(ts: seq<Token>): (r: seq<Term>)
    requires Quantities(ts)
    ensures |r| == |ts|
    ensures forall k :: 0 <= k < |ts| ==> r[k] == Term(QuantityValue(ts[k].quantity), ts[k].unit)
  {
    seq(|ts|, k requires 0 <= k < |ts| => Term(QuantityValue(ts[k].quantity), ts[k].unit))
  }

  /** Where the loop stands: a running total, or the unit that stopped it. */
  datatype Outcome = Sum(total: real) | Stuck(unit: string)

  /** A term has a value: it has no unit, or its unit resolves. */
  predicate Resolves(x: Term, t: TimeStrings)
  {
    x.unit.None? || Resolve(t, x.unit.value).Some?
  }

  predicate AllResolve(xs: seq<Term>, t: TimeStrings)
  {
    forall k :: 0 <= k < |xs| ==> Resolves(xs[k], t)
  }

  /**
   * What one match adds to the total: `Number(quantity) * BASE_VALUES[field]`
   * (the bare quantity without a unit), plus the time offset.
   */
  function Amount(x: Term, t: TimeStrings, offset: real): real
    requires Resolves(x, t)
  {
    match x.unit
    case None => x.quantity + offset
    case Some(u) => Scaled(x.quantity, Resolve(t, u).value) + offset
  }

  /** The offset enters an amount as a plain addend. */
  lemma AmountOffset(x: Term, t: TimeStrings, offset: real)
    requires Resolves(x, t)
    ensures Amount(x, t, offset) == Amount(x, t, 0.0) + offset
  {
  }

  /** One pass of the loop body: the amount, or the unit nothing resolves. */
  function Contribution(x: Term, t: TimeStrings, offset: real): (r: Outcome)
    ensures r.Sum? <==> Resolves(x, t)
    ensures r.Sum? ==> r.total == Amount(x, t, offset)
    ensures r.Stuck? ==> x.unit == Some(r.unit)
  {
    if Resolves(x, t) then Sum(Amount(x, t, offset)) else Stuck(x.unit.value)
  }

  /** The loop over the matches, step by step from the left, stopping at the first unknown unit. */
  function Accumulate(xs: seq<Term>, t: TimeStrings, offset: real): Outcome
    decreases |xs|
  {
    if xs == [] then Sum(0.0)
    else
      match Accumulate(xs[..|xs| - 1], t, offset)
      case Stuck(u) => Stuck(u)
      case Sum(total) =>
        match Contribution(xs[|xs| - 1], t, offset)
        case Stuck(u) => Stuck(u)
        case Sum(c) => Sum(total + c)
  }

  /** The reference sum: every amount, added up. */
  function Total(xs: seq<Term>, t: TimeStrings, offset: real): real
    requires AllResolve(xs, t)
  {
    if xs == [] then 0.0 else Amount(xs[0], t, offset) + Total(xs[1..], t, offset)
  }

  lemma {:induction false} TotalAppend(a: seq<Term>, b: seq<Term>, t: TimeStrings, offset: real)
    requires AllResolve(a, t) && AllResolve(b, t)
    ensures AllResolve(a + b, t)
    ensures Total(a + b, t, offset) == Total(a, t, offset) + Total(b, t, offset)
  {
    if a == [] {
      assert a + b == b;
    } else {
      assert (a + b)[0] == a[0];
      assert (a + b)[1..] == a[1..] + b;
      TotalAppend(a[1..], b, t, offset);
    }
  }

  /** The reference sum, split before the last term. */
  lemma TotalSnoc(xs: seq<Term>, t: TimeStrings, offset: real)
    requires AllResolve(xs, t) && xs != []
    ensures AllResolve(xs[..|xs| - 1], t)
    ensures Total(xs, t, offset) == Total(xs[..|xs| - 1], t, offset) + Amount(xs[|xs| - 1], t, offset)
  {
    var init, last := xs[..|xs| - 1], xs[|xs| - 1];
    assert init + [last] == xs;
    assert Total([last], t, offset) == Amount(last, t, offset) + Total([], t, offset);
    TotalAppend(init, [last], t, offset);
  }

  /** When every unit resolves, the loop's result is the sum of the amounts. */
  lemma {:induction false} AccumulateAllResolve(xs: seq<Term>, t: TimeStrings, offset: real)
    requires AllResolve(xs, t)
    ensures Accumulate(xs, t, offset) == Sum(Total(xs, t, offset))
    decreases |xs|
  {
    if xs != [] {
      TotalSnoc(xs, t, offset);
      AccumulateAllResolve(xs[..|xs| - 1], t, offset);
    }
  }

  /** The loop one term further on. */
  lemma AccumulateNext(xs: seq<Term>, i: nat, t: TimeStrings, offset: real, total: real)
    requires i < |xs|
    requires Accumulate(xs[..i], t, offset) == Sum(total)
    ensures Accumulate(xs[..i + 1], t, offset) ==
              if Resolves(xs[i], t) then Sum(total + Amount(xs[i], t, offset)) else Stuck(xs[i].unit.value)
  {
    assert xs[..i + 1][..i] == xs[..i];
  }

  /** Once a prefix is stuck, every extension is stuck on the same unit. */
  lemma {:induction false} StuckPersists(xs: seq<Term>, n: nat, t: TimeStrings, offset: real)
    requires n <= |xs|
    requires Accumulate(xs[..n], t, offset).Stuck?
    ensures Accumulate(xs, t, offset) == Accumulate(xs[..n], t, offset)
    decreases |xs|
  {
    if n < |xs| {
      var init := xs[..|xs| - 1];
      assert init[..n] == xs[..n];
      StuckPersists(init, n, t, offset);
    } else {
      assert xs[..n] == xs;
    }
  }

  /** A term whose unit no list holds stops the loop on that unit, if every earlier term resolved. */
  lemma FirstUnknownStops(xs: seq<Term>, k: nat, t: TimeStrings, offset: real)
    requires k < |xs|
    requires AllResolve(xs[..k], t)
    requires !Resolves(xs[k], t)
    ensures Accumulate(xs, t, offset) == Stuck(xs[k].unit.value)
  {
    var pre := xs[..k];
    assert xs[..k + 1][..k] == pre;
    AccumulateAllResolve(pre, t, offset);
    StuckPersists(xs, k + 1, t, offset);
  }

  /** Where all units resolve, swapping two runs of matches does not change the total. */
  lemma AccumulateCommutes(a: seq<Term>, b: seq<Term>, t: TimeStrings, offset: real)
    requires AllResolve(a, t) && AllResolve(b, t)
    ensures Accumulate(a + b, t, offset) == Accumulate(b + a, t, offset)
  {
    TotalAppend(a, b, t, offset);
    TotalAppend(b, a, t, offset);
    AccumulateAllResolve(a + b, t, offset);
    AccumulateAllResolve(b + a, t, offset);
  }

  /** Reordering the matches keeps every unit resolving. */
  lemma ResolvesPermuted(a: seq<Term>, b: seq<Term>, t: TimeStrings)
    requires multiset(a) == multiset(b) && AllResolve(a, t)
    ensures AllResolve(b, t)
  {
    forall k | 0 <= k < |b|
      ensures Resolves(b[k], t)
    {
      assert b[k] in multiset(a);
      var j :| 0 <= j < |a| && a[j] == b[k];
    }
  }

  /** The reference sum with one term taken out. */
  lemma TotalRemove(b: seq<Term>, i: nat, t: TimeStrings, offset: real)
    requires AllResolve(b, t) && i < |b|
    ensures AllResolve(b[..i] + b[i + 1..], t)
    ensures Total(b, t, offset) == Amount(b[i], t, offset) + Total(b[..i] + b[i + 1..], t, offset)
  {
    var pre, post := b[..i], b[i + 1..];
    assert AllResolve(pre, t) && AllResolve(post, t);
    assert b == pre + ([b[i]] + post);
    assert ([b[i]] + post)[1..] == post;
    TotalAppend(pre, [b[i]] + post, t, offset);
    TotalAppend(pre, post, t, offset);
  }

  /** Taking the same term out of two permutations leaves two permutations. */
  lemma MultisetRemove(a: seq<Term>, b: seq<Term>, i: nat)
    requires multiset(a) == multiset(b) && a != [] && i < |b| && b[i] == a[0]
    ensures multiset(a[1..]) == multiset(b[..i] + b[i + 1..])
  {
    assert a == [a[0]] + a[1..];
    assert multiset(a) == multiset([a[0]]) + multiset(a[1..]);
    var pre, post := b[..i], b[i + 1..];
    assert b == pre + [b[i]] + post;
    assert multiset(b) == multiset(pre) + multiset([b[i]]) + multiset(post);
    assert multiset(pre + post) == multiset(pre) + multiset(post);
    forall x
      ensures multiset(a[1..])[x] == multiset(pre + post)[x]
    {
      assert multiset(a)[x] == multiset([a[0]])[x] + multiset(a[1..])[x];
      assert multiset(b)[x] == multiset(pre)[x] + multiset([b[i]])[x] + multiset(post)[x];
    }
  }

  /** The reference sum does not depend on the order of the terms. */
  lemma {:induction false} TotalPermuted(a: seq<Term>, b: seq<Term>, t: TimeStrings, offset: real)
    requires multiset(a) == multiset(b) && AllResolve(a, t)
    ensures AllResolve(b, t)
    ensures Total(a, t, offset) == Total(b, t, offset)
    decreases |a|
  {
    ResolvesPermuted(a, b, t);
    if a != [] {
      assert a[0] in multiset(b);
      var i :| 0 <= i < |b| && b[i] == a[0];
      MultisetRemove(a, b, i);
      assert AllResolve(a[1..], t);
      TotalPermuted(a[1..], b[..i] + b[i + 1..], t, offset);
      TotalRemove(b, i, t, offset);
    }
  }

  /** Where all units resolve, any reordering of the matches gives the same total. */
  lemma AccumulatePermuted(a: seq<Term>, b: seq<Term>, t: TimeStrings, offset: real)
    requires multiset(a) == multiset(b) && AllResolve(a, t)
    ensures Accumulate(a, t, offset) == Accumulate(b, t, offset)
  {
    TotalPermuted(a, b, t, offset);
    AccumulateAllResolve(a, t, offset);
    AccumulateAllResolve(b, t, offset);
  }

  /** `n` copies of `x` added up. */
  function Repeated(n: nat, x: real): real
  {
    if n == 0 then 0.0 else x + Repeated(n - 1, x)
  }

  lemma {:induction false} RepeatedIsProduct(n: nat, x: real)
    ensures Repeated(n, x) == n as real * x
  {
    if n > 0 {
      RepeatedIsProduct(n - 1, x);
    }
  }

  /** The offset (`Date.now()` under fromNow) is added once per match. */
  lemma {:induction false} TotalOffset(xs: seq<Term>, t: TimeStrings, offset: real)
    requires AllResolve(xs, t)
    ensures Total(xs, t, offset) == Total(xs, t, 0.0) + Repeated(|xs|, offset)
  {
    if xs != [] {
      assert AllResolve(xs[1..], t);
      TotalOffset(xs[1..], t, offset);
      AmountOffset(xs[0], t, offset);
    }
  }

  /** The offset added once per match is the number of matches times the offset. */
  lemma TotalPerMatch(xs: seq<Term>, t: TimeStrings, offset: real)
    requires AllResolve(xs, t)
    ensures Total(xs, t, offset) == Total(xs, t, 0.0) + |xs| as real * offset
  {
    TotalOffset(xs, t, offset);
    RepeatedIsProduct(|xs|, offset);
  }

  // --------------------------------------------------------------- parseTime

  /** `Number(timeString)`. */
  function ToNumber(input: Input): Number
  {
    match input
    case Num(n) => n
    case Str(s) => StringToNumber(s)
  }

  /** `Number(timeString) || typeof timeString === 'number'`. */
  predicate TakesNumericBranch(input: Input)
  {
    input.Num? || Truthy(ToNumber(input))
  }

  /** The whole of parseTime, with `now` standing for every `Date.now()` it reads. */
  function ParseSpec(locales: map<string, TimeStrings>, input: Input, o: Options, now: real): Completion<Option<real>>
  {
    var offset := if o.fromNow then now else 0.0;
    match EffectiveTable(locales, o)
    case None => Throw(UnknownLocale(LocaleName(o)))
    case Some(t) =>
      if TakesNumericBranch(input) then
        if input == Num(NaN) then ErrorOrNull(InvalidNumber, o.throwError)
        else if !ToNumber(input).Finite? then ErrorOrNull(NonFiniteNumber, o.throwError)
        else Normal(Some(ToNumber(input).value + offset))
      else
        var terms := Terms(Tokens(ToLowerCase(input.s)));
        match Accumulate(terms, t, offset)
        case Sum(total) => Normal(Some(total))
        case Stuck(u) => ErrorOrNull(UnknownUnit(u, LocaleName(o)), o.throwError)
  }

  /**
   * `parseTime(timeString, options)` against the registry: pick the table,
   * take the numeric branch, or scan and add up token by token, leaving
   * through the error gate at the first unknown unit.
   */
  method ParseTime(registry: LocaleRegistry, input: Input, options: Options, now: real)
    returns (r: Completion<Option<real>>)
    ensures r == ParseSpec(registry.locales, input, options, now)
  {
    var name := LocaleName(options);
    var table := registry.Get(name);
    if options.customStrings.Some? {
      table := Some(Merge(if table.Some? then table.value else [], options.customStrings.value));
    }
    if table.None? {
      return Throw(UnknownLocale(name));
    }
    var offset := if options.fromNow then now else 0.0;

    var number := ToNumber(input);
    if Truthy(number) || input.Num? {
      if input == Num(NaN) {
        return ErrorOrNull(InvalidNumber, options.throwError);
      }
      if !number.Finite? {
        return ErrorOrNull(NonFiniteNumber, options.throwError);
      }
      return Normal(Some(number.value + offset));
    }

    var outcome := SumMatches(Tokens(ToLowerCase(input.s)), table.value, offset);
    match outcome
    case Stuck(unit) =>
      return ErrorOrNull(UnknownUnit(unit, name), options.throwError);
    case Sum(time) =>
      return Normal(Some(time));
  }

  /**
   * The `for...of` loop over the matches: add each amount to `time`, and
   * stop at the first unit that no list holds.
   */
  method SumMatches(tokens: seq<Token>, table: TimeStrings, offset: real) returns (r: Outcome)
    requires Quantities(tokens)
    ensures r == Accumulate(Terms(tokens), table, offset)
  {
    ghost var terms := Terms(tokens);
    var time := 0.0;
    for i := 0 to |tokens|
      invariant Accumulate(terms[..i], table, offset) == Sum(time)
    {
      AccumulateNext(terms, i, table, offset, time);
      var step := AddMatch(tokens[i], table, offset, time);
      if step.Stuck? {
        StuckPersists(terms, i + 1, table, offset);
        return step;
      }
      time := step.total;
    }
    assert terms[..|tokens|] == terms;
    return Sum(time);
  }

  /**
   * One pass of the loop body: `Number(quantity)`, scaled by the base value
   * of the unit's field when there is a unit, plus the offset, added to
   * `time`; or the unit itself when no list holds it.
   */
  method AddMatch(token: Token, table: TimeStrings, offset: real, time: real) returns (r: Outcome)
    requires IsQuantity(token.quantity)
    ensures var x := Term(QuantityValue(token.quantity), token.unit);
            r == if Resolves(x, table) then Sum(time + Amount(x, table, offset)) else Stuck(x.unit.value)
  {
    var quantity := QuantityValue(token.quantity);
    if token.unit.Some? {
      var field := Resolve(table, token.unit.value);
      if field.None? {
        return Stuck(token.unit.value);
      }
      return Sum(time + (Scaled(quantity, field.value) + offset));
    }
    return Sum(time + (quantity + offset));
  }
}

/** What parseTime promises, stated on ParseSpec. */
module ParseTimeProperties {
  import opened Commons
  import opened Numbers
  import opened Tokenizer
  import opened Utils
  import opened Locales
  import opened ParseTime

  function Offset(o: Options, now: real): real
  {
    if o.fromNow then now else 0.0
  }

  /** An unregistered locale without overrides always throws, whatever throwError says. */
  lemma UnknownLocaleThrows(locales: map<string, TimeStrings>, input: Input, o: Options, now: real)
    requires LocaleName(o) !in locales && o.customStrings.None?
    ensures ParseSpec(locales, input, o, now) == Throw(UnknownLocale(LocaleName(o)))
  {
  }

  /**
   * With overrides, an unregistered locale does not throw: the overrides
   * alone become the table.
   */
  lemma OverridesWithoutLocale(locales: map<string, TimeStrings>, input: Input, o: Options, now: real)
    requires LocaleName(o) !in locales && o.customStrings.Some?
    ensures EffectiveTable(locales, o) == o.customStrings
    ensures ParseSpec(locales, input, o, now) != Throw(UnknownLocale(LocaleName(o)))
  {
    MergeIntoNothing(o.customStrings.value);
  }

  /** With overrides on a registered locale, each field is read from the overrides if they have it. */
  lemma OverridesReplaceFields(locales: map<string, TimeStrings>, o: Options, f: Field)
    requires LocaleName(o) in locales && o.customStrings.Some?
    ensures EffectiveTable(locales, o).Some?
    ensures Lookup(EffectiveTable(locales, o).value, f) ==
              if f in FieldsOf(o.customStrings.value) then Lookup(o.customStrings.value, f)
              else Lookup(locales[LocaleName(o)], f)
  {
    MergeLookup(locales[LocaleName(o)], o.customStrings.value, f);
  }

  /** A finite number, or a string whose Number() is a non-zero finite value, is returned as is (plus now under fromNow). */
  lemma NumericPassthrough(locales: map<string, TimeStrings>, input: Input, o: Options, now: real)
    requires EffectiveTable(locales, o).Some?
    requires ToNumber(input).Finite?
    requires input.Num? || ToNumber(input).value != 0.0
    ensures ParseSpec(locales, input, o, now) == Normal(Some(ToNumber(input).value + Offset(o, now)))
  {
  }

  /** NaN goes through the error gate: null, or a thrown invalid-number error. */
  lemma NaNGate(locales: map<string, TimeStrings>, o: Options, now: real)
    requires EffectiveTable(locales, o).Some?
    ensures o.throwError ==> ParseSpec(locales, Num(NaN), o, now) == Throw(InvalidNumber)
    ensures !o.throwError ==> ParseSpec(locales, Num(NaN), o, now) == Normal(None)
  {
  }

  /** An infinite number, or a string that reads as one, goes through the same gate. */
  lemma InfinityGate(locales: map<string, TimeStrings>, input: Input, o: Options, now: real)
    requires EffectiveTable(locales, o).Some?
    requires ToNumber(input).Infinity?
    ensures o.throwError ==> ParseSpec(locales, input, o, now) == Throw(NonFiniteNumber)
    ensures !o.throwError ==> ParseSpec(locales, input, o, now) == Normal(None)
  {
  }

  /** Text whose units all resolve parses to its sum, whatever form that sum is written in. */
  lemma TextParsesToSum(locales: map<string, TimeStrings>, s: string, o: Options, now: real, total: real)
    requires EffectiveTable(locales, o).Some?
    requires !Truthy(StringToNumber(s))
    requires AllResolve(Terms(Tokens(ToLowerCase(s))), EffectiveTable(locales, o).value)
    requires Total(Terms(Tokens(ToLowerCase(s))), EffectiveTable(locales, o).value, Offset(o, now)) == total
    ensures ParseSpec(locales, Str(s), o, now) == Normal(Some(total))
  {
    AccumulateAllResolve(Terms(Tokens(ToLowerCase(s))), EffectiveTable(locales, o).value, Offset(o, now));
  }

  /**
   * On the text path the result is the sum of the match amounts when every
   * unit resolves, and otherwise the gate on the first unit that does not;
   * no partial total is ever returned.
   */
  lemma TextPath(locales: map<string, TimeStrings>, s: string, o: Options, now: real)
    requires EffectiveTable(locales, o).Some?
    requires !Truthy(StringToNumber(s))
    ensures var t := EffectiveTable(locales, o).value;
            var xs := Terms(Tokens(ToLowerCase(s)));
            && (AllResolve(xs, t) ==>
                  ParseSpec(locales, Str(s), o, now) == Normal(Some(Total(xs, t, Offset(o, now)))))
            && (forall k :: 0 <= k < |xs| && AllResolve(xs[..k], t) && !Resolves(xs[k], t) ==>
                  ParseSpec(locales, Str(s), o, now) ==
                  ErrorOrNull(UnknownUnit(xs[k].unit.value, LocaleName(o)), o.throwError))
  {
    var t := EffectiveTable(locales, o).value;
    var xs := Terms(Tokens(ToLowerCase(s)));
    if AllResolve(xs, t) {
      AccumulateAllResolve(xs, t, Offset(o, now));
    }
    forall k | 0 <= k < |xs| && AllResolve(xs[..k], t) && !Resolves(xs[k], t)
      ensures ParseSpec(locales, Str(s), o, now) ==
              ErrorOrNull(UnknownUnit(xs[k].unit.value, LocaleName(o)), o.throwError)
    {
      FirstUnknownStops(xs, k, t, Offset(o, now));
    }
  }

  /**
   * Under fromNow the text path adds `now` once per match: with k matches
   * whose units all resolve, the result is the plain total plus k copies of
   * now (`Repeated`, which is k * now by RepeatedIsProduct; TotalPerMatch
   * states the product form of the sum).
   */
  lemma FromNowPerMatch(locales: map<string, TimeStrings>, s: string, o: Options, now: real)
    requires EffectiveTable(locales, o).Some? && o.fromNow
    requires !Truthy(StringToNumber(s))
    requires AllResolve(Terms(Tokens(ToLowerCase(s))), EffectiveTable(locales, o).value)
    ensures var xs := Terms(Tokens(ToLowerCase(s)));
            ParseSpec(locales, Str(s), o, now) ==
            Normal(Some(Total(xs, EffectiveTable(locales, o).value, 0.0) + Repeated(|xs|, now)))
  {
    var t := EffectiveTable(locales, o).value;
    var xs := Terms(Tokens(ToLowerCase(s)));
    TotalOffset(xs, t, now);
    TextParsesToSum(locales, s, o, now, Total(xs, t, 0.0) + Repeated(|xs|, now));
  }

  /** Text is lower-cased before scanning: texts equal up to case give the same result. */
  lemma CaseInsensitive(locales: map<string, TimeStrings>, s1: string, s2: string, o: Options, now: real)
    requires ToLowerCase(s1) == ToLowerCase(s2)
    requires !Truthy(StringToNumber(s1)) && !Truthy(StringToNumber(s2))
    ensures ParseSpec(locales, Str(s1), o, now) == ParseSpec(locales, Str(s2), o, now)
  {
  }

  /** Text without any match (the empty string among it) parses to 0. */
  lemma NoMatchesIsZero(locales: map<string, TimeStrings>, s: string, o: Options, now: real)
    requires EffectiveTable(locales, o).Some?
    requires !Truthy(StringToNumber(s))
    requires Tokens(ToLowerCase(s)) == []
    ensures ParseSpec(locales, Str(s), o, now) == Normal(Some(0.0))
  {
    assert Terms([]) == [];
  }

  lemma EmptyIsZero(locales: map<string, TimeStrings>, o: Options, now: real)
    requires EffectiveTable(locales, o).Some?
    ensures ParseSpec(locales, Str(""), o, now) == Normal(Some(0.0))
  {
    assert ToLowerCase("") == "";
    NoMatchesIsZero(locales, "", o, now);
  }
}
