/**
 * The REGEX pattern `(?<quantity>-?(?:\d+)?\.?\d+) *(?<unit>[a-z]+)?` and its
 * global (`g`) matching, written out as a left-to-right scanner.
 *
 * At one position the backtracking matcher settles on the longest quantity
 * that the group `-?(?:\d+)?\.?\d+` admits there, then takes every following
 * space and every following lower-case letter (both parts are optional and
 * cannot fail). A global scan starts at 0, records a match and resumes at its
 * end, or moves one character on where nothing matches.
 */
module Tokenizer {
  import opened Commons
  import opened Numbers

  predicate IsLower(c: char)
  {
    'a' <= c <= 'z'
  }

  datatype CharClass = Digit | Space | Letter

  predicate InClass(c: char, k: CharClass)
  {
    match k
    case Digit => IsDigit(c)
    case Space => c == ' '
    case Letter => IsLower(c)
  }

  /** The end of the longest run of class `k` characters starting at `i`. */
  function RunEnd(s: string, i: nat, k: CharClass): (e: nat)
    requires i <= |s|
    ensures i <= e <= |s|
    ensures forall p :: i <= p < e ==> InClass(s[p], k)
    ensures e == |s| || !InClass(s[e], k)
    decreases |s| - i
  {
    if i < |s| && InClass(s[i], k) then RunEnd(s, i + 1, k) else i
  }

  predicate DigitsOrDots(b: string)
  {
    forall k :: 0 <= k < |b| ==> IsDigit(b[k]) || b[k] == '.'
  }

  predicate AtMostOneDot(b: string)
  {
    forall j, k :: 0 <= j < k < |b| && b[j] == '.' ==> b[k] != '.'
  }

  /**
   * The language of the quantity group: an optional '-', then digits and at
   * most one '.', ending in a digit (that is, `\d+` or `\d*\.\d+`).
   */
  predicate IsQuantity(q: string)
  {
    var b := Unsigned(q);
    |b| > 0 && IsDigit(b[|b| - 1]) && DigitsOrDots(b) && AtMostOneDot(b)
  }

  /** A quantity's text without its optional '-'. */
  function Unsigned(q: string): (b: string)
    ensures |b| <= |q|
  {
    if |q| > 0 && q[0] == '-' then q[1..] else q
  }

  /** Dropping the sign of the text from `i` to `k` leaves the text from BodyStart(s, i). */
  lemma UnsignedSlice(s: string, i: nat, k: nat)
    requires i <= k <= |s| && BodyStart(s, i) <= k
    ensures Unsigned(s[i..k]) == s[BodyStart(s, i)..k]
  {
  }

  /** Where the quantity group ends when the pattern is tried at `i`, if it matches there. */
  function QuantityEnd(s: string, i: nat): (r: Option<nat>)
    requires i <= |s|
    ensures r.Some? ==> i < r.value <= |s|
  {
    var j := BodyStart(s, i);
    var d := RunEnd(s, j, Digit);
    if d + 1 < |s| && s[d] == '.' && IsDigit(s[d + 1]) then Some(RunEnd(s, d + 1, Digit))
    else if j < d then Some(d)
    else None
  }

  /** Whatever the quantity group takes is a quantity. */
  lemma QuantityEndShape(s: string, i: nat)
    requires i <= |s| && QuantityEnd(s, i).Some?
    ensures IsQuantity(s[i..QuantityEnd(s, i).value])
  {
    var j := BodyStart(s, i);
    var d := RunEnd(s, j, Digit);
    var e := QuantityEnd(s, i).value;
    if d + 1 < |s| && s[d] == '.' && IsDigit(s[d + 1]) {
      assert e == RunEnd(s, d + 1, Digit);
      QuantityShape(s, i, j, d, e);
    } else {
      assert e == d;
      QuantityShape(s, i, j, d, d);
    }
  }

  /** The text `-? digits (. digits)?` between i and e is a quantity. */
  lemma QuantityShape(s: string, i: nat, j: nat, d: nat, e: nat)
    requires i <= j <= d <= e <= |s|
    requires j == i || (j == i + 1 && s[i] == '-')
    requires j < i + 1 || s[i] == '-'
    requires forall p :: j <= p < d ==> IsDigit(s[p])
    requires d == e ==> j < d
    requires d < e ==> s[d] == '.' && d + 1 < e && forall p :: d < p < e ==> IsDigit(s[p])
    ensures IsQuantity(s[i..e])
  {
    UnsignedSlice(s, i, e);
    DecimalShape(s, j, d, e);
  }

  /** Digits from `j` to `d`, then optionally a '.' and at least one more digit up to `e`. */
  lemma DecimalShape(s: string, j: nat, d: nat, e: nat)
    requires j <= d <= e <= |s|
    requires forall p :: j <= p < d ==> IsDigit(s[p])
    requires d == e ==> j < d
    requires d < e ==> s[d] == '.' && d + 1 < e && forall p :: d < p < e ==> IsDigit(s[p])
    ensures var b := s[j..e]; |b| > 0 && IsDigit(b[|b| - 1]) && DigitsOrDots(b) && AtMostOneDot(b)
  {
    var b := s[j..e];
    assert b[|b| - 1] == s[e - 1];
    forall x | 0 <= x < |b|
      ensures IsDigit(b[x]) || b[x] == '.'
    {
      assert b[x] == s[j + x];
    }
    forall x, y | 0 <= x < y < |b| && b[x] == '.'
      ensures b[y] != '.'
    {
      assert b[x] == s[j + x] && b[y] == s[j + y];
    }
  }

  /** The sign the quantity group may take at `i` is skipped: its digits start here. */
  function BodyStart(s: string, i: nat): (j: nat)
    requires i <= |s|
    ensures i <= j <= |s|
  {
    if i < |s| && s[i] == '-' then i + 1 else i
  }

  /** Text from `i` to `k` whose unsigned part is empty or does not end in a digit is no quantity. */
  lemma NotQuantityEnd(s: string, i: nat, k: nat)
    requires i < k <= |s|
    requires k <= BodyStart(s, i) || !IsDigit(s[k - 1])
    ensures !IsQuantity(s[i..k])
  {
    var b := s[BodyStart(s, i)..k];
    UnsignedSlice(s, i, k);
    if |b| > 0 {
      assert b[|b| - 1] == s[k - 1];
    }
  }

  /** Text from `i` to `k` with a character other than a digit or '.' after the sign is no quantity. */
  lemma NotQuantityChar(s: string, i: nat, k: nat, p: nat)
    requires i < k <= |s| && BodyStart(s, i) <= p < k
    requires !IsDigit(s[p]) && s[p] != '.'
    ensures !IsQuantity(s[i..k])
  {
    var j := BodyStart(s, i);
    var b := s[j..k];
    UnsignedSlice(s, i, k);
    assert b[p - j] == s[p];
    assert !DigitsOrDots(b);
  }

  /** Text from `i` to `k` with two dots after the sign is no quantity. */
  lemma NotQuantityDots(s: string, i: nat, k: nat, p: nat, p': nat)
    requires i < k <= |s| && BodyStart(s, i) <= p < p' < k
    requires s[p] == '.' && s[p'] == '.'
    ensures !IsQuantity(s[i..k])
  {
    var j := BodyStart(s, i);
    var b := s[j..k];
    UnsignedSlice(s, i, k);
    assert b[p - j] == '.' && b[p' - j] == '.';
    assert !AtMostOneDot(b);
  }

  /** Text from `i` to `k` whose character at `p` (after the sign) is neither a digit nor a second dot is no quantity. */
  lemma NotQuantityAfterDot(s: string, i: nat, k: nat, dot: nat, p: nat)
    requires i < k <= |s| && BodyStart(s, i) <= dot < p < k
    requires s[dot] == '.' && !IsDigit(s[p])
    ensures !IsQuantity(s[i..k])
  {
    if s[p] == '.' {
      NotQuantityDots(s, i, k, dot, p);
    } else {
      NotQuantityChar(s, i, k, p);
    }
  }

  /**
   * The quantity group is greedy: where it matches at `i`, no longer text
   * from `i` is a quantity; where it does not match, no text from `i` is.
   */
  lemma QuantityEndIsLongest(s: string, i: nat)
    requires i <= |s|
    ensures QuantityEnd(s, i).Some? ==>
              forall k :: QuantityEnd(s, i).value < k <= |s| ==> !IsQuantity(s[i..k])
    ensures QuantityEnd(s, i).None? ==> forall k :: i < k <= |s| ==> !IsQuantity(s[i..k])
  {
    var j := BodyStart(s, i);
    var d := RunEnd(s, j, Digit);
    var r := QuantityEnd(s, i);
    forall k | i < k <= |s| && (r.None? || r.value < k)
      ensures !IsQuantity(s[i..k])
    {
      if d + 1 < |s| && s[d] == '.' && IsDigit(s[d + 1]) {
        // matched `digits . digits`: the character at its end is neither a digit nor a second dot
        var e := RunEnd(s, d + 1, Digit);
        NotQuantityAfterDot(s, i, k, d, e);
      } else if k <= j || k == d + 1 {
        NotQuantityEnd(s, i, k);
      } else if s[d] != '.' {
        // matched `digits` (or nothing): the next character ends every quantity
        NotQuantityChar(s, i, k, d);
      } else {
        // a '.' not followed by a digit
        NotQuantityAfterDot(s, i, k, d, d + 1);
      }
    }
  }

  /** A match's named groups. */
  datatype Token = Token(quantity: string, unit: Option<string>)

  /** One match of the global scan: where it starts and ends, and its groups. */
  datatype Match = Match(start: nat, end: nat, token: Token)

  predicate AllSpaces(t: string)
  {
    forall k :: 0 <= k < |t| ==> t[k] == ' '
  }

  predicate AllLower(t: string)
  {
    forall k :: 0 <= k < |t| ==> IsLower(t[k])
  }

  /** What the quantity/space/unit parts of a match at `i` consist of. */
  ghost predicate WellShaped(s: string, m: Match)
  {
    var q := m.token.quantity;
    && m.start < m.end <= |s|
    && m.start + |q| <= m.end
    && s[m.start..m.start + |q|] == q
    && IsQuantity(q)
    && match m.token.unit
       case None => AllSpaces(s[m.start + |q|..m.end])
       case Some(u) =>
         && |u| > 0 && AllLower(u)
         && m.start + |q| <= m.end - |u|
         && s[m.end - |u|..m.end] == u
         && AllSpaces(s[m.start + |q|..m.end - |u|])
  }

  /** The match of the pattern anchored at position `i`, if there is one. */
  function MatchAt(s: string, i: nat): (r: Option<Match>)
    requires i <= |s|
    ensures r.Some? ==> r.value.start == i < r.value.end <= |s|
  {
    match QuantityEnd(s, i)
    case None => None
    case Some(q) =>
      var sp := RunEnd(s, q, Space);
      var u := RunEnd(s, sp, Letter);
      var m := if sp < u then Match(i, u, Token(s[i..q], Some(s[sp..u])))
               else Match(i, sp, Token(s[i..q], None));
      Some(m)
  }

  /** Every match MatchAt finds has the shape of the pattern. */
  lemma MatchAtShape(s: string, i: nat)
    requires i <= |s| && MatchAt(s, i).Some?
    ensures WellShaped(s, MatchAt(s, i).value)
  {
    var q := QuantityEnd(s, i).value;
    QuantityEndShape(s, i);
    var sp := RunEnd(s, q, Space);
    var u := RunEnd(s, sp, Letter);
    MatchShape(s, i, q, sp, u, MatchAt(s, i).value);
  }

  lemma MatchShape(s: string, i: nat, q: nat, sp: nat, u: nat, m: Match)
    requires i < q <= sp <= u <= |s| && IsQuantity(s[i..q])
    requires forall p :: q <= p < sp ==> s[p] == ' '
    requires forall p :: sp <= p < u ==> IsLower(s[p])
    requires m == if sp < u then Match(i, u, Token(s[i..q], Some(s[sp..u])))
                  else Match(i, sp, Token(s[i..q], None))
    ensures WellShaped(s, m)
  {
    var t := s[q..sp];
    assert forall k :: 0 <= k < |t| ==> t[k] == s[q + k];
    assert AllSpaces(t);
    var l := s[sp..u];
    assert forall k :: 0 <= k < |l| ==> l[k] == s[sp + k];
    assert AllLower(l);
    assert m.start + |m.token.quantity| == q;
    if sp < u {
      assert m.end - |l| == sp;
    }
  }

  /** No position in [lo, hi) starts a match. */
  ghost predicate NoMatchIn(s: string, lo: nat, hi: nat)
  {
    forall p :: lo <= p < hi && p <= |s| ==> MatchAt(s, p).None?
  }

  /**
   * `ms` is what a global scan from `i` finds: the matches in input order,
   * each the anchored match at its start, none overlapping, and no match
   * possible at any position the scan skips.
   */
  ghost predicate GlobalMatches(s: string, i: nat, ms: seq<Match>)
  {
    && (forall k :: 0 <= k < |ms| ==> i <= ms[k].start < ms[k].end <= |s|)
    && (forall k :: 0 <= k < |ms| ==> MatchAt(s, ms[k].start) == Some(ms[k]))
    && (forall k :: 0 <= k < |ms| - 1 ==> ms[k].end <= ms[k + 1].start)
    && NoMatchIn(s, i, if ms == [] then |s| else ms[0].start)
    && (forall k :: 0 <= k < |ms| - 1 ==> NoMatchIn(s, ms[k].end, ms[k + 1].start))
    && (ms != [] ==> NoMatchIn(s, ms[|ms| - 1].end, |s|))
  }

  /** The global scan from `i`: record the match here and resume at its end, or move one on. */
  function ScanFrom(s: string, i: nat): seq<Match>
    requires i <= |s|
    decreases |s| - i
  {
    if i == |s| then []
    else
      match MatchAt(s, i)
      case Some(m) =>
        assert m.start == i < m.end;
        [m] + ScanFrom(s, m.end)
      case None => ScanFrom(s, i + 1)
  }

  /** The scan finds every match the global pattern finds, and nothing else. */
  lemma {:induction false} ScanFromIsGlobal(s: string, i: nat)
    requires i <= |s|
    ensures GlobalMatches(s, i, ScanFrom(s, i))
    decreases |s| - i
  {
    if i < |s| {
      ScanFromIsGlobal(s, NextStart(s, i));
      ScanStep(s, i);
    }
  }

  /** Where the scan resumes after position `i`. */
  function NextStart(s: string, i: nat): (j: nat)
    requires i < |s|
    ensures i < j <= |s|
  {
    match MatchAt(s, i)
    case Some(m) => m.end
    case None => i + 1
  }

  /** One scan step keeps GlobalMatches. */
  lemma ScanStep(s: string, i: nat)
    requires i < |s|
    requires GlobalMatches(s, NextStart(s, i), ScanFrom(s, NextStart(s, i)))
    ensures GlobalMatches(s, i, ScanFrom(s, i))
  {
    match MatchAt(s, i)
    case Some(m) =>
      var rest := ScanFrom(s, m.end);
      assert ScanFrom(s, i) == [m] + rest;
      GlobalMatchesCons(s, m, rest);
    case None =>
      var rest := ScanFrom(s, i + 1);
      assert ScanFrom(s, i) == rest;
      GlobalMatchesSkip(s, i, rest);
  }

  lemma GlobalMatchesSkip(s: string, i: nat, rest: seq<Match>)
    requires i < |s| && MatchAt(s, i).None?
    requires GlobalMatches(s, i + 1, rest)
    ensures GlobalMatches(s, i, rest)
  {
  }

  lemma GlobalMatchesCons(s: string, m: Match, rest: seq<Match>)
    requires m.start < m.end <= |s| && MatchAt(s, m.start) == Some(m)
    requires GlobalMatches(s, m.end, rest)
    ensures GlobalMatches(s, m.start, [m] + rest)
  {
    var ms := [m] + rest;
    forall k | 0 < k < |ms|
      ensures ms[k] == rest[k - 1]
    {
    }
    forall k | 0 <= k < |ms|
      ensures m.start <= ms[k].start < ms[k].end <= |s|
      ensures MatchAt(s, ms[k].start) == Some(ms[k])
    {
    }
    forall k | 0 <= k < |ms| - 1
      ensures ms[k].end <= ms[k + 1].start
      ensures NoMatchIn(s, ms[k].end, ms[k + 1].start)
    {
    }
    assert NoMatchIn(s, m.start, ms[0].start);
    if rest != [] {
      assert ms[|ms| - 1] == rest[|rest| - 1];
    }
  }

  /**
   * MatchAt is the match the pattern finds at `i`: none exactly when no text
   * from `i` is a quantity; otherwise the longest quantity, then every space,
   * then every lower-case letter that follows.
   */
  lemma MatchAtIsRegexMatch(s: string, i: nat)
    requires i <= |s|
    ensures MatchAt(s, i).None? <==> forall k :: i < k <= |s| ==> !IsQuantity(s[i..k])
    ensures MatchAt(s, i).Some? ==>
      var m := MatchAt(s, i).value;
      && (forall k :: i + |m.token.quantity| < k <= |s| ==> !IsQuantity(s[i..k]))
      && (m.end == |s| || !IsLower(s[m.end]))
      && (m.token.unit.None? ==> m.end == |s| || s[m.end] != ' ')
  {
    QuantityEndIsLongest(s, i);
    if QuantityEnd(s, i).Some? {
      var e := QuantityEnd(s, i).value;
      QuantityEndShape(s, i);
      assert !(forall k :: i < k <= |s| ==> !IsQuantity(s[i..k])) by {
        assert IsQuantity(s[i..e]);
      }
    }
  }

  /** A run of class `k` from `i` that stops at `e` is the run RunEnd finds. */
  lemma {:induction false} RunEndAt(s: string, i: nat, e: nat, k: CharClass)
    requires i <= e <= |s|
    requires forall p :: i <= p < e ==> InClass(s[p], k)
    requires e == |s| || !InClass(s[e], k)
    ensures RunEnd(s, i, k) == e
    decreases e - i
  {
    if i < e {
      RunEndAt(s, i + 1, e, k);
    }
  }

  /** A position holding neither a digit, a '-' nor a '.' starts no match. */
  lemma NoMatchAt(s: string, i: nat)
    requires i < |s| && !IsDigit(s[i]) && s[i] != '-' && s[i] != '.'
    ensures MatchAt(s, i).None?
  {
    RunEndAt(s, i, i, Digit);
  }

  /**
   * The match at `i` read off its parts: an optional '-' up to `j`, digits
   * up to `d`, an optional fraction `.digits` up to `q`, spaces up to `sp`,
   * and lower-case letters up to `e`, each part ending where its class ends.
   */
  lemma MatchOfParts(s: string, i: nat, j: nat, d: nat, q: nat, sp: nat, e: nat)
    requires i <= j <= d <= q <= sp <= e <= |s| && i < q
    requires j == if s[i] == '-' then i + 1 else i
    requires forall p :: j <= p < d ==> IsDigit(s[p])
    requires d == |s| || !IsDigit(s[d])
    requires d < q ==> d + 1 < q && s[d] == '.' && forall p :: d < p < q ==> IsDigit(s[p])
    requires d < q ==> q == |s| || !IsDigit(s[q])
    requires d == q ==> j < d && (d + 1 >= |s| || s[d] != '.' || !IsDigit(s[d + 1]))
    requires forall p :: q <= p < sp ==> s[p] == ' '
    requires sp == |s| || s[sp] != ' '
    requires forall p :: sp <= p < e ==> IsLower(s[p])
    requires e == |s| || !IsLower(s[e])
    ensures MatchAt(s, i) == Some(
              if sp < e then Match(i, e, Token(s[i..q], Some(s[sp..e])))
              else Match(i, sp, Token(s[i..q], None)))
  {
    QuantityOfParts(s, i, j, d, q);
    RunEndAt(s, q, sp, Space);
    RunEndAt(s, sp, e, Letter);
    MatchOfRuns(s, i, q, sp, e);
  }

  /** The quantity part of MatchOfParts. */
  lemma QuantityOfParts(s: string, i: nat, j: nat, d: nat, q: nat)
    requires i <= j <= d <= q <= |s| && i < q
    requires j == if s[i] == '-' then i + 1 else i
    requires forall p :: j <= p < d ==> IsDigit(s[p])
    requires d == |s| || !IsDigit(s[d])
    requires d < q ==> d + 1 < q && s[d] == '.' && forall p :: d < p < q ==> IsDigit(s[p])
    requires d < q ==> q == |s| || !IsDigit(s[q])
    requires d == q ==> j < d && (d + 1 >= |s| || s[d] != '.' || !IsDigit(s[d + 1]))
    ensures QuantityEnd(s, i) == Some(q)
  {
    assert BodyStart(s, i) == j;
    RunEndAt(s, j, d, Digit);
    if d < q {
      RunEndAt(s, d + 1, q, Digit);
    }
    QuantityEndAt(s, i, j, d, q);
  }

  /** MatchAt read off the quantity end and the two runs after it. */
  lemma MatchOfRuns(s: string, i: nat, q: nat, sp: nat, e: nat)
    requires i <= |s|
    requires QuantityEnd(s, i) == Some(q) && RunEnd(s, q, Space) == sp && RunEnd(s, sp, Letter) == e
    ensures MatchAt(s, i) == Some(
              if sp < e then Match(i, e, Token(s[i..q], Some(s[sp..e])))
              else Match(i, sp, Token(s[i..q], None)))
  {
  }

  /** QuantityEnd read off the runs it looks at. */
  lemma QuantityEndAt(s: string, i: nat, j: nat, d: nat, q: nat)
    requires i <= j <= d <= q < |s| + 1
    requires BodyStart(s, i) == j && RunEnd(s, j, Digit) == d
    requires d < q ==> d + 1 < |s| && s[d] == '.' && IsDigit(s[d + 1]) && RunEnd(s, d + 1, Digit) == q
    requires d == q ==> j < d && !(d + 1 < |s| && s[d] == '.' && IsDigit(s[d + 1]))
    ensures QuantityEnd(s, i) == Some(q)
  {
  }

  /** `[...s.matchAll(new RegExp(REGEX, 'g'))]`. */
  function Scan(s: string): seq<Match>
  {
    ScanFrom(s, 0)
  }

  /** The groups of every match of the global scan, in order. */
  function Tokens(s: string): (ts: seq<Token>)
    ensures |ts| == |Scan(s)|
    ensures forall k :: 0 <= k < |ts| ==> ts[k] == Scan(s)[k].token
    ensures forall k :: 0 <= k < |ts| ==> IsQuantity(ts[k].quantity)
    ensures forall k :: 0 <= k < |ts| && ts[k].unit.Some? ==>
              |ts[k].unit.value| > 0 && AllLower(ts[k].unit.value)
  {
    var ms := Scan(s);
    ScannedShapes(s, 0);
    seq(|ms|, k requires 0 <= k < |ms| => ms[k].token)
  }

  /** The text of every match of the global scan, in order: what `String.prototype.match`
      returns for the pattern with the global flag (no match gives the empty list, not null). */
  function MatchedTexts(s: string): (ts: seq<string>)
    ensures |ts| == |Scan(s)|
    ensures forall k :: 0 <= k < |ts| ==> Scan(s)[k].start < Scan(s)[k].end <= |s|
    ensures forall k :: 0 <= k < |ts| ==> ts[k] == s[Scan(s)[k].start..Scan(s)[k].end]
  {
    var ms := Scan(s);
    ScannedBounds(s, 0);
    seq(|ms|, k requires 0 <= k < |ms| => s[ms[k].start..ms[k].end])
  }

  /** The matches a scan from `i` records lie inside the text, in order and without overlap. */
  lemma {:induction false} ScannedBounds(s: string, i: nat)
    requires i <= |s|
    ensures forall k :: 0 <= k < |ScanFrom(s, i)| ==> i <= ScanFrom(s, i)[k].start < ScanFrom(s, i)[k].end <= |s|
    ensures forall k :: 0 < k < |ScanFrom(s, i)| ==> ScanFrom(s, i)[k - 1].end <= ScanFrom(s, i)[k].start
    decreases |s| - i
  {
    if i < |s| {
      var n := NextStart(s, i);
      var rest := ScanFrom(s, n);
      ScannedBounds(s, n);
      match MatchAt(s, i)
      case Some(m) =>
        ScanHit(s, i, m);
        assert n == m.end;
        var ms := [m] + rest;
        assert ScanFrom(s, i) == ms;
        forall k | 0 <= k < |ms|
          ensures i <= ms[k].start < ms[k].end <= |s|
        {
          if k > 0 {
            assert ms[k] == rest[k - 1];
          }
        }
        forall k | 0 < k < |ms|
          ensures ms[k - 1].end <= ms[k].start
        {
          if k > 1 {
            assert ms[k - 1] == rest[k - 2] && ms[k] == rest[k - 1];
          }
        }
      case None =>
        ScanMiss(s, i);
    }
  }

  /** A match at `i` is recorded, and the scan resumes where it ends. */
  lemma ScanHit(s: string, i: nat, m: Match)
    requires i < |s| && MatchAt(s, i) == Some(m)
    ensures m.end <= |s| && ScanFrom(s, i) == [m] + ScanFrom(s, m.end)
  {
  }

  /** Where no match starts, the scan moves one character on. */
  lemma ScanMiss(s: string, i: nat)
    requires i < |s| && MatchAt(s, i).None?
    ensures ScanFrom(s, i) == ScanFrom(s, i + 1)
  {
  }

  /** The groups of a list of matches, in order. */
  function GroupsOf(ms: seq<Match>): (ts: seq<Token>)
    ensures |ts| == |ms|
    ensures forall k :: 0 <= k < |ms| ==> ts[k] == ms[k].token
  {
    if ms == [] then [] else [ms[0].token] + GroupsOf(ms[1..])
  }

  /** The tokens are the groups of whatever the scan finds. */
  lemma TokensOfScan(s: string, ms: seq<Match>)
    requires ScanFrom(s, 0) == ms
    ensures Tokens(s) == GroupsOf(ms)
  {
  }

  /** Every match a scan from `i` records has the groups' shape. */
  lemma {:induction false} ScannedShapes(s: string, i: nat)
    requires i <= |s|
    ensures forall k :: 0 <= k < |ScanFrom(s, i)| ==> IsQuantity(ScanFrom(s, i)[k].token.quantity)
    ensures forall k :: 0 <= k < |ScanFrom(s, i)| && ScanFrom(s, i)[k].token.unit.Some? ==>
              |ScanFrom(s, i)[k].token.unit.value| > 0 && AllLower(ScanFrom(s, i)[k].token.unit.value)
    decreases |s| - i
  {
    if i < |s| {
      var n := NextStart(s, i);
      var rest := ScanFrom(s, n);
      ScannedShapes(s, n);
      match MatchAt(s, i)
      case Some(m) =>
        ScanHit(s, i, m);
        assert n == m.end;
        MatchedShape(s, m);
        var ms := [m] + rest;
        assert ScanFrom(s, i) == ms;
        forall k | 0 <= k < |ms|
          ensures IsQuantity(ms[k].token.quantity)
          ensures ms[k].token.unit.Some? ==> |ms[k].token.unit.value| > 0 && AllLower(ms[k].token.unit.value)
        {
          if k > 0 {
            assert ms[k] == rest[k - 1];
          }
        }
      case None =>
        ScanMiss(s, i);
    }
  }

  lemma MatchedShape(s: string, m: Match)
    requires m.start <= |s| && MatchAt(s, m.start) == Some(m)
    ensures IsQuantity(m.token.quantity)
    ensures m.token.unit.Some? ==> |m.token.unit.value| > 0 && AllLower(m.token.unit.value)
  {
    MatchAtShape(s, m.start);
  }
}
