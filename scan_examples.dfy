/**
 * The pattern's own examples: the global match of three duration strings,
 * and the named groups of the first match of two more. Each example text is
 * described by its characters (`CompactText` and the like); the scan is then
 * read off from the last match back to position 0, one step per lemma.
 */
module ScanExamples {
  import opened Commons
  import opened Numbers
  import opened Tokenizer

  /** A digit followed directly by its unit letters, as in "5ms". */
  lemma CompactAt(s: string, i: nat, e: nat)
    requires i + 1 < e <= |s| && IsDigit(s[i])
    requires forall p :: i < p < e ==> IsLower(s[p])
    requires e == |s| || s[e] == ' '
    ensures MatchAt(s, i) == Some(Match(i, e, Token(s[i..i + 1], Some(s[i + 1..e]))))
  {
    MatchOfParts(s, i, i, i + 1, i + 1, i + 1, e);
  }

  /** A digit, one space, then the unit letters, as in "5 ms". */
  lemma SpacedAt(s: string, i: nat, e: nat)
    requires i + 2 < e <= |s| && IsDigit(s[i]) && s[i + 1] == ' '
    requires forall p :: i + 2 <= p < e ==> IsLower(s[p])
    requires e == |s| || s[e] == ' '
    ensures MatchAt(s, i) == Some(Match(i, e, Token(s[i..i + 1], Some(s[i + 2..e]))))
  {
    MatchOfParts(s, i, i, i + 1, i + 1, i + 2, e);
  }

  /** A digit, a decimal point, a digit, one space, then the unit letters, as in "5.5 ms". */
  lemma DottedAt(s: string, i: nat, e: nat)
    requires i + 4 < e <= |s| && IsDigit(s[i]) && s[i + 1] == '.' && IsDigit(s[i + 2]) && s[i + 3] == ' '
    requires forall p :: i + 4 <= p < e ==> IsLower(s[p])
    requires e == |s| || s[e] == ' '
    ensures MatchAt(s, i) == Some(Match(i, e, Token(s[i..i + 3], Some(s[i + 4..e]))))
  {
    MatchOfParts(s, i, i, i + 1, i + 3, i + 4, e);
  }

  /** A scan of one match yields that match's groups. */
  lemma TokensOfOne(s: string, ms: seq<Match>)
    requires |ms| == 1 && Scan(s) == ms
    ensures Tokens(s) == [ms[0].token]
  {
  }

  /** A scan of five matches yields their groups, in order. */
  lemma TokensOfFive(s: string, ms: seq<Match>)
    requires |ms| == 5 && Scan(s) == ms
    ensures Tokens(s) == [ms[0].token, ms[1].token, ms[2].token, ms[3].token, ms[4].token]
  {
  }

  /** A scan of five matches yields the five slices they span, in order. */
  lemma TextsOfFive(s: string, ms: seq<Match>)
    requires |ms| == 5 && Scan(s) == ms
    ensures forall k :: 0 <= k < 5 ==> ms[k].start < ms[k].end <= |s|
    ensures MatchedTexts(s) == [
        s[ms[0].start..ms[0].end],
        s[ms[1].start..ms[1].end],
        s[ms[2].start..ms[2].end],
                                s[ms[3].start..ms[3].end], s[ms[4].start..ms[4].end]]
  {
    var ts := MatchedTexts(s);
    assert ts[0] == s[ms[0].start..ms[0].end] && ts[1] == s[ms[1].start..ms[1].end];
    assert ts[2] == s[ms[2].start..ms[2].end] && ts[3] == s[ms[3].start..ms[3].end];
    assert ts[4] == s[ms[4].start..ms[4].end];
  }

  // ------------------------------------------------------------ "1d 2h 3m 4s 5ms"

  const COMPACT := "1d 2h 3m 4s 5ms"

  /** The text COMPACT, character by character. */
  predicate CompactText(s: string)
  {
    && |s| == 15
    && s[0] == '1' && s[1] == 'd' && s[2] == ' ' && s[3] == '2' && s[4] == 'h' && s[5] == ' '
    && s[6] == '3' && s[7] == 'm' && s[8] == ' ' && s[9] == '4' && s[10] == 's' && s[11] == ' '
    && s[12] == '5' && s[13] == 'm' && s[14] == 's'
  }

  lemma CompactAt0(s: string)
    requires CompactText(s)
    ensures MatchAt(s, 0) == Some(Match(0, 2, Token(s[0..1], Some(s[1..2]))))
  {
    CompactAt(s, 0, 2);
  }

  lemma CompactAt3(s: string)
    requires CompactText(s)
    ensures MatchAt(s, 3) == Some(Match(3, 5, Token(s[3..4], Some(s[4..5]))))
  {
    CompactAt(s, 3, 5);
  }

  lemma CompactAt6(s: string)
    requires CompactText(s)
    ensures MatchAt(s, 6) == Some(Match(6, 8, Token(s[6..7], Some(s[7..8]))))
  {
    CompactAt(s, 6, 8);
  }

  lemma CompactAt9(s: string)
    requires CompactText(s)
    ensures MatchAt(s, 9) == Some(Match(9, 11, Token(s[9..10], Some(s[10..11]))))
  {
    CompactAt(s, 9, 11);
  }

  lemma CompactAt12(s: string)
    requires CompactText(s)
    ensures MatchAt(s, 12) == Some(Match(12, 15, Token(s[12..13], Some(s[13..15]))))
  {
    CompactAt(s, 12, 15);
  }

  lemma CompactGap2(s: string)
    requires CompactText(s)
    ensures MatchAt(s, 2).None?
  {
    NoMatchAt(s, 2);
  }

  lemma CompactGap5(s: string)
    requires CompactText(s)
    ensures MatchAt(s, 5).None?
  {
    NoMatchAt(s, 5);
  }

  lemma CompactGap8(s: string)
    requires CompactText(s)
    ensures MatchAt(s, 8).None?
  {
    NoMatchAt(s, 8);
  }

  lemma CompactGap11(s: string)
    requires CompactText(s)
    ensures MatchAt(s, 11).None?
  {
    NoMatchAt(s, 11);
  }

  lemma CompactFrom12(s: string)
    requires CompactText(s)
    ensures ScanFrom(s, 12) == [Match(12, 15, Token(s[12..13], Some(s[13..15])))]
  {
    CompactAt12(s);
    ScanHit(s, 12, Match(12, 15, Token(s[12..13], Some(s[13..15]))));
  }

  lemma CompactFrom11(s: string)
    requires CompactText(s)
    ensures ScanFrom(s, 11) == [Match(12, 15, Token(s[12..13], Some(s[13..15])))]
  {
    CompactFrom12(s);
    CompactGap11(s);
    ScanMiss(s, 11);
  }

  lemma CompactFrom9(s: string)
    requires CompactText(s)
    ensures ScanFrom(s, 9) == [
        Match(9, 11, Token(s[9..10], Some(s[10..11]))),
        Match(12, 15, Token(s[12..13], Some(s[13..15])))]
  {
    CompactFrom11(s);
    CompactAt9(s);
    ScanHit(s, 9, Match(9, 11, Token(s[9..10], Some(s[10..11]))));
  }

  lemma CompactFrom8(s: string)
    requires CompactText(s)
    ensures ScanFrom(s, 8) == [
        Match(9, 11, Token(s[9..10], Some(s[10..11]))),
        Match(12, 15, Token(s[12..13], Some(s[13..15])))]
  {
    CompactFrom9(s);
    CompactGap8(s);
    ScanMiss(s, 8);
  }

  lemma CompactFrom6(s: string)
    requires CompactText(s)
    ensures ScanFrom(s, 6) == [
        Match(6, 8, Token(s[6..7], Some(s[7..8]))),
        Match(9, 11, Token(s[9..10], Some(s[10..11]))),
        Match(12, 15, Token(s[12..13], Some(s[13..15])))]
  {
    CompactFrom8(s);
    CompactAt6(s);
    ScanHit(s, 6, Match(6, 8, Token(s[6..7], Some(s[7..8]))));
  }

  lemma CompactFrom5(s: string)
    requires CompactText(s)
    ensures ScanFrom(s, 5) == [
        Match(6, 8, Token(s[6..7], Some(s[7..8]))),
        Match(9, 11, Token(s[9..10], Some(s[10..11]))),
        Match(12, 15, Token(s[12..13], Some(s[13..15])))]
  {
    CompactFrom6(s);
    CompactGap5(s);
    ScanMiss(s, 5);
  }

  lemma CompactFrom3(s: string)
    requires CompactText(s)
    ensures ScanFrom(s, 3) == [
        Match(3, 5, Token(s[3..4], Some(s[4..5]))),
        Match(6, 8, Token(s[6..7], Some(s[7..8]))),
        Match(9, 11, Token(s[9..10], Some(s[10..11]))),
        Match(12, 15, Token(s[12..13], Some(s[13..15])))]
  {
    CompactFrom5(s);
    CompactAt3(s);
    ScanHit(s, 3, Match(3, 5, Token(s[3..4], Some(s[4..5]))));
  }

  lemma CompactFrom2(s: string)
    requires CompactText(s)
    ensures ScanFrom(s, 2) == [
        Match(3, 5, Token(s[3..4], Some(s[4..5]))),
        Match(6, 8, Token(s[6..7], Some(s[7..8]))),
        Match(9, 11, Token(s[9..10], Some(s[10..11]))),
        Match(12, 15, Token(s[12..13], Some(s[13..15])))]
  {
    CompactFrom3(s);
    CompactGap2(s);
    ScanMiss(s, 2);
  }

  lemma CompactFrom0(s: string)
    requires CompactText(s)
    ensures ScanFrom(s, 0) == [
        Match(0, 2, Token(s[0..1], Some(s[1..2]))),
        Match(3, 5, Token(s[3..4], Some(s[4..5]))),
        Match(6, 8, Token(s[6..7], Some(s[7..8]))),
        Match(9, 11, Token(s[9..10], Some(s[10..11]))),
        Match(12, 15, Token(s[12..13], Some(s[13..15])))]
  {
    CompactFrom2(s);
    CompactAt0(s);
    ScanHit(s, 0, Match(0, 2, Token(s[0..1], Some(s[1..2]))));
  }

  lemma CompactSlices(s: string)
    requires CompactText(s)
    ensures s[0..1] == "1"
    ensures s[1..2] == "d"
    ensures s[3..4] == "2"
    ensures s[4..5] == "h"
    ensures s[6..7] == "3"
    ensures s[7..8] == "m"
    ensures s[9..10] == "4"
    ensures s[10..11] == "s"
    ensures s[12..13] == "5"
    ensures s[13..15] == "ms"
    ensures s[0..2] == "1d"
    ensures s[3..5] == "2h"
    ensures s[6..8] == "3m"
    ensures s[9..11] == "4s"
    ensures s[12..15] == "5ms"
  {
  }

  lemma CompactTexts(s: string)
    requires CompactText(s)
    ensures MatchedTexts(s) == ["1d", "2h", "3m", "4s", "5ms"]
  {
    CompactFrom0(s);
    TextsOfFive(s, [
        Match(0, 2, Token(s[0..1], Some(s[1..2]))),
        Match(3, 5, Token(s[3..4], Some(s[4..5]))),
        Match(6, 8, Token(s[6..7], Some(s[7..8]))),
        Match(9, 11, Token(s[9..10], Some(s[10..11]))),
        Match(12, 15, Token(s[12..13], Some(s[13..15])))]);
    CompactSlices(s);
  }

  lemma CompactChars0()
    ensures COMPACT[0] == '1' && COMPACT[1] == 'd' && COMPACT[2] == ' '
    ensures COMPACT[3] == '2' && COMPACT[4] == 'h' && COMPACT[5] == ' '
  {
  }

  lemma CompactChars6()
    ensures COMPACT[6] == '3' && COMPACT[7] == 'm' && COMPACT[8] == ' '
    ensures COMPACT[9] == '4' && COMPACT[10] == 's' && COMPACT[11] == ' '
  {
  }

  lemma CompactChars12()
    ensures COMPACT[12] == '5' && COMPACT[13] == 'm' && COMPACT[14] == 's'
  {
  }

  lemma CompactGroups(s: string)
    requires CompactText(s)
    ensures Tokens(s) == [
        Token(s[0..1], Some(s[1..2])),
        Token(s[3..4], Some(s[4..5])),
        Token(s[6..7], Some(s[7..8])),
        Token(s[9..10], Some(s[10..11])),
        Token(s[12..13], Some(s[13..15]))]
  {
    CompactFrom0(s);
    TokensOfFive(s, [
        Match(0, 2, Token(s[0..1], Some(s[1..2]))),
        Match(3, 5, Token(s[3..4], Some(s[4..5]))),
        Match(6, 8, Token(s[6..7], Some(s[7..8]))),
        Match(9, 11, Token(s[9..10], Some(s[10..11]))),
        Match(12, 15, Token(s[12..13], Some(s[13..15])))]);
  }

  lemma CompactTokens(s: string)
    requires CompactText(s)
    ensures Tokens(s) == [
        Token("1", Some("d")),
        Token("2", Some("h")),
        Token("3", Some("m")),
        Token("4", Some("s")),
        Token("5", Some("ms"))]
  {
    CompactGroups(s);
    CompactSlices(s);
  }

  lemma CompactTextIs()
    ensures CompactText(COMPACT)
  {
    CompactChars0(); CompactChars6(); CompactChars12();
  }

  /** Five units written against their quantities match one by one; the spaces between them match nothing. */
  lemma CompactMatches()
    ensures MatchedTexts(COMPACT) == ["1d", "2h", "3m", "4s", "5ms"]
    ensures Tokens(COMPACT) == [
        Token("1", Some("d")),
        Token("2", Some("h")),
        Token("3", Some("m")),
        Token("4", Some("s")),
        Token("5", Some("ms"))]
  {
    CompactTextIs();
    CompactTexts(COMPACT);
    CompactTokens(COMPACT);
  }

  // ------------------------------------------------------------ "1 d 2 h 3 m 4 s 5 ms"

  const SPACED := "1 d 2 h 3 m 4 s 5 ms"

  /** The text SPACED, character by character. */
  predicate SpacedText(s: string)
  {
    && |s| == 20
    && s[0] == '1' && s[1] == ' ' && s[2] == 'd' && s[3] == ' ' && s[4] == '2' && s[5] == ' '
    && s[6] == 'h' && s[7] == ' ' && s[8] == '3' && s[9] == ' ' && s[10] == 'm' && s[11] == ' '
    && s[12] == '4' && s[13] == ' ' && s[14] == 's' && s[15] == ' ' && s[16] == '5' && s[17] == ' '
    && s[18] == 'm' && s[19] == 's'
  }

  lemma SpacedAt0(s: string)
    requires SpacedText(s)
    ensures MatchAt(s, 0) == Some(Match(0, 3, Token(s[0..1], Some(s[2..3]))))
  {
    SpacedAt(s, 0, 3);
  }

  lemma SpacedAt4(s: string)
    requires SpacedText(s)
    ensures MatchAt(s, 4) == Some(Match(4, 7, Token(s[4..5], Some(s[6..7]))))
  {
    SpacedAt(s, 4, 7);
  }

  lemma SpacedAt8(s: string)
    requires SpacedText(s)
    ensures MatchAt(s, 8) == Some(Match(8, 11, Token(s[8..9], Some(s[10..11]))))
  {
    SpacedAt(s, 8, 11);
  }

  lemma SpacedAt12(s: string)
    requires SpacedText(s)
    ensures MatchAt(s, 12) == Some(Match(12, 15, Token(s[12..13], Some(s[14..15]))))
  {
    SpacedAt(s, 12, 15);
  }

  lemma SpacedAt16(s: string)
    requires SpacedText(s)
    ensures MatchAt(s, 16) == Some(Match(16, 20, Token(s[16..17], Some(s[18..20]))))
  {
    SpacedAt(s, 16, 20);
  }

  lemma SpacedGap3(s: string)
    requires SpacedText(s)
    ensures MatchAt(s, 3).None?
  {
    NoMatchAt(s, 3);
  }

  lemma SpacedGap7(s: string)
    requires SpacedText(s)
    ensures MatchAt(s, 7).None?
  {
    NoMatchAt(s, 7);
  }

  lemma SpacedGap11(s: string)
    requires SpacedText(s)
    ensures MatchAt(s, 11).None?
  {
    NoMatchAt(s, 11);
  }

  lemma SpacedGap15(s: string)
    requires SpacedText(s)
    ensures MatchAt(s, 15).None?
  {
    NoMatchAt(s, 15);
  }

  lemma SpacedFrom16(s: string)
    requires SpacedText(s)
    ensures ScanFrom(s, 16) == [Match(16, 20, Token(s[16..17], Some(s[18..20])))]
  {
    SpacedAt16(s);
    ScanHit(s, 16, Match(16, 20, Token(s[16..17], Some(s[18..20]))));
  }

  lemma SpacedFrom15(s: string)
    requires SpacedText(s)
    ensures ScanFrom(s, 15) == [Match(16, 20, Token(s[16..17], Some(s[18..20])))]
  {
    SpacedFrom16(s);
    SpacedGap15(s);
    ScanMiss(s, 15);
  }

  lemma SpacedFrom12(s: string)
    requires SpacedText(s)
    ensures ScanFrom(s, 12) == [
        Match(12, 15, Token(s[12..13], Some(s[14..15]))),
        Match(16, 20, Token(s[16..17], Some(s[18..20])))]
  {
    SpacedFrom15(s);
    SpacedAt12(s);
    ScanHit(s, 12, Match(12, 15, Token(s[12..13], Some(s[14..15]))));
  }

  lemma SpacedFrom11(s: string)
    requires SpacedText(s)
    ensures ScanFrom(s, 11) == [
        Match(12, 15, Token(s[12..13], Some(s[14..15]))),
        Match(16, 20, Token(s[16..17], Some(s[18..20])))]
  {
    SpacedFrom12(s);
    SpacedGap11(s);
    ScanMiss(s, 11);
  }

  lemma SpacedFrom8(s: string)
    requires SpacedText(s)
    ensures ScanFrom(s, 8) == [
        Match(8, 11, Token(s[8..9], Some(s[10..11]))),
        Match(12, 15, Token(s[12..13], Some(s[14..15]))),
        Match(16, 20, Token(s[16..17], Some(s[18..20])))]
  {
    SpacedFrom11(s);
    SpacedAt8(s);
    ScanHit(s, 8, Match(8, 11, Token(s[8..9], Some(s[10..11]))));
  }

  lemma SpacedFrom7(s: string)
    requires SpacedText(s)
    ensures ScanFrom(s, 7) == [
        Match(8, 11, Token(s[8..9], Some(s[10..11]))),
        Match(12, 15, Token(s[12..13], Some(s[14..15]))),
        Match(16, 20, Token(s[16..17], Some(s[18..20])))]
  {
    SpacedFrom8(s);
    SpacedGap7(s);
    ScanMiss(s, 7);
  }

  lemma SpacedFrom4(s: string)
    requires SpacedText(s)
    ensures ScanFrom(s, 4) == [
        Match(4, 7, Token(s[4..5], Some(s[6..7]))),
        Match(8, 11, Token(s[8..9], Some(s[10..11]))),
        Match(12, 15, Token(s[12..13], Some(s[14..15]))),
        Match(16, 20, Token(s[16..17], Some(s[18..20])))]
  {
    SpacedFrom7(s);
    SpacedAt4(s);
    ScanHit(s, 4, Match(4, 7, Token(s[4..5], Some(s[6..7]))));
  }

  lemma SpacedFrom3(s: string)
    requires SpacedText(s)
    ensures ScanFrom(s, 3) == [
        Match(4, 7, Token(s[4..5], Some(s[6..7]))),
        Match(8, 11, Token(s[8..9], Some(s[10..11]))),
        Match(12, 15, Token(s[12..13], Some(s[14..15]))),
        Match(16, 20, Token(s[16..17], Some(s[18..20])))]
  {
    SpacedFrom4(s);
    SpacedGap3(s);
    ScanMiss(s, 3);
  }

  lemma SpacedFrom0(s: string)
    requires SpacedText(s)
    ensures ScanFrom(s, 0) == [
        Match(0, 3, Token(s[0..1], Some(s[2..3]))),
        Match(4, 7, Token(s[4..5], Some(s[6..7]))),
        Match(8, 11, Token(s[8..9], Some(s[10..11]))),
        Match(12, 15, Token(s[12..13], Some(s[14..15]))),
        Match(16, 20, Token(s[16..17], Some(s[18..20])))]
  {
    SpacedFrom3(s);
    SpacedAt0(s);
    ScanHit(s, 0, Match(0, 3, Token(s[0..1], Some(s[2..3]))));
  }

  lemma SpacedSlices(s: string)
    requires SpacedText(s)
    ensures s[0..1] == "1"
    ensures s[2..3] == "d"
    ensures s[4..5] == "2"
    ensures s[6..7] == "h"
    ensures s[8..9] == "3"
    ensures s[10..11] == "m"
    ensures s[12..13] == "4"
    ensures s[14..15] == "s"
    ensures s[16..17] == "5"
    ensures s[18..20] == "ms"
    ensures s[0..3] == "1 d"
    ensures s[4..7] == "2 h"
    ensures s[8..11] == "3 m"
    ensures s[12..15] == "4 s"
    ensures s[16..20] == "5 ms"
  {
  }

  lemma SpacedTexts(s: string)
    requires SpacedText(s)
    ensures MatchedTexts(s) == ["1 d", "2 h", "3 m", "4 s", "5 ms"]
  {
    SpacedFrom0(s);
    TextsOfFive(s, [
        Match(0, 3, Token(s[0..1], Some(s[2..3]))),
        Match(4, 7, Token(s[4..5], Some(s[6..7]))),
        Match(8, 11, Token(s[8..9], Some(s[10..11]))),
        Match(12, 15, Token(s[12..13], Some(s[14..15]))),
        Match(16, 20, Token(s[16..17], Some(s[18..20])))]);
    SpacedSlices(s);
  }

  lemma SpacedChars0()
    ensures SPACED[0] == '1' && SPACED[1] == ' ' && SPACED[2] == 'd'
    ensures SPACED[3] == ' ' && SPACED[4] == '2' && SPACED[5] == ' '
  {
  }

  lemma SpacedChars6()
    ensures SPACED[6] == 'h' && SPACED[7] == ' ' && SPACED[8] == '3'
    ensures SPACED[9] == ' ' && SPACED[10] == 'm' && SPACED[11] == ' '
  {
  }

  lemma SpacedChars12()
    ensures SPACED[12] == '4' && SPACED[13] == ' ' && SPACED[14] == 's'
    ensures SPACED[15] == ' ' && SPACED[16] == '5' && SPACED[17] == ' '
  {
  }

  lemma SpacedChars18()
    ensures SPACED[18] == 'm' && SPACED[19] == 's'
  {
  }

  lemma SpacedGroups(s: string)
    requires SpacedText(s)
    ensures Tokens(s) == [
        Token(s[0..1], Some(s[2..3])),
        Token(s[4..5], Some(s[6..7])),
        Token(s[8..9], Some(s[10..11])),
        Token(s[12..13], Some(s[14..15])),
        Token(s[16..17], Some(s[18..20]))]
  {
    SpacedFrom0(s);
    TokensOfFive(s, [
        Match(0, 3, Token(s[0..1], Some(s[2..3]))),
        Match(4, 7, Token(s[4..5], Some(s[6..7]))),
        Match(8, 11, Token(s[8..9], Some(s[10..11]))),
        Match(12, 15, Token(s[12..13], Some(s[14..15]))),
        Match(16, 20, Token(s[16..17], Some(s[18..20])))]);
  }

  lemma SpacedTokens(s: string)
    requires SpacedText(s)
    ensures Tokens(s) == [
        Token("1", Some("d")),
        Token("2", Some("h")),
        Token("3", Some("m")),
        Token("4", Some("s")),
        Token("5", Some("ms"))]
  {
    SpacedGroups(s);
    SpacedSlices(s);
  }

  lemma SpacedTextIs()
    ensures SpacedText(SPACED)
  {
    SpacedChars0(); SpacedChars6(); SpacedChars12(); SpacedChars18();
  }

  /** A space between a quantity and its unit belongs to the match; the space after the unit does not. */
  lemma SpacedMatches()
    ensures MatchedTexts(SPACED) == ["1 d", "2 h", "3 m", "4 s", "5 ms"]
    ensures Tokens(SPACED) == [
        Token("1", Some("d")),
        Token("2", Some("h")),
        Token("3", Some("m")),
        Token("4", Some("s")),
        Token("5", Some("ms"))]
  {
    SpacedTextIs();
    SpacedTexts(SPACED);
    SpacedTokens(SPACED);
  }

  // ------------------------------------------------------------ "1.5 d 2.5 h 3.5 m 4.5 s 5.5 ms"

  const DOTTED := "1.5 d 2.5 h 3.5 m 4.5 s 5.5 ms"

  /** The text DOTTED, character by character. */
  predicate DottedText(s: string)
  {
    && |s| == 30
    && s[0] == '1' && s[1] == '.' && s[2] == '5' && s[3] == ' ' && s[4] == 'd' && s[5] == ' '
    && s[6] == '2' && s[7] == '.' && s[8] == '5' && s[9] == ' ' && s[10] == 'h' && s[11] == ' '
    && s[12] == '3' && s[13] == '.' && s[14] == '5' && s[15] == ' ' && s[16] == 'm' && s[17] == ' '
    && s[18] == '4' && s[19] == '.' && s[20] == '5' && s[21] == ' ' && s[22] == 's' && s[23] == ' '
    && s[24] == '5' && s[25] == '.' && s[26] == '5' && s[27] == ' ' && s[28] == 'm' && s[29] == 's'
  }

  lemma DottedAt0(s: string)
    requires DottedText(s)
    ensures MatchAt(s, 0) == Some(Match(0, 5, Token(s[0..3], Some(s[4..5]))))
  {
    DottedAt(s, 0, 5);
  }

  lemma DottedAt6(s: string)
    requires DottedText(s)
    ensures MatchAt(s, 6) == Some(Match(6, 11, Token(s[6..9], Some(s[10..11]))))
  {
    DottedAt(s, 6, 11);
  }

  lemma DottedAt12(s: string)
    requires DottedText(s)
    ensures MatchAt(s, 12) == Some(Match(12, 17, Token(s[12..15], Some(s[16..17]))))
  {
    DottedAt(s, 12, 17);
  }

  lemma DottedAt18(s: string)
    requires DottedText(s)
    ensures MatchAt(s, 18) == Some(Match(18, 23, Token(s[18..21], Some(s[22..23]))))
  {
    DottedAt(s, 18, 23);
  }

  lemma DottedAt24(s: string)
    requires DottedText(s)
    ensures MatchAt(s, 24) == Some(Match(24, 30, Token(s[24..27], Some(s[28..30]))))
  {
    DottedAt(s, 24, 30);
  }

  lemma DottedGap5(s: string)
    requires DottedText(s)
    ensures MatchAt(s, 5).None?
  {
    NoMatchAt(s, 5);
  }

  lemma DottedGap11(s: string)
    requires DottedText(s)
    ensures MatchAt(s, 11).None?
  {
    NoMatchAt(s, 11);
  }

  lemma DottedGap17(s: string)
    requires DottedText(s)
    ensures MatchAt(s, 17).None?
  {
    NoMatchAt(s, 17);
  }

  lemma DottedGap23(s: string)
    requires DottedText(s)
    ensures MatchAt(s, 23).None?
  {
    NoMatchAt(s, 23);
  }

  lemma DottedFrom24(s: string)
    requires DottedText(s)
    ensures ScanFrom(s, 24) == [Match(24, 30, Token(s[24..27], Some(s[28..30])))]
  {
    DottedAt24(s);
    ScanHit(s, 24, Match(24, 30, Token(s[24..27], Some(s[28..30]))));
  }

  lemma DottedFrom23(s: string)
    requires DottedText(s)
    ensures ScanFrom(s, 23) == [Match(24, 30, Token(s[24..27], Some(s[28..30])))]
  {
    DottedFrom24(s);
    DottedGap23(s);
    ScanMiss(s, 23);
  }

  lemma DottedFrom18(s: string)
    requires DottedText(s)
    ensures ScanFrom(s, 18) == [
        Match(18, 23, Token(s[18..21], Some(s[22..23]))),
        Match(24, 30, Token(s[24..27], Some(s[28..30])))]
  {
    DottedFrom23(s);
    DottedAt18(s);
    ScanHit(s, 18, Match(18, 23, Token(s[18..21], Some(s[22..23]))));
  }

  lemma DottedFrom17(s: string)
    requires DottedText(s)
    ensures ScanFrom(s, 17) == [
        Match(18, 23, Token(s[18..21], Some(s[22..23]))),
        Match(24, 30, Token(s[24..27], Some(s[28..30])))]
  {
    DottedFrom18(s);
    DottedGap17(s);
    ScanMiss(s, 17);
  }

  lemma DottedFrom12(s: string)
    requires DottedText(s)
    ensures ScanFrom(s, 12) == [
        Match(12, 17, Token(s[12..15], Some(s[16..17]))),
        Match(18, 23, Token(s[18..21], Some(s[22..23]))),
        Match(24, 30, Token(s[24..27], Some(s[28..30])))]
  {
    DottedFrom17(s);
    DottedAt12(s);
    ScanHit(s, 12, Match(12, 17, Token(s[12..15], Some(s[16..17]))));
  }

  lemma DottedFrom11(s: string)
    requires DottedText(s)
    ensures ScanFrom(s, 11) == [
        Match(12, 17, Token(s[12..15], Some(s[16..17]))),
        Match(18, 23, Token(s[18..21], Some(s[22..23]))),
        Match(24, 30, Token(s[24..27], Some(s[28..30])))]
  {
    DottedFrom12(s);
    DottedGap11(s);
    ScanMiss(s, 11);
  }

  lemma DottedFrom6(s: string)
    requires DottedText(s)
    ensures ScanFrom(s, 6) == [
        Match(6, 11, Token(s[6..9], Some(s[10..11]))),
        Match(12, 17, Token(s[12..15], Some(s[16..17]))),
        Match(18, 23, Token(s[18..21], Some(s[22..23]))),
        Match(24, 30, Token(s[24..27], Some(s[28..30])))]
  {
    DottedFrom11(s);
    DottedAt6(s);
    ScanHit(s, 6, Match(6, 11, Token(s[6..9], Some(s[10..11]))));
  }

  lemma DottedFrom5(s: string)
    requires DottedText(s)
    ensures ScanFrom(s, 5) == [
        Match(6, 11, Token(s[6..9], Some(s[10..11]))),
        Match(12, 17, Token(s[12..15], Some(s[16..17]))),
        Match(18, 23, Token(s[18..21], Some(s[22..23]))),
        Match(24, 30, Token(s[24..27], Some(s[28..30])))]
  {
    DottedFrom6(s);
    DottedGap5(s);
    ScanMiss(s, 5);
  }

  lemma DottedFrom0(s: string)
    requires DottedText(s)
    ensures ScanFrom(s, 0) == [
        Match(0, 5, Token(s[0..3], Some(s[4..5]))),
        Match(6, 11, Token(s[6..9], Some(s[10..11]))),
        Match(12, 17, Token(s[12..15], Some(s[16..17]))),
        Match(18, 23, Token(s[18..21], Some(s[22..23]))),
        Match(24, 30, Token(s[24..27], Some(s[28..30])))]
  {
    DottedFrom5(s);
    DottedAt0(s);
    ScanHit(s, 0, Match(0, 5, Token(s[0..3], Some(s[4..5]))));
  }

  lemma DottedSlices(s: string)
    requires DottedText(s)
    ensures s[0..3] == "1.5"
    ensures s[4..5] == "d"
    ensures s[6..9] == "2.5"
    ensures s[10..11] == "h"
    ensures s[12..15] == "3.5"
    ensures s[16..17] == "m"
    ensures s[18..21] == "4.5"
    ensures s[22..23] == "s"
    ensures s[24..27] == "5.5"
    ensures s[28..30] == "ms"
    ensures s[0..5] == "1.5 d"
    ensures s[6..11] == "2.5 h"
    ensures s[12..17] == "3.5 m"
    ensures s[18..23] == "4.5 s"
    ensures s[24..30] == "5.5 ms"
  {
  }

  lemma DottedTexts(s: string)
    requires DottedText(s)
    ensures MatchedTexts(s) == ["1.5 d", "2.5 h", "3.5 m", "4.5 s", "5.5 ms"]
  {
    DottedFrom0(s);
    TextsOfFive(s, [
        Match(0, 5, Token(s[0..3], Some(s[4..5]))),
        Match(6, 11, Token(s[6..9], Some(s[10..11]))),
        Match(12, 17, Token(s[12..15], Some(s[16..17]))),
        Match(18, 23, Token(s[18..21], Some(s[22..23]))),
        Match(24, 30, Token(s[24..27], Some(s[28..30])))]);
    DottedSlices(s);
  }

  lemma DottedChars0()
    ensures DOTTED[0] == '1' && DOTTED[1] == '.' && DOTTED[2] == '5'
    ensures DOTTED[3] == ' ' && DOTTED[4] == 'd' && DOTTED[5] == ' '
  {
  }

  lemma DottedChars6()
    ensures DOTTED[6] == '2' && DOTTED[7] == '.' && DOTTED[8] == '5'
    ensures DOTTED[9] == ' ' && DOTTED[10] == 'h' && DOTTED[11] == ' '
  {
  }

  lemma DottedChars12()
    ensures DOTTED[12] == '3' && DOTTED[13] == '.' && DOTTED[14] == '5'
    ensures DOTTED[15] == ' ' && DOTTED[16] == 'm' && DOTTED[17] == ' '
  {
  }

  lemma DottedChars18()
    ensures DOTTED[18] == '4' && DOTTED[19] == '.' && DOTTED[20] == '5'
    ensures DOTTED[21] == ' ' && DOTTED[22] == 's' && DOTTED[23] == ' '
  {
  }

  lemma DottedChars24()
    ensures DOTTED[24] == '5' && DOTTED[25] == '.' && DOTTED[26] == '5'
    ensures DOTTED[27] == ' ' && DOTTED[28] == 'm' && DOTTED[29] == 's'
  {
  }

  lemma DottedGroups(s: string)
    requires DottedText(s)
    ensures Tokens(s) == [
        Token(s[0..3], Some(s[4..5])),
        Token(s[6..9], Some(s[10..11])),
        Token(s[12..15], Some(s[16..17])),
        Token(s[18..21], Some(s[22..23])),
        Token(s[24..27], Some(s[28..30]))]
  {
    DottedFrom0(s);
    TokensOfFive(s, [
        Match(0, 5, Token(s[0..3], Some(s[4..5]))),
        Match(6, 11, Token(s[6..9], Some(s[10..11]))),
        Match(12, 17, Token(s[12..15], Some(s[16..17]))),
        Match(18, 23, Token(s[18..21], Some(s[22..23]))),
        Match(24, 30, Token(s[24..27], Some(s[28..30])))]);
  }

  lemma DottedTokens(s: string)
    requires DottedText(s)
    ensures Tokens(s) == [
        Token("1.5", Some("d")),
        Token("2.5", Some("h")),
        Token("3.5", Some("m")),
        Token("4.5", Some("s")),
        Token("5.5", Some("ms"))]
  {
    DottedGroups(s);
    DottedSlices(s);
  }

  lemma DottedTextIs()
    ensures DottedText(DOTTED)
  {
    DottedChars0(); DottedChars6(); DottedChars12(); DottedChars18(); DottedChars24();
  }

  /** Decimal quantities match together with their fraction. */
  lemma DottedMatches()
    ensures MatchedTexts(DOTTED) == ["1.5 d", "2.5 h", "3.5 m", "4.5 s", "5.5 ms"]
    ensures Tokens(DOTTED) == [
        Token("1.5", Some("d")),
        Token("2.5", Some("h")),
        Token("3.5", Some("m")),
        Token("4.5", Some("s")),
        Token("5.5", Some("ms"))]
  {
    DottedTextIs();
    DottedTexts(DOTTED);
    DottedTokens(DOTTED);
  }

  // ------------------------------------------------------------ "1 day"

  const ONE_DAY := "1 day"

  /** The text ONE_DAY, character by character. */
  predicate DayText(s: string)
  {
    && |s| == 5
    && s[0] == '1' && s[1] == ' ' && s[2] == 'd' && s[3] == 'a' && s[4] == 'y'
  }

  lemma DayAt0(s: string)
    requires DayText(s)
    ensures MatchAt(s, 0) == Some(Match(0, 5, Token(s[0..1], Some(s[2..5]))))
  {
    SpacedAt(s, 0, 5);
  }

  lemma DayFrom0(s: string)
    requires DayText(s)
    ensures ScanFrom(s, 0) == [Match(0, 5, Token(s[0..1], Some(s[2..5])))]
  {
    DayAt0(s);
    ScanHit(s, 0, Match(0, 5, Token(s[0..1], Some(s[2..5]))));
  }

  lemma DaySlices(s: string)
    requires DayText(s)
    ensures s[0..1] == "1"
    ensures s[2..5] == "day"
  {
  }

  lemma DayChars0()
    ensures ONE_DAY[0] == '1' && ONE_DAY[1] == ' ' && ONE_DAY[2] == 'd'
    ensures ONE_DAY[3] == 'a' && ONE_DAY[4] == 'y'
  {
  }

  lemma DayGroups(s: string)
    requires DayText(s)
    ensures Tokens(s) == [Token(s[0..1], Some(s[2..5]))]
  {
    DayFrom0(s);
    TokensOfOne(s, [Match(0, 5, Token(s[0..1], Some(s[2..5])))]);
  }

  lemma DayTokens(s: string)
    requires DayText(s)
    ensures Tokens(s) == [Token("1", Some("day"))]
  {
    DayGroups(s);
    DaySlices(s);
  }

  lemma DayTextIs()
    ensures DayText(ONE_DAY)
  {
    DayChars0();
  }

  /** The first match of "1 day" has quantity "1" and unit "day". */
  lemma DayGroup()
    ensures Tokens(ONE_DAY) == [Token("1", Some("day"))]
  {
    DayTextIs();
    DayTokens(ONE_DAY);
  }

  // ------------------------------------------------------------ "1.5 days"

  const DAYS := "1.5 days"

  /** The text DAYS, character by character. */
  predicate DaysText(s: string)
  {
    && |s| == 8
    && s[0] == '1' && s[1] == '.' && s[2] == '5' && s[3] == ' ' && s[4] == 'd' && s[5] == 'a'
    && s[6] == 'y' && s[7] == 's'
  }

  lemma DaysAt0(s: string)
    requires DaysText(s)
    ensures MatchAt(s, 0) == Some(Match(0, 8, Token(s[0..3], Some(s[4..8]))))
  {
    DottedAt(s, 0, 8);
  }

  lemma DaysFrom0(s: string)
    requires DaysText(s)
    ensures ScanFrom(s, 0) == [Match(0, 8, Token(s[0..3], Some(s[4..8])))]
  {
    DaysAt0(s);
    ScanHit(s, 0, Match(0, 8, Token(s[0..3], Some(s[4..8]))));
  }

  lemma DaysSlices(s: string)
    requires DaysText(s)
    ensures s[0..3] == "1.5"
    ensures s[4..8] == "days"
  {
  }

  lemma DaysChars0()
    ensures DAYS[0] == '1' && DAYS[1] == '.' && DAYS[2] == '5'
    ensures DAYS[3] == ' ' && DAYS[4] == 'd' && DAYS[5] == 'a'
  {
  }

  lemma DaysChars6()
    ensures DAYS[6] == 'y' && DAYS[7] == 's'
  {
  }

  lemma DaysGroups(s: string)
    requires DaysText(s)
    ensures Tokens(s) == [Token(s[0..3], Some(s[4..8]))]
  {
    DaysFrom0(s);
    TokensOfOne(s, [Match(0, 8, Token(s[0..3], Some(s[4..8])))]);
  }

  lemma DaysTokens(s: string)
    requires DaysText(s)
    ensures Tokens(s) == [Token("1.5", Some("days"))]
  {
    DaysGroups(s);
    DaysSlices(s);
  }

  lemma DaysTextIs()
    ensures DaysText(DAYS)
  {
    DaysChars0(); DaysChars6();
  }

  /** The first match of "1.5 days" has quantity "1.5" and unit "days". */
  lemma DaysGroup()
    ensures Tokens(DAYS) == [Token("1.5", Some("days"))]
  {
    DaysTextIs();
    DaysTokens(DAYS);
  }
}
