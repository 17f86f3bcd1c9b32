/** The worked example shown on the page (mer-lev.py, lines 119-125):
    reference "I like to play baseball", hypothesis "I like to pray hockey",
    threshold 0.5. The edit distances are evaluated row by row of the
    dynamic program.

    The words and word lists enter the lemmas as parameters fixed by a
    `requires` (`a == "play"`) rather than as literals in the `ensures`:
    on literal arguments the verifier unfolds `Distance` and `Ratio`
    eagerly, and those proofs run out of resource. */
module Examples {
  import opened Similarity
  import opened Analysis

  lemma LowerOfLowercase(s: string)
    requires forall k :: 0 <= k < |s| ==> !('A' <= s[k] <= 'Z')
    ensures Lower(s) == s
  {
  }

  /** Rows 1 to 2 of the dynamic program for "play" and "pray". */
  lemma PlayPrayRows1To2(a: string, b: string)
    requires a == "play" && b == "pray"
    ensures Distance(a[..2], b[..0]) == 2 && Distance(a[..2], b[..1]) == 1 && Distance(a[..2], b[..2]) == 1 &&
      Distance(a[..2], b[..3]) == 2 && Distance(a[..2], b[..4]) == 3
  {
    assert Distance(a[..0], b[..0]) == 0;
    assert Distance(a[..0], b[..1]) == 1;
    assert Distance(a[..0], b[..2]) == 2;
    assert Distance(a[..0], b[..3]) == 3;
    assert Distance(a[..0], b[..4]) == 4;
    assert Distance(a[..1], b[..0]) == 1;
    assert Distance(a[..1], b[..1]) == 0 by { DistanceOfPrefixes(a, b, 1, 1); }
    assert Distance(a[..1], b[..2]) == 1 by { DistanceOfPrefixes(a, b, 1, 2); }
    assert Distance(a[..1], b[..3]) == 2 by { DistanceOfPrefixes(a, b, 1, 3); }
    assert Distance(a[..1], b[..4]) == 3 by { DistanceOfPrefixes(a, b, 1, 4); }
    assert Distance(a[..2], b[..0]) == 2;
    assert Distance(a[..2], b[..1]) == 1 by { DistanceOfPrefixes(a, b, 2, 1); }
    assert Distance(a[..2], b[..2]) == 1 by { DistanceOfPrefixes(a, b, 2, 2); }
    assert Distance(a[..2], b[..3]) == 2 by { DistanceOfPrefixes(a, b, 2, 3); }
    assert Distance(a[..2], b[..4]) == 3 by { DistanceOfPrefixes(a, b, 2, 4); }
  }

  /** Rows 3 to 4 of the dynamic program for "play" and "pray". */
  lemma PlayPrayRows3To4(a: string, b: string)
    requires a == "play" && b == "pray"
    ensures Distance(a[..4], b[..0]) == 4 && Distance(a[..4], b[..1]) == 3 && Distance(a[..4], b[..2]) == 3 &&
      Distance(a[..4], b[..3]) == 2 && Distance(a[..4], b[..4]) == 1
  {
    PlayPrayRows1To2(a, b);
    assert Distance(a[..3], b[..0]) == 3;
    assert Distance(a[..3], b[..1]) == 2 by { DistanceOfPrefixes(a, b, 3, 1); }
    assert Distance(a[..3], b[..2]) == 2 by { DistanceOfPrefixes(a, b, 3, 2); }
    assert Distance(a[..3], b[..3]) == 1 by { DistanceOfPrefixes(a, b, 3, 3); }
    assert Distance(a[..3], b[..4]) == 2 by { DistanceOfPrefixes(a, b, 3, 4); }
    assert Distance(a[..4], b[..0]) == 4;
    assert Distance(a[..4], b[..1]) == 3 by { DistanceOfPrefixes(a, b, 4, 1); }
    assert Distance(a[..4], b[..2]) == 3 by { DistanceOfPrefixes(a, b, 4, 2); }
    assert Distance(a[..4], b[..3]) == 2 by { DistanceOfPrefixes(a, b, 4, 3); }
    assert Distance(a[..4], b[..4]) == 1 by { DistanceOfPrefixes(a, b, 4, 4); }
  }

  lemma PlayPrayDistance(a: string, b: string)
    requires a == "play" && b == "pray"
    ensures Distance(a, b) == 1
  {
    PlayPrayRows3To4(a, b);
    assert a[..4] == a && b[..4] == b;
  }

  /** Row 1 of the dynamic program for "baseball" and "hockey". */
  lemma BaseballHockeyRow1(a: string, b: string)
    requires a == "baseball" && b == "hockey"
    ensures Distance(a[..1], b[..0]) == 1 && Distance(a[..1], b[..1]) == 1 && Distance(a[..1], b[..2]) == 2 &&
      Distance(a[..1], b[..3]) == 3 && Distance(a[..1], b[..4]) == 4 && Distance(a[..1], b[..5]) == 5 &&
      Distance(a[..1], b[..6]) == 6
  {
    assert Distance(a[..0], b[..0]) == 0;
    assert Distance(a[..0], b[..1]) == 1;
    assert Distance(a[..0], b[..2]) == 2;
    assert Distance(a[..0], b[..3]) == 3;
    assert Distance(a[..0], b[..4]) == 4;
    assert Distance(a[..0], b[..5]) == 5;
    assert Distance(a[..0], b[..6]) == 6;
    assert Distance(a[..1], b[..0]) == 1;
    assert Distance(a[..1], b[..1]) == 1 by { DistanceOfPrefixes(a, b, 1, 1); }
    assert Distance(a[..1], b[..2]) == 2 by { DistanceOfPrefixes(a, b, 1, 2); }
    assert Distance(a[..1], b[..3]) == 3 by { DistanceOfPrefixes(a, b, 1, 3); }
    assert Distance(a[..1], b[..4]) == 4 by { DistanceOfPrefixes(a, b, 1, 4); }
    assert Distance(a[..1], b[..5]) == 5 by { DistanceOfPrefixes(a, b, 1, 5); }
    assert Distance(a[..1], b[..6]) == 6 by { DistanceOfPrefixes(a, b, 1, 6); }
  }

  /** Row 2 of the dynamic program for "baseball" and "hockey". */
  lemma BaseballHockeyRow2(a: string, b: string)
    requires a == "baseball" && b == "hockey"
    ensures Distance(a[..2], b[..0]) == 2 && Distance(a[..2], b[..1]) == 2 && Distance(a[..2], b[..2]) == 2 &&
      Distance(a[..2], b[..3]) == 3 && Distance(a[..2], b[..4]) == 4 && Distance(a[..2], b[..5]) == 5 &&
      Distance(a[..2], b[..6]) == 6
  {
    BaseballHockeyRow1(a, b);
    assert Distance(a[..2], b[..0]) == 2;
    assert Distance(a[..2], b[..1]) == 2 by { DistanceOfPrefixes(a, b, 2, 1); }
    assert Distance(a[..2], b[..2]) == 2 by { DistanceOfPrefixes(a, b, 2, 2); }
    assert Distance(a[..2], b[..3]) == 3 by { DistanceOfPrefixes(a, b, 2, 3); }
    assert Distance(a[..2], b[..4]) == 4 by { DistanceOfPrefixes(a, b, 2, 4); }
    assert Distance(a[..2], b[..5]) == 5 by { DistanceOfPrefixes(a, b, 2, 5); }
    assert Distance(a[..2], b[..6]) == 6 by { DistanceOfPrefixes(a, b, 2, 6); }
  }

  /** Row 3 of the dynamic program for "baseball" and "hockey". */
  lemma BaseballHockeyRow3(a: string, b: string)
    requires a == "baseball" && b == "hockey"
    ensures Distance(a[..3], b[..0]) == 3 && Distance(a[..3], b[..1]) == 3 && Distance(a[..3], b[..2]) == 3 &&
      Distance(a[..3], b[..3]) == 3 && Distance(a[..3], b[..4]) == 4 && Distance(a[..3], b[..5]) == 5 &&
      Distance(a[..3], b[..6]) == 6
  {
    BaseballHockeyRow2(a, b);
    assert Distance(a[..3], b[..0]) == 3;
    assert Distance(a[..3], b[..1]) == 3 by { DistanceOfPrefixes(a, b, 3, 1); }
    assert Distance(a[..3], b[..2]) == 3 by { DistanceOfPrefixes(a, b, 3, 2); }
    assert Distance(a[..3], b[..3]) == 3 by { DistanceOfPrefixes(a, b, 3, 3); }
    assert Distance(a[..3], b[..4]) == 4 by { DistanceOfPrefixes(a, b, 3, 4); }
    assert Distance(a[..3], b[..5]) == 5 by { DistanceOfPrefixes(a, b, 3, 5); }
    assert Distance(a[..3], b[..6]) == 6 by { DistanceOfPrefixes(a, b, 3, 6); }
  }

  /** Row 4 of the dynamic program for "baseball" and "hockey". */
  lemma BaseballHockeyRow4(a: string, b: string)
    requires a == "baseball" && b == "hockey"
    ensures Distance(a[..4], b[..0]) == 4 && Distance(a[..4], b[..1]) == 4 && Distance(a[..4], b[..2]) == 4 &&
      Distance(a[..4], b[..3]) == 4 && Distance(a[..4], b[..4]) == 4 && Distance(a[..4], b[..5]) == 4 &&
      Distance(a[..4], b[..6]) == 5
  {
    BaseballHockeyRow3(a, b);
    assert Distance(a[..4], b[..0]) == 4;
    assert Distance(a[..4], b[..1]) == 4 by { DistanceOfPrefixes(a, b, 4, 1); }
    assert Distance(a[..4], b[..2]) == 4 by { DistanceOfPrefixes(a, b, 4, 2); }
    assert Distance(a[..4], b[..3]) == 4 by { DistanceOfPrefixes(a, b, 4, 3); }
    assert Distance(a[..4], b[..4]) == 4 by { DistanceOfPrefixes(a, b, 4, 4); }
    assert Distance(a[..4], b[..5]) == 4 by { DistanceOfPrefixes(a, b, 4, 5); }
    assert Distance(a[..4], b[..6]) == 5 by { DistanceOfPrefixes(a, b, 4, 6); }
  }

  /** Row 5 of the dynamic program for "baseball" and "hockey". */
  lemma BaseballHockeyRow5(a: string, b: string)
    requires a == "baseball" && b == "hockey"
    ensures Distance(a[..5], b[..0]) == 5 && Distance(a[..5], b[..1]) == 5 && Distance(a[..5], b[..2]) == 5 &&
      Distance(a[..5], b[..3]) == 5 && Distance(a[..5], b[..4]) == 5 && Distance(a[..5], b[..5]) == 5 &&
      Distance(a[..5], b[..6]) == 5
  {
    BaseballHockeyRow4(a, b);
    assert Distance(a[..5], b[..0]) == 5;
    assert Distance(a[..5], b[..1]) == 5 by { DistanceOfPrefixes(a, b, 5, 1); }
    assert Distance(a[..5], b[..2]) == 5 by { DistanceOfPrefixes(a, b, 5, 2); }
    assert Distance(a[..5], b[..3]) == 5 by { DistanceOfPrefixes(a, b, 5, 3); }
    assert Distance(a[..5], b[..4]) == 5 by { DistanceOfPrefixes(a, b, 5, 4); }
    assert Distance(a[..5], b[..5]) == 5 by { DistanceOfPrefixes(a, b, 5, 5); }
    assert Distance(a[..5], b[..6]) == 5 by { DistanceOfPrefixes(a, b, 5, 6); }
  }

  /** Row 6 of the dynamic program for "baseball" and "hockey". */
  lemma BaseballHockeyRow6(a: string, b: string)
    requires a == "baseball" && b == "hockey"
    ensures Distance(a[..6], b[..0]) == 6 && Distance(a[..6], b[..1]) == 6 && Distance(a[..6], b[..2]) == 6 &&
      Distance(a[..6], b[..3]) == 6 && Distance(a[..6], b[..4]) == 6 && Distance(a[..6], b[..5]) == 6 &&
      Distance(a[..6], b[..6]) == 6
  {
    BaseballHockeyRow5(a, b);
    assert Distance(a[..6], b[..0]) == 6;
    assert Distance(a[..6], b[..1]) == 6 by { DistanceOfPrefixes(a, b, 6, 1); }
    assert Distance(a[..6], b[..2]) == 6 by { DistanceOfPrefixes(a, b, 6, 2); }
    assert Distance(a[..6], b[..3]) == 6 by { DistanceOfPrefixes(a, b, 6, 3); }
    assert Distance(a[..6], b[..4]) == 6 by { DistanceOfPrefixes(a, b, 6, 4); }
    assert Distance(a[..6], b[..5]) == 6 by { DistanceOfPrefixes(a, b, 6, 5); }
    assert Distance(a[..6], b[..6]) == 6 by { DistanceOfPrefixes(a, b, 6, 6); }
  }

  /** Row 7 of the dynamic program for "baseball" and "hockey". */
  lemma BaseballHockeyRow7(a: string, b: string)
    requires a == "baseball" && b == "hockey"
    ensures Distance(a[..7], b[..0]) == 7 && Distance(a[..7], b[..1]) == 7 && Distance(a[..7], b[..2]) == 7 &&
      Distance(a[..7], b[..3]) == 7 && Distance(a[..7], b[..4]) == 7 && Distance(a[..7], b[..5]) == 7 &&
      Distance(a[..7], b[..6]) == 7
  {
    BaseballHockeyRow6(a, b);
    assert Distance(a[..7], b[..0]) == 7;
    assert Distance(a[..7], b[..1]) == 7 by { DistanceOfPrefixes(a, b, 7, 1); }
    assert Distance(a[..7], b[..2]) == 7 by { DistanceOfPrefixes(a, b, 7, 2); }
    assert Distance(a[..7], b[..3]) == 7 by { DistanceOfPrefixes(a, b, 7, 3); }
    assert Distance(a[..7], b[..4]) == 7 by { DistanceOfPrefixes(a, b, 7, 4); }
    assert Distance(a[..7], b[..5]) == 7 by { DistanceOfPrefixes(a, b, 7, 5); }
    assert Distance(a[..7], b[..6]) == 7 by { DistanceOfPrefixes(a, b, 7, 6); }
  }

  /** Row 8 of the dynamic program for "baseball" and "hockey". */
  lemma BaseballHockeyRow8(a: string, b: string)
    requires a == "baseball" && b == "hockey"
    ensures Distance(a[..8], b[..0]) == 8 && Distance(a[..8], b[..1]) == 8 && Distance(a[..8], b[..2]) == 8 &&
      Distance(a[..8], b[..3]) == 8 && Distance(a[..8], b[..4]) == 8 && Distance(a[..8], b[..5]) == 8 &&
      Distance(a[..8], b[..6]) == 8
  {
    BaseballHockeyRow7(a, b);
    assert Distance(a[..8], b[..0]) == 8;
    assert Distance(a[..8], b[..1]) == 8 by { DistanceOfPrefixes(a, b, 8, 1); }
    assert Distance(a[..8], b[..2]) == 8 by { DistanceOfPrefixes(a, b, 8, 2); }
    assert Distance(a[..8], b[..3]) == 8 by { DistanceOfPrefixes(a, b, 8, 3); }
    assert Distance(a[..8], b[..4]) == 8 by { DistanceOfPrefixes(a, b, 8, 4); }
    assert Distance(a[..8], b[..5]) == 8 by { DistanceOfPrefixes(a, b, 8, 5); }
    assert Distance(a[..8], b[..6]) == 8 by { DistanceOfPrefixes(a, b, 8, 6); }
  }

  lemma BaseballHockeyDistance(a: string, b: string)
    requires a == "baseball" && b == "hockey"
    ensures Distance(a, b) == 8
  {
    BaseballHockeyRow8(a, b);
    assert a[..8] == a && b[..6] == b;
  }

  /** "play" and "pray" are one edit apart: ratio 3/4, flagged at 0.5. */
  lemma PlayPrayRatio(a: string, b: string)
    requires a == "play" && b == "pray"
    ensures Ratio(a, b) == 0.75 && IsPronunciationIssue(Ratio(a, b), 0.5)
  {
    LowerOfLowercase(a);
    LowerOfLowercase(b);
    PlayPrayDistance(a, b);
  }

  /** "baseball" and "hockey" need eight edits: ratio 0, not flagged at 0.5. */
  lemma BaseballHockeyRatio(a: string, b: string)
    requires a == "baseball" && b == "hockey"
    ensures Ratio(a, b) == 0.0 && !IsPronunciationIssue(Ratio(a, b), 0.5)
  {
    LowerOfLowercase(a);
    LowerOfLowercase(b);
    BaseballHockeyDistance(a, b);
  }

  /** Five zipped pairs of which the first three are equal and the last two
      are substitutions: two records, in order, and three correct words. */
  lemma ThreeMatchesThenTwoSubstitutions(reference: seq<string>, hypothesis: seq<string>, threshold: real)
    requires |reference| == 5 && |hypothesis| == 5
    requires forall i :: 0 <= i < 3 ==> reference[i] == hypothesis[i]
    requires IsSubstitutionPair(reference[3], hypothesis[3])
    requires IsSubstitutionPair(reference[4], hypothesis[4])
    ensures Substitutions(reference, hypothesis, threshold) ==
      [Record(reference[3], hypothesis[3], threshold), Record(reference[4], hypothesis[4], threshold)]
    ensures CorrectWords(reference, hypothesis) == 3
  {
    assert ZipLength(reference, hypothesis) == 5;
    NoSubstitutionsUpTo(reference, hypothesis, threshold, 3);
    assert MatchesUpTo(reference, hypothesis, 3) == 3;
    assert MatchesUpTo(reference, hypothesis, 4) == 3;
    assert MatchesUpTo(reference, hypothesis, 5) == 3;
    var first, second := Record(reference[3], hypothesis[3], threshold), Record(reference[4], hypothesis[4], threshold);
    assert SubstitutionsUpTo(reference, hypothesis, threshold, 4) == [first];
    assert SubstitutionsUpTo(reference, hypothesis, threshold, 5) == [first] + [second];
  }

  /** The whole report of the example: two substitutions in order, three of
      five words correct, whatever error rate the alignment library gives. */
  lemma DocumentedExample(reference: seq<string>, hypothesis: seq<string>, mer: real)
    requires reference == ["I", "like", "to", "play", "baseball"]
    requires hypothesis == ["I", "like", "to", "pray", "hockey"]
    ensures var r := ReportOf(reference, hypothesis, mer, 0.5);
      r.substitutions == [Substitution("play", "pray", 0.75, true), Substitution("baseball", "hockey", 0.0, false)] &&
      r.correctWords == 3 && r.totalWords == 5 && r.accuracy == 1.0 - mer
  {
    assert forall i :: 0 <= i < 3 ==> reference[i] == hypothesis[i];
    assert reference[3][1] != hypothesis[3][1];
    assert |reference[4]| != |hypothesis[4]|;
    ThreeMatchesThenTwoSubstitutions(reference, hypothesis, 0.5);
    PlayPrayRatio(reference[3], hypothesis[3]);
    BaseballHockeyRatio(reference[4], hypothesis[4]);
  }
}
