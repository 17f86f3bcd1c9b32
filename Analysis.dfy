/** The word-substitution analysis of `analyze_transcription_errors` in
    mer-lev.py: the reference and hypothesis word lists are paired position
    by position, every pair of two different non-empty words becomes a
    substitution record scored by `Similarity.Ratio`, and the report adds
    the error rate handed over by the alignment library and two word
    counts. */
module Analysis {
  import opened Similarity

  /** One entry of the `substitutions` list. */
  datatype Substitution = Substitution(
    reference: string,
    hypothesis: string,
    ratio: real,
    potentialPronunciationIssue: bool)

  /** The dictionary `analyze_transcription_errors` returns. */
  datatype Report = Report(
    mer: real,
    accuracy: real,
    substitutions: seq<Substitution>,
    totalWords: nat,
    correctWords: nat)

  /** How many pairs `zip` forms: it stops at the shorter list. */
  function ZipLength(reference: seq<string>, hypothesis: seq<string>): nat
  {
    if |reference| <= |hypothesis| then |reference| else |hypothesis|
  }

  /** A zipped pair is recorded when the words differ and neither is empty. */
  predicate IsSubstitutionPair(ref: string, hyp: string)
  {
    ref != hyp && ref != "" && hyp != ""
  }

  /** Similar spellings are flagged: the ratio reaches the threshold. */
  predicate IsPronunciationIssue(ratio: real, threshold: real)
  {
    ratio >= threshold
  }

  function Record(ref: string, hyp: string, threshold: real): Substitution
  {
    var ratio := Ratio(ref, hyp);
    Substitution(ref, hyp, ratio, IsPronunciationIssue(ratio, threshold))
  }

  /** The records of the first `n` zipped pairs, in order. */
  function SubstitutionsUpTo(reference: seq<string>, hypothesis: seq<string>, threshold: real, n: nat): seq<Substitution>
    requires n <= ZipLength(reference, hypothesis)
  {
    if n == 0 then []
    else
      SubstitutionsUpTo(reference, hypothesis, threshold, n - 1) +
      (if IsSubstitutionPair(reference[n - 1], hypothesis[n - 1])
       then [Record(reference[n - 1], hypothesis[n - 1], threshold)] else [])
  }

  /** The zipped positions below `n` that yield a record, in order. */
  function PositionsUpTo(reference: seq<string>, hypothesis: seq<string>, n: nat): seq<nat>
    requires n <= ZipLength(reference, hypothesis)
  {
    if n == 0 then []
    else
      PositionsUpTo(reference, hypothesis, n - 1) +
      (if IsSubstitutionPair(reference[n - 1], hypothesis[n - 1]) then [n - 1] else [])
  }

  function Substitutions(reference: seq<string>, hypothesis: seq<string>, threshold: real): seq<Substitution>
  {
    SubstitutionsUpTo(reference, hypothesis, threshold, ZipLength(reference, hypothesis))
  }

  function SubstitutionPositions(reference: seq<string>, hypothesis: seq<string>): seq<nat>
  {
    PositionsUpTo(reference, hypothesis, ZipLength(reference, hypothesis))
  }

  /** The number of equal pairs among the first `n` zipped pairs. */
  function MatchesUpTo(reference: seq<string>, hypothesis: seq<string>, n: nat): (c: nat)
    requires n <= ZipLength(reference, hypothesis)
    ensures c <= n
    ensures c == n <==> forall i :: 0 <= i < n ==> reference[i] == hypothesis[i]
  {
    if n == 0 then 0
    else MatchesUpTo(reference, hypothesis, n - 1) + (if reference[n - 1] == hypothesis[n - 1] then 1 else 0)
  }

  /** `correct_words`: the zipped pairs whose two words are equal. */
  function CorrectWords(reference: seq<string>, hypothesis: seq<string>): (c: nat)
    ensures c <= ZipLength(reference, hypothesis) <= |reference|
  {
    MatchesUpTo(reference, hypothesis, ZipLength(reference, hypothesis))
  }

  /** The report for the given word lists; `mer` is the error rate the
      alignment library computed for them. */
  function ReportOf(reference: seq<string>, hypothesis: seq<string>, mer: real, threshold: real): Report
  {
    Report(mer, 1.0 - mer, Substitutions(reference, hypothesis, threshold),
           |reference|, CorrectWords(reference, hypothesis))
  }

  /** `analyze_transcription_errors`, from the alignment library's word lists
      and error rate on: the loop over the zipped pairs appends one record
      per substitution. */
  method AnalyzeTranscriptionErrors(reference: seq<string>, hypothesis: seq<string>, mer: real, threshold: real)
    returns (report: Report)
    ensures report == ReportOf(reference, hypothesis, mer, threshold)
    ensures report.accuracy == 1.0 - report.mer
    ensures report.totalWords == |reference|
    ensures report.correctWords <= report.totalWords
    ensures forall s :: s in report.substitutions ==>
      IsSubstitutionPair(s.reference, s.hypothesis) &&
      0.0 <= s.ratio <= 1.0 &&
      s.potentialPronunciationIssue == (s.ratio >= threshold)
  {
    var substitutions: seq<Substitution> := [];
    for i := 0 to ZipLength(reference, hypothesis)
      invariant substitutions == SubstitutionsUpTo(reference, hypothesis, threshold, i)
    {
      var refWord, hypWord := reference[i], hypothesis[i];
      if refWord != hypWord && refWord != "" && hypWord != "" {
        var ratio := Ratio(refWord, hypWord);
        var isPronunciationIssue := ratio >= threshold;
        substitutions := substitutions + [Substitution(refWord, hypWord, ratio, isPronunciationIssue)];
      }
    }
    report := Report(mer, 1.0 - mer, substitutions, |reference|, CorrectWords(reference, hypothesis));
    SubstitutionsAreScoredPairs(reference, hypothesis, threshold);
  }

  /** The recorded positions below `n` are strictly increasing, and a
      position below `n` is recorded exactly when its pair is a
      substitution. */
  lemma {:induction false} PositionsAreSubstitutedPairs(reference: seq<string>, hypothesis: seq<string>, n: nat)
    requires n <= ZipLength(reference, hypothesis)
    ensures var pos := PositionsUpTo(reference, hypothesis, n);
      (forall k :: 0 <= k < |pos| ==> pos[k] < n) &&
      (forall k, l :: 0 <= k < l < |pos| ==> pos[k] < pos[l]) &&
      (forall i :: 0 <= i < n ==> (i in pos <==> IsSubstitutionPair(reference[i], hypothesis[i])))
  {
    if n > 0 {
      PositionsAreSubstitutedPairs(reference, hypothesis, n - 1);
    }
  }

  /** The `k`-th record is built from the pair at the `k`-th recorded position. */
  lemma {:induction false} RecordsFollowPositions(reference: seq<string>, hypothesis: seq<string>, threshold: real, n: nat)
    requires n <= ZipLength(reference, hypothesis)
    ensures var subs, pos := SubstitutionsUpTo(reference, hypothesis, threshold, n), PositionsUpTo(reference, hypothesis, n);
      |subs| == |pos| &&
      forall k :: 0 <= k < |pos| ==> pos[k] < n && subs[k] == Record(reference[pos[k]], hypothesis[pos[k]], threshold)
  {
    if n > 0 {
      RecordsFollowPositions(reference, hypothesis, threshold, n - 1);
    }
  }

  /** The substitution list is the filter of the zipped pairs, in order:
      its `k`-th record is the pair at the `k`-th substituted position, and
      the substituted positions are exactly the zipped positions holding two
      different non-empty words. */
  lemma SubstitutionsFilterZip(reference: seq<string>, hypothesis: seq<string>, threshold: real)
    ensures var subs, pos := Substitutions(reference, hypothesis, threshold), SubstitutionPositions(reference, hypothesis);
      |subs| == |pos| &&
      (forall k :: 0 <= k < |pos| ==>
        pos[k] < ZipLength(reference, hypothesis) &&
        subs[k] == Record(reference[pos[k]], hypothesis[pos[k]], threshold)) &&
      (forall k, l :: 0 <= k < l < |pos| ==> pos[k] < pos[l]) &&
      (forall i :: 0 <= i < ZipLength(reference, hypothesis) ==>
        (i in pos <==> IsSubstitutionPair(reference[i], hypothesis[i])))
  {
    var n := ZipLength(reference, hypothesis);
    PositionsAreSubstitutedPairs(reference, hypothesis, n);
    RecordsFollowPositions(reference, hypothesis, threshold, n);
  }

  /** Every record carries two different non-empty words, their ratio in
      [0, 1], and a flag set exactly when that ratio reaches the threshold. */
  lemma {:induction false} SubstitutionsAreScoredPairs(reference: seq<string>, hypothesis: seq<string>, threshold: real)
    ensures forall s :: s in Substitutions(reference, hypothesis, threshold) ==>
      IsSubstitutionPair(s.reference, s.hypothesis) &&
      s.ratio == Ratio(s.reference, s.hypothesis) &&
      0.0 <= s.ratio <= 1.0 &&
      s.potentialPronunciationIssue == (s.ratio >= threshold)
  {
    SubstitutionsFilterZip(reference, hypothesis, threshold);
    var subs, pos := Substitutions(reference, hypothesis, threshold), SubstitutionPositions(reference, hypothesis);
    forall s | s in subs
      ensures IsSubstitutionPair(s.reference, s.hypothesis)
    {
      var k :| 0 <= k < |subs| && subs[k] == s;
      assert pos[k] in pos;
    }
  }

  /** Lowering the threshold keeps every record's words and ratio and can
      only turn a flag from false to true. */
  lemma {:induction false} LowerThresholdOnlyAddsFlags(reference: seq<string>, hypothesis: seq<string>, low: real, high: real, n: nat)
    requires low <= high && n <= ZipLength(reference, hypothesis)
    ensures var lo, hi := SubstitutionsUpTo(reference, hypothesis, low, n), SubstitutionsUpTo(reference, hypothesis, high, n);
      |lo| == |hi| &&
      forall k :: 0 <= k < |lo| ==>
        lo[k].reference == hi[k].reference && lo[k].hypothesis == hi[k].hypothesis &&
        lo[k].ratio == hi[k].ratio &&
        (hi[k].potentialPronunciationIssue ==> lo[k].potentialPronunciationIssue)
  {
    if n > 0 {
      LowerThresholdOnlyAddsFlags(reference, hypothesis, low, high, n - 1);
    }
  }

  /** When no token is empty, every zipped pair is either correct or a
      substitution. */
  lemma {:induction false} CorrectPlusSubstitutedUpTo(reference: seq<string>, hypothesis: seq<string>, threshold: real, n: nat)
    requires n <= ZipLength(reference, hypothesis)
    requires forall i :: 0 <= i < n ==> reference[i] != "" && hypothesis[i] != ""
    ensures MatchesUpTo(reference, hypothesis, n) + |SubstitutionsUpTo(reference, hypothesis, threshold, n)| == n
  {
    if n > 0 {
      CorrectPlusSubstitutedUpTo(reference, hypothesis, threshold, n - 1);
    }
  }

  lemma CorrectPlusSubstituted(reference: seq<string>, hypothesis: seq<string>, threshold: real)
    requires forall i :: 0 <= i < |reference| ==> reference[i] != ""
    requires forall i :: 0 <= i < |hypothesis| ==> hypothesis[i] != ""
    ensures CorrectWords(reference, hypothesis) + |Substitutions(reference, hypothesis, threshold)|
      == ZipLength(reference, hypothesis)
  {
    CorrectPlusSubstitutedUpTo(reference, hypothesis, threshold, ZipLength(reference, hypothesis));
  }

  lemma {:induction false} NoSubstitutionsUpTo(reference: seq<string>, hypothesis: seq<string>, threshold: real, n: nat)
    requires n <= ZipLength(reference, hypothesis)
    requires forall i :: 0 <= i < n ==> !IsSubstitutionPair(reference[i], hypothesis[i])
    ensures SubstitutionsUpTo(reference, hypothesis, threshold, n) == []
  {
    if n > 0 {
      NoSubstitutionsUpTo(reference, hypothesis, threshold, n - 1);
    }
  }

  /** Identical word lists: nothing is substituted and every word is correct. */
  lemma IdenticalLists(words: seq<string>, threshold: real)
    ensures Substitutions(words, words, threshold) == []
    ensures CorrectWords(words, words) == |words|
  {
    NoSubstitutionsUpTo(words, words, threshold, |words|);
  }

  /** Same-length lists that differ at every position, with no empty word:
      every pair is a substitution and no word is correct. */
  lemma DisjointLists(reference: seq<string>, hypothesis: seq<string>, threshold: real)
    requires |reference| == |hypothesis|
    requires forall i :: 0 <= i < |reference| ==> IsSubstitutionPair(reference[i], hypothesis[i])
    ensures CorrectWords(reference, hypothesis) == 0
    ensures |Substitutions(reference, hypothesis, threshold)| == |reference|
  {
    CorrectPlusSubstituted(reference, hypothesis, threshold);
    NoMatchesUpTo(reference, hypothesis, |reference|);
  }

  /** The count of equal pairs is the number of zipped positions below `n`
      whose two words agree. */
  lemma {:induction false} MatchesUpToCountsEqualPositions(reference: seq<string>, hypothesis: seq<string>, n: nat)
    requires n <= ZipLength(reference, hypothesis)
    ensures MatchesUpTo(reference, hypothesis, n) == |set i | 0 <= i < n && reference[i] == hypothesis[i]|
  {
    if n > 0 {
      MatchesUpToCountsEqualPositions(reference, hypothesis, n - 1);
      var before := set i | 0 <= i < n - 1 && reference[i] == hypothesis[i];
      var upTo := set i | 0 <= i < n && reference[i] == hypothesis[i];
      if reference[n - 1] == hypothesis[n - 1] {
        assert upTo == before + {n - 1};
        assert n - 1 !in before;
      } else {
        assert upTo == before;
      }
    }
  }

  lemma {:induction false} NoMatchesUpTo(reference: seq<string>, hypothesis: seq<string>, n: nat)
    requires n <= ZipLength(reference, hypothesis)
    requires forall i :: 0 <= i < n ==> reference[i] != hypothesis[i]
    ensures MatchesUpTo(reference, hypothesis, n) == 0
  {
    if n > 0 {
      NoMatchesUpTo(reference, hypothesis, n - 1);
    }
  }

  /** An empty hypothesis pairs with nothing: no substitution, no correct word,
      and the reference still counts in full. */
  lemma EmptyHypothesis(reference: seq<string>, mer: real, threshold: real)
    ensures var r := ReportOf(reference, [], mer, threshold);
      r.substitutions == [] && r.correctWords == 0 && r.totalWords == |reference|
  {
  }
}
