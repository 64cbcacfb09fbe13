/**
 * What the tracker of the chat view sees in the endpoint's canned
 * congratulation: it announces "300/9000", which no score pattern reads, and
 * it contains none of the completion phrases.
 */
module CannedReplyScan {
  import opened Wrappers
  import opened Strings
  import opened ReplyPatterns
  import opened ChatRoute
  import opened QuestStorage
  import ScoreTracker

  /** A text lacks a character when each of its two parts does. */
  lemma NotInConcat(a: string, b: string, c: char)
    requires c !in a && c !in b
    ensures c !in a + b
  {
  }

  /** A text lacks a letter, in either case, when each of its two parts does. */
  lemma LacksConcat(a: string, b: string, c: char)
    requires Lacks(a, c) && Lacks(b, c)
    ensures Lacks(a + b, c)
  {
    NotInConcat(a, b, c);
    NotInConcat(a, b, Capital(c));
  }

  /** A letter every part lacks is absent from their concatenation. */
  lemma {:induction false} LacksJoin(parts: seq<string>, c: char)
    requires forall k | 0 <= k < |parts| :: Lacks(parts[k], c)
    ensures Lacks(Concat(parts), c)
  {
    if parts != [] {
      var front := parts[..|parts| - 1];
      assert forall k | 0 <= k < |front| :: front[k] == parts[k];
      LacksJoin(front, c);
      LacksConcat(Concat(front), parts[|parts| - 1], c);
    }
  }

  // The characters each piece of the congratulation lacks, in either case:
  // one lemma per piece and character keeps each proof small.

  lemma OpeningLacksH() ensures Lacks(CongratulationOpening, 'h') { LacksJoin(OpeningParts, 'h'); }
  lemma OpeningLacksF() ensures Lacks(CongratulationOpening, 'f') { LacksJoin(OpeningParts, 'f'); }
  lemma OpeningLacksU() ensures Lacks(CongratulationOpening, 'ú') { LacksJoin(OpeningParts, 'ú'); }
  lemma OpeningLacksY() ensures Lacks(CongratulationOpening, 'y') { LacksJoin(OpeningParts, 'y'); }
  lemma OpeningLacksG() ensures Lacks(CongratulationOpening, 'g') { LacksJoin(OpeningParts, 'g'); }
  lemma OpeningLacksSlash() ensures Lacks(CongratulationOpening, '/') { LacksJoin(OpeningParts, '/'); }

  lemma HistoryLacksH() ensures Lacks(CongratulationHistory, 'h') { LacksJoin(HistoryParts, 'h'); }
  lemma HistoryLacksF() ensures Lacks(CongratulationHistory, 'f') { LacksJoin(HistoryParts, 'f'); }
  lemma HistoryLacksU() ensures Lacks(CongratulationHistory, 'ú') { LacksJoin(HistoryParts, 'ú'); }
  lemma HistoryLacksY() ensures Lacks(CongratulationHistory, 'y') { LacksJoin(HistoryParts, 'y'); }
  lemma HistoryLacksB() ensures Lacks(CongratulationHistory, 'b') { LacksJoin(HistoryParts, 'b'); }
  lemma HistoryLacksSlash() ensures Lacks(CongratulationHistory, '/') { LacksJoin(HistoryParts, '/'); }

  lemma PointsLacksH() ensures Lacks(CongratulationPoints, 'h') { LacksJoin(PointsParts, 'h'); }
  lemma PointsLacksF() ensures Lacks(CongratulationPoints, 'f') { LacksJoin(PointsParts, 'f'); }
  lemma PointsLacksU() ensures Lacks(CongratulationPoints, 'ú') { LacksJoin(PointsParts, 'ú'); }
  lemma PointsLacksY() ensures Lacks(CongratulationPoints, 'y') { LacksJoin(PointsParts, 'y'); }
  lemma PointsLacksG() ensures Lacks(CongratulationPoints, 'g') { LacksJoin(PointsParts, 'g'); }
  lemma PointsLacksSlash() ensures Lacks(CongratulationPoints, '/') { LacksJoin(PointsParts, '/'); }

  lemma NextLacksH() ensures Lacks(CongratulationNext, 'h') { LacksJoin(NextParts, 'h'); }
  lemma NextLacksF() ensures Lacks(CongratulationNext, 'f') { LacksJoin(NextParts, 'f'); }
  lemma NextLacksU() ensures Lacks(CongratulationNext, 'ú') { LacksJoin(NextParts, 'ú'); }
  lemma NextLacksY() ensures Lacks(CongratulationNext, 'y') { LacksJoin(NextParts, 'y'); }
  lemma NextLacksT() ensures Lacks(CongratulationNext, 't') { LacksJoin(NextParts, 't'); }
  lemma NextLacksSlash() ensures Lacks(CongratulationNext, '/') { LacksJoin(NextParts, '/'); }

  lemma QuestionLacksH() ensures Lacks(CongratulationQuestion, 'h') { LacksJoin(QuestionParts, 'h'); }
  lemma QuestionLacksF() ensures Lacks(CongratulationQuestion, 'f') { LacksJoin(QuestionParts, 'f'); }
  lemma QuestionLacksU() ensures Lacks(CongratulationQuestion, 'ú') { LacksJoin(QuestionParts, 'ú'); }
  lemma QuestionLacksY() ensures Lacks(CongratulationQuestion, 'y') { LacksJoin(QuestionParts, 'y'); }
  lemma QuestionLacksB() ensures Lacks(CongratulationQuestion, 'b') { LacksJoin(QuestionParts, 'b'); }
  lemma QuestionLacksSlash() ensures Lacks(CongratulationQuestion, '/') { LacksJoin(QuestionParts, '/'); }

  /** A text whose only '/' begins "/9000" has no digit before "/6000". */
  lemma NoMarkAroundSlash(a: string, b: string)
    requires '/' !in a && '/' !in b
    ensures !HasScoreMark(a + "/9000" + b)
  {
    var d := "/9000";
    var s := a + d + b;
    forall k | 0 < k && k + |Denominator| <= |s| ensures !OccursAt(s, Denominator, k) {
      assert s[k..k + 5][0] == s[k] && s[k..k + 5][1] == s[k + 1];
      if k < |a| {
        assert s[k] == a[k] && a[k] in a;
      } else if k >= |a| + |d| {
        assert s[k] == b[k - |a| - |d|] && b[k - |a| - |d|] in b;
      } else if k == |a| {
        assert s[k + 1] == d[1];
      } else {
        assert s[k] == d[k - |a|];
      }
    }
  }

  /** The congratulation has no digit immediately before "/6000": its only '/' begins "/9000". */
  lemma CongratulationHasNoScoreMark()
    ensures !HasScoreMark(Congratulation)
  {
    var nl := "\n\n";
    OpeningLacksSlash();
    HistoryLacksSlash();
    PointsLacksSlash();
    NextLacksSlash();
    QuestionLacksSlash();
    assert Lacks(nl, '/');
    var a := CongratulationOpening + nl + CongratulationHistory + nl + CongratulationPoints;
    var b := nl + CongratulationNext + CongratulationQuestion;
    LacksConcat(CongratulationOpening, nl, '/');
    LacksConcat(CongratulationOpening + nl, CongratulationHistory, '/');
    LacksConcat(CongratulationOpening + nl + CongratulationHistory, nl, '/');
    LacksConcat(CongratulationOpening + nl + CongratulationHistory + nl, CongratulationPoints, '/');
    LacksConcat(nl, CongratulationNext, '/');
    LacksConcat(nl + CongratulationNext, CongratulationQuestion, '/');
    NoMarkAroundSlash(a, b);
    assert Congratulation == a + "/9000" + b;
  }

  /** The layout of the congratulation: a letter lacking from its pieces and its line breaks is lacking from it. */
  lemma LacksInLayout(o: string, h: string, p: string, d: string, n: string, q: string, c: char)
    requires Lacks(o, c) && Lacks(h, c) && Lacks(p, c) && Lacks(d, c) && Lacks(n, c) && Lacks(q, c)
    requires Lacks("\n\n", c)
    ensures Lacks(o + "\n\n" + h + "\n\n" + p + d + "\n\n" + n + q, c)
  {
    var nl := "\n\n";
    LacksConcat(o, nl, c);
    LacksConcat(o + nl, h, c);
    LacksConcat(o + nl + h, nl, c);
    LacksConcat(o + nl + h + nl, p, c);
    LacksConcat(o + nl + h + nl + p, d, c);
    LacksConcat(o + nl + h + nl + p + d, nl, c);
    LacksConcat(o + nl + h + nl + p + d + nl, n, c);
    LacksConcat(o + nl + h + nl + p + d + nl + n, q, c);
  }

  // The congratulation contains none of the letters 'h', 'f', 'ú' and 'y', in either case.

  lemma CongratulationLacksH()
    ensures Lacks(Congratulation, 'h')
  {
    OpeningLacksH(); HistoryLacksH(); PointsLacksH(); NextLacksH(); QuestionLacksH();
    assert Lacks(CongratulationDenominator, 'h') && Lacks("\n\n", 'h');
    LacksInLayout(CongratulationOpening, CongratulationHistory, CongratulationPoints,
      CongratulationDenominator, CongratulationNext, CongratulationQuestion, 'h');
  }

  lemma CongratulationLacksF()
    ensures Lacks(Congratulation, 'f')
  {
    OpeningLacksF(); HistoryLacksF(); PointsLacksF(); NextLacksF(); QuestionLacksF();
    assert Lacks(CongratulationDenominator, 'f') && Lacks("\n\n", 'f');
    LacksInLayout(CongratulationOpening, CongratulationHistory, CongratulationPoints,
      CongratulationDenominator, CongratulationNext, CongratulationQuestion, 'f');
  }

  lemma CongratulationLacksU()
    ensures Lacks(Congratulation, 'ú')
  {
    OpeningLacksU(); HistoryLacksU(); PointsLacksU(); NextLacksU(); QuestionLacksU();
    assert Lacks(CongratulationDenominator, 'ú') && Lacks("\n\n", 'ú');
    LacksInLayout(CongratulationOpening, CongratulationHistory, CongratulationPoints,
      CongratulationDenominator, CongratulationNext, CongratulationQuestion, 'ú');
  }

  lemma CongratulationLacksY()
    ensures Lacks(Congratulation, 'y')
  {
    OpeningLacksY(); HistoryLacksY(); PointsLacksY(); NextLacksY(); QuestionLacksY();
    assert Lacks(CongratulationDenominator, 'y') && Lacks("\n\n", 'y');
    LacksInLayout(CongratulationOpening, CongratulationHistory, CongratulationPoints,
      CongratulationDenominator, CongratulationNext, CongratulationQuestion, 'y');
  }

  /**
   * A phrase that matches none of five texts does not match their
   * concatenation when the last four begin with characters it lacks.
   */
  lemma PhraseNotAcrossFive(c1: string, c2: string, c3: string, c4: string, c5: string, text: string)
    requires !Matches(c1, Phrase(text)) && !Matches(c2, Phrase(text)) && !Matches(c3, Phrase(text))
    requires !Matches(c4, Phrase(text)) && !Matches(c5, Phrase(text))
    requires c2 != [] && c3 != [] && c4 != [] && c5 != []
    requires Fold(c2[0]) !in text && Fold(c3[0]) !in text && Fold(c4[0]) !in text && Fold(c5[0]) !in text
    ensures !Matches(c1 + (c2 + (c3 + (c4 + c5))), Phrase(text))
  {
    PhraseNotAcross(c4, c5, text);
    assert (c4 + c5)[0] == c4[0];
    PhraseNotAcross(c3, c4 + c5, text);
    assert (c3 + (c4 + c5))[0] == c3[0];
    PhraseNotAcross(c2, c3 + (c4 + c5), text);
    assert (c2 + (c3 + (c4 + c5)))[0] == c2[0];
    PhraseNotAcross(c1, c2 + (c3 + (c4 + c5)), text);
  }

  const PassOn: string := "puedes pasar a la siguiente prueba"

  /** The fifth completion pattern is the phrase. */
  lemma PassOnIsPattern() ensures CompletionPatterns[4] == Phrase(PassOn) { }

  /** Three letters of the phrase, by position. */
  lemma PassOnLetters() ensures |PassOn| == 34 && PassOn[20] == 'g' && PassOn[25] == 't' && PassOn[32] == 'b' { }

  /** The phrase holds no line break and no '¿', in either case. */
  lemma PassOnSeparators() ensures Fold('\n') !in PassOn && Fold('¿') !in PassOn { }

  /**
   * "puedes pasar a la siguiente prueba" does not occur in a text laid out
   * like the congratulation when each sentence lacks one of its letters: the
   * pieces are separated by characters the phrase does not contain.
   */
  lemma NotPassOnInLayout(o: string, h: string, p: string, d: string, n: string, q: string)
    requires Lacks(o, 'g') && Lacks(h, 'b') && Lacks(p, 'g') && Lacks(d, 'g') && Lacks(n, 't') && Lacks(q, 'b')
    requires q != [] && q[0] == '¿'
    ensures !Matches(o + "\n\n" + h + "\n\n" + p + d + "\n\n" + n + q, CompletionPatterns[4])
  {
    var phrase := PassOn;
    PassOnIsPattern();
    PassOnLetters();
    PassOnSeparators();
    var nl := "\n\n";
    assert Lacks(nl, 'b') && Lacks(nl, 'g') && Lacks(nl, 't');
    var c2 := nl + h;
    var c3 := nl + (p + d);
    var c4 := nl + n;
    LacksConcat(nl, h, 'b');
    LacksConcat(p, d, 'g');
    LacksConcat(nl, p + d, 'g');
    LacksConcat(nl, n, 't');
    MissingLetterNoMatch(o, Phrase(phrase), 20);
    MissingLetterNoMatch(c2, Phrase(phrase), 32);
    MissingLetterNoMatch(c3, Phrase(phrase), 20);
    MissingLetterNoMatch(c4, Phrase(phrase), 25);
    MissingLetterNoMatch(q, Phrase(phrase), 32);
    assert c2[0] == '\n' && c3[0] == '\n' && c4[0] == '\n';
    PhraseNotAcrossFive(o, c2, c3, c4, q, phrase);
    assert o + nl + h + nl + p + d + nl + n + q == o + (c2 + (c3 + (c4 + q)));
  }

  /** The congratulation does not say "puedes pasar a la siguiente prueba". */
  lemma CongratulationNotPassOn()
    ensures !Matches(Congratulation, CompletionPatterns[4])
  {
    OpeningLacksG();
    HistoryLacksB();
    PointsLacksG();
    NextLacksT();
    QuestionLacksB();
    assert Lacks(CongratulationDenominator, 'g');
    ConcatBeginsWithFirst(QuestionParts);
    assert CongratulationQuestion[0] == QuestionParts[0][0] == '¿';
    NotPassOnInLayout(CongratulationOpening, CongratulationHistory, CongratulationPoints,
      CongratulationDenominator, CongratulationNext, CongratulationQuestion);
  }

  /** "has superado esta prueba" needs a 'h'. */
  lemma CongratulationMisses0()
    ensures !Matches(Congratulation, CompletionPatterns[0])
  {
    CongratulationLacksH();
    assert CompletionPatterns[0].Lead()[0] == 'h';
    MissingLetterNoMatch(Congratulation, CompletionPatterns[0], 0);
  }

  /** "has ganado" needs a 'h'. */
  lemma CongratulationMisses1()
    ensures !Matches(Congratulation, CompletionPatterns[1])
  {
    CongratulationLacksH();
    assert CompletionPatterns[1].Lead()[0] == 'h';
    MissingLetterNoMatch(Congratulation, CompletionPatterns[1], 0);
  }

  /** "¡milagro! has resuelto el enigma correctamente" needs a 'h'. */
  lemma CongratulationMisses2()
    ensures !Matches(Congratulation, CompletionPatterns[2])
  {
    CongratulationLacksH();
    assert CompletionPatterns[2].Lead()[10] == 'h';
    MissingLetterNoMatch(Congratulation, CompletionPatterns[2], 10);
  }

  /** "bien hecho con" needs a 'h'. */
  lemma CongratulationMisses3()
    ensures !Matches(Congratulation, CompletionPatterns[3])
  {
    CongratulationLacksH();
    assert CompletionPatterns[3].Lead()[5] == 'h';
    MissingLetterNoMatch(Congratulation, CompletionPatterns[3], 5);
  }

  /** "prepárate para sufrir más" needs a 'f'. */
  lemma CongratulationMisses5()
    ensures !Matches(Congratulation, CompletionPatterns[5])
  {
    CongratulationLacksF();
    assert CompletionPatterns[5].Lead()[17] == 'f';
    MissingLetterNoMatch(Congratulation, CompletionPatterns[5], 17);
  }

  /** "continúa antes de que se te suba" needs a 'ú'. */
  lemma CongratulationMisses6()
    ensures !Matches(Congratulation, CompletionPatterns[6])
  {
    CongratulationLacksU();
    assert CompletionPatterns[6].Lead()[6] == 'ú';
    MissingLetterNoMatch(Congratulation, CompletionPatterns[6], 6);
  }

  /** "vaya. no esperaba tanto de ti" needs a 'y'. */
  lemma CongratulationMisses7()
    ensures !Matches(Congratulation, CompletionPatterns[7])
  {
    CongratulationLacksY();
    assert CompletionPatterns[7].Lead()[2] == 'y';
    MissingLetterNoMatch(Congratulation, CompletionPatterns[7], 2);
  }

  /** No completion phrase occurs in the congratulation. */
  lemma CongratulationCompletesNothing()
    ensures !CompletionDetected(Congratulation)
  {
    CongratulationMisses0();
    CongratulationMisses1();
    CongratulationMisses2();
    CongratulationMisses3();
    CongratulationNotPassOn();
    CongratulationMisses5();
    CongratulationMisses6();
    CongratulationMisses7();
  }

  /**
   * Fed to the tracker, the congratulation sets no score and counts no
   * puzzle: score, level, puzzle count and the saved keys stay as they were.
   */
  lemma CongratulationChangesNothing(store: Store, group: string, count: int)
    ensures AcceptedScore(Congratulation) == None
    ensures ScoreTracker.NextPuzzleCount(count, Congratulation) == count
    ensures ScoreTracker.PuzzleWrites(ScoreTracker.ScoreWrites(store, group, AcceptedScore(Congratulation)), group, count, Congratulation) == store
  {
    CongratulationHasNoScoreMark();
    ScoreTracker.UnmarkedReplyKeepsScore(store, group, Congratulation);
    CongratulationCompletesNothing();
  }

  /**
   * Delivered to the chat view, the congratulation writes no score, level or
   * puzzle key: the only write of the whole send step is the transcript.
   */
  lemma CongratulationReplyWritesNothing(store: Store, group: string, count: int)
    ensures ScoreTracker.AnswerText(ScoreTracker.Delivered(Congratulation)) == Congratulation
    ensures ScoreTracker.ReplyWrites(store, group, count, ScoreTracker.Delivered(Congratulation)) == store
  {
    ConcatBeginsWithFirst(OpeningParts);
    assert Congratulation[0] == CongratulationOpening[0];
    CongratulationChangesNothing(store, group, count);
  }
}
