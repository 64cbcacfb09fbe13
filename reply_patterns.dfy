/**
 * The regular expressions the chat view runs over each reply of the Puzzle
 * Master, written as dedicated scanners: four score patterns that capture the
 * number written before "/6000", and eight case-insensitive phrases that
 * announce a solved puzzle.
 */
module ReplyPatterns {
  import opened Wrappers
  import opened Strings

  /** `s` has, at `i`, the lower-case literal `lit` up to case (the `/i` flag). */
  predicate FoldedAt(s: string, i: nat, lit: string)
  {
    i + |lit| <= |s| && forall k :: 0 <= k < |lit| ==> Fold(s[i + k]) == lit[k]
  }

  /** The class `[:\s]`. */
  predicate IsSeparator(c: char) { c == ':' || IsSpace(c) }

  /** The end of the run of `[:\s]` that starts at `i` (the greedy `[:\s]*`). */
  function SeparatorRunEnd(s: string, i: nat): (j: nat)
    requires i <= |s|
    ensures i <= j <= |s|
    ensures forall k :: i <= k < j ==> IsSeparator(s[k])
    ensures j < |s| ==> !IsSeparator(s[j])
    decreases |s| - i
  {
    if i < |s| && IsSeparator(s[i]) then SeparatorRunEnd(s, i + 1) else i
  }

  const Denominator: string := "/6000"

  /** The run of digits `s[j..k]` stands immediately before "/6000". */
  predicate AnnouncedAt(s: string, j: int, k: int)
  {
    0 <= j < k <= |s| && AllDigits(s[j..k]) && OccursAt(s, Denominator, k)
  }

  /** Somewhere in `s` a run of digits with value `n` stands immediately before "/6000". */
  ghost predicate Announces(s: string, n: nat)
  {
    exists j, k :: AnnouncedAt(s, j, k) && DigitsValue(s[j..k]) == n
  }

  /** Some digit stands immediately before "/6000" in `s`. */
  ghost predicate HasScoreMark(s: string)
  {
    exists k :: 0 < k && OccursAt(s, Denominator, k) && IsDigit(s[k - 1])
  }

  /**
   * A score regular expression: a label, then `[:\s]*`, then the captured
   * `(\d+)` and "/6000"; or the bare `(\d+)\/6000`.
   */
  datatype ScorePattern = Labelled(lead: string) | Bare

  /** The score patterns, in the order they are tried. */
  const ScorePatterns: seq<ScorePattern> :=
    [Labelled("puntuación total"), Labelled("tu puntuación"), Labelled("total"), Bare]

  const MaxScore: nat := 6000

  /** Where a capture lies: the digits `s[start..end]`. */
  datatype Span = Span(start: nat, end: nat)

  /**
   * `(\d+)\/6000` tried at `j`: the greedy run of digits from `j`, if it is
   * not empty and "/6000" follows it. A shorter run would be followed by a
   * digit, so backtracking finds nothing else.
   */
  function DigitsBeforeDenominator(s: string, j: nat): (r: Option<Span>)
    requires j <= |s|
    ensures r.Some? ==> r.value.start == j && AnnouncedAt(s, j, r.value.end)
  {
    var k := DigitRunEnd(s, j);
    if j < k && OccursAt(s, Denominator, k) then Some(Span(j, k)) else None
  }

  /** The capture of a match of `pattern` that starts at `i`, if there is one. */
  function CaptureAt(s: string, i: nat, pattern: ScorePattern): (r: Option<Span>)
    requires i <= |s|
    ensures r.Some? ==> i <= r.value.start && AnnouncedAt(s, r.value.start, r.value.end)
  {
    match pattern
    case Bare => DigitsBeforeDenominator(s, i)
    case Labelled(lead) =>
      if FoldedAt(s, i, lead) then DigitsBeforeDenominator(s, SeparatorRunEnd(s, i + |lead|)) else None
  }

  /** The leftmost match of `pattern` at or after `i` (`match` without the `g` flag). */
  function FirstCapture(s: string, pattern: ScorePattern, i: nat): (r: Option<Span>)
    requires i <= |s|
    ensures r.Some? ==> i <= r.value.start && AnnouncedAt(s, r.value.start, r.value.end)
    decreases |s| - i
  {
    if CaptureAt(s, i, pattern).Some? then CaptureAt(s, i, pattern)
    else if i == |s| then None
    else FirstCapture(s, pattern, i + 1)
  }

  /** `parseInt` of the captured digits. */
  function CapturedValue(s: string, span: Span): nat
    requires AnnouncedAt(s, span.start, span.end)
  {
    DigitsValue(s[span.start..span.end])
  }

  /**
   * The score accepted from `s` by the patterns from index `p` on: the first
   * pattern that matches and whose number is at most 6000. A pattern whose
   * leftmost number is larger is skipped, not searched further.
   */
  function AcceptedFrom(s: string, p: nat): (r: Option<nat>)
    ensures r.Some? ==> r.value <= MaxScore
    decreases |ScorePatterns| - p
  {
    if p >= |ScorePatterns| then None
    else
      var m := FirstCapture(s, ScorePatterns[p], 0);
      if m.Some? && CapturedValue(s, m.value) <= MaxScore then Some(CapturedValue(s, m.value))
      else AcceptedFrom(s, p + 1)
  }

  /** The score a reply announces, if the tracker accepts one. */
  function AcceptedScore(s: string): (r: Option<nat>)
    ensures r.Some? ==> r.value <= MaxScore && Announces(s, r.value)
  {
    AcceptedScoreAnnounced(s, 0);
    AcceptedFrom(s, 0)
  }

  /** No match of `pattern` starts in `[i, m)`. */
  ghost predicate NoCaptureBetween(s: string, pattern: ScorePattern, i: nat, m: nat)
  {
    forall m' :: i <= m' < m && m' <= |s| ==> CaptureAt(s, m', pattern).None?
  }

  /** When `FirstCapture` finds nothing, the pattern matches nowhere from `i` on. */
  lemma {:induction false} FirstCaptureNone(s: string, pattern: ScorePattern, i: nat)
    requires i <= |s| && FirstCapture(s, pattern, i).None?
    ensures NoCaptureBetween(s, pattern, i, |s| + 1)
    decreases |s| - i
  {
    if i < |s| {
      FirstCaptureNone(s, pattern, i + 1);
    }
  }

  /**
   * `FirstCapture` is the capture at the smallest position where the pattern
   * matches: it matches there, and nowhere between `i` and there.
   */
  lemma {:induction false} FirstCaptureLeftmost(s: string, pattern: ScorePattern, i: nat)
    requires i <= |s|
    ensures FirstCapture(s, pattern, i).Some? ==>
      exists m :: i <= m <= |s| && CaptureAt(s, m, pattern) == FirstCapture(s, pattern, i) && NoCaptureBetween(s, pattern, i, m)
    decreases |s| - i
  {
    if CaptureAt(s, i, pattern).Some? {
      assert NoCaptureBetween(s, pattern, i, i);
    } else if i < |s| {
      FirstCaptureLeftmost(s, pattern, i + 1);
      if FirstCapture(s, pattern, i + 1).Some? {
        var m :| i + 1 <= m <= |s| && CaptureAt(s, m, pattern) == FirstCapture(s, pattern, i + 1)
          && NoCaptureBetween(s, pattern, i + 1, m);
        assert NoCaptureBetween(s, pattern, i, m);
      }
    }
  }

  /**
   * An accepted score is at most 6000 and is written in the reply as digits
   * immediately before "/6000".
   */
  lemma {:induction false} AcceptedScoreAnnounced(s: string, p: nat)
    ensures AcceptedFrom(s, p).Some? ==> AcceptedFrom(s, p).value <= MaxScore && Announces(s, AcceptedFrom(s, p).value)
    decreases |ScorePatterns| - p
  {
    if p < |ScorePatterns| {
      var m := FirstCapture(s, ScorePatterns[p], 0);
      if m.Some? && CapturedValue(s, m.value) <= MaxScore {
        assert AnnouncedAt(s, m.value.start, m.value.end);
      } else {
        AcceptedScoreAnnounced(s, p + 1);
      }
    }
  }

  /**
   * A reply with no digit immediately before "/6000" (such as one that
   * announces a score out of 9000) yields no score.
   */
  lemma NoMarkNoScore(s: string)
    requires !HasScoreMark(s)
    ensures AcceptedScore(s) == None
  {
    AcceptedScoreAnnounced(s, 0);
    AnnouncementIsMark(s);
  }

  /** An announced number puts a digit immediately before "/6000". */
  lemma AnnouncementIsMark(s: string)
    ensures (exists n :: Announces(s, n)) ==> HasScoreMark(s)
  {
    if exists n :: Announces(s, n) {
      var n :| Announces(s, n);
      var j, k :| AnnouncedAt(s, j, k) && DigitsValue(s[j..k]) == n;
      assert IsDigit(s[j..k][k - j - 1]);
    }
  }

  /** A labelled pattern finds nothing where no character folds to the label's first letter. */
  lemma {:induction false} LabelAbsent(s: string, lead: string, i: nat)
    requires i <= |s| && lead != []
    requires forall m :: 0 <= m < |s| ==> Fold(s[m]) != lead[0]
    ensures FirstCapture(s, Labelled(lead), i) == None
    decreases |s| - i
  {
    if i < |s| {
      LabelAbsent(s, lead, i + 1);
    }
  }

  /** The bare announcement "N/6000" with N at most 6000 sets the score to N. */
  lemma BareAnnouncement(n: nat)
    requires n <= MaxScore
    ensures AcceptedScore(NatToString(n) + Denominator) == Some(n)
  {
    var d := NatToString(n);
    var s := d + Denominator;
    NoLettersInAnnouncement(d);
    LabelAbsent(s, "puntuación total", 0);
    LabelAbsent(s, "tu puntuación", 0);
    LabelAbsent(s, "total", 0);
    assert AcceptedFrom(s, 0) == AcceptedFrom(s, 1) == AcceptedFrom(s, 2) == AcceptedFrom(s, 3);
    NatToStringThenStop(n, Denominator);
    assert OccursAt(s, Denominator, |d|);
    assert CaptureAt(s, 0, Bare) == Some(Span(0, |d|));
    assert FirstCapture(s, Bare, 0) == Some(Span(0, |d|));
  }

  /** Digits and "/6000" contain no letter 'p' or 't' in either case. */
  lemma NoLettersInAnnouncement(d: string)
    requires AllDigits(d)
    ensures forall m :: 0 <= m < |d + Denominator| ==> Fold((d + Denominator)[m]) != 'p' && Fold((d + Denominator)[m]) != 't'
  {
    var s := d + Denominator;
    forall m | 0 <= m < |s| ensures Fold(s[m]) != 'p' && Fold(s[m]) != 't' {
      if m < |d| { assert IsDigit(s[m]); } else { assert s[m] == Denominator[m - |d|]; }
    }
  }

  /** Digits standing immediately before "/6000" from `j` are exactly what `(\d+)\/6000` captures at `j`. */
  lemma AnnouncementCaptured(s: string, j: nat, k: nat)
    requires AnnouncedAt(s, j, k)
    ensures DigitsBeforeDenominator(s, j) == Some(Span(j, k))
  {
    assert s[k] == s[k..k + |Denominator|][0];
    DigitRunEndAt(s, j, k);
  }

  /**
   * A labelled pattern matches at `i` when its label stands there, up to case,
   * and the separators after it lead to digits standing before "/6000".
   */
  lemma LabelledCaptured(s: string, i: nat, lead: string, k: nat)
    requires FoldedAt(s, i, lead) && AnnouncedAt(s, SeparatorRunEnd(s, i + |lead|), k)
    ensures CaptureAt(s, i, Labelled(lead)) == Some(Span(SeparatorRunEnd(s, i + |lead|), k))
  {
    AnnouncementCaptured(s, SeparatorRunEnd(s, i + |lead|), k);
  }

  /** A pattern that matches at some `m` from `i` on is found by `FirstCapture`. */
  lemma {:induction false} FirstCaptureFinds(s: string, pattern: ScorePattern, i: nat, m: nat)
    requires i <= m <= |s| && CaptureAt(s, m, pattern).Some?
    ensures FirstCapture(s, pattern, i).Some?
    decreases m - i
  {
    if CaptureAt(s, i, pattern).None? {
      FirstCaptureFinds(s, pattern, i + 1, m);
    }
  }

  /** Wherever a digit stands immediately before "/6000", the bare pattern finds a match. */
  lemma MarkFound(s: string)
    requires HasScoreMark(s)
    ensures FirstCapture(s, Bare, 0).Some?
  {
    var k :| 0 < k && OccursAt(s, Denominator, k) && IsDigit(s[k - 1]);
    assert AllDigits(s[k - 1..k]);
    AnnouncementCaptured(s, k - 1, k);
    FirstCaptureFinds(s, Bare, 0, k - 1);
  }

  /**
   * The digits `s[j..k]` form a whole number (no digit before them) and stand
   * before the only "/6000" of `s`.
   */
  ghost predicate SoleAnnouncementAt(s: string, j: nat, k: nat)
  {
    && AnnouncedAt(s, j, k)
    && (j == 0 || !IsDigit(s[j - 1]))
    && forall k' :: OccursAt(s, Denominator, k') ==> k' == k
  }

  /** A label ending in a letter, as every label of the score patterns does. */
  predicate EndsInNonDigit(pattern: ScorePattern)
  {
    pattern.Bare? || (pattern.lead != [] && !IsDigit(pattern.lead[|pattern.lead| - 1]))
  }

  /** A run of digits ending at `k` starts no earlier than a whole number `s[j..k]`. */
  lemma RunStartsWithin(s: string, j: nat, k: nat, a: nat)
    requires a <= k <= |s| && j <= k && AllDigits(s[a..k]) && (j == 0 || !IsDigit(s[j - 1]))
    ensures j <= a
  {
  }

  /** Inside the digits `s[j..k]`, the run ending at `k` can be extended by one. */
  lemma RunExtends(s: string, j: nat, k: nat, a: nat)
    requires j < a <= k <= |s| && AllDigits(s[j..k])
    ensures IsDigit(s[a - 1]) && AllDigits(s[a - 1..k])
  {
    assert IsDigit(s[j..k][a - 1 - j]);
    forall x | a - 1 <= x < k ensures IsDigit(s[x]) {
      assert s[x] == s[j..k][x - j];
    }
  }

  /** The digits a labelled pattern captures follow its label or a separator, never a digit. */
  lemma LabelledCaptureFollowsNonDigit(s: string, m: nat, pattern: ScorePattern)
    requires m <= |s| && pattern.Labelled? && EndsInNonDigit(pattern) && CaptureAt(s, m, pattern).Some?
    ensures 0 < CaptureAt(s, m, pattern).value.start && !IsDigit(s[CaptureAt(s, m, pattern).value.start - 1])
  {
    var lead := pattern.lead;
    var start := CaptureAt(s, m, pattern).value.start;
    assert start == SeparatorRunEnd(s, m + |lead|);
    if start == m + |lead| {
      assert Fold(s[m + (|lead| - 1)]) == lead[|lead| - 1];
    } else {
      assert IsSeparator(s[start - 1]);
    }
  }

  /** Where `s` holds a sole announcement, a labelled pattern captures its digits wherever it matches. */
  lemma {:induction false} LabelledFirstCapture(s: string, j: nat, k: nat, pattern: ScorePattern, i: nat)
    requires SoleAnnouncementAt(s, j, k) && pattern.Labelled? && EndsInNonDigit(pattern)
    requires i <= |s| && FirstCapture(s, pattern, i).Some?
    ensures FirstCapture(s, pattern, i).value == Span(j, k)
    decreases |s| - i
  {
    var c := CaptureAt(s, i, pattern);
    if c.Some? {
      assert c.value.end == k;
      RunStartsWithin(s, j, k, c.value.start);
      LabelledCaptureFollowsNonDigit(s, i, pattern);
      if c.value.start > j {
        RunExtends(s, j, k, c.value.start);
        assert false;
      }
    } else {
      LabelledFirstCapture(s, j, k, pattern, i + 1);
    }
  }

  /**
   * Where `s` holds a sole announcement, the bare pattern searched from any
   * position up to its digits captures exactly those digits.
   */
  lemma {:induction false} BareFirstCapture(s: string, j: nat, k: nat, i: nat)
    requires SoleAnnouncementAt(s, j, k) && i <= j
    ensures FirstCapture(s, Bare, i) == Some(Span(j, k))
    decreases j - i
  {
    AnnouncementCaptured(s, j, k);
    var c := CaptureAt(s, i, Bare);
    if c.Some? {
      assert c.value.end == k;
      RunStartsWithin(s, j, k, c.value.start);
    } else {
      BareFirstCapture(s, j, k, i + 1);
    }
  }

  /** The patterns from `p` on accept the sole announcement's number. */
  lemma {:induction false} SoleAnnouncementFrom(s: string, j: nat, k: nat, p: nat)
    requires SoleAnnouncementAt(s, j, k) && DigitsValue(s[j..k]) <= MaxScore
    requires p < |ScorePatterns|
    ensures AcceptedFrom(s, p) == Some(DigitsValue(s[j..k]))
    decreases |ScorePatterns| - p
  {
    var pattern := ScorePatterns[p];
    assert EndsInNonDigit(pattern);
    if pattern.Bare? {
      BareFirstCapture(s, j, k, 0);
    } else if FirstCapture(s, pattern, 0).Some? {
      LabelledFirstCapture(s, j, k, pattern, 0);
    } else {
      SoleAnnouncementFrom(s, j, k, p + 1);
    }
  }

  /**
   * A reply whose only "/6000" follows a whole number N of at most 6000 sets
   * the score to N, whatever text surrounds it ("Puntuación total: 450/6000"
   * gives 450): every pattern that matches captures those digits, and the
   * bare pattern always matches.
   */
  lemma SoleAnnouncementAccepted(s: string, j: nat, k: nat)
    requires SoleAnnouncementAt(s, j, k) && DigitsValue(s[j..k]) <= MaxScore
    ensures AcceptedScore(s) == Some(DigitsValue(s[j..k]))
  {
    SoleAnnouncementFrom(s, j, k, 0);
  }

  // ---- puzzle completion ----

  /** A completion regular expression: a phrase, or a phrase with `\d+` between two literals. */
  datatype CompletionPattern = Phrase(text: string) | Counted(before: string, after: string)
  {
    /** The literal text a match begins with. */
    function Lead(): string
    {
      match this
      case Phrase(text) => text
      case Counted(before, _) => before
    }
  }

  /** The completion patterns, all case-insensitive. */
  const CompletionPatterns: seq<CompletionPattern> := [
    Phrase("has superado esta prueba"),
    Counted("has ganado ", " puntos"),
    Phrase("¡milagro! has resuelto el enigma correctamente"),
    Phrase("bien hecho con"),
    Phrase("puedes pasar a la siguiente prueba"),
    Phrase("prepárate para sufrir más"),
    Phrase("continúa antes de que se te suba"),
    Phrase("vaya. no esperaba tanto de ti")
  ]

  /** `pattern` matches `s` at position `i`. */
  predicate CompletionAt(s: string, i: nat, pattern: CompletionPattern)
  {
    match pattern
    case Phrase(text) => FoldedAt(s, i, text)
    case Counted(before, after) =>
      FoldedAt(s, i, before) &&
      var k := DigitRunEnd(s, i + |before|);
      i + |before| < k && FoldedAt(s, k, after)
  }

  /** `pattern` matches somewhere in `s`. */
  predicate Matches(s: string, pattern: CompletionPattern)
  {
    exists i | 0 <= i <= |s| :: CompletionAt(s, i, pattern)
  }

  /** Some completion pattern matches somewhere in `s`. */
  predicate CompletionDetected(s: string)
  {
    exists q | 0 <= q < |CompletionPatterns| :: Matches(s, CompletionPatterns[q])
  }

  /** `s` holds the lower-case letter `c` in neither case. */
  predicate Lacks(s: string, c: char)
  {
    c !in s && Capital(c) !in s
  }

  /** A pattern cannot match a text that lacks one of the letters it begins with. */
  lemma MissingLetterNoMatch(s: string, pattern: CompletionPattern, k: nat)
    requires k < |pattern.Lead()| && IsLowerLetter(pattern.Lead()[k]) && Lacks(s, pattern.Lead()[k])
    ensures !Matches(s, pattern)
  {
    var c := pattern.Lead()[k];
    forall i | 0 <= i <= |s| ensures !CompletionAt(s, i, pattern) {
      if i + |pattern.Lead()| <= |s| {
        FoldedFrom(s[i + k], c);
        assert s[i + k] in s;
      }
    }
  }

  /**
   * A phrase that does not match either half of a text does not match the
   * whole when the second half begins with a character the phrase does not
   * contain (up to case): no match can straddle that character.
   */
  lemma PhraseNotAcross(a: string, b: string, text: string)
    requires !Matches(a, Phrase(text)) && !Matches(b, Phrase(text))
    requires b != [] && Fold(b[0]) !in text
    ensures !Matches(a + b, Phrase(text))
  {
    var s := a + b;
    forall i | 0 <= i <= |s| ensures !FoldedAt(s, i, text) {
      if i + |text| <= |s| {
        if i + |text| <= |a| {
          assert !CompletionAt(a, i, Phrase(text));
          var k :| 0 <= k < |text| && Fold(a[i + k]) != text[k];
          assert s[i + k] == a[i + k];
        } else if i >= |a| {
          assert !CompletionAt(b, i - |a|, Phrase(text));
          var k :| 0 <= k < |text| && Fold(b[i - |a| + k]) != text[k];
          assert s[i + k] == b[i - |a| + k];
        } else {
          var k := |a| - i;
          assert text[k] in text;
          assert s[i + k] == b[0];
        }
      }
    }
  }
}
