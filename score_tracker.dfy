/**
 * The game-state tracker of the chat view: the transcript, the score and its
 * level, the number of completed puzzles, and the group-scoped keys they are
 * saved under.
 *
 * The pure functions below say what each step computes; the class
 * `QuestChat` holds the component's state and performs the steps in place.
 */
module ScoreTracker {
  import opened Wrappers
  import opened Strings
  import opened QuestStorage
  import opened ReplyPatterns
  import ChatRoute

  // ----- Levels -----

  const Novice: string := "Novato curioso"
  const Investigator: string := "Investigador aplicado"
  const Master: string := "Maestro notable"
  const Legend: string := "Leyenda absoluta"

  /** The level a score earns: thresholds 9, 7 and 4, highest first. */
  function GetLevelFromScore(score: int): (level: string)
    ensures level == Legend <==> score >= 9
    ensures level == Master <==> 7 <= score < 9
    ensures level == Investigator <==> 4 <= score < 7
    ensures level == Novice <==> score < 4
  {
    if score >= 9 then Legend
    else if score >= 7 then Master
    else if score >= 4 then Investigator
    else Novice
  }

  /** The position of a level in the ladder, from 0 for the lowest. */
  function Rank(level: string): nat
  {
    if level == Legend then 3
    else if level == Master then 2
    else if level == Investigator then 1
    else 0
  }

  /** A higher score never earns a lower level. */
  lemma LevelMonotone(a: int, b: int)
    requires a <= b
    ensures Rank(GetLevelFromScore(a)) <= Rank(GetLevelFromScore(b))
  {
  }

  /**
   * The thresholds are applied as written to a score out of 6000: every
   * accepted score from 9 on earns the top level.
   */
  lemma LevelSaturates(score: nat)
    requires 9 <= score <= MaxScore
    ensures GetLevelFromScore(score) == Legend
    ensures forall other: int :: other <= score ==> Rank(GetLevelFromScore(other)) <= Rank(GetLevelFromScore(score))
  {
  }

  // ----- One reply: score and puzzles -----

  const MaxPuzzles: int := 12

  /**
   * The puzzle count after a reply: when a completion phrase occurs, the
   * count becomes min(count + 1, 12) if that is larger, and otherwise stays.
   */
  function NextPuzzleCount(count: int, reply: string): (r: int)
    ensures !CompletionDetected(reply) ==> r == count
    ensures CompletionDetected(reply) && count < MaxPuzzles ==> r == count + 1
    ensures count >= MaxPuzzles ==> r == count
    ensures count <= MaxPuzzles ==> r <= MaxPuzzles
  {
    var next := if count + 1 < MaxPuzzles then count + 1 else MaxPuzzles;
    if CompletionDetected(reply) && next > count then next else count
  }

  /** The score key and the level key of a group differ. */
  lemma ScoreAndLevelKeysDiffer(group: string)
    ensures ScoreKey(group) != LevelKey(group)
  {
    var n := |KeyPrefix + group|;
    assert ScoreKey(group)[n + 1] == 's' && LevelKey(group)[n + 1] == 'l';
  }

  /** The store after an accepted score is saved: its text under `-score`, its level under `-level`. */
  function ScoreWrites(store: Store, group: string, accepted: Option<nat>): (r: Store)
    ensures accepted.None? ==> r == store
    ensures accepted.Some? ==> r.Keys == store.Keys + {ScoreKey(group), LevelKey(group)}
    ensures accepted.Some? ==> r[ScoreKey(group)] == NatToString(accepted.value)
    ensures accepted.Some? ==> r[LevelKey(group)] == GetLevelFromScore(accepted.value)
    ensures forall k | k in store && k != ScoreKey(group) && k != LevelKey(group) :: r[k] == store[k]
  {
    match accepted
    case None => store
    case Some(n) =>
      ScoreAndLevelKeysDiffer(group);
      store[ScoreKey(group) := NatToString(n)][LevelKey(group) := GetLevelFromScore(n)]
  }

  /** The store after a reply is checked for completion: the new count is saved only when it grew. */
  function PuzzleWrites(store: Store, group: string, count: int, reply: string): (r: Store)
    ensures NextPuzzleCount(count, reply) <= count ==> r == store
    ensures NextPuzzleCount(count, reply) > count ==> r.Keys == store.Keys + {PuzzlesKey(group)}
    ensures NextPuzzleCount(count, reply) > count ==> r[PuzzlesKey(group)] == IntToString(NextPuzzleCount(count, reply))
    ensures forall k | k in store && k != PuzzlesKey(group) :: r[k] == store[k]
  {
    var next := NextPuzzleCount(count, reply);
    if next > count then store[PuzzlesKey(group) := IntToString(next)] else store
  }

  /** A reply with no digit before "/6000" leaves the saved score and level alone. */
  lemma UnmarkedReplyKeepsScore(store: Store, group: string, reply: string)
    requires !HasScoreMark(reply)
    ensures AcceptedScore(reply) == None
    ensures ScoreWrites(store, group, AcceptedScore(reply)) == store
  {
    NoMarkNoScore(reply);
  }

  /** At the cap a completion phrase changes nothing: no count grows and no key is written. */
  lemma CapReached(store: Store, group: string, count: int, reply: string)
    requires count >= MaxPuzzles
    ensures NextPuzzleCount(count, reply) == count
    ensures PuzzleWrites(store, group, count, reply) == store
  {
  }

  // ----- Loading a saved session -----

  /** A number read back from `key`: applied only when the key is truthy and parses. */
  function LoadedNumber(store: Store, key: string, current: int): (r: int)
    ensures Truthy(store, key) && ParseInt(store[key]).Some? ==> r == ParseInt(store[key]).value
    ensures !(Truthy(store, key) && ParseInt(store[key]).Some?) ==> r == current
  {
    if Truthy(store, key) then
      match ParseInt(store[key])
      case Some(n) => n
      case None => current
    else current
  }

  /** The level read back: applied verbatim when the key is truthy. */
  function LoadedLevel(store: Store, group: string, current: string): (r: string)
    ensures Truthy(store, LevelKey(group)) ==> r == store[LevelKey(group)]
    ensures !Truthy(store, LevelKey(group)) ==> r == current
  {
    if Truthy(store, LevelKey(group)) then store[LevelKey(group)] else current
  }

  /** The welcome message's text, which names the group. */
  function WelcomeText(group: string): string
  {
    WelcomeOpening + group + WelcomeClosing
  }

  const WelcomeOpening: string :=
    "¡Hola, mis queridos aventureros! Soy el Maestro del Enigma, vuestro guía en Málaga Quest - Zona Vialia." +
    "\n\n" + "Grupo \""

  const WelcomeClosing: string :=
    "\", ¿verdad? Perfecto. Espero que tengáis las neuronas bien engrasadas porque os espera una aventura de primera." +
    "\n\n" +
    "¿Habéis venido desde el Centro Histórico? ¡Vaya, vaya! Pues aquí las cosas son diferentes. Más urbanas, más modernas, pero igual de retorcidas." +
    "\n\n" +
    "¿Estáis listos para empezar? Escribid \"EMPEZAR\" y os daré vuestra primera prueba. ¡Que empiece el espectáculo!"

  /** The welcome message greets the group by name. */
  lemma WelcomeNamesGroup(group: string)
    ensures OccursAt(WelcomeText(group), group, |WelcomeOpening|)
  {
    assert WelcomeText(group)[|WelcomeOpening|..|WelcomeOpening| + |group|] == group;
  }

  /** The welcome message a new session starts with, sent at `now`. */
  function WelcomeMessage(group: string, now: nat): (m: Message)
    ensures m.role == Assistant && m.timestamp == now
    ensures OccursAt(m.content, group, |WelcomeOpening|)
  {
    WelcomeNamesGroup(group);
    Message(Assistant, WelcomeText(group), now)
  }

  /**
   * The transcript after loading: a truthy saved transcript is decoded (and on
   * failure the current one stays); without one, the welcome message alone.
   */
  function LoadedTranscript(store: Store, group: string, codec: TranscriptCodec, current: seq<Message>, now: nat): (r: seq<Message>)
    ensures !Truthy(store, TranscriptKey(group)) ==> r == [WelcomeMessage(group, now)]
    ensures Truthy(store, TranscriptKey(group)) && codec.decode(store[TranscriptKey(group)]).None? ==> r == current
    ensures Truthy(store, TranscriptKey(group)) && codec.decode(store[TranscriptKey(group)]).Some? ==>
      r == codec.decode(store[TranscriptKey(group)]).value
  {
    if Truthy(store, TranscriptKey(group)) then
      match codec.decode(store[TranscriptKey(group)])
      case Some(t) => t
      case None => current
    else [WelcomeMessage(group, now)]
  }

  /** The store after the transcript is saved: only a non-empty transcript is written. */
  function Persisted(store: Store, group: string, codec: TranscriptCodec, transcript: seq<Message>): (r: Store)
    ensures transcript == [] ==> r == store
    ensures transcript != [] ==> r.Keys == store.Keys + {TranscriptKey(group)} && r[TranscriptKey(group)] == codec.encode(transcript)
    ensures forall k | k in store && k != TranscriptKey(group) :: r[k] == store[k]
  {
    if |transcript| > 0 then store[TranscriptKey(group) := codec.encode(transcript)] else store
  }

  // ----- What survives a reload -----

  /** A saved score and its level are read back as saved. */
  lemma ScoreSurvivesReload(store: Store, group: string, score: nat, currentScore: int, currentLevel: string)
    ensures LoadedNumber(ScoreWrites(store, group, Some(score)), ScoreKey(group), currentScore) == score
    ensures LoadedLevel(ScoreWrites(store, group, Some(score)), group, currentLevel) == GetLevelFromScore(score)
  {
    var s := ScoreWrites(store, group, Some(score));
    ParseIntOfIntToString(score);
    assert s[ScoreKey(group)] == IntToString(score);
  }

  /** A saved puzzle count is read back as saved. */
  lemma PuzzlesSurviveReload(store: Store, group: string, count: int, reply: string, current: int)
    requires NextPuzzleCount(count, reply) > count
    ensures LoadedNumber(PuzzleWrites(store, group, count, reply), PuzzlesKey(group), current) == NextPuzzleCount(count, reply)
  {
    var next := NextPuzzleCount(count, reply);
    ParseIntOfIntToString(next);
    var s := PuzzleWrites(store, group, count, reply);
    assert s[PuzzlesKey(group)] == IntToString(next);
    assert IntToString(next) != "" by {
      if next < 0 { assert IntToString(next)[0] == '-'; }
    }
  }

  /** A saved transcript is read back as saved, given a codec that round-trips. */
  lemma TranscriptSurvivesReload(store: Store, group: string, codec: TranscriptCodec, transcript: seq<Message>, current: seq<Message>, now: nat)
    requires RoundTrips(codec) && EncodesNonEmpty(codec)
    requires transcript != []
    ensures LoadedTranscript(Persisted(store, group, codec, transcript), group, codec, current, now) == transcript
  {
    var s := Persisted(store, group, codec, transcript);
    assert s[TranscriptKey(group)] == codec.encode(transcript);
    assert codec.encode(transcript) != "";
    assert codec.decode(codec.encode(transcript)) == Some(transcript);
  }

  /** After a reset, loading finds nothing of the group: defaults and the welcome message. */
  lemma ClearedSessionLoadsFresh(store: Store, group: string, codec: TranscriptCodec, now: nat)
    ensures LoadedNumber(store - GroupKeys(group), ScoreKey(group), 0) == 0
    ensures LoadedLevel(store - GroupKeys(group), group, Novice) == Novice
    ensures LoadedNumber(store - GroupKeys(group), PuzzlesKey(group), 0) == 0
    ensures LoadedTranscript(store - GroupKeys(group), group, codec, [], now) == [WelcomeMessage(group, now)]
  {
  }

  /**
   * Reloading is idempotent: a fresh view loads a session from `store` and
   * saves its transcript; a fresh view loading, at any later time, from the
   * store so left gets the same score, level, puzzle count and transcript.
   */
  lemma LoadIsIdempotent(store: Store, group: string, codec: TranscriptCodec, now: nat, later: nat)
    requires RoundTrips(codec) && EncodesNonEmpty(codec)
    ensures var t := LoadedTranscript(store, group, codec, [], now);
      var saved := Persisted(store, group, codec, t);
      && LoadedNumber(saved, ScoreKey(group), 0) == LoadedNumber(store, ScoreKey(group), 0)
      && LoadedLevel(saved, group, Novice) == LoadedLevel(store, group, Novice)
      && LoadedNumber(saved, PuzzlesKey(group), 0) == LoadedNumber(store, PuzzlesKey(group), 0)
      && LoadedTranscript(saved, group, codec, [], later) == t
  {
    var t := LoadedTranscript(store, group, codec, [], now);
    var saved := Persisted(store, group, codec, t);
    var n := |TranscriptKey(group)|;
    assert |ScoreKey(group)| == n + 6 && |LevelKey(group)| == n + 6 && |PuzzlesKey(group)| == n + 8;
    if t != [] {
      TranscriptSurvivesReload(store, group, codec, t, [], later);
    }
  }

  // ----- Sending -----

  /** How a request to the chat endpoint ended: a body with its content ("" when absent), or a failure. */
  datatype Outcome = Delivered(content: string) | Failed

  const MissingReply: string := "Error al obtener respuesta"
  const ConnectionError: string := "Error al conectar con el Maestro. Inténtalo de nuevo."

  /** The assistant's text for an outcome: the content, or one of the two error texts. */
  function AnswerText(outcome: Outcome): (r: string)
    ensures outcome.Delivered? && outcome.content != "" ==> r == outcome.content
    ensures outcome.Delivered? && outcome.content == "" ==> r == MissingReply
    ensures outcome.Failed? ==> r == ConnectionError
    ensures r != ""
  {
    match outcome
    case Delivered(content) => if content != "" then content else MissingReply
    case Failed => ConnectionError
  }

  function RoleName(role: Role): string
  {
    match role
    case User => "user"
    case Assistant => "assistant"
  }

  /** The request body's messages: the transcript's roles and contents, in order, without timestamps. */
  function ApiMessages(transcript: seq<Message>): (r: seq<ChatRoute.ChatMessage>)
    ensures |r| == |transcript|
    ensures forall i | 0 <= i < |r| :: r[i].content == transcript[i].content && r[i].role == RoleName(transcript[i].role)
  {
    seq(|transcript|, i requires 0 <= i < |transcript| => ChatRoute.ChatMessage(RoleName(transcript[i].role), transcript[i].content))
  }

  /** The endpoint reads the trimmed input as the last message. */
  lemma RequestEndsWithInput(transcript: seq<Message>, input: string, sentAt: nat)
    ensures ChatRoute.LastContent(ApiMessages(transcript + [Message(User, Trim(input), sentAt)])) == Trim(input)
  {
  }

  /** The store after a reply is handled: a delivered text is scanned for a score and a completion; a failure writes nothing. */
  function ReplyWrites(store: Store, group: string, count: int, outcome: Outcome): (r: Store)
    ensures outcome.Failed? ==> r == store
    ensures outcome.Delivered? && AcceptedScore(AnswerText(outcome)).None? && !CompletionDetected(AnswerText(outcome)) ==> r == store
  {
    if outcome.Delivered? then
      var text := AnswerText(outcome);
      PuzzleWrites(ScoreWrites(store, group, AcceptedScore(text)), group, count, text)
    else store
  }

  // ----- The component -----

  /** The chat view of one group: its state and the store it saves into. */
  class QuestChat {
    const group: string
    const codec: TranscriptCodec
    var messages: seq<Message>
    var draft: string
    var loading: bool
    var totalScore: int
    var displayScore: int
    var level: string
    var puzzles: int
    var store: Store

    /** The state before the load effect runs. */
    constructor (group: string, codec: TranscriptCodec, store: Store)
      ensures this.group == group && this.codec == codec && this.store == store
      ensures messages == [] && draft == "" && !loading
      ensures totalScore == 0 && displayScore == 0 && level == Novice && puzzles == 0
    {
      this.group := group;
      this.codec := codec;
      this.store := store;
      messages := [];
      draft := "";
      loading := false;
      totalScore := 0;
      displayScore := 0;
      level := Novice;
      puzzles := 0;
    }

    /** The save effect: a non-empty transcript is written under the group's key. */
    method PersistMessages()
      modifies this
      ensures store == Persisted(old(store), group, codec, messages)
      ensures messages == old(messages) && draft == old(draft) && loading == old(loading)
      ensures totalScore == old(totalScore) && displayScore == old(displayScore)
      ensures level == old(level) && puzzles == old(puzzles)
    {
      if |messages| > 0 {
        store := store[TranscriptKey(group) := codec.encode(messages)];
      }
    }

    /** The load effect, followed by the save effect on the transcript it set. */
    method LoadSession(now: nat)
      modifies this
      ensures totalScore == LoadedNumber(old(store), ScoreKey(group), old(totalScore))
      ensures displayScore == LoadedNumber(old(store), ScoreKey(group), old(displayScore))
      ensures level == LoadedLevel(old(store), group, old(level))
      ensures puzzles == LoadedNumber(old(store), PuzzlesKey(group), old(puzzles))
      ensures messages == LoadedTranscript(old(store), group, codec, old(messages), now)
      ensures store == Persisted(old(store), group, codec, messages)
      ensures draft == old(draft) && loading == old(loading)
    {
      LoadScore();
      LoadLevel();
      LoadPuzzles();
      LoadTranscript(now);
      PersistMessages();
    }

    /** The first part of the load effect: the score, applied when saved. */
    method LoadScore()
      modifies this
      ensures totalScore == LoadedNumber(store, ScoreKey(group), old(totalScore))
      ensures displayScore == LoadedNumber(store, ScoreKey(group), old(displayScore))
      ensures level == old(level) && puzzles == old(puzzles)
      ensures store == old(store) && messages == old(messages) && draft == old(draft) && loading == old(loading)
    {
      if Truthy(store, ScoreKey(group)) {
        var score := ParseInt(store[ScoreKey(group)]);
        if score.Some? {
          totalScore := score.value;
          displayScore := score.value;
        }
      }
    }

    /** The next part of the load effect: the level name, applied when saved. */
    method LoadLevel()
      modifies this
      ensures level == LoadedLevel(store, group, old(level))
      ensures totalScore == old(totalScore) && displayScore == old(displayScore) && puzzles == old(puzzles)
      ensures store == old(store) && messages == old(messages) && draft == old(draft) && loading == old(loading)
    {
      if Truthy(store, LevelKey(group)) {
        level := store[LevelKey(group)];
      }
    }

    /** The next part of the load effect: the puzzle count, applied when saved. */
    method LoadPuzzles()
      modifies this
      ensures puzzles == LoadedNumber(store, PuzzlesKey(group), old(puzzles))
      ensures totalScore == old(totalScore) && displayScore == old(displayScore) && level == old(level)
      ensures store == old(store) && messages == old(messages) && draft == old(draft) && loading == old(loading)
    {
      if Truthy(store, PuzzlesKey(group)) {
        var count := ParseInt(store[PuzzlesKey(group)]);
        if count.Some? {
          puzzles := count.value;
        }
      }
    }

    /** The last part of the load effect: the saved transcript, or the welcome message. */
    method LoadTranscript(now: nat)
      modifies this
      ensures messages == LoadedTranscript(store, group, codec, old(messages), now)
      ensures store == old(store) && draft == old(draft) && loading == old(loading)
      ensures totalScore == old(totalScore) && displayScore == old(displayScore)
      ensures level == old(level) && puzzles == old(puzzles)
    {
      if Truthy(store, TranscriptKey(group)) {
        var parsed := codec.decode(store[TranscriptKey(group)]);
        if parsed.Some? {
          messages := parsed.value;
        }
      } else {
        messages := [WelcomeMessage(group, now)];
      }
    }

    /** Counts a completed puzzle when a completion phrase occurs in the reply. */
    method DetectPuzzleCompletion(response: string)
      modifies this
      ensures puzzles == NextPuzzleCount(old(puzzles), response)
      ensures store == PuzzleWrites(old(store), group, old(puzzles), response)
      ensures messages == old(messages) && draft == old(draft) && loading == old(loading)
      ensures totalScore == old(totalScore) && displayScore == old(displayScore) && level == old(level)
    {
      if CompletionDetected(response) {
        var current := puzzles;
        var next := if current + 1 < MaxPuzzles then current + 1 else MaxPuzzles;
        if next > current {
          puzzles := next;
          store := store[PuzzlesKey(group) := IntToString(next)];
        }
      }
    }

    /**
     * Scans a reply for a score, then for a completed puzzle: the score
     * patterns are tried in order, and completion is checked afterwards in
     * every case.
     */
    method ExtractScoreFromResponse(response: string)
      modifies this
      ensures AcceptedScore(response).Some? ==> totalScore == AcceptedScore(response).value
      ensures AcceptedScore(response).Some? ==> displayScore == AcceptedScore(response).value
      ensures AcceptedScore(response).Some? ==> level == GetLevelFromScore(AcceptedScore(response).value)
      ensures AcceptedScore(response).None? ==> totalScore == old(totalScore) && displayScore == old(displayScore) && level == old(level)
      ensures puzzles == NextPuzzleCount(old(puzzles), response)
      ensures store == PuzzleWrites(ScoreWrites(old(store), group, AcceptedScore(response)), group, old(puzzles), response)
      ensures messages == old(messages) && draft == old(draft) && loading == old(loading)
    {
      ApplyAnnouncedScore(response);
      DetectPuzzleCompletion(response);
    }

    /**
     * The pattern loop of `ExtractScoreFromResponse`: the first pattern whose
     * leftmost number is at most 6000 sets the score, its level and their keys.
     */
    method ApplyAnnouncedScore(response: string)
      modifies this
      ensures AcceptedScore(response).Some? ==> totalScore == AcceptedScore(response).value
      ensures AcceptedScore(response).Some? ==> displayScore == AcceptedScore(response).value
      ensures AcceptedScore(response).Some? ==> level == GetLevelFromScore(AcceptedScore(response).value)
      ensures AcceptedScore(response).None? ==> totalScore == old(totalScore) && displayScore == old(displayScore) && level == old(level)
      ensures store == ScoreWrites(old(store), group, AcceptedScore(response))
      ensures puzzles == old(puzzles) && messages == old(messages) && draft == old(draft) && loading == old(loading)
    {
      var p := 0;
      while p < |ScorePatterns|
        invariant 0 <= p <= |ScorePatterns|
        invariant AcceptedScore(response) == AcceptedFrom(response, p)
        invariant totalScore == old(totalScore) && displayScore == old(displayScore) && level == old(level)
        invariant store == old(store) && puzzles == old(puzzles)
        invariant messages == old(messages) && draft == old(draft) && loading == old(loading)
      {
        var m := FirstCapture(response, ScorePatterns[p], 0);
        if m.Some? {
          var newScore := CapturedValue(response, m.value);
          if newScore <= MaxScore {
            assert AcceptedFrom(response, p) == Some(newScore);
            SetScore(newScore);
            break;
          }
        }
        p := p + 1;
      }
    }

    /** Shows and saves an accepted score together with its level. */
    method SetScore(newScore: nat)
      modifies this
      ensures totalScore == newScore && displayScore == newScore && level == GetLevelFromScore(newScore)
      ensures store == ScoreWrites(old(store), group, Some(newScore))
      ensures puzzles == old(puzzles) && messages == old(messages) && draft == old(draft) && loading == old(loading)
    {
      var newLevel := GetLevelFromScore(newScore);
      displayScore := newScore;
      totalScore := newScore;
      level := newLevel;
      store := store[ScoreKey(group) := NatToString(newScore)];
      store := store[LevelKey(group) := newLevel];
    }

    /** Forgets the group's session when the player confirms. */
    method ClearSession(confirmed: bool)
      modifies this
      ensures confirmed ==> store == old(store) - GroupKeys(group)
      ensures confirmed ==> messages == [] && totalScore == 0 && displayScore == 0 && level == Novice && puzzles == 0
      ensures !confirmed ==> store == old(store) && messages == old(messages) && totalScore == old(totalScore)
      ensures !confirmed ==> displayScore == old(displayScore) && level == old(level) && puzzles == old(puzzles)
      ensures draft == old(draft) && loading == old(loading)
    {
      if confirmed {
        store := store - GroupKeys(group);
        messages := [];
        totalScore := 0;
        displayScore := 0;
        level := Novice;
        puzzles := 0;
      }
    }

    /**
     * The first half of `sendMessage`: a blank input, or one sent while a
     * reply is awaited, is ignored; otherwise the trimmed input joins the
     * transcript and the request body is returned.
     */
    method BeginSend(input: string, sentAt: nat) returns (request: Option<seq<ChatRoute.ChatMessage>>)
      modifies this
      ensures Trim(input) == "" || old(loading) ==> request == None && unchanged(this)
      ensures Trim(input) != "" && !old(loading) ==>
        && messages == old(messages) + [Message(User, Trim(input), sentAt)]
        && request == Some(ApiMessages(messages))
        && draft == "" && loading
        && store == Persisted(old(store), group, codec, messages)
        && totalScore == old(totalScore) && displayScore == old(displayScore)
        && level == old(level) && puzzles == old(puzzles)
    {
      var text := Trim(input);
      if text == "" || loading {
        request := None;
      } else {
        var body := Submit(text, sentAt);
        request := Some(body);
      }
    }

    /** The accepted input joins the transcript, which is saved, and the wait begins. */
    method Submit(text: string, sentAt: nat) returns (request: seq<ChatRoute.ChatMessage>)
      modifies this
      ensures messages == old(messages) + [Message(User, text, sentAt)]
      ensures request == ApiMessages(messages)
      ensures draft == "" && loading
      ensures store == Persisted(old(store), group, codec, messages)
      ensures totalScore == old(totalScore) && displayScore == old(displayScore)
      ensures level == old(level) && puzzles == old(puzzles)
    {
      messages := messages + [Message(User, text, sentAt)];
      draft := "";
      loading := true;
      request := ApiMessages(messages);
      PersistMessages();
    }

    /**
     * The second half of `sendMessage`: exactly one assistant message joins
     * the transcript; a delivered reply is scanned for a score and a
     * completed puzzle; the wait ends.
     */
    method FinishSend(outcome: Outcome, repliedAt: nat)
      requires loading
      modifies this
      ensures messages == old(messages) + [Message(Assistant, AnswerText(outcome), repliedAt)]
      ensures !loading && draft == old(draft)
      ensures outcome.Failed? ==> totalScore == old(totalScore) && displayScore == old(displayScore)
      ensures outcome.Failed? ==> level == old(level) && puzzles == old(puzzles)
      ensures outcome.Delivered? ==> var accepted := AcceptedScore(AnswerText(outcome));
        && (accepted.Some? ==> totalScore == accepted.value && displayScore == accepted.value)
        && (accepted.Some? ==> level == GetLevelFromScore(accepted.value))
        && (accepted.None? ==> totalScore == old(totalScore) && displayScore == old(displayScore) && level == old(level))
        && puzzles == NextPuzzleCount(old(puzzles), AnswerText(outcome))
      ensures store == Persisted(ReplyWrites(old(store), group, old(puzzles), outcome), group, codec, messages)
    {
      var content := AnswerText(outcome);
      messages := messages + [Message(Assistant, content, repliedAt)];
      if outcome.Delivered? {
        ExtractScoreFromResponse(content);
      }
      loading := false;
      PersistMessages();
    }

    /**
     * `sendMessage` as a whole, with the endpoint's outcome given: an accepted
     * input adds exactly two messages, the trimmed input and the answer.
     */
    method SendMessage(input: string, sentAt: nat, outcome: Outcome, repliedAt: nat)
      modifies this
      ensures Trim(input) == "" || old(loading) ==> unchanged(this)
      ensures Trim(input) != "" && !old(loading) ==>
        messages == old(messages) + [Message(User, Trim(input), sentAt), Message(Assistant, AnswerText(outcome), repliedAt)]
      ensures Trim(input) != "" && !old(loading) ==> draft == "" && !loading
      ensures Trim(input) != "" && !old(loading) && outcome.Failed? ==>
        totalScore == old(totalScore) && displayScore == old(displayScore) && level == old(level) && puzzles == old(puzzles)
      ensures Trim(input) != "" && !old(loading) && outcome.Delivered? ==>
        var accepted := AcceptedScore(AnswerText(outcome));
        && (accepted.Some? ==> totalScore == accepted.value && displayScore == accepted.value)
        && (accepted.Some? ==> level == GetLevelFromScore(accepted.value))
        && (accepted.None? ==> totalScore == old(totalScore) && displayScore == old(displayScore) && level == old(level))
      ensures Trim(input) != "" && !old(loading) && outcome.Delivered? ==>
        puzzles == NextPuzzleCount(old(puzzles), AnswerText(outcome))
      ensures Trim(input) != "" && !old(loading) ==>
        store == Persisted(ReplyWrites(Persisted(old(store), group, codec, old(messages) + [Message(User, Trim(input), sentAt)]),
                                       group, old(puzzles), outcome), group, codec, messages)
    {
      var text := Trim(input);
      if text != "" && !loading {
        Exchange(text, sentAt, outcome, repliedAt);
      }
    }

    /** An accepted input and its answer: `Submit`, then `FinishSend`. */
    method Exchange(text: string, sentAt: nat, outcome: Outcome, repliedAt: nat)
      modifies this
      ensures messages == old(messages) + [Message(User, text, sentAt), Message(Assistant, AnswerText(outcome), repliedAt)]
      ensures draft == "" && !loading
      ensures outcome.Failed? ==>
        totalScore == old(totalScore) && displayScore == old(displayScore) && level == old(level) && puzzles == old(puzzles)
      ensures outcome.Delivered? ==>
        var accepted := AcceptedScore(AnswerText(outcome));
        && (accepted.Some? ==> totalScore == accepted.value && displayScore == accepted.value)
        && (accepted.Some? ==> level == GetLevelFromScore(accepted.value))
        && (accepted.None? ==> totalScore == old(totalScore) && displayScore == old(displayScore) && level == old(level))
      ensures outcome.Delivered? ==> puzzles == NextPuzzleCount(old(puzzles), AnswerText(outcome))
      ensures store == Persisted(ReplyWrites(Persisted(old(store), group, codec, old(messages) + [Message(User, text, sentAt)]),
                                             group, old(puzzles), outcome), group, codec, messages)
    {
      var _ := Submit(text, sentAt);
      ghost var sent := messages;
      ghost var saved := store;
      FinishSend(outcome, repliedAt);
      assert messages == sent + [Message(Assistant, AnswerText(outcome), repliedAt)];
      assert store == Persisted(ReplyWrites(saved, group, old(puzzles), outcome), group, codec, messages);
    }
  }
}
