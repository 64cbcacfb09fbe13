/**
 * What the game keeps in the browser's key-value store: the chat turns and
 * the four group-scoped keys under which a session is saved.
 */
module QuestStorage {
  import opened Wrappers

  datatype Role = User | Assistant

  /** One chat turn. A timestamp of 0 stands for a missing (falsy) one. */
  datatype Message = Message(role: Role, content: string, timestamp: nat)

  /**
   * `JSON.stringify` and `JSON.parse` of a transcript, kept abstract: decoding
   * either yields a transcript or fails (the `catch` branch).
   */
  datatype TranscriptCodec = TranscriptCodec(encode: seq<Message> -> string, decode: string -> Option<seq<Message>>)

  /** Decoding what was encoded gives the transcript back. */
  ghost predicate RoundTrips(codec: TranscriptCodec)
  {
    forall t :: codec.decode(codec.encode(t)) == Some(t)
  }

  /** An encoded transcript is never the empty (falsy) string, as a JSON array never is. */
  ghost predicate EncodesNonEmpty(codec: TranscriptCodec)
  {
    forall t :: codec.encode(t) != ""
  }

  /** `localStorage`: string keys to string values. */
  type Store = map<string, string>

  const KeyPrefix: string := "malaga-quest-vialia-"

  function TranscriptKey(group: string): string { KeyPrefix + group }
  function ScoreKey(group: string): string { KeyPrefix + group + "-score" }
  function LevelKey(group: string): string { KeyPrefix + group + "-level" }
  function PuzzlesKey(group: string): string { KeyPrefix + group + "-puzzles" }

  /** Every key a session of `group` is saved under. */
  function GroupKeys(group: string): set<string>
  {
    {TranscriptKey(group), ScoreKey(group), LevelKey(group), PuzzlesKey(group)}
  }

  /** `localStorage.getItem(key)` is truthy: the key is present and its value is not empty. */
  predicate Truthy(store: Store, key: string)
  {
    key in store && store[key] != ""
  }

  /** The four keys of a group are four different keys. */
  lemma GroupKeysDistinct(group: string)
    ensures |GroupKeys(group)| == 4
  {
    var n := |KeyPrefix + group|;
    assert |TranscriptKey(group)| == n;
    assert |ScoreKey(group)| == n + 6 && |LevelKey(group)| == n + 6 && |PuzzlesKey(group)| == n + 8;
    assert ScoreKey(group)[n + 1] == 's' && LevelKey(group)[n + 1] == 'l';
    assert ScoreKey(group) != LevelKey(group);
  }
}
