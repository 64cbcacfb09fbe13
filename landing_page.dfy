/**
 * The landing page: the list of saved games found in the store, the "time
 * ago" label shown beside each, the guard on starting an adventure, and the
 * 3-2-1 countdown before the chat opens.
 */
module LandingPage {
  import opened Wrappers
  import opened Strings
  import opened QuestStorage

  // ----- Saved sessions -----

  /**
   * A saved game as the page lists it. A score or puzzle count that does not
   * parse is `None` (the page shows NaN).
   */
  datatype SavedSession = SavedSession(groupName: string, score: Option<int>, level: string, puzzles: Option<int>, lastPlayed: int)

  const DefaultLevel: string := "Novato Perdido"

  /** A key that names a transcript: the prefix, and none of the three suffixes anywhere in it. */
  predicate IsSessionKey(key: string)
  {
    StartsWith(key, KeyPrefix) && !Contains(key, "-score") && !Contains(key, "-level") && !Contains(key, "-puzzles")
  }

  /** The group a session key belongs to: the key without its prefix. */
  function GroupOf(key: string): (group: string)
    requires StartsWith(key, KeyPrefix)
    ensures TranscriptKey(group) == key
  {
    assert key == key[..|KeyPrefix|] + key[|KeyPrefix|..];
    key[|KeyPrefix|..]
  }

  /** A group's own transcript key gives the group back. */
  lemma GroupOfTranscriptKey(group: string)
    ensures StartsWith(TranscriptKey(group), KeyPrefix)
    ensures GroupOf(TranscriptKey(group)) == group
  {
    assert TranscriptKey(group)[..|KeyPrefix|] == KeyPrefix;
  }

  /** A text that contains `t` still contains it with anything put in front. */
  lemma ContainsAfterPrefix(p: string, s: string, t: string)
    requires Contains(s, t)
    ensures Contains(p + s, t)
  {
    var i :| 0 <= i <= |s| && OccursAt(s, t, i);
    assert (p + s)[|p| + i..|p| + i + |t|] == s[i..i + |t|];
    assert OccursAt(p + s, t, |p| + i);
  }

  /** A text that ends with `t` contains it. */
  lemma ContainsSuffix(s: string, t: string)
    ensures Contains(s + t, t)
  {
    assert (s + t)[|s|..|s| + |t|] == t;
    assert OccursAt(s + t, t, |s|);
  }

  /** The score, level and puzzle keys are never taken for transcripts. */
  lemma ProgressKeysAreNotSessions(group: string)
    ensures !IsSessionKey(ScoreKey(group)) && !IsSessionKey(LevelKey(group)) && !IsSessionKey(PuzzlesKey(group))
  {
    ContainsSuffix(KeyPrefix + group, "-score");
    ContainsSuffix(KeyPrefix + group, "-level");
    ContainsSuffix(KeyPrefix + group, "-puzzles");
  }

  /** A group whose name contains "-score", "-level" or "-puzzles" is never listed. */
  lemma SuffixInNameHidesGroup(group: string)
    requires Contains(group, "-score") || Contains(group, "-level") || Contains(group, "-puzzles")
    ensures !IsSessionKey(TranscriptKey(group))
  {
    if Contains(group, "-score") {
      ContainsAfterPrefix(KeyPrefix, group, "-score");
    } else if Contains(group, "-level") {
      ContainsAfterPrefix(KeyPrefix, group, "-level");
    } else {
      ContainsAfterPrefix(KeyPrefix, group, "-puzzles");
    }
  }

  /** A number field of a listed session: parsed when the key is truthy, 0 otherwise. */
  function NumberOrZero(store: Store, key: string): (r: Option<int>)
    ensures !Truthy(store, key) ==> r == Some(0)
    ensures Truthy(store, key) ==> r == ParseInt(store[key])
  {
    if Truthy(store, key) then ParseInt(store[key]) else Some(0)
  }

  /**
   * The session a key yields, if any: a session key whose transcript is
   * truthy, decodes, and holds more than the welcome message.
   */
  function SessionFrom(store: Store, codec: TranscriptCodec, key: string, now: int): (r: Option<SavedSession>)
    ensures r.Some? <==>
      IsSessionKey(key) && Truthy(store, key) && codec.decode(store[key]).Some? && |codec.decode(store[key]).value| > 1
    ensures r.Some? ==> TranscriptKey(r.value.groupName) == key
    ensures r.Some? ==> r.value.score == NumberOrZero(store, ScoreKey(r.value.groupName))
    ensures r.Some? ==> r.value.puzzles == NumberOrZero(store, PuzzlesKey(r.value.groupName))
    ensures r.Some? && Truthy(store, LevelKey(r.value.groupName)) ==> r.value.level == store[LevelKey(r.value.groupName)]
    ensures r.Some? && !Truthy(store, LevelKey(r.value.groupName)) ==> r.value.level == DefaultLevel
  {
    if IsSessionKey(key) && Truthy(store, key) then
      match codec.decode(store[key])
      case Some(transcript) =>
        if |transcript| > 1 then
          var group := GroupOf(key);
          var last := transcript[|transcript| - 1];
          Some(SavedSession(
            group,
            NumberOrZero(store, ScoreKey(group)),
            if Truthy(store, LevelKey(group)) then store[LevelKey(group)] else DefaultLevel,
            NumberOrZero(store, PuzzlesKey(group)),
            if last.timestamp != 0 then last.timestamp else now))
        else None
      case None => None
    else None
  }

  /** The last-played time: the last message's timestamp, or now when it has none. */
  lemma LastPlayedOfSession(store: Store, codec: TranscriptCodec, key: string, now: int)
    requires SessionFrom(store, codec, key, now).Some?
    ensures var t := codec.decode(store[key]).value;
      SessionFrom(store, codec, key, now).value.lastPlayed == if t[|t| - 1].timestamp != 0 then t[|t| - 1].timestamp else now
  {
  }

  /** The sessions the keys yield, in the order of the keys. */
  function Collect(store: Store, codec: TranscriptCodec, keys: seq<string>, now: int): (r: seq<SavedSession>)
    ensures |r| <= |keys|
  {
    if keys == [] then []
    else
      var found := Collect(store, codec, keys[..|keys| - 1], now);
      match SessionFrom(store, codec, keys[|keys| - 1], now)
      case Some(session) => found + [session]
      case None => found
  }

  /**
   * The positions of the keys that yield a session, in increasing order: each
   * such position exactly once, and no other.
   */
  function YieldingIndices(store: Store, codec: TranscriptCodec, keys: seq<string>, now: int): (idx: seq<nat>)
    ensures forall a, b | 0 <= a < b < |idx| :: idx[a] < idx[b]
    ensures forall a | 0 <= a < |idx| :: idx[a] < |keys| && SessionFrom(store, codec, keys[idx[a]], now).Some?
    ensures forall i | 0 <= i < |keys| && SessionFrom(store, codec, keys[i], now).Some? :: i in idx
  {
    if keys == [] then []
    else
      var front := keys[..|keys| - 1];
      var found := YieldingIndices(store, codec, front, now);
      assert forall i | 0 <= i < |front| :: front[i] == keys[i];
      if SessionFrom(store, codec, keys[|keys| - 1], now).Some? then found + [|keys| - 1] else found
  }

  /**
   * `Collect` holds one session per key that yields one, in the order of the
   * keys: its `a`-th session is the one the `a`-th yielding key gives.
   */
  lemma {:induction false} CollectInKeyOrder(store: Store, codec: TranscriptCodec, keys: seq<string>, now: int)
    ensures var idx := YieldingIndices(store, codec, keys, now);
      var r := Collect(store, codec, keys, now);
      |r| == |idx| && forall a | 0 <= a < |r| :: SessionFrom(store, codec, keys[idx[a]], now) == Some(r[a])
  {
    if keys != [] {
      var front := keys[..|keys| - 1];
      CollectInKeyOrder(store, codec, front, now);
      var idx := YieldingIndices(store, codec, front, now);
      assert forall a | 0 <= a < |idx| :: front[idx[a]] == keys[idx[a]];
    }
  }

  /** Exactly the sessions some key yields are collected. */
  lemma {:induction false} CollectMembers(store: Store, codec: TranscriptCodec, keys: seq<string>, now: int, x: SavedSession)
    ensures x in Collect(store, codec, keys, now) <==> exists i | 0 <= i < |keys| :: SessionFrom(store, codec, keys[i], now) == Some(x)
  {
    if keys != [] {
      var front := keys[..|keys| - 1];
      CollectMembers(store, codec, front, now, x);
      if x in Collect(store, codec, keys, now) {
        if x in Collect(store, codec, front, now) {
          var i :| 0 <= i < |front| && SessionFrom(store, codec, front[i], now) == Some(x);
          assert keys[i] == front[i];
        } else {
          assert SessionFrom(store, codec, keys[|keys| - 1], now) == Some(x);
        }
      }
      if exists i | 0 <= i < |keys| :: SessionFrom(store, codec, keys[i], now) == Some(x) {
        var i :| 0 <= i < |keys| && SessionFrom(store, codec, keys[i], now) == Some(x);
        if i < |keys| - 1 {
          assert front[i] == keys[i];
        }
      }
    }
  }

  // ----- Newest first -----

  /** Ordered by last-played time, newest first. */
  predicate NewestFirst(s: seq<SavedSession>)
  {
    forall i, j | 0 <= i < j < |s| :: s[i].lastPlayed >= s[j].lastPlayed
  }

  /** Puts `x` before the first session not newer than it. */
  function Insert(x: SavedSession, s: seq<SavedSession>): (r: seq<SavedSession>)
    ensures |r| == |s| + 1
    ensures multiset(r) == multiset(s) + multiset{x}
    ensures r[0] == x || (s != [] && r[0] == s[0])
  {
    if s == [] || x.lastPlayed >= s[0].lastPlayed then [x] + s
    else
      assert s == [s[0]] + s[1..];
      [s[0]] + Insert(x, s[1..])
  }

  /**
   * The landing page's ordering of saved sessions: a stable sort on the
   * last-played time, newest first, written as an insertion sort.
   */
  function SortNewestFirst(s: seq<SavedSession>): (r: seq<SavedSession>)
    ensures multiset(r) == multiset(s)
  {
    if s == [] then []
    else
      assert s == [s[0]] + s[1..];
      Insert(s[0], SortNewestFirst(s[1..]))
  }

  lemma {:induction false} InsertKeepsOrder(x: SavedSession, s: seq<SavedSession>)
    requires NewestFirst(s)
    ensures NewestFirst(Insert(x, s))
  {
    if s != [] && x.lastPlayed < s[0].lastPlayed {
      InsertKeepsOrder(x, s[1..]);
      var r := Insert(x, s[1..]);
      assert s[0].lastPlayed >= r[0].lastPlayed;
      forall k | 0 <= k < |r| ensures s[0].lastPlayed >= r[k].lastPlayed {
        assert r[0].lastPlayed >= r[k].lastPlayed;
      }
      assert Insert(x, s) == [s[0]] + r;
    }
  }

  /** The sorted list is newest first. */
  lemma {:induction false} SortIsNewestFirst(s: seq<SavedSession>)
    ensures NewestFirst(SortNewestFirst(s))
  {
    if s != [] {
      SortIsNewestFirst(s[1..]);
      InsertKeepsOrder(s[0], SortNewestFirst(s[1..]));
    }
  }

  /** The sessions last played at time `t`, in order. */
  function PlayedAt(s: seq<SavedSession>, t: int): seq<SavedSession>
  {
    if s == [] then []
    else (if s[0].lastPlayed == t then [s[0]] else []) + PlayedAt(s[1..], t)
  }

  lemma {:induction false} InsertIsStable(x: SavedSession, s: seq<SavedSession>, t: int)
    ensures PlayedAt(Insert(x, s), t) == (if x.lastPlayed == t then [x] else []) + PlayedAt(s, t)
  {
    var r := Insert(x, s);
    if s == [] || x.lastPlayed >= s[0].lastPlayed {
      assert r[0] == x && r[1..] == s;
    } else {
      var tail := Insert(x, s[1..]);
      assert r[0] == s[0] && r[1..] == tail;
      InsertIsStable(x, s[1..], t);
      var rest := PlayedAt(s[1..], t);
      if x.lastPlayed == t {
        // every session before x's place is newer than x, hence not at t
        assert PlayedAt(r, t) == PlayedAt(tail, t) == [x] + rest;
        assert PlayedAt(s, t) == rest;
      } else {
        assert PlayedAt(tail, t) == rest;
      }
    }
  }

  /** Sessions with equal times keep their order: the sort is stable. */
  lemma {:induction false} SortIsStable(s: seq<SavedSession>, t: int)
    ensures PlayedAt(SortNewestFirst(s), t) == PlayedAt(s, t)
  {
    if s != [] {
      SortIsStable(s[1..], t);
      InsertIsStable(s[0], SortNewestFirst(s[1..]), t);
    }
  }

  const Shown: nat := 3

  /** The page lists the first three sessions: none of the others is newer than any of them. */
  lemma ShownAreNewest(s: seq<SavedSession>, i: nat, j: nat)
    requires i < Shown && Shown <= j < |SortNewestFirst(s)|
    ensures SortNewestFirst(s)[i].lastPlayed >= SortNewestFirst(s)[j].lastPlayed
  {
    SortIsNewestFirst(s);
  }

  // ----- "Time ago" -----

  const MinuteMs: int := 60000
  const HourMs: int := 3600000
  const DayMs: int := 86400000

  datatype Unit = Days | Hours | Minutes

  function UnitMs(u: Unit): int
  {
    match u
    case Days => DayMs
    case Hours => HourMs
    case Minutes => MinuteMs
  }

  function UnitWord(u: Unit): string
  {
    match u
    case Days => "día"
    case Hours => "hora"
    case Minutes => "minuto"
  }

  /** "hace <count> <unit>", with an 's' when the count is above one. */
  function Describe(count: int, u: Unit): string
  {
    "hace " + IntToString(count) + " " + UnitWord(u) + (if count > 1 then "s" else "")
  }

  const JustNow: string := "hace un momento"

  /**
   * `formatTimeAgo`: whole days, hours and minutes elapsed (`Math.floor`,
   * which Dafny's division matches for a positive divisor), reported in the
   * largest unit with a positive count.
   */
  function FormatTimeAgo(timestamp: int, now: int): (r: string)
    ensures now - timestamp < MinuteMs ==> r == JustNow
  {
    var diff := now - timestamp;
    var minutes := diff / MinuteMs;
    var hours := diff / HourMs;
    var days := diff / DayMs;
    if days > 0 then Describe(days, Days)
    else if hours > 0 then Describe(hours, Hours)
    else if minutes > 0 then Describe(minutes, Minutes)
    else JustNow
  }

  /** A positive count never reads as "hace un momento". */
  lemma DescribeIsNotJustNow(count: int, u: Unit)
    requires count > 0
    ensures Describe(count, u) != JustNow
  {
    var d := NatToString(count);
    assert Describe(count, u)[5] == d[0];
    assert JustNow[5] == 'u';
  }

  /** "hace un momento" exactly when less than a minute has passed, including a time in the future. */
  lemma JustNowIffUnderAMinute(timestamp: int, now: int)
    ensures FormatTimeAgo(timestamp, now) == JustNow <==> now - timestamp < MinuteMs
  {
    var diff := now - timestamp;
    if diff >= MinuteMs {
      var r := FormatTimeAgo(timestamp, now);
      if diff / DayMs > 0 {
        assert r == Describe(diff / DayMs, Days);
        DescribeIsNotJustNow(diff / DayMs, Days);
      } else if diff / HourMs > 0 {
        assert r == Describe(diff / HourMs, Hours);
        DescribeIsNotJustNow(diff / HourMs, Hours);
      } else {
        assert diff / MinuteMs >= 1;
        assert r == Describe(diff / MinuteMs, Minutes);
        DescribeIsNotJustNow(diff / MinuteMs, Minutes);
      }
    }
  }

  /**
   * The label uses the largest unit of which at least one whole unit has
   * passed, and the count of whole units of it.
   */
  lemma LargestUnit(timestamp: int, now: int, u: Unit)
    requires (now - timestamp) / UnitMs(u) > 0
    requires forall v: Unit | UnitMs(v) > UnitMs(u) :: (now - timestamp) / UnitMs(v) == 0
    ensures FormatTimeAgo(timestamp, now) == Describe((now - timestamp) / UnitMs(u), u)
    ensures UnitMs(u) * ((now - timestamp) / UnitMs(u)) <= now - timestamp < UnitMs(u) * ((now - timestamp) / UnitMs(u) + 1)
  {
    assert UnitMs(Days) > UnitMs(Hours) > UnitMs(Minutes);
  }

  /** The label ends in 's' exactly when its count is above one. */
  lemma PluralIffMany(count: int, u: Unit)
    requires count > 0
    ensures var d := Describe(count, u); d[|d| - 1] == 's' <==> count > 1
  {
    var d := Describe(count, u);
    var w := UnitWord(u);
    if count <= 1 {
      assert d == "hace " + IntToString(count) + " " + w;
      assert d[|d| - 1] == w[|w| - 1];
    }
  }

  // ----- The page -----

  /** The screen flags the countdown drives. */
  datatype Screen = Screen(showChat: bool, showCountdown: bool, countdown: int)

  const CountdownStart: int := 3

  /** One run of the countdown effect, after its one-second timer when it sets one. */
  function Tick(s: Screen): (r: Screen)
    ensures s.showCountdown && s.countdown > 0 ==> r == s.(countdown := s.countdown - 1)
    ensures s.showCountdown && s.countdown == 0 ==> r == Screen(true, false, CountdownStart)
    ensures !s.showCountdown || s.countdown < 0 ==> r == s
  {
    if s.showCountdown && s.countdown > 0 then s.(countdown := s.countdown - 1)
    else if s.showCountdown && s.countdown == 0 then Screen(true, false, CountdownStart)
    else s
  }

  /** `n` runs of the countdown effect. */
  function Ticks(s: Screen, n: nat): Screen
    decreases n
  {
    if n == 0 then s else Ticks(Tick(s), n - 1)
  }

  /** The counter stays within 0..3 while the countdown runs. */
  lemma TickKeepsRange(s: Screen)
    requires 0 <= s.countdown <= CountdownStart
    ensures 0 <= Tick(s).countdown <= CountdownStart
  {
  }

  /** From `c` seconds left, after `c + 1` runs the chat is shown, the countdown hidden and the counter back at 3. */
  lemma {:induction false} CountdownOpensChat(s: Screen)
    requires s.showCountdown && s.countdown >= 0
    ensures Ticks(s, s.countdown + 1) == Screen(true, false, CountdownStart)
    decreases s.countdown
  {
    if s.countdown > 0 {
      CountdownOpensChat(Tick(s));
    }
  }

  /** Without a countdown running, nothing changes. */
  lemma IdleStaysIdle(s: Screen, n: nat)
    requires !s.showCountdown
    ensures Ticks(s, n) == s
  {
  }

  /** The landing page's state. */
  class QuestPage {
    var groupName: string
    var showChat: bool
    var showCountdown: bool
    var countdown: int
    var selected: Option<SavedSession>
    var sessions: seq<SavedSession>

    constructor ()
      ensures groupName == "" && !showChat && !showCountdown && countdown == CountdownStart
      ensures selected == None && sessions == []
    {
      groupName := "";
      showChat := false;
      showCountdown := false;
      countdown := CountdownStart;
      selected := None;
      sessions := [];
    }

    /** The flags the countdown drives, as one value. */
    function Flags(): Screen
      reads this
    {
      Screen(showChat, showCountdown, countdown)
    }

    /**
     * `detectSavedSessions`: walks the keys of the store, collects one session
     * per listed transcript, then sorts them newest first.
     */
    method DetectSavedSessions(store: Store, codec: TranscriptCodec, keys: seq<string>, now: int)
      modifies this
      ensures sessions == SortNewestFirst(Collect(store, codec, keys, now))
      ensures groupName == old(groupName) && Flags() == old(Flags()) && selected == old(selected)
    {
      var found: seq<SavedSession> := [];
      var i := 0;
      while i < |keys|
        invariant 0 <= i <= |keys|
        invariant found == Collect(store, codec, keys[..i], now)
      {
        var key := keys[i];
        assert keys[..i + 1][..i] == keys[..i];
        if IsSessionKey(key) && Truthy(store, key) {
          var group := GroupOf(key);
          var decoded := codec.decode(store[key]);
          if decoded.Some? && |decoded.value| > 1 {
            var last := decoded.value[|decoded.value| - 1];
            var level := if Truthy(store, LevelKey(group)) then store[LevelKey(group)] else DefaultLevel;
            var lastPlayed := if last.timestamp != 0 then last.timestamp else now;
            found := found + [SavedSession(group, NumberOrZero(store, ScoreKey(group)), level, NumberOrZero(store, PuzzlesKey(group)), lastPlayed)];
          }
        }
        i := i + 1;
      }
      assert keys[..|keys|] == keys;
      sessions := SortNewestFirst(found);
    }

    /** `startAdventure`: a blank group name is refused (with an alert) and nothing starts. */
    method StartAdventure() returns (refused: bool)
      modifies this
      ensures refused <==> Trim(groupName) == ""
      ensures refused ==> unchanged(this)
      ensures !refused ==> showCountdown && selected == None
      ensures !refused ==> groupName == old(groupName) && showChat == old(showChat) && countdown == old(countdown)
      ensures sessions == old(sessions)
    {
      if Trim(groupName) == "" {
        refused := true;
      } else {
        refused := false;
        selected := None;
        showCountdown := true;
      }
    }

    /** One run of the countdown effect. */
    method CountdownStep()
      modifies this
      ensures Flags() == Tick(old(Flags()))
      ensures groupName == old(groupName) && selected == old(selected) && sessions == old(sessions)
    {
      if showCountdown && countdown > 0 {
        countdown := countdown - 1;
      } else if showCountdown && countdown == 0 {
        showCountdown := false;
        showChat := true;
        countdown := CountdownStart;
      }
    }
  }
}
