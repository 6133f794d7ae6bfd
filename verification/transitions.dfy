/**
 * The room state machine of handleMessage (routes/api/ws.ts) and the room
 * registry's edits to one room (utils/game_state.ts), as functions from a
 * room's value to its next value. The class Rooms.Room performs the same
 * steps by updating its fields and is proved to agree with these functions.
 */
module Transitions {
  import opened Wrappers
  import opened GameTypes
  import Scoring

  /** What the dispatcher sends after a step: nothing, a full state broadcast, or the raw message. */
  datatype Effect = Silent | BroadcastState | RelayRaw

  datatype Outcome = Outcome(state: RoomState, effect: Effect)

  // ---------------------------------------------------------------------
  // Registry edits of one room
  // ---------------------------------------------------------------------

  /** The room createRoom builds: in the lobby, round 0, its only player the host. */
  function NewRoom(roomId: string, hostName: string, hostId: string): (s: RoomState)
    ensures WellFormed(s)
    ensures s.id == roomId && s.phase == Lobby && s.currentRound == 0 && s.settings == DefaultSettings
    ensures s.order == [hostId] && s.players.Keys == {hostId} && s.hostId == hostId
    ensures s.players[hostId].isHost && s.players[hostId].score == 0 && s.players[hostId].name == hostName
    ensures s.videos == [] && s.guesses == map[] && s.matches == map[]
    ensures s.currentVideoId == None && s.currentVideoPlayerId == None
  {
    RoomState(roomId, [hostId], map[hostId := Player(hostId, hostName, true, 0, None)], Lobby,
      DefaultSettings, [], 0, hostId, None, None, map[], map[])
  }

  /** joinRoom's `room.players.set`: a new non-host player with score 0, bound to `conn`. */
  function AddPlayer(s: RoomState, pid: string, name: string, conn: Conn): (t: RoomState)
    requires pid !in s.players
    ensures t.order == s.order + [pid]
    ensures t.players.Keys == s.players.Keys + {pid}
    ensures forall k :: k in s.players ==> t.players[k] == s.players[k]
    ensures t.players[pid] == Player(pid, name, false, 0, Some(conn))
    ensures t == s.(order := t.order, players := t.players)
  {
    s.(order := s.order + [pid], players := s.players[pid := Player(pid, name, false, 0, Some(conn))])
  }

  lemma AddPlayerKeepsWellFormed(s: RoomState, pid: string, name: string, conn: Conn)
    requires WellFormed(s) && pid !in s.players && pid != s.hostId
    ensures WellFormed(AddPlayer(s, pid, name, conn))
  {
  }

  /** `xs` with every occurrence of `x` taken out, the rest in order. */
  function Without(xs: seq<string>, x: string): (r: seq<string>)
    ensures forall y :: y in r <==> y in xs && y != x
    ensures NoDup(xs) ==> NoDup(r)
    ensures x in xs && NoDup(xs) ==> |r| == |xs| - 1
    ensures x !in xs ==> r == xs
  {
    if |xs| == 0 then []
    else if xs[0] == x then Without(xs[1..], x)
    else
      var rest := Without(xs[1..], x);
      assert NoDup(xs) ==> xs[0] !in xs[1..] by {
        if NoDup(xs) {
          forall j | 0 <= j < |xs| - 1 ensures xs[1..][j] != xs[0] {
            assert xs[1..][j] == xs[j + 1];
          }
        }
      }
      [xs[0]] + rest
  }

  /** removePlayer's `room.players.delete`; the host is never reassigned. */
  function RemovePlayer(s: RoomState, pid: string): (t: RoomState)
    ensures t.players == s.players - {pid}
    ensures t.order == Without(s.order, pid)
    ensures t == s.(order := t.order, players := t.players)
  {
    s.(order := Without(s.order, pid), players := s.players - {pid})
  }

  /**
   * Removing a player keeps the room well formed, and the host id stays put:
   * if the host leaves, no player is host afterwards.
   */
  lemma RemovePlayerKeepsWellFormed(s: RoomState, pid: string)
    requires WellFormed(s)
    ensures WellFormed(RemovePlayer(s, pid))
    ensures RemovePlayer(s, pid).hostId == s.hostId
    ensures pid == s.hostId ==> forall k :: k in RemovePlayer(s, pid).players ==> !RemovePlayer(s, pid).players[k].isHost
  {
  }

  /** The binding of a fresh room's host to the joining connection (`host.socket = socket`). */
  function BindSocket(s: RoomState, pid: string, conn: Conn): (t: RoomState)
    requires pid in s.players
    ensures t.players.Keys == s.players.Keys
    ensures t.players[pid] == s.players[pid].(socket := Some(conn))
    ensures t == s.(players := t.players)
  {
    s.(players := s.players[pid := s.players[pid].(socket := Some(conn))])
  }

  /** Distinct elements: the number of members of a duplicate-free sequence is its length. */
  lemma {:induction false} DistinctCount(xs: seq<string>)
    requires NoDup(xs)
    ensures |set x | x in xs| == |xs|
  {
    if |xs| > 0 {
      DistinctCount(xs[1..]);
      assert (set x | x in xs) == (set x | x in xs[1..]) + {xs[0]};
      assert xs[0] !in xs[1..];
    }
  }

  /** `players.size` equals the length of the insertion order. */
  lemma PlayerCount(s: RoomState)
    requires Consistent(s)
    ensures |s.players| == |s.order|
  {
    DistinctCount(s.order);
    assert s.players.Keys == set x | x in s.order;
  }

  // ---------------------------------------------------------------------
  // update_settings
  // ---------------------------------------------------------------------

  /** Shallow merge `{ ...settings, ...patch }`: every key present in the patch wins. */
  function MergeSettings(settings: Settings, patch: SettingsPatch): (r: Settings)
    ensures patch.theme.Some? ==> r.theme == patch.theme.value
    ensures patch.theme.None? ==> r.theme == settings.theme
    ensures patch.maxVideoDurationSec.Some? ==> r.maxVideoDurationSec == patch.maxVideoDurationSec.value
    ensures patch.maxVideoDurationSec.None? ==> r.maxVideoDurationSec == settings.maxVideoDurationSec
    ensures patch.points.Some? ==> r.points == patch.points.value
    ensures patch.points.None? ==> r.points == settings.points
  {
    Settings(
      match patch.maxVideoDurationSec case Some(d) => d case None => settings.maxVideoDurationSec,
      match patch.theme case Some(t) => t case None => settings.theme,
      match patch.points case Some(p) => p case None => settings.points)
  }

  /** Host only, in any phase; it also moves ROUND_SETTINGS on to VIDEO_SELECTION. */
  function UpdateSettings(s: RoomState, sender: string, patch: SettingsPatch): (o: Outcome)
    ensures sender != s.hostId ==> o == Outcome(s, Silent)
    ensures sender == s.hostId ==> o.effect == BroadcastState
    ensures sender == s.hostId ==> o.state.settings == MergeSettings(s.settings, patch)
    ensures sender == s.hostId ==> o.state.phase == (if s.phase == RoundSettings then VideoSelection else s.phase)
    ensures o.state == s.(settings := o.state.settings, phase := o.state.phase)
  {
    if sender != s.hostId then Outcome(s, Silent)
    else
      Outcome(s.(settings := MergeSettings(s.settings, patch),
                 phase := if s.phase == RoundSettings then VideoSelection else s.phase),
              BroadcastState)
  }

  /**
   * Sending the same settings again changes nothing more: the phase
   * transition fired on the first message and the merge is idempotent.
   */
  lemma UpdateSettingsIdempotent(s: RoomState, sender: string, patch: SettingsPatch)
    ensures UpdateSettings(UpdateSettings(s, sender, patch).state, sender, patch).state
         == UpdateSettings(s, sender, patch).state
  {
  }

  // ---------------------------------------------------------------------
  // start_game, start_guessing, submit_guess, pause_video, seek_video
  // ---------------------------------------------------------------------

  function StartGame(s: RoomState, sender: string): (o: Outcome)
    ensures o.effect != Silent <==> sender == s.hostId && s.phase == Lobby
    ensures o.effect != Silent ==> o.state == s.(currentRound := 1, phase := RoundSettings)
    ensures o.effect == Silent ==> o.state == s
  {
    if sender == s.hostId && s.phase == Lobby then
      Outcome(s.(currentRound := 1, phase := RoundSettings), BroadcastState)
    else Outcome(s, Silent)
  }

  function StartGuessing(s: RoomState, sender: string): (o: Outcome)
    ensures o.effect != Silent <==> sender == s.hostId && s.phase == Watching
    ensures o.effect != Silent ==> o.state == s.(phase := Guessing)
    ensures o.effect == Silent ==> o.state == s
  {
    if sender == s.hostId && s.phase == Watching then Outcome(s.(phase := Guessing), BroadcastState)
    else Outcome(s, Silent)
  }

  /** Any member may guess while guessing is open, the host included; a new guess replaces the old. */
  function SubmitGuess(s: RoomState, sender: string, videoId: string): (o: Outcome)
    ensures o.effect != Silent <==> s.phase == Guessing
    ensures o.effect != Silent ==> o.state == s.(guesses := s.guesses[sender := videoId])
    ensures o.effect == Silent ==> o.state == s
  {
    if s.phase == Guessing then Outcome(s.(guesses := s.guesses[sender := videoId]), BroadcastState)
    else Outcome(s, Silent)
  }

  /** pause_video and seek_video: relayed for the host in every phase, never a state change. */
  function ControlRelay(s: RoomState, sender: string): (o: Outcome)
    ensures o.state == s
    ensures o.effect == (if sender == s.hostId then RelayRaw else Silent)
  {
    Outcome(s, if sender == s.hostId then RelayRaw else Silent)
  }

  // ---------------------------------------------------------------------
  // submit_video and the shuffle
  // ---------------------------------------------------------------------

  /** The random choices of the shuffle: at step `i` the partner index is at most `i`. */
  predicate SwapsOk(swaps: seq<nat>) {
    forall k :: 0 <= k < |swaps| ==> swaps[k] <= k
  }

  /** The partner index used at step `i`; a step with no entry keeps its element in place. */
  function SwapIndex(swaps: seq<nat>, i: nat): (j: nat)
    requires SwapsOk(swaps)
    ensures j <= i
  {
    if i < |swaps| then swaps[i] else i
  }

  /** The destructuring swap `[a[i], a[j]] = [a[j], a[i]]`. */
  function Swap(xs: seq<Video>, i: nat, j: nat): (r: seq<Video>)
    requires i < |xs| && j < |xs|
    ensures |r| == |xs|
  {
    xs[i := xs[j]][j := xs[i]]
  }

  /** A swap exchanges the two positions and leaves every other one alone. */
  lemma SwapExchanges(xs: seq<Video>, i: nat, j: nat)
    requires i < |xs| && j < |xs|
    ensures Swap(xs, i, j)[i] == xs[j] && Swap(xs, i, j)[j] == xs[i]
    ensures forall k :: 0 <= k < |xs| && k != i && k != j ==> Swap(xs, i, j)[k] == xs[k]
  {
  }

  lemma SwapPermutes(xs: seq<Video>, i: nat, j: nat)
    requires i < |xs| && j < |xs|
    ensures multiset(Swap(xs, i, j)) == multiset(xs)
  {
  }

  /** Steps `i`, `i - 1`, ..., 1 of the Fisher–Yates loop. */
  function ShuffleDown(xs: seq<Video>, i: int, swaps: seq<nat>): (r: seq<Video>)
    requires i < |xs| && SwapsOk(swaps)
    ensures |r| == |xs|
    decreases i
  {
    if i <= 0 then xs
    else ShuffleDown(Swap(xs, i, SwapIndex(swaps, i)), i - 1, swaps)
  }

  lemma {:induction false} ShuffleDownPermutes(xs: seq<Video>, i: int, swaps: seq<nat>)
    requires i < |xs| && SwapsOk(swaps)
    ensures multiset(ShuffleDown(xs, i, swaps)) == multiset(xs)
    decreases i
  {
    if i > 0 {
      var j := SwapIndex(swaps, i);
      SwapPermutes(xs, i, j);
      ShuffleDownPermutes(Swap(xs, i, j), i - 1, swaps);
    }
  }

  /** The presentation order. */
  function Shuffle(xs: seq<Video>, swaps: seq<nat>): (r: seq<Video>)
    requires SwapsOk(swaps)
    ensures |r| == |xs|
  {
    ShuffleDown(xs, |xs| - 1, swaps)
  }

  /** The shuffle is a permutation: every submission keeps its multiplicity. */
  lemma ShufflePermutes(xs: seq<Video>, swaps: seq<nat>)
    requires SwapsOk(swaps)
    ensures multiset(Shuffle(xs, swaps)) == multiset(xs)
  {
    ShuffleDownPermutes(xs, |xs| - 1, swaps);
  }

  /** The submissions after `v` from `sender` replaces the sender's entry or is appended. */
  function WithSubmission(videos: seq<Video>, sender: string, v: Video): (r: seq<Video>)
    ensures Scoring.FindOwned(videos, sender).Some? ==> r == videos[Scoring.FindOwned(videos, sender).value := v]
    ensures Scoring.FindOwned(videos, sender).None? ==> r == videos + [v]
    ensures v in r
  {
    match Scoring.FindOwned(videos, sender)
    case Some(i) => assert videos[i := v][i] == v; videos[i := v]
    case None => videos + [v]
  }

  /** Everyone has submitted: the submissions are shuffled and the first one becomes the current video. */
  function BeginWatching(s: RoomState, swaps: seq<nat>): RoomState
    requires SwapsOk(swaps)
  {
    var sh := Shuffle(s.videos, swaps);
    s.(videos := sh, phase := Watching,
       currentVideoId := if |sh| > 0 then Some(sh[0].videoId) else s.currentVideoId,
       currentVideoPlayerId := if |sh| > 0 then sh[0].playerId else s.currentVideoPlayerId)
  }

  /**
   * Any member may submit during VIDEO_SELECTION. The phase moves to WATCHING
   * exactly when the submissions number the players; then they are shuffled
   * and the first one becomes the video being played.
   */
  function SubmitVideo(s: RoomState, sender: string, v: Video, swaps: seq<nat>): Outcome
    requires SwapsOk(swaps)
  {
    if s.phase != VideoSelection then Outcome(s, Silent)
    else
      var submitted := s.(videos := WithSubmission(s.videos, sender, v));
      if |submitted.videos| == |s.players| then Outcome(BeginWatching(submitted, swaps), BroadcastState)
      else Outcome(submitted, BroadcastState)
  }


  /**
   * submit_video is accepted only during VIDEO_SELECTION. The watching phase
   * starts exactly when there is one submission per player; until then the
   * submissions are only recorded, and once it starts the first (shuffled)
   * submission becomes the current video.
   */
  lemma SubmitVideoOutcome(s: RoomState, sender: string, v: Video, swaps: seq<nat>)
    requires SwapsOk(swaps)
    ensures var o := SubmitVideo(s, sender, v, swaps);
      && (o.effect != Silent <==> s.phase == VideoSelection)
      && (o.effect == Silent ==> o.state == s)
      && (s.phase == VideoSelection ==>
        var vs := WithSubmission(s.videos, sender, v);
        && (o.state.phase == Watching <==> |vs| == |s.players|)
        && |o.state.videos| == |vs|
        && (|vs| != |s.players| ==> o.state == s.(videos := vs))
        && (|vs| == |s.players| && |vs| > 0 ==>
              && o.state.currentVideoId == Some(o.state.videos[0].videoId)
              && o.state.currentVideoPlayerId == o.state.videos[0].playerId)
        && o.state == s.(videos := o.state.videos, phase := o.state.phase,
                         currentVideoId := o.state.currentVideoId,
                         currentVideoPlayerId := o.state.currentVideoPlayerId))
  {
  }

  /** When the phase moves to WATCHING, the submissions are a permutation of those before the shuffle. */
  lemma SubmitVideoPermutes(s: RoomState, sender: string, v: Video, swaps: seq<nat>)
    requires SwapsOk(swaps) && s.phase == VideoSelection
    ensures multiset(SubmitVideo(s, sender, v, swaps).state.videos)
         == multiset(WithSubmission(s.videos, sender, v))
  {
    ShufflePermutes(WithSubmission(s.videos, sender, v), swaps);
  }

  // ---------------------------------------------------------------------
  // play_video
  // ---------------------------------------------------------------------

  /** JavaScript truthiness of an optional string: present and not empty. */
  predicate Truthy(o: Option<string>) {
    o.Some? && o.value != ""
  }

  /** Index of the first submission with video id `videoId`. */
  function FindById(videos: seq<Video>, videoId: string): (r: Option<nat>)
    ensures r.Some? ==> r.value < |videos| && videos[r.value].videoId == videoId
    ensures r.Some? ==> forall j :: 0 <= j < r.value ==> videos[j].videoId != videoId
    ensures r.None? ==> forall j :: 0 <= j < |videos| ==> videos[j].videoId != videoId
  {
    if |videos| == 0 then None
    else if videos[0].videoId == videoId then Some(0)
    else match FindById(videos[1..], videoId)
      case None => None
      case Some(k) => Some(k + 1)
  }

  /** The owner play_video settles on: the given one, else the owner of the first video with that id. */
  function TargetOwner(s: RoomState, videoId: string, ownerId: Option<string>): Option<string> {
    if Truthy(ownerId) then ownerId
    else match FindById(s.videos, videoId)
      case Some(i) => s.videos[i].playerId
      case None => ownerId
  }

  /**
   * Host only, in any phase. A state broadcast follows exactly when the
   * "now playing" fields changed; otherwise the raw message is relayed and
   * nothing changes.
   */
  function PlayVideo(s: RoomState, sender: string, videoId: string, ownerId: Option<string>): (o: Outcome)
    ensures sender != s.hostId ==> o == Outcome(s, Silent)
    ensures sender == s.hostId ==> (o.effect == BroadcastState <==> o.state != s)
    ensures sender == s.hostId ==> (o.effect == RelayRaw <==> o.state == s)
    ensures o.state == s.(currentVideoId := o.state.currentVideoId,
                          currentVideoPlayerId := o.state.currentVideoPlayerId)
    ensures sender == s.hostId ==> o.state.currentVideoId == Some(videoId)
    ensures sender == s.hostId && Truthy(TargetOwner(s, videoId, ownerId)) ==>
      o.state.currentVideoPlayerId == TargetOwner(s, videoId, ownerId)
    ensures !Truthy(TargetOwner(s, videoId, ownerId)) ==> o.state.currentVideoPlayerId == s.currentVideoPlayerId
  {
    if sender != s.hostId then Outcome(s, Silent)
    else
      var target := TargetOwner(s, videoId, ownerId);
      var idChanged := s.currentVideoId != Some(videoId);
      var ownerChanged := Truthy(target) && s.currentVideoPlayerId != target;
      if idChanged || ownerChanged then
        Outcome(s.(currentVideoId := Some(videoId),
                   currentVideoPlayerId := if ownerChanged then target else s.currentVideoPlayerId),
                BroadcastState)
      else Outcome(s, RelayRaw)
  }

  /** Without an owner, play_video credits the owner of the first submission with that video id. */
  lemma PlayVideoFallsBackToFirstMatch(s: RoomState, videoId: string, i: nat)
    requires i < |s.videos| && s.videos[i].videoId == videoId
    requires forall j :: 0 <= j < i ==> s.videos[j].videoId != videoId
    requires Truthy(s.videos[i].playerId)
    ensures PlayVideo(s, s.hostId, videoId, None).state.currentVideoPlayerId == s.videos[i].playerId
  {
    assert FindById(s.videos, videoId) == Some(i);
  }

  // ---------------------------------------------------------------------
  // submit_match
  // ---------------------------------------------------------------------

  /** The matches map built by setting each entry in turn: a later entry for a child wins. */
  function MatchesOf(entries: seq<MatchEntry>): (m: map<string, string>)
    ensures forall c :: c in m <==> exists k :: 0 <= k < |entries| && entries[k].playerId == c
  {
    if |entries| == 0 then map[]
    else
      var last := entries[|entries| - 1];
      MatchesOf(entries[..|entries| - 1])[last.playerId := last.videoId]
  }

  /** The value kept for a child is the video id of its last entry. */
  lemma {:induction false} MatchesOfLastWins(entries: seq<MatchEntry>, k: nat)
    requires k < |entries|
    requires forall l :: k < l < |entries| ==> entries[l].playerId != entries[k].playerId
    ensures entries[k].playerId in MatchesOf(entries)
    ensures MatchesOf(entries)[entries[k].playerId] == entries[k].videoId
    decreases |entries|
  {
    if k < |entries| - 1 {
      var prefix := entries[..|entries| - 1];
      assert forall l :: k < l < |prefix| ==> prefix[l] == entries[l];
      MatchesOfLastWins(prefix, k);
    }
  }

  /** The matches are replaced by the submitted entries, the round is scored and the phase becomes RESULTS. */
  function ConcludeRound(s: RoomState, entries: seq<MatchEntry>): RoomState {
    var withMatches := s.(matches := MatchesOf(entries));
    withMatches.(players := Scoring.Scored(withMatches), phase := Results)
  }

  /**
   * Host only, during GUESSING, and only once the guesses number at least the
   * players minus one. Then the matches are replaced, scoring runs, and the
   * phase becomes RESULTS.
   */
  function SubmitMatch(s: RoomState, sender: string, entries: seq<MatchEntry>): (o: Outcome)
    ensures o.effect != Silent <==>
      sender == s.hostId && s.phase == Guessing && |s.guesses| >= |s.players| - 1
    ensures o.effect == Silent ==> o.state == s
    ensures o.effect != Silent ==>
      var matches := MatchesOf(entries);
      o.state == s.(matches := matches, players := Scoring.Scored(s.(matches := matches)), phase := Results)
  {
    if !(sender == s.hostId && s.phase == Guessing) then Outcome(s, Silent)
    else if |s.guesses| < |s.players| - 1 then Outcome(s, Silent)
    else Outcome(ConcludeRound(s, entries), BroadcastState)
  }

  lemma SubmitMatchKeepsWellFormed(s: RoomState, sender: string, entries: seq<MatchEntry>)
    requires WellFormed(s)
    ensures WellFormed(SubmitMatch(s, sender, entries).state)
  {
    var o := SubmitMatch(s, sender, entries);
    if o.effect != Silent {
      var w := s.(matches := MatchesOf(entries));
      assert forall k :: k in o.state.players ==>
        (o.state.players[k].isHost == s.players[k].isHost && o.state.players[k].id == s.players[k].id);
    }
  }

  // ---------------------------------------------------------------------
  // next_round
  // ---------------------------------------------------------------------

  /** Array.prototype.indexOf: the first position of `x`, or -1. */
  function IndexOf(xs: seq<string>, x: string): (r: int)
    ensures -1 <= r < |xs|
    ensures r >= 0 ==> xs[r] == x && forall j :: 0 <= j < r ==> xs[j] != x
    ensures r == -1 <==> x !in xs
  {
    if |xs| == 0 then -1
    else if xs[0] == x then 0
    else var k := IndexOf(xs[1..], x); if k == -1 then -1 else k + 1
  }

  /** The next host: the player after the current host in join order, wrapping around. */
  function NextHost(s: RoomState): string
    requires |s.order| > 0
  {
    s.order[(IndexOf(s.order, s.hostId) + 1) % |s.order|]
  }

  /** The old host's flag cleared, then the new host's flag set. */
  function Rehost(players: map<string, Player>, oldHost: string, newHost: string): (r: map<string, Player>)
    ensures r.Keys == players.Keys
  {
    var demoted := if oldHost in players then players[oldHost := players[oldHost].(isHost := false)] else players;
    if newHost in demoted then demoted[newHost := demoted[newHost].(isHost := true)] else demoted
  }

  /** The round's submissions, guesses, matches and current video are cleared. */
  function ClearRound(s: RoomState): RoomState {
    s.(videos := [], guesses := map[], matches := map[],
       currentVideoId := None, currentVideoPlayerId := None)
  }

  /** A new round: the host role passes to `next` and the round's data is cleared. */
  function PassHost(s: RoomState, next: string): RoomState {
    ClearRound(s).(players := Rehost(s.players, s.hostId, next), hostId := next,
                   currentRound := s.currentRound + 1, phase := RoundSettings)
  }

  /**
   * Host only, during RESULTS. Once every round has been played the game is
   * over and nothing else changes; otherwise the host role passes on, the
   * round counter grows and the round's submissions are cleared.
   */
  function NextRound(s: RoomState, sender: string): (o: Outcome)
    requires |s.order| > 0
    ensures o.effect != Silent <==> sender == s.hostId && s.phase == Results
    ensures o.effect == Silent ==> o.state == s
    ensures o.effect != Silent && s.currentRound >= |s.order| ==> o.state == s.(phase := GameOver)
    ensures o.effect != Silent && s.currentRound < |s.order| ==>
      && o.state.phase == RoundSettings && o.state.currentRound == s.currentRound + 1
      && o.state.hostId == NextHost(s)
      && o.state.players == Rehost(s.players, s.hostId, NextHost(s))
      && o.state.videos == [] && o.state.guesses == map[] && o.state.matches == map[]
      && o.state.currentVideoId.None? && o.state.currentVideoPlayerId.None?
      && o.state.id == s.id && o.state.order == s.order && o.state.settings == s.settings
  {
    if !(sender == s.hostId && s.phase == Results) then Outcome(s, Silent)
    else if s.currentRound >= |s.order| then Outcome(s.(phase := GameOver), BroadcastState)
    else Outcome(PassHost(s, NextHost(s)), BroadcastState)
  }

  /**
   * The host role moves to the next player in join order: afterwards exactly
   * the new host carries the flag, only the old and new host records changed,
   * and the round counter stays within the player count.
   */
  lemma NextRoundRotatesHost(s: RoomState)
    requires WellFormed(s) && s.hostId in s.players && s.phase == Results
    requires s.currentRound < |s.order|
    ensures var t := NextRound(s, s.hostId).state;
      && WellFormed(t)
      && t.currentRound <= |t.order|
      && (forall k :: k in t.players ==> (t.players[k].isHost <==> k == t.hostId))
      && (forall k :: k in t.players ==> t.players[k].(isHost := s.players[k].isHost) == s.players[k])
      && (forall k :: k in t.players && k != s.hostId && k != t.hostId ==> t.players[k] == s.players[k])
      && t.hostId == s.order[(IndexOf(s.order, s.hostId) + 1) % |s.order|]
  {
    NextRoundKeepsWellFormed(s, s.hostId);
  }

  lemma NextRoundKeepsWellFormed(s: RoomState, sender: string)
    requires WellFormed(s) && |s.order| > 0
    ensures WellFormed(NextRound(s, sender).state)
  {
    var o := NextRound(s, sender);
    if o.effect != Silent && s.currentRound < |s.order| {
      var next := NextHost(s);
      assert next in s.order;
    }
  }

  // ---------------------------------------------------------------------
  // The dispatcher
  // ---------------------------------------------------------------------

  /** One non-join message from `sender`, a member of the room. */
  function Step(s: RoomState, sender: string, msg: Message, swaps: seq<nat>): Outcome
    requires Consistent(s) && sender in s.players && SwapsOk(swaps) && !msg.Join?
  {
    match msg
    case UpdateSettings(patch) => UpdateSettings(s, sender, patch)
    case StartGame => StartGame(s, sender)
    case SubmitVideo(v) => SubmitVideo(s, sender, v, swaps)
    case PlayVideo(videoId, ownerId, _) => PlayVideo(s, sender, videoId, ownerId)
    case PauseVideo => ControlRelay(s, sender)
    case SeekVideo(_) => ControlRelay(s, sender)
    case StartGuessing => StartGuessing(s, sender)
    case SubmitGuess(videoId) => SubmitGuess(s, sender, videoId)
    case SubmitMatch(entries) => SubmitMatch(s, sender, entries)
    case NextRound => NextRound(s, sender)
    case Unhandled => Outcome(s, Silent)
  }

  /** No message changes the room's id, its join order or the set of its players. */
  lemma StepKeepsRoster(s: RoomState, sender: string, msg: Message, swaps: seq<nat>)
    requires Consistent(s) && sender in s.players && SwapsOk(swaps) && !msg.Join?
    ensures var t := Step(s, sender, msg, swaps).state;
      t.id == s.id && t.order == s.order && t.players.Keys == s.players.Keys
  {
    match msg
    case SubmitVideo(v) => SubmitVideoOutcome(s, sender, v, swaps);
    case _ =>
  }

  /** A step that leaves the roster and the host alone keeps the room well formed when its round fits its phase. */
  lemma SameRosterKeepsWellFormed(s: RoomState, t: RoomState)
    requires WellFormed(s) && RoundInPhase(t)
    requires t.order == s.order && t.players == s.players && t.hostId == s.hostId
    ensures WellFormed(t)
  {
  }

  /** Every message other than submit_match and next_round leaves the roster and the host alone. */
  lemma RosterStepKeepsWellFormed(s: RoomState, sender: string, msg: Message, swaps: seq<nat>)
    requires WellFormed(s) && sender in s.players && SwapsOk(swaps) && !msg.Join?
    requires !msg.SubmitMatch? && !msg.NextRound?
    ensures WellFormed(Step(s, sender, msg, swaps).state)
  {
    SameRosterKeepsWellFormed(s, Step(s, sender, msg, swaps).state);
  }

  /** Every step keeps the room well formed. */
  lemma StepKeepsWellFormed(s: RoomState, sender: string, msg: Message, swaps: seq<nat>)
    requires WellFormed(s) && sender in s.players && SwapsOk(swaps) && !msg.Join?
    ensures WellFormed(Step(s, sender, msg, swaps).state)
  {
    match msg
    case SubmitMatch(entries) => SubmitMatchKeepsWellFormed(s, sender, entries);
    case NextRound =>
      assert sender in s.order;
      NextRoundKeepsWellFormed(s, sender);
    case _ => RosterStepKeepsWellFormed(s, sender, msg, swaps);
  }

  /** A message from a non-host that only the host may send changes nothing and sends nothing. */
  lemma ChildCannotSteer(s: RoomState, sender: string, msg: Message, swaps: seq<nat>)
    requires Consistent(s) && sender in s.players && SwapsOk(swaps) && sender != s.hostId
    requires msg.UpdateSettings? || msg.StartGame? || msg.PlayVideo? || msg.PauseVideo? || msg.SeekVideo?
          || msg.StartGuessing? || msg.SubmitMatch? || msg.NextRound?
    ensures Step(s, sender, msg, swaps) == Outcome(s, Silent)
  {
    assert sender in s.order;
  }

  /**
   * The host is never replaced when it leaves, so once it has gone a room is
   * stuck: every message only the host may send, from any remaining player,
   * changes nothing and sends nothing, and the game cannot move past the
   * host-driven phases.
   */
  lemma HostlessRoomIsStuck(s: RoomState, sender: string, msg: Message, swaps: seq<nat>)
    requires WellFormed(s) && s.hostId !in s.players && sender in s.players && SwapsOk(swaps)
    requires msg.UpdateSettings? || msg.StartGame? || msg.PlayVideo? || msg.PauseVideo? || msg.SeekVideo?
          || msg.StartGuessing? || msg.SubmitMatch? || msg.NextRound?
    ensures Step(s, sender, msg, swaps) == Outcome(s, Silent)
  {
    ChildCannotSteer(s, sender, msg, swaps);
  }
}
