/**
 * The entities of the room engine (utils/game_state.ts): players, video
 * submissions, settings, phases, the inbound message union, and an
 * immutable snapshot of a room that the specifications are written over.
 */
module GameTypes {
  import opened Wrappers

  /** A live connection handle. The model only compares handles for identity. */
  datatype Conn = Conn(handle: nat)

  datatype Phase =
    | Lobby
    | RoundSettings
    | VideoSelection
    | Watching
    | Guessing
    | Results
    | GameOver

  datatype Points = Points(guessCorrect: int, voteReceived: int, hostMatch: int)

  /** `maxVideoDurationSec` is 0 for unlimited. */
  datatype Settings = Settings(maxVideoDurationSec: int, theme: string, points: Points)

  /** The settings every new room starts with: 5 minutes, no theme, 10/5/5 points. */
  const DefaultSettings: Settings := Settings(300, "", Points(10, 5, 5))

  /**
   * A video submission as the client sent it. The owner field is whatever the
   * client put there: the server never checks it, and it may be missing.
   */
  datatype Video = Video(
    playerId: Option<string>,
    videoId: string,
    startSeconds: real,
    endSeconds: real,
    title: Option<string>,
    thumbnailUrl: Option<string>)

  /** A player record; `socket` is the connection bound to it, if any. */
  datatype Player = Player(id: string, name: string, isHost: bool, score: int, socket: Option<Conn>)

  /**
   * The value of a room. `order` lists the keys of the players map in
   * insertion order (the iteration order of a JavaScript Map).
   */
  datatype RoomState = RoomState(
    id: string,
    order: seq<string>,
    players: map<string, Player>,
    phase: Phase,
    settings: Settings,
    videos: seq<Video>,
    currentRound: int,
    hostId: string,
    currentVideoId: Option<string>,
    currentVideoPlayerId: Option<string>,
    guesses: map<string, string>,
    matches: map<string, string>)

  ghost predicate NoDup<T>(s: seq<T>) {
    forall i, j :: 0 <= i < j < |s| ==> s[i] != s[j]
  }

  /** `order` and `players` describe the same Map, and every record sits under its own id. */
  ghost predicate Consistent(s: RoomState) {
    && NoDup(s.order)
    && (forall k :: k in s.players <==> k in s.order)
    && (forall k :: k in s.players ==> s.players[k].id == k)
  }

  /** At most one player carries the host flag, and it is the one named by `hostId`. */
  ghost predicate HostFlags(s: RoomState) {
    forall k :: k in s.players ==> (s.players[k].isHost <==> k == s.hostId)
  }

  /** The round counter is 0 exactly in the lobby and at least 1 afterwards. */
  ghost predicate RoundInPhase(s: RoomState) {
    if s.phase == Lobby then s.currentRound == 0 else s.currentRound >= 1
  }

  ghost predicate WellFormed(s: RoomState) {
    Consistent(s) && HostFlags(s) && RoundInPhase(s)
  }

  /** The `settings` payload of update_settings: each top-level key may be absent. */
  datatype SettingsPatch = SettingsPatch(
    maxVideoDurationSec: Option<int>,
    theme: Option<string>,
    points: Option<Points>)

  datatype MatchEntry = MatchEntry(playerId: string, videoId: string)

  /** Inbound messages. `Unhandled` is any type tag the dispatcher has no case for. */
  datatype Message =
    | Join(roomId: string, playerName: string)
    | UpdateSettings(patch: SettingsPatch)
    | StartGame
    | SubmitVideo(video: Video)
    | PlayVideo(videoId: string, ownerId: Option<string>, time: Option<real>)
    | PauseVideo
    | SeekVideo(seekTime: real)
    | StartGuessing
    | SubmitGuess(guessVideoId: string)
    | SubmitMatch(entries: seq<MatchEntry>)
    | NextRound
    | Unhandled
}
