/**
 * The per-viewer snapshot of a room (getPublicState in utils/game_state.ts).
 * The snapshot is built field by field from the room's value; the room itself
 * is never touched.
 */
module Projection {
  import opened Wrappers
  import opened GameTypes

  datatype PublicPlayer = PublicPlayer(id: string, name: string, isHost: bool, score: int)

  /** The snapshot sent to one viewer. `None` stands for a field that is undefined. */
  datatype PublicRoom = PublicRoom(
    id: string,
    players: seq<PublicPlayer>,
    phase: Phase,
    settings: Settings,
    videos: seq<Video>,
    currentRound: int,
    hostId: string,
    currentVideoId: Option<string>,
    currentVideoPlayerId: Option<string>,
    guesses: Option<map<string, string>>,
    matches: Option<map<string, string>>)

  /** What a viewer sees instead of another player's guess while guessing is open. */
  const GuessedMarker: string := "guessed"

  /** The phases during which ownership of the submissions is secret. */
  predicate Secretive(phase: Phase) {
    phase == Watching || phase == Guessing
  }

  /** May `viewer` see the owner field `owner` of a submission? */
  predicate SeesOwner(s: RoomState, viewer: string, owner: Option<string>) {
    !Secretive(s.phase) || viewer == s.hostId || owner == Some(viewer)
  }

  function PublicPlayerOf(p: Player): PublicPlayer {
    PublicPlayer(p.id, p.name, p.isHost, p.score)
  }

  function PublicVideo(s: RoomState, viewer: string, v: Video): Video {
    if SeesOwner(s, viewer, v.playerId) then v else v.(playerId := None)
  }

  function PublicGuesses(s: RoomState, viewer: string): Option<map<string, string>> {
    if s.phase == Results then Some(s.guesses)
    else if s.phase == Guessing then
      Some(map pid | pid in s.guesses :: if pid == viewer then s.guesses[pid] else GuessedMarker)
    else None
  }

  function PublicState(s: RoomState, viewer: string): PublicRoom
    requires Consistent(s)
  {
    PublicRoom(
      s.id,
      seq(|s.order|, i requires 0 <= i < |s.order| => PublicPlayerOf(s.players[s.order[i]])),
      s.phase,
      s.settings,
      seq(|s.videos|, i requires 0 <= i < |s.videos| => PublicVideo(s, viewer, s.videos[i])),
      s.currentRound,
      s.hostId,
      s.currentVideoId,
      if Secretive(s.phase) && viewer != s.hostId then None else s.currentVideoPlayerId,
      PublicGuesses(s, viewer),
      if s.phase == Results then Some(s.matches) else None)
  }

  /** What getPublicState copies, what it blanks and what it masks, for the viewer `viewer`. */
  lemma PublicStateContents(s: RoomState, viewer: string)
    requires Consistent(s)
    ensures var v := PublicState(s, viewer);
      && (v.id == s.id && v.phase == s.phase && v.settings == s.settings)
      && (v.currentRound == s.currentRound && v.hostId == s.hostId)
      && (v.currentVideoId == s.currentVideoId)
      // every player, in insertion order, with its public fields copied unchanged
      && (|v.players| == |s.order|)
      && (forall i :: 0 <= i < |s.order| ==>
        && v.players[i].id == s.order[i]
        && v.players[i].name == s.players[s.order[i]].name
        && v.players[i].isHost == s.players[s.order[i]].isHost
        && v.players[i].score == s.players[s.order[i]].score)
      // the same submissions in the same order; only the owner field may differ,
      // and it is blanked exactly when the viewer may not see it
      && (|v.videos| == |s.videos|)
      && (forall i :: 0 <= i < |s.videos| ==> v.videos[i].(playerId := s.videos[i].playerId) == s.videos[i])
      && (forall i :: 0 <= i < |s.videos| ==>
        v.videos[i].playerId == (if SeesOwner(s, viewer, s.videos[i].playerId) then s.videos[i].playerId else None))
      && (v.currentVideoPlayerId ==
        (if Secretive(s.phase) && viewer != s.hostId then None else s.currentVideoPlayerId))
      // guesses: absent before GUESSING, masked during it, verbatim in RESULTS
      && (v.guesses.Some? <==> s.phase == Guessing || s.phase == Results)
      && (s.phase == Results ==> v.guesses == Some(s.guesses))
      && (s.phase == Guessing ==> v.guesses.value.Keys == s.guesses.Keys)
      && (s.phase == Guessing ==> forall pid :: pid in s.guesses ==>
        v.guesses.value[pid] == (if pid == viewer then s.guesses[pid] else GuessedMarker))
      // matches: only in RESULTS
      && (v.matches.Some? <==> s.phase == Results)
      && (s.phase == Results ==> v.matches == Some(s.matches))
  {
  }

  /**
   * While ownership is secret, a child learns no owner but its own: every owner
   * field it sees is blank or itself, and the "now playing" owner is blank.
   */
  lemma ChildLearnsNoOwner(s: RoomState, viewer: string, i: int)
    requires Consistent(s) && Secretive(s.phase) && viewer != s.hostId
    requires 0 <= i < |s.videos|
    ensures PublicState(s, viewer).videos[i].playerId in {None, Some(viewer)}
    ensures PublicState(s, viewer).currentVideoPlayerId == None
  {
    PublicStateContents(s, viewer);
  }

  /** While guessing is open, a viewer sees the marker, never the answer, for every other guesser. */
  lemma GuessesStayMasked(s: RoomState, viewer: string, pid: string)
    requires Consistent(s) && s.phase == Guessing
    requires pid in s.guesses && pid != viewer
    ensures pid in PublicState(s, viewer).guesses.value
    ensures PublicState(s, viewer).guesses.value[pid] == GuessedMarker
  {
    PublicStateContents(s, viewer);
  }

  /** The host sees every submission and the "now playing" owner verbatim, in every phase. */
  lemma HostSeesOwnership(s: RoomState)
    requires Consistent(s)
    ensures PublicState(s, s.hostId).videos == s.videos
    ensures PublicState(s, s.hostId).currentVideoPlayerId == s.currentVideoPlayerId
  {
    var v := PublicState(s, s.hostId);
    PublicStateContents(s, s.hostId);
    assert forall i :: 0 <= i < |s.videos| ==> v.videos[i] == s.videos[i];
  }

  /**
   * Any two viewers get submissions at the same positions: the lists differ at
   * most in owner fields, so indices never shift between viewers.
   */
  lemma SamePositionsForEveryViewer(s: RoomState, a: string, b: string, i: int)
    requires Consistent(s) && 0 <= i < |s.videos|
    ensures |PublicState(s, a).videos| == |PublicState(s, b).videos|
    ensures PublicState(s, a).videos[i].(playerId := None) == PublicState(s, b).videos[i].(playerId := None)
  {
    PublicStateContents(s, a);
    PublicStateContents(s, b);
  }

  /** Outside the secret phases every viewer gets exactly the same snapshot. */
  lemma OpenPhasesAreViewerIndependent(s: RoomState, a: string, b: string)
    requires Consistent(s) && !Secretive(s.phase)
    ensures PublicState(s, a) == PublicState(s, b)
  {
    var va, vb := PublicState(s, a), PublicState(s, b);
    PublicStateContents(s, a);
    PublicStateContents(s, b);
    assert va.videos == vb.videos;
  }
}
