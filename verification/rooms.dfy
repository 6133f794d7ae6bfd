/**
 * A room as the server keeps it: an object whose fields handleMessage
 * (routes/api/ws.ts) and the registry (utils/game_state.ts) update in place.
 * Every method is proved to leave the room in the state that the matching
 * function of module Transitions describes.
 */
module Rooms {
  import opened Wrappers
  import opened GameTypes
  import Scoring
  import Transitions

  /** `voteCounts.get(videoId) || 0`. */
  function CountOf(voteCounts: map<string, nat>, videoId: string): nat {
    if videoId in voteCounts then voteCounts[videoId] else 0
  }

  /** The matches map of submit_match, built by setting one entry after another. */
  method CollectMatches(entries: seq<MatchEntry>) returns (m: map<string, string>)
    ensures m == Transitions.MatchesOf(entries)
  {
    m := map[];
    var i := 0;
    while i < |entries|
      invariant 0 <= i <= |entries|
      invariant m == Transitions.MatchesOf(entries[..i])
    {
      assert entries[..i + 1][..i] == entries[..i];
      m := m[entries[i].playerId := entries[i].videoId];
      i := i + 1;
    }
    assert entries[..i] == entries;
  }

  /** `players` with `amount` added to the score of `pid`, when `pid` is one of them. */
  function Credit(players: map<string, Player>, pid: string, amount: int): map<string, Player> {
    if pid in players then players[pid := players[pid].(score := players[pid].score + amount)] else players
  }

  /** `players` is the room's players with the guess points for the guessers in `done` added. */
  ghost predicate GuessesCredited(s: RoomState, hostVideoId: string, players: map<string, Player>, done: set<string>) {
    players.Keys == s.players.Keys
    && forall p :: p in players ==> players[p] == s.players[p].(score :=
         s.players[p].score + (if p in done then Scoring.GuessAward(s, hostVideoId, p) else 0))
  }

  /** `voteCounts` holds the tally of the guesses of the guessers in `done`. */
  ghost predicate Counted(guesses: map<string, string>, done: set<string>, voteCounts: map<string, nat>) {
    forall vid :: CountOf(voteCounts, vid) == Scoring.Tally(guesses, done, vid)
  }

  /** The state of the first scoring loop once the guessers in `done` are handled. */
  ghost predicate GuessesHandled(s: RoomState, hostVideoId: string, done: set<string>,
                                 players: map<string, Player>, correct: nat, voteCounts: map<string, nat>) {
    GuessesCredited(s, hostVideoId, players, done)
    && Counted(s.guesses, done, voteCounts)
    && correct == CountOf(voteCounts, hostVideoId)
  }

  lemma NothingHandledYet(s: RoomState, hostVideoId: string)
    ensures GuessesHandled(s, hostVideoId, {}, s.players, 0, map[])
  {
    forall vid ensures Scoring.Tally(s.guesses, {}, vid) == 0 {
    }
  }

  /** Rewarding a correct guess of `pid` extends the credited guessers by `pid`. */
  lemma CreditGuess(s: RoomState, hostVideoId: string, players: map<string, Player>, done: set<string>, pid: string)
    requires pid in s.guesses && pid !in done
    requires GuessesCredited(s, hostVideoId, players, done)
    ensures GuessesCredited(s, hostVideoId,
      if s.guesses[pid] == hostVideoId then Credit(players, pid, s.settings.points.guessCorrect) else players,
      done + {pid})
  {
  }

  /** Counting the guess of `pid` extends the tally by `pid`. */
  lemma CountGuess(guesses: map<string, string>, done: set<string>, voteCounts: map<string, nat>, pid: string)
    requires pid in guesses && pid !in done
    requires Counted(guesses, done, voteCounts)
    ensures Counted(guesses, done + {pid}, voteCounts[guesses[pid] := CountOf(voteCounts, guesses[pid]) + 1])
  {
    forall vid ensures Scoring.Tally(guesses, done + {pid}, vid)
        == Scoring.Tally(guesses, done, vid) + (if guesses[pid] == vid then 1 else 0) {
      Scoring.TallyAdd(guesses, done, pid, vid);
    }
  }

  /** One turn of the first scoring loop: the guess of `pid` is tallied and, when it names the host's video, rewarded. */
  method TallyGuess(s: RoomState, hostVideoId: string, ghost done: set<string>,
                    players: map<string, Player>, correct: nat, voteCounts: map<string, nat>, pid: string)
    returns (players': map<string, Player>, correct': nat, voteCounts': map<string, nat>)
    requires pid in s.guesses && pid !in done
    requires GuessesHandled(s, hostVideoId, done, players, correct, voteCounts)
    ensures GuessesHandled(s, hostVideoId, done + {pid}, players', correct', voteCounts')
  {
    var videoId := s.guesses[pid];
    voteCounts' := voteCounts[videoId := CountOf(voteCounts, videoId) + 1];
    correct', players' := correct, players;
    if videoId == hostVideoId {
      correct' := correct + 1;
      players' := Credit(players, pid, s.settings.points.guessCorrect);
    }
    CreditGuess(s, hostVideoId, players, done, pid);
    CountGuess(s.guesses, done, voteCounts, pid);
  }

  /**
   * The first scoring loop: every guess is tallied, and a guess naming the
   * host's video earns its author the guess points.
   */
  method AwardGuesses(s: RoomState, hostVideoId: string)
    returns (players: map<string, Player>, correct: nat, voteCounts: map<string, nat>)
    ensures GuessesHandled(s, hostVideoId, s.guesses.Keys, players, correct, voteCounts)
  {
    players, correct, voteCounts := s.players, 0, map[];
    var todo := s.guesses.Keys;
    ghost var done: set<string> := {};
    NothingHandledYet(s, hostVideoId);
    while todo != {}
      invariant todo <= s.guesses.Keys && done == s.guesses.Keys - todo
      invariant GuessesHandled(s, hostVideoId, done, players, correct, voteCounts)
      decreases todo
    {
      var pid :| pid in todo;
      players, correct, voteCounts := TallyGuess(s, hostVideoId, done, players, correct, voteCounts, pid);
      todo := todo - {pid};
      done := done + {pid};
    }
    assert done == s.guesses.Keys;
  }

  /** `players` is `start` with the vote points for the submissions `scored` added. */
  ghost predicate VotesCredited(s: RoomState, start: map<string, Player>, players: map<string, Player>,
                                allCorrect: bool, scored: seq<Video>)
  {
    players.Keys == start.Keys
    && forall p :: p in players ==>
         players[p] == start[p].(score := start[p].score + Scoring.VoteSum(s, allCorrect, scored, p))
  }

  /** `players` after the owner of `v` is credited with the votes `v` received. */
  function CreditOwner(s: RoomState, allCorrect: bool, players: map<string, Player>, v: Video): map<string, Player> {
    var votes := Scoring.Votes(s.guesses, v.videoId);
    if votes > 0 && !(v.playerId == Some(s.hostId) && allCorrect) && v.playerId.Some?
    then Credit(players, v.playerId.value, votes * s.settings.points.voteReceived)
    else players
  }

  /** Crediting the owner of `v` adds to each player exactly the vote points `v` earns them. */
  lemma CreditOwnerAdds(s: RoomState, allCorrect: bool, players: map<string, Player>, v: Video)
    ensures var after := CreditOwner(s, allCorrect, players, v);
      && after.Keys == players.Keys
      && forall p :: p in after ==>
           after[p] == players[p].(score := players[p].score + Scoring.VoteAward(s, allCorrect, v, p))
  {
  }

  /** Crediting the owner of submission `i` extends the credited prefix by one. */
  lemma CreditVotes(s: RoomState, start: map<string, Player>, players: map<string, Player>,
                    allCorrect: bool, i: nat)
    requires i < |s.videos|
    requires VotesCredited(s, start, players, allCorrect, s.videos[..i])
    ensures VotesCredited(s, start, CreditOwner(s, allCorrect, players, s.videos[i]), allCorrect, s.videos[..i + 1])
  {
    Scoring.VoteSumStep(s, allCorrect, s.videos, i);
    CreditOwnerAdds(s, allCorrect, players, s.videos[i]);
  }

  /**
   * The second scoring loop: every submission with votes earns its owner the
   * vote points, except the host's when the count test `allCorrect` holds.
   */
  method AwardVotes(s: RoomState, start: map<string, Player>, voteCounts: map<string, nat>, allCorrect: bool)
    returns (players: map<string, Player>)
    requires Counted(s.guesses, s.guesses.Keys, voteCounts)
    ensures VotesCredited(s, start, players, allCorrect, s.videos)
  {
    players := start;
    var i := 0;
    while i < |s.videos|
      invariant 0 <= i <= |s.videos|
      invariant VotesCredited(s, start, players, allCorrect, s.videos[..i])
    {
      var video := s.videos[i];
      var votes := CountOf(voteCounts, video.videoId);
      CreditVotes(s, start, players, allCorrect, i);
      if votes > 0 && !(video.playerId == Some(s.hostId) && allCorrect) && video.playerId.Some? {
        players := Credit(players, video.playerId.value, votes * s.settings.points.voteReceived);
      }
      i := i + 1;
    }
    assert s.videos[..i] == s.videos;
  }

  /** The host's match points for the children in `done`. */
  ghost function MatchPoints(s: RoomState, done: set<string>): int {
    Scoring.Repeated(Scoring.CorrectMatches(s, done), s.settings.points.hostMatch)
  }

  lemma NothingMatchedYet(s: RoomState, start: map<string, Player>)
    ensures Credit(start, s.hostId, MatchPoints(s, {})) == start
  {
  }

  /** Crediting the match for `pid` adds `pid` to the credited children. */
  lemma CreditMatch(s: RoomState, start: map<string, Player>, done: set<string>, pid: string)
    requires pid in s.matches && pid !in done
    ensures var players := Credit(start, s.hostId, MatchPoints(s, done));
      (if Scoring.MatchCorrect(s.videos, pid, s.matches[pid])
       then Credit(players, s.hostId, s.settings.points.hostMatch)
       else players)
      == Credit(start, s.hostId, MatchPoints(s, done + {pid}))
  {
    Scoring.CorrectMatchesAdd(s, done, pid);
  }

  /** The third scoring loop: the host earns the match points once for every correct match. */
  method AwardMatches(s: RoomState, start: map<string, Player>) returns (players: map<string, Player>)
    ensures players == Credit(start, s.hostId, MatchPoints(s, s.matches.Keys))
  {
    players := start;
    NothingMatchedYet(s, start);
    var todo := s.matches.Keys;
    ghost var done: set<string> := {};
    while todo != {}
      invariant todo <= s.matches.Keys && done == s.matches.Keys - todo
      invariant players == Credit(start, s.hostId, MatchPoints(s, done))
      decreases todo
    {
      var pid :| pid in todo;
      var videoId := s.matches[pid];
      CreditMatch(s, start, done, pid);
      if Scoring.MatchCorrect(s.videos, pid, videoId) {
        players := Credit(players, s.hostId, s.settings.points.hostMatch);
      }
      assert players == Credit(start, s.hostId, MatchPoints(s, done + {pid}));
      todo := todo - {pid};
      done := done + {pid};
    }
    assert done == s.matches.Keys;
  }

  lemma MatchCreditIsAward(s: RoomState, start: map<string, Player>)
    ensures var players := Credit(start, s.hostId, MatchPoints(s, s.matches.Keys));
      players.Keys == start.Keys
      && forall p :: p in players ==> players[p] == start[p].(score := start[p].score + Scoring.MatchAward(s, p))
  {
    Scoring.RepeatedIsProduct(Scoring.CorrectMatches(s, s.matches.Keys), s.settings.points.hostMatch);
  }

  /** What the three loops leave for one player is what the scoring function gives that player. */
  lemma LoopsAddUpFor(s: RoomState, h: nat, p1: map<string, Player>, p2: map<string, Player>,
                      p3: map<string, Player>, p: string)
    requires Scoring.FindOwned(s.videos, s.hostId) == Some(h)
    requires GuessesCredited(s, s.videos[h].videoId, p1, s.guesses.Keys)
    requires VotesCredited(s, p1, p2, Scoring.AllChildrenCorrect(s, s.videos[h].videoId), s.videos)
    requires p2.Keys == p3.Keys && p in p3
    requires p3[p] == p2[p].(score := p2[p].score + Scoring.MatchAward(s, p))
    ensures p in Scoring.Scored(s) && p3[p] == Scoring.Scored(s)[p]
  {
  }

  /** The three loops in turn award exactly what the scoring function adds. */
  lemma LoopsAddUpToScored(s: RoomState, h: nat, p1: map<string, Player>, p2: map<string, Player>,
                           p3: map<string, Player>)
    requires Scoring.FindOwned(s.videos, s.hostId) == Some(h)
    requires GuessesCredited(s, s.videos[h].videoId, p1, s.guesses.Keys)
    requires VotesCredited(s, p1, p2, Scoring.AllChildrenCorrect(s, s.videos[h].videoId), s.videos)
    requires p3 == Credit(p2, s.hostId, MatchPoints(s, s.matches.Keys))
    ensures p3 == Scoring.Scored(s)
  {
    MatchCreditIsAward(s, p2);
    forall p | p in p3 ensures p3[p] == Scoring.Scored(s)[p] {
      LoopsAddUpFor(s, h, p1, p2, p3, p);
    }
  }

  /**
   * The scoring of submit_match over the room's value: nothing when the host
   * has no submission, otherwise the three loops in turn.
   */
  method ScoreRound(s: RoomState) returns (players: map<string, Player>)
    ensures players == Scoring.Scored(s)
  {
    var hostVideo := Scoring.FindOwned(s.videos, s.hostId);
    if hostVideo.None? {
      return s.players;
    }
    var hostVideoId := s.videos[hostVideo.value].videoId;
    var childCount := Scoring.ChildCount(s.players);
    var guessed, correct, voteCounts := AwardGuesses(s, hostVideoId);
    var allCorrect := correct == childCount && childCount > 0;
    var voted := AwardVotes(s, guessed, voteCounts, allCorrect);
    players := AwardMatches(s, voted);
    LoopsAddUpToScored(s, hostVideo.value, guessed, voted, players);
  }

  class Room {
    const id: string
    /** The keys of the players Map in insertion order. */
    var order: seq<string>
    var players: map<string, Player>
    var phase: Phase
    var settings: Settings
    var videos: seq<Video>
    var currentRound: int
    var hostId: string
    var currentVideoId: Option<string>
    var currentVideoPlayerId: Option<string>
    var guesses: map<string, string>
    var matches: map<string, string>

    /** The room's current value. */
    function State(): RoomState
      reads this
    {
      RoomState(id, order, players, phase, settings, videos, currentRound, hostId,
        currentVideoId, currentVideoPlayerId, guesses, matches)
    }

    ghost predicate Valid()
      reads this
    {
      WellFormed(State())
    }

    /** The room createRoom builds for its first player `hostId`. */
    constructor (roomId: string, hostName: string, hostId: string)
      ensures State() == Transitions.NewRoom(roomId, hostName, hostId)
      ensures Valid()
    {
      id := roomId;
      order := [hostId];
      players := map[hostId := Player(hostId, hostName, true, 0, None)];
      phase := Lobby;
      settings := DefaultSettings;
      videos := [];
      currentRound := 0;
      this.hostId := hostId;
      currentVideoId := None;
      currentVideoPlayerId := None;
      guesses := map[];
      matches := map[];
    }

    method AddPlayer(pid: string, name: string, conn: Conn)
      requires pid !in players
      modifies this
      ensures State() == Transitions.AddPlayer(old(State()), pid, name, conn)
    {
      players := players[pid := Player(pid, name, false, 0, Some(conn))];
      order := order + [pid];
    }

    method RemovePlayer(pid: string)
      modifies this
      ensures State() == Transitions.RemovePlayer(old(State()), pid)
    {
      players := players - {pid};
      order := Transitions.Without(order, pid);
    }

    method BindSocket(pid: string, conn: Conn)
      requires pid in players
      modifies this
      ensures State() == Transitions.BindSocket(old(State()), pid, conn)
    {
      players := players[pid := players[pid].(socket := Some(conn))];
    }

    method UpdateSettings(sender: string, patch: SettingsPatch) returns (effect: Transitions.Effect)
      modifies this
      ensures Transitions.Outcome(State(), effect) == Transitions.UpdateSettings(old(State()), sender, patch)
    {
      if hostId != sender {
        return Transitions.Silent;
      }
      settings := Transitions.MergeSettings(settings, patch);
      if phase == RoundSettings {
        phase := VideoSelection;
      }
      effect := Transitions.BroadcastState;
    }

    method StartGame(sender: string) returns (effect: Transitions.Effect)
      modifies this
      ensures Transitions.Outcome(State(), effect) == Transitions.StartGame(old(State()), sender)
    {
      effect := Transitions.Silent;
      if hostId == sender && phase == Lobby {
        currentRound := 1;
        phase := RoundSettings;
        effect := Transitions.BroadcastState;
      }
    }

    /** The Fisher–Yates loop over the submissions, with the caller's choice of partner indices. */
    method Shuffle(swaps: seq<nat>)
      requires Transitions.SwapsOk(swaps)
      modifies this`videos
      ensures videos == Transitions.Shuffle(old(videos), swaps)
    {
      var i := |videos| - 1;
      while i > 0
        invariant -1 <= i < |videos|
        invariant Transitions.ShuffleDown(videos, i, swaps) == Transitions.Shuffle(old(videos), swaps)
      {
        var j := Transitions.SwapIndex(swaps, i);
        videos := Transitions.Swap(videos, i, j);
        i := i - 1;
      }
    }

    /** The tail of submit_video once every player has submitted. */
    method BeginWatching(swaps: seq<nat>)
      requires Transitions.SwapsOk(swaps)
      modifies this
      ensures State() == Transitions.BeginWatching(old(State()), swaps)
    {
      Shuffle(swaps);
      phase := Watching;
      if |videos| > 0 {
        currentVideoId := Some(videos[0].videoId);
        currentVideoPlayerId := videos[0].playerId;
      }
    }

    method SubmitVideo(sender: string, v: Video, swaps: seq<nat>) returns (effect: Transitions.Effect)
      requires Transitions.SwapsOk(swaps)
      modifies this
      ensures Transitions.Outcome(State(), effect) == Transitions.SubmitVideo(old(State()), sender, v, swaps)
    {
      if phase != VideoSelection {
        return Transitions.Silent;
      }
      var existing := Scoring.FindOwned(videos, sender);
      if existing.Some? {
        videos := videos[existing.value := v];
      } else {
        videos := videos + [v];
      }
      if |videos| == |players| {
        BeginWatching(swaps);
      }
      effect := Transitions.BroadcastState;
    }

    method PlayVideo(sender: string, videoId: string, ownerId: Option<string>) returns (effect: Transitions.Effect)
      modifies this
      ensures Transitions.Outcome(State(), effect) == Transitions.PlayVideo(old(State()), sender, videoId, ownerId)
    {
      if hostId != sender {
        return Transitions.Silent;
      }
      var target := ownerId;
      if !Transitions.Truthy(target) {
        var found := Transitions.FindById(videos, videoId);
        if found.Some? {
          target := videos[found.value].playerId;
        }
      }
      var changed := false;
      if currentVideoId != Some(videoId) {
        currentVideoId := Some(videoId);
        changed := true;
      }
      if Transitions.Truthy(target) && currentVideoPlayerId != target {
        currentVideoPlayerId := target;
        changed := true;
      }
      effect := if changed then Transitions.BroadcastState else Transitions.RelayRaw;
    }

    method StartGuessing(sender: string) returns (effect: Transitions.Effect)
      modifies this
      ensures Transitions.Outcome(State(), effect) == Transitions.StartGuessing(old(State()), sender)
    {
      effect := Transitions.Silent;
      if hostId == sender && phase == Watching {
        phase := Guessing;
        effect := Transitions.BroadcastState;
      }
    }

    method SubmitGuess(sender: string, videoId: string) returns (effect: Transitions.Effect)
      modifies this
      ensures Transitions.Outcome(State(), effect) == Transitions.SubmitGuess(old(State()), sender, videoId)
    {
      effect := Transitions.Silent;
      if phase == Guessing {
        guesses := guesses[sender := videoId];
        effect := Transitions.BroadcastState;
      }
    }

    method SubmitMatch(sender: string, entries: seq<MatchEntry>) returns (effect: Transitions.Effect)
      modifies this
      ensures Transitions.Outcome(State(), effect) == Transitions.SubmitMatch(old(State()), sender, entries)
    {
      if !(hostId == sender && phase == Guessing) {
        return Transitions.Silent;
      }
      var childrenCount := |players| - 1;
      if |guesses| < childrenCount {
        return Transitions.Silent;
      }
      ConcludeRound(entries);
      effect := Transitions.BroadcastState;
    }

    /** Stores the submitted matches, scores the round and moves to RESULTS. */
    method ConcludeRound(entries: seq<MatchEntry>)
      modifies this
      ensures State() == Transitions.ConcludeRound(old(State()), entries)
    {
      matches := CollectMatches(entries);
      players := ScoreRound(State());
      phase := Results;
    }

    method NextRound(sender: string) returns (effect: Transitions.Effect)
      requires |order| > 0
      modifies this
      ensures Transitions.Outcome(State(), effect) == Transitions.NextRound(old(State()), sender)
    {
      if !(hostId == sender && phase == Results) {
        return Transitions.Silent;
      }
      var playerIds := order;
      var currentHostIndex := Transitions.IndexOf(playerIds, hostId);
      var nextHostIndex := (currentHostIndex + 1) % |playerIds|;
      if currentRound >= |playerIds| {
        phase := GameOver;
      } else {
        PassHost(playerIds[nextHostIndex]);
      }
      effect := Transitions.BroadcastState;
    }

    /** Hands the host role to `nextHostId` and opens the next round with its submissions cleared. */
    method PassHost(nextHostId: string)
      modifies this
      ensures State() == Transitions.PassHost(old(State()), nextHostId)
    {
      ClearRound();
      players := Transitions.Rehost(players, hostId, nextHostId);
      hostId := nextHostId;
      currentRound := currentRound + 1;
      phase := RoundSettings;
    }

    /** Empties the round's submissions, guesses and matches and forgets the current video. */
    method ClearRound()
      modifies this
      ensures State() == Transitions.ClearRound(old(State()))
    {
      videos := [];
      guesses := map[];
      matches := map[];
      currentVideoId := None;
      currentVideoPlayerId := None;
    }

    /** pause_video and seek_video: nothing in the room changes; the host's message is relayed. */
    method ControlRelay(sender: string) returns (effect: Transitions.Effect)
      ensures effect == Transitions.ControlRelay(State(), sender).effect
    {
      effect := if hostId == sender then Transitions.RelayRaw else Transitions.Silent;
    }

    /** The switch of handleMessage over the message type, for a sender who belongs to this room. */
    method Dispatch(sender: string, msg: Message, swaps: seq<nat>) returns (effect: Transitions.Effect)
      requires Consistent(State()) && sender in players && Transitions.SwapsOk(swaps) && !msg.Join?
      modifies this
      ensures Transitions.Outcome(State(), effect) == Transitions.Step(old(State()), sender, msg, swaps)
    {
      match msg {
        case UpdateSettings(patch) => effect := UpdateSettings(sender, patch);
        case StartGame => effect := StartGame(sender);
        case SubmitVideo(v) => effect := SubmitVideo(sender, v, swaps);
        case PlayVideo(videoId, ownerId, _) => effect := PlayVideo(sender, videoId, ownerId);
        case PauseVideo => effect := ControlRelay(sender);
        case SeekVideo(_) => effect := ControlRelay(sender);
        case StartGuessing => effect := StartGuessing(sender);
        case SubmitGuess(videoId) => effect := SubmitGuess(sender, videoId);
        case SubmitMatch(entries) => effect := SubmitMatch(sender, entries);
        case NextRound =>
          assert sender in order;
          effect := NextRound(sender);
        case Unhandled => effect := Transitions.Silent;
      }
    }

    /** A message from a member of this room: handled, and the room stays well formed. */
    method Apply(sender: string, msg: Message, swaps: seq<nat>) returns (effect: Transitions.Effect)
      requires Valid() && sender in players && Transitions.SwapsOk(swaps) && !msg.Join?
      modifies this
      ensures Transitions.Outcome(State(), effect) == Transitions.Step(old(State()), sender, msg, swaps)
      ensures Valid()
    {
      Transitions.StepKeepsWellFormed(State(), sender, msg, swaps);
      effect := Dispatch(sender, msg, swaps);
    }
  }
}
