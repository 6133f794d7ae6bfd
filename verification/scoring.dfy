/**
 * The scoring rules that run when the host submits the matches
 * (the submit_match case of handleMessage in routes/api/ws.ts), stated as
 * functions of the room's value. The class Rooms.Room computes them with the
 * source's loops and is proved to agree with `Scored`.
 */
module Scoring {
  import opened Wrappers
  import opened GameTypes

  /** Index of the first submission whose owner field is `owner` (Array.prototype.find). */
  function FindOwned(videos: seq<Video>, owner: string): (r: Option<nat>)
    ensures r.Some? ==> r.value < |videos| && videos[r.value].playerId == Some(owner)
    ensures r.Some? ==> forall j :: 0 <= j < r.value ==> videos[j].playerId != Some(owner)
    ensures r.None? ==> forall j :: 0 <= j < |videos| ==> videos[j].playerId != Some(owner)
  {
    if |videos| == 0 then None
    else if videos[0].playerId == Some(owner) then Some(0)
    else match FindOwned(videos[1..], owner)
      case None => None
      case Some(k) => Some(k + 1)
  }

  /** How many of the guessers in `keys` named `videoId`. */
  function Tally(guesses: map<string, string>, keys: set<string>, videoId: string): nat {
    |set q | q in keys && q in guesses && guesses[q] == videoId|
  }

  /** The votes a video id received: the number of guesses naming it. */
  function Votes(guesses: map<string, string>, videoId: string): nat {
    Tally(guesses, guesses.Keys, videoId)
  }

  lemma TallyAdd(guesses: map<string, string>, keys: set<string>, k: string, videoId: string)
    requires k !in keys && k in guesses
    ensures Tally(guesses, keys + {k}, videoId)
         == Tally(guesses, keys, videoId) + (if guesses[k] == videoId then 1 else 0)
  {
    var before := set q | q in keys && q in guesses && guesses[q] == videoId;
    var after := set q | q in keys + {k} && q in guesses && guesses[q] == videoId;
    if guesses[k] == videoId {
      assert after == before + {k};
    } else {
      assert after == before;
    }
  }

  /** The number of players without the host flag. */
  function ChildCount(players: map<string, Player>): nat {
    |set p | p in players && !players[p].isHost|
  }

  /**
   * The test that withholds the host's vote points: the number of guesses
   * naming the host's video equals the number of children, and there is a
   * child. Every stored guess is counted, the host's own and those of players
   * who have left included, so this means "every child found the host's
   * video" only when all guessers are current children (`AllChildrenCorrectIff`).
   */
  predicate AllChildrenCorrect(s: RoomState, hostVideoId: string) {
    Votes(s.guesses, hostVideoId) == ChildCount(s.players) && ChildCount(s.players) > 0
  }

  /** A subset is no larger than its superset. */
  lemma {:induction false} SubsetCard(a: set<string>, b: set<string>)
    requires a <= b
    ensures |a| <= |b|
  {
    if a != {} {
      var x :| x in a;
      SubsetCard(a - {x}, b - {x});
    }
  }

  /** A subset as large as its superset is the superset. */
  lemma SameSizeSubset(a: set<string>, b: set<string>)
    requires a <= b && |a| == |b|
    ensures a == b
  {
    if a != b {
      var x :| x in b && x !in a;
      SubsetCard(a, b - {x});
    }
  }

  /**
   * When only current children have guessed, the count test means what its
   * name says: there is a child, and every child guessed the host's video.
   */
  lemma AllChildrenCorrectIff(s: RoomState, hostVideoId: string)
    requires forall q :: q in s.guesses ==> q in s.players && !s.players[q].isHost
    ensures AllChildrenCorrect(s, hostVideoId) <==>
      ChildCount(s.players) > 0 &&
      forall c :: c in s.players && !s.players[c].isHost ==> c in s.guesses && s.guesses[c] == hostVideoId
  {
    var kids := set p | p in s.players && !s.players[p].isHost;
    var right := set q | q in s.guesses.Keys && q in s.guesses && s.guesses[q] == hostVideoId;
    assert right <= kids;
    assert Votes(s.guesses, hostVideoId) == |right| && ChildCount(s.players) == |kids|;
    if |right| == |kids| {
      SameSizeSubset(right, kids);
      forall c | c in s.players && !s.players[c].isHost
        ensures c in s.guesses && s.guesses[c] == hostVideoId
      {
        assert c in kids;
      }
    }
    if forall c :: c in s.players && !s.players[c].isHost ==> c in s.guesses && s.guesses[c] == hostVideoId {
      assert kids == right;
    }
  }

  /** A guessing round with host "h", children "c1" and "c2", and the host's video "v0". */
  function SampleRoom(guesses: map<string, string>): RoomState {
    RoomState("r", ["h", "c1", "c2"],
      map["h" := Player("h", "H", true, 0, None),
          "c1" := Player("c1", "C1", false, 0, None),
          "c2" := Player("c2", "C2", false, 0, None)],
      Guessing, DefaultSettings,
      [Video(Some("h"), "v0", 0.0, 0.0, None, None), Video(Some("c1"), "v1", 0.0, 0.0, None, None)],
      1, "h", None, None, guesses, map[])
  }

  /** The sample room is well formed whatever the guesses. */
  lemma SampleRoomWellFormed(guesses: map<string, string>)
    ensures WellFormed(SampleRoom(guesses))
  {
    var s := SampleRoom(guesses);
    assert "h" != "c1" && "h" != "c2" && "c1"[1] != "c2"[1];
    assert forall k :: k in s.players <==> k in s.order;
  }

  /**
   * The host's own guess fills a child's place in the count: with guesses
   * h->v0, c1->v0 and c2->v1 the test holds although "c2" guessed wrong, so
   * the host's vote points are withheld.
   */
  lemma HostGuessPassesCountTest()
    ensures var s := SampleRoom(map["h" := "v0", "c1" := "v0", "c2" := "v1"]);
      WellFormed(s) && AllChildrenCorrect(s, "v0") &&
      "c2" in s.players && !s.players["c2"].isHost && s.guesses["c2"] != "v0"
  {
    var s := SampleRoom(map["h" := "v0", "c1" := "v0", "c2" := "v1"]);
    SampleRoomWellFormed(s.guesses);
    assert (set p | p in s.players && !s.players[p].isHost) == {"c1", "c2"};
    assert (set q | q in s.guesses.Keys && q in s.guesses && s.guesses[q] == "v0") == {"h", "c1"};
  }

  /**
   * The host's own guess can also spoil the test: with every child right and
   * the host guessing its own video too, the count exceeds the number of
   * children, and the host's vote points are paid.
   */
  lemma HostGuessFailsCountTest()
    ensures var s := SampleRoom(map["h" := "v0", "c1" := "v0", "c2" := "v0"]);
      WellFormed(s) && !AllChildrenCorrect(s, "v0") &&
      forall c :: c in s.players && !s.players[c].isHost ==> c in s.guesses && s.guesses[c] == "v0"
  {
    var s := SampleRoom(map["h" := "v0", "c1" := "v0", "c2" := "v0"]);
    SampleRoomWellFormed(s.guesses);
    assert (set p | p in s.players && !s.players[p].isHost) == {"c1", "c2"};
    assert (set q | q in s.guesses.Keys && q in s.guesses && s.guesses[q] == "v0") == {"h", "c1", "c2"};
  }

  /** Points for a guess naming the host's video. */
  function GuessAward(s: RoomState, hostVideoId: string, p: string): int {
    if p in s.guesses && s.guesses[p] == hostVideoId then s.settings.points.guessCorrect else 0
  }

  /** Points one submission earns the player `p`. */
  function VoteAward(s: RoomState, allCorrect: bool, v: Video, p: string): int {
    var votes := Votes(s.guesses, v.videoId);
    if v.playerId == Some(p) && votes > 0 && !(p == s.hostId && allCorrect)
    then votes * s.settings.points.voteReceived
    else 0
  }

  /** The vote points `p` earns from the submissions `videos`. */
  function VoteSum(s: RoomState, allCorrect: bool, videos: seq<Video>, p: string): int
    decreases |videos|
  {
    if |videos| == 0 then 0
    else VoteSum(s, allCorrect, videos[..|videos| - 1], p) + VoteAward(s, allCorrect, videos[|videos| - 1], p)
  }

  /** `h` added `n` times over, as a loop that adds `h` once per correct match does. */
  function Repeated(n: nat, h: int): int
    decreases n
  {
    if n == 0 then 0 else Repeated(n - 1, h) + h
  }

  lemma {:induction false} RepeatedIsProduct(n: nat, h: int)
    ensures Repeated(n, h) == n * h
    decreases n
  {
    if n > 0 {
      RepeatedIsProduct(n - 1, h);
      assert (n - 1) * h + h == n * h;
    }
  }

  /** Scoring one more submission adds exactly what that submission earns. */
  lemma VoteSumStep(s: RoomState, allCorrect: bool, videos: seq<Video>, i: nat)
    requires i < |videos|
    ensures forall p :: (VoteSum(s, allCorrect, videos[..i + 1], p)
      == VoteSum(s, allCorrect, videos[..i], p) + VoteAward(s, allCorrect, videos[i], p))
  {
    assert videos[..i + 1][..i] == videos[..i];
  }

  /** The host matched `child` to the video id of the first submission owned by `child`. */
  predicate MatchCorrect(videos: seq<Video>, child: string, videoId: string) {
    var i := FindOwned(videos, child);
    i.Some? && videos[i.value].videoId == videoId
  }

  /** How many of the matches for the children in `keys` are correct. */
  function CorrectMatches(s: RoomState, keys: set<string>): nat {
    |set c | c in keys && c in s.matches && MatchCorrect(s.videos, c, s.matches[c])|
  }

  lemma CorrectMatchesAdd(s: RoomState, keys: set<string>, c: string)
    requires c !in keys && c in s.matches
    ensures CorrectMatches(s, keys + {c})
         == CorrectMatches(s, keys) + (if MatchCorrect(s.videos, c, s.matches[c]) then 1 else 0)
  {
    var before := set q | q in keys && q in s.matches && MatchCorrect(s.videos, q, s.matches[q]);
    var after := set q | q in keys + {c} && q in s.matches && MatchCorrect(s.videos, q, s.matches[q]);
    if MatchCorrect(s.videos, c, s.matches[c]) {
      assert after == before + {c};
    } else {
      assert after == before;
    }
  }
  /** Points the host earns for correct matches; nobody else earns any. */
  function MatchAward(s: RoomState, p: string): int {
    if p == s.hostId then CorrectMatches(s, s.matches.Keys) * s.settings.points.hostMatch else 0
  }

  /** Everything `p` earns in the round whose host video id is `hostVideoId`. */
  function Award(s: RoomState, hostVideoId: string, p: string): int {
    GuessAward(s, hostVideoId, p)
      + VoteSum(s, AllChildrenCorrect(s, hostVideoId), s.videos, p)
      + MatchAward(s, p)
  }

  /**
   * The players after scoring. Nothing is awarded when the host has no
   * submission; otherwise every player present gains its award.
   */
  function Scored(s: RoomState): (players: map<string, Player>)
    ensures players.Keys == s.players.Keys
    ensures forall p :: p in players ==> players[p].(score := s.players[p].score) == s.players[p]
    ensures FindOwned(s.videos, s.hostId).None? ==> players == s.players
  {
    match FindOwned(s.videos, s.hostId)
    case None => s.players
    case Some(h) =>
      map p | p in s.players :: s.players[p].(score := s.players[p].score + Award(s, s.videos[h].videoId, p))
  }

  lemma {:induction false} VoteSumNonNegative(s: RoomState, allCorrect: bool, videos: seq<Video>, p: string)
    requires s.settings.points.voteReceived >= 0
    ensures VoteSum(s, allCorrect, videos, p) >= 0
    decreases |videos|
  {
    if |videos| > 0 {
      VoteSumNonNegative(s, allCorrect, videos[..|videos| - 1], p);
    }
  }

  /** With non-negative point values no score ever goes down. */
  lemma ScoresNeverDecrease(s: RoomState)
    requires s.settings.points.guessCorrect >= 0
    requires s.settings.points.voteReceived >= 0
    requires s.settings.points.hostMatch >= 0
    ensures forall p :: p in s.players ==> Scored(s)[p].score >= s.players[p].score
  {
    match FindOwned(s.videos, s.hostId)
    case None =>
    case Some(h) =>
      var hv := s.videos[h].videoId;
      forall p | p in s.players
        ensures Scored(s)[p].score >= s.players[p].score
      {
        VoteSumNonNegative(s, AllChildrenCorrect(s, hv), s.videos, p);
      }
  }

  lemma {:induction false} HostVoteSumSuppressed(s: RoomState, videos: seq<Video>)
    ensures VoteSum(s, true, videos, s.hostId) == 0
    decreases |videos|
  {
    if |videos| > 0 {
      HostVoteSumSuppressed(s, videos[..|videos| - 1]);
    }
  }

  /**
   * When the count test holds (as many guesses name the host's video as there
   * are children, and there is a child), the host earns no vote points: only
   * its match points are added.
   */
  lemma TooEasyVideoEarnsNoVotes(s: RoomState, h: nat)
    requires FindOwned(s.videos, s.hostId) == Some(h)
    requires AllChildrenCorrect(s, s.videos[h].videoId)
    requires s.hostId in s.players && s.hostId !in s.guesses
    ensures Scored(s)[s.hostId].score
         == s.players[s.hostId].score + CorrectMatches(s, s.matches.Keys) * s.settings.points.hostMatch
  {
    HostVoteSumSuppressed(s, s.videos);
  }

  /** A player other than the host earns its guess and vote points and nothing for matches. */
  lemma ChildrenEarnNoMatchPoints(s: RoomState, h: nat, p: string)
    requires FindOwned(s.videos, s.hostId) == Some(h)
    requires p in s.players && p != s.hostId
    ensures Scored(s)[p].score == s.players[p].score
      + GuessAward(s, s.videos[h].videoId, p)
      + VoteSum(s, AllChildrenCorrect(s, s.videos[h].videoId), s.videos, p)
  {
  }
}
