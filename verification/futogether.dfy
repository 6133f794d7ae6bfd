/**
 * The stand-alone round scorer of culcFutogether.py
 * (`calculate_watch_futogether_scores`): the points each player earns in
 * one round, computed over plain dictionaries. Its result is the `scores`
 * dictionary, or the key of the dictionary lookup that raises a KeyError.
 *
 * The method `CalculateScores` follows the source's loops; `RoundScores`
 * states each player's points directly, and the method is proved to
 * compute it.
 */
module Futogether {
  import opened Wrappers
  import opened GameTypes
  import Transitions
  import Scoring

  /** Points for a child who guessed the parent's video. */
  const GuessPointsEach := 10
  /** Points per vote a player's video receives. */
  const VotePointsEach := 5
  /** Points per child the parent matched to the right video. */
  const MatchPointsEach := 5

  /**
   * The `submissions` dictionary in insertion order, as (player, video)
   * pairs. A lookup takes the first pair with the key, which for a
   * dictionary is the only one.
   */
  type Submissions = seq<(string, string)>

  /** `submissions[player]`: the video `player` submitted; nothing when the key is missing. */
  function Lookup(subs: Submissions, player: string): (r: Option<string>)
    ensures r.Some? ==> (player, r.value) in subs
    ensures r.None? <==> forall i :: 0 <= i < |subs| ==> subs[i].0 != player
  {
    if |subs| == 0 then None
    else if subs[0].0 == player then Some(subs[0].1)
    else
      var r := Lookup(subs[1..], player);
      assert forall i :: 1 <= i < |subs| ==> subs[i] == subs[1..][i - 1];
      r
  }

  /** The first player, in insertion order, whose submission is `video`: the `next(...)` search over `submissions.items()`. */
  function FirstSubmitter(subs: Submissions, video: string): (r: Option<string>)
    ensures r.Some? ==> (r.value, video) in subs
    ensures r.Some? ==> exists k ::
      0 <= k < |subs| && subs[k] == (r.value, video) &&
      forall m :: 0 <= m < k ==> subs[m].1 != video
    ensures r.None? <==> forall i :: 0 <= i < |subs| ==> subs[i].1 != video
  {
    if |subs| == 0 then None
    else if subs[0].1 == video then
      Some(subs[0].0)
    else
      var r := FirstSubmitter(subs[1..], video);
      assert forall i :: 1 <= i < |subs| ==> subs[i] == subs[1..][i - 1];
      r
  }

  /** `submissions.values()`: the videos someone submitted. */
  function Submitted(subs: Submissions): set<string> {
    set i | 0 <= i < |subs| :: subs[i].1
  }

  /** The first player, from position `i` on, that has no submission: the key the vote loop fails on. */
  function UnsubmittedFrom(players: seq<string>, subs: Submissions, i: nat): (r: Option<string>)
    ensures r.Some? ==> r.value in players && Lookup(subs, r.value).None?
    ensures r.Some? ==> exists k ::
      i <= k < |players| && players[k] == r.value &&
      forall m :: i <= m < k ==> Lookup(subs, players[m]).Some?
    ensures r.None? ==> forall k :: i <= k < |players| ==> Lookup(subs, players[k]).Some?
    decreases |players| - i
  {
    if i >= |players| then None
    else if Lookup(subs, players[i]).None? then
      Some(players[i])
    else UnsubmittedFrom(players, subs, i + 1)
  }

  /** `child_guesses.get(p) == parent_video`. */
  predicate GuessedRight(childGuesses: map<string, string>, p: string, parentVideo: string) {
    p in childGuesses && childGuesses[p] == parentVideo
  }

  /** The children whose guess is the parent's video. */
  function CorrectGuessers(players: seq<string>, parent: string, childGuesses: map<string, string>, parentVideo: string): set<string> {
    set c | c in players && c != parent && GuessedRight(childGuesses, c, parentVideo)
  }

  /** The parent forfeits its vote points: there is at least one child, and the number of correct guessers is the number of children. */
  predicate Forfeits(players: seq<string>, parent: string, childGuesses: map<string, string>, parentVideo: string) {
    var childCount := |Transitions.Without(players, parent)|;
    childCount > 0 && |CorrectGuessers(players, parent, childGuesses, parentVideo)| == childCount
  }

  /** The parent named the first submitter of `video` as its author. */
  predicate MatchRight(subs: Submissions, parentGuesses: map<string, string>, video: string) {
    video in parentGuesses && FirstSubmitter(subs, video) == Some(parentGuesses[video])
  }

  /** How many of the parent's guesses for the videos in `keys` are right. */
  function MatchedWithin(subs: Submissions, parentGuesses: map<string, string>, keys: set<string>): nat {
    |set v | v in keys && MatchRight(subs, parentGuesses, v)|
  }

  /** `parent_correct_matches`. */
  function CorrectMatches(subs: Submissions, parentGuesses: map<string, string>): nat {
    MatchedWithin(subs, parentGuesses, parentGuesses.Keys)
  }

  function GuessPoints(parent: string, childGuesses: map<string, string>, parentVideo: string, p: string): int {
    if p != parent && GuessedRight(childGuesses, p, parentVideo) then GuessPointsEach else 0
  }

  function VotePoints(parent: string, subs: Submissions, childGuesses: map<string, string>, forfeit: bool, p: string): int {
    if p == parent && forfeit then 0
    else match Lookup(subs, p)
      case None => 0
      case Some(video) => VotePointsEach * Scoring.Votes(childGuesses, video)
  }

  function MatchPoints(parent: string, matched: nat, p: string): int {
    if p == parent then MatchPointsEach * matched else 0
  }

  /**
   * The round's outcome: a KeyError on the parent when it submitted nothing,
   * then on the first player without a submission, then on the parent when
   * it earned match points but is not a player; otherwise every player's
   * guess, vote and match points.
   */
  function RoundScores(players: seq<string>, parent: string, subs: Submissions,
                       childGuesses: map<string, string>, parentGuesses: map<string, string>): (r: Result<map<string, int>, string>)
    ensures r.Success? ==> r.value.Keys == set p | p in players
  {
    match Lookup(subs, parent)
    case None => Failure(parent)
    case Some(parentVideo) =>
      var missing := UnsubmittedFrom(players, subs, 0);
      var matched := CorrectMatches(subs, parentGuesses);
      if missing.Some? then Failure(missing.value)
      else if matched > 0 && parent !in players then Failure(parent)
      else
        var forfeit := Forfeits(players, parent, childGuesses, parentVideo);
        Success(map p | p in players ::
          GuessPoints(parent, childGuesses, parentVideo, p)
          + VotePoints(parent, subs, childGuesses, forfeit, p)
          + MatchPoints(parent, matched, p))
  }

  // ---------------------------------------------------------------------
  // The scorer, loop by loop
  // ---------------------------------------------------------------------

  /** In a list without repeats, an entry does not occur before its own position. */
  lemma NotBefore(xs: seq<string>, i: nat)
    requires NoDup(xs) && i < |xs|
    ensures xs[i] !in xs[..i]
  {
    forall j | 0 <= j < i ensures xs[..i][j] != xs[i] {
      assert xs[..i][j] == xs[j];
    }
  }

  /** The correct guessers among the first `i` entries of `xs`. */
  function RightWithin(xs: seq<string>, i: nat, childGuesses: map<string, string>, parentVideo: string): set<string>
    requires i <= |xs|
  {
    set c | c in xs[..i] && GuessedRight(childGuesses, c, parentVideo)
  }

  /**
   * Looking at one more child: a right guesser joins the set, and it was not
   * in it before since the children are distinct; any other child changes
   * nothing.
   */
  lemma RightWithinStep(xs: seq<string>, i: nat, childGuesses: map<string, string>, parentVideo: string)
    requires NoDup(xs) && i < |xs|
    ensures GuessedRight(childGuesses, xs[i], parentVideo) ==>
      && xs[i] !in RightWithin(xs, i, childGuesses, parentVideo)
      && RightWithin(xs, i + 1, childGuesses, parentVideo) == RightWithin(xs, i, childGuesses, parentVideo) + {xs[i]}
    ensures !GuessedRight(childGuesses, xs[i], parentVideo) ==>
      RightWithin(xs, i + 1, childGuesses, parentVideo) == RightWithin(xs, i, childGuesses, parentVideo)
  {
    assert xs[..i + 1] == xs[..i] + [xs[i]];
    NotBefore(xs, i);
  }

  /** The guess points of the players once the right guessers `right` are rewarded. */
  function PointsFor(players: seq<string>, right: set<string>): map<string, int> {
    map p | p in players :: if p in right then GuessPointsEach else 0
  }

  /** Rewarding one more right guesser adds its points to its score alone. */
  lemma PointsForAdd(players: seq<string>, right: set<string>, c: string)
    requires c in players && c !in right
    ensures PointsFor(players, right + {c}) == PointsFor(players, right)[c := PointsFor(players, right)[c] + GuessPointsEach]
  {
  }

  /** After the last child, the rewarded children are the right guessers and their points are the guess points. */
  lemma GuessesAllAwarded(players: seq<string>, parent: string, childGuesses: map<string, string>, parentVideo: string)
    ensures var children := Transitions.Without(players, parent);
      RightWithin(children, |children|, childGuesses, parentVideo) == CorrectGuessers(players, parent, childGuesses, parentVideo)
    ensures PointsFor(players, CorrectGuessers(players, parent, childGuesses, parentVideo))
         == map p | p in players :: GuessPoints(parent, childGuesses, parentVideo, p)
  {
    var children := Transitions.Without(players, parent);
    assert children[..|children|] == children;
  }

  /**
   * The children loop: the scores start at 0 for every player, each child
   * whose guess is the parent's video gets its points, and `correct`
   * counts those children.
   */
  method AwardGuesses(players: seq<string>, parent: string, childGuesses: map<string, string>, parentVideo: string)
    returns (scores: map<string, int>, correct: nat)
    requires NoDup(players)
    ensures scores == map p | p in players :: GuessPoints(parent, childGuesses, parentVideo, p)
    ensures correct == |CorrectGuessers(players, parent, childGuesses, parentVideo)|
  {
    scores := map p | p in players :: 0;
    var children := Transitions.Without(players, parent);
    correct := 0;
    assert RightWithin(children, 0, childGuesses, parentVideo) == {};
    var i := 0;
    while i < |children|
      invariant 0 <= i <= |children|
      invariant scores == PointsFor(players, RightWithin(children, i, childGuesses, parentVideo))
      invariant correct == |RightWithin(children, i, childGuesses, parentVideo)|
    {
      var child := children[i];
      ghost var right := RightWithin(children, i, childGuesses, parentVideo);
      RightWithinStep(children, i, childGuesses, parentVideo);
      if child in childGuesses && childGuesses[child] == parentVideo {
        assert child in children;
        PointsForAdd(players, right, child);
        scores := scores[child := scores[child] + GuessPointsEach];
        correct := correct + 1;
      }
      i := i + 1;
    }
    GuessesAllAwarded(players, parent, childGuesses, parentVideo);
  }

  /** One more guess tallied adds one vote to the video it names. */
  lemma TallyStep(childGuesses: map<string, string>, done: set<string>, k: string)
    requires k !in done && k in childGuesses
    ensures forall video :: (Scoring.Tally(childGuesses, done + {k}, video)
         == Scoring.Tally(childGuesses, done, video) + (if childGuesses[k] == video then 1 else 0))
  {
    forall video
      ensures Scoring.Tally(childGuesses, done + {k}, video)
           == Scoring.Tally(childGuesses, done, video) + (if childGuesses[k] == video then 1 else 0)
    {
      Scoring.TallyAdd(childGuesses, done, k, video);
    }
  }

  /**
   * The vote count: one entry per submitted video, holding the number of
   * guesses naming it; a guess naming no submitted video is ignored.
   */
  method CountVotes(subs: Submissions, childGuesses: map<string, string>) returns (voteCounts: map<string, nat>)
    ensures voteCounts == map video | video in Submitted(subs) :: Scoring.Votes(childGuesses, video)
  {
    voteCounts := map video | video in Submitted(subs) :: 0;
    forall video ensures Scoring.Tally(childGuesses, {}, video) == 0 {
    }
    var todo := childGuesses.Keys;
    ghost var done: set<string> := {};
    while todo != {}
      invariant todo <= childGuesses.Keys && done == childGuesses.Keys - todo
      invariant voteCounts.Keys == Submitted(subs)
      invariant forall video :: video in voteCounts ==> voteCounts[video] == Scoring.Tally(childGuesses, done, video)
      decreases todo
    {
      var k :| k in todo;
      TallyStep(childGuesses, done, k);
      var guessed := childGuesses[k];
      if guessed in voteCounts {
        voteCounts := voteCounts[guessed := voteCounts[guessed] + 1];
      }
      todo := todo - {k};
      done := done + {k};
    }
    assert done == childGuesses.Keys;
  }

  /** The players loop after the first `i` players: their vote points are added to `start`. */
  ghost predicate VotesAwarded(players: seq<string>, parent: string, subs: Submissions, childGuesses: map<string, string>,
                               forfeit: bool, start: map<string, int>, i: nat, scores: map<string, int>)
  {
    && i <= |players|
    && scores.Keys == start.Keys
    && (forall p :: p in scores ==>
          scores[p] == start[p] + (if p in players[..i] then VotePoints(parent, subs, childGuesses, forfeit, p) else 0))
  }

  lemma VoteStep(players: seq<string>, parent: string, subs: Submissions, childGuesses: map<string, string>,
                 forfeit: bool, start: map<string, int>, i: nat, scores: map<string, int>, video: string)
    requires NoDup(players) && i < |players| && start.Keys == set p | p in players
    requires VotesAwarded(players, parent, subs, childGuesses, forfeit, start, i, scores)
    requires Lookup(subs, players[i]) == Some(video)
    ensures var player := players[i];
      var votes := Scoring.Votes(childGuesses, video);
      VotesAwarded(players, parent, subs, childGuesses, forfeit, start, i + 1,
        if votes == 0 || (player == parent && forfeit) then scores
        else scores[player := scores[player] + votes * VotePointsEach])
  {
    assert players[..i + 1] == players[..i] + [players[i]];
    NotBefore(players, i);
  }

  lemma VotesAllAwarded(players: seq<string>, parent: string, subs: Submissions, childGuesses: map<string, string>,
                        forfeit: bool, start: map<string, int>, scores: map<string, int>)
    requires start.Keys == set p | p in players
    requires VotesAwarded(players, parent, subs, childGuesses, forfeit, start, |players|, scores)
    ensures scores == map p | p in players :: start[p] + VotePoints(parent, subs, childGuesses, forfeit, p)
  {
    assert players[..|players|] == players;
  }

  /**
   * The players loop: every player's video earns its votes, except the
   * parent's when it forfeits. The loop stops at the first player without a
   * submission, which is reported.
   */
  method AwardVotes(players: seq<string>, parent: string, subs: Submissions, childGuesses: map<string, string>,
                    voteCounts: map<string, nat>, forfeit: bool, start: map<string, int>)
    returns (scores: map<string, int>, missing: Option<string>)
    requires NoDup(players) && start.Keys == set p | p in players
    requires voteCounts == map video | video in Submitted(subs) :: Scoring.Votes(childGuesses, video)
    ensures missing == UnsubmittedFrom(players, subs, 0)
    ensures missing.None? ==>
      scores == map p | p in players :: start[p] + VotePoints(parent, subs, childGuesses, forfeit, p)
  {
    scores := start;
    var i := 0;
    assert players[..0] == [];
    while i < |players|
      invariant UnsubmittedFrom(players, subs, i) == UnsubmittedFrom(players, subs, 0)
      invariant VotesAwarded(players, parent, subs, childGuesses, forfeit, start, i, scores)
    {
      var player := players[i];
      var video := Lookup(subs, player);
      if video.None? {
        return scores, Some(player);
      }
      assert video.value in Submitted(subs) by {
        var k :| 0 <= k < |subs| && subs[k] == (player, video.value);
      }
      VoteStep(players, parent, subs, childGuesses, forfeit, start, i, scores, video.value);
      var votes := if video.value in voteCounts then voteCounts[video.value] else 0;
      if votes > 0 {
        if !(player == parent && forfeit) {
          scores := scores[player := scores[player] + votes * VotePointsEach];
        }
      }
      i := i + 1;
    }
    VotesAllAwarded(players, parent, subs, childGuesses, forfeit, start, scores);
    missing := None;
  }

  lemma MatchedStep(subs: Submissions, parentGuesses: map<string, string>, done: set<string>, video: string)
    requires video !in done
    ensures MatchedWithin(subs, parentGuesses, done + {video})
         == MatchedWithin(subs, parentGuesses, done) + (if MatchRight(subs, parentGuesses, video) then 1 else 0)
  {
    var before := set v | v in done && MatchRight(subs, parentGuesses, v);
    var after := set v | v in done + {video} && MatchRight(subs, parentGuesses, v);
    if MatchRight(subs, parentGuesses, video) {
      assert after == before + {video};
    } else {
      assert after == before;
    }
  }

  /** The parent's guesses loop: the number of videos whose first submitter is the child the parent named. */
  method CountMatches(subs: Submissions, parentGuesses: map<string, string>) returns (matched: nat)
    ensures matched == CorrectMatches(subs, parentGuesses)
  {
    matched := 0;
    var todo := parentGuesses.Keys;
    ghost var done: set<string> := {};
    assert (set v | v in done && MatchRight(subs, parentGuesses, v)) == {};
    while todo != {}
      invariant todo <= parentGuesses.Keys && done == parentGuesses.Keys - todo
      invariant matched == MatchedWithin(subs, parentGuesses, done)
      decreases todo
    {
      var video :| video in todo;
      MatchedStep(subs, parentGuesses, done, video);
      var actual := FirstSubmitter(subs, video);
      if actual == Some(parentGuesses[video]) {
        matched := matched + 1;
      }
      todo := todo - {video};
      done := done + {video};
    }
    assert done == parentGuesses.Keys;
  }

  /** Adding the parent's match points, when there are any, completes every player's points. */
  lemma MatchesAdded(players: seq<string>, parent: string, subs: Submissions, childGuesses: map<string, string>,
                     parentVideo: string, forfeit: bool, matched: nat, start: map<string, int>, scores: map<string, int>)
    requires start == map p | p in players :: GuessPoints(parent, childGuesses, parentVideo, p)
    requires scores == map p | p in players :: start[p] + VotePoints(parent, subs, childGuesses, forfeit, p)
    requires matched > 0 ==> parent in players
    ensures (if matched > 0 then scores[parent := scores[parent] + matched * MatchPointsEach] else scores)
         == map p | p in players ::
              GuessPoints(parent, childGuesses, parentVideo, p)
              + VotePoints(parent, subs, childGuesses, forfeit, p)
              + MatchPoints(parent, matched, p)
  {
    var total := map p | p in players ::
      GuessPoints(parent, childGuesses, parentVideo, p)
      + VotePoints(parent, subs, childGuesses, forfeit, p)
      + MatchPoints(parent, matched, p);
    var after := if matched > 0 then scores[parent := scores[parent] + matched * MatchPointsEach] else scores;
    assert after.Keys == total.Keys;
    forall p | p in after ensures after[p] == total[p] {
      assert scores[p] == start[p] + VotePoints(parent, subs, childGuesses, forfeit, p);
    }
  }

  /**
   * calculate_watch_futogether_scores: the scores of one round, or the key
   * whose lookup raises a KeyError. Player names are distinct, as the
   * player setup dialog insists before it opens the score window.
   */
  method CalculateScores(players: seq<string>, parent: string, subs: Submissions,
                         childGuesses: map<string, string>, parentGuesses: map<string, string>)
    returns (r: Result<map<string, int>, string>)
    requires NoDup(players)
    ensures r == RoundScores(players, parent, subs, childGuesses, parentGuesses)
  {
    var parentVideo := Lookup(subs, parent);
    if parentVideo.None? {
      return Failure(parent);
    }
    var start, correct := AwardGuesses(players, parent, childGuesses, parentVideo.value);
    var voteCounts := CountVotes(subs, childGuesses);
    var childCount := |Transitions.Without(players, parent)|;
    var forfeit := correct == childCount && childCount > 0;
    var scores, missing := AwardVotes(players, parent, subs, childGuesses, voteCounts, forfeit, start);
    if missing.Some? {
      return Failure(missing.value);
    }
    var matched := CountMatches(subs, parentGuesses);
    if matched > 0 && parent !in scores {
      return Failure(parent);
    }
    MatchesAdded(players, parent, subs, childGuesses, parentVideo.value, forfeit, matched, start, scores);
    if matched > 0 {
      scores := scores[parent := scores[parent] + matched * MatchPointsEach];
    }
    return Success(scores);
  }

  // ---------------------------------------------------------------------
  // Properties of the round's scores
  // ---------------------------------------------------------------------

  /** Some player is not the parent. */
  predicate HasChild(players: seq<string>, parent: string) {
    exists c :: c in players && c != parent
  }

  /** Every player but the parent guessed the parent's video. */
  predicate EveryChildRight(players: seq<string>, parent: string, childGuesses: map<string, string>, parentVideo: string) {
    forall c :: c in players && c != parent ==> GuessedRight(childGuesses, c, parentVideo)
  }

  /**
   * The count test of the forfeit rule means what it says: the parent
   * forfeits exactly when there is a child and every child guessed the
   * parent's video.
   */
  lemma ForfeitsIff(players: seq<string>, parent: string, childGuesses: map<string, string>, parentVideo: string)
    requires NoDup(players)
    ensures Forfeits(players, parent, childGuesses, parentVideo) <==>
      HasChild(players, parent) && EveryChildRight(players, parent, childGuesses, parentVideo)
  {
    var children := Transitions.Without(players, parent);
    var kids := set c | c in children;
    var right := CorrectGuessers(players, parent, childGuesses, parentVideo);
    Transitions.DistinctCount(children);
    assert right <= kids;
    if EveryChildRight(players, parent, childGuesses, parentVideo) {
      assert kids <= right;
    }
    if right == kids {
      forall c | c in players && c != parent ensures GuessedRight(childGuesses, c, parentVideo) {
        assert c in kids;
      }
    }
    assert HasChild(players, parent) <==> |children| > 0 by {
      if |children| > 0 {
        assert children[0] in children;
      }
    }
    if |right| == |kids| {
      Scoring.SameSizeSubset(right, kids);
    }
  }

  /** The number of correct guessers never exceeds the number of children. */
  lemma CorrectAtMostChildren(players: seq<string>, parent: string, childGuesses: map<string, string>, parentVideo: string)
    requires NoDup(players)
    ensures |CorrectGuessers(players, parent, childGuesses, parentVideo)| <= |Transitions.Without(players, parent)|
  {
    var children := Transitions.Without(players, parent);
    Transitions.DistinctCount(children);
    Scoring.SubsetCard(CorrectGuessers(players, parent, childGuesses, parentVideo), (set c | c in children));
  }

  /**
   * The round fails exactly when the parent submitted nothing, some player
   * submitted nothing, or the parent earned match points without being a
   * player; the key reported is the parent or a player without a submission.
   */
  lemma FailsExactlyWhen(players: seq<string>, parent: string, subs: Submissions,
                         childGuesses: map<string, string>, parentGuesses: map<string, string>)
    ensures var r := RoundScores(players, parent, subs, childGuesses, parentGuesses);
      r.Failure? <==>
        || Lookup(subs, parent).None?
        || (exists p :: p in players && Lookup(subs, p).None?)
        || (CorrectMatches(subs, parentGuesses) > 0 && parent !in players)
    ensures var r := RoundScores(players, parent, subs, childGuesses, parentGuesses);
      r.Failure? ==> r.error == parent || (r.error in players && Lookup(subs, r.error).None?)
  {
    if p :| p in players && Lookup(subs, p).None? {
      var k :| 0 <= k < |players| && players[k] == p;
    }
  }

  /**
   * Every score lies between 0 and a right guess plus 5 points per guess
   * made and per match tried.
   */
  lemma ScoresBounded(players: seq<string>, parent: string, subs: Submissions,
                      childGuesses: map<string, string>, parentGuesses: map<string, string>)
    ensures var r := RoundScores(players, parent, subs, childGuesses, parentGuesses);
      r.Success? ==> forall p :: p in r.value ==>
        0 <= r.value[p] <= GuessPointsEach + VotePointsEach * |childGuesses| + MatchPointsEach * |parentGuesses|
  {
    forall video ensures Scoring.Votes(childGuesses, video) <= |childGuesses| {
      Scoring.SubsetCard((set q | q in childGuesses.Keys && q in childGuesses && childGuesses[q] == video), childGuesses.Keys);
    }
    Scoring.SubsetCard((set v | v in parentGuesses.Keys && MatchRight(subs, parentGuesses, v)), parentGuesses.Keys);
  }

  /**
   * A child's score is 10 for a right guess plus 5 per vote its video
   * received: children never earn match points.
   */
  lemma ChildScore(players: seq<string>, parent: string, subs: Submissions,
                   childGuesses: map<string, string>, parentGuesses: map<string, string>, c: string)
    ensures var r := RoundScores(players, parent, subs, childGuesses, parentGuesses);
      r.Success? && c in players && c != parent ==>
        && Lookup(subs, c).Some?
        && r.value[c] == (if GuessedRight(childGuesses, c, Lookup(subs, parent).value) then GuessPointsEach else 0)
                         + VotePointsEach * Scoring.Votes(childGuesses, Lookup(subs, c).value)
  {
    if c in players {
      var k :| 0 <= k < |players| && players[k] == c;
    }
  }

  /**
   * The parent earns no guess points; it earns 5 per vote its video
   * received unless there is a child and every child guessed that video,
   * and 5 per right match.
   */
  lemma ParentScore(players: seq<string>, parent: string, subs: Submissions,
                    childGuesses: map<string, string>, parentGuesses: map<string, string>)
    requires NoDup(players)
    ensures var r := RoundScores(players, parent, subs, childGuesses, parentGuesses);
      r.Success? && parent in players ==>
        var parentVideo := Lookup(subs, parent).value;
        var everyoneRight := HasChild(players, parent) && EveryChildRight(players, parent, childGuesses, parentVideo);
        r.value[parent] == (if everyoneRight then 0 else VotePointsEach * Scoring.Votes(childGuesses, parentVideo))
                           + MatchPointsEach * CorrectMatches(subs, parentGuesses)
  {
    if Lookup(subs, parent).Some? {
      ForfeitsIff(players, parent, childGuesses, Lookup(subs, parent).value);
    }
  }
}
