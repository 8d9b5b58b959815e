/**
 * The game: a board, the players in turn order, whose turn it is, whether the
 * game is over, and the history of plies. `make_move` plays a ply for real,
 * `test_move` tries one for the search (accumulating scores on the side), and
 * `final` / `unfinal` add / take back the end-of-game scores.
 */
module Games {
  import opened Wrappers
  import opened Cards
  import opened Grid
  import opened Boards
  import opened Players

  /** What `make_move` returns: `Done`, or the board's refusal for a human player. */
  datatype MoveResult = Done | Rejected(error: UpdateError)

  /** What `test_move` returns: the side scores, the next turn, whether the game ends and the discard; or the refusal. */
  datatype TestResult =
    | Tested(alter: seq<int>, pTurn: nat, gameover: bool, discard: Card)
    | TestRejected(error: UpdateError)

  /** The ring score of each suit on a grid. */
  function RingScores(g: Grid, n: nat, jp: nat, suits: seq<string>): (r: seq<int>)
    requires IsSquare(g, n) && Geometry(n, jp)
    ensures |r| == |suits| && forall i :: 0 <= i < |suits| ==> r[i] == RingScore(g, n, jp, suits[i])
  {
    seq(|suits|, i requires 0 <= i < |suits| => RingScore(g, n, jp, suits[i]))
  }

  /** The index of the first delta that `alter_score` refuses (above 500), or |deltas| if there is none. */
  function FirstAbove(deltas: seq<int>): (r: nat)
    ensures r <= |deltas|
    ensures forall k :: 0 <= k < r ==> deltas[k] <= 500
    ensures r < |deltas| ==> deltas[r] > 500
  {
    if deltas == [] || deltas[0] > 500 then 0 else 1 + FirstAbove(deltas[1..])
  }

  /** The first refused delta is at `i` when all before it pass and it is refused or the end. */
  lemma {:induction false} FirstAboveAt(deltas: seq<int>, i: nat)
    requires i <= |deltas| && forall k :: 0 <= k < i ==> deltas[k] <= 500
    requires i < |deltas| ==> deltas[i] > 500
    ensures FirstAbove(deltas) == i
  {
    if i > 0 {
      FirstAboveAt(deltas[1..], i - 1);
    }
  }

  /** The negation of each delta. */
  function Negated(deltas: seq<int>): (r: seq<int>)
    ensures |r| == |deltas| && forall k :: 0 <= k < |deltas| ==> r[k] == -deltas[k]
  {
    seq(|deltas|, k requires 0 <= k < |deltas| => -deltas[k])
  }

  /** The scores after the players before `stop` got their delta added. */
  function Added(scores: seq<int>, deltas: seq<int>, stop: nat): (r: seq<int>)
    requires |scores| == |deltas|
    ensures |r| == |scores| && forall k :: 0 <= k < |scores| ==> r[k] == scores[k] + if k < stop then deltas[k] else 0
  {
    seq(|scores|, k requires 0 <= k < |scores| == |deltas| => scores[k] + if k < stop then deltas[k] else 0)
  }

  /**
   * `unfinal` undoes `final`: when no ring score is above 500 or below -500,
   * neither refuses a player, and taking the ring scores off again gives every
   * player back the score they had before.
   */
  lemma UnfinalUndoesFinal(scores: seq<int>, rings: seq<int>)
    requires |scores| == |rings| && forall k :: 0 <= k < |rings| ==> -500 <= rings[k] <= 500
    ensures FirstAbove(rings) == |rings| && FirstAbove(Negated(rings)) == |rings|
    ensures Added(Added(scores, rings, FirstAbove(rings)), Negated(rings), FirstAbove(Negated(rings))) == scores
  {
    FirstAboveAt(rings, |rings|);
    FirstAboveAt(Negated(rings), |rings|);
    var back := Added(Added(scores, rings, |rings|), Negated(rings), |rings|);
    assert forall k :: 0 <= k < |scores| ==> back[k] == scores[k];
  }

  /** `not any(not c.played for c in hand)`: every card of the hand is flagged played (true of an empty hand). */
  method AllPlayed(hand: seq<Card>, played: set<nat>) returns (r: bool)
    ensures r <==> forall k :: 0 <= k < |hand| ==> hand[k].id in played
  {
    var k := 0;
    while k < |hand|
      invariant 0 <= k <= |hand|
      invariant forall j :: 0 <= j < k ==> hand[j].id in played
    {
      if hand[k].id !in played {
        return false;
      }
      k := k + 1;
    }
    return true;
  }

  class Game {
    const board: Board
    const players: seq<Player>
    /** The flags of every card, shared with the board and the players. */
    const flags: Flags
    var pTurn: nat
    var gameover: bool
    /** Each ply tried with `make_move`, with its discard (None where the board refused it). */
    var history: seq<(Ply, Option<Card>)>

    /**
     * `Game(game_state)`: takes over the state's board, players, turn and
     * game-over flag, and starts an empty history.
     */
    constructor (board: Board, players: seq<Player>, flags: Flags, pTurn: nat, gameover: bool)
      requires board.Valid() && board.flags == flags && 0 < |players| && pTurn < |players|
      requires forall i :: 0 <= i < |players| ==> players[i].flags == flags && players[i].seat == i
      ensures Valid()
      ensures this.board == board && this.players == players && this.flags == flags
      ensures this.pTurn == pTurn && this.gameover == gameover && history == []
    {
      this.board, this.players, this.flags := board, players, flags;
      this.pTurn, this.gameover, history := pTurn, gameover, [];
    }

    ghost predicate Valid()
      reads this`pTurn, board`cards, board`blanks
    {
      && board.Valid() && board.flags == flags && 0 < |players| && pTurn < |players|
      && (forall i :: 0 <= i < |players| ==> players[i].flags == flags && players[i].seat == i)
    }

    /** The players' suits, in turn order. */
    function Suits(): (r: seq<string>)
      ensures |r| == |players| && forall i :: 0 <= i < |players| ==> r[i] == players[i].suit
    {
      seq(|players|, i requires 0 <= i < |players| => players[i].suit)
    }

    /** What `board.score` gives each player on the current grid (ignoring whether the board is final). */
    ghost function Rings(): (r: seq<int>)
      reads board`cards, board`blanks
      requires board.Valid()
      ensures |r| == |players|
    {
      RingScores(board.cards, board.size, board.jokerPos, Suits())
    }

    /** No card of the hand is left unplayed (true of an empty hand). */
    ghost predicate HandDone(q: nat)
      reads players, flags`played
      requires q < |players|
    {
      forall k :: 0 <= k < |players[q].hand| ==> players[q].hand[k].id in flags.played
    }

    /** Each side score plus the ring score of that player's suit. */
    ghost function PlusRings(alter: seq<int>): (r: seq<int>)
      reads board`cards, board`blanks
      requires board.Valid() && |alter| == |players|
      ensures |r| == |players|
      ensures forall i :: 0 <= i < |players| ==>
        r[i] == alter[i] + RingScore(board.cards, board.size, board.jokerPos, players[i].suit)
    {
      var rings := Rings();
      seq(|players|, i requires 0 <= i < |players| => alter[i] + rings[i])
    }

    /** The side scores after a test move: every player's ring when the game ends, else only the next player's. */
    ghost function TestScores(alter: seq<int>, q: nat, over: bool): (r: seq<int>)
      reads board`cards, board`blanks
      requires board.Valid() && q < |players| && |alter| == |players|
      ensures |r| == |players|
    {
      if over then PlusRings(alter) else alter[q := alter[q] + Rings()[q]]
    }

    /** The game-over branch of `test_move`: every player's side score gets the board's score of their suit. */
    method AddRings(alter: seq<int>) returns (r: Result<seq<int>, Fault>)
      requires board.Valid() && 0 < |players| == |alter|
      ensures board.final ==> r == Err(ScoredFinalisedBoard)
      ensures !board.final ==> r == Ok(PlusRings(alter))
    {
      var scores := alter;
      var i := 0;
      while i < |players|
        invariant 0 <= i <= |players| && |scores| == |players|
        invariant board.final ==> i == 0
        invariant forall j :: 0 <= j < |players| ==>
          scores[j] == alter[j] + (if j < i then RingScore(board.cards, board.size, board.jokerPos, players[j].suit) else 0)
      {
        var s := board.Score(players[i].suit);
        if s.Err? {
          return Err(s.error);
        }
        scores := scores[i := scores[i] + s.value];
        i := i + 1;
      }
      assert scores == PlusRings(alter);
      return Ok(scores);
    }

    /** Each player's score, in turn order. */
    ghost function Scores(): (r: seq<int>)
      reads players
      ensures |r| == |players| && forall k :: 0 <= k < |players| ==> r[k] == players[k].score
    {
      seq(|players|, k requires 0 <= k < |players| reads players => players[k].score)
    }

    /** Each player's hand, in turn order. */
    ghost function Hands(): (r: seq<seq<Card>>)
      reads players
      ensures |r| == |players| && forall k :: 0 <= k < |players| ==> r[k] == players[k].hand
    {
      seq(|players|, k requires 0 <= k < |players| reads players => players[k].hand)
    }

    /** Every player's score is the one in `scores0`. */
    ghost predicate ScoresAre(scores0: seq<int>)
      reads players
      requires |scores0| == |players|
    {
      forall k :: 0 <= k < |players| ==> players[k].score == scores0[k]
    }

    /** Player `p` alone got `delta` added to the scores `scores0`. */
    ghost predicate ScoreAddedTo(scores0: seq<int>, p: nat, delta: int)
      reads players
      requires |scores0| == |players|
    {
      forall k :: 0 <= k < |players| ==> players[k].score == scores0[k] + (if k == p then delta else 0)
    }

    /** Every player but `p` holds the hand in `hands0`. */
    ghost predicate OtherHandsAre(hands0: seq<seq<Card>>, p: nat)
      reads players
      requires |hands0| == |players|
    {
      forall k :: 0 <= k < |players| && k != p ==> players[k].hand == hands0[k]
    }

    /** The players before `stop` got their delta added to the scores `scores0`; the others kept theirs. */
    ghost predicate ScoresAdded(scores0: seq<int>, deltas: seq<int>, stop: nat)
      reads players
      requires |scores0| == |deltas| == |players|
    {
      forall k :: 0 <= k < |players| ==> players[k].score == scores0[k] + (if k < stop then deltas[k] else 0)
    }

    /** `ScoresAdded` says the scores are `Added(scores0, deltas, stop)`. */
    lemma ScoresAddedAre(scores0: seq<int>, deltas: seq<int>, stop: nat)
      requires |scores0| == |deltas| == |players|
      ensures ScoresAdded(scores0, deltas, stop) <==> Scores() == Added(scores0, deltas, stop)
    {
      if ScoresAdded(scores0, deltas, stop) {
        assert forall k :: 0 <= k < |players| ==> Scores()[k] == Added(scores0, deltas, stop)[k];
      }
    }

    /** One step of the score loop: player `i` gets the board's score of their suit, or its negation, added. */
    method ScoreOne(i: nat, negate: bool) returns (r: Outcome<Fault>)
      requires Valid() && i < |players|
      modifies set k | k == i :: players[k]`score
      ensures board.final ==> r == Fail(ScoredFinalisedBoard) && players[i].score == old(players[i].score)
      ensures !board.final ==>
        var delta := if negate then -Rings()[i] else Rings()[i];
        && (delta > 500 ==> r == Fail(ScoreAboveLimit) && players[i].score == old(players[i].score))
        && (delta <= 500 ==> r == Pass && players[i].score == old(players[i].score) + delta)
    {
      var s := board.Score(players[i].suit);
      if s.Err? {
        return Fail(s.error);
      }
      var a := players[i].AlterScore(if negate then -s.value else s.value);
      if a.Err? {
        return Fail(a.error);
      }
      return Pass;
    }

    /**
     * The score loop of `final` and `unfinal`: each player in turn gets the
     * board's score of their suit, or its negation, added. Scoring a final
     * board raises at once; a delta above 500 raises at that player, the
     * players before it keeping their new scores.
     */
    method ScorePlayers(negate: bool, ghost deltas: seq<int>) returns (r: Outcome<Fault>)
      requires Valid() && deltas == if negate then Negated(Rings()) else Rings()
      modifies set k | 0 <= k < |players| :: players[k]`score
      ensures board.final ==> r == Fail(ScoredFinalisedBoard)
      ensures board.final ==> forall k :: 0 <= k < |players| ==> players[k].score == old(players[k].score)
      ensures !board.final ==>
        var stop := FirstAbove(deltas);
        && r == (if stop == |players| then Pass else Fail(ScoreAboveLimit))
        && forall k :: 0 <= k < |players| ==> players[k].score == old(players[k].score) + (if k < stop then deltas[k] else 0)
    {
      if board.final {
        // The first player's score raises.
        r := ScoreOne(0, negate);
        return;
      }
      var i := 0;
      while i < |players|
        invariant 0 <= i <= |players|
        invariant forall k :: 0 <= k < i ==> deltas[k] <= 500
        invariant forall k :: 0 <= k < |players| ==> players[k].score == old(players[k].score) + (if k < i then deltas[k] else 0)
      {
        r := ScoreOne(i, negate);
        if r.Fail? {
          FirstAboveAt(deltas, i);
          return;
        }
        i := i + 1;
      }
      FirstAboveAt(deltas, i);
      return Pass;
    }

    /**
     * What `final` leaves behind, from final flag `final0` and scores
     * `scores0`: the game is over; on a board already final the first score
     * raises; otherwise the players up to the first refused score get their
     * ring score, and the board is finalised when none is refused.
     */
    ghost predicate Finalised(r: Outcome<Fault>, final0: bool, scores0: seq<int>)
      reads this`gameover, board`final, board`cards, board`blanks, players
      requires board.Valid() && |scores0| == |players|
    {
      && gameover
      && (final0 ==> r == Fail(ScoredFinalisedBoard) && board.final && ScoresAre(scores0))
      && (!final0 ==>
            var stop := FirstAbove(Rings());
            && r == (if stop == |players| then Pass else Fail(ScoreAboveLimit))
            && board.final == (stop == |players|)
            && ScoresAdded(scores0, Rings(), stop))
    }

    /** `final`: the game is over, every player gets the board's score of their suit, and the board is finalised. */
    method Final() returns (r: Outcome<Fault>)
      requires Valid()
      modifies this`gameover, board`final, set k | 0 <= k < |players| :: players[k]`score
      ensures Valid() && Finalised(r, old(board.final), old(Scores()))
    {
      gameover := true;
      r := ScorePlayers(false, Rings());
      if r.Pass? {
        board.Finalise();
      }
    }

    /** `unfinal`: the game is not over, the board is not final, and every player loses the board's score of their suit again. */
    method Unfinal() returns (r: Outcome<Fault>)
      requires Valid()
      modifies this`gameover, board`final, set k | 0 <= k < |players| :: players[k]`score
      ensures Valid() && !gameover && !board.final
      ensures var stop := FirstAbove(Negated(Rings()));
        && r == (if stop == |players| then Pass else Fail(ScoreAboveLimit))
        && ScoresAdded(old(Scores()), Negated(Rings()), stop)
    {
      gameover := false;
      board.Unfinalise();
      r := ScorePlayers(true, Negated(Rings()));
    }

    /**
     * What the end of `make_move` leaves behind, from turn `p0`, game-over
     * flag `over0`, final flag `final0` and scores `scores0`: the turn passes
     * on; when the next player's hand is empty the game is finalised,
     * otherwise that player alone gets the board's score of their suit
     * (which raises on a final board, or above 500).
     */
    ghost predicate Advanced(r: Outcome<Fault>, p0: nat, over0: bool, final0: bool, scores0: seq<int>)
      reads this`pTurn, this`gameover, board`final, board`cards, board`blanks, players
      requires board.Valid() && 0 < |players| == |scores0|
    {
      && pTurn == (p0 + 1) % |players|
      && (players[pTurn].hand == [] ==> Finalised(r, final0, scores0))
      && (players[pTurn].hand != [] ==>
            && gameover == over0 && board.final == final0
            && (board.final ==> r == Fail(ScoredFinalisedBoard) && ScoresAre(scores0))
            && (!board.final && Rings()[pTurn] > 500 ==> r == Fail(ScoreAboveLimit) && ScoresAre(scores0))
            && (!board.final && Rings()[pTurn] <= 500 ==> r == Pass && ScoreAddedTo(scores0, pTurn, Rings()[pTurn])))
    }

    /** The end of `make_move`, after the ply was played: advance the turn and score the next player, or end the game. */
    method Advance() returns (r: Outcome<Fault>)
      requires Valid()
      modifies this`pTurn, this`gameover, board`final, set k | 0 <= k < |players| :: players[k]`score
      ensures Valid() && Advanced(r, old(pTurn), old(gameover), old(board.final), old(Scores()))
    {
      pTurn := (pTurn + 1) % |players|;
      var next := players[pTurn];
      if next.hand == [] {
        r := Final();
        return;
      }
      r := ScoreOne(pTurn, false);
    }

    /**
     * What the second half of `make_move` leaves behind for the mover `p0`,
     * from hands `hands0`, played flags `played0` (and the rest as for
     * `Advanced`): a card the mover does not hold raises and nothing changes;
     * otherwise the card leaves the mover's hand, is flagged played, and the
     * turn passes on.
     */
    ghost predicate PlayedOn(ply: Ply, r: Result<MoveResult, Fault>, p0: nat, hands0: seq<seq<Card>>,
                             played0: set<nat>, over0: bool, final0: bool, scores0: seq<int>)
      reads this`pTurn, this`gameover, board`final, board`cards, board`blanks, flags`played, players
      requires board.Valid() && p0 < |players| == |hands0| == |scores0|
    {
      && OtherHandsAre(hands0, p0)
      && match FindCard(hands0[p0], ByCard(ply.card))
         case None =>
           && r == Err(CardNotInHand) && flags.played == played0 && pTurn == p0 && gameover == over0
           && board.final == final0 && players[p0].hand == hands0[p0] && ScoresAre(scores0)
         case Some(j) =>
           && players[p0].hand == hands0[p0][..j] + hands0[p0][j + 1..]
           && flags.played == played0 + {hands0[p0][j].id}
           && Advanced(if r.Err? then Fail(r.error) else Pass, p0, over0, final0, scores0)
           && (r.Ok? ==> r.value == Done)
    }

    /** The second half of `make_move`, once the board took the ply: the mover plays the card, then `Advance`. */
    method PlayAndAdvance(ply: Ply) returns (r: Result<MoveResult, Fault>)
      requires Valid()
      modifies this`pTurn, this`gameover, board`final, flags`played
      modifies set k | 0 <= k < |players| :: players[k]`hand, set k | 0 <= k < |players| :: players[k]`score
      ensures Valid()
      ensures history == old(history) && board.cards == old(board.cards) && board.blanks == old(board.blanks)
      ensures flags.discarded == old(flags.discarded)
      ensures PlayedOn(ply, r, old(pTurn), old(Hands()), old(flags.played), old(gameover), old(board.final), old(Scores()))
    {
      var mover := players[pTurn];
      var played := mover.Play(ByCard(ply.card));
      if played.Fail? {
        return Err(played.error);
      }
      assert Scores() == old(Scores());
      var adv := Advance();
      if adv.Fail? {
        return Err(adv.error);
      }
      return Ok(Done);
    }

    /** What `make_move` would do with the ply on the current board. */
    ghost function Attempt(ply: Ply): Result<Move, UpdateError>
      reads board`cards, board`blanks, flags`discarded
      requires board.Valid() && board.flags == flags
    {
      Apply(board.cards, board.size, board.jokerPos, board.GetEmpty(), ply.card, ply.row, ply.column)
    }

    /** Nothing of the players, the turn or the game's flags changed. */
    twostate predicate Unmoved()
      reads this`pTurn, this`gameover, board`final, flags`played, players
    {
      && pTurn == old(pTurn) && gameover == old(gameover) && board.final == old(board.final)
      && flags.played == old(flags.played) && Hands() == old(Hands()) && Scores() == old(Scores())
    }

    /**
     * What the board did with the ply in the first half of `make_move`: its
     * answer `u` is the refusal of `Apply`, or the discard, or the missing
     * blank; the grid, the list of blanks, the discarded flags and the history
     * changed accordingly.
     */
    twostate predicate Placed(ply: Ply, new u: Result<Card, UpdateError>)
      reads this`history, board`cards, board`blanks, flags`discarded
      requires old(board.Valid()) && board.flags == flags
    {
      match old(Attempt(ply))
      case Err(e) =>
        && u == Err(e) && history == old(history) + [(ply, None)]
        && board.cards == old(board.cards) && board.blanks == old(board.blanks) && flags.discarded == old(flags.discarded)
      case Ok(m) =>
        && board.cards == m.grid && flags.discarded == old(flags.discarded) + {m.discard.id}
        && if m.discard.kind.Blank? && RemoveCard(old(board.blanks), m.discard.id).None? then
             u == Err(BlankNotListed) && history == old(history) && board.blanks == old(board.blanks)
           else
             && u == Ok(m.discard) && history == old(history) + [(ply, Some(m.discard))]
             && board.blanks == (if m.discard.kind.Blank? then RemoveCard(old(board.blanks), m.discard.id).value else old(board.blanks))
    }

    /** The first half of `make_move`: the board takes or refuses the ply, and the history records it. */
    method Place(ply: Ply) returns (u: Result<Card, UpdateError>)
      requires Valid() && !ply.card.kind.Joker?
      modifies this`history, board`cards, board`blanks, flags`discarded
      ensures Valid() && Placed(ply, u)
    {
      u := board.Update(ply, false);
      if u.Err? && u.error == BlankNotListed {
        return;
      }
      history := history + [(ply, if u.Ok? then Some(u.value) else None)];
    }

    /**
     * `make_move`: the board takes or refuses the ply (`placed`, as `Placed`
     * describes). A refusal is returned to a human player but raised for an
     * AI player, and a discarded blank missing from the list of blanks
     * raises; in both cases the players, the turn and the flags are
     * untouched. Otherwise the mover plays the card as `PlayedOn` describes.
     */
    method MakeMove(ply: Ply) returns (r: Result<MoveResult, Fault>, ghost placed: Result<Card, UpdateError>)
      requires Valid() && !ply.card.kind.Joker?
      modifies this`pTurn, this`gameover, this`history, board`cards, board`blanks, board`final, flags
      modifies set k | 0 <= k < |players| :: players[k]`hand, set k | 0 <= k < |players| :: players[k]`score
      ensures Valid() && Placed(ply, placed)
      ensures placed == Err(BlankNotListed) ==> r == Err(BlankMissing) && Unmoved()
      ensures placed.Err? && placed.error != BlankNotListed ==>
        && r == (if players[old(pTurn)].isAI then Err(AIError(placed.error)) else Ok(Rejected(placed.error)))
        && Unmoved()
      ensures placed.Ok? ==>
        PlayedOn(ply, r, old(pTurn), old(Hands()), old(flags.played), old(gameover), old(board.final), old(Scores()))
    {
      ghost var hands0, scores0 := Hands(), Scores();
      var u := Place(ply);
      placed := u;
      if u.Err? && u.error == BlankNotListed {
        return Err(BlankMissing), placed;
      }
      if u.Err? {
        if players[pTurn].isAI {
          return Err(AIError(u.error)), placed;
        }
        return Ok(Rejected(u.error)), placed;
      }
      assert Hands() == hands0 && Scores() == scores0;
      assert pTurn == old(pTurn) && flags.played == old(flags.played) && gameover == old(gameover) && board.final == old(board.final);
      assert Placed(ply, placed);
      r := PlayAndAdvance(ply);
    }

    /**
     * The scoring half of `test_move` once the next player `q` is known: the
     * game ends when q has no card left unplayed.
     */
    method ScoreTest(alter: seq<int>, q: nat) returns (r: Result<(seq<int>, bool), Fault>)
      requires Valid() && q < |players| && |alter| == |players|
      ensures board.final ==> r == Err(ScoredFinalisedBoard)
      ensures !board.final ==> r == Ok((TestScores(alter, q, HandDone(q)), HandDone(q)))
    {
      var next := players[q];
      var over := AllPlayed(next.hand, flags.played);
      if over {
        var added := AddRings(alter);
        if added.Err? {
          return Err(added.error);
        }
        return Ok((added.value, true));
      }
      var s := board.Score(next.suit);
      if s.Err? {
        return Err(s.error);
      }
      return Ok((alter[q := alter[q] + s.value], false));
    }

    /**
     * `test_move`: tries the ply on the board without removing a discarded
     * blank, flags the ply's card played, and adds the board's scores to the
     * side scores: everyone's when the next player has nothing left to play,
     * otherwise only the next player's.
     */
    method TestMove(ply: Ply, p: nat, alter: seq<int>) returns (r: Result<TestResult, Fault>)
      requires Valid() && p < |players| && |alter| == |players| && !ply.card.kind.Joker?
      modifies board`cards, board`blanks, flags
      ensures Valid() && board.blanks == old(board.blanks)
      ensures var m := Apply(old(board.cards), board.size, board.jokerPos, old(board.GetEmpty()), ply.card, ply.row, ply.column);
        && (m.Err? ==> r == (if players[p].isAI then Err(AIError(m.error)) else Ok(TestRejected(m.error)))
                       && board.cards == old(board.cards)
                       && flags.played == old(flags.played) && flags.discarded == old(flags.discarded))
        && (m.Ok? ==> board.cards == m.value.grid
                      && flags.played == old(flags.played) + {ply.card.id}
                      && flags.discarded == old(flags.discarded) + {m.value.discard.id})
        && (m.Ok? && board.final ==> r == Err(ScoredFinalisedBoard))
        && (m.Ok? && !board.final ==>
              var q := (p + 1) % |players|;
              r == Ok(Tested(TestScores(alter, q, HandDone(q)), q, HandDone(q), m.value.discard)))
    {
      var u := board.Update(ply, true);
      if u.Err? {
        if players[p].isAI {
          return Err(AIError(u.error));
        }
        return Ok(TestRejected(u.error));
      }
      flags.played := flags.played + {ply.card.id};
      var q := (p + 1) % |players|;
      var scored := ScoreTest(alter, q);
      if scored.Err? {
        return Err(scored.error);
      }
      var (scores, over) := scored.value;
      return Ok(Tested(scores, q, over, u.value));
    }
  }
}
