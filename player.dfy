/**
 * A player: a suit, a score and a hand of thirteen cards kept in descending
 * order of value, and the enumeration of the plies a player may try.
 */
module Players {
  import opened Wrappers
  import opened Cards
  import opened Grid
  import opened Boards

  /** How a card is named to `in_hand` and `play`: by its (display) name, or by the card itself. */
  datatype CardRef = ByName(name: string) | ByCard(card: Card)

  /** A hand card answers to a name equal to its own, or to itself (cards are compared by identity). */
  predicate Matches(c: Card, ref: CardRef)
  {
    match ref
    case ByName(nm) => c.name == nm
    case ByCard(d) => c.id == d.id
  }

  /** The index of the first hand card that answers to `ref`, if any. */
  function FindCard(hand: seq<Card>, ref: CardRef): (r: Option<nat>)
    ensures r.None? <==> forall k :: 0 <= k < |hand| ==> !Matches(hand[k], ref)
    ensures r.Some? ==> r.value < |hand| && Matches(hand[r.value], ref)
    ensures r.Some? ==> forall k :: 0 <= k < r.value ==> !Matches(hand[k], ref)
  {
    if hand == [] then None
    else if Matches(hand[0], ref) then Some(0)
    else match FindCard(hand[1..], ref)
      case None => None
      case Some(k) => Some(k + 1)
  }

  /** Values never increase from left to right. */
  ghost predicate SortedDesc(s: seq<Card>)
  {
    forall i, j :: 0 <= i < j < |s| ==> s[i].value >= s[j].value
  }

  /** Inserts `c` before the first card worth no more than it. */
  function InsertDesc(c: Card, s: seq<Card>): (r: seq<Card>)
    ensures multiset(r) == multiset(s) + multiset{c}
  {
    if s == [] || c.value >= s[0].value then [c] + s
    else
      assert s == [s[0]] + s[1..];
      [s[0]] + InsertDesc(c, s[1..])
  }

  /** Inserting a card worth at most `v` among cards worth at most `v` gives cards worth at most `v`. */
  lemma {:induction false} InsertDescBounded(c: Card, s: seq<Card>, v: int)
    requires c.value <= v && forall k :: 0 <= k < |s| ==> s[k].value <= v
    ensures forall k :: 0 <= k < |InsertDesc(c, s)| ==> InsertDesc(c, s)[k].value <= v
  {
    if s != [] && c.value < s[0].value {
      InsertDescBounded(c, s[1..], v);
    }
  }

  /** A card worth at least every card of a descending sequence can head it. */
  lemma ConsSorted(x: Card, s: seq<Card>)
    requires SortedDesc(s) && forall k :: 0 <= k < |s| ==> x.value >= s[k].value
    ensures SortedDesc([x] + s)
  {
    var r := [x] + s;
    forall i, j | 0 <= i < j < |r|
      ensures r[i].value >= r[j].value
    {
      assert r[j] == s[j - 1];
      if i > 0 {
        assert r[i] == s[i - 1];
      }
    }
  }

  /** Inserting into a descending sequence keeps it descending. */
  lemma {:induction false} InsertDescSorted(c: Card, s: seq<Card>)
    requires SortedDesc(s)
    ensures SortedDesc(InsertDesc(c, s))
  {
    if s == [] || c.value >= s[0].value {
      ConsSorted(c, s);
    } else {
      InsertDescSorted(c, s[1..]);
      InsertDescBounded(c, s[1..], s[0].value);
      ConsSorted(s[0], InsertDesc(c, s[1..]));
    }
  }

  /** `sorted(cards, key=-value)`: a stable sort into descending order of value. */
  function SortDesc(s: seq<Card>): (r: seq<Card>)
    ensures multiset(r) == multiset(s)
    ensures SortedDesc(r)
  {
    if s == [] then []
    else
      assert s == [s[0]] + s[1..];
      InsertDescSorted(s[0], SortDesc(s[1..]));
      InsertDesc(s[0], SortDesc(s[1..]))
  }

  /** The cards of `s` worth exactly `v`, in their order in `s`. */
  function WithValue(s: seq<Card>, v: int): seq<Card>
  {
    if s == [] then [] else (if s[0].value == v then [s[0]] else []) + WithValue(s[1..], v)
  }

  lemma {:induction false} InsertDescWithValue(c: Card, s: seq<Card>, v: int)
    ensures WithValue(InsertDesc(c, s), v) == (if c.value == v then [c] else []) + WithValue(s, v)
  {
    if s == [] || c.value >= s[0].value {
      assert ([c] + s)[1..] == s;
    } else {
      InsertDescWithValue(c, s[1..], v);
      assert ([s[0]] + InsertDesc(c, s[1..]))[1..] == InsertDesc(c, s[1..]);
    }
  }

  /** The sort is stable: cards of equal value keep their relative order. */
  lemma {:induction false} SortDescStable(s: seq<Card>, v: int)
    ensures WithValue(SortDesc(s), v) == WithValue(s, v)
  {
    if s != [] {
      SortDescStable(s[1..], v);
      InsertDescWithValue(s[0], SortDesc(s[1..]), v);
    }
  }

  /** The k-th card dealt to a suit: the k-th standard name, owned by the player in seat `seat`. */
  function DealtCard(suit: string, seat: nat, firstId: nat, k: nat): (c: Card)
    requires k < |StandardNames|
    ensures Some(c) == NewCard(firstId + k, StandardNames[k], suit, Some(seat))
    ensures c.id == firstId + k && c.kind == Plain && c.suit == suit && c.owner == Some(seat)
    ensures NameValue(StandardNames[k]) == Some(c.value)
  {
    StandardValues();
    NewCard(firstId + k, StandardNames[k], suit, Some(seat)).value
  }

  /** The thirteen cards of a suit in the order they are created, with ids firstId .. firstId+12. */
  function Deal(suit: string, seat: nat, firstId: nat): (r: seq<Card>)
    ensures |r| == |StandardNames|
    ensures forall k :: 0 <= k < |r| ==> r[k] == DealtCard(suit, seat, firstId, k)
  {
    seq(|StandardNames|, k requires 0 <= k < |StandardNames| => DealtCard(suit, seat, firstId, k))
  }

  /** Every card of a new hand is an ordinary card of the player's suit, owned by the player. */
  lemma NewHandCards(suit: string, seat: nat, firstId: nat, c: Card)
    requires c in SortDesc(Deal(suit, seat, firstId))
    ensures c.kind == Plain && c.suit == suit && c.owner == Some(seat)
    ensures firstId <= c.id < firstId + 13
    ensures NameValue(StandardNames[c.id - firstId]) == Some(c.value)
  {
    var d := Deal(suit, seat, firstId);
    assert c in multiset(SortDesc(d));
    assert c in d;
    var k :| 0 <= k < |d| && d[k] == c;
    assert c == DealtCard(suit, seat, firstId, k);
    assert c.id - firstId == k;
  }

  /** Which cards `enum_plies` tries: the first, or the first and the last when two options are asked for. */
  function CardChoices(hand: seq<Card>, cardOptions: int): (r: Result<seq<Card>, Fault>)
    ensures r.Err? <==> hand == [] || (|hand| > 1 && cardOptions > 1 && cardOptions != 2)
    ensures r.Err? ==> r.error == (if |hand| > 1 then CardOptionsNotImplemented else EmptyHand)
    ensures r.Ok? && (|hand| == 1 || cardOptions <= 1) ==> r.value == [hand[0]]
    ensures r.Ok? && |hand| > 1 && cardOptions == 2 ==> r.value == [hand[0], hand[|hand| - 1]]
  {
    if |hand| > 1 && cardOptions > 1 then
      if cardOptions == 2 then Ok([hand[0], hand[|hand| - 1]]) else Err(CardOptionsNotImplemented)
    else if hand == [] then Err(EmptyHand)
    else Ok([hand[0]])
  }

  /** The positions `enum_plies` tries: the empty cells in the setup phase, otherwise every edge sentinel. */
  function PositionOptions(empty: seq<Pos>, n: nat): seq<Pos>
  {
    if |empty| > 0 then empty else Sentinels(n)
  }

  /** Every card paired with every position, card by card. */
  function Product(cards: seq<Card>, positions: seq<Pos>): (r: seq<Ply>)
    ensures |r| == |cards| * |positions|
  {
    if cards == [] then []
    else (seq(|positions|, k requires 0 <= k < |positions| => Ply(cards[0], positions[k].0, positions[k].1))
      + Product(cards[1..], positions))
  }

  /** The ply at index `a * |positions| + b` pairs the a-th card with the b-th position. */
  lemma {:induction false} ProductAt(cards: seq<Card>, positions: seq<Pos>, a: nat, b: nat)
    requires a < |cards| && b < |positions|
    ensures a * |positions| + b < |Product(cards, positions)|
    ensures Product(cards, positions)[a * |positions| + b] == Ply(cards[a], positions[b].0, positions[b].1)
  {
    var m := |positions|;
    if a > 0 {
      ProductAt(cards[1..], positions, a - 1, b);
      assert a * m + b == m + ((a - 1) * m + b);
    }
  }

  /** A ply of the product has one of the cards and one of the positions. */
  lemma {:induction false} ProductMembers(cards: seq<Card>, positions: seq<Pos>, p: Ply)
    requires p in Product(cards, positions)
    ensures p.card in cards && (p.row, p.column) in positions
  {
    if cards != [] {
      var head := seq(|positions|, k requires 0 <= k < |positions| => Ply(cards[0], positions[k].0, positions[k].1));
      assert Product(cards, positions) == head + Product(cards[1..], positions);
      if p !in head {
        ProductMembers(cards[1..], positions, p);
      }
    }
  }

  /** `enum_plies`: every chosen card with every position option, or the exception raised on the way. */
  function EnumPlies(hand: seq<Card>, cardOptions: int, empty: seq<Pos>, n: nat): (r: Result<seq<Ply>, Fault>)
    ensures r.Err? <==> CardChoices(hand, cardOptions).Err?
  {
    match CardChoices(hand, cardOptions)
    case Err(e) => Err(e)
    case Ok(cs) => Ok(Product(cs, PositionOptions(empty, n)))
  }

  /**
   * Every enumerated ply is one the board accepts: in the setup phase it names
   * an empty cell, in the rotation phase a legal edge insertion; and every
   * empty cell (setup) or every legal insertion (rotation) is tried with each
   * chosen card.
   */
  lemma EnumPliesAccepted(hand: seq<Card>, cardOptions: int, g: Grid, n: nat, jp: nat, empty: seq<Pos>, p: Ply)
    requires Geometry(n, jp) && IsSquare(g, n) && EnumPlies(hand, cardOptions, empty, n).Ok?
    requires forall q :: q in empty ==> 1 <= q.0 <= n && 1 <= q.1 <= n
    requires p in EnumPlies(hand, cardOptions, empty, n).value
    ensures p.card in hand
    ensures Apply(g, n, jp, empty, p.card, p.row, p.column).Ok?
  {
    var cs := CardChoices(hand, cardOptions).value;
    ProductMembers(cs, PositionOptions(empty, n), p);
    if |empty| == 0 {
      SentinelsAreValidRotations(n, (p.row, p.column));
      RotateRefusesExactlyInvalid(g, n, jp, p.card, p.row, p.column);
    }
  }

  /** When `enum_plies` succeeds it offers at least one ply. */
  lemma EnumPliesNonEmpty(hand: seq<Card>, cardOptions: int, empty: seq<Pos>, n: nat)
    requires n > 0 && EnumPlies(hand, cardOptions, empty, n).Ok?
    ensures |EnumPlies(hand, cardOptions, empty, n).value| > 0
  {
    var cs := CardChoices(hand, cardOptions).value;
    assert |cs| > 0;
    SentinelsAreValidRotations(n, (0, 1));
  }

  /** Conversely, each chosen card is tried at every position option. */
  lemma EnumPliesComplete(hand: seq<Card>, cardOptions: int, empty: seq<Pos>, n: nat, c: Card, pos: Pos)
    requires EnumPlies(hand, cardOptions, empty, n).Ok?
    requires c in CardChoices(hand, cardOptions).value
    requires if |empty| > 0 then pos in empty else ValidRotation(n, pos.0, pos.1)
    ensures Ply(c, pos.0, pos.1) in EnumPlies(hand, cardOptions, empty, n).value
  {
    var cs, ps := CardChoices(hand, cardOptions).value, PositionOptions(empty, n);
    SentinelsAreValidRotations(n, pos);
    var a :| 0 <= a < |cs| && cs[a] == c;
    var b :| 0 <= b < |ps| && ps[b] == pos;
    ProductAt(cs, ps, a, b);
  }

  /**
   * A player. `seat` is the player's index in the game, which the cards of the
   * player's suit carry as their owner.
   */
  class Player {
    const name: string
    const suit: string
    const seat: nat
    const cardOptions: int
    const isAI: bool
    /** The flags of every card, shared with the board and the game. */
    const flags: Flags
    var score: int
    var hand: seq<Card>

    /** `Player(name, suit, card_options)`: score 0 and the thirteen cards of the suit, highest value first. */
    constructor (name: string, suit: string, seat: nat, cardOptions: int, isAI: bool, flags: Flags, firstId: nat)
      modifies flags
      ensures forall k :: 0 <= k < |hand| ==> hand[k].kind == Plain && hand[k].owner == Some(seat)
      ensures this.name == name && this.suit == suit && this.seat == seat && this.cardOptions == cardOptions
      ensures this.isAI == isAI && this.flags == flags
      ensures score == 0 && hand == SortDesc(Deal(suit, seat, firstId))
      ensures flags.played == old(flags.played) - IdRange(firstId, 13)
      ensures flags.discarded == old(flags.discarded) - IdRange(firstId, 13)
    {
      this.name, this.suit, this.seat, this.cardOptions, this.isAI, this.flags := name, suit, seat, cardOptions, isAI, flags;
      score := 0;
      hand := SortDesc(Deal(suit, seat, firstId));
      new;
      forall k | 0 <= k < |hand|
        ensures hand[k].kind == Plain && hand[k].owner == Some(seat)
      {
        NewHandCards(suit, seat, firstId, hand[k]);
      }
      var ids := IdRange(firstId, 13);
      flags.played := flags.played - ids;
      flags.discarded := flags.discarded - ids;
    }

    /** `in_hand`: the first hand card answering to `ref`, or None (Python's False). */
    method InHand(ref: CardRef) returns (r: Option<Card>)
      ensures r.None? <==> forall k :: 0 <= k < |hand| ==> !Matches(hand[k], ref)
      ensures r.Some? ==> FindCard(hand, ref).Some? && r.value == hand[FindCard(hand, ref).value]
    {
      var i := 0;
      while i < |hand|
        invariant 0 <= i <= |hand|
        invariant forall k :: 0 <= k < i ==> !Matches(hand[k], ref)
      {
        if Matches(hand[i], ref) {
          assert FindCard(hand, ref) == Some(i) by {
            var f := FindCard(hand, ref);
            assert f.Some? && f.value <= i;
          }
          return Some(hand[i]);
        }
        i := i + 1;
      }
      return None;
    }

    /** `play`: removes the first card answering to `ref` and flags it played; raises if there is none. */
    method Play(ref: CardRef) returns (r: Outcome<Fault>)
      modifies this`hand, flags`played
      ensures match FindCard(old(hand), ref)
        case None => r == Fail(CardNotInHand) && hand == old(hand) && flags.played == old(flags.played)
        case Some(k) => r == Pass && hand == old(hand)[..k] + old(hand)[k + 1..]
                        && flags.played == old(flags.played) + {old(hand)[k].id}
    {
      var found := InHand(ref);
      if found.None? {
        return Fail(CardNotInHand);
      }
      var i := 0;
      while !Matches(hand[i], ref)
        invariant 0 <= i <= FindCard(hand, ref).value
        decreases FindCard(hand, ref).value - i
      {
        i := i + 1;
      }
      flags.played := flags.played + {hand[i].id};
      hand := hand[..i] + hand[i + 1..];
      r := Pass;
    }

    /** `alter_score`: adds `delta` and returns the new score; a delta above 500 raises and changes nothing. */
    method AlterScore(delta: int) returns (r: Result<int, Fault>)
      modifies this`score
      ensures delta > 500 ==> r == Err(ScoreAboveLimit) && score == old(score)
      ensures delta <= 500 ==> r == Ok(score) && score == old(score) + delta
    {
      if delta > 500 {
        return Err(ScoreAboveLimit);
      }
      score := score + delta;
      return Ok(score);
    }
  }
}
