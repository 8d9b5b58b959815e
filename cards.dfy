/**
 * Cards, the two special cells (the joker and the setup blanks) and the
 * per-card flags `played` and `discarded`.
 *
 * In the game every card is an object and the two flags are attributes of
 * that object, shared by every place (grid cell, hand, ply) that refers to
 * it. Here a card is an immutable value carrying an `id`, and the flags are
 * kept in one `Flags` store as the sets of ids whose flag is set. Copying a
 * grid therefore copies cards but never their flags.
 */
module Cards {
  import opened Wrappers

  /** A 1-based (row, column) board coordinate, or an edge sentinel 0 / size+1. */
  type Pos = (int, int)

  /** The three kinds of cell: an ordinary card, the joker, and a setup blank remembering its position. */
  datatype Kind = Plain | Joker | Blank(pos: Pos)

  /** A card value. `owner` is the index of the player whose suit it belongs to. */
  datatype Card = Card(id: nat, name: string, suit: string, value: int, owner: Option<nat>, kind: Kind)

  /** A proposed move: a card and a target row and column (1-based, or an edge sentinel). */
  datatype Ply = Ply(card: Card, row: int, column: int)

  /** Why an update is refused or fails. */
  datatype UpdateError =
    | NotAnEmptyCell(empty: seq<Pos>)   // setup phase: position is not one of the empty cells
    | InvalidRowColumn                  // rotation phase: not a legal edge insertion
    | BlankNotListed                    // `blanks.remove` found no such blank (a ValueError)

  /** The exceptions the core raises. */
  datatype Fault =
    | AIError(cause: UpdateError)      // an AI player's ply was refused by the board
    | Refused(cause: UpdateError)      // a refused test move of a human player (its caller cannot unpack it)
    | CardNotInHand
    | ScoredFinalisedBoard
    | ScoreAboveLimit
    | EmptyHand                        // `hand[0]` of an empty hand
    | CardOptionsNotImplemented
    | NoWinner                         // division by the number of winners when there is none
    | UnknownOwner                     // a card whose owner is not a player of the game
    | BlankMissing                     // `blanks.remove` of a blank that is not listed

  /** The per-card flags, as the sets of ids whose flag is true. */
  class Flags {
    var played: set<nat>
    var discarded: set<nat>

    constructor ()
      ensures played == {} && discarded == {}
    {
      played, discarded := {}, {};
    }
  }

  predicate IsDigit(ch: char) { '0' <= ch <= '9' }

  predicate AllDigits(s: string) { forall k :: 0 <= k < |s| ==> IsDigit(s[k]) }

  /** The decimal value of a string of digits, most significant first. */
  function DigitsValue(s: string): nat
    requires AllDigits(s)
  {
    if s == [] then 0 else DigitsValue(s[..|s| - 1]) * 10 + (s[|s| - 1] - '0') as nat
  }

  /** Python's `int(s)` on a plain decimal numeral; anything else raises. */
  function ParseNat(s: string): Option<nat>
  {
    if s != [] && AllDigits(s) then Some(DigitsValue(s)) else None
  }

  /** Python's `str(n)` for a natural number. */
  function NatToString(n: nat): (s: string)
    ensures s != [] && AllDigits(s)
  {
    if n < 10 then [('0' as int + n) as char]
    else NatToString(n / 10) + [('0' as int + n % 10) as char]
  }

  lemma {:induction false} ParseNatToString(n: nat)
    ensures ParseNat(NatToString(n)) == Some(n)
  {
    var s := NatToString(n);
    if n < 10 {
      assert s[..|s| - 1] == [];
    } else {
      ParseNatToString(n / 10);
      assert s[..|s| - 1] == NatToString(n / 10);
      assert DigitsValue(s) == (n / 10) * 10 + n % 10;
    }
  }

  /** The markers worth 0: the placeholder, the joker's name and the blank's name. */
  const Markers: seq<string> := ["*", "Jkr", " "]

  /** The face cards worth 10. */
  const Faces: seq<string> := ["J", "Q", "K"]

  /** The value a card of this name is worth, or None where `int(name)` raises. */
  function NameValue(name: string): (r: Option<int>)
    ensures r.Some? ==> r.value >= 0
  {
    if name in Markers then Some(0)
    else if name in Faces then Some(10)
    else if name == "A" then Some(1)
    else match ParseNat(name)
      case Some(v) => Some(v)
      case None => None
  }

  /** A numeral card is worth its number. */
  lemma NumeralValue(n: nat)
    ensures NameValue(NatToString(n)) == Some(n)
  {
    var s := NatToString(n);
    ParseNatToString(n);
    assert IsDigit(s[0]);
    assert s !in Markers && s !in Faces && s != "A";
  }

  /** The name `10` is shown as `0`; every other name is kept. */
  function DisplayName(name: string): (r: string)
    ensures r != "10"
    ensures name == "10" ==> r == "0"
    ensures name != "10" ==> r == name
  {
    if name == "10" then "0" else name
  }

  /** `Card(name, suit, player)`: the value of an ordinary card, or None where `int(name)` raises. */
  function NewCard(id: nat, name: string, suit: string, owner: Option<nat>): (r: Option<Card>)
    ensures r.Some? <==> NameValue(name).Some?
    ensures r.Some? ==> r.value.id == id && r.value.suit == suit && r.value.owner == owner
    ensures r.Some? ==> r.value.kind == Plain && r.value.value >= 0 && r.value.name == DisplayName(name)
    ensures r.Some? ==> NameValue(name) == Some(r.value.value)
  {
    match NameValue(name)
    case Some(v) => Some(Card(id, DisplayName(name), suit, v, owner, Plain))
    case None => None
  }

  /** The `*` placeholder card that fills the cells of a new board. */
  function Placeholder(id: nat): Card
  {
    Card(id, "*", "*", 0, None, Plain)
  }

  /** The joker, the fixed centre cell. */
  function MakeJoker(id: nat): Card
  {
    Card(id, "Jkr", "", 0, None, Joker)
  }

  /** A setup blank remembering its 1-based position. */
  function MakeBlank(id: nat, pos: Pos): Card
  {
    Card(id, " ", " ", 0, None, Blank(pos))
  }

  /** Python truthiness of a cell: only a blank is falsy. */
  predicate Truthy(c: Card)
  {
    !c.kind.Blank?
  }

  /** The special cells are worth what the value rule gives their names: nothing. */
  lemma SpecialCellsWorthNothing(id: nat, pos: Pos)
    ensures NameValue(MakeJoker(id).name) == Some(MakeJoker(id).value) == Some(0)
    ensures NameValue(MakeBlank(id, pos).name) == Some(MakeBlank(id, pos).value) == Some(0)
    ensures NameValue(Placeholder(id).name) == Some(Placeholder(id).value) == Some(0)
    ensures Truthy(MakeJoker(id)) && Truthy(Placeholder(id)) && !Truthy(MakeBlank(id, pos))
  {
  }

  /** The names a player's suit is dealt, in the order they are created. */
  const StandardNames: seq<string> :=
    ["K", "Q", "J", "A", "2", "3", "4", "5", "6", "7", "8", "9", "10"]

  /** J, Q and K are worth 10, A is worth 1 and every numeral its number. */
  lemma StandardValues()
    ensures NameValue("J") == NameValue("Q") == NameValue("K") == Some(10)
    ensures NameValue("A") == Some(1)
    ensures forall n :: 2 <= n <= 10 ==> NameValue(NatToString(n)) == Some(n)
    ensures forall k :: 0 <= k < |StandardNames| ==> NameValue(StandardNames[k]).Some?
  {
    forall n | 2 <= n <= 10
      ensures NameValue(NatToString(n)) == Some(n)
    {
      NumeralValue(n);
    }
    forall k | 4 <= k < |StandardNames|
      ensures NameValue(StandardNames[k]).Some?
    {
      var n := k - 2;
      NumeralValue(n);
      assert NatToString(n) == StandardNames[k];
    }
  }
}
