/** The conventional optional value, used for the defaulted `playerName` parameter. */
module Options {
  datatype Option<+T> = None | Some(value: T) {
    /** The wrapped value, or `default` when there is none. */
    function GetOr(default: T): T {
      match this
      case Some(v) => v
      case None => default
    }
  }
}

/**
 * The three Rock-Paper-Scissors moves, their string spellings, and the
 * counter-move table the recommendation returns from.
 */
module Moves {
  import opened Options

  datatype Move = Rock | Paper | Scissors

  /** The keys of the tally object `{ rock, paper, scissors }`, in the order `Object.keys` lists them. */
  const Keys: seq<Move> := [Rock, Paper, Scissors]

  /** The strings a recommendation may be: the array the reply is validated against. */
  const LegalNames: seq<string> := ["rock", "paper", "scissors"]

  /** `a` beats `b` under the usual rules. */
  predicate Beats(a: Move, b: Move) {
    (a == Rock && b == Scissors) || (a == Paper && b == Rock) || (a == Scissors && b == Paper)
  }

  /** The `counter` table: the move to play against `m`; it is the one and only move that beats `m`. */
  function Counter(m: Move): (c: Move)
    ensures Beats(c, m)
    ensures forall x :: Beats(x, m) ==> x == c
  {
    match m
    case Rock => Paper
    case Paper => Scissors
    case Scissors => Rock
  }

  /** The lower-case string the source uses for a move. */
  function Name(m: Move): (s: string)
    ensures s in LegalNames
  {
    match m
    case Rock => "rock"
    case Paper => "paper"
    case Scissors => "scissors"
  }

  /** The move a legal string spells, if any: the inverse of `Name`. */
  function Parse(s: string): (r: Option<Move>)
    ensures r.Some? <==> s in LegalNames
    ensures r.Some? ==> Name(r.value) == s
  {
    if s == "rock" then Some(Rock)
    else if s == "paper" then Some(Paper)
    else if s == "scissors" then Some(Scissors)
    else None
  }

  /** Spelling a move and reading it back gives the move: names are distinct. */
  lemma ParseName(m: Move)
    ensures Parse(Name(m)) == Some(m)
  {
  }
}
