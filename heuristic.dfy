/**
 * The deterministic fallback recommendation: a name-derived seed picks one of
 * three ways of tallying the opponent's past moves, the most-tallied move is
 * chosen by a left fold with a parity tie-break, and its counter is returned.
 */
module Heuristic {
  import opened Options
  import opened Moves

  /** One UTF-16 code unit: what `charCodeAt` yields. */
  type CodeUnit = x: int | 0 <= x < 0x1_0000

  /** A player name as JavaScript stores it, one code unit per `split("")` element. */
  type PlayerName = seq<CodeUnit>

  /** A round's result from this player's point of view. */
  datatype RoundResult = Win | Lose | Tie

  /** One entry of the per-player game history. */
  datatype HistoryEntry = HistoryEntry(round: int, playerChoice: Move, opponentChoice: Move, result: RoundResult)

  /** The code units of a name written with Basic Multilingual Plane characters only. */
  function Units(s: string): (u: PlayerName)
    requires forall i :: 0 <= i < |s| ==> s[i] as int < 0x1_0000
    ensures |u| == |s| && forall i :: 0 <= i < |s| ==> u[i] == s[i] as int
  {
    seq(|s|, i requires 0 <= i < |s| => s[i] as int)
  }

  /** The default value of the `playerName` parameter, "Player". */
  const DefaultName: PlayerName := Units("Player")

  /** The name the heuristic uses: the argument, or "Player" when it is left out. */
  function ResolveName(name: Option<PlayerName>): PlayerName {
    name.GetOr(DefaultName)
  }

  /** The seed: the sum of the name's code units, summed left to right as `reduce` does. */
  function NameHash(name: PlayerName): (h: nat)
    ensures h <= 0xFFFF * |name|
    ensures h == 0 <==> forall i :: 0 <= i < |name| ==> name[i] == 0
  {
    if name == [] then 0 else NameHash(name[..|name| - 1]) + name[|name| - 1]
  }

  /** The seed of a concatenation is the sum of the seeds: the hash ignores where a name is split. */
  lemma {:induction false} NameHashAppend(a: PlayerName, b: PlayerName)
    ensures NameHash(a + b) == NameHash(a) + NameHash(b)
    decreases |b|
  {
    if b == [] {
      assert a + b == a;
    } else {
      var b' := b[..|b| - 1];
      assert (a + b)[..|a + b| - 1] == a + b';
      assert (a + b)[|a + b| - 1] == b[|b| - 1];
      NameHashAppend(a, b');
      assert NameHash(a + b) == NameHash(a + b') + b[|b| - 1];
      assert NameHash(b) == NameHash(b') + b[|b| - 1];
    }
  }

  /** The default name hashes to 621, so it always uses the recency strategy and the odd tie-break. */
  lemma DefaultNameHash()
    ensures NameHash(DefaultName) == 621
    ensures NameHash(DefaultName) % 3 == 0 && NameHash(DefaultName) % 2 == 1
  {
    var u: PlayerName := [80, 108, 97, 121, 101, 114];
    assert DefaultName == u;
    assert u[..5] == [80, 108, 97, 121, 101];
    assert u[..5][..4] == [80, 108, 97, 121];
    assert u[..5][..4][..3] == [80, 108, 97];
    assert u[..5][..4][..3][..2] == [80, 108];
    assert u[..5][..4][..3][..2][..1] == [80];
    assert NameHash([80]) == 80;
    assert NameHash([80, 108]) == 188;
    assert NameHash([80, 108, 97]) == 285;
    assert NameHash([80, 108, 97, 121]) == 406;
    assert NameHash([80, 108, 97, 121, 101]) == 507;
  }

  // ---------------------------------------------------------------------------
  // What gets tallied

  /** `gameHistory.map(h => h.opponentChoice)`. */
  function Opponents(history: seq<HistoryEntry>): (ms: seq<Move>)
    ensures |ms| == |history| && forall i :: 0 <= i < |history| ==> ms[i] == history[i].opponentChoice
  {
    seq(|history|, i requires 0 <= i < |history| => history[i].opponentChoice)
  }

  /** `opponentMoves.slice(-3)`: the last three moves, or all of them when there are fewer. */
  function Recent(moves: seq<Move>): (r: seq<Move>)
    ensures |r| == if |moves| < 3 then |moves| else 3
    ensures forall i :: 0 <= i < |r| ==> r[i] == moves[|moves| - |r| + i]
  {
    if |moves| < 3 then moves else moves[|moves| - 3..]
  }

  /** `gameHistory.filter(h => h.result === "lose")`: the rounds the opponent won, in order. */
  function LostRounds(history: seq<HistoryEntry>): (r: seq<HistoryEntry>)
    ensures |r| <= |history|
    ensures forall i :: 0 <= i < |r| ==> r[i].result == Lose
    ensures multiset(r) <= multiset(history)
    ensures (forall i :: 0 <= i < |history| ==> history[i].result != Lose) ==> r == []
  {
    if history == [] then []
    else
      var prefix := history[..|history| - 1];
      var last := history[|history| - 1];
      assert history == prefix + [last];
      LostRounds(prefix) + (if last.result == Lose then [last] else [])
  }

  /** The filter is complete: every lost round is kept. */
  lemma {:induction false} LostRoundsComplete(history: seq<HistoryEntry>, i: int)
    requires 0 <= i < |history| && history[i].result == Lose
    ensures history[i] in LostRounds(history)
  {
    var n := |history| - 1;
    if i < n {
      LostRoundsComplete(history[..n], i);
      assert history[..n][i] == history[i];
    }
    assert LostRounds(history) == LostRounds(history[..n]) + (if history[n].result == Lose then [history[n]] else []);
  }

  /** How many times `m` occurs in `moves`. */
  function Occurrences(moves: seq<Move>, m: Move): (n: nat)
    ensures n <= |moves|
  {
    if moves == [] then 0
    else Occurrences(moves[..|moves| - 1], m) + (if moves[|moves| - 1] == m then 1 else 0)
  }

  /** Every move is one of the three, so the occurrence counts add up to the length. */
  lemma {:induction false} OccurrencesTotal(moves: seq<Move>)
    ensures Occurrences(moves, Rock) + Occurrences(moves, Paper) + Occurrences(moves, Scissors) == |moves|
  {
    if moves != [] {
      OccurrencesTotal(moves[..|moves| - 1]);
    }
  }

  // ---------------------------------------------------------------------------
  // The tally object

  /** The `moveCount` object `{ rock, paper, scissors }`; values are JavaScript numbers. */
  datatype Tally = Tally(rock: real, paper: real, scissors: real) {
    /** `moveCount[m]`. */
    function Get(m: Move): real {
      match m
      case Rock => rock
      case Paper => paper
      case Scissors => scissors
    }

    /** `moveCount[m] += d`: only the bucket of `m` changes. */
    function Add(m: Move, d: real): (t: Tally)
      ensures t.Get(m) == Get(m) + d
      ensures forall x :: x != m ==> t.Get(x) == Get(x)
    {
      match m
      case Rock => this.(rock := rock + d)
      case Paper => this.(paper := paper + d)
      case Scissors => this.(scissors := scissors + d)
    }

    /** The sum of the three buckets. */
    function Total(): real {
      rock + paper + scissors
    }
  }

  /** `{ rock: 0, paper: 0, scissors: 0 }`. */
  const Zero: Tally := Tally(0.0, 0.0, 0.0)

  /** The tally of a move sequence: each bucket holds how often its move occurs. */
  function Counts(moves: seq<Move>): Tally {
    Tally(Occurrences(moves, Rock) as real, Occurrences(moves, Paper) as real, Occurrences(moves, Scissors) as real)
  }

  /** The moves strategy `hash % 3` counts: recent, those of lost rounds, or all. */
  function Considered(history: seq<HistoryEntry>, hash: nat): seq<Move> {
    if hash % 3 == 0 then Recent(Opponents(history))
    else if hash % 3 == 1 then Opponents(LostRounds(history))
    else Opponents(history)
  }

  /** The finished `moveCount` object for a history and a seed: the counts, plus the 0.5 bias in the third strategy. */
  function Tallied(history: seq<HistoryEntry>, hash: nat): Tally {
    var counted := Counts(Considered(history, hash));
    if hash % 3 == 2 then counted.Add(Keys[hash % 3], 0.5) else counted
  }

  /** The `forEach(move => moveCount[move]++)` loop: each move's bucket grows by its number of occurrences. */
  method CountInto(t0: Tally, moves: seq<Move>) returns (t: Tally)
    ensures forall m :: t.Get(m) == t0.Get(m) + Occurrences(moves, m) as real
  {
    t := t0;
    var i := 0;
    while i < |moves|
      invariant 0 <= i <= |moves|
      invariant forall m :: t.Get(m) == t0.Get(m) + Occurrences(moves[..i], m) as real
    {
      assert moves[..i + 1][..i] == moves[..i];
      t := t.Add(moves[i], 1.0);
      i := i + 1;
    }
    assert moves[..i] == moves;
  }

  /**
   * Builds `moveCount` as the source does, branch by branch, mutating one
   * tally. Only the counting (`CountInto`) and the bias are imperative here;
   * the `map`, `slice` and `filter` that choose what is counted are the pure
   * functions `Opponents`, `Recent` and `LostRounds`.
   */
  method BuildTally(history: seq<HistoryEntry>, hash: nat) returns (t: Tally)
    ensures t == Tallied(history, hash)
  {
    var opponentMoves := Opponents(history);
    var analysisType := hash % 3;
    t := Zero;
    if analysisType == 0 {
      var recentMoves := if |opponentMoves| < 3 then opponentMoves else opponentMoves[|opponentMoves| - 3..];
      t := CountInto(t, recentMoves);
    } else if analysisType == 1 {
      var winningRounds := LostRounds(history);
      t := CountInto(t, Opponents(winningRounds));
    } else {
      t := CountInto(t, opponentMoves);
      var choices := Keys;
      t := t.Add(choices[hash % 3], 0.5);
    }
  }

  // ---------------------------------------------------------------------------
  // What each strategy tallies

  /** Recency strategy: exactly min(3, |history|) moves are counted, with no bias. */
  lemma RecentTotal(history: seq<HistoryEntry>, hash: nat)
    requires hash % 3 == 0
    ensures Tallied(history, hash).Total() == (if |history| < 3 then |history| else 3) as real
  {
    OccurrencesTotal(Recent(Opponents(history)));
  }

  /** Recency strategy: only the last three entries matter. */
  lemma RecentOnlyLastThree(history: seq<HistoryEntry>, hash: nat)
    requires hash % 3 == 0 && |history| >= 3
    ensures Tallied(history, hash) == Tallied(history[|history| - 3..], hash)
  {
    assert Recent(Opponents(history)) == Recent(Opponents(history[|history| - 3..]));
  }

  /** Opponent-success strategy: one count per lost round, and no bias. */
  lemma LostTotal(history: seq<HistoryEntry>, hash: nat)
    requires hash % 3 == 1
    ensures Tallied(history, hash).Total() == |LostRounds(history)| as real
  {
    OccurrencesTotal(Opponents(LostRounds(history)));
  }

  /** The indices of the rounds the player lost in which the opponent played `m`. */
  function LostWith(history: seq<HistoryEntry>, m: Move): set<int> {
    set i | 0 <= i < |history| && history[i].result == Lose && history[i].opponentChoice == m
  }

  /** Counting in a sequence extended by one move adds one exactly when that move is `m`. */
  lemma OccurrencesSnoc(ms: seq<Move>, x: Move, m: Move)
    ensures Occurrences(ms + [x], m) == Occurrences(ms, m) + (if x == m then 1 else 0)
  {
    assert (ms + [x])[..|ms|] == ms;
  }

  /** Extending the history by one entry adds its index to `LostWith` exactly when it is a loss against `m`. */
  lemma LostWithSnoc(history: seq<HistoryEntry>, m: Move)
    requires history != []
    ensures var n := |history| - 1;
            var e := history[n];
            LostWith(history, m) == LostWith(history[..n], m) + (if e.result == Lose && e.opponentChoice == m then {n} else {})
  {
  }

  /** Mapping a sequence extended by one entry extends the moves by that entry's move. */
  lemma OpponentsSnoc(entries: seq<HistoryEntry>, e: HistoryEntry)
    ensures Opponents(entries + [e]) == Opponents(entries) + [e.opponentChoice]
  {
    var l, r := Opponents(entries + [e]), Opponents(entries) + [e.opponentChoice];
    assert |l| == |r|;
    forall i | 0 <= i < |l| ensures l[i] == r[i] {
      if i < |entries| {
        assert (entries + [e])[i] == entries[i];
      }
    }
  }

  /** The opponent moves of the lost rounds grow by the last entry's move exactly when that entry is a loss. */
  lemma LostOpponentsSnoc(history: seq<HistoryEntry>)
    requires history != []
    ensures var n := |history| - 1;
            var e := history[n];
            Opponents(LostRounds(history))
              == Opponents(LostRounds(history[..n])) + (if e.result == Lose then [e.opponentChoice] else [])
  {
    var n := |history| - 1;
    var e := history[n];
    var before := LostRounds(history[..n]);
    if e.result == Lose {
      assert LostRounds(history) == before + [e];
      OpponentsSnoc(before, e);
    } else {
      assert LostRounds(history) == before;
    }
  }

  /** Filtering the lost rounds and counting their opponent moves counts each lost round with move `m` exactly once. */
  lemma {:induction false} LostOccurrences(history: seq<HistoryEntry>, m: Move)
    ensures Occurrences(Opponents(LostRounds(history)), m) == |LostWith(history, m)|
  {
    if history == [] {
      assert LostWith(history, m) == {};
    } else {
      var n := |history| - 1;
      var e := history[n];
      var before := Opponents(LostRounds(history[..n]));
      LostOccurrences(history[..n], m);
      LostWithSnoc(history, m);
      LostOpponentsSnoc(history);
      var counted := LostWith(history[..n], m);
      assert n !in counted;
      if e.result == Lose {
        OccurrencesSnoc(before, e.opponentChoice, m);
        if e.opponentChoice == m {
          assert LostWith(history, m) == counted + {n};
          assert |counted + {n}| == |counted| + 1;
        } else {
          assert LostWith(history, m) == counted;
        }
      } else {
        assert Opponents(LostRounds(history)) == before;
        assert LostWith(history, m) == counted;
      }
    }
  }

  /** Opponent-success strategy: each bucket holds the number of lost rounds in which the opponent played its move. */
  lemma LostTallyPerMove(history: seq<HistoryEntry>, hash: nat, m: Move)
    requires hash % 3 == 1
    ensures Tallied(history, hash).Get(m) == |LostWith(history, m)| as real
  {
    LostOccurrences(history, m);
  }

  /** Opponent-success strategy: with no lost round every bucket stays 0. */
  lemma NoLossesNoCounts(history: seq<HistoryEntry>, hash: nat)
    requires hash % 3 == 1
    requires forall i :: 0 <= i < |history| ==> history[i].result != Lose
    ensures Tallied(history, hash) == Zero
  {
  }

  /** Opponent-success strategy: appending a round the player did not lose leaves the tally unchanged. */
  lemma NonLossIgnored(history: seq<HistoryEntry>, e: HistoryEntry, hash: nat)
    requires hash % 3 == 1 && e.result != Lose
    ensures Tallied(history + [e], hash) == Tallied(history, hash)
  {
    assert (history + [e])[..|history|] == history;
    assert LostRounds(history + [e]) == LostRounds(history);
  }

  /** Full-history strategy: the bias bucket `choices[hash % 3]` is always scissors, because the branch needs `hash % 3 == 2`. */
  lemma BiasIsScissors(history: seq<HistoryEntry>, hash: nat)
    requires hash % 3 == 2
    ensures Keys[hash % 3] == Scissors
    ensures Tallied(history, hash) == Counts(Opponents(history)).Add(Scissors, 0.5)
  {
  }

  /** Full-history strategy: all moves plus the half bias are counted, and scissors never ties with rock or paper. */
  lemma FullHistoryNoScissorsTie(history: seq<HistoryEntry>, hash: nat)
    requires hash % 3 == 2
    ensures Tallied(history, hash).Total() == |history| as real + 0.5
    ensures Tallied(history, hash).scissors != Tallied(history, hash).rock
    ensures Tallied(history, hash).scissors != Tallied(history, hash).paper
  {
    var ms := Opponents(history);
    OccurrencesTotal(ms);
    var r, p, s := Occurrences(ms, Rock), Occurrences(ms, Paper), Occurrences(ms, Scissors);
    HalfApart(s, r);
    HalfApart(s, p);
  }

  /** A whole number plus one half is never a whole number. */
  lemma HalfApart(a: int, b: int)
    ensures a as real + 0.5 != b as real
  {
  }

  // ---------------------------------------------------------------------------
  // Choosing the most frequent move

  /** The `reduce` callback: keep the strictly larger bucket; on equal buckets the earlier key if the seed is even, the later if odd. */
  function Pick(t: Tally, hash: nat, a: Move, b: Move): (m: Move)
    ensures m == a || m == b
    ensures t.Get(m) >= t.Get(a) && t.Get(m) >= t.Get(b)
  {
    if t.Get(a) == t.Get(b) then (if hash % 2 == 0 then a else b)
    else if t.Get(a) > t.Get(b) then a else b
  }

  /** `reduce` without an initial value, as a left fold starting at `acc`. */
  function Reduce(t: Tally, hash: nat, acc: Move, rest: seq<Move>): (m: Move)
    ensures m == acc || m in rest
    ensures t.Get(m) >= t.Get(acc)
    ensures forall i :: 0 <= i < |rest| ==> t.Get(rest[i]) <= t.Get(m)
    decreases |rest|
  {
    if rest == [] then acc else Reduce(t, hash, Pick(t, hash, acc, rest[0]), rest[1..])
  }

  /** `Object.keys(moveCount).reduce(...)`: the move whose bucket is largest. */
  function MostFrequent(t: Tally, hash: nat): (m: Move)
    ensures forall x :: t.Get(x) <= t.Get(m)
  {
    var m := Reduce(t, hash, Keys[0], Keys[1..]);
    assert Keys[1..][0] == Paper && Keys[1..][1] == Scissors;
    m
  }

  /** `m`'s bucket is at least as large as every other. */
  predicate IsMax(t: Tally, m: Move) {
    forall x :: t.Get(x) <= t.Get(m)
  }

  /** The first largest bucket in key order rock, paper, scissors. */
  function FirstMax(t: Tally): Move {
    if IsMax(t, Rock) then Rock else if IsMax(t, Paper) then Paper else Scissors
  }

  /** The last largest bucket in key order rock, paper, scissors. */
  function LastMax(t: Tally): Move {
    if IsMax(t, Scissors) then Scissors else if IsMax(t, Paper) then Paper else Rock
  }

  /**
   * What the fold with its tie-break amounts to: with an even seed it picks the
   * first of the largest buckets, with an odd seed the last.
   */
  lemma MostFrequentByParity(t: Tally, hash: nat)
    ensures MostFrequent(t, hash) == if hash % 2 == 0 then FirstMax(t) else LastMax(t)
  {
    var first := Pick(t, hash, Rock, Paper);
    assert Keys[1..] == [Paper, Scissors];
    assert [Paper, Scissors][1..] == [Scissors];
    assert MostFrequent(t, hash) == Pick(t, hash, first, Scissors);
  }

  /** A strictly largest bucket is chosen whatever the seed. */
  lemma StrictMaxChosen(t: Tally, hash: nat, m: Move)
    requires forall x :: x != m ==> t.Get(x) < t.Get(m)
    ensures MostFrequent(t, hash) == m
  {
  }

  // ---------------------------------------------------------------------------
  // The fallback recommendation

  /**
   * `fallbackRecommendation(gameHistory, playerName)`: "" for fewer than two
   * entries, otherwise the name of the counter to the most-tallied move.
   */
  function Fallback(history: seq<HistoryEntry>, name: Option<PlayerName>): (r: string)
    ensures r == "" <==> |history| < 2
    ensures r != "" ==> r in LegalNames
  {
    if |history| < 2 then ""
    else
      var hash := NameHash(ResolveName(name));
      Name(Counter(MostFrequent(Tallied(history, hash), hash)))
  }

  /** Past the length guard, the recommendation is the move that beats the most-tallied move, whose bucket is maximal. */
  lemma FallbackBeatsMostFrequent(history: seq<HistoryEntry>, name: Option<PlayerName>)
    requires |history| >= 2
    ensures var hash := NameHash(ResolveName(name));
            var t := Tallied(history, hash);
            var r := Parse(Fallback(history, name));
            r.Some? && Beats(r.value, MostFrequent(t, hash)) && IsMax(t, MostFrequent(t, hash))
  {
  }

  /** With every bucket at zero the fold's tie-break decides: an even seed selects rock (answer "paper"), an odd one scissors (answer "rock"). */
  lemma AllZeroByParity(hash: nat)
    ensures MostFrequent(Zero, hash) == if hash % 2 == 0 then Rock else Scissors
    ensures Name(Counter(MostFrequent(Zero, hash))) == if hash % 2 == 0 then "paper" else "rock"
  {
    MostFrequentByParity(Zero, hash);
  }

  /** Opponent-success strategy with no lost round: the answer depends on the seed's parity alone. */
  lemma NoLossesByParity(history: seq<HistoryEntry>, name: Option<PlayerName>)
    requires |history| >= 2 && NameHash(ResolveName(name)) % 3 == 1
    requires forall i :: 0 <= i < |history| ==> history[i].result != Lose
    ensures Fallback(history, name) == if NameHash(ResolveName(name)) % 2 == 0 then "paper" else "rock"
  {
    NoLossesNoCounts(history, NameHash(ResolveName(name)));
    AllZeroByParity(NameHash(ResolveName(name)));
  }

  /** Full-history strategy: when scissors holds the most moves it is chosen, so the answer is "rock". */
  lemma FullHistoryScissorsLead(history: seq<HistoryEntry>, name: Option<PlayerName>)
    requires |history| >= 2 && NameHash(ResolveName(name)) % 3 == 2
    requires var ms := Opponents(history);
             Occurrences(ms, Scissors) >= Occurrences(ms, Rock) && Occurrences(ms, Scissors) >= Occurrences(ms, Paper)
    ensures Fallback(history, name) == "rock"
  {
  }

  /**
   * A worked case: "Ann" hashes to 285 (recency strategy, odd seed); the last
   * three opponent moves are one of each, so the odd tie-break keeps the last
   * key, scissors, and the answer is its counter "rock".
   */
  lemma AnnExample(first: Move)
    ensures var history := [HistoryEntry(1, Paper, first, Tie), HistoryEntry(2, Paper, Rock, Win),
                            HistoryEntry(3, Rock, Paper, Tie), HistoryEntry(4, Rock, Scissors, Lose)];
            Fallback(history, Some(Units("Ann"))) == "rock"
  {
    var history := [HistoryEntry(1, Paper, first, Tie), HistoryEntry(2, Paper, Rock, Win),
                    HistoryEntry(3, Rock, Paper, Tie), HistoryEntry(4, Rock, Scissors, Lose)];
    var ann: PlayerName := [65, 110, 110];
    assert Units("Ann") == ann;
    assert NameHash(ann) == 285 by {
      assert ann[..2] == [65, 110] && ann[..2][..1] == [65];
    }
    var recent := Recent(Opponents(history));
    assert recent == [Rock, Paper, Scissors];
    assert recent[..2] == [Rock, Paper] && recent[..2][..1] == [Rock] && recent[..2][..1][..0] == [];
    assert Occurrences(recent, Rock) == 1 && Occurrences(recent, Paper) == 1 && Occurrences(recent, Scissors) == 1;
    assert Tallied(history, 285) == Tally(1.0, 1.0, 1.0);
    MostFrequentByParity(Tally(1.0, 1.0, 1.0), 285);
  }

  /**
   * The imperative `fallbackRecommendation`: seed from the name, build the
   * tally in place, fold for the most frequent move, look up its counter.
   */
  method FallbackRecommendation(history: seq<HistoryEntry>, name: Option<PlayerName>) returns (r: string)
    ensures r == Fallback(history, name)
    ensures r == "" <==> |history| < 2
  {
    if |history| < 2 {
      return "";
    }
    var playerName := ResolveName(name);
    var playerHash := NameHash(playerName);
    var moveCount := BuildTally(history, playerHash);
    var mostFrequent := MostFrequent(moveCount, playerHash);
    r := Name(Counter(mostFrequent));
  }
}
