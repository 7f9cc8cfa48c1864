/** The deterministic skeleton of calculate_equity: one trial deals the
    opponents' hands and the missing board cards from a shuffled deck with the
    known cards removed, and classifies the hero's score against the strongest
    opponent's; the simulation tallies wins and ties over all trials and turns
    them into a percentage; the current-hand label is guarded by "N/A". */
module Equity {
  import opened Cards
  import opened Numbers

  /** The hand evaluator's `evaluate(hand, board)`: lower is stronger. */
  type Scorer = (seq<Card>, seq<Card>) -> int

  /** The evaluator's `class_to_string(get_rank_class(score))`. */
  type ClassNamer = int -> string

  datatype Outcome = Win | Tie | Loss

  /** The exceptions that abort calculate_equity: drawing from an exhausted
      deck, `min` over no opponents, and a division by zero. */
  datatype EquityError = DeckExhausted | NoOpponents | DivisionByZero

  datatype Result<T> = Ok(value: T) | Err(error: EquityError)

  // ---------------------------------------------------------------------------
  // Win, tie or loss against the strongest opponent
  // ---------------------------------------------------------------------------

  /** `min(scores)`: the strongest opponent's score. */
  function MinScore(scores: seq<int>): (m: int)
    requires |scores| > 0
    ensures m in scores
    ensures forall i :: 0 <= i < |scores| ==> m <= scores[i]
  {
    if |scores| == 1 then scores[0]
    else
      var rest := MinScore(scores[1..]);
      assert forall i :: 1 <= i < |scores| ==> scores[i] == scores[1..][i - 1];
      if scores[0] <= rest then scores[0] else rest
  }

  /** A trial is a win when the hero's score beats every opponent's, a tie
      when it equals the best opponent score, and a loss when some opponent
      scores strictly better. */
  function Classify(heroScore: int, oppScores: seq<int>): (o: Outcome)
    requires |oppScores| > 0
    ensures o == Win <==> forall i :: 0 <= i < |oppScores| ==> heroScore < oppScores[i]
    ensures o == Tie <==> heroScore in oppScores && forall i :: 0 <= i < |oppScores| ==> heroScore <= oppScores[i]
    ensures o == Loss <==> exists i :: 0 <= i < |oppScores| && oppScores[i] < heroScore
  {
    var best := MinScore(oppScores);
    if heroScore < best then Win else if heroScore == best then Tie else Loss
  }

  // ---------------------------------------------------------------------------
  // Dealing one trial
  // ---------------------------------------------------------------------------

  /** `range(num_players - 1)`: the number of opponents dealt a hand. */
  function OpponentCount(numPlayers: int): (n: nat)
    ensures n == Max(0, numPlayers - 1)
  {
    if numPlayers > 1 then numPlayers - 1 else 0
  }

  /** `5 - len(board_cards)` when positive: the board cards still to come. */
  function CardsNeeded(boardSize: nat): (need: nat)
    ensures boardSize + need == Max(5, boardSize)
  {
    if boardSize < 5 then 5 - boardSize else 0
  }

  /** k hands of two cards, taken in turn from the front of cards. */
  function Hands(cards: seq<Card>, k: nat): (hands: seq<seq<Card>>)
    requires 2 * k <= |cards|
    ensures |hands| == k
    ensures forall i :: 0 <= i < k ==> hands[i] == cards[2 * i..2 * i + 2]
  {
    seq(k, i requires 0 <= i < k => cards[2 * i..2 * i + 2])
  }

  /** All the cards of some hands, hand after hand. */
  function Flatten(hands: seq<seq<Card>>): seq<Card> {
    if hands == [] then [] else Flatten(hands[..|hands| - 1]) + hands[|hands| - 1]
  }

  lemma {:induction false} FlattenHands(cards: seq<Card>, k: nat)
    requires 2 * k <= |cards|
    ensures Flatten(Hands(cards, k)) == cards[..2 * k]
  {
    if k > 0 {
      var hs := Hands(cards, k);
      assert hs[..k - 1] == Hands(cards, k - 1);
      FlattenHands(cards, k - 1);
      assert cards[..2 * k] == cards[..2 * (k - 1)] + cards[2 * (k - 1)..2 * k];
    }
  }

  datatype Deal = Deal(opponents: seq<seq<Card>>, fullBoard: seq<Card>)

  /** The cards one trial deals from `rest`, the deck left once the known
      cards are gone: each opponent draws two cards, then the board is
      completed to five cards (a longer board is kept as it is). */
  function DealFrom(rest: seq<Card>, board: seq<Card>, numPlayers: int): (r: Result<Deal>)
    ensures r.Err? <==> |rest| < 2 * OpponentCount(numPlayers) + CardsNeeded(|board|)
    ensures r.Err? ==> r.error == DeckExhausted
    ensures r.Ok? ==> |r.value.opponents| == OpponentCount(numPlayers)
    ensures r.Ok? ==> forall h :: h in r.value.opponents ==> |h| == 2
    ensures r.Ok? ==> |r.value.fullBoard| == Max(5, |board|)
    ensures r.Ok? ==> r.value.fullBoard[..|board|] == board
  {
    var k := OpponentCount(numPlayers);
    var need := CardsNeeded(|board|);
    if |rest| < 2 * k + need then Err(DeckExhausted)
    else
      var fullBoard := board + rest[2 * k..2 * k + need];
      assert fullBoard[..|board|] == board;
      Ok(Deal(Hands(rest, k), fullBoard))
  }

  /** The deal of one trial from a deck shuffled into `order`. */
  function DealCards(order: seq<Card>, hero: seq<Card>, board: seq<Card>, numPlayers: int): (r: Result<Deal>)
    ensures r.Err? ==> r.error == DeckExhausted
    ensures r.Ok? ==> |r.value.opponents| == OpponentCount(numPlayers)
    ensures r.Ok? ==> |r.value.fullBoard| == Max(5, |board|)
  {
    DealFrom(RemoveKnown(order, hero + board), board, numPlayers)
  }

  /** The cards a successful deal takes from the deck. */
  function Dealt(d: Deal, boardSize: nat): seq<Card>
    requires boardSize <= |d.fullBoard|
  {
    Flatten(d.opponents) + d.fullBoard[boardSize..]
  }

  /** A successful deal takes exactly the front 2k + need cards of the
      deck, in order: first the opponents' hands, then the new board cards. */
  lemma DealtIsPrefix(rest: seq<Card>, board: seq<Card>, numPlayers: int)
    requires DealFrom(rest, board, numPlayers).Ok?
    ensures Dealt(DealFrom(rest, board, numPlayers).value, |board|)
            == rest[..2 * OpponentCount(numPlayers) + CardsNeeded(|board|)]
  {
    var k, need := OpponentCount(numPlayers), CardsNeeded(|board|);
    var d := DealFrom(rest, board, numPlayers).value;
    FlattenHands(rest, k);
    assert d.fullBoard[|board|..] == rest[2 * k..2 * k + need];
    assert rest[..2 * k + need] == rest[..2 * k] + rest[2 * k..2 * k + need];
  }

  /** Dealt from a deck without duplicates, no card goes out twice, and no
      dealt card is one of the hero's or the known board's. */
  lemma DealIsFresh(order: seq<Card>, hero: seq<Card>, board: seq<Card>, numPlayers: int)
    requires NoDup(order)
    requires DealCards(order, hero, board, numPlayers).Ok?
    ensures var d := DealCards(order, hero, board, numPlayers).value;
            var dealt := Dealt(d, |board|);
            NoDup(dealt) && forall c :: c in dealt ==> c !in hero && c !in board
  {
    var known := hero + board;
    var rest := RemoveKnown(order, known);
    RemoveKnownIsWithout(order, known);
    DealtIsPrefix(rest, board, numPlayers);
    var prefix := rest[..2 * OpponentCount(numPlayers) + CardsNeeded(|board|)];
    forall c | c in prefix ensures c !in hero && c !in board {
      assert c in rest;
      assert c !in known;
    }
  }

  /** The known-card removal takes at most one card per known card. */
  lemma {:induction false} RemoveKnownLength(s: seq<Card>, known: seq<Card>)
    ensures |RemoveKnown(s, known)| >= |s| - |known|
  {
    if known != [] {
      RemoveKnownLength(s, known[..|known| - 1]);
    }
  }

  /** A deck never runs out when it holds, besides the known cards, enough
      cards for every opponent's hand and the missing board cards. */
  lemma DeckSuffices(order: seq<Card>, hero: seq<Card>, board: seq<Card>, numPlayers: int)
    requires |hero| + |board| + 2 * OpponentCount(numPlayers) + CardsNeeded(|board|) <= |order|
    ensures DealCards(order, hero, board, numPlayers).Ok?
  {
    RemoveKnownLength(order, hero + board);
  }

  /** In particular a 52-card deck never runs out with at most 9 players and
      at most 7 known cards. */
  lemma FullDeckSuffices(order: seq<Card>, hero: seq<Card>, board: seq<Card>, numPlayers: int)
    requires |order| == 52 && |hero| + |board| <= 7 && numPlayers <= 9
    ensures DealCards(order, hero, board, numPlayers).Ok?
  {
    DeckSuffices(order, hero, board, numPlayers);
  }

  // ---------------------------------------------------------------------------
  // One trial
  // ---------------------------------------------------------------------------

  /** `[evaluate(h, full_board) for h in opp_hands]`. */
  function OpponentScores(hands: seq<seq<Card>>, fullBoard: seq<Card>, score: Scorer): (s: seq<int>)
    ensures |s| == |hands|
    ensures forall i :: 0 <= i < |hands| ==> s[i] == score(hands[i], fullBoard)
  {
    seq(|hands|, i requires 0 <= i < |hands| => score(hands[i], fullBoard))
  }

  /** What one trial of the simulation loop yields. */
  function TrialOutcome(order: seq<Card>, hero: seq<Card>, board: seq<Card>, numPlayers: int, score: Scorer): (r: Result<Outcome>)
    ensures numPlayers < 2 ==> r.Err?
    ensures r.Ok? ==> DealCards(order, hero, board, numPlayers).Ok?
  {
    match DealCards(order, hero, board, numPlayers)
    case Err(e) => Err(e)
    case Ok(d) =>
      if d.opponents == [] then Err(NoOpponents)
      else Ok(Classify(score(hero, d.fullBoard), OpponentScores(d.opponents, d.fullBoard, score)))
  }

  /** With at least two players and a deck large enough for every card a
      trial deals (a 52-card deck with at most seven known cards and nine
      players is, by FullDeckSuffices), a trial always completes, and it is a
      win exactly when the hero's score beats every opponent's on the
      completed board. */
  lemma TrialWinIff(order: seq<Card>, hero: seq<Card>, board: seq<Card>, numPlayers: int, score: Scorer)
    requires |hero| + |board| + 2 * OpponentCount(numPlayers) + CardsNeeded(|board|) <= |order|
    requires numPlayers >= 2
    ensures DealCards(order, hero, board, numPlayers).Ok?
    ensures TrialOutcome(order, hero, board, numPlayers, score).Ok?
    ensures var d := DealCards(order, hero, board, numPlayers).value;
            (TrialOutcome(order, hero, board, numPlayers, score).value == Win <==>
               forall i :: 0 <= i < |d.opponents| ==> score(hero, d.fullBoard) < score(d.opponents[i], d.fullBoard))
  {
    DeckSuffices(order, hero, board, numPlayers);
  }

  /** Whenever the deal succeeds with at least one opponent, the trial is
      the classification of the hero's score against the opponents' scores
      on the completed board. */
  lemma TrialClassifies(order: seq<Card>, hero: seq<Card>, board: seq<Card>, numPlayers: int, score: Scorer)
    requires DealCards(order, hero, board, numPlayers).Ok? && numPlayers >= 2
    ensures var d := DealCards(order, hero, board, numPlayers).value;
            TrialOutcome(order, hero, board, numPlayers, score)
              == Ok(Classify(score(hero, d.fullBoard), OpponentScores(d.opponents, d.fullBoard, score)))
  {
    var d := DealCards(order, hero, board, numPlayers).value;
    assert |d.opponents| == numPlayers - 1;
  }

  /** `[deck.draw(2) for _ in range(k)]`: k hands of two cards drawn in
      turn from the front of the deck. */
  method DrawHands(deck: Deck, k: nat) returns (hands: seq<seq<Card>>, ok: bool)
    modifies deck
    ensures ok == (2 * k <= |old(deck.cards)|)
    ensures ok ==> hands == Hands(old(deck.cards), k) && deck.cards == old(deck.cards)[2 * k..]
  {
    hands := [];
    var i := 0;
    while i < k
      invariant 0 <= i <= k && 2 * i <= |old(deck.cards)|
      invariant deck.cards == old(deck.cards)[2 * i..]
      invariant |hands| == i
      invariant forall j :: 0 <= j < i ==> hands[j] == old(deck.cards)[2 * j..2 * j + 2]
    {
      var hand, drew := deck.Draw(2);
      if !drew {
        return hands, false;
      }
      hands := hands + [hand];
      i := i + 1;
    }
    ok := true;
  }

  /** The successful deal, stated by the cards each draw took. */
  lemma DealFromOk(rest: seq<Card>, board: seq<Card>, numPlayers: int, hands: seq<seq<Card>>, fullBoard: seq<Card>)
    requires var k, need := OpponentCount(numPlayers), CardsNeeded(|board|);
             2 * k + need <= |rest| && hands == Hands(rest, k) && fullBoard == board + rest[2 * k..][..need]
    ensures DealFrom(rest, board, numPlayers) == Ok(Deal(hands, fullBoard))
  {
    var k, need := OpponentCount(numPlayers), CardsNeeded(|board|);
    assert rest[2 * k..][..need] == rest[2 * k..2 * k + need];
  }

  /** The dealing half of one trial: a fresh deck in the shuffled order, the
      known cards removed, two cards drawn per opponent, then the board
      completed. */
  method DealTrial(order: seq<Card>, hero: seq<Card>, board: seq<Card>, numPlayers: int)
    returns (r: Result<Deal>)
    ensures r == DealCards(order, hero, board, numPlayers)
  {
    var deck := new Deck(order);
    deck.RemoveKnownCards(hero + board);
    ghost var rest := deck.cards;
    var oppHands, ok := DrawHands(deck, OpponentCount(numPlayers));
    if !ok {
      return Err(DeckExhausted);
    }
    var fullBoard := board;
    var cardsNeeded := 5 - |board|;
    if cardsNeeded > 0 {
      var more, drew := deck.Draw(cardsNeeded);
      if !drew {
        return Err(DeckExhausted);
      }
      fullBoard := board + more;
    }
    DealFromOk(rest, board, numPlayers, oppHands, fullBoard);
    r := Ok(Deal(oppHands, fullBoard));
  }

  /** One trial as the loop body runs it: the deal, then the hero's score
      compared with the best opponent score. */
  method RunTrial(order: seq<Card>, hero: seq<Card>, board: seq<Card>, numPlayers: int, score: Scorer)
    returns (r: Result<Outcome>)
    ensures r == TrialOutcome(order, hero, board, numPlayers, score)
  {
    var dealt := DealTrial(order, hero, board, numPlayers);
    if dealt.Err? {
      return Err(dealt.error);
    }
    var oppHands, fullBoard := dealt.value.opponents, dealt.value.fullBoard;
    var heroScore := score(hero, fullBoard);
    if oppHands == [] {
      return Err(NoOpponents);
    }
    var oppScores := OpponentScores(oppHands, fullBoard, score);
    var best := MinScore(oppScores);
    if heroScore < best {
      r := Ok(Win);
    } else if heroScore == best {
      r := Ok(Tie);
    } else {
      r := Ok(Loss);
    }
    assert r == Ok(Classify(heroScore, oppScores));
  }

  // ---------------------------------------------------------------------------
  // The simulation
  // ---------------------------------------------------------------------------

  /** The win and tie counters. */
  datatype Tally = Tally(wins: nat, ties: nat)

  /** `if hero_score < best: wins += 1 elif hero_score == best: ties += 1`. */
  function Record(t: Tally, o: Outcome): (u: Tally)
    ensures u.wins == t.wins + (if o == Win then 1 else 0)
    ensures u.ties == t.ties + (if o == Tie then 1 else 0)
    ensures u.wins + u.ties <= t.wins + t.ties + 1
  {
    match o
    case Win => Tally(t.wins + 1, t.ties)
    case Tie => Tally(t.wins, t.ties + 1)
    case Loss => t
  }

  /** The counters after the given trial results, in order; the first
      failed trial aborts the run with its error. */
  function TallyAll(results: seq<Result<Outcome>>): (r: Result<Tally>)
    ensures r.Ok? ==> r.value.wins + r.value.ties <= |results|
  {
    if results == [] then Ok(Tally(0, 0))
    else Extend(TallyAll(results[..|results| - 1]), results[|results| - 1])
  }

  /** One step of the loop: the counters after one more trial result, or the
      error of the first failed trial. */
  function Extend(prior: Result<Tally>, result: Result<Outcome>): (r: Result<Tally>)
    ensures r.Ok? <==> prior.Ok? && result.Ok?
    ensures r.Ok? ==> r.value == Record(prior.value, result.value)
  {
    if prior.Err? then prior
    else match result
      case Err(e) => Err(e)
      case Ok(o) => Ok(Record(prior.value, o))
  }

  /** Extending the second half of a combined run extends the whole run. */
  lemma CombineExtend(left: Result<Tally>, right: Result<Tally>, result: Result<Outcome>)
    ensures Extend(Combine(left, right), result) == Combine(left, Extend(right, result))
  {
  }

  /** The result of each trial, one per shuffled deck. */
  function Trials(shuffles: seq<seq<Card>>, hero: seq<Card>, board: seq<Card>, numPlayers: int, score: Scorer)
    : (results: seq<Result<Outcome>>)
    ensures |results| == |shuffles|
    ensures forall t :: 0 <= t < |shuffles| ==> results[t] == TrialOutcome(shuffles[t], hero, board, numPlayers, score)
  {
    seq(|shuffles|, t requires 0 <= t < |shuffles| => TrialOutcome(shuffles[t], hero, board, numPlayers, score))
  }

  /** The counters of the simulation loop over one trial per shuffled deck. */
  function Simulate(shuffles: seq<seq<Card>>, hero: seq<Card>, board: seq<Card>, numPlayers: int, score: Scorer)
    : (r: Result<Tally>)
    ensures r.Ok? ==> r.value.wins + r.value.ties <= |shuffles|
    ensures r.Ok? ==> forall t :: 0 <= t < |shuffles| ==> TrialOutcome(shuffles[t], hero, board, numPlayers, score).Ok?
  {
    var results := Trials(shuffles, hero, board, numPlayers, score);
    TallyAllOkIff(results);
    TallyAll(results)
  }

  /** A run completes exactly when every trial does. */
  lemma {:induction false} TallyAllOkIff(results: seq<Result<Outcome>>)
    ensures TallyAll(results).Ok? <==> forall t :: 0 <= t < |results| ==> results[t].Ok?
  {
    if results != [] {
      var front := results[..|results| - 1];
      TallyAllOkIff(front);
      assert forall t :: 0 <= t < |front| ==> front[t] == results[t];
    }
  }

  /** One more trial: its error aborts the run, its outcome is recorded. */
  lemma TallyAllStep(results: seq<Result<Outcome>>, t: nat)
    requires t < |results| && TallyAll(results[..t]).Ok?
    ensures results[t].Err? ==> TallyAll(results[..t + 1]) == Err(results[t].error)
    ensures results[t].Ok? ==> TallyAll(results[..t + 1]) == Ok(Record(TallyAll(results[..t]).value, results[t].value))
  {
    assert results[..t + 1][..t] == results[..t];
  }

  /** A run whose first n trials already failed fails with the same error. */
  lemma TallyAllAborts(results: seq<Result<Outcome>>, n: nat)
    requires n <= |results| && TallyAll(results[..n]).Err?
    ensures TallyAll(results) == TallyAll(results[..n])
  {
    assert results == results[..n] + results[n..];
    TallyAllSplit(results[..n], results[n..]);
  }

  /** Joining the counters of two runs; the first error wins. */
  function Combine(a: Result<Tally>, b: Result<Tally>): Result<Tally> {
    if a.Err? then a
    else if b.Err? then b
    else Ok(Tally(a.value.wins + b.value.wins, a.value.ties + b.value.ties))
  }

  /** Trials are independent: running them in two batches and adding up the
      counters gives what one run over all of them gives. */
  lemma {:induction false} TallyAllSplit(a: seq<Result<Outcome>>, b: seq<Result<Outcome>>)
    ensures TallyAll(a + b) == Combine(TallyAll(a), TallyAll(b))
  {
    if b == [] {
      assert a + b == a;
    } else {
      var front := b[..|b| - 1];
      TallyAllSplit(a, front);
      TallyAllSplitStep(a, b);
    }
  }

  /** The step of TallyAllSplit: appending the last result of b to both
      sides keeps them equal. */
  lemma TallyAllSplitStep(a: seq<Result<Outcome>>, b: seq<Result<Outcome>>)
    requires b != []
    requires TallyAll(a + b[..|b| - 1]) == Combine(TallyAll(a), TallyAll(b[..|b| - 1]))
    ensures TallyAll(a + b) == Combine(TallyAll(a), TallyAll(b))
  {
    var front, last := b[..|b| - 1], b[|b| - 1];
    assert (a + b)[..|a + b| - 1] == a + front;
    assert (a + b)[|a + b| - 1] == last;
    assert TallyAll(a + b) == Extend(TallyAll(a + front), last);
    CombineExtend(TallyAll(a), TallyAll(front), last);
  }

  /** The number of trials that completed with outcome o. */
  function CountOf(results: seq<Result<Outcome>>, o: Outcome): (n: nat)
    ensures n <= |results|
  {
    if results == [] then 0
    else CountOf(results[..|results| - 1], o) + (if results[|results| - 1] == Ok(o) then 1 else 0)
  }

  /** When every trial completes, the counters count the wins and the ties. */
  lemma {:induction false} TallyAllCounts(results: seq<Result<Outcome>>)
    requires forall t :: 0 <= t < |results| ==> results[t].Ok?
    ensures TallyAll(results) == Ok(Tally(CountOf(results, Win), CountOf(results, Tie)))
  {
    if results != [] {
      var front := results[..|results| - 1];
      assert forall t :: 0 <= t < |front| ==> front[t] == results[t];
      TallyAllCounts(front);
    }
  }

  /** Every trial has outcome o exactly when o is counted once per trial. */
  lemma {:induction false} CountOfAll(results: seq<Result<Outcome>>, o: Outcome)
    ensures CountOf(results, o) == |results| <==> forall t :: 0 <= t < |results| ==> results[t] == Ok(o)
  {
    if results != [] {
      var front := results[..|results| - 1];
      assert forall t :: 0 <= t < |front| ==> front[t] == results[t];
      CountOfAll(front, o);
    }
  }

  /** When every trial is a win, the counters say so: all wins, no ties. */
  lemma {:induction false} AllWins(results: seq<Result<Outcome>>)
    requires forall t :: 0 <= t < |results| ==> results[t] == Ok(Win)
    ensures TallyAll(results) == Ok(Tally(|results|, 0))
  {
    if results != [] {
      var front := results[..|results| - 1];
      assert forall t :: 0 <= t < |front| ==> front[t] == results[t];
      AllWins(front);
    }
  }

  /** With fewer than two players no trial can complete, so a simulation with
      at least one trial fails. */
  lemma NoOpponentsFails(shuffles: seq<seq<Card>>, hero: seq<Card>, board: seq<Card>, numPlayers: int, score: Scorer)
    requires numPlayers < 2 && |shuffles| > 0
    ensures Simulate(shuffles, hero, board, numPlayers, score).Err?
  {
    TallyAllOkIff(Trials(shuffles, hero, board, numPlayers, score));
  }

  /** `(wins + ties * (1/num_players)) / sims * 100`, in exact arithmetic:
      each tie is credited 1/num_players of a win. */
  function EquityPercent(t: Tally, sims: nat, numPlayers: int): (r: Result<real>)
    ensures r.Err? <==> numPlayers == 0 || sims == 0
    ensures r.Ok? && numPlayers >= 1 && t.wins + t.ties <= sims ==> 0.0 <= r.value <= 100.0
    ensures r.Ok? && numPlayers >= 2 && t.wins + t.ties <= sims ==> (r.value == 100.0 <==> t.wins == sims)
    ensures r.Ok? && numPlayers >= 1 ==> (r.value == 0.0 <==> t.wins == 0 && t.ties == 0)
  {
    if numPlayers == 0 || sims == 0 then Err(DivisionByZero)
    else
      var credit := t.wins as real + t.ties as real * (1.0 / numPlayers as real);
      var pct := credit / sims as real * 100.0;
      PercentBounds(t.wins, t.ties, sims, numPlayers, credit, pct);
      Ok(pct)
  }

  lemma PercentBounds(wins: nat, ties: nat, sims: nat, numPlayers: int, credit: real, pct: real)
    requires numPlayers != 0 && sims > 0
    requires credit == wins as real + ties as real * (1.0 / numPlayers as real)
    requires pct == credit / sims as real * 100.0
    ensures numPlayers >= 1 && wins + ties <= sims ==> 0.0 <= pct <= 100.0
    ensures numPlayers >= 2 && wins + ties <= sims ==> (pct == 100.0 <==> wins == sims)
    ensures numPlayers >= 1 ==> (pct == 0.0 <==> wins == 0 && ties == 0)
  {
    var w, t, s := wins as real, ties as real, sims as real;
    var q := credit / s;
    assert q * s == credit;
    assert pct == q * 100.0;
    if numPlayers >= 1 {
      var inv := 1.0 / numPlayers as real;
      assert inv * numPlayers as real == 1.0;
      assert 0.0 < inv <= 1.0;
      ScaleBelow(t, inv, 1.0);
      assert 0.0 <= t * inv <= t;
      assert t > 0.0 ==> t * inv > 0.0;
      assert credit == 0.0 <==> w == 0.0 && t == 0.0;
      assert q == 0.0 <==> credit == 0.0;
      if wins + ties <= sims {
        assert 0.0 <= credit <= s;
        QuotientAtMostOne(credit, s, q);
        if numPlayers >= 2 {
          assert inv <= 0.5;
          ScaleBelow(t, inv, 0.5);
          assert t > 0.0 ==> t * inv < t;
          assert credit == s <==> wins == sims;
        }
      }
    }
  }

  lemma ScaleBelow(x: real, a: real, b: real)
    requires 0.0 <= x && a <= b
    ensures x * a <= x * b
    ensures 0.0 < x && a < b ==> x * a < x * b
  {
  }

  lemma QuotientAtMostOne(x: real, s: real, q: real)
    requires 0.0 < s && 0.0 <= x <= s && q * s == x
    ensures 0.0 <= q <= 1.0
    ensures q == 1.0 <==> x == s
  {
    if q > 1.0 {
      ScaleBelow(s, 1.0, q);
    }
    if q < 0.0 {
      ScaleBelow(s, q, 0.0);
    }
    if q < 1.0 {
      ScaleBelow(s, q, 1.0);
    }
  }

  /** A tie is worth one share of the pot among all players: numPlayers
      more ties count exactly as much as one more win. */
  lemma TieCredit(wins: nat, ties: nat, sims: nat, numPlayers: nat)
    requires numPlayers >= 1 && sims > 0
    ensures EquityPercent(Tally(wins, ties + numPlayers), sims, numPlayers)
         == EquityPercent(Tally(wins + 1, ties), sims, numPlayers)
  {
    var moreTies, oneMoreWin := Tally(wins, ties + numPlayers), Tally(wins + 1, ties);
    var inv := 1.0 / numPlayers as real;
    assert numPlayers as real * inv == 1.0;
    assert (ties + numPlayers) as real * inv == ties as real * inv + numPlayers as real * inv;
    PercentOfCredit(moreTies, sims, numPlayers);
    PercentOfCredit(oneMoreWin, sims, numPlayers);
  }

  /** The percentage of a run that can be scored, in terms of its credit. */
  lemma PercentOfCredit(t: Tally, sims: nat, numPlayers: int)
    requires numPlayers != 0 && sims > 0
    ensures EquityPercent(t, sims, numPlayers)
         == Ok((t.wins as real + t.ties as real * (1.0 / numPlayers as real)) / sims as real * 100.0)
  {
    var credit := t.wins as real + t.ties as real * (1.0 / numPlayers as real);
    var pct := credit / sims as real * 100.0;
    assert EquityPercent(t, sims, numPlayers).Ok?;
    assert EquityPercent(t, sims, numPlayers).value == pct;
  }

  /** A run in which every trial ties earns the hero the share of a single
      player: 100 / numPlayers per cent. */
  lemma AllTies(sims: nat, numPlayers: nat)
    requires numPlayers >= 1 && sims > 0
    ensures EquityPercent(Tally(0, sims), sims, numPlayers) == Ok(100.0 / numPlayers as real)
  {
    var t := Tally(0, sims);
    PercentOfCredit(t, sims, numPlayers);
    ShareOfAll(t.wins as real, t.ties as real, sims as real, numPlayers as real);
    var x := (t.wins as real + t.ties as real * (1.0 / numPlayers as real)) / sims as real * 100.0;
    assert x == 100.0 / numPlayers as real;
    assert EquityPercent(t, sims, numPlayers) == Ok(x);
  }

  /** The real arithmetic behind AllTies: all s trials credited 1/m each make
      100/m per cent. */
  lemma ShareOfAll(w: real, ties: real, s: real, m: real)
    requires w == 0.0 && ties == s && s > 0.0 && m > 0.0
    ensures (w + ties * (1.0 / m)) / s * 100.0 == 100.0 / m
  {
    var inv := 1.0 / m;
    assert (w + ties * inv) / s == inv;
  }

  // ---------------------------------------------------------------------------
  // The current-hand label and the whole calculation
  // ---------------------------------------------------------------------------

  /** The label of the hand as currently known: "N/A" with fewer than five
      cards, otherwise the evaluator's class name for the hero's cards and at
      most the first five board cards. */
  function CurrentLabel(hero: seq<Card>, board: seq<Card>, score: Scorer, className: ClassNamer): (handName: string)
    ensures |hero| + |board| < 5 ==> handName == "N/A"
  {
    if |hero + board| >= 5 then className(score(hero, board[..Min(5, |board|)])) else "N/A"
  }

  /** When no class name is "N/A", the label is "N/A" exactly when hero and
      board hold fewer than five cards. */
  lemma CurrentLabelNotApplicableIff(hero: seq<Card>, board: seq<Card>, score: Scorer, className: ClassNamer)
    requires forall s :: className(s) != "N/A"
    ensures CurrentLabel(hero, board, score, className) == "N/A" <==> |hero| + |board| < 5
  {
    var x := score(hero, board[..Min(5, |board|)]);
    assert className(x) != "N/A";
  }

  /** Board cards past the fifth do not affect the label. */
  lemma CurrentLabelFirstFive(hero: seq<Card>, b1: seq<Card>, b2: seq<Card>, score: Scorer, className: ClassNamer)
    requires |b1| >= 5 && |b2| >= 5 && b1[..5] == b2[..5]
    ensures CurrentLabel(hero, b1, score, className) == CurrentLabel(hero, b2, score, className)
  {
  }

  /** What calculate_equity returns. */
  datatype EquityResult = EquityResult(percent: real, handName: string)

  /** calculate_equity over one shuffled deck per trial. */
  function Equity(shuffles: seq<seq<Card>>, hero: seq<Card>, board: seq<Card>, numPlayers: int,
                  score: Scorer, className: ClassNamer): (r: Result<EquityResult>)
    ensures r.Ok? ==> 2 <= numPlayers && |shuffles| > 0
    ensures r.Ok? ==> 0.0 <= r.value.percent <= 100.0
  {
    match Simulate(shuffles, hero, board, numPlayers, score)
    case Err(e) => Err(e)
    case Ok(t) =>
      match EquityPercent(t, |shuffles|, numPlayers)
      case Err(e) => Err(e)
      case Ok(pct) => Ok(EquityResult(pct, CurrentLabel(hero, board, score, className)))
  }

  /** A completed calculation reports 100 percent exactly when every trial
      was a win. */
  lemma FullEquityIff(shuffles: seq<seq<Card>>, hero: seq<Card>, board: seq<Card>, numPlayers: int,
                      score: Scorer, className: ClassNamer)
    requires Equity(shuffles, hero, board, numPlayers, score, className).Ok?
    ensures Equity(shuffles, hero, board, numPlayers, score, className).value.percent == 100.0
            <==> forall t :: 0 <= t < |shuffles| ==> TrialOutcome(shuffles[t], hero, board, numPlayers, score) == Ok(Win)
  {
    var results := Trials(shuffles, hero, board, numPlayers, score);
    TallyAllOkIff(results);
    TallyAllCounts(results);
    CountOfAll(results, Win);
  }

  /** Proof step: unfolds Equity for a run that completes with a percentage. */
  lemma EquityOk(shuffles: seq<seq<Card>>, hero: seq<Card>, board: seq<Card>, numPlayers: int,
                 score: Scorer, className: ClassNamer, t: Tally, pct: real)
    requires Simulate(shuffles, hero, board, numPlayers, score) == Ok(t)
    requires EquityPercent(t, |shuffles|, numPlayers) == Ok(pct)
    ensures Equity(shuffles, hero, board, numPlayers, score, className)
            == Ok(EquityResult(pct, CurrentLabel(hero, board, score, className)))
  {
  }

  /** The simulation loop: one trial per shuffled deck, the counters bumped
      by each, then the label and the percentage. A completed calculation
      always yields a percentage between 0 and 100. */
  method CalculateEquity(shuffles: seq<seq<Card>>, hero: seq<Card>, board: seq<Card>, numPlayers: int,
                         score: Scorer, className: ClassNamer)
    returns (r: Result<EquityResult>)
    ensures r == Equity(shuffles, hero, board, numPlayers, score, className)
    ensures r.Ok? ==> 0.0 <= r.value.percent <= 100.0
    ensures r.Ok? ==> 2 <= numPlayers && |shuffles| > 0
  {
    ghost var results := Trials(shuffles, hero, board, numPlayers, score);
    var wins, ties := 0, 0;
    for t := 0 to |shuffles|
      invariant TallyAll(results[..t]) == Ok(Tally(wins, ties))
    {
      var outcome := RunTrial(shuffles[t], hero, board, numPlayers, score);
      assert outcome == results[t];
      TallyAllStep(results, t);
      if outcome.Err? {
        TallyAllAborts(results, t + 1);
        assert Simulate(shuffles, hero, board, numPlayers, score) == Err(outcome.error);
        assert Equity(shuffles, hero, board, numPlayers, score, className) == Err(outcome.error);
        return Err(outcome.error);
      }
      if outcome.value == Win {
        wins := wins + 1;
      } else if outcome.value == Tie {
        ties := ties + 1;
      }
      assert Tally(wins, ties) == Record(TallyAll(results[..t]).value, outcome.value);
    }
    assert results[..|shuffles|] == results;
    var handName := "N/A";
    if |hero + board| >= 5 {
      handName := className(score(hero, board[..Min(5, |board|)]));
    }
    var percent := EquityPercent(Tally(wins, ties), |shuffles|, numPlayers);
    if percent.Err? {
      return Err(percent.error);
    }
    assert numPlayers >= 2 by {
      TallyAllOkIff(results);
      assert results[0].Ok?;
    }
    EquityOk(shuffles, hero, board, numPlayers, score, className, Tally(wins, ties), percent.value);
    r := Ok(EquityResult(percent.value, handName));
  }
}
