# poker-helper core, modelled in Dafny

poker-helper is a small Streamlit poker assistant (`poker_app.py`). It reads
the hole cards and the board from one line of text, names the street, shows a
13×13 starting-hand grid, estimates the hero's equity by Monte-Carlo
simulation and, when checked to, chooses a bet size from the board texture.
This project models the deterministic core of that file:

- `parsing.dfy` (module `Parsing`) — `parse_and_detect_street`. The raw line
  is stripped, lower-cased, has "10" replaced by "t" and loses its spaces. It
  is then cut into two-character card tokens, each re-cased. The first two
  tokens are the hero's cards and the rest is the board. The street is named
  from the board size. These are pure functions on `string`.
- `hand_matrix.dfy` (module `HandMatrix`) — `get_hand_matrix` as a method
  with the source's two nested loops. It builds the grid as a sequence of
  rows of labels: pairs on the diagonal, suited hands above it, offsuit
  hands below it.
- `deck.dfy` (module `Cards`) — the per-trial deck. It is a class whose
  `cards` list is mutated in place: known cards are removed with
  `list.remove`, and hands and board cards are drawn from the front. The
  specification functions `RemoveKnown` and `Without` describe what removal
  leaves.
- `equity.dfy` (module `Equity`) — the deterministic skeleton of
  `calculate_equity`. One trial deals two cards to each opponent, completes
  the board to five cards, and classifies the hero's score against the best
  opponent score. Lower scores are stronger. The method `CalculateEquity`
  runs the `sims` loop with its `wins` and `ties` counters. It then computes
  the "N/A"-guarded hand label and the percentage, where each tie is credited
  `1/num_players`.
- `texture.dfy` (module `Texture`) — the `is_wet` board-texture check: sort
  the board ranks, then test whether two neighbours differ by at most one.

The hand evaluator and the card library are outside the model:

- A card is an integer.
- `evaluate` is a parameter of type `Scorer`.
- `class_to_string(get_rank_class(·))` is a parameter of type `ClassNamer`.
- `get_rank_int` is a parameter of type `RankOf`.
- The random shuffle of each trial's fresh deck is a parameter: `shuffles`
  holds one deck order per trial, so `sims` is `|shuffles|`.
- The Python exceptions the core can raise become `Err` values:
  - `DeckExhausted` when a draw finds too few cards;
  - `NoOpponents` when `min` runs over an empty list;
  - `DivisionByZero` when `num_players` or `sims` is zero.

## Model

| member | source | states |
|---|---|---|
| Parsing.IsSpace | poker_app.py:19 | the whitespace `strip()` removes (Python's `isspace` set) contains no digit and no ASCII letter, so it never cuts a rank or a suit |
| Parsing.Lower | poker_app.py:19 | `lower()` maps each character in place: a capital A–Z becomes its small letter (code + 32), every other character stays; no capital is left |
| Parsing.Strip | poker_app.py:19 | `strip()` yields a contiguous middle part of the input that neither starts nor ends with whitespace; everything cut on either side is whitespace |
| Parsing.StripIdempotent | poker_app.py:19 | stripping a stripped string changes nothing |
| Parsing.ReplaceTen | poker_app.py:19 | `replace("10", "t")` never lengthens the string, only adds 't' characters, replaces a leading "10" by 't' and leaves no "10" behind |
| Parsing.ReplaceTenPieces | poker_app.py:19 | "10" becomes "t" and a single character stays as it is |
| Parsing.ReplaceTenAppend | poker_app.py:19 | the replacement works piece by piece, in order, at any cut that does not split a "10"; with ReplaceTenPieces this fixes the result of every string |
| Parsing.ReplaceTenAppendTen | poker_app.py:19 | proof step: a leading "10" is replaced by "t" alike in x and in x + y |
| Parsing.ReplaceTenAppendOther | poker_app.py:19 | proof step: a first character that starts no "10" is kept alike in x and in x + y |
| Parsing.ReplaceTenLeftToRight | poker_app.py:19 | the scan runs left to right without overlap: "110" becomes "1t" |
| Parsing.ReplaceTenWithoutTen | poker_app.py:19 | a string with no "10" passes through the replacement unchanged |
| Parsing.ReplaceTenIdempotent | poker_app.py:19 | replacing twice gives what replacing once gives |
| Parsing.RemoveSpaces | poker_app.py:19 | `replace(" ", "")` removes every space and keeps the count of every other character |
| Parsing.RemoveSpacesAppend | poker_app.py:19 | removing spaces works piece by piece and keeps the order of the other characters |
| Parsing.RemoveSpacesNoSpace | poker_app.py:19 | a string without spaces is left as it is |
| Parsing.Clean | poker_app.py:19 | the cleaned line is no longer than the raw line, holds no space and no ASCII capital |
| Parsing.CleanCanonical | poker_app.py:19 | a line with no whitespace, no capital and no "10" cleans to itself |
| Parsing.SpacedTenSurvives | poker_app.py:19 | the "10" replacement runs before space removal, so "1 0" cleans to "10" rather than "t" |
| Parsing.FormatToken | poker_app.py:21 | a token is two characters: the rank upper-cased, the suit lower-cased |
| Parsing.Tokens | poker_app.py:20-21 | the line gives len div 2 tokens, token k built from characters 2k and 2k+1; a trailing single character is dropped |
| Parsing.ParseAndDetectStreet | poker_app.py:15-34 | hero followed by board is exactly the token list; the hero holds min(2, n) tokens, the board the rest; the street is named from the board size |
| Parsing.DigitChar | poker_app.py:32 | a digit below ten is written as the character of that value |
| Parsing.NatToString | poker_app.py:32 | the f-string writes a count as decimal digits that spell it, most significant first, with no leading zero; two or more digits exactly from 10 up |
| Parsing.NatToStringInjective | poker_app.py:32 | different counts are written differently |
| Parsing.StreetName | poker_app.py:27-32 | 0, 3, 4 and 5 board cards name Pre-flop, Flop, Turn and River; any other count k gives "Incomplete (k board cards)" |
| Parsing.StreetNamedIff | poker_app.py:27-32 | the street is a named one exactly when the board holds 0, 3, 4 or 5 cards, so 1, 2 and 6 or more never are |
| Parsing.StreetNameInjective | poker_app.py:27-32 | different board sizes get different street names |
| HandMatrix.RankIndex | poker_app.py:6 | every rank letter has a position in RANKS |
| HandMatrix.RanksDistinct | poker_app.py:6 | no rank letter appears twice in RANKS |
| HandMatrix.HandLabel | poker_app.py:41-43 | a cell label names the stronger rank first; a pair has no suffix, a cell above the diagonal ends in 's' and one below it in 'o' |
| HandMatrix.GetHandMatrix | poker_app.py:36-46 | the nested loops build a 13×13 grid whose cell (i, j) is the label of ranks i and j |
| HandMatrix.HandLabelsDistinct | poker_app.py:38-45 | no label appears in two cells |
| HandMatrix.HandLabelMirror | poker_app.py:41-43 | cells (i, j) and (j, i) name the same ranks in the same order; off the diagonal one is suited and the other offsuit |
| HandMatrix.HandLabelCovers | poker_app.py:38-45 | every pair, every suited hand and every offsuit hand is found in the grid |
| Cards.RemoveFirst | poker_app.py:61 | `list.remove` leaves a list without the card unchanged and otherwise takes exactly one copy of it away |
| Cards.RemoveKnown | poker_app.py:60-61 | removing the known cards one by one only takes cards away |
| Cards.Without | poker_app.py:60-61 | the reference result: a card stays exactly when it was in the deck and is not known; a deck without duplicates yields a result without duplicates |
| Cards.RemoveFirstIsWithout | poker_app.py:61 | on a deck without duplicates, `remove` of one card equals filtering that card out |
| Cards.RemoveKnownIsWithout | poker_app.py:60-61 | on a deck without duplicates, removal leaves no known card and every other card in its original relative order |
| Cards.RepeatedKnownSkipped | poker_app.py:60-61 | a known card listed twice is skipped the second time: the deck comes out the same |
| Cards.AbsentKnownSkipped | poker_app.py:60-61 | a known card missing from the deck is skipped without error |
| Cards.Deck.constructor | poker_app.py:59 | a fresh deck holds the cards in the order of its shuffle |
| Cards.Deck.RemoveKnownCards | poker_app.py:60-61 | the in-place loop leaves the deck list equal to the reference removal |
| Cards.Deck.Draw | poker_app.py:63-65 | a draw of n takes the first n cards, in order, and leaves the rest; a deck with fewer than n cards cannot serve it |
| Equity.MinScore | poker_app.py:68 | `min(scores)` is one of the scores and no score is below it |
| Equity.Classify | poker_app.py:70-71 | a win exactly when the hero beats every opponent score, a tie exactly when the hero equals the best one, a loss exactly when some opponent is strictly better |
| Equity.OpponentCount | poker_app.py:63 | `range(num_players - 1)` deals max(0, num_players − 1) opponent hands |
| Equity.CardsNeeded | poker_app.py:64-65 | the missing board cards bring the board to max(5, board) cards |
| Equity.Hands | poker_app.py:63 | k two-card hands taken in turn from the front of the deck |
| Equity.FlattenHands | poker_app.py:63 | the k hands together are exactly the first 2k cards |
| Equity.DealFrom | poker_app.py:63-65 | the deal fails exactly when the deck holds fewer than 2(num_players−1) plus the missing board cards; otherwise it gives num_players−1 hands of two and a board of max(5, board) cards that starts with the known board |
| Equity.DealCards | poker_app.py:59-65 | the deal from a fresh deck after known-card removal fails only by exhaustion and otherwise gives num_players − 1 hands and a board of max(5, board) cards |
| Equity.DealtIsPrefix | poker_app.py:63-65 | a successful deal uses exactly the front cards of the deck, hands first, then the board cards |
| Equity.DealIsFresh | poker_app.py:58-65 | dealt from a deck without duplicates, no card is dealt twice and none is a hero or board card |
| Equity.RemoveKnownLength | poker_app.py:60-61 | removal takes at most one card per known card |
| Equity.DeckSuffices | poker_app.py:58-65 | a deck never runs out when it holds the known cards plus two per opponent plus the missing board cards |
| Equity.FullDeckSuffices | poker_app.py:58-65 | in particular a 52-card deck never runs out with at most 9 players and 7 known cards |
| Equity.OpponentScores | poker_app.py:68 | one score per opponent hand, on the completed board |
| Equity.TrialOutcome | poker_app.py:58-71 | fewer than two players always fails a trial; a trial that completes had a successful deal |
| Equity.TrialWinIff | poker_app.py:58-71 | with at least two players and a deck holding every card a trial deals, a trial completes and is a win exactly when the hero's score beats every opponent's |
| Equity.TrialClassifies | poker_app.py:63-71 | whenever the deal succeeds with at least two players, the trial is the classification of the hero's score against the opponents' scores on the completed board |
| Equity.DrawHands | poker_app.py:63 | `[deck.draw(2) ...]` takes the hands from the front of the deck and leaves the rest |
| Equity.DealFromOk | poker_app.py:63-65 | proof step: the cards taken by the two kinds of draw are the deal DealFrom describes |
| Equity.DealTrial | poker_app.py:58-65 | the in-place deck operations of one trial give DealCards of the shuffle |
| Equity.RunTrial | poker_app.py:58-71 | one loop iteration yields TrialOutcome of its shuffle |
| Equity.Record | poker_app.py:70-71 | a win bumps `wins` by one, a tie bumps `ties` by one, a loss changes neither |
| Equity.TallyAll | poker_app.py:57-71 | wins plus ties never exceed the number of trials |
| Equity.Extend | poker_app.py:57-71 | one more trial completes the run exactly when the run so far and the trial both complete, and then records the trial's outcome |
| Equity.Trials | poker_app.py:57-71 | one trial result per shuffled deck |
| Equity.TallyAllStep | poker_app.py:57-71 | proof step: one more trial either aborts the run with its error or records its outcome |
| Equity.TallyAllAborts | poker_app.py:57-71 | proof step: a failure aborts the whole run with its error |
| Equity.CountOf | poker_app.py:70-71 | the independent count of the trials with a given outcome never exceeds the number of trials |
| Equity.TallyAllCounts | poker_app.py:57-71 | when every trial completes, `wins` is the number of Win trials and `ties` the number of Tie trials |
| Equity.CountOfAll | poker_app.py:70-71 | an outcome is counted once per trial exactly when every trial has it |
| Equity.Simulate | poker_app.py:57-71 | a completed run has wins + ties at most sims, and every one of its trials completed |
| Equity.TallyAllOkIff | poker_app.py:57-71 | a run completes exactly when every trial does |
| Equity.TallyAllSplit | poker_app.py:57-71 | running trials in two batches and adding the counters gives the counters of one run |
| Equity.TallyAllSplitStep | poker_app.py:57-71 | proof step: one more trial at the end of the second batch keeps the batches adding up |
| Equity.CombineExtend | poker_app.py:57-71 | proof step: a trial recorded after two added batches counts as one recorded in the second batch |
| Equity.AllWins | poker_app.py:57-71 | when every trial is a win the counters are all wins and no ties |
| Equity.NoOpponentsFails | poker_app.py:63-68 | with fewer than two players, a run of at least one trial fails |
| Equity.EquityPercent | poker_app.py:77 | division by zero exactly when num_players or sims is zero; otherwise 0 to 100, 100 exactly when every trial is a win, 0 exactly when there are no wins and no ties |
| Equity.PercentBounds | poker_app.py:77 | the bounds of the percentage, with each tie credited 1/num_players |
| Equity.TieCredit | poker_app.py:77 | a tie is worth 1/num_players of a win: num_players more ties give the same percentage as one more win |
| Equity.PercentOfCredit | poker_app.py:77 | proof step: the percentage is the credit, wins plus ties over num_players, over sims times 100 |
| Equity.ShareOfAll | poker_app.py:77 | proof step: sims ties at 1/num_players each over sims trials make 100/num_players per cent |
| Equity.AllTies | poker_app.py:77 | a run of nothing but ties gives 100/num_players per cent |
| Equity.CurrentLabel | poker_app.py:73-75 | the label is "N/A" with fewer than five known cards |
| Equity.CurrentLabelNotApplicableIff | poker_app.py:73-75 | when no class name is "N/A", the label is "N/A" exactly when there are fewer than five known cards |
| Equity.CurrentLabelFirstFive | poker_app.py:75 | board cards past the fifth do not change the label |
| Equity.Equity | poker_app.py:49-77 | a completed calculation has at least two players, at least one trial and a percentage between 0 and 100 |
| Equity.FullEquityIff | poker_app.py:57-77 | a completed calculation reports 100 percent exactly when every trial was a win |
| Equity.EquityOk | poker_app.py:73-77 | proof step: unfolds Equity for a run that completes with a percentage |
| Equity.CalculateEquity | poker_app.py:49-77 | the simulation loop over the in-place deck returns Equity of its inputs; a completed calculation has at least two players, at least one trial and a percentage between 0 and 100 |
| Texture.BoardRanks | poker_app.py:144 | one rank per board card, in order |
| Texture.Insert | poker_app.py:144 | inserting into a sorted list keeps it sorted and adds exactly that rank |
| Texture.SortRanks | poker_app.py:144 | `sorted` gives an ascending permutation of the ranks |
| Texture.SomeNeighboursClose | poker_app.py:145 | `any` over neighbouring pairs can only hold for at least two ranks |
| Texture.IsWet | poker_app.py:142-145 | `is_wet` can only hold for a board of at least two cards (IsWetIff gives its meaning) |
| Texture.TwoPositionsCount | poker_app.py:144-145 | a rank found at two positions occurs at least twice |
| Texture.CountTwoPositions | poker_app.py:144-145 | a rank occurring at least twice is found at two positions |
| Texture.SortedCloseNeighbour | poker_app.py:145 | in a sorted list, two ranks at most one apart make some pair of neighbours at most one apart |
| Texture.PermutedPositions | poker_app.py:144 | two cards at different positions are at different positions after sorting |
| Texture.SortedNeighboursIff | poker_app.py:144-145 | the sorted ranks have two neighbours at most one apart exactly when two cards have equal or adjacent ranks |
| Texture.IsWetIff | poker_app.py:142-145 | a board is wet exactly when two of its cards have equal or adjacent ranks |
| Texture.PairedIsWet | poker_app.py:142-145 | a paired board is wet |
| Texture.SmallBoardIsDry | poker_app.py:142-145 | an empty or one-card board is never wet |

## Left out

- The Streamlit interface: page layout, widgets, metrics, messages and the heatmap colouring (poker_app.py:80-161). It is presentation and I/O. The `lower()` applied to the input line before parsing (poker_app.py:84) belongs to it.
- The pandas `DataFrame` wrapper of the grid (poker_app.py:46) and the `RANGE_DATA` table (poker_app.py:7-12), which only colours the display. The unused `pot_type` parameter of `get_hand_matrix` is dropped.
- The card library: `Card.new`, `Evaluator.evaluate`, `get_rank_class`, `class_to_string`, `get_rank_int` and `Deck` are not part of this model. Cards are integers, and the evaluator functions are parameters, assumed total and deterministic.
- The `try`/bare `except` that returns `(0, "Invalid Input")` when a card string does not parse (poker_app.py:52-56). It depends on the card library's parser.
- Randomness: each trial's freshly shuffled deck is a parameter, so `sims` is the number of shuffles and cannot be negative.
- The default `sims=1500` of `calculate_equity` (poker_app.py:49) has no counterpart: `sims` is the length of the `shuffles` parameter, so a caller that wants the default passes 1500 shuffles.
- `Deck.draw` is modelled as taking the first n cards as a list. Whether the library returns a bare card for `draw(1)`, and which end of the list it pops from, are part of the library.
- Cards.Deck.Draw: a draw from a deck that is too short fails before taking any card. The library may pop some cards before it fails. The trial aborts either way, so this is not observable.
- Equity.EquityPercent: computed in exact rational arithmetic, not in binary floating point, so rounding of the percentage is not modelled.
- Pot odds, EV, bet sizing and the recommendation thresholds (poker_app.py:120-161). They are floating-point presentation logic built on the results modelled here.
- Case mapping covers the ASCII letters only. Python's `lower()` and `upper()` also map other Unicode letters, and some of those change the length of the string.
