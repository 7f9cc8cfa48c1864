/** The per-trial deck of calculate_equity: a list of cards from which the
    known cards are removed in place and from which opponents' hands and the
    missing board cards are drawn. */
module Cards {

  /** A card, as the hand-evaluation library encodes it: an integer. */
  type Card = int

  /** No card occurs twice. */
  predicate NoDup(s: seq<Card>) {
    forall i, j :: 0 <= i < j < |s| ==> s[i] != s[j]
  }

  /** `list.remove(c)`: drops the first occurrence of c; a card that is not
      there leaves the list as it is. */
  function RemoveFirst(s: seq<Card>, c: Card): (r: seq<Card>)
    ensures c !in s ==> r == s
    ensures c in s ==> |r| == |s| - 1
    ensures multiset(r) == multiset(s) - multiset{c}
  {
    if s == [] then []
    else
      assert s == [s[0]] + s[1..];
      if s[0] == c then s[1..] else [s[0]] + RemoveFirst(s[1..], c)
  }

  /** The deck list after the loop of `remove` calls over the known cards,
      in the order they are listed. */
  function RemoveKnown(s: seq<Card>, known: seq<Card>): (r: seq<Card>)
    ensures multiset(r) <= multiset(s)
  {
    if known == [] then s
    else RemoveFirst(RemoveKnown(s, known[..|known| - 1]), known[|known| - 1])
  }

  /** The cards of s that are not in known, in their order in s. */
  function Without(s: seq<Card>, known: seq<Card>): (r: seq<Card>)
    ensures |r| <= |s|
    ensures forall c :: c in r <==> c in s && c !in known
    ensures NoDup(s) ==> NoDup(r)
  {
    if s == [] then []
    else
      var rest := Without(s[1..], known);
      assert forall c :: c in s <==> c == s[0] || c in s[1..];
      if s[0] in known then rest
      else
        assert NoDup(s) ==> s[0] !in s[1..];
        [s[0]] + rest
  }

  lemma {:induction false} WithoutNothing(s: seq<Card>, known: seq<Card>)
    requires forall i :: 0 <= i < |s| ==> s[i] !in known
    ensures Without(s, known) == s
  {
    if s != [] {
      assert s[0] !in known;
      WithoutNothing(s[1..], known);
      assert Without(s, known) == [s[0]] + s[1..];
    }
  }

  lemma {:induction false} WithoutTwice(s: seq<Card>, known: seq<Card>, c: Card)
    ensures Without(Without(s, known), [c]) == Without(s, known + [c])
  {
    if s != [] {
      WithoutTwice(s[1..], known, c);
    }
  }

  lemma {:induction false} WithoutSameCards(s: seq<Card>, k1: seq<Card>, k2: seq<Card>)
    requires forall c :: c in k1 <==> c in k2
    ensures Without(s, k1) == Without(s, k2)
  {
    if s != [] {
      WithoutSameCards(s[1..], k1, k2);
    }
  }

  /** On a deck without duplicates, `remove` drops exactly the card asked for. */
  lemma {:induction false} RemoveFirstIsWithout(s: seq<Card>, c: Card)
    requires NoDup(s)
    ensures RemoveFirst(s, c) == Without(s, [c])
  {
    if s != [] {
      if s[0] == c {
        WithoutNothing(s[1..], [c]);
      } else {
        RemoveFirstIsWithout(s[1..], c);
      }
    }
  }

  /** Known-card removal on a deck without duplicates: afterwards no known
      card is left, and every other card is still there, in its original
      relative order. */
  lemma {:induction false} RemoveKnownIsWithout(s: seq<Card>, known: seq<Card>)
    requires NoDup(s)
    ensures RemoveKnown(s, known) == Without(s, known)
  {
    if known != [] {
      var front, last := known[..|known| - 1], known[|known| - 1];
      assert known == front + [last];
      RemoveKnownIsWithout(s, front);
      RemoveFirstIsWithout(Without(s, front), last);
      WithoutTwice(s, front, last);
      calc {
        RemoveKnown(s, known);
        RemoveFirst(RemoveKnown(s, front), last);
        RemoveFirst(Without(s, front), last);
        Without(Without(s, front), [last]);
        Without(s, known);
      }
    } else {
      WithoutNothing(s, known);
    }
  }

  /** A known card listed a second time is skipped without error: the deck
      comes out the same. */
  lemma RepeatedKnownSkipped(s: seq<Card>, known: seq<Card>, c: Card)
    requires NoDup(s) && c in known
    ensures RemoveKnown(s, known + [c]) == RemoveKnown(s, known)
  {
    RemoveKnownIsWithout(s, known + [c]);
    RemoveKnownIsWithout(s, known);
    WithoutSameCards(s, known + [c], known);
  }

  /** A known card that is not in the deck is skipped without error. */
  lemma AbsentKnownSkipped(s: seq<Card>, known: seq<Card>, c: Card)
    requires c !in s
    ensures RemoveKnown(s, known + [c]) == RemoveKnown(s, known)
  {
    assert (known + [c])[..|known|] == known;
    var r := RemoveKnown(s, known);
    assert multiset(s)[c] == 0;
    assert multiset(r)[c] == 0;
    assert c !in r;
  }

  /** A deck: `cards` is the list the trial loop mutates. */
  class Deck {
    var cards: seq<Card>

    /** A fresh deck in the order the shuffle left it. */
    constructor (order: seq<Card>)
      ensures cards == order
    {
      cards := order;
    }

    /** `for c in known: if c in deck.cards: deck.cards.remove(c)`. */
    method RemoveKnownCards(known: seq<Card>)
      modifies this
      ensures cards == RemoveKnown(old(cards), known)
    {
      ghost var start := cards;
      for i := 0 to |known|
        invariant cards == RemoveKnown(start, known[..i])
      {
        assert known[..i + 1][..i] == known[..i];
        var c := known[i];
        if c in cards {
          cards := RemoveFirst(cards, c);
        }
      }
      assert known[..|known|] == known;
    }

    /** `deck.draw(n)`: the first n cards leave the deck, in order. A deck
        with fewer than n cards cannot serve the draw (ok is false) and is
        left as it was. */
    method Draw(n: nat) returns (drawn: seq<Card>, ok: bool)
      modifies this
      ensures ok == (n <= |old(cards)|)
      ensures ok ==> drawn == old(cards)[..n] && cards == old(cards)[n..]
      ensures !ok ==> drawn == [] && cards == old(cards)
    {
      if n <= |cards| {
        drawn, ok := cards[..n], true;
        cards := cards[n..];
      } else {
        drawn, ok := [], false;
      }
    }
  }
}
