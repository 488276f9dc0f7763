/** Drawing cards without replacement by index, as `cards.delete_at(rand(cards.length))`
    does. The random numbers are supplied by the caller: `picks[k]` is the index returned
    by `rand` at the k-th draw, so it lies below the number of cards left at that draw. */
module Draws {

  /** `s.delete_at(i)`: the sequence without its element at `i`, order kept. */
  function RemoveAt<T>(s: seq<T>, i: nat): (r: seq<T>)
    requires i < |s|
    ensures |r| == |s| - 1
  {
    s[..i] + s[i + 1..]
  }

  /** Removing an element loses that element and nothing else. */
  lemma RemoveAtMultiset<T>(s: seq<T>, i: nat)
    requires i < |s|
    ensures multiset(RemoveAt(s, i)) + multiset{s[i]} == multiset(s)
  {
    assert s == s[..i] + [s[i]] + s[i + 1..];
  }

  /** The elements before `i` keep their places; those after it move down by one. */
  lemma RemoveAtElements<T>(s: seq<T>, i: nat)
    requires i < |s|
    ensures forall k :: 0 <= k < i ==> RemoveAt(s, i)[k] == s[k]
    ensures forall k :: i <= k < |s| - 1 ==> RemoveAt(s, i)[k] == s[k + 1]
  {
  }

  /** Every pick is an index into the cards still there at that draw: the k-th pick lies
      below `n - k` (ValidPicksIndices). */
  predicate ValidPicks(n: nat, picks: seq<nat>)
  {
    picks == [] || (ValidPicks(n, picks[..|picks| - 1]) && picks[|picks| - 1] < n - (|picks| - 1))
  }

  lemma {:induction false} ValidPicksIndices(n: nat, picks: seq<nat>)
    ensures ValidPicks(n, picks) <==> forall k :: 0 <= k < |picks| ==> picks[k] < n - k
  {
    if picks != [] {
      var m := |picks| - 1;
      ValidPicksIndices(n, picks[..m]);
      assert forall k :: 0 <= k < m ==> picks[..m][k] == picks[k];
    }
  }

  /** The cards left after drawing with each pick in turn (a pick out of range, which
      valid picks never hold, draws nothing). */
  function Remaining<T>(cards: seq<T>, picks: seq<nat>): (r: seq<T>)
    ensures ValidPicks(|cards|, picks) ==> |r| == |cards| - |picks|
    decreases |picks|
  {
    if picks == [] then cards
    else
      var rest, x := Remaining(cards, picks[..|picks| - 1]), picks[|picks| - 1];
      if x < |rest| then RemoveAt(rest, x) else rest
  }

  /** The cards drawn, in the order they were drawn. */
  function Drawn<T>(cards: seq<T>, picks: seq<nat>): (d: seq<T>)
    ensures ValidPicks(|cards|, picks) ==> |d| == |picks|
    decreases |picks|
  {
    if picks == [] then []
    else
      var rest, x := Remaining(cards, picks[..|picks| - 1]), picks[|picks| - 1];
      Drawn(cards, picks[..|picks| - 1]) + (if x < |rest| then [rest[x]] else [])
  }

  lemma ValidPicksPrefix(n: nat, picks: seq<nat>, m: nat)
    requires ValidPicks(n, picks) && m <= |picks|
    ensures ValidPicks(n, picks[..m])
  {
    ValidPicksIndices(n, picks);
    ValidPicksIndices(n, picks[..m]);
  }

  lemma ValidPicksSuffix(n: nat, picks: seq<nat>, m: nat)
    requires ValidPicks(n, picks) && m <= |picks| && m <= n
    ensures ValidPicks(n - m, picks[m..])
  {
    ValidPicksIndices(n, picks);
    ValidPicksIndices(n - m, picks[m..]);
    forall k | 0 <= k < |picks[m..]| ensures picks[m..][k] < n - m - k {
      assert picks[m..][k] == picks[m + k];
    }
  }

  /** One more draw with pick `x`, seen from the cards left before it. */
  lemma DrawLast<T>(cards: seq<T>, init: seq<nat>, x: nat)
    requires ValidPicks(|cards|, init + [x])
    ensures ValidPicks(|cards|, init)
    ensures x < |Remaining(cards, init)|
    ensures Remaining(cards, init + [x]) == RemoveAt(Remaining(cards, init), x)
    ensures Drawn(cards, init + [x]) == Drawn(cards, init) + [Remaining(cards, init)[x]]
  {
    var picks := init + [x];
    assert picks[..|picks| - 1] == init && picks[|picks| - 1] == x;
  }

  /** The draw at index `k`, seen from the cards left after the first `k`. */
  lemma DrawStep<T>(cards: seq<T>, picks: seq<nat>, k: nat)
    requires ValidPicks(|cards|, picks) && k < |picks|
    ensures ValidPicks(|cards|, picks[..k])
    ensures picks[k] < |Remaining(cards, picks[..k])|
    ensures Remaining(cards, picks[..k + 1]) == RemoveAt(Remaining(cards, picks[..k]), picks[k])
    ensures Drawn(cards, picks[..k + 1]) == Drawn(cards, picks[..k]) + [Remaining(cards, picks[..k])[picks[k]]]
  {
    ValidPicksPrefix(|cards|, picks, k + 1);
    assert picks[..k + 1] == picks[..k] + [picks[k]];
    DrawLast(cards, picks[..k], picks[k]);
  }

  /** No card is lost or created: the drawn cards and the rest make up the starting cards. */
  lemma {:induction false} DrawConserves<T>(cards: seq<T>, picks: seq<nat>)
    requires ValidPicks(|cards|, picks)
    ensures multiset(Drawn(cards, picks)) + multiset(Remaining(cards, picks)) == multiset(cards)
    decreases |picks|
  {
    if picks != [] {
      var before := picks[..|picks| - 1];
      DrawConserves(cards, before);
      ValidPicksPrefix(|cards|, picks, |picks| - 1);
      RemoveAtMultiset(Remaining(cards, before), picks[|picks| - 1]);
    }
  }

  /** A card drawn with the next pick moves from the deck to the end of the hand: it is
      there, and hand and deck together keep their cards. */
  lemma MoveCard<T>(whole: seq<T>, n: nat, picks: seq<nat>, hand: seq<T>, deck: seq<T>, hits: nat)
    requires ValidPicks(n, picks) && |picks| == n && |deck| == n - hits && deck != []
    requires multiset(hand) + multiset(deck) == multiset(whole)
    ensures hits < |picks| && picks[hits] < |deck|
    ensures multiset(hand + [deck[picks[hits]]]) + multiset(RemoveAt(deck, picks[hits])) == multiset(whole)
  {
    ValidPicksIndices(n, picks);
    var x, rest := deck[picks[hits]], RemoveAt(deck, picks[hits]);
    RemoveAtMultiset(deck, picks[hits]);
    assert multiset(hand + [x]) == multiset(hand) + multiset{x};
    assert multiset(hand) + multiset{x} + multiset(rest) == multiset(hand) + (multiset(rest) + multiset{x});
  }

  /** Replacing two parts of a whole by two others with the same union keeps the whole,
      wherever the third part stands. */
  lemma Regroup<T>(a: multiset<T>, b: multiset<T>, c: multiset<T>, b': multiset<T>, c': multiset<T>)
    requires b' + c' == b + c
    ensures a + b' + c' == a + b + c
    ensures b' + a + c' == b + a + c
  {
    assert a + b' + c' == a + (b' + c');
    assert a + b + c == a + (b + c);
    assert b' + a + c' == a + (b' + c');
    assert b + a + c == a + (b + c);
  }

  ghost predicate Distinct<T>(s: seq<T>)
  {
    forall i, j :: 0 <= i < j < |s| ==> s[i] != s[j]
  }

  lemma {:induction false} DistinctMultiplicity<T>(s: seq<T>, x: T)
    requires Distinct(s)
    ensures multiset(s)[x] <= 1
  {
    if s != [] {
      var n := |s| - 1;
      assert s == s[..n] + [s[n]];
      DistinctMultiplicity(s[..n], x);
      if s[n] == x {
        assert x !in s[..n];
      }
    }
  }

  lemma {:induction false} MultiplicityDistinct<T>(s: seq<T>)
    requires forall x :: multiset(s)[x] <= 1
    ensures Distinct(s)
  {
    forall i, j | 0 <= i < j < |s| ensures s[i] != s[j] {
      CountedTwice(s, i, j);
    }
  }

  lemma CountedTwice<T>(s: seq<T>, i: nat, j: nat)
    requires i < j < |s|
    ensures s[i] == s[j] ==> multiset(s)[s[i]] >= 2
  {
    assert s == s[..i] + [s[i]] + s[i + 1..j] + [s[j]] + s[j + 1..];
  }

  /** From a deck without duplicates, every drawn card is different from every other drawn
      card and from every card left. */
  lemma DrawDistinct<T>(cards: seq<T>, picks: seq<nat>)
    requires ValidPicks(|cards|, picks) && Distinct(cards)
    ensures Distinct(Drawn(cards, picks) + Remaining(cards, picks))
  {
    DrawConserves(cards, picks);
    var all := Drawn(cards, picks) + Remaining(cards, picks);
    assert multiset(all) == multiset(cards);
    forall x ensures multiset(all)[x] <= 1 {
      DistinctMultiplicity(cards, x);
    }
    MultiplicityDistinct(all);
  }
}
