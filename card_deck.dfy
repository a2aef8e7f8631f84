/**
 * The pair deck the memory game and the matching game deal: each word
 * becomes two cards sharing the word's index as id, an English one showing
 * the word and a Vietnamese one showing its meaning. Two selected cards
 * match exactly when they share an id and differ in side; a match marks
 * both matched and records the id among the matched pairs.
 */
module CardDeck {
  import opened Wrappers
  import Shuffle

  datatype Side = English | Vietnamese

  datatype Card = Card(id: nat, side: Side, text: string, matched: bool, image: Option<string>)

  /** The faces of one word: its English text, its Vietnamese text and the
      picture its Vietnamese card carries. */
  datatype Word = Word(english: string, vietnamese: string, image: Option<string>)

  /** The two cards `forEach` pushes for the word at `index`. */
  function PairOf(index: nat, w: Word): seq<Card> {
    [Card(index, English, w.english, false, None), Card(index, Vietnamese, w.vietnamese, false, w.image)]
  }

  /** The cards before the shuffle: position `k` holds a card of word
      `k / 2`, its English card first. */
  function Dealt(ws: seq<Word>): (r: seq<Card>)
    ensures |r| == 2 * |ws|
    ensures forall k :: 0 <= k < |r| ==> r[k].id == k / 2 && !r[k].matched
    ensures forall k :: 0 <= k < |r| ==> (r[k].side == English <==> k % 2 == 0)
    ensures forall k :: 0 <= k < |r| ==>
      r[k].text == if k % 2 == 0 then ws[k / 2].english else ws[k / 2].vietnamese
    decreases |ws|
  {
    if ws == [] then [] else Dealt(ws[..|ws| - 1]) + PairOf(|ws| - 1, ws[|ws| - 1])
  }

  /** A card shows the face of the word its id names. */
  ghost predicate Shows(c: Card, ws: seq<Word>) {
    c.id < |ws| && c.text == if c.side == English then ws[c.id].english else ws[c.id].vietnamese
  }

  ghost predicate AllShow(cards: seq<Card>, ws: seq<Word>) {
    forall k :: 0 <= k < |cards| ==> Shows(cards[k], ws)
  }

  ghost predicate HasCard(cards: seq<Card>, id: nat, side: Side) {
    exists k :: 0 <= k < |cards| && cards[k].id == id && cards[k].side == side
  }

  /** A deck of `n` pairs: the ids are `0 .. n-1`, and each id has exactly
      one English and exactly one Vietnamese card. */
  ghost predicate Deck(cards: seq<Card>, n: nat) {
    |cards| == 2 * n
    && (forall k :: 0 <= k < |cards| ==> cards[k].id < n)
    && (forall k, l :: (0 <= k < |cards| && 0 <= l < |cards| && cards[k].id == cards[l].id
          && cards[k].side == cards[l].side) ==> k == l)
    && (forall id: nat, side: Side :: id < n ==> HasCard(cards, id, side))
  }

  /** The `forEach` that pushes a pair per word, then `shuffleArray`. */
  method Deal(ws: seq<Word>) returns (cards: seq<Card>)
    ensures multiset(cards) == multiset(Dealt(ws))
    ensures Deck(cards, |ws|) && AllShow(cards, ws)
    ensures forall k :: 0 <= k < |cards| ==> !cards[k].matched
  {
    var dealt: seq<Card> := [];
    var index := 0;
    while index < |ws|
      invariant 0 <= index <= |ws|
      invariant dealt == Dealt(ws[..index])
    {
      assert ws[..index + 1][..index] == ws[..index];
      dealt := dealt + PairOf(index, ws[index]);
      index := index + 1;
    }
    assert ws[..index] == ws;
    cards := Shuffle.Shuffle(dealt);
    DealtDeck(cards, ws);
  }

  /** Any shuffle of the dealt cards is a deck whose cards show their words
      and are all unmatched. */
  lemma DealtDeck(cards: seq<Card>, ws: seq<Word>)
    requires multiset(cards) == multiset(Dealt(ws))
    ensures Deck(cards, |ws|) && AllShow(cards, ws)
    ensures forall k :: 0 <= k < |cards| ==> !cards[k].matched
  {
    var d := Dealt(ws);
    assert |cards| == |multiset(cards)| == |d|;
    InDealt(cards, d);
    DealtDistinct(ws);
    DistinctTransfer(cards, d);
    SameFaceSameCard(d);
    forall id: nat, side: Side | id < |ws|
      ensures HasCard(cards, id, side)
    {
      DealtHasCard(cards, ws, id, side);
    }
  }

  lemma InDealt(cards: seq<Card>, d: seq<Card>)
    requires multiset(cards) == multiset(d)
    ensures forall k :: 0 <= k < |cards| ==> cards[k] in d
  {
    forall k | 0 <= k < |cards|
      ensures cards[k] in d
    {
      assert cards[k] in multiset(cards);
    }
  }

  lemma DealtHasCard(cards: seq<Card>, ws: seq<Word>, id: nat, side: Side)
    requires multiset(cards) == multiset(Dealt(ws)) && id < |ws|
    ensures HasCard(cards, id, side)
  {
    var d := Dealt(ws);
    var m := if side == English then 2 * id else 2 * id + 1;
    assert d[m] in multiset(cards);
    var k :| 0 <= k < |cards| && cards[k] == d[m];
  }

  /** In the dealt sequence a card is fixed by its id and side. */
  lemma SameFaceSameCard(d: seq<Card>)
    requires forall k :: 0 <= k < |d| ==> d[k].id == k / 2
    requires forall k :: 0 <= k < |d| ==> (d[k].side == English <==> k % 2 == 0)
    ensures forall i, j :: (0 <= i < |d| && 0 <= j < |d| && d[i].id == d[j].id && d[i].side == d[j].side) ==> i == j
  {
  }

  ghost predicate Distinct<T>(s: seq<T>) {
    forall i, j :: 0 <= i < j < |s| ==> s[i] != s[j]
  }

  lemma DealtDistinct(ws: seq<Word>)
    ensures Distinct(Dealt(ws))
  {
    var d := Dealt(ws);
    forall i, j | 0 <= i < j < |d|
      ensures d[i] != d[j]
    {
      assert i / 2 != j / 2 || i % 2 != j % 2;
    }
  }

  /** A permutation of a sequence without repetitions has none either. */
  lemma DistinctTransfer<T>(a: seq<T>, b: seq<T>)
    requires multiset(a) == multiset(b) && Distinct(b)
    ensures Distinct(a)
  {
    if !Distinct(a) {
      var i, j :| 0 <= i < j < |a| && a[i] == a[j];
      Twice(a, i, j);
      AtMostOnce(b, a[i]);
      assert false;
    }
  }

  lemma {:induction false} AtMostOnce<T>(s: seq<T>, x: T)
    requires Distinct(s)
    ensures multiset(s)[x] <= 1
  {
    if s != [] {
      assert s == [s[0]] + s[1..];
      assert Distinct(s[1..]) by {
        forall i, j | 0 <= i < j < |s[1..]|
          ensures s[1..][i] != s[1..][j]
        {
          assert s[1..][i] == s[i + 1] && s[1..][j] == s[j + 1];
        }
      }
      AtMostOnce(s[1..], x);
      if s[0] == x {
        assert x !in s[1..];
      }
    }
  }

  /** Two positions holding the same value count it twice. */
  lemma Twice<T>(s: seq<T>, k: nat, l: nat)
    requires k < |s| && l < |s| && k != l && s[k] == s[l]
    ensures multiset(s)[s[k]] >= 2
  {
    var i, j := if k < l then k else l, if k < l then l else k;
    assert s == s[..i] + [s[i]] + s[i + 1..j] + [s[j]] + s[j + 1..];
  }

  predicate IsMatch(c1: Card, c2: Card) {
    c1.id == c2.id && c1.side != c2.side
  }

  /** What a match shows: the English text and the Vietnamese text of one
      word. */
  lemma MatchShowsPair(c1: Card, c2: Card, ws: seq<Word>)
    requires Shows(c1, ws) && Shows(c2, ws) && IsMatch(c1, c2)
    ensures c1.id < |ws| && multiset{c1.text, c2.text} == multiset{ws[c1.id].english, ws[c1.id].vietnamese}
  {
  }

  /** `matchedPairs` agrees with the cards: a card is matched exactly when
      its id is recorded, and the recorded ids are distinct ids of the
      deck. */
  ghost predicate Marked(cards: seq<Card>, matchedPairs: seq<nat>, n: nat) {
    (forall k :: 0 <= k < |cards| ==> (cards[k].matched <==> cards[k].id in matchedPairs))
    && (forall i, j :: 0 <= i < j < |matchedPairs| ==> matchedPairs[i] != matchedPairs[j])
    && (forall i :: 0 <= i < |matchedPairs| ==> matchedPairs[i] < n)
  }

  /** `selectedCards`: at most two different unmatched cards. */
  ghost predicate Selection(cards: seq<Card>, selected: seq<nat>) {
    |selected| <= 2
    && (forall i :: 0 <= i < |selected| ==> selected[i] < |cards| && !cards[selected[i]].matched)
    && (|selected| == 2 ==> selected[0] != selected[1])
  }

  /** `newGameData[i].matched = true; newGameData[j].matched = true`. */
  function MarkPair(cards: seq<Card>, i: nat, j: nat): (r: seq<Card>)
    requires i < |cards| && j < |cards|
    ensures |r| == |cards|
    ensures r[i] == cards[i].(matched := true) && r[j] == cards[j].(matched := true)
    ensures forall k :: 0 <= k < |cards| && k != i && k != j ==> r[k] == cards[k]
  {
    var marked := cards[i := cards[i].(matched := true)];
    marked[j := marked[j].(matched := true)]
  }

  /** Marking leaves ids and sides, so the deck, alone. */
  lemma MarkPairKeepsDeck(cards: seq<Card>, n: nat, i: nat, j: nat)
    requires Deck(cards, n) && i < |cards| && j < |cards|
    ensures Deck(MarkPair(cards, i, j), n)
  {
    var r := MarkPair(cards, i, j);
    assert forall k :: 0 <= k < |r| ==> r[k].id == cards[k].id && r[k].side == cards[k].side;
    forall id: nat, side: Side | id < n
      ensures HasCard(r, id, side)
    {
      assert HasCard(cards, id, side);
      var k :| 0 <= k < |cards| && cards[k].id == id && cards[k].side == side;
      assert r[k].id == id && r[k].side == side;
    }
  }

  /** After a match, recording its id keeps `matchedPairs` in agreement:
      the two matched cards are the only ones with that id. */
  lemma MarkPairMarks(cards: seq<Card>, matchedPairs: seq<nat>, n: nat, i: nat, j: nat)
    requires Deck(cards, n) && Marked(cards, matchedPairs, n)
    requires i < |cards| && j < |cards| && !cards[i].matched && IsMatch(cards[i], cards[j])
    ensures Marked(MarkPair(cards, i, j), matchedPairs + [cards[i].id], n)
  {
    var r := MarkPair(cards, i, j);
    var mp := matchedPairs + [cards[i].id];
    var id := cards[i].id;
    assert id !in matchedPairs;
    forall k | 0 <= k < |r|
      ensures r[k].matched <==> r[k].id in mp
    {
      if cards[k].id == id && cards[k].side != cards[i].side {
        assert cards[k].side == cards[j].side;
      }
    }
  }

  lemma MarkPairShows(cards: seq<Card>, ws: seq<Word>, i: nat, j: nat)
    requires i < |cards| && j < |cards| && AllShow(cards, ws)
    ensures AllShow(MarkPair(cards, i, j), ws)
  {
    var r := MarkPair(cards, i, j);
    forall k | 0 <= k < |r|
      ensures Shows(r[k], ws)
    {
      assert Shows(cards[k], ws);
    }
  }

  /** The ids `0 .. n-1`. */
  ghost function Below(n: nat): (r: set<nat>)
    ensures forall d: nat :: d in r <==> d < n
  {
    if n == 0 then {} else Below(n - 1) + {n - 1}
  }

  lemma {:induction false} BelowSize(n: nat)
    ensures |Below(n)| == n
  {
    if n > 0 {
      BelowSize(n - 1);
    }
  }

  ghost function Elements(s: seq<nat>): set<nat> {
    set x | x in s
  }

  lemma {:induction false} ElementsSize(s: seq<nat>)
    requires forall i, j :: 0 <= i < j < |s| ==> s[i] != s[j]
    ensures |Elements(s)| == |s|
  {
    if s != [] {
      var front := s[..|s| - 1];
      assert Elements(s) == Elements(front) + {s[|s| - 1]};
      assert s[|s| - 1] !in front;
      ElementsSize(front);
    }
  }

  /** A subset as large as its superset is all of it. */
  lemma FullSubset(a: set<nat>, b: set<nat>)
    requires a <= b
    ensures |a| <= |b|
    ensures |a| == |b| ==> a == b
  {
    assert b == a + (b - a);
    assert a * (b - a) == {};
  }

  /** No more pairs are recorded than the deck holds. */
  lemma PairsBelow(cards: seq<Card>, matchedPairs: seq<nat>, n: nat)
    requires Marked(cards, matchedPairs, n)
    ensures |matchedPairs| <= n
  {
    ElementsSize(matchedPairs);
    BelowSize(n);
    FullSubset(Elements(matchedPairs), Below(n));
  }

  /** As many recorded pairs as the deck holds means every card is matched,
      and the converse. */
  lemma AllMatchedIffAllPairs(cards: seq<Card>, matchedPairs: seq<nat>, n: nat)
    requires Deck(cards, n) && Marked(cards, matchedPairs, n)
    ensures |matchedPairs| == n <==> forall k :: 0 <= k < |cards| ==> cards[k].matched
  {
    ElementsSize(matchedPairs);
    BelowSize(n);
    FullSubset(Elements(matchedPairs), Below(n));
    if |matchedPairs| == n {
      forall k | 0 <= k < |cards|
        ensures cards[k].matched
      {
        assert cards[k].id in Below(n);
      }
    }
    if forall k :: 0 <= k < |cards| ==> cards[k].matched {
      forall id | id in Below(n)
        ensures id in Elements(matchedPairs)
      {
        assert HasCard(cards, id, English);
      }
      FullSubset(Below(n), Elements(matchedPairs));
    }
  }
}
