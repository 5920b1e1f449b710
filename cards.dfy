/** CardSystem of apps/frontend/src/game/card.ts: the deck, the hand
    (cards, with one display mesh per card), the set of selected meshes and
    the deck statistics. Meshes are numbered by a counter: the hand display
    is rebuilt with new meshes after every change of the hand, while the
    selection keeps the meshes it held, so a selection can name meshes that
    are no longer displayed. Reading such a mesh's card or stored position
    raises a TypeError in the source; the model returns that outcome. */
module Cards {
  import opened Core
  import opened Shared

  /** The seven artworks of initializeDeck, one card of each. */
  const CardTypes: seq<string> :=
    ["Ace_kunoichi", "Chroma_king", "Chroma_Queen", "Faithful_Pal", "Chroma_Dragon", "Wicked_Assassin", "Ye_Old_Bishop"]

  /** MAX_SELECTED_CARDS */
  const MaxSelectedCards: int := 5

  /** The deck initializeDeck pushes before shuffling: a pawn card of the
      colour for each artwork, in order. */
  function NewDeck(color: Side, textures: seq<string>): seq<Card> {
    if textures == [] then [] else [Card(Pawn, color, textures[0])] + NewDeck(color, textures[1..])
  }

  /** Every card of the new deck summons a pawn of the player's colour, one
      card per artwork. */
  lemma {:induction false} NewDeckCards(color: Side, textures: seq<string>)
    ensures |NewDeck(color, textures)| == |textures|
    ensures forall i :: 0 <= i < |textures| ==> NewDeck(color, textures)[i] == Card(Pawn, color, textures[i])
  {
    if textures != [] {
      NewDeckCards(color, textures[1..]);
    }
  }

  /** A card is in a permutation of the new deck exactly when it is a pawn
      card of the colour with one of the artworks. */
  lemma NewDeckMembers(color: Side, textures: seq<string>, deck: seq<Card>)
    requires multiset(deck) == multiset(NewDeck(color, textures))
    ensures |deck| == |textures|
    ensures forall c :: c in deck <==> c.pieceType == Pawn && c.color == color && c.texture in textures
  {
    NewDeckCards(color, textures);
    var d := NewDeck(color, textures);
    assert |deck| == |multiset(deck)| == |multiset(d)| == |d|;
    forall c: Card ensures c in deck <==> c in d {
      assert c in deck <==> c in multiset(deck);
      assert c in d <==> c in multiset(d);
    }
    forall c: Card | c.pieceType == Pawn && c.color == color && c.texture in textures ensures c in d {
      var i :| 0 <= i < |textures| && textures[i] == c.texture;
      assert d[i] == c;
    }
  }

  predicate NoDup<T(==)>(s: seq<T>) {
    forall i, j :: 0 <= i < j < |s| ==> s[i] != s[j]
  }

  /** Set.delete on a set kept in insertion order: removing a member keeps
      the others, in order, and still without repetition. */
  lemma RemoveFirstNoDup<T>(s: seq<T>, x: T)
    requires NoDup(s)
    ensures NoDup(RemoveFirst(s, x)) && x !in RemoveFirst(s, x)
    ensures forall y :: y in RemoveFirst(s, x) <==> y in s && y != x
  {
    if s != [] {
      assert s == [s[0]] + s[1..];
      if s[0] != x {
        RemoveFirstNoDup(s[1..], x);
        var r := RemoveFirst(s[1..], x);
        assert RemoveFirst(s, x) == [s[0]] + r;
        assert s[0] !in r;
      } else {
        assert s[0] !in s[1..];
      }
    }
  }

  /** Set.add of a new member puts it last. */
  lemma AppendNoDup<T>(s: seq<T>, x: T)
    requires NoDup(s) && x !in s
    ensures NoDup(s + [x])
  {
    forall i, j | 0 <= i < j < |s| + 1 ensures (s + [x])[i] != (s + [x])[j] {
      assert (s + [x])[i] == s[i];
    }
  }

  /** The new meshes start, start + 1, ... one per card. */
  function Range(start: nat, n: nat): (r: seq<nat>)
    ensures |r| == n && forall i :: 0 <= i < n ==> r[i] == start + i
  {
    if n == 0 then [] else Range(start, n - 1) + [start + n - 1]
  }

  lemma RangeAtLeast(start: nat, n: nat, low: nat)
    requires low <= start
    ensures forall m :: m in Range(start, n) ==> low <= m
  {
  }

  /** Array.prototype.indexOf: the first position of x, or -1. */
  function IndexOf<T(==)>(s: seq<T>, x: T): (i: int)
    ensures -1 <= i < |s|
    ensures i == -1 <==> x !in s
    ensures 0 <= i ==> s[i] == x && x !in s[..i]
  {
    if s == [] then -1
    else if s[0] == x then 0
    else
      var j := IndexOf(s[1..], x);
      assert s[1..][..j + 1] == s[1..j + 2] by {
      }
      if j == -1 then -1 else j + 1
  }

  /** Array.prototype.splice(index, 1): a negative index counts from the
      end (clamped at 0), an index past the end removes nothing. */
  function Splice1<T>(s: seq<T>, index: int): seq<T> {
    var start := if index < 0 then (if |s| + index < 0 then 0 else |s| + index) else (if index < |s| then index else |s|);
    if start < |s| then s[..start] + s[start + 1..] else s
  }

  /** The element splice(index, 1) takes, when it takes one. */
  lemma Splice1Removes<T>(s: seq<T>, index: int)
    ensures -|s| <= index < |s| ==>
              var k := if index < 0 then |s| + index else index;
              Splice1(s, index) == s[..k] + s[k + 1..] && |Splice1(s, index)| == |s| - 1
    ensures index >= |s| ==> Splice1(s, index) == s
    ensures s != [] && index < -|s| ==> Splice1(s, index) == s[1..]
  {
  }

  /** The cards drawn one by one from the end of the deck, in the order
      they reach the hand. */
  function Reversed<T>(s: seq<T>): (r: seq<T>)
    ensures |r| == |s|
  {
    if s == [] then [] else Reversed(s[1..]) + [s[0]]
  }

  lemma ReversedStep<T>(s: seq<T>, a: int)
    requires 0 <= a < |s|
    ensures Reversed(s[a..]) == Reversed(s[a + 1..]) + [s[a]]
  {
    assert s[a..][1..] == s[a + 1..];
  }

  /** Reversed holds the same cards, last first: position i of the result is
      position |s| - 1 - i of the input. */
  lemma {:induction false} ReversedAt<T>(s: seq<T>, i: int)
    requires 0 <= i < |s|
    ensures Reversed(s)[i] == s[|s| - 1 - i]
  {
    if i < |s| - 1 {
      ReversedAt(s[1..], i);
    }
  }

  /** How many cards drawInitialHand(count) draws from a deck of n cards:
      min(count, n), and none for a count of 0 or less. */
  function DrawCount(count: int, n: nat): (k: nat)
    ensures k <= n && (count <= 0 ==> k == 0) && (count > 0 ==> k == n || k == count)
  {
    if count <= 0 then 0 else if count < n then count else n
  }

  /** The number of cards of the deck of kind k. */
  function CountKind(deck: seq<Card>, k: Kind): nat {
    if deck == [] then 0
    else CountKind(deck[..|deck| - 1], k) + (if deck[|deck| - 1].pieceType == k then 1 else 0)
  }

  /** The Map getDeckStats builds: piece type to the number of cards of
      that type, with a key only for the types in the deck. */
  ghost predicate IsTally(stats: map<string, nat>, deck: seq<Card>) {
    (forall key :: key in stats ==> exists k :: KindName(k) == key) &&
    forall k :: (KindName(k) in stats <==> CountKind(deck, k) > 0) &&
                (KindName(k) in stats ==> stats[KindName(k)] == CountKind(deck, k))
  }

  function Stat(stats: map<string, nat>, k: Kind): nat {
    if KindName(k) in stats then stats[KindName(k)] else 0
  }

  /** The sum of the counts: every key is a kind name, so this is the sum
      of the map's values. */
  function StatsTotal(stats: map<string, nat>): nat {
    Stat(stats, Pawn) + Stat(stats, Rook) + Stat(stats, Knight) + Stat(stats, Bishop) + Stat(stats, Queen) + Stat(stats, King)
  }

  function KindTotal(deck: seq<Card>): nat {
    CountKind(deck, Pawn) + CountKind(deck, Rook) + CountKind(deck, Knight) +
    CountKind(deck, Bishop) + CountKind(deck, Queen) + CountKind(deck, King)
  }

  /** Each card is counted under exactly one kind. */
  lemma {:induction false} KindTotalIsSize(deck: seq<Card>)
    ensures KindTotal(deck) == |deck|
  {
    if deck != [] {
      KindTotalIsSize(deck[..|deck| - 1]);
    }
  }

  /** The statistics of a deck add up to its size. */
  lemma TallyTotal(stats: map<string, nat>, deck: seq<Card>)
    requires IsTally(stats, deck)
    ensures StatsTotal(stats) == |deck|
  {
    KindTotalIsSize(deck);
    assert forall k :: Stat(stats, k) == CountKind(deck, k);
  }

  lemma KindNameInjective(a: Kind, b: Kind)
    requires KindName(a) == KindName(b)
    ensures a == b
  {
  }

  /** What CardSystem.placeCardOnBoard comes to: nothing selected (it
      returns null), a TypeError reading the first selected card, or that
      card laid on the board. */
  datatype Placement = NoSelection | Failed | Placed(card: Card)

  class CardSystem {
    var deck: seq<Card>
    /** The hand. */
    var cards: seq<Card>
    /** cardMeshes: the display mesh of each card of the hand. */
    var meshes: seq<nat>
    /** selectedCards: a Set of meshes, in insertion order. */
    var selected: seq<nat>
    /** Every mesh made so far is below nextMesh. */
    var nextMesh: nat

    /** One mesh per card of the hand; the selection has no repeats, at
        most MAX_SELECTED_CARDS members, and only meshes already made. */
    ghost predicate Valid()
      reads this
    {
      |meshes| == |cards| && NoDup(selected) && |selected| <= MaxSelectedCards &&
      (forall m :: m in meshes ==> m < nextMesh) && (forall m :: m in selected ==> m < nextMesh)
    }

    /** The constructor: an empty hand and a shuffled white deck. */
    constructor ()
      ensures Valid()
      ensures cards == [] && meshes == [] && selected == []
      ensures multiset(deck) == multiset(NewDeck(White, CardTypes))
    {
      deck, cards, meshes, selected, nextMesh := [], [], [], [], 0;
      new;
      InitializeDeck(White);
    }

    /** initializeDeck: the old deck is dropped for a shuffled new one. */
    method InitializeDeck(color: Side)
      modifies this
      ensures multiset(deck) == multiset(NewDeck(color, CardTypes))
      ensures cards == old(cards) && meshes == old(meshes) && selected == old(selected) && nextMesh == old(nextMesh)
    {
      deck := NewDeck(color, CardTypes);
      ShuffleDeck();
    }

    /** shuffleDeck: Fisher-Yates from the last position down, each swap
        partner chosen freely among the positions not yet fixed. */
    method ShuffleDeck()
      modifies this
      ensures multiset(deck) == multiset(old(deck))
      ensures cards == old(cards) && meshes == old(meshes) && selected == old(selected) && nextMesh == old(nextMesh)
    {
      var i := |deck| - 1;
      while i > 0
        invariant i < |deck| && |deck| == |old(deck)|
        invariant multiset(deck) == multiset(old(deck))
        invariant cards == old(cards) && meshes == old(meshes) && selected == old(selected) && nextMesh == old(nextMesh)
      {
        var j :| 0 <= j <= i;
        deck := deck[i := deck[j]][j := deck[i]];
        i := i - 1;
      }
    }

    /** updateHandDisplay: one new mesh per card of the hand, in order. */
    method UpdateHandDisplay()
      modifies this
      ensures meshes == Range(old(nextMesh), |cards|) && nextMesh == old(nextMesh) + |cards|
      ensures deck == old(deck) && cards == old(cards) && selected == old(selected)
    {
      ghost var start := nextMesh;
      meshes := [];
      for i := 0 to |cards|
        invariant meshes == Range(start, i) && nextMesh == start + i
        invariant deck == old(deck) && cards == old(cards) && selected == old(selected)
      {
        meshes := meshes + [nextMesh];
        nextMesh := nextMesh + 1;
      }
    }

    /** addCard: the card joins the end of the hand. */
    method AddCard(card: Card)
      requires Valid()
      modifies this
      ensures Valid()
      ensures cards == old(cards) + [card] && deck == old(deck) && selected == old(selected)
      ensures meshes == Range(old(nextMesh), |cards|) && nextMesh == old(nextMesh) + |cards|
    {
      cards := cards + [card];
      UpdateHandDisplay();
    }

    /** drawCard: null on an empty deck; otherwise the last card of the
        deck moves to the end of the hand. */
    method DrawCard() returns (card: Option<Card>)
      requires Valid()
      modifies this
      ensures Valid()
      ensures old(deck) == [] ==> card == None && unchanged(this)
      ensures old(deck) != [] ==>
                card == Some(old(deck)[|old(deck)| - 1]) && deck == old(deck)[..|old(deck)| - 1] &&
                cards == old(cards) + [card.value] && selected == old(selected) &&
                meshes == Range(old(nextMesh), |cards|) && nextMesh == old(nextMesh) + |cards|
      ensures |deck| + |cards| == old(|deck| + |cards|)
    {
      if |deck| == 0 {
        return None;
      }
      var top := deck[|deck| - 1];
      deck := deck[..|deck| - 1];
      AddCard(top);
      card := Some(top);
    }

    /** drawInitialHand: draws while fewer than count have been drawn and
        the deck is not empty, that is min(count, |deck|) cards, taken from
        the end of the deck. */
    method DrawInitialHand(count: int)
      requires Valid()
      modifies this
      ensures Valid()
      ensures var k := DrawCount(count, |old(deck)|);
              deck == old(deck)[..|old(deck)| - k] && cards == old(cards) + Reversed(old(deck)[|old(deck)| - k..]) &&
              |cards| == |old(cards)| + k
      ensures selected == old(selected)
      ensures DrawCount(count, |old(deck)|) == 0 ==> meshes == old(meshes) && nextMesh == old(nextMesh)
      ensures DrawCount(count, |old(deck)|) > 0 ==>
                nextMesh >= old(nextMesh) + |cards| && meshes == Range(nextMesh - |cards|, |cards|) &&
                forall m :: m in old(selected) ==> m !in meshes
    {
      ghost var d0, n := deck, |deck|;
      ghost var c0, m0, s0, next0 := cards, meshes, selected, nextMesh;
      var i := 0;
      assert d0[n..] == [];
      while i < count && |deck| > 0
        invariant Valid() && 0 <= i <= n && (i == 0 || i <= count)
        invariant deck == d0[..n - i] && cards == c0 + Reversed(d0[n - i..])
        invariant selected == s0
        invariant i == 0 ==> meshes == m0 && nextMesh == next0
        invariant i > 0 ==> nextMesh >= next0 + |cards| && meshes == Range(nextMesh - |cards|, |cards|)
        decreases |deck|
      {
        ReversedStep(d0, n - i - 1);
        assert d0[..n - i][n - i - 1] == d0[n - i - 1];
        assert d0[..n - i][..n - i - 1] == d0[..n - (i + 1)];
        var _ := DrawCard();
        i := i + 1;
      }
      assert i == DrawCount(count, n);
      if i > 0 {
        RangeAtLeast(nextMesh - |cards|, |cards|, next0);
      }
    }

    /** getRemainingDeckSize */
    method GetRemainingDeckSize() returns (n: int)
      ensures n == |deck|
    {
      n := |deck|;
    }

    /** clearSelection: deselectCard on each selected mesh in order; each
        is deleted from the set, and then reading the stored position of a
        mesh the display no longer has raises a TypeError. */
    method ClearSelection() returns (thrown: bool)
      requires NoDup(selected)
      modifies this
      ensures !thrown <==> forall m :: m in old(selected) ==> m in meshes
      ensures !thrown ==> selected == []
      ensures thrown ==> exists k :: 0 <= k < |old(selected)| && old(selected)[k] !in meshes &&
                                     selected == old(selected)[k + 1..] &&
                                     forall i :: 0 <= i < k ==> old(selected)[i] in meshes
      ensures deck == old(deck) && cards == old(cards) && meshes == old(meshes) && nextMesh == old(nextMesh)
    {
      var snapshot := selected;
      var k := 0;
      while k < |snapshot|
        invariant 0 <= k <= |snapshot| && selected == snapshot[k..]
        invariant forall i :: 0 <= i < k ==> snapshot[i] in meshes
        invariant deck == old(deck) && cards == old(cards) && meshes == old(meshes) && nextMesh == old(nextMesh)
      {
        assert snapshot[k..] == [snapshot[k]] + snapshot[k + 1..];
        selected := RemoveFirst(selected, snapshot[k]);
        if snapshot[k] !in meshes {
          return true;
        }
        k := k + 1;
      }
      thrown := false;
    }

    /** resetDeck: the deck and hand are emptied, the selection cleared and
        the meshes dropped before a new deck is made; when clearing the
        selection raises, the rest does not happen. */
    method ResetDeck(color: Side) returns (thrown: bool)
      requires Valid()
      modifies this
      ensures cards == []
      ensures thrown <==> exists m :: m in old(selected) && m !in old(meshes)
      ensures nextMesh == old(nextMesh)
      ensures thrown ==> deck == [] && meshes == old(meshes)
      ensures thrown ==> exists k :: 0 <= k < |old(selected)| && old(selected)[k] !in old(meshes) &&
                                     selected == old(selected)[k + 1..] &&
                                     forall i :: 0 <= i < k ==> old(selected)[i] in old(meshes)
      ensures !thrown ==> Valid() && selected == [] && meshes == [] &&
                          multiset(deck) == multiset(NewDeck(color, CardTypes))
    {
      deck := [];
      cards := [];
      thrown := ClearSelection();
      if thrown {
        return;
      }
      meshes := [];
      InitializeDeck(color);
    }

    /** removeCard: splice(index, 1) on the hand, then a new display. */
    method RemoveCard(index: int)
      requires Valid()
      modifies this
      ensures Valid()
      ensures cards == Splice1(old(cards), index) && deck == old(deck) && selected == old(selected)
      ensures meshes == Range(old(nextMesh), |cards|) && nextMesh == old(nextMesh) + |cards|
    {
      cards := Splice1(cards, index);
      UpdateHandDisplay();
    }

    /** The card a selected mesh shows: cards[cardMeshes.indexOf(mesh)],
        undefined when the display no longer has the mesh. */
    function CardOf(m: nat): Option<Card>
      reads this
    {
      var i := IndexOf(meshes, m);
      if 0 <= i < |cards| then Some(cards[i]) else None
    }

    /** getSelectedCards: the card of each selected mesh, in selection order. */
    function SelectedCards(): (r: seq<Option<Card>>)
      reads this
      ensures |r| == |selected|
      ensures forall k :: 0 <= k < |r| ==> r[k] == CardOf(selected[k])
    {
      SelectedFrom(selected)
    }

    function SelectedFrom(ms: seq<nat>): (r: seq<Option<Card>>)
      reads this
      ensures |r| == |ms| && forall k :: 0 <= k < |ms| ==> r[k] == CardOf(ms[k])
    {
      if ms == [] then [] else [CardOf(ms[0])] + SelectedFrom(ms[1..])
    }

    /** A selected mesh has a card exactly when the display still shows it,
        and then it is the card at the mesh's position in the hand. */
    lemma CardOfShown(m: nat)
      requires Valid()
      ensures CardOf(m).Some? <==> m in meshes
      ensures m in meshes ==> CardOf(m) == Some(cards[IndexOf(meshes, m)])
    {
    }

    /** isHandFull */
    function IsHandFull(): bool
      reads this
    {
      |selected| >= MaxSelectedCards
    }

    /** The selection is full exactly when it holds MAX_SELECTED_CARDS meshes. */
    lemma HandFullAtMax()
      requires Valid()
      ensures IsHandFull() <==> |selected| == MaxSelectedCards
    {
    }

    /** handleClick, given the mesh the ray meets first, if any: a
        selected mesh is deselected; another one is selected unless the
        selection is full. */
    method HandleClick(hit: Option<nat>)
      requires Valid() && (hit.Some? ==> hit.value < |meshes|)
      modifies this
      ensures Valid()
      ensures deck == old(deck) && cards == old(cards) && meshes == old(meshes) && nextMesh == old(nextMesh)
      ensures hit.None? ==> selected == old(selected)
      ensures hit.Some? && meshes[hit.value] in old(selected) ==>
                selected == RemoveFirst(old(selected), meshes[hit.value])
      ensures hit.Some? && meshes[hit.value] !in old(selected) && |old(selected)| < MaxSelectedCards ==>
                selected == old(selected) + [meshes[hit.value]]
      ensures hit.Some? && meshes[hit.value] !in old(selected) && |old(selected)| >= MaxSelectedCards ==>
                selected == old(selected)
    {
      if hit.Some? {
        var clicked := meshes[hit.value];
        assert clicked in meshes;
        if clicked in selected {
          RemoveFirstNoDup(selected, clicked);
          selected := RemoveFirst(selected, clicked);
        } else if !IsHandFull() {
          AppendNoDup(selected, clicked);
          selected := selected + [clicked];
        }
      }
    }

    /** CardSystem.placeCardOnBoard: the first selected card, if there is
        a selection; a stale first selection makes reading its texture
        raise. The mesh it lays on the board is rendering. */
    method PlaceCardOnBoard(gridX: int, gridZ: int) returns (out: Placement)
      requires Valid()
      ensures out == NoSelection <==> selected == []
      ensures out == Failed <==> selected != [] && selected[0] !in meshes
      ensures out.Placed? ==> selected != [] && selected[0] in meshes &&
                              out.card == cards[IndexOf(meshes, selected[0])]
    {
      var chosen := SelectedCards();
      if |chosen| == 0 {
        return NoSelection;
      }
      CardOfShown(selected[0]);
      if chosen[0].None? {
        return Failed;
      }
      out := Placed(chosen[0].value);
    }

    /** getDeckStats: a forEach over the deck counting each piece type. */
    method GetDeckStats() returns (stats: map<string, nat>)
      ensures IsTally(stats, deck) && StatsTotal(stats) == |deck|
    {
      stats := map[];
      for i := 0 to |deck|
        invariant IsTally(stats, deck[..i])
      {
        assert deck[..i + 1][..i] == deck[..i];
        var key := KindName(deck[i].pieceType);
        stats := stats[key := (if key in stats then stats[key] else 0) + 1];
        forall k ensures KindName(k) == key <==> k == deck[i].pieceType {
          if KindName(k) == key {
            KindNameInjective(k, deck[i].pieceType);
          }
        }
      }
      assert deck[..|deck|] == deck;
      TallyTotal(stats, deck);
    }

    /** removeSelectedCard: the first selected mesh's card and mesh are
        spliced out of the hand at the mesh's position, the mesh leaves the
        selection and the display is rebuilt; nothing changes when nothing
        is selected or the mesh is no longer displayed. */
    method RemoveSelectedCard()
      requires Valid()
      modifies this
      ensures Valid()
      ensures old(selected) == [] || old(selected)[0] !in old(meshes) ==> unchanged(this)
      ensures old(selected) != [] && old(selected)[0] in old(meshes) ==>
                var i := IndexOf(old(meshes), old(selected)[0]);
                cards == old(cards)[..i] + old(cards)[i + 1..] &&
                selected == old(selected)[1..] && deck == old(deck) &&
                meshes == Range(old(nextMesh), |cards|) && nextMesh == old(nextMesh) + |cards|
    {
      var snapshot := selected;
      if |snapshot| > 0 {
        var mesh := snapshot[0];
        var index := IndexOf(meshes, mesh);
        if index != -1 {
          cards := cards[..index] + cards[index + 1..];
          meshes := meshes[..index] + meshes[index + 1..];
          assert selected == [mesh] + selected[1..];
          selected := RemoveFirst(selected, mesh);
          RemoveFirstNoDup(snapshot, mesh);
          UpdateHandDisplay();
        }
      }
    }
  }
}
