/**
 * The deck and flashcard store: one ordered sequence of decks under a fixed
 * key and one ordered sequence of cards per deck under a key derived from
 * the deck's id, all in a single local key-value medium.
 *
 * The medium is a map from key to what the key holds once decoded. A key
 * the map lacks is a key never written (or removed); `Corrupt` stands for a
 * stored text that does not decode. The change notifications the store sends
 * to other views are counted by the ghost field `events`. Fresh ids and
 * timestamps come from outside and are passed in as parameters.
 */
module Storage {
  import opened Wrappers

  datatype Deck = Deck(id: string, title: string, cardCount: int, createdAt: string, updatedAt: string)

  datatype Flashcard = Flashcard(id: string, deckId: string, front: string, back: string, createdAt: string, updatedAt: string)

  /** What one key of the medium holds once decoded. */
  datatype Blob = DeckList(decks: seq<Deck>) | CardList(cards: seq<Flashcard>) | Corrupt

  const DecksKey: string := "flashcards-decks"
  const CardsPrefix: string := "flashcards-cards-"

  /** The key of a deck's card collection. It never collides with the deck key. */
  function CardsKey(deckId: string): (k: string)
    ensures k != DecksKey
    ensures CardsPrefix <= k
  {
    CardsPrefix + deckId
  }

  /** Distinct deck ids have distinct card keys. */
  lemma CardsKeyInjective(a: string, b: string)
    requires a != b
    ensures CardsKey(a) != CardsKey(b)
  {
    assert CardsKey(a)[|CardsPrefix|..] == a;
    assert CardsKey(b)[|CardsPrefix|..] == b;
  }

  /** The decks `loadDecks` reads from the medium: none when the key is missing or does not decode. */
  function DecksIn(entries: map<string, Blob>): seq<Deck> {
    if DecksKey in entries && entries[DecksKey].DeckList? then entries[DecksKey].decks else []
  }

  /** The cards `loadCards` reads for a deck: none when the key is missing or does not decode. */
  function CardsIn(entries: map<string, Blob>, deckId: string): seq<Flashcard> {
    var k := CardsKey(deckId);
    if k in entries && entries[k].CardList? then entries[k].cards else []
  }

  predicate HasDeck(decks: seq<Deck>, id: string) {
    exists i :: 0 <= i < |decks| && decks[i].id == id
  }

  /** `findIndex` by id: the first position holding the id, or -1. */
  function IndexOfDeck(decks: seq<Deck>, id: string): (r: int)
    ensures -1 <= r < |decks|
    ensures r == -1 <==> !HasDeck(decks, id)
    ensures r != -1 ==> decks[r].id == id && forall i :: 0 <= i < r ==> decks[i].id != id
  {
    if decks == [] then -1
    else if decks[0].id == id then 0
    else
      var k := IndexOfDeck(decks[1..], id);
      assert HasDeck(decks, id) ==> HasDeck(decks[1..], id) by {
        if HasDeck(decks, id) {
          var i :| 0 <= i < |decks| && decks[i].id == id;
          assert decks[1..][i - 1].id == id;
        }
      }
      if k == -1 then -1 else k + 1
  }

  /** `find` by id, `null` becoming `None`: the first deck carrying the id. */
  function FindDeck(decks: seq<Deck>, id: string): (r: Option<Deck>)
    ensures r.None? <==> !HasDeck(decks, id)
    ensures r.Some? ==> r.value.id == id && exists i :: 0 <= i < |decks| && decks[i] == r.value && forall j :: 0 <= j < i ==> decks[j].id != id
  {
    var i := IndexOfDeck(decks, id);
    if i == -1 then None else Some(decks[i])
  }

  /** `saveDeck`'s update of the sequence: replace the first deck with the same id, or append. */
  function Upsert(decks: seq<Deck>, deck: Deck): seq<Deck> {
    var i := IndexOfDeck(decks, deck.id);
    if i != -1 then decks[i := deck] else decks + [deck]
  }

  /** `filter` keeping the decks whose id differs. */
  function RemoveDeck(decks: seq<Deck>, id: string): (r: seq<Deck>)
    ensures forall d :: d in r <==> d in decks && d.id != id
    ensures |r| <= |decks|
  {
    if decks == [] then []
    else (if decks[0].id != id then [decks[0]] else []) + RemoveDeck(decks[1..], id)
  }

  /** The medium after `createDeck` stored `deck`. */
  function AfterCreate(entries: map<string, Blob>, deck: Deck): map<string, Blob> {
    entries[DecksKey := DeckList(DecksIn(entries) + [deck])]
  }

  /** The medium after `saveDeck(deck)`. */
  function AfterSaveDeck(entries: map<string, Blob>, deck: Deck): map<string, Blob> {
    entries[DecksKey := DeckList(Upsert(DecksIn(entries), deck))]
  }

  /** The medium after `deleteDeck(id)`: the deck filtered out, its card key removed. */
  function AfterDelete(entries: map<string, Blob>, id: string): map<string, Blob> {
    entries[DecksKey := DeckList(RemoveDeck(DecksIn(entries), id))] - {CardsKey(id)}
  }

  /** The medium after `saveCards(id, cards)` at time `now`. */
  function AfterSaveCards(entries: map<string, Blob>, id: string, cards: seq<Flashcard>, now: string): map<string, Blob> {
    var written := entries[CardsKey(id) := CardList(cards)];
    match FindDeck(DecksIn(written), id)
    case None => written
    case Some(d) => AfterSaveDeck(written, d.(cardCount := |cards|, updatedAt := now))
  }

  /** No two decks share an id. */
  ghost predicate UniqueIds(decks: seq<Deck>) {
    forall i, j :: 0 <= i < j < |decks| ==> decks[i].id != decks[j].id
  }

  /** Every stored deck declares as many cards as are stored for it. */
  ghost predicate Consistent(entries: map<string, Blob>) {
    forall d :: d in DecksIn(entries) ==> d.cardCount == |CardsIn(entries, d.id)|
  }

  /** The first position holding an id is the one `findIndex` reports. */
  lemma IndexOfDeckAt(decks: seq<Deck>, id: string, i: int)
    requires 0 <= i < |decks| && decks[i].id == id
    requires forall j :: 0 <= j < i ==> decks[j].id != id
    ensures IndexOfDeck(decks, id) == i
  {
  }

  /** `saveDeck` on a present id keeps the length and every other position; on a new id it appends. */
  lemma UpsertShape(decks: seq<Deck>, deck: Deck)
    ensures HasDeck(decks, deck.id) ==>
      |Upsert(decks, deck)| == |decks| &&
      forall j :: 0 <= j < |decks| && j != IndexOfDeck(decks, deck.id) ==> Upsert(decks, deck)[j] == decks[j]
    ensures HasDeck(decks, deck.id) ==> Upsert(decks, deck)[IndexOfDeck(decks, deck.id)] == deck
    ensures !HasDeck(decks, deck.id) ==> Upsert(decks, deck) == decks + [deck]
  {
  }

  /** Round trip: after an upsert, looking the id up yields the deck just saved. */
  lemma UpsertFinds(decks: seq<Deck>, deck: Deck)
    ensures FindDeck(Upsert(decks, deck), deck.id) == Some(deck)
  {
    var i := IndexOfDeck(decks, deck.id);
    var r := Upsert(decks, deck);
    if i != -1 {
      IndexOfDeckAt(r, deck.id, i);
    } else {
      IndexOfDeckAt(r, deck.id, |decks|);
    }
  }

  /** An upsert leaves the lookup of every other id as it was. */
  lemma UpsertKeepsOthers(decks: seq<Deck>, deck: Deck, id: string)
    requires id != deck.id
    ensures FindDeck(Upsert(decks, deck), id) == FindDeck(decks, id)
  {
    var r := Upsert(decks, deck);
    var i := IndexOfDeck(decks, deck.id);
    var k := IndexOfDeck(decks, id);
    if k != -1 {
      IndexOfDeckAt(r, id, k);
    }
  }

  /** Looking past a first deck that carries another id. */
  lemma FindDeckSkip(decks: seq<Deck>, id: string)
    requires decks != [] && decks[0].id != id
    ensures FindDeck(decks, id) == FindDeck(decks[1..], id)
  {
  }

  /** Filtering distributes over concatenation, so the kept decks stay in their order. */
  lemma {:induction false} RemoveDeckAppend(a: seq<Deck>, b: seq<Deck>, id: string)
    ensures RemoveDeck(a + b, id) == RemoveDeck(a, id) + RemoveDeck(b, id)
  {
    if a == [] {
      assert a + b == b;
    } else {
      assert (a + b)[1..] == a[1..] + b;
      RemoveDeckAppend(a[1..], b, id);
    }
  }

  /** Removing an id that no deck carries changes nothing. */
  lemma {:induction false} RemoveDeckAbsent(decks: seq<Deck>, id: string)
    requires !HasDeck(decks, id)
    ensures RemoveDeck(decks, id) == decks
  {
    if decks != [] {
      RemoveDeckAbsent(decks[1..], id);
    }
  }

  /** Removing an id keeps the lookup of every other id. */
  lemma {:induction false} RemoveDeckKeepsOthers(decks: seq<Deck>, id: string, other: string)
    requires other != id
    ensures FindDeck(RemoveDeck(decks, id), other) == FindDeck(decks, other)
  {
    if decks != [] {
      RemoveDeckKeepsOthers(decks[1..], id, other);
      var rest := RemoveDeck(decks[1..], id);
      if decks[0].id == id {
        assert RemoveDeck(decks, id) == rest;
        FindDeckSkip(decks, other);
      } else {
        var r := RemoveDeck(decks, id);
        assert r == [decks[0]] + rest;
        if decks[0].id != other {
          assert r[1..] == rest;
          FindDeckSkip(r, other);
          FindDeckSkip(decks, other);
        }
      }
    }
  }

  /** After `deleteDeck(id)` the deck is gone and its cards read as empty. */
  lemma DeleteDeckRemoves(entries: map<string, Blob>, id: string)
    ensures !HasDeck(DecksIn(AfterDelete(entries, id)), id)
    ensures CardsIn(AfterDelete(entries, id), id) == []
  {
    var after := AfterDelete(entries, id);
    assert DecksIn(after) == RemoveDeck(DecksIn(entries), id);
  }

  /** A second `deleteDeck` on the same id leaves the medium exactly as the first one did. */
  lemma DeleteDeckIdempotent(entries: map<string, Blob>, id: string)
    ensures AfterDelete(AfterDelete(entries, id), id) == AfterDelete(entries, id)
  {
    var once := AfterDelete(entries, id);
    DeleteDeckRemoves(entries, id);
    RemoveDeckAbsent(DecksIn(once), id);
  }

  /** `deleteDeck(id)` leaves every other deck's record and cards as they were. */
  lemma DeleteDeckKeepsOthers(entries: map<string, Blob>, id: string, other: string)
    requires other != id
    ensures FindDeck(DecksIn(AfterDelete(entries, id)), other) == FindDeck(DecksIn(entries), other)
    ensures CardsIn(AfterDelete(entries, id), other) == CardsIn(entries, other)
  {
    var after := AfterDelete(entries, id);
    var k := CardsKey(other);
    assert DecksIn(after) == RemoveDeck(DecksIn(entries), id);
    RemoveDeckKeepsOthers(DecksIn(entries), id, other);
    CardsKeyInjective(id, other);
    assert k != DecksKey && k != CardsKey(id);
    assert (k in after <==> k in entries) && (k in after ==> after[k] == entries[k]);
  }

  /** `createDeck` keeps the stored decks in order and adds exactly the new one at the end; cards are untouched. */
  lemma CreateDeckAppends(entries: map<string, Blob>, deck: Deck, other: string)
    ensures DecksIn(AfterCreate(entries, deck)) == DecksIn(entries) + [deck]
    ensures CardsIn(AfterCreate(entries, deck), other) == CardsIn(entries, other)
  {
  }

  /** Round trip: `saveDeck(d)` then `loadDeck(d.id)` yields `d`; cards are untouched. */
  lemma SaveDeckRoundTrip(entries: map<string, Blob>, deck: Deck, other: string)
    ensures FindDeck(DecksIn(AfterSaveDeck(entries, deck)), deck.id) == Some(deck)
    ensures CardsIn(AfterSaveDeck(entries, deck), other) == CardsIn(entries, other)
  {
    UpsertFinds(DecksIn(entries), deck);
  }

  /** Round trip: `saveCards(id, cs)` then `loadCards(id)` yields `cs`, in order. */
  lemma SaveCardsRoundTrip(entries: map<string, Blob>, id: string, cards: seq<Flashcard>, now: string)
    ensures CardsIn(AfterSaveCards(entries, id, cards, now), id) == cards
  {
  }

  /**
   * When the deck exists, `saveCards` rewrites it in place with the new card
   * count and time, every other field and every other deck kept; when it does
   * not, the deck collection is left exactly as it was.
   */
  lemma SaveCardsUpdatesDeck(entries: map<string, Blob>, id: string, cards: seq<Flashcard>, now: string)
    ensures HasDeck(DecksIn(entries), id) ==>
      var before := DecksIn(entries);
      var after := DecksIn(AfterSaveCards(entries, id, cards, now));
      var i := IndexOfDeck(before, id);
      && |after| == |before|
      && after[i] == before[i].(cardCount := |cards|, updatedAt := now)
      && (forall j :: 0 <= j < |before| && j != i ==> after[j] == before[j])
      && FindDeck(after, id) == Some(after[i])
    ensures !HasDeck(DecksIn(entries), id) ==>
      (DecksKey in AfterSaveCards(entries, id, cards, now) <==> DecksKey in entries) &&
      (DecksKey in entries ==> AfterSaveCards(entries, id, cards, now)[DecksKey] == entries[DecksKey])
  {
    var written := entries[CardsKey(id) := CardList(cards)];
    assert DecksIn(written) == DecksIn(entries);
    match FindDeck(DecksIn(written), id)
    case None =>
    case Some(d) =>
      var nd := d.(cardCount := |cards|, updatedAt := now);
      UpsertShape(DecksIn(written), nd);
      UpsertFinds(DecksIn(written), nd);
  }

  /** `saveCards` for one deck leaves every other deck's cards untouched. */
  lemma SaveCardsKeepsOtherCards(entries: map<string, Blob>, id: string, other: string, cards: seq<Flashcard>, now: string)
    requires other != id
    ensures CardsIn(AfterSaveCards(entries, id, cards, now), other) == CardsIn(entries, other)
  {
    CardsKeyInjective(id, other);
  }

  /** With unique ids, each deck's position is the one `findIndex` reports for its id. */
  lemma UniqueIndex(decks: seq<Deck>, i: int)
    requires UniqueIds(decks) && 0 <= i < |decks|
    ensures IndexOfDeck(decks, decks[i].id) == i
  {
    IndexOfDeckAt(decks, decks[i].id, i);
  }

  /**
   * The count invariant: starting from a medium whose decks have unique ids
   * and declare their card counts truthfully, `saveCards` keeps both.
   */
  lemma SaveCardsKeepsConsistent(entries: map<string, Blob>, id: string, cards: seq<Flashcard>, now: string)
    requires UniqueIds(DecksIn(entries)) && Consistent(entries)
    ensures UniqueIds(DecksIn(AfterSaveCards(entries, id, cards, now)))
    ensures Consistent(AfterSaveCards(entries, id, cards, now))
  {
    var written := entries[CardsKey(id) := CardList(cards)];
    var decks := DecksIn(entries);
    assert DecksIn(written) == decks;
    var after := AfterSaveCards(entries, id, cards, now);
    var i := IndexOfDeck(decks, id);
    if i == -1 {
      assert DecksIn(after) == decks;
      forall d | d in DecksIn(after) ensures d.cardCount == |CardsIn(after, d.id)| {
        assert d.id != id;
        CardsKeyInjective(d.id, id);
      }
    } else {
      var nd := decks[i].(cardCount := |cards|, updatedAt := now);
      assert DecksIn(after) == decks[i := nd];
      forall d | d in DecksIn(after) ensures d.cardCount == |CardsIn(after, d.id)| {
        var j :| 0 <= j < |decks| && decks[i := nd][j] == d;
        if j != i {
          assert decks[j].id != id;
          CardsKeyInjective(decks[j].id, id);
          assert decks[j] in decks;
        }
      }
    }
  }

  /** `deleteDeck` keeps counts truthful, whatever the ids. */
  lemma DeleteDeckKeepsConsistent(entries: map<string, Blob>, id: string)
    requires Consistent(entries)
    ensures Consistent(AfterDelete(entries, id))
  {
    var after := AfterDelete(entries, id);
    forall d | d in DecksIn(after) ensures d.cardCount == |CardsIn(after, d.id)| {
      assert d in DecksIn(entries) && d.id != id;
      CardsKeyInjective(d.id, id);
    }
  }

  /** A deck whose id no later deck has can head a list with unique ids. */
  lemma ConsKeepsUniqueIds(d: Deck, decks: seq<Deck>)
    requires UniqueIds(decks)
    requires forall k :: 0 <= k < |decks| ==> decks[k].id != d.id
    ensures UniqueIds([d] + decks)
  {
    var full := [d] + decks;
    forall i, j | 0 <= i < j < |full| ensures full[i].id != full[j].id {
      assert full[j] == decks[j - 1];
      if i > 0 {
        assert full[i] == decks[i - 1];
      }
    }
  }

  /** A tail of a list with unique ids has unique ids, none of them the head's. */
  lemma TailUniqueIds(decks: seq<Deck>)
    requires decks != [] && UniqueIds(decks)
    ensures UniqueIds(decks[1..])
    ensures forall d :: d in decks[1..] ==> d.id != decks[0].id
  {
    var rest := decks[1..];
    forall i, j | 0 <= i < j < |rest| ensures rest[i].id != rest[j].id {
      assert rest[i] == decks[i + 1] && rest[j] == decks[j + 1];
    }
    forall d | d in rest ensures d.id != decks[0].id {
      var m :| 0 <= m < |rest| && rest[m] == d;
      assert rest[m] == decks[m + 1];
    }
  }

  /** The filter keeps ids unique: it only ever drops decks. */
  lemma {:induction false} RemoveDeckKeepsUniqueIds(decks: seq<Deck>, id: string)
    requires UniqueIds(decks)
    ensures UniqueIds(RemoveDeck(decks, id))
  {
    if decks != [] {
      TailUniqueIds(decks);
      RemoveDeckKeepsUniqueIds(decks[1..], id);
      var r := RemoveDeck(decks[1..], id);
      if decks[0].id != id {
        forall k | 0 <= k < |r| ensures r[k].id != decks[0].id {
          assert r[k] in r;
        }
        ConsKeepsUniqueIds(decks[0], r);
      } else {
        assert RemoveDeck(decks, id) == [] + r == r;
      }
    }
  }

  /** `deleteDeck` keeps ids unique. */
  lemma DeleteDeckKeepsUniqueIds(entries: map<string, Blob>, id: string)
    requires UniqueIds(DecksIn(entries))
    ensures UniqueIds(DecksIn(AfterDelete(entries, id)))
  {
    assert DecksIn(AfterDelete(entries, id)) == RemoveDeck(DecksIn(entries), id);
    RemoveDeckKeepsUniqueIds(DecksIn(entries), id);
  }

  /** `saveDeck` keeps ids unique: it overwrites the deck with the same id or appends a deck with a new one. */
  lemma SaveDeckKeepsUniqueIds(entries: map<string, Blob>, deck: Deck)
    requires UniqueIds(DecksIn(entries))
    ensures UniqueIds(DecksIn(AfterSaveDeck(entries, deck)))
  {
    var decks := DecksIn(entries);
    var r := Upsert(decks, deck);
    assert DecksIn(AfterSaveDeck(entries, deck)) == r;
    UpsertShape(decks, deck);
    var k := IndexOfDeck(decks, deck.id);
    if k != -1 {
      forall i | 0 <= i < |decks| ensures r[i].id == decks[i].id {
      }
    } else {
      forall i, j | 0 <= i < j < |r| ensures r[i].id != r[j].id {
        if j == |decks| {
          assert decks[i].id != deck.id;
        } else {
          assert r[i] == decks[i] && r[j] == decks[j];
        }
      }
    }
  }

  /**
   * `createDeck` with a fresh id, no stored cards for it and a count of 0
   * keeps ids unique and counts truthful.
   */
  lemma CreateDeckKeepsConsistent(entries: map<string, Blob>, deck: Deck)
    requires UniqueIds(DecksIn(entries)) && Consistent(entries)
    requires !HasDeck(DecksIn(entries), deck.id) && CardsIn(entries, deck.id) == []
    requires deck.cardCount == 0
    ensures UniqueIds(DecksIn(AfterCreate(entries, deck)))
    ensures Consistent(AfterCreate(entries, deck))
  {
    var decks := DecksIn(entries);
    forall i, j | 0 <= i < j < |decks + [deck]| ensures (decks + [deck])[i].id != (decks + [deck])[j].id {
      if j == |decks| {
        assert decks[i].id != deck.id;
      }
    }
  }

  /**
   * `createDeck` with a positive count and no stored cards records a count
   * that no card collection backs.
   */
  lemma CreateDeckWithCountIsInconsistent(entries: map<string, Blob>, deck: Deck)
    requires deck.cardCount > 0 && CardsIn(entries, deck.id) == []
    ensures !Consistent(AfterCreate(entries, deck))
  {
    assert deck in DecksIn(AfterCreate(entries, deck));
  }

  /**
   * The deck life cycle end to end: create a deck "Biology 101" under a fresh
   * id, save two cards for it, then delete it.
   */
  lemma BiologyScenario(entries: map<string, Blob>, x: string, createdAt: string, now: string, q1: Flashcard, q2: Flashcard)
    requires !HasDeck(DecksIn(entries), x)
    ensures
      var created := AfterCreate(entries, Deck(x, "Biology 101", 0, createdAt, createdAt));
      var filled := AfterSaveCards(created, x, [q1, q2], now);
      var deleted := AfterDelete(filled, x);
      && FindDeck(DecksIn(created), x) == Some(Deck(x, "Biology 101", 0, createdAt, createdAt))
      && FindDeck(DecksIn(filled), x) == Some(Deck(x, "Biology 101", 2, createdAt, now))
      && CardsIn(filled, x) == [q1, q2]
      && !HasDeck(DecksIn(deleted), x)
      && CardsIn(deleted, x) == []
  {
    var deck := Deck(x, "Biology 101", 0, createdAt, createdAt);
    var created := AfterCreate(entries, deck);
    IndexOfDeckAt(DecksIn(created), x, |DecksIn(entries)|);
    SaveCardsUpdatesDeck(created, x, [q1, q2], now);
    DeleteDeckRemoves(AfterSaveCards(created, x, [q1, q2], now), x);
  }

  class Store {
    var entries: map<string, Blob>
    ghost var events: nat

    constructor(initial: map<string, Blob>)
      ensures entries == initial && events == 0
    {
      entries := initial;
      events := 0;
    }

    /** `loadDecks`: never fails; a missing or undecodable blob reads as no decks. */
    method LoadDecks() returns (decks: seq<Deck>)
      ensures DecksKey !in entries || !entries[DecksKey].DeckList? ==> decks == []
      ensures DecksKey in entries && entries[DecksKey].DeckList? ==> decks == entries[DecksKey].decks
    {
      if DecksKey in entries {
        match entries[DecksKey]
        case DeckList(ds) => decks := ds;
        case _ => decks := [];
      } else {
        decks := [];
      }
    }

    /** `loadDeck`: the first stored deck with the id, if any. */
    method LoadDeck(deckId: string) returns (deck: Option<Deck>)
      ensures deck.None? <==> !HasDeck(DecksIn(entries), deckId)
      ensures deck.Some? ==> deck.value.id == deckId && deck.value in DecksIn(entries)
      ensures deck == FindDeck(DecksIn(entries), deckId)
    {
      var decks := LoadDecks();
      deck := FindDeck(decks, deckId);
    }

    /** `createDeck`: appends one new deck after the stored ones and returns its id. */
    method CreateDeck(title: string, cardCount: int, newId: string, createdAt: string, updatedAt: string) returns (id: string)
      modifies this
      ensures id == newId
      ensures entries == AfterCreate(old(entries), Deck(newId, title, cardCount, createdAt, updatedAt))
      ensures events == old(events) + 1
    {
      var decks := LoadDecks();
      var newDeck := Deck(newId, title, cardCount, createdAt, updatedAt);
      entries := entries[DecksKey := DeckList(decks + [newDeck])];
      events := events + 1;
      id := newDeck.id;
    }

    /** `saveDeck`: upsert by id. */
    method SaveDeck(deck: Deck)
      modifies this
      ensures entries == AfterSaveDeck(old(entries), deck)
      ensures events == old(events) + 1
    {
      var decks := LoadDecks();
      var index := IndexOfDeck(decks, deck.id);
      if index != -1 {
        decks := decks[index := deck];
      } else {
        decks := decks + [deck];
      }
      entries := entries[DecksKey := DeckList(decks)];
      events := events + 1;
    }

    /** `deleteDeck`: removes the deck record and cascades to its cards. */
    method DeleteDeck(deckId: string)
      modifies this
      ensures entries == AfterDelete(old(entries), deckId)
      ensures events == old(events) + 1
    {
      var decks := LoadDecks();
      var updatedDecks := RemoveDeck(decks, deckId);
      entries := entries[DecksKey := DeckList(updatedDecks)];
      entries := entries - {CardsKey(deckId)};
      events := events + 1;
    }

    /** `loadCards`: never fails; a missing or undecodable blob reads as no cards. */
    method LoadCards(deckId: string) returns (cards: seq<Flashcard>)
      ensures CardsKey(deckId) !in entries || !entries[CardsKey(deckId)].CardList? ==> cards == []
      ensures CardsKey(deckId) in entries && entries[CardsKey(deckId)].CardList? ==> cards == entries[CardsKey(deckId)].cards
    {
      var key := CardsKey(deckId);
      if key in entries {
        match entries[key]
        case CardList(cs) => cards := cs;
        case _ => cards := [];
      } else {
        cards := [];
      }
    }

    /**
     * `saveCards`: replaces the deck's cards, then rewrites the deck (if it
     * exists) with the new count and time. Two notifications when the deck
     * exists (one from `SaveDeck`), one otherwise.
     */
    method SaveCards(deckId: string, cards: seq<Flashcard>, now: string)
      modifies this
      ensures entries == AfterSaveCards(old(entries), deckId, cards, now)
      ensures events == old(events) + if HasDeck(DecksIn(old(entries)), deckId) then 2 else 1
    {
      entries := entries[CardsKey(deckId) := CardList(cards)];
      assert DecksIn(entries) == DecksIn(old(entries));
      var deck := LoadDeck(deckId);
      if deck.Some? {
        SaveDeck(deck.value.(cardCount := |cards|, updatedAt := now));
      }
      events := events + 1;
    }
  }
}
