/** The persisted generation history: a most-recent-first list of at most
    100 items, one per id. Each action replaces `items` with a new list. */
module HistoryStore {
  import opened Seqs
  import opened HistoryTypes

  const HISTORY_LIMIT: nat := 100

  /** No two entries share an id. */
  predicate UniqueIds(items: seq<HistoryItem>) {
    forall i, j :: 0 <= i < j < |items| ==> items[i].id != items[j].id
  }

  /** No entry has the given id. */
  predicate AbsentId(items: seq<HistoryItem>, id: string) {
    forall it :: it in items ==> it.id != id
  }

  /** `items.filter((entry) => entry.id !== id)`. */
  function WithoutId(items: seq<HistoryItem>, id: string): (r: seq<HistoryItem>)
    ensures forall it :: it in r <==> it in items && it.id != id
    ensures IsSubsequence(r, items)
  {
    var keep := (it: HistoryItem) => it.id != id;
    FilterIsSubsequence(items, keep);
    Filter(items, keep)
  }

  /** `[item, ...existing].slice(0, HISTORY_LIMIT)` where `existing` is the
      list without `item.id`. */
  function Upserted(items: seq<HistoryItem>, item: HistoryItem): (r: seq<HistoryItem>)
    ensures 1 <= |r| <= HISTORY_LIMIT
    ensures r[0] == item
    ensures AbsentId(r[1..], item.id)
  {
    var existing := WithoutId(items, item.id);
    var r := Take([item] + existing, HISTORY_LIMIT);
    assert forall it :: it in r[1..] ==> it in existing by {
      assert r[1..] == existing[..|r| - 1];
    }
    r
  }

  /** Removing an id that no entry has changes nothing. */
  lemma WithoutAbsentId(items: seq<HistoryItem>, id: string)
    requires AbsentId(items, id)
    ensures WithoutId(items, id) == items
  {
    FilterKeepsAll(items, (it: HistoryItem) => it.id != id);
  }

  /** A fresh id on a list below the limit grows it by exactly one, with the
      old list intact behind the new head. */
  lemma UpsertFreshGrows(items: seq<HistoryItem>, item: HistoryItem)
    requires AbsentId(items, item.id)
    requires |items| < HISTORY_LIMIT
    ensures Upserted(items, item) == [item] + items
    ensures |Upserted(items, item)| == |items| + 1
  {
    WithoutAbsentId(items, item.id);
  }

  /** The surviving older entries are a subsequence of the old list: they
      come from it and keep their relative order. */
  lemma UpsertKeepsOrder(items: seq<HistoryItem>, item: HistoryItem)
    ensures IsSubsequence(Upserted(items, item)[1..], items)
    ensures forall it :: it in Upserted(items, item)[1..] ==> it in items
  {
    var existing := WithoutId(items, item.id);
    var r := Upserted(items, item);
    assert r[1..] == existing[..|r| - 1];
    PrefixIsSubsequence(existing, items, |r| - 1);
    SubsequenceMembers(r[1..], items);
  }

  /** Behind the new item come the old entries with other ids, in their
      old order, as many as fit under the limit; so below the limit every
      entry with another id survives an upsert. */
  lemma UpsertKeepsOthers(items: seq<HistoryItem>, item: HistoryItem)
    ensures var r := Upserted(items, item);
      var others := WithoutId(items, item.id);
      && |r| == (if 1 + |others| < HISTORY_LIMIT then 1 + |others| else HISTORY_LIMIT)
      && r[1..] == others[..|r| - 1]
    ensures |items| < HISTORY_LIMIT ==>
      forall it :: it in items && it.id != item.id ==> it in Upserted(items, item)
  {
    var r := Upserted(items, item);
    var others := WithoutId(items, item.id);
    assert r == Take([item] + others, HISTORY_LIMIT);
    assert r[1..] == others[..|r| - 1];
    if |items| < HISTORY_LIMIT {
      assert |others| <= |items|;
      assert r[1..] == others;
      forall it | it in items && it.id != item.id
        ensures it in r
      {
        assert it in r[1..];
      }
    }
  }

  /** Filtering a list with unique ids leaves unique ids. */
  lemma {:induction false} WithoutIdUnique(items: seq<HistoryItem>, id: string)
    requires UniqueIds(items)
    ensures UniqueIds(WithoutId(items, id))
  {
    if items != [] {
      var keep := (it: HistoryItem) => it.id != id;
      assert UniqueIds(items[1..]);
      WithoutIdUnique(items[1..], id);
      var rest := WithoutId(items[1..], id);
      assert rest == Filter(items[1..], keep);
      if keep(items[0]) {
        assert WithoutId(items, id) == [items[0]] + rest;
        forall j | 0 <= j < |rest|
          ensures items[0].id != rest[j].id
        {
          assert rest[j] in items[1..];
        }
      } else {
        assert WithoutId(items, id) == rest;
      }
    }
  }

  /** Re-adding an id replaces its entry instead of duplicating it, so a list
      with unique ids keeps them. */
  lemma UpsertKeepsUniqueIds(items: seq<HistoryItem>, item: HistoryItem)
    requires UniqueIds(items)
    ensures UniqueIds(Upserted(items, item))
  {
    var existing := WithoutId(items, item.id);
    WithoutIdUnique(items, item.id);
    var r := Upserted(items, item);
    assert r[1..] == existing[..|r| - 1];
    forall i, j | 0 <= i < j < |r|
      ensures r[i].id != r[j].id
    {
      if i == 0 {
        assert r[j] in r[1..];
      } else {
        assert r[i] == existing[i - 1] && r[j] == existing[j - 1];
      }
    }
  }

  /** The list after calling `addItem` with each of `xs` in turn. */
  function AddAll(items: seq<HistoryItem>, xs: seq<HistoryItem>): seq<HistoryItem>
    decreases |xs|
  {
    if xs == [] then items else AddAll(Upserted(items, xs[0]), xs[1..])
  }

  /** After a fresh head is added, the later items are still fresh. */
  lemma FreshAfterUpsert(items: seq<HistoryItem>, xs: seq<HistoryItem>)
    requires xs != []
    requires UniqueIds(xs)
    requires forall i :: 0 <= i < |xs| ==> AbsentId(items, xs[i].id)
    ensures UniqueIds(xs[1..])
    ensures forall i :: 0 <= i < |xs| - 1 ==> AbsentId(Take([xs[0]] + items, HISTORY_LIMIT), xs[1..][i].id)
  {
    var next := Take([xs[0]] + items, HISTORY_LIMIT);
    forall i | 0 <= i < |xs| - 1
      ensures AbsentId(next, xs[1..][i].id)
    {
      assert xs[1..][i] == xs[i + 1];
      forall it | it in next
        ensures it.id != xs[i + 1].id
      {
        assert it in [xs[0]] + items;
      }
    }
  }

  /** The shape of the fresh-insertion result: one more element at the front. */
  lemma ReverseStep(xs: seq<HistoryItem>, items: seq<HistoryItem>)
    requires xs != []
    ensures Take(Reverse(xs[1..]) + Take([xs[0]] + items, HISTORY_LIMIT), HISTORY_LIMIT)
         == Take(Reverse(xs) + items, HISTORY_LIMIT)
  {
    TakeConcatTake(Reverse(xs[1..]), [xs[0]] + items, HISTORY_LIMIT);
    assert Reverse(xs) == Reverse(xs[1..]) + [xs[0]];
    assert Reverse(xs[1..]) + ([xs[0]] + items) == Reverse(xs) + items;
  }

  /** Adding items with fresh, distinct ids puts them in front newest first
      and keeps the first 100 of the result. */
  lemma {:induction false} AddAllFresh(items: seq<HistoryItem>, xs: seq<HistoryItem>)
    requires UniqueIds(xs)
    requires forall i :: 0 <= i < |xs| ==> AbsentId(items, xs[i].id)
    requires |items| <= HISTORY_LIMIT
    ensures AddAll(items, xs) == Take(Reverse(xs) + items, HISTORY_LIMIT)
    decreases |xs|
  {
    if xs == [] {
      assert Reverse(xs) + items == items;
    } else {
      WithoutAbsentId(items, xs[0].id);
      var next := Upserted(items, xs[0]);
      assert next == Take([xs[0]] + items, HISTORY_LIMIT);
      FreshAfterUpsert(items, xs);
      AddAllFresh(next, xs[1..]);
      ReverseStep(xs, items);
    }
  }

  /** 101 items with distinct ids added to an empty history: the 100 newest
      remain, newest first, and the oldest is evicted. */
  lemma OldestEvicted(xs: seq<HistoryItem>)
    requires |xs| == HISTORY_LIMIT + 1
    requires UniqueIds(xs)
    ensures |AddAll([], xs)| == HISTORY_LIMIT
    ensures forall i :: 0 <= i < HISTORY_LIMIT ==> AddAll([], xs)[i] == xs[HISTORY_LIMIT - i]
    ensures AbsentId(AddAll([], xs), xs[0].id)
  {
    var r := AddAll([], xs);
    var rev := Reverse(xs);
    assert r == rev[..HISTORY_LIMIT] by {
      AddAllFresh([], xs);
      assert rev + [] == rev;
    }
    forall i | 0 <= i < HISTORY_LIMIT
      ensures r[i] == xs[HISTORY_LIMIT - i]
    {
      assert r[i] == rev[i];
    }
    forall it | it in r
      ensures it.id != xs[0].id
    {
      var i :| 0 <= i < |r| && r[i] == it;
      assert it == xs[HISTORY_LIMIT - i];
    }
  }

  /** The history store's state: `items`, replaced by each action. */
  class Store {
    var items: seq<HistoryItem>

    /** The store starts with no items. */
    constructor()
      ensures items == []
    {
      items := [];
    }

    /** `addItem`: `item` moves to the head, replacing any entry with its id,
        and the list is cut to `HISTORY_LIMIT`. */
    method AddItem(item: HistoryItem)
      modifies this
      ensures items == Upserted(old(items), item)
      ensures UniqueIds(old(items)) ==> UniqueIds(items)
    {
      if UniqueIds(items) {
        UpsertKeepsUniqueIds(items, item);
      }
      items := Upserted(items, item);
    }

    /** `removeItem`: every entry with `id` is dropped, the rest keep their order. */
    method RemoveItem(id: string)
      modifies this
      ensures items == WithoutId(old(items), id)
      ensures UniqueIds(old(items)) ==> UniqueIds(items)
    {
      if UniqueIds(items) {
        WithoutIdUnique(items, id);
      }
      items := WithoutId(items, id);
    }

    /** `clear`: no items remain. */
    method Clear()
      modifies this
      ensures items == []
    {
      items := [];
    }
  }
}
