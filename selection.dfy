/** The entry-selection rule shared by both scripts, as a specification:
    the entries are visited in order; one whose id is already in the store,
    or whose publish time falls before the cutoff, is skipped; any other is
    picked and its id is written into the store. `Select` describes the run
    over the first `n` entries by what it picked (positions) and the store
    it leaves behind. */
module Selection {
  import opened Feeds

  datatype Selection = Selection(picks: seq<nat>, sent: map<string, int>)

  function Id(it: Item): string
  {
    EntryId(it.entry)
  }

  /** The two skips: the id is already stored, or the entry is stale. */
  predicate Admits(sent: map<string, int>, e: FeedEntry, now: Time)
  {
    EntryId(e) !in sent && !Stale(e, now)
  }

  predicate Increasing(xs: seq<nat>)
  {
    forall a, b :: 0 <= a < b < |xs| ==> xs[a] < xs[b]
  }

  /** The selection after the first `n` of `items`, starting from `store`;
      every picked id is stored with `stamp`. The picks are positions in
      `items`, in increasing order, so the output is an order-preserving
      subsequence of the entries. */
  function Select(items: seq<Item>, n: nat, store: map<string, int>, now: Time, stamp: int): (s: Selection)
    requires n <= |items|
    ensures forall k :: 0 <= k < |s.picks| ==> s.picks[k] < n
  {
    if n == 0 then Selection([], store)
    else Step(Select(items, n - 1, store, now, stamp), items[n - 1].entry, n - 1, now, stamp)
  }

  /** The visit of the entry at position `n`: picked, and its id stored,
      when it passes both skips against the selection so far. */
  function Step(before: Selection, e: FeedEntry, n: nat, now: Time, stamp: int): (after: Selection)
    ensures after == before
            || (after.picks == before.picks + [n] && !Stale(e, now)
                && EntryId(e) !in before.sent && after.sent == before.sent[EntryId(e) := stamp])
    ensures after != before <==> Admits(before.sent, e, now)
  {
    if Admits(before.sent, e, now) then Selection(before.picks + [n], before.sent[EntryId(e) := stamp])
    else before
  }

  /** The picks are positions in increasing order, so the output is an
      order-preserving subsequence of the entries. */
  lemma {:induction false} SelectOrdered(items: seq<Item>, n: nat, store: map<string, int>, now: Time, stamp: int)
    requires n <= |items|
    ensures Increasing(Select(items, n, store, now, stamp).picks)
  {
    if n > 0 {
      SelectOrdered(items, n - 1, store, now, stamp);
    }
  }

  /** The picks of a longer run extend those of a shorter one. */
  lemma {:induction false} SelectPicksGrow(items: seq<Item>, n: nat, m: nat, store: map<string, int>, now: Time, stamp: int)
    requires n <= m <= |items|
    ensures Select(items, n, store, now, stamp).picks <= Select(items, m, store, now, stamp).picks
  {
    if n < m {
      SelectPicksGrow(items, n, m - 1, store, now, stamp);
    }
  }

  /** An entry picked on its visit is among the picks of the whole run. */
  lemma PickedStays(items: seq<Item>, n: nat, store: map<string, int>, now: Time, stamp: int)
    requires n < |items|
    requires Admits(Select(items, n, store, now, stamp).sent, items[n].entry, now)
    ensures n in Select(items, |items|, store, now, stamp).picks
  {
    var s := Select(items, n + 1, store, now, stamp);
    SelectPicksGrow(items, n + 1, |items|, store, now, stamp);
    assert s.picks[|s.picks| - 1] == n;
  }

  /** One more entry: it is picked, and its id stored, exactly when it
      passes both skips against the store built so far. */
  lemma SelectStep(items: seq<Item>, n: nat, store: map<string, int>, now: Time, stamp: int)
    requires n < |items|
    ensures Select(items, n + 1, store, now, stamp)
            == Step(Select(items, n, store, now, stamp), items[n].entry, n, now, stamp)
  {
  }

  /** The ids of the picked items. */
  function PickedIds(items: seq<Item>, picks: seq<nat>): set<string>
    requires forall k :: 0 <= k < |picks| ==> picks[k] < |items|
  {
    set k | 0 <= k < |picks| :: Id(items[picks[k]])
  }

  lemma PickedIdsSnoc(items: seq<Item>, picks: seq<nat>, p: nat)
    requires forall k :: 0 <= k < |picks| ==> picks[k] < |items|
    requires p < |items|
    ensures PickedIds(items, picks + [p]) == PickedIds(items, picks) + {Id(items[p])}
  {
    var ps := picks + [p];
    forall id | id in PickedIds(items, ps)
      ensures id in PickedIds(items, picks) + {Id(items[p])}
    {
      var k :| 0 <= k < |ps| && id == Id(items[ps[k]]);
      if k < |picks| {
        assert ps[k] == picks[k];
      }
    }
    assert Id(items[p]) == Id(items[ps[|picks|]]);
    forall id | id in PickedIds(items, picks)
      ensures id in PickedIds(items, ps)
    {
      var k :| 0 <= k < |picks| && id == Id(items[picks[k]]);
      assert ps[k] == picks[k];
    }
  }

  /** Nothing already in the store is removed or overwritten. */
  lemma {:induction false} SelectKeepsStore(items: seq<Item>, n: nat, store: map<string, int>, now: Time, stamp: int)
    requires n <= |items|
    ensures var s := Select(items, n, store, now, stamp);
            forall id :: id in store ==> id in s.sent && s.sent[id] == store[id]
  {
    if n > 0 {
      SelectKeepsStore(items, n - 1, store, now, stamp);
    }
  }

  /** The store afterwards holds exactly the old keys plus the picked ids,
      and every key it gained maps to `stamp`. */
  lemma {:induction false} SelectRecordsPicks(items: seq<Item>, n: nat, store: map<string, int>, now: Time, stamp: int)
    requires n <= |items|
    ensures var s := Select(items, n, store, now, stamp);
            s.sent.Keys == store.Keys + PickedIds(items, s.picks)
            && forall id :: id in s.sent && id !in store ==> s.sent[id] == stamp
  {
    if n > 0 {
      var before := Select(items, n - 1, store, now, stamp);
      SelectRecordsPicks(items, n - 1, store, now, stamp);
      if Admits(before.sent, items[n - 1].entry, now) {
        PickedIdsSnoc(items, before.picks, n - 1);
      }
    }
  }

  /** Reference characterisation of the picks: the entry at position `k` is
      picked exactly when it is not stale, its id is not in the original
      store, and no earlier picked entry has the same id. */
  lemma {:induction false} SelectExactly(items: seq<Item>, n: nat, store: map<string, int>, now: Time, stamp: int, k: nat)
    requires k < n <= |items|
    ensures var s := Select(items, n, store, now, stamp);
            k in s.picks <==>
              (!Stale(items[k].entry, now) && Id(items[k]) !in store
               && forall j :: j in s.picks && j < k ==> Id(items[j]) != Id(items[k]))
  {
    if k < n - 1 {
      var before := Select(items, n - 1, store, now, stamp);
      var s := Select(items, n, store, now, stamp);
      assert s.picks == before.picks || s.picks == before.picks + [n - 1];
      assert forall j :: j in s.picks && j < k <==> j in before.picks && j < k;
      SelectExactly(items, n - 1, store, now, stamp, k);
    } else {
      SelectExactlyLast(items, n, store, now, stamp);
    }
  }

  /** The last step of `SelectExactly`: the entry at position `n - 1`. */
  lemma SelectExactlyLast(items: seq<Item>, n: nat, store: map<string, int>, now: Time, stamp: int)
    requires 0 < n <= |items|
    ensures var s := Select(items, n, store, now, stamp);
            var k := n - 1;
            k in s.picks <==>
              (!Stale(items[k].entry, now) && Id(items[k]) !in store
               && forall j :: j in s.picks && j < k ==> Id(items[j]) != Id(items[k]))
  {
    var k := n - 1;
    var before := Select(items, k, store, now, stamp);
    var s := Select(items, n, store, now, stamp);
    var id := Id(items[k]);
    assert k !in before.picks;
    assert k in s.picks <==> Admits(before.sent, items[k].entry, now);
    assert forall j :: j in s.picks && j < k <==> j in before.picks;
    SelectRecordsPicks(items, k, store, now, stamp);
    assert id in before.sent <==> id in store || id in PickedIds(items, before.picks);
    assert id in PickedIds(items, before.picks) <==> exists j :: j in before.picks && Id(items[j]) == id by {
      if id in PickedIds(items, before.picks) {
        var i :| 0 <= i < |before.picks| && id == Id(items[before.picks[i]]);
        assert before.picks[i] in before.picks;
      }
      if exists j :: j in before.picks && Id(items[j]) == id {
        var j :| j in before.picks && Id(items[j]) == id;
        var i :| 0 <= i < |before.picks| && before.picks[i] == j;
      }
    }
  }

  /** No id is picked twice, and no picked id was already in the store,
      even when the same id occurs in several feeds or twice in one. */
  lemma SelectDistinct(items: seq<Item>, n: nat, store: map<string, int>, now: Time, stamp: int)
    requires n <= |items|
    ensures var s := Select(items, n, store, now, stamp);
            (forall a, b :: 0 <= a < b < |s.picks| ==> Id(items[s.picks[a]]) != Id(items[s.picks[b]]))
            && forall k :: 0 <= k < |s.picks| ==> Id(items[s.picks[k]]) !in store
  {
    var s := Select(items, n, store, now, stamp);
    forall a, b | 0 <= a < b < |s.picks|
      ensures Id(items[s.picks[a]]) != Id(items[s.picks[b]])
    {
      SelectExactly(items, n, store, now, stamp, s.picks[b]);
    }
    forall k | 0 <= k < |s.picks|
      ensures Id(items[s.picks[k]]) !in store
    {
      SelectExactly(items, n, store, now, stamp, s.picks[k]);
    }
  }

  /** Every picked entry is within the cutoff. */
  lemma SelectRespectsCutoff(items: seq<Item>, n: nat, store: map<string, int>, now: Time, stamp: int)
    requires n <= |items|
    ensures var s := Select(items, n, store, now, stamp);
            forall k :: 0 <= k < |s.picks| ==> !Stale(items[s.picks[k]].entry, now)
  {
    var s := Select(items, n, store, now, stamp);
    forall k | 0 <= k < |s.picks|
      ensures !Stale(items[s.picks[k]].entry, now)
    {
      SelectExactly(items, n, store, now, stamp, s.picks[k]);
    }
  }

  /** An entry whose id is in the store before the run is never picked,
      however recent it is. */
  lemma StoredNeverPicked(items: seq<Item>, n: nat, store: map<string, int>, now: Time, stamp: int, k: nat)
    requires k < n <= |items| && Id(items[k]) in store
    ensures k !in Select(items, n, store, now, stamp).picks
  {
    SelectExactly(items, n, store, now, stamp, k);
  }
}
