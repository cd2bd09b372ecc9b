/** The transaction store: the ordered ledger, the id repair done at load
    time, append, delete-by-id and clear, and the requests it issues to the
    durable key-value store under the key "@transactions". */
module Ledger {
  import opened Values

  /** `{ id: makeId(), ...t }`: the fresh id is written first and the spread
      then copies every key `t` owns, so an `id` key that is present, whatever
      its value, overwrites the fresh one. */
  function IdThenSpread(newId: FreshId, t: Tx): (r: Tx)
    ensures r.(id := t.id) == t
    ensures t.id.Some? ==> r == t
    ensures t.id.None? ==> r.id == Some(Str(newId)) && HasTruthyId(r)
  {
    if t.id.Some? then t else t.(id := Some(Str(newId)))
  }

  /** `t.id ? t : { id: makeId(), ...t }`, the record `addTransaction` stores
      and the record the load-time repair keeps. */
  function WithId(t: Tx, newId: FreshId): (r: Tx)
    // every field other than `id` is the input's
    ensures r.(id := t.id) == t
    // a truthy id, and any id key present at all, is kept as given
    ensures HasTruthyId(t) ==> r == t
    ensures t.id.Some? ==> r == t
    // only an absent id key is filled, with the oracle's id
    ensures t.id.None? ==> r.id == Some(Str(newId))
    ensures HasTruthyId(r) <==> HasTruthyId(t) || t.id.None?
  {
    if HasTruthyId(t) then t else IdThenSpread(newId, t)
  }

  /** `prev.filter((t) => t.id !== id)` */
  function Remove(ts: seq<Tx>, id: JsValue): (r: seq<Tx>)
    ensures |r| <= |ts|
    ensures forall t :: t in r ==> t in ts && IdOf(t) != id
    ensures forall t :: t in ts && IdOf(t) != id ==> t in r
  {
    if ts == [] then []
    else
      var init, last := ts[..|ts| - 1], ts[|ts| - 1];
      assert ts == init + [last];
      Remove(init, id) + (if IdOf(last) != id then [last] else [])
  }

  /** The positions of `ts` whose record survives `Remove(ts, id)`, in increasing order. */
  ghost function KeptPositions(ts: seq<Tx>, id: JsValue): (kept: seq<int>)
    ensures forall k :: 0 <= k < |kept| ==> 0 <= kept[k] < |ts|
  {
    if ts == [] then []
    else KeptPositions(ts[..|ts| - 1], id) + (if IdOf(ts[|ts| - 1]) != id then [|ts| - 1] else [])
  }

  lemma {:induction false} RemoveAtKept(ts: seq<Tx>, id: JsValue)
    ensures |KeptPositions(ts, id)| == |Remove(ts, id)|
    ensures forall k :: 0 <= k < |KeptPositions(ts, id)| ==> Remove(ts, id)[k] == ts[KeptPositions(ts, id)[k]]
  {
    if ts != [] {
      var n := |ts| - 1;
      var init := ts[..n];
      assert ts == init + [ts[n]];
      RemoveAtKept(init, id);
      var before, r0 := KeptPositions(init, id), Remove(init, id);
      forall k | 0 <= k < |before|
        ensures Remove(ts, id)[k] == ts[KeptPositions(ts, id)[k]]
      {
        assert Remove(ts, id)[k] == r0[k];
        assert KeptPositions(ts, id)[k] == before[k];
      }
    }
  }

  lemma {:induction false} KeptIncreasing(ts: seq<Tx>, id: JsValue)
    ensures forall k, l :: 0 <= k < l < |KeptPositions(ts, id)| ==> KeptPositions(ts, id)[k] < KeptPositions(ts, id)[l]
  {
    if ts != [] {
      KeptIncreasing(ts[..|ts| - 1], id);
    }
  }

  lemma {:induction false} KeptExactly(ts: seq<Tx>, id: JsValue)
    ensures forall i :: 0 <= i < |ts| ==> (i in KeptPositions(ts, id) <==> IdOf(ts[i]) != id)
  {
    if ts != [] {
      var n := |ts| - 1;
      var init := ts[..n];
      KeptExactly(init, id);
      var before := KeptPositions(init, id);
      forall i | 0 <= i < |ts|
        ensures i in KeptPositions(ts, id) <==> IdOf(ts[i]) != id
      {
        if i < n {
          assert ts[i] == init[i];
        } else {
          assert n !in before;
        }
      }
    }
  }

  /** The records that survive a delete keep their relative order: `kept`
      lists, in increasing order, the positions of `ts` that were kept, and
      those are exactly the positions whose id differs from `id`. */
  lemma RemoveKeepsOrder(ts: seq<Tx>, id: JsValue) returns (kept: seq<int>)
    ensures |kept| == |Remove(ts, id)|
    ensures forall k :: 0 <= k < |kept| ==> 0 <= kept[k] < |ts| && Remove(ts, id)[k] == ts[kept[k]]
    ensures forall k, l :: 0 <= k < l < |kept| ==> kept[k] < kept[l]
    ensures forall i :: 0 <= i < |ts| ==> (i in kept <==> IdOf(ts[i]) != id)
  {
    kept := KeptPositions(ts, id);
    RemoveAtKept(ts, id);
    KeptIncreasing(ts, id);
    KeptExactly(ts, id);
  }

  /** Deleting an id that no record carries leaves the ledger as it was. */
  lemma {:induction false} RemoveAbsentId(ts: seq<Tx>, id: JsValue)
    requires forall t :: t in ts ==> IdOf(t) != id
    ensures Remove(ts, id) == ts
  {
    if ts != [] {
      var init := ts[..|ts| - 1];
      assert ts == init + [ts[|ts| - 1]];
      RemoveAbsentId(init, id);
    }
  }

  /** Deleting the id of a record just added, when no earlier record shares
      that id, gives back the ledger as it was before the add. */
  lemma DeleteUndoesAdd(ts: seq<Tx>, tx: Tx, newId: FreshId)
    requires forall t :: t in ts ==> IdOf(t) != IdOf(WithId(tx, newId))
    ensures Remove(ts + [WithId(tx, newId)], IdOf(WithId(tx, newId))) == ts
    ensures |Remove(ts + [WithId(tx, newId)], IdOf(WithId(tx, newId)))| == |ts + [WithId(tx, newId)]| - 1
  {
    var added := ts + [WithId(tx, newId)];
    assert added[..|added| - 1] == ts;
    RemoveAbsentId(ts, IdOf(WithId(tx, newId)));
  }

  /** `parsed.map((t) => !t.id ? { id: makeId(), ...t } : t)`; the oracle
      `ids` supplies the id `makeId` returns when called for the record at
      position `i`. */
  function Migrate(ts: seq<Tx>, ids: nat -> FreshId): (r: seq<Tx>)
    ensures |r| == |ts|
    // every field other than `id` survives the repair
    ensures forall i :: 0 <= i < |ts| ==> r[i].(id := ts[i].id) == ts[i]
    // a record with an `id` key, truthy or not, is returned untouched
    ensures forall i :: 0 <= i < |ts| && ts[i].id.Some? ==> r[i] == ts[i]
    // a record without one receives the oracle's id
    ensures forall i :: 0 <= i < |ts| && ts[i].id.None? ==> r[i].id == Some(Str(ids(i)))
  {
    var r := seq(|ts|, i requires 0 <= i < |ts| => WithId(ts[i], ids(i)));
    assert forall i :: 0 <= i < |ts| ==> r[i] == WithId(ts[i], ids(i));
    r
  }

  /** Repairing a repaired ledger changes nothing. */
  lemma MigrateIdempotent(ts: seq<Tx>, ids: nat -> FreshId, later: nat -> FreshId)
    ensures Migrate(Migrate(ts, ids), later) == Migrate(ts, ids)
  {
    var once := Migrate(ts, ids);
    forall i | 0 <= i < |ts|
      ensures Migrate(once, later)[i] == once[i]
    {
      assert once[i].id.Some?;
    }
  }

  /** The load-time repair loop (lines 19-26): it rebuilds the list and sets
      `changed` whenever it meets a record whose id is falsy. */
  method MigrateLoaded(parsed: seq<Tx>, ids: nat -> FreshId) returns (repaired: seq<Tx>, changed: bool)
    ensures repaired == Migrate(parsed, ids)
    ensures changed <==> exists i :: 0 <= i < |parsed| && !HasTruthyId(parsed[i])
  {
    repaired, changed := [], false;
    var i := 0;
    while i < |parsed|
      invariant 0 <= i <= |parsed|
      invariant |repaired| == i
      invariant forall j :: 0 <= j < i ==> repaired[j] == WithId(parsed[j], ids(j))
      invariant changed <==> exists j :: 0 <= j < i && !HasTruthyId(parsed[j])
    {
      var t := parsed[i];
      if !HasTruthyId(t) {
        changed := true;
        repaired := repaired + [IdThenSpread(ids(i), t)];
      } else {
        repaired := repaired + [t];
      }
      i := i + 1;
    }
  }

  /** What the load step finds under "@transactions": nothing (a missing or
      empty blob, or a failed read), something `JSON.parse` or `.map` throws
      on, or a parsed array of records. */
  datatype Blob = Missing | Malformed | Parsed(records: seq<Tx>)

  /** The ledger after the load step, starting from `current`. */
  function Loaded(blob: Blob, ids: nat -> FreshId, current: seq<Tx>): (r: seq<Tx>)
    // nothing readable: the ledger stays as it was
    ensures !blob.Parsed? ==> r == current
    // a parsed array replaces it, one repaired record per stored record
    ensures blob.Parsed? ==> |r| == |blob.records|
    ensures blob.Parsed? ==> forall i :: 0 <= i < |r| ==> r[i].(id := blob.records[i].id) == blob.records[i]
  {
    if blob.Parsed? then Migrate(blob.records, ids) else current
  }

  /** A request issued to the durable store for the key "@transactions". */
  datatype StorageRequest = SetItem(records: seq<Tx>) | RemoveItem

  /** What the key holds once `requests` have completed in the order issued;
      every request replaces or removes the whole value. */
  function Stored(initial: Option<seq<Tx>>, requests: seq<StorageRequest>): Option<seq<Tx>>
  {
    if requests == [] then initial
    else match requests[|requests| - 1]
      case SetItem(ts) => Some(ts)
      case RemoveItem => None
  }

  /** Reading the key back: a stored array serialises to a non-empty string,
      which parses back to the same records. */
  function ReadBack(stored: Option<seq<Tx>>): Blob
  {
    if stored.Some? then Parsed(stored.value) else Missing
  }

  /** After a clear, a restart loads an empty ledger, whichever of the
      removal and the mirror write of the empty list completes last. */
  lemma ReloadAfterClear(initial: Option<seq<Tx>>, before: seq<StorageRequest>, ids: nat -> FreshId)
    ensures Loaded(ReadBack(Stored(initial, before + [RemoveItem, SetItem([])])), ids, []) == []
    ensures Loaded(ReadBack(Stored(initial, before + [SetItem([]), RemoveItem])), ids, []) == []
  {
  }

  /** When the last request written is the ledger and every record has an id
      key, a restart loads exactly that ledger. */
  lemma ReloadRestoresLedger(initial: Option<seq<Tx>>, requests: seq<StorageRequest>, ts: seq<Tx>, ids: nat -> FreshId)
    requires requests != [] && requests[|requests| - 1] == SetItem(ts)
    requires forall t :: t in ts ==> t.id.Some?
    ensures Loaded(ReadBack(Stored(initial, requests)), ids, []) == ts
  {
    var r := Migrate(ts, ids);
    assert forall i :: 0 <= i < |ts| ==> ts[i] in ts;
    assert r == ts;
  }

  /** The `TransactionProvider` state: the ledger and, as a ghost log, the
      requests it has issued to the durable store. The persist-on-change
      effect writes the whole list each time the state is replaced, so the
      last request always mirrors the ledger. */
  class TransactionStore {
    var transactions: seq<Tx>
    ghost var requests: seq<StorageRequest>

    ghost predicate Valid()
      reads this
    {
      requests != [] && requests[|requests| - 1] == SetItem(transactions)
    }

    /** Mounting: the state starts empty and the persist effect writes it. */
    constructor ()
      ensures Valid()
      ensures transactions == [] && requests == [SetItem([])]
    {
      transactions := [];
      requests := [SetItem([])];
    }

    /** The load effect (lines 13-37). A missing or unreadable blob leaves the
        ledger as it is; a parsed one is repaired and replaces it, and is
        written back once more when the repair changed something. */
    method Load(blob: Blob, ids: nat -> FreshId)
      requires Valid()
      modifies this
      ensures Valid()
      ensures transactions == Loaded(blob, ids, old(transactions))
      ensures !blob.Parsed? ==> requests == old(requests)
      ensures blob.Parsed? ==>
        requests == old(requests)
                    + (if exists i :: 0 <= i < |blob.records| && !HasTruthyId(blob.records[i])
                       then [SetItem(transactions)] else [])
                    + [SetItem(transactions)]
    {
      if blob.Parsed? {
        var repaired, changed := MigrateLoaded(blob.records, ids);
        transactions := repaired;
        if changed {
          requests := requests + [SetItem(repaired)];
        }
        requests := requests + [SetItem(transactions)];
      }
    }

    /** `addTransaction(tx)`, with `newId` the value `makeId` returns. */
    method Add(tx: Tx, newId: FreshId)
      requires Valid()
      modifies this
      ensures Valid()
      ensures transactions == old(transactions) + [WithId(tx, newId)]
      ensures |transactions| == |old(transactions)| + 1
      ensures transactions[..|old(transactions)|] == old(transactions)
      ensures requests == old(requests) + [SetItem(transactions)]
    {
      transactions := transactions + [WithId(tx, newId)];
      requests := requests + [SetItem(transactions)];
    }

    /** `deleteTransaction(id)`: every record whose id is `id` goes. */
    method Delete(id: JsValue)
      requires Valid()
      modifies this
      ensures Valid()
      ensures transactions == Remove(old(transactions), id)
      ensures forall t :: t in transactions ==> IdOf(t) != id
      ensures (forall t :: t in old(transactions) ==> IdOf(t) != id) ==> transactions == old(transactions)
      ensures requests == old(requests) + [SetItem(transactions)]
    {
      if forall t :: t in transactions ==> IdOf(t) != id {
        RemoveAbsentId(transactions, id);
      }
      transactions := Remove(transactions, id);
      requests := requests + [SetItem(transactions)];
    }

    /** `clearTransactions()`: the state becomes empty, the key is removed,
        and the persist effect then writes the empty list. */
    method Clear()
      requires Valid()
      modifies this
      ensures Valid()
      ensures transactions == []
      ensures requests == old(requests) + [RemoveItem, SetItem([])]
    {
      transactions := [];
      requests := requests + [RemoveItem];
      requests := requests + [SetItem(transactions)];
    }
  }
}
