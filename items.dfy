/**
 * The checklist record, the request bodies the two pages send, and an
 * abstraction of the persistence API behind `/api/items`: a request that
 * succeeds applies its change to the stored collection, a request that fails
 * leaves it as it was.
 */
module Items {
  import opened Wrappers

  /** A calendar date, as a day number counted from 1970-01-01. */
  type Day = int

  datatype Priority = High | Medium | Low

  /**
   * A stored checklist entry. `category`, `notes`, `dueDate` and `photo` are
   * optional because the add form sends `null` for them when they are empty.
   * `name` is the `label` key (`label` is a Dafny keyword).
   */
  datatype Item = Item(
    id: string,
    name: string,
    quantity: int,
    category: Option<string>,
    priority: Priority,
    notes: Option<string>,
    unitCost: int,
    dueDate: Option<Day>,
    photo: Option<string>,
    done: bool)

  /** The body of `POST /api/items`; `None` is a `null` or an omitted key. */
  datatype Draft = Draft(
    name: string,
    quantity: int,
    category: Option<string>,
    priority: Option<Priority>,
    notes: Option<string>,
    unitCost: int,
    dueDate: Option<Day>,
    photo: Option<string>,
    done: Option<bool>)

  /** The three mutating requests of the API. */
  datatype Request =
    | Post(body: Draft)
    | Put(id: string, record: Item)
    | Delete(id: string)

  /** `Number(v) || fallback`: `None` stands for `NaN`; `0` and `NaN` give way to the fallback. */
  function OrElse(n: Option<int>, fallback: int): (r: int)
    ensures fallback != 0 ==> r != 0
    ensures n.Some? && n.value != 0 ==> r == n.value
    ensures (n.None? || n.value == 0) ==> r == fallback
  {
    if n.Some? && n.value != 0 then n.value else fallback
  }

  // ---------------------------------------------------------------------------
  // The persistence API

  /** The record the API creates for a posted draft, under the id it assigns. */
  function Created(d: Draft, id: string): (it: Item)
    ensures it.id == id && it.name == d.name && it.quantity == d.quantity
    ensures it.category == d.category && it.notes == d.notes && it.photo == d.photo
    ensures it.unitCost == d.unitCost && it.dueDate == d.dueDate
    ensures it.priority == (if d.priority.Some? then d.priority.value else Medium)
    ensures it.done <==> d.done == Some(true)
  {
    Item(id, d.name, d.quantity, d.category, d.priority.GetOr(Medium), d.notes,
         d.unitCost, d.dueDate, d.photo, d.done.GetOr(false))
  }

  /** `PUT /items/{id}`: every record stored under `id` is replaced by `rec`. */
  function Replace(records: seq<Item>, id: string, rec: Item): (r: seq<Item>)
    ensures |r| == |records|
    ensures forall i :: 0 <= i < |r| ==> r[i] == (if records[i].id == id then rec else records[i])
  {
    if records == [] then []
    else [if records[0].id == id then rec else records[0]] + Replace(records[1..], id, rec)
  }

  /** `a` is `b` with some elements left out and the rest in their order. */
  predicate IsSubsequence<T(==)>(a: seq<T>, b: seq<T>)
    decreases |b|
  {
    if a == [] then true
    else if b == [] then false
    else (a[0] == b[0] && IsSubsequence(a[1..], b[1..])) || IsSubsequence(a, b[1..])
  }

  /** `DELETE /items/{id}`: the records stored under `id` are dropped, the rest keep their order. */
  function Remove(records: seq<Item>, id: string): (r: seq<Item>)
    ensures |r| <= |records|
    ensures forall x :: x in r <==> x in records && x.id != id
    ensures IsSubsequence(r, records)
  {
    if records == [] then []
    else
      var rest := Remove(records[1..], id);
      if records[0].id == id then
        assert rest == [] || IsSubsequence(rest, records[1..]);
        rest
      else
        assert ([records[0]] + rest)[1..] == rest;
        [records[0]] + rest
  }

  /** The stored collection after a successful request; `newId` is the id the API assigns to a posted draft. */
  function Apply(records: seq<Item>, req: Request, newId: string): (r: seq<Item>)
    ensures req.Post? ==> |r| == |records| + 1 && r[..|records|] == records && r[|records|].id == newId
    ensures req.Put? ==> |r| == |records| && forall i :: 0 <= i < |r| && records[i].id != req.id ==> r[i] == records[i]
    ensures req.Delete? ==> forall x :: x in r <==> x in records && x.id != req.id
  {
    match req
    case Post(d) => records + [Created(d, newId)]
    case Put(id, rec) => Replace(records, id, rec)
    case Delete(id) => Remove(records, id)
  }

  /** No two records share an id (the API assigns ids). */
  predicate UniqueIds(records: seq<Item>) {
    forall i, j :: 0 <= i < j < |records| ==> records[i].id != records[j].id
  }

  /** A record the API replaces keeps its position; with unique ids exactly one record changes. */
  lemma ReplaceUnique(records: seq<Item>, k: nat, rec: Item)
    requires UniqueIds(records) && k < |records| && rec.id == records[k].id
    ensures Replace(records, records[k].id, rec) == records[k := rec]
    ensures UniqueIds(Replace(records, records[k].id, rec))
  {
    var r := Replace(records, records[k].id, rec);
    forall i | 0 <= i < |r|
      ensures r[i] == records[k := rec][i]
    {
      if i < k {
        assert records[i].id != records[k].id;
      } else if i > k {
        assert records[k].id != records[i].id;
      }
    }
    assert r == records[k := rec];
    assert forall i :: 0 <= i < |r| ==> r[i].id == records[i].id;
  }

  /** Posting under a fresh id, replacing a record by one with the same id, or deleting keeps ids unique. */
  lemma {:induction false} RemoveKeepsUniqueIds(records: seq<Item>, id: string)
    requires UniqueIds(records)
    ensures UniqueIds(Remove(records, id))
  {
    if records != [] {
      RemoveKeepsUniqueIds(records[1..], id);
      var rest := Remove(records[1..], id);
      assert forall x :: x in rest ==> x in records[1..];
      forall x | x in rest
        ensures x.id != records[0].id
      {
        var j :| 0 <= j < |records[1..]| && records[1..][j] == x;
        assert records[j + 1] == x;
      }
    }
  }

  lemma PostKeepsUniqueIds(records: seq<Item>, d: Draft, newId: string)
    requires UniqueIds(records)
    requires forall i :: 0 <= i < |records| ==> records[i].id != newId
    ensures UniqueIds(Apply(records, Post(d), newId))
  {
  }

  /**
   * The collection behind `/api/items`. The pages reach it only through
   * requests; `delivered` says whether the request succeeded.
   */
  class ItemStore {
    var records: seq<Item>

    constructor (initial: seq<Item>)
      ensures records == initial
    {
      records := initial;
    }

    method Handle(req: Request, delivered: bool, newId: string)
      modifies this
      ensures records == if delivered then Apply(old(records), req, newId) else old(records)
    {
      if delivered {
        records := Apply(records, req, newId);
      }
    }
  }
}
