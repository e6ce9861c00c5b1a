/**
 * What the checklist page derives from its item list (the filter, the cost
 * sums, the completion percentage, the category options, the overdue flag)
 * and the requests its handlers build from the list and the form.
 */
module Checklist {
  import opened Wrappers
  import opened Text
  import opened Items

  /** The status selector of the filter bar. */
  datatype Status = All | Done | Pending

  /** The add form's inputs; `dueDate` is `None` while the date input is empty. */
  datatype Form = Form(
    text: string,
    quantity: int,
    category: string,
    priority: Priority,
    notes: string,
    unitCost: int,
    dueDate: Option<Day>)

  /** The form as the page starts and as a successful add leaves it. */
  const EmptyForm := Form("", 1, "", Medium, "", 0, None)

  // ---------------------------------------------------------------------------
  // Filtering

  /** An optional text field read as a string, `null` as "". */
  function OrEmpty(s: Option<string>): string {
    s.GetOr("")
  }

  /** Case-insensitive: the search term occurs in the label, the category or the notes. */
  predicate MatchesSearch(it: Item, term: string) {
    var t := LowerStr(term);
    Contains(LowerStr(it.name), t) || Contains(LowerStr(OrEmpty(it.category)), t)
      || Contains(LowerStr(OrEmpty(it.notes)), t)
  }

  /**
   * The search test as the page evaluates it: `||` stops at the first match,
   * and reading `toLowerCase` of a `null` category or notes throws (`None`).
   */
  function MatchesSearchAsWritten(it: Item, term: string): (r: Option<bool>)
    ensures r.Some? ==> r.value == MatchesSearch(it, term)
    ensures r.None? <==> (!Contains(LowerStr(it.name), LowerStr(term))
                          && (it.category.None? || (!Contains(LowerStr(it.category.value), LowerStr(term)) && it.notes.None?)))
  {
    var t := LowerStr(term);
    if Contains(LowerStr(it.name), t) then Some(true)
    else if it.category.None? then None
    else if Contains(LowerStr(it.category.value), t) then Some(true)
    else if it.notes.None? then None
    else Some(Contains(LowerStr(it.notes.value), t))
  }

  predicate MatchesCategory(it: Item, filterCategory: string) {
    filterCategory == "" || it.category == Some(filterCategory)
  }

  predicate MatchesStatus(it: Item, status: Status) {
    match status
    case All => true
    case Done => it.done
    case Pending => !it.done
  }

  /** An item is listed when it passes the search, the category test and the status test together. */
  predicate Keep(it: Item, term: string, filterCategory: string, status: Status) {
    MatchesSearch(it, term) && MatchesCategory(it, filterCategory) && MatchesStatus(it, status)
  }

  /** `filteredItems`, the list as shown. */
  function Filtered(items: seq<Item>, term: string, filterCategory: string, status: Status): (r: seq<Item>)
    ensures |r| <= |items|
    ensures forall i :: 0 <= i < |r| ==> Keep(r[i], term, filterCategory, status)
  {
    if items == [] then []
    else
      var head := if Keep(items[0], term, filterCategory, status) then [items[0]] else [];
      head + Filtered(items[1..], term, filterCategory, status)
  }

  lemma {:induction false} FilteredIsSubsequence(items: seq<Item>, term: string, cat: string, st: Status)
    ensures IsSubsequence(Filtered(items, term, cat, st), items)
  {
    if items != [] {
      var rest := Filtered(items[1..], term, cat, st);
      FilteredIsSubsequence(items[1..], term, cat, st);
      if Keep(items[0], term, cat, st) {
        assert ([items[0]] + rest)[1..] == rest;
      } else {
        assert Filtered(items, term, cat, st) == rest;
      }
    }
  }

  /** An item is listed exactly when it is in the list and passes all three tests. */
  lemma {:induction false} FilteredMembership(items: seq<Item>, term: string, cat: string, st: Status, x: Item)
    ensures x in Filtered(items, term, cat, st) <==> x in items && Keep(x, term, cat, st)
  {
    if items != [] {
      FilteredMembership(items[1..], term, cat, st, x);
      assert items == [items[0]] + items[1..];
    }
  }

  /** A record the tests pass is listed as many times as it occurs in `items`; one they reject, never. */
  lemma {:induction false} FilteredCounts(items: seq<Item>, term: string, cat: string, st: Status, x: Item)
    ensures multiset(Filtered(items, term, cat, st))[x] == if Keep(x, term, cat, st) then multiset(items)[x] else 0
  {
    if items != [] {
      FilteredCounts(items[1..], term, cat, st, x);
      assert items == [items[0]] + items[1..];
    }
  }

  /** An empty search term passes every item. */
  lemma EmptySearchMatches(it: Item)
    ensures MatchesSearch(it, "")
  {
    ContainsEmpty(LowerStr(it.name));
  }

  /** With the filters as Reset leaves them, every item is listed, in order. */
  lemma {:induction false} FilteredAfterReset(items: seq<Item>)
    ensures Filtered(items, "", "", All) == items
  {
    if items != [] {
      EmptySearchMatches(items[0]);
      FilteredAfterReset(items[1..]);
      assert items == [items[0]] + items[1..];
    }
  }

  /** Filtering by all three tests at once is filtering by each in turn. */
  lemma {:induction false} FilteredComposes(items: seq<Item>, term: string, cat: string, st: Status)
    ensures Filtered(items, term, cat, st)
         == Filtered(Filtered(Filtered(items, term, "", All), "", cat, All), "", "", st)
  {
    if items != [] {
      var x := items[0];
      EmptySearchMatches(x);
      FilteredComposes(items[1..], term, cat, st);
      var s1 := Filtered(items[1..], term, "", All);
      var s2 := Filtered(s1, "", cat, All);
      var lhs := Filtered(items[1..], term, cat, st);
      assert lhs == Filtered(s2, "", "", st);
      if MatchesSearch(x, term) {
        assert Filtered(items, term, "", All) == [x] + s1;
        assert ([x] + s1)[1..] == s1;
        if MatchesCategory(x, cat) {
          assert Filtered([x] + s1, "", cat, All) == [x] + s2;
          assert ([x] + s2)[1..] == s2;
          if MatchesStatus(x, st) {
            assert Filtered(items, term, cat, st) == [x] + lhs;
            assert Filtered([x] + s2, "", "", st) == [x] + Filtered(s2, "", "", st);
          } else {
            assert Filtered(items, term, cat, st) == lhs;
            assert Filtered([x] + s2, "", "", st) == Filtered(s2, "", "", st);
          }
        } else {
          assert Filtered(items, term, cat, st) == lhs;
          assert Filtered([x] + s1, "", cat, All) == s2;
        }
      } else {
        assert Filtered(items, term, cat, st) == lhs;
        assert Filtered(items, term, "", All) == s1;
      }
    }
  }

  // ---------------------------------------------------------------------------
  // Done and pending items

  /** `items.filter(item => item.done)`. */
  function DoneItems(items: seq<Item>): (r: seq<Item>)
    ensures |r| <= |items|
  {
    if items == [] then []
    else (if items[0].done then [items[0]] else []) + DoneItems(items[1..])
  }

  /** The items not yet done. */
  function PendingItems(items: seq<Item>): (r: seq<Item>)
    ensures |r| <= |items|
  {
    if items == [] then []
    else (if items[0].done then [] else [items[0]]) + PendingItems(items[1..])
  }

  /** The done items are the members that are done, the pending items the members that are not. */
  lemma {:induction false} DonePendingMembers(items: seq<Item>)
    ensures forall x :: x in DoneItems(items) <==> x in items && x.done
    ensures forall x :: x in PendingItems(items) <==> x in items && !x.done
  {
    if items != [] {
      DonePendingMembers(items[1..]);
      assert items == [items[0]] + items[1..];
    }
  }

  /** The status selector alone selects the done and the pending items. */
  lemma {:induction false} StatusFilterSelects(items: seq<Item>)
    ensures Filtered(items, "", "", Done) == DoneItems(items)
    ensures Filtered(items, "", "", Pending) == PendingItems(items)
  {
    if items != [] {
      EmptySearchMatches(items[0]);
      StatusFilterSelects(items[1..]);
    }
  }

  /** Every item is either done or pending. */
  lemma {:induction false} DonePendingSplit(items: seq<Item>)
    ensures |DoneItems(items)| + |PendingItems(items)| == |items|
  {
    if items != [] {
      DonePendingSplit(items[1..]);
    }
  }

  // ---------------------------------------------------------------------------
  // Costs

  /** The cost of one line: `unitCost * quantity`. */
  function LineCost(it: Item): int {
    it.unitCost * it.quantity
  }

  /** `totalCost`: the line costs summed over the list. */
  function TotalCost(items: seq<Item>): int {
    if items == [] then 0 else LineCost(items[0]) + TotalCost(items[1..])
  }

  /** `completedCost`: the line costs of the done items. */
  function CompletedCost(items: seq<Item>): int {
    TotalCost(DoneItems(items))
  }

  /** The "Sisa Biaya" card: `totalCost - completedCost`. */
  function RemainingCost(items: seq<Item>): int {
    TotalCost(items) - CompletedCost(items)
  }

  predicate NonNegativeCosts(items: seq<Item>) {
    forall i :: 0 <= i < |items| ==> items[i].unitCost >= 0 && items[i].quantity >= 0
  }

  lemma {:induction false} TotalCostConcat(a: seq<Item>, b: seq<Item>)
    ensures TotalCost(a + b) == TotalCost(a) + TotalCost(b)
  {
    if a != [] {
      TotalCostConcat(a[1..], b);
      assert (a + b)[0] == a[0];
      assert (a + b)[1..] == a[1..] + b;
    } else {
      assert a + b == b;
    }
  }

  /** The total splits into the cost of the done items and the cost of the pending ones. */
  lemma {:induction false} TotalCostSplits(items: seq<Item>)
    ensures TotalCost(items) == TotalCost(DoneItems(items)) + TotalCost(PendingItems(items))
  {
    if items != [] {
      TotalCostSplits(items[1..]);
      var d, p := DoneItems(items[1..]), PendingItems(items[1..]);
      if items[0].done {
        assert DoneItems(items) == [items[0]] + d;
        assert ([items[0]] + d)[1..] == d;
        assert PendingItems(items) == p;
      } else {
        assert PendingItems(items) == [items[0]] + p;
        assert ([items[0]] + p)[1..] == p;
        assert DoneItems(items) == d;
      }
    }
  }

  /** The remaining cost is the cost of the items not yet done. */
  lemma RemainingIsPendingCost(items: seq<Item>)
    ensures RemainingCost(items) == TotalCost(PendingItems(items))
  {
    TotalCostSplits(items);
  }

  lemma {:induction false} TotalCostNonNegative(items: seq<Item>)
    requires NonNegativeCosts(items)
    ensures TotalCost(items) >= 0
  {
    if items != [] {
      assert items[0].unitCost >= 0 && items[0].quantity >= 0;
      assert LineCost(items[0]) >= 0;
      assert NonNegativeCosts(items[1..]) by {
        forall i | 0 <= i < |items[1..]|
          ensures items[1..][i].unitCost >= 0 && items[1..][i].quantity >= 0
        {
          assert items[1..][i] == items[i + 1];
        }
      }
      TotalCostNonNegative(items[1..]);
    }
  }

  lemma NonNegativeCostsSubset(items: seq<Item>, sub: seq<Item>)
    requires NonNegativeCosts(items)
    requires forall x :: x in sub ==> x in items
    ensures NonNegativeCosts(sub)
  {
    forall i | 0 <= i < |sub|
      ensures sub[i].unitCost >= 0 && sub[i].quantity >= 0
    {
      assert sub[i] in items;
    }
  }

  /** With no negative price or quantity, `0 <= completedCost <= totalCost`. */
  lemma CostBounds(items: seq<Item>)
    requires NonNegativeCosts(items)
    ensures 0 <= CompletedCost(items) <= TotalCost(items)
    ensures 0 <= RemainingCost(items)
  {
    TotalCostSplits(items);
    DonePendingMembers(items);
    NonNegativeCostsSubset(items, DoneItems(items));
    NonNegativeCostsSubset(items, PendingItems(items));
    TotalCostNonNegative(DoneItems(items));
    TotalCostNonNegative(PendingItems(items));
  }

  // ---------------------------------------------------------------------------
  // Completion percentage

  /** `Math.round(100 * num / den)` on exact rationals: halves round up. */
  function RoundedPercent(num: nat, den: nat): (p: int)
    requires den > 0
    ensures den * (2 * p - 1) <= 200 * num < den * (2 * p + 1)
  {
    var q := (200 * num + den) / (2 * den);
    var m := (200 * num + den) % (2 * den);
    assert 200 * num + den == 2 * den * q + m;
    assert den * (2 * q - 1) == 2 * den * q - den;
    assert den * (2 * q + 1) == 2 * den * q + den;
    q
  }

  /** The number of done items. */
  function DoneCount(items: seq<Item>): (n: nat)
    ensures n <= |items|
  {
    |DoneItems(items)|
  }

  /** The progress badge: 0 for an empty list, else the rounded share of done items. */
  function CompletionPercent(items: seq<Item>): (p: int)
    ensures items == [] ==> p == 0
    ensures 0 <= p <= 100
    ensures items != [] ==> |items| * (2 * p - 1) <= 200 * DoneCount(items) < |items| * (2 * p + 1)
  {
    if |items| > 0 then
      var p := RoundedPercent(DoneCount(items), |items|);
      PercentInRange(DoneCount(items), |items|, p);
      p
    else 0
  }

  /** A share of at most the whole rounds to a value between 0 and 100. */
  lemma PercentInRange(num: nat, den: nat, p: int)
    requires 0 < den && num <= den
    requires den * (2 * p - 1) <= 200 * num < den * (2 * p + 1)
    ensures 0 <= p <= 100
  {
    PositiveFactor(den, 2 * p + 1);
    assert den * (2 * p - 1) <= den * 200;
    FactorBelow(den, 2 * p - 1, 200);
  }

  lemma PositiveFactor(a: int, b: int)
    requires a > 0 && a * b > 0
    ensures b > 0
  {
  }

  lemma FactorBelow(a: int, b: int, c: int)
    requires a > 0 && a * b <= a * c
    ensures b <= c
  {
  }

  // ---------------------------------------------------------------------------
  // Category options

  predicate NoDuplicates<T(==)>(s: seq<T>) {
    forall i, j :: 0 <= i < j < |s| ==> s[i] != s[j]
  }

  /** `items.map(item => item.category).filter(Boolean)`: the non-empty categories, with repeats. */
  function NamedCategories(items: seq<Item>): (r: seq<string>)
    ensures forall c :: c in r <==> c != "" && Some(c) in CategoriesOf(items)
  {
    if items == [] then []
    else
      var c := items[0].category;
      var rest := NamedCategories(items[1..]);
      assert CategoriesOf(items) == [c] + CategoriesOf(items[1..]);
      (if c.Some? && c.value != "" then [c.value] else []) + rest
  }

  /** The category of every item, in order. */
  function CategoriesOf(items: seq<Item>): (r: seq<Option<string>>)
    ensures |r| == |items| && forall i :: 0 <= i < |items| ==> r[i] == items[i].category
  {
    if items == [] then [] else [items[0].category] + CategoriesOf(items[1..])
  }

  /** `[...new Set(s)]`: each value once, at its first position. */
  function Distinct(s: seq<string>): (r: seq<string>)
    ensures NoDuplicates(r)
    ensures forall x :: x in r <==> x in s
  {
    if s == [] then []
    else
      var p := Distinct(s[..|s| - 1]);
      assert s == s[..|s| - 1] + [s[|s| - 1]];
      if s[|s| - 1] in p then p else p + [s[|s| - 1]]
  }

  /**
   * The options of the category selector: no repeats, no empty string, and
   * exactly the categories some item carries.
   */
  function CategoryOptions(items: seq<Item>): (r: seq<string>)
    ensures NoDuplicates(r)
    ensures forall c :: c in r ==> c != ""
    ensures forall c :: c in r <==> c != "" && exists i :: 0 <= i < |items| && items[i].category == Some(c)
  {
    var r := Distinct(NamedCategories(items));
    assert forall c :: Some(c) in CategoriesOf(items) <==> exists i :: 0 <= i < |items| && items[i].category == Some(c);
    r
  }

  // ---------------------------------------------------------------------------
  // Overdue

  const MsPerDay := 86_400_000

  /** `new Date("YYYY-MM-DD")`: midnight UTC of the day, in milliseconds. */
  function Midnight(d: Day): int {
    d * MsPerDay
  }

  /** The "Terlambat" badge: a due date is set, its midnight has passed (`now` in milliseconds), and the item is open. */
  predicate Overdue(it: Item, now: int) {
    it.dueDate.Some? && Midnight(it.dueDate.value) < now && !it.done
  }

  /**
   * On the day scale: an open item due before today is overdue, one due
   * after today is not, and one due today is overdue once the day has begun.
   */
  lemma OverdueByDay(it: Item, now: int)
    requires it.dueDate.Some? && !it.done
    ensures it.dueDate.value < now / MsPerDay ==> Overdue(it, now)
    ensures it.dueDate.value > now / MsPerDay ==> !Overdue(it, now)
    ensures it.dueDate.value == now / MsPerDay ==> (Overdue(it, now) <==> now % MsPerDay != 0)
  {
    var today := now / MsPerDay;
    assert now == today * MsPerDay + now % MsPerDay;
    var d := it.dueDate.value;
    if d < today {
      assert Midnight(d) <= (today - 1) * MsPerDay;
    } else if d > today {
      assert Midnight(d) >= (today + 1) * MsPerDay;
    }
  }

  /** Once overdue, an item stays overdue as time goes on. */
  lemma OverdueStays(it: Item, now: int, later: int)
    requires Overdue(it, now) && now <= later
    ensures Overdue(it, later)
  {
  }

  // ---------------------------------------------------------------------------
  // Requests built by the handlers

  /** `s || null` for a text field. */
  function OrNull(s: string): (r: Option<string>)
    ensures r.None? <==> s == ""
    ensures r.GetOr("") == s
  {
    if s == "" then None else Some(s)
  }

  /**
   * `addItem`: nothing for a blank label; otherwise the trimmed label, the
   * form's other values with empty texts and an empty date sent as `null`,
   * no photo, and `done: false`.
   */
  function AddDraft(f: Form): (r: Option<Draft>)
    ensures r.None? <==> AllWhite(f.text)
    ensures r.Some? ==> r.value.name == Trim(f.text) && r.value.name != ""
    ensures r.Some? ==> !IsWhite(r.value.name[0]) && !IsWhite(r.value.name[|r.value.name| - 1])
    ensures r.Some? ==> r.value.quantity == f.quantity && r.value.unitCost == f.unitCost
    ensures r.Some? ==> r.value.priority == Some(f.priority) && r.value.dueDate == f.dueDate
    ensures r.Some? ==> (r.value.category.None? <==> f.category == "")
    ensures r.Some? && r.value.category.Some? ==> r.value.category.value == f.category
    ensures r.Some? ==> (r.value.notes.None? <==> f.notes == "")
    ensures r.Some? && r.value.notes.Some? ==> r.value.notes.value == f.notes
    ensures r.Some? ==> r.value.photo.None? && r.value.done == Some(false)
  {
    var name := Trim(f.text);
    if name == "" then None
    else Some(Draft(name, f.quantity, OrNull(f.category), Some(f.priority), OrNull(f.notes),
                    f.unitCost, f.dueDate, None, Some(false)))
  }

  /** The request for a draft, if there is one. */
  function PostOf(d: Option<Draft>): Option<Request> {
    match d
    case Some(body) => Some(Post(body))
    case None => None
  }

  /** `items.find(item => item.id === id)`: the first item with that id. */
  function FindItem(items: seq<Item>, id: string): (r: Option<Item>)
    ensures r.None? <==> forall i :: 0 <= i < |items| ==> items[i].id != id
    ensures r.Some? ==> exists k :: (0 <= k < |items| && items[k] == r.value && items[k].id == id
                                     && forall j :: 0 <= j < k ==> items[j].id != id)
  {
    if items == [] then None
    else if items[0].id == id then Some(items[0])
    else
      var r := FindItem(items[1..], id);
      assert forall j :: 0 < j < |items| ==> items[j] == items[1..][j - 1];
      r
  }

  /** With unique ids, the item found is the one stored under that id. */
  lemma FindUnique(items: seq<Item>, k: nat)
    requires UniqueIds(items) && k < |items|
    ensures FindItem(items, items[k].id) == Some(items[k])
  {
  }

  /** The record `toggleItem` sends: the item with `done` flipped. */
  function Toggled(it: Item): (r: Item)
    ensures r.done != it.done && r.(done := it.done) == it
  {
    it.(done := !it.done)
  }

  /** `toggleItem(id)`: nothing for an unknown id, else `PUT` of the found item with `done` flipped. */
  function ToggleRequest(items: seq<Item>, id: string): (r: Option<Request>)
    ensures r.None? <==> forall i :: 0 <= i < |items| ==> items[i].id != id
    ensures r.Some? ==> r.value.Put? && r.value.id == id && r.value.record.id == id
    ensures r.Some? ==> exists k :: 0 <= k < |items| && items[k].id == id && r.value.record == Toggled(items[k])
  {
    match FindItem(items, id)
    case None => None
    case Some(it) => Some(Put(id, Toggled(it)))
  }

  /** `Partial<Item>`: a value for each key the update names. */
  datatype Patch = Patch(
    id: Option<string>,
    name: Option<string>,
    quantity: Option<int>,
    category: Option<Option<string>>,
    priority: Option<Priority>,
    notes: Option<Option<string>>,
    unitCost: Option<int>,
    dueDate: Option<Option<Day>>,
    photo: Option<Option<string>>,
    done: Option<bool>)

  const NoChanges := Patch(None, None, None, None, None, None, None, None, None, None)

  /** `{ quantity: q }`. */
  function QuantityChange(q: int): Patch {
    NoChanges.(quantity := Some(q))
  }

  /** `{ ...item, ...updates }`: a key the update names takes its value, every other key keeps the item's. */
  function Merge(it: Item, p: Patch): Item {
    Item(p.id.GetOr(it.id), p.name.GetOr(it.name), p.quantity.GetOr(it.quantity),
         p.category.GetOr(it.category), p.priority.GetOr(it.priority), p.notes.GetOr(it.notes),
         p.unitCost.GetOr(it.unitCost), p.dueDate.GetOr(it.dueDate), p.photo.GetOr(it.photo),
         p.done.GetOr(it.done))
  }

  /** `{ ...p, ...q }`: two updates in one, the later winning. */
  function Combine(p: Patch, q: Patch): Patch {
    Patch(if q.id.Some? then q.id else p.id, if q.name.Some? then q.name else p.name,
          if q.quantity.Some? then q.quantity else p.quantity,
          if q.category.Some? then q.category else p.category,
          if q.priority.Some? then q.priority else p.priority,
          if q.notes.Some? then q.notes else p.notes,
          if q.unitCost.Some? then q.unitCost else p.unitCost,
          if q.dueDate.Some? then q.dueDate else p.dueDate,
          if q.photo.Some? then q.photo else p.photo,
          if q.done.Some? then q.done else p.done)
  }

  /** An empty update changes nothing; a quantity update changes the quantity and nothing else. */
  lemma MergeNoChanges(it: Item, q: int)
    ensures Merge(it, NoChanges) == it
    ensures Merge(it, QuantityChange(q)) == it.(quantity := q)
  {
  }

  /** Merging twice is merging the combined update; merging the same update again changes nothing. */
  lemma MergeCombine(it: Item, p: Patch, q: Patch)
    ensures Merge(Merge(it, p), q) == Merge(it, Combine(p, q))
    ensures Merge(Merge(it, p), p) == Merge(it, p)
  {
  }

  /** `updateItem(id, updates)`: nothing for an unknown id, else `PUT` of the found item merged with the update. */
  function UpdateRequest(items: seq<Item>, id: string, p: Patch): (r: Option<Request>)
    ensures r.None? <==> forall i :: 0 <= i < |items| ==> items[i].id != id
    ensures r.Some? ==> r.value.Put? && r.value.id == id
    ensures r.Some? ==> exists k :: 0 <= k < |items| && items[k].id == id && r.value.record == Merge(items[k], p)
  {
    match FindItem(items, id)
    case None => None
    case Some(it) => Some(Put(id, Merge(it, p)))
  }

  /** The minus button on the row of `it`: lower the quantity by one while it stays positive, else delete. */
  function DecrementRequest(items: seq<Item>, it: Item): Option<Request> {
    var q := it.quantity - 1;
    if q > 0 then UpdateRequest(items, it.id, QuantityChange(q)) else Some(Delete(it.id))
  }

  /** The plus button on the row of `it`: raise the quantity by one. */
  function IncrementRequest(items: seq<Item>, it: Item): Option<Request> {
    UpdateRequest(items, it.id, QuantityChange(it.quantity + 1))
  }

  /**
   * The minus button never sends a quantity below one: it either writes
   * `quantity - 1 > 0` over the item stored under that id, changing nothing
   * else, or deletes the item.
   */
  lemma DecrementNeverSendsNonPositive(items: seq<Item>, it: Item)
    requires it in items
    ensures DecrementRequest(items, it).Some?
    ensures match DecrementRequest(items, it)
      case Some(Put(id, rec)) =>
        id == it.id && rec.quantity == it.quantity - 1 > 0
        && exists k :: 0 <= k < |items| && items[k].id == id && rec == items[k].(quantity := rec.quantity)
      case Some(Delete(id)) => id == it.id && it.quantity <= 1
      case _ => false
  {
    var q := it.quantity - 1;
    if q > 0 {
      var r := UpdateRequest(items, it.id, QuantityChange(q));
      assert r.Some?;
      var k :| 0 <= k < |items| && items[k].id == it.id && r.value.record == Merge(items[k], QuantityChange(q));
      MergeNoChanges(items[k], q);
    }
  }

  /** After a successful minus press, nothing stored under that id has a quantity of zero or less. */
  lemma DecrementLeavesNoNonPositive(items: seq<Item>, it: Item, records: seq<Item>, newId: string)
    requires it in items
    ensures forall x :: x in Apply(records, DecrementRequest(items, it).value, newId) && x.id == it.id ==> x.quantity > 0
  {
    DecrementNeverSendsNonPositive(items, it);
    match DecrementRequest(items, it).value
    case Put(id, rec) =>
      var r := Replace(records, id, rec);
      forall x | x in r && x.id == it.id
        ensures x.quantity > 0
      {
        var i :| 0 <= i < |r| && r[i] == x;
      }
    case Delete(id) =>
  }

  /** The plus button writes `quantity + 1` over the stored item and changes nothing else. */
  lemma IncrementSendsNext(items: seq<Item>, it: Item)
    requires it in items
    ensures match IncrementRequest(items, it)
      case Some(Put(id, rec)) =>
        id == it.id && rec.quantity == it.quantity + 1
        && exists k :: 0 <= k < |items| && items[k].id == id && rec == items[k].(quantity := rec.quantity)
      case _ => false
  {
    var r := IncrementRequest(items, it);
    var k :| 0 <= k < |items| && items[k].id == it.id && r.value.record == Merge(items[k], QuantityChange(it.quantity + 1));
    MergeNoChanges(items[k], it.quantity + 1);
  }

  /**
   * With unique ids, a successful toggle flips `done` of the one item stored
   * under `id`; every other item, and every other field, is as it was.
   */
  lemma ToggleChangesOneItem(items: seq<Item>, k: nat, newId: string)
    requires UniqueIds(items) && k < |items|
    ensures ToggleRequest(items, items[k].id).Some?
    ensures Apply(items, ToggleRequest(items, items[k].id).value, newId) == items[k := Toggled(items[k])]
  {
    FindUnique(items, k);
    ReplaceUnique(items, k, Toggled(items[k]));
  }

  /**
   * With unique ids, a successful update writes the merged record over the
   * one item stored under `id`; every other item is as it was.
   */
  lemma UpdateChangesOneItem(items: seq<Item>, k: nat, p: Patch, newId: string)
    requires UniqueIds(items) && k < |items| && p.id.None?
    ensures UpdateRequest(items, items[k].id, p).Some?
    ensures Apply(items, UpdateRequest(items, items[k].id, p).value, newId) == items[k := Merge(items[k], p)]
  {
    FindUnique(items, k);
    ReplaceUnique(items, k, Merge(items[k], p));
  }

  /** A successful add raises the total cost by the new line's cost and leaves the completed cost alone. */
  lemma AddRaisesTotal(records: seq<Item>, f: Form, newId: string)
    requires AddDraft(f).Some?
    ensures TotalCost(Apply(records, Post(AddDraft(f).value), newId)) == TotalCost(records) + f.unitCost * f.quantity
    ensures CompletedCost(Apply(records, Post(AddDraft(f).value), newId)) == CompletedCost(records)
  {
    var it := Created(AddDraft(f).value, newId);
    TotalCostConcat(records, [it]);
    DoneItemsConcat(records, [it]);
    assert DoneItems([it]) == [];
    assert DoneItems(records) + [] == DoneItems(records);
  }

  lemma {:induction false} DoneItemsConcat(a: seq<Item>, b: seq<Item>)
    ensures DoneItems(a + b) == DoneItems(a) + DoneItems(b)
  {
    if a == [] {
      assert a + b == b;
    } else {
      var x, a' := a[0], a[1..];
      assert a == [x] + a';
      assert a + b == [x] + (a' + b);
      DoneItemsConcat(a', b);
      DoneItemsCons(x, a');
      DoneItemsCons(x, a' + b);
    }
  }

  lemma DoneItemsCons(x: Item, s: seq<Item>)
    ensures DoneItems([x] + s) == (if x.done then [x] else []) + DoneItems(s)
  {
    assert ([x] + s)[1..] == s;
  }

  /**
   * The search as the page evaluates it fails on a record that the add
   * form created with an empty category, as soon as the term is not in the
   * label: `addItem` sends `category: null`, and the filter then reads
   * `toLowerCase` of it.
   */
  lemma {:induction false} SearchFailsOnAddedItem(f: Form, id: string, term: string)
    requires !AllWhite(f.text) && f.category == ""
    requires !Contains(LowerStr(Trim(f.text)), LowerStr(term))
    ensures AddDraft(f).Some?
    ensures MatchesSearchAsWritten(Created(AddDraft(f).value, id), term).None?
  {
  }

  /**
   * Read with `null` as the empty string, a record without a category is
   * found by its label or its notes, and a record without category or notes
   * by its label alone.
   */
  lemma {:induction false} SearchCorrected(it: Item, term: string)
    ensures it.category.None? && it.notes.Some? ==>
      (MatchesSearch(it, term) <==> term == "" || Contains(LowerStr(it.name), LowerStr(term)) || Contains(LowerStr(it.notes.value), LowerStr(term)))
    ensures it.category.None? && it.notes.None? ==> (MatchesSearch(it, term) <==> term == "" || Contains(LowerStr(it.name), LowerStr(term)))
  {
    if it.category.None? && term != "" {
      var t := LowerStr(term);
      assert |t| > 0;
      assert !StartsWith("", t);
      assert !Contains("", t);
    } else if term == "" {
      EmptySearchMatches(it);
    }
  }
}
