/** The trash screen (src/components/trash/TrashTable.tsx): which deleted
    items are listed (search, type filter, two-month window), restore,
    permanent delete and the type labels. Dates are local calendar times;
    the clock is a parameter, read once per listed item. */
module Trash {
  import opened Wrappers
  import opened JsText
  import opened SeqOps

  // ---- calendar ----

  /** A local date and time: month 1-12, day of month, milliseconds since
      midnight. */
  datatype DateTime = DateTime(year: int, month: int, day: int, msOfDay: int)

  const MsPerDay: int := 86400000

  predicate IsLeapYear(y: int) {
    (y % 4 == 0 && y % 100 != 0) || y % 400 == 0
  }

  function DaysInMonth(y: int, m: int): (n: int)
    ensures 28 <= n <= 31
  {
    if m == 2 then (if IsLeapYear(y) then 29 else 28)
    else if m == 4 || m == 6 || m == 9 || m == 11 then 30
    else 31
  }

  predicate ValidDateTime(d: DateTime) {
    && 1 <= d.month <= 12
    && 1 <= d.day <= DaysInMonth(d.year, d.month)
    && 0 <= d.msOfDay < MsPerDay
  }

  /** Months since year 0, January. */
  function MonthIndex(d: DateTime): int {
    d.year * 12 + (d.month - 1)
  }

  /** Time order: `a < b` on the timestamps. */
  predicate Before(a: DateTime, b: DateTime) {
    || MonthIndex(a) < MonthIndex(b)
    || (MonthIndex(a) == MonthIndex(b) && a.day < b.day)
    || (MonthIndex(a) == MonthIndex(b) && a.day == b.day && a.msOfDay < b.msOfDay)
  }

  function Min(a: int, b: int): int {
    if a <= b then a else b
  }

  /** date-fns `subMonths(d, n)`: the same day and time `n` months
      earlier, clamped to the last day of a shorter month. */
  function SubMonths(d: DateTime, n: int): (r: DateTime)
    requires ValidDateTime(d)
    ensures ValidDateTime(r)
    ensures MonthIndex(r) == MonthIndex(d) - n
    ensures r.day == Min(d.day, DaysInMonth(r.year, r.month)) && r.msOfDay == d.msOfDay
  {
    var t := MonthIndex(d) - n;
    var y, m := t / 12, t % 12 + 1;
    DateTime(y, m, Min(d.day, DaysInMonth(y, m)), d.msOfDay)
  }

  /** Going further back gives an earlier time: the later the month, the
      later the date. */
  lemma SubMonthsIsMonotone(d: DateTime, n1: int, n2: int)
    requires ValidDateTime(d) && n1 < n2
    ensures Before(SubMonths(d, n2), SubMonths(d, n1))
  {
  }

  /** The edge of the retention window: two months before now. */
  function TwoMonthsAgo(now: DateTime): (cutoff: DateTime)
    requires ValidDateTime(now)
    ensures Before(cutoff, now)
  {
    SubMonthsIsMonotone(now, 0, 2);
    assert SubMonths(now, 0) == now;
    SubMonths(now, 2)
  }

  // ---- items ----

  datatype ItemType = CustomerItem | InvoiceItem | CollectionRuleItem

  /** The stored type string, which is also the type filter's value. */
  function TypeKey(t: ItemType): string {
    match t
    case CustomerItem => "customer"
    case InvoiceItem => "invoice"
    case CollectionRuleItem => "collection_rule"
  }

  datatype DeletedItem = DeletedItem(id: string, name: string, itemType: ItemType, deletedAt: DateTime)

  function ItemId(item: DeletedItem): string {
    item.id
  }

  const AllTypes: string := "all"

  /** The three tests of `filteredItems`. */
  predicate Listed(item: DeletedItem, term: string, typeFilter: string, now: DateTime)
    requires ValidDateTime(now)
  {
    && IncludesIgnoringCase(item.name, term)
    && (typeFilter == AllTypes || TypeKey(item.itemType) == typeFilter)
    && !Before(item.deletedAt, TwoMonthsAgo(now))
  }

  /** A clock read once per item: `clock(i)` is the `new Date()` of the
      callback run for the i-th item. */
  predicate ValidClock(clock: nat -> DateTime, n: nat) {
    forall i :: 0 <= i < n ==> ValidDateTime(clock(i))
  }

  /** `filteredItems`: each item is tested against its own reading of the
      clock, and the listed items keep their order. */
  function FilteredItems(items: seq<DeletedItem>, term: string, typeFilter: string,
                         clock: nat -> DateTime): (r: seq<DeletedItem>)
    requires ValidClock(clock, |items|)
    ensures |r| <= |items|
    ensures forall x :: x in r <==>
      exists i :: 0 <= i < |items| && items[i] == x && Listed(items[i], term, typeFilter, clock(i))
    decreases |items|
  {
    if |items| == 0 then []
    else
      var n := |items| - 1;
      var rest := FilteredItems(items[..n], term, typeFilter, clock);
      assert forall i :: 0 <= i < n ==> items[..n][i] == items[i];
      if Listed(items[n], term, typeFilter, clock(n)) then rest + [items[n]] else rest
  }

  /** Read at a single instant, the clock makes `filteredItems` the plain
      filter on the three tests. */
  lemma {:induction false} OneInstantIsPlainFilter(items: seq<DeletedItem>, term: string,
                                                   typeFilter: string, now: DateTime)
    requires ValidDateTime(now)
    ensures FilteredItems(items, term, typeFilter, (_: nat) => now) ==
            Filter(items, (item: DeletedItem) => Listed(item, term, typeFilter, now))
    decreases |items|
  {
    var p := (item: DeletedItem) => Listed(item, term, typeFilter, now);
    if |items| > 0 {
      var n := |items| - 1;
      OneInstantIsPlainFilter(items[..n], term, typeFilter, now);
      assert items == items[..n] + [items[n]];
      FilterAppend(items[..n], [items[n]], p);
      assert [items[n]][1..] == [];
    }
  }

  /** An item deleted before the cutoff of every reading of the clock is
      never listed, whatever the search and the type filter. */
  lemma ExpiredItemsAreHidden(items: seq<DeletedItem>, term: string, typeFilter: string,
                              clock: nat -> DateTime, x: DeletedItem)
    requires ValidClock(clock, |items|)
    requires forall i :: 0 <= i < |items| ==> Before(x.deletedAt, SubMonths(clock(i), 2))
    ensures x !in FilteredItems(items, term, typeFilter, clock)
  {
  }

  /** An item deleted within the month before its own reading of the clock
      is listed under "all" with an empty search. */
  lemma RecentItemsAreListed(items: seq<DeletedItem>, clock: nat -> DateTime, i: nat)
    requires ValidClock(clock, |items|)
    requires i < |items| && !Before(items[i].deletedAt, SubMonths(clock(i), 1))
    ensures items[i] in FilteredItems(items, "", AllTypes, clock)
  {
    SubMonthsIsMonotone(clock(i), 1, 2);
    EmptyTermMatches(items[i].name);
  }

  /** The type filter "customer" lists only customers. */
  lemma TypeFilterSelectsOneType(items: seq<DeletedItem>, term: string, clock: nat -> DateTime)
    requires ValidClock(clock, |items|)
    ensures forall x :: x in FilteredItems(items, term, "customer", clock) ==> x.itemType == CustomerItem
  {
  }

  // ---- restore and permanent delete ----

  /** The list after the action, and the description of the notice shown
      when an item was found. */
  datatype TrashUpdate = TrashUpdate(items: seq<DeletedItem>, notice: Option<string>)

  function HasItemId(id: string): DeletedItem -> bool {
    (item: DeletedItem) => item.id == id
  }

  /** The shared body of `handleRestore` and `handlePermanentDelete`: find
      the first item with the id; when found, drop every item with that id.
      The found item's name is returned for the notice. */
  function RemoveFromTrash(items: seq<DeletedItem>, id: string): (u: (seq<DeletedItem>, Option<string>))
    ensures u.1.None? <==> forall i :: 0 <= i < |items| ==> items[i].id != id
    ensures u.1.Some? ==> exists i :: 0 <= i < |items| && items[i].id == id && u.1.value == items[i].name &&
                                      (forall j :: 0 <= j < i ==> items[j].id != id)
    ensures u.0 == RemoveWhere(items, ItemId, id)
    ensures u.1.None? ==> u.0 == items
  {
    match FindIndex(items, HasItemId(id))
    case None =>
      RemoveAbsent(items, ItemId, id);
      (items, None)
    case Some(i) => (RemoveWhere(items, ItemId, id), Some(items[i].name))
  }

  function Quoted(name: string): string {
    "\"" + name + "\""
  }

  /** `handleRestore(id)`. */
  function Restore(items: seq<DeletedItem>, id: string): (u: TrashUpdate)
    ensures forall x :: x in u.items <==> (x in items && x.id != id)
    ensures u.notice.None? <==> forall i :: 0 <= i < |items| ==> items[i].id != id
    ensures u.notice.None? ==> u.items == items
    ensures u.notice.Some? ==>
      exists i :: 0 <= i < |items| && items[i].id == id && u.notice.value == Quoted(items[i].name) + " foi restaurado com sucesso." &&
                  (forall j :: 0 <= j < i ==> items[j].id != id)
  {
    var (rest, found) := RemoveFromTrash(items, id);
    TrashUpdate(rest, if found.Some? then Some(Quoted(found.value) + " foi restaurado com sucesso.") else None)
  }

  /** `handlePermanentDelete(id)`. */
  function PermanentDelete(items: seq<DeletedItem>, id: string): (u: TrashUpdate)
    ensures forall x :: x in u.items <==> (x in items && x.id != id)
    ensures u.notice.None? <==> forall i :: 0 <= i < |items| ==> items[i].id != id
    ensures u.notice.None? ==> u.items == items
    ensures u.notice.Some? ==>
      exists i :: 0 <= i < |items| && items[i].id == id && u.notice.value == Quoted(items[i].name) + " foi excluído permanentemente." &&
                  (forall j :: 0 <= j < i ==> items[j].id != id)
  {
    var (rest, found) := RemoveFromTrash(items, id);
    TrashUpdate(rest, if found.Some? then Some(Quoted(found.value) + " foi excluído permanentemente.") else None)
  }

  /** Restore and permanent delete do the same to the list; only the notice
      differs. */
  lemma RestoreAndDeleteAgree(items: seq<DeletedItem>, id: string)
    ensures Restore(items, id).items == PermanentDelete(items, id).items
    ensures Restore(items, id).notice.Some? <==> PermanentDelete(items, id).notice.Some?
  {
  }

  /** Restoring a unique id removes just that position, keeping the order. */
  lemma RestoreUniqueItem(items: seq<DeletedItem>, i: int)
    requires 0 <= i < |items|
    requires forall j :: 0 <= j < |items| && j != i ==> items[j].id != items[i].id
    ensures Restore(items, items[i].id).items == items[..i] + items[i + 1..]
  {
    RemoveUniqueAt(items, ItemId, items[i].id, i);
  }

  // ---- labels ----

  /** `getItemTypeName(type)`: a label for each known type, the raw value
      otherwise. */
  function ItemTypeName(typeKey: string): (name: string)
    ensures typeKey == "customer" ==> name == "Cliente"
    ensures typeKey == "invoice" ==> name == "Fatura"
    ensures typeKey == "collection_rule" ==> name == "Modelo de Cobrança"
    ensures (forall t: ItemType :: TypeKey(t) != typeKey) ==> name == typeKey
  {
    assert TypeKey(CustomerItem) == "customer" && TypeKey(InvoiceItem) == "invoice";
    assert TypeKey(CollectionRuleItem) == "collection_rule";
    if typeKey == "customer" then "Cliente"
    else if typeKey == "invoice" then "Fatura"
    else if typeKey == "collection_rule" then "Modelo de Cobrança"
    else typeKey
  }

  /** Each of the three types gets its own label, which is not its raw key. */
  lemma TypeNamesAreDistinct(s: ItemType, t: ItemType)
    ensures ItemTypeName(TypeKey(s)) != TypeKey(s)
    ensures s != t ==> ItemTypeName(TypeKey(s)) != ItemTypeName(TypeKey(t))
  {
  }
}
