/** `inventory` and the family totals of the cache report: a paginated listing counted exactly or not at all. */
module CacheInventory {
  import opened Prelude

  const MAX_SAFE: int := 0x1f_ffff_ffff_ffff
  const PAGE_SIZE: nat := 100

  predicate Natural(n: int) { 0 <= n <= MAX_SAFE }

  datatype Entry = Junk | Entry(id: int, key: string, size: int)

  predicate Valid(e: Entry) { e.Entry? && Natural(e.id) && e.id != 0 && e.key != "" && Natural(e.size) }

  /** What the service answers for a page: nothing in time, no listing, or a count and a batch. */
  datatype Page = Unavailable | Malformed | Page(total: int, batch: seq<Entry>)

  type Listing = nat -> Page

  // ---- Entries in order ------------------------------------------------------------------------------------

  datatype Entries = Empty | And(before: Entries, last: Entry)

  function Count(es: Entries): nat { if es.Empty? then 0 else Count(es.before) + 1 }

  function Sum(es: Entries): int {
    if es.Empty? then 0 else Sum(es.before) + if es.last.Entry? then es.last.size else 0
  }

  function Ids(es: Entries): set<int> {
    if es.Empty? then {} else Ids(es.before) + {if es.last.Entry? then es.last.id else 0}
  }

  /** Entries that can be counted: each valid and with a new ID, and a byte total that stays safe. */
  predicate Countable(es: Entries) {
    es.And? ==>
      Countable(es.before) && Valid(es.last) && es.last.id !in Ids(es.before) && Natural(Sum(es.before) + es.last.size)
  }

  /** No two countable entries have the same ID: there are as many IDs as entries. */
  lemma {:induction false} IdsDistinct(es: Entries)
    requires Countable(es)
    ensures |Ids(es)| == Count(es) && Natural(Sum(es))
  {
    if es.And? { IdsDistinct(es.before); }
  }

  /** The entries in order, as the report walks them. */
  function Values(es: Entries): (s: seq<Entry>)
    ensures |s| == Count(es)
  {
    if es.Empty? then [] else Values(es.before) + [es.last]
  }

  /** The entries with the first `n` of a batch added. */
  function Add(es: Entries, batch: seq<Entry>, n: nat): Entries
    requires n <= |batch|
  {
    if n == 0 then es else And(Add(es, batch, n - 1), batch[n - 1])
  }

  lemma {:induction false} AddCount(es: Entries, batch: seq<Entry>, n: nat)
    requires n <= |batch|
    ensures Count(Add(es, batch, n)) == Count(es) + n && (Countable(Add(es, batch, n)) ==> Countable(es))
  {
    if n > 0 { AddCount(es, batch, n - 1); }
  }

  /** The entries, and those of the first `n` of a batch that can be counted after them. */
  function Keep(es: Entries, batch: seq<Entry>, n: nat): Entries
    requires n <= |batch|
  {
    if n == 0 then es
    else
      var kept := Keep(es, batch, n - 1);
      if Fits(kept, batch[n - 1]) then And(kept, batch[n - 1]) else kept
  }

  predicate Fits(es: Entries, e: Entry) {
    Sane(e) && e.id !in Ids(es) && 0 <= Sum(es) + e.size <= MAX_SAFE
  }

  /** A positive ID, a key and a size, and the numbers safe. */
  predicate Sane(e: Entry) {
    e.Entry? && 1 <= e.id <= MAX_SAFE && e.key != "" && 0 <= e.size <= MAX_SAFE
  }

  predicate AllSane(s: seq<Entry>) {
    && (forall i :: 0 <= i < |s| ==> Sane(s[i]))
    && (forall i, j :: 0 <= i < j < |s| ==> s[i].id != s[j].id)
  }

  predicate Uses(s: seq<Entry>, id: int) { exists i :: 0 <= i < |s| && s[i].Entry? && s[i].id == id }

  lemma SaneSnoc(s: seq<Entry>, e: Entry)
    ensures AllSane(s + [e]) <==> AllSane(s) && Sane(e) && !Uses(s, e.id)
  {
    var more := s + [e];
    assert more[|s|] == e && forall i :: 0 <= i < |s| ==> more[i] == s[i];
  }

  lemma {:induction false} IdsAre(es: Entries, id: int)
    requires AllSane(Values(es))
    ensures id in Ids(es) <==> Uses(Values(es), id)
    ensures Sum(es) >= 0
  {
    if es.And? {
      var s := Values(es.before);
      SaneSnoc(s, es.last);
      IdsAre(es.before, id);
      var more := s + [es.last];
      assert more[|s|] == es.last && forall i :: 0 <= i < |s| ==> more[i] == s[i];
    }
  }

  /** Entries are countable exactly when each has an ID of its own, a key and a size, and the sizes add up to a
      safe number. */
  lemma {:induction false} CountableExactly(es: Entries)
    ensures Countable(es) <==> AllSane(Values(es)) && Sum(es) <= MAX_SAFE
  {
    if es.And? {
      CountableExactly(es.before);
      SaneSnoc(Values(es.before), es.last);
      if AllSane(Values(es.before)) && es.last.Entry? { IdsAre(es.before, es.last.id); }
    }
  }

  // ---- Listings that can be counted ------------------------------------------------------------------------

  /** The entries of the first `k` pages. */
  function All(list: Listing, k: nat): Entries {
    if k == 0 then Empty
    else if list(k).Page? then Add(All(list, k - 1), list(k).batch, |list(k).batch|) else All(list, k - 1)
  }

  /** The count the first page reports. */
  function Total(list: Listing): int { if list(1).Page? then list(1).total else -1 }

  predicate PageOk(list: Listing, k: nat) {
    list(k).Page? && Natural(list(k).total) && list(k).total == Total(list) && |list(k).batch| <= PAGE_SIZE
  }

  predicate Full(list: Listing, k: nat) { list(k).Page? && |list(k).batch| == PAGE_SIZE }

  /** Page `k` completes the listing: pages 1 to `k` agree on the count, all but the last are full, and they
      hold exactly that many entries, all countable. */
  predicate Completes(list: Listing, k: nat) {
    && k >= 1 && (forall p :: 1 <= p <= k ==> PageOk(list, p)) && (forall p :: 1 <= p < k ==> Full(list, p))
    && Count(All(list, k)) == Total(list) && Countable(All(list, k))
  }

  /** Fewer pages hold no more entries, and are countable if more pages are. */
  lemma {:induction false} AllGrows(list: Listing, j: nat, k: nat)
    requires j <= k
    ensures Count(All(list, j)) <= Count(All(list, k)) && (Countable(All(list, k)) ==> Countable(All(list, j)))
    decreases k
  {
    if j < k {
      AllGrows(list, j, k - 1);
      if list(k).Page? { AddCount(All(list, k - 1), list(k).batch, |list(k).batch|); }
    }
  }

  /** What it takes of page `p` for that or a later page to complete the listing. */
  lemma CompletesMeans(list: Listing, p: nat, k: nat)
    requires 1 <= p <= k && Completes(list, k)
    ensures PageOk(list, p) && Countable(All(list, p)) && Count(All(list, p)) <= Total(list)
    ensures if k == p then Count(All(list, p)) == Total(list) else Full(list, p)
  {
    AllGrows(list, p, k);
  }

  /** All pages before `p` are fine and full, and did not complete the listing. */
  predicate Onward(list: Listing, p: nat) {
    && p >= 1
    && (forall q :: 1 <= q < p ==> PageOk(list, q) && Full(list, q))
    && Countable(All(list, p - 1)) && (p > 1 ==> Count(All(list, p - 1)) < Total(list))
  }

  /** Page `p` cannot be part of a complete listing, or is the last that may be read and not its end. */
  predicate Dead(list: Listing, p: nat, maxPages: int) {
    || !PageOk(list, p) || !Countable(All(list, p)) || Count(All(list, p)) > Total(list)
    || (Count(All(list, p)) != Total(list) && (!Full(list, p) || maxPages <= p))
  }

  lemma NoneAtAll(list: Listing, p: nat, maxPages: int)
    requires Onward(list, p) && Dead(list, p, maxPages)
    ensures forall k :: 1 <= k <= maxPages ==> !Completes(list, k)
  {
    forall k | 1 <= k <= maxPages
      ensures !Completes(list, k)
    {
      if k < p { AllGrows(list, k, p - 1); } else if Completes(list, k) { CompletesMeans(list, p, k); }
    }
  }

  /** The entries counted when page `k` is the last one looked at. */
  function Kept(list: Listing, k: nat): Entries
    requires k >= 1
  {
    if list(k).Page? && 0 <= list(k).total <= MAX_SAFE && |list(k).batch| <= 100
    then Keep(All(list, k - 1), list(k).batch, |list(k).batch|) else All(list, k - 1)
  }

  /** The listing is read to page `k`, where it is complete or cannot become so. */
  predicate StopsAt(list: Listing, maxPages: int, k: nat) {
    1 <= k <= maxPages && Onward(list, k) && (Completes(list, k) || Dead(list, k, maxPages))
  }

  // ---- Counting --------------------------------------------------------------------------------------------

  datatype Inventory = Inventory(entries: Entries, totalBytes: int, expected: Option<int>, complete: bool,
                                 pages: int, problems: nat)

  /** Complete exactly when some page within the limit completes the listing, and then with exactly the
      entries listed; complete exactly when there is no problem, unless no page may be read at all. Whatever
      was counted, complete or not, has distinct IDs and the reported byte total. */
  ghost predicate IsInventory(list: Listing, maxPages: int, r: Inventory) {
    && (r.complete <==> exists k :: 1 <= k <= maxPages && Completes(list, k))
    && (r.complete ==> && r.pages >= 1 && Completes(list, r.pages) && r.entries == All(list, r.pages)
                       && r.expected == Some(Count(r.entries)))
    && (maxPages >= 1 <==> (r.complete <==> r.problems == 0))
    && Countable(r.entries) && r.totalBytes == Sum(r.entries)
    && (if maxPages < 1 then r == Inventory(Empty, 0, None, false, 0, 0)
        else exists k :: IsCounted(list, maxPages, r, k))
  }

  /** What is counted when the reading stops at page `k`: everything before, and of that page what can be. */
  predicate IsCounted(list: Listing, maxPages: int, r: Inventory, k: nat) {
    && StopsAt(list, maxPages, k) && r.entries == Kept(list, k)
    && r.pages == (if list(k).Unavailable? then k - 1 else k)
    && r.expected == (if list(1).Page? && 0 <= list(1).total <= MAX_SAFE then Some(list(1).total) else None)
  }

  lemma Halted(list: Listing, p: nat, maxPages: int, r: Inventory)
    requires Onward(list, p) && p <= maxPages && Dead(list, p, maxPages) && !r.complete && r.problems > 0
    requires Countable(r.entries) && r.totalBytes == Sum(r.entries) && IsCounted(list, maxPages, r, p)
    ensures IsInventory(list, maxPages, r)
  {
    NoneAtAll(list, p, maxPages);
  }

  lemma EndsHere(list: Listing, p: nat)
    requires Onward(list, p) && PageOk(list, p)
    requires Countable(All(list, p)) && Count(All(list, p)) == Total(list)
    ensures Completes(list, p)
  {
  }

  lemma Finished(list: Listing, p: nat, maxPages: int, r: Inventory)
    requires 1 <= p <= maxPages && Completes(list, p) && r.entries == All(list, p)
    requires r.totalBytes == Sum(r.entries) && r.expected == Some(Count(r.entries)) && r.complete
    requires r.pages == p && r.problems == 0 && IsCounted(list, maxPages, r, p)
    ensures IsInventory(list, maxPages, r)
  {
  }

  /** The inner loop: the entries of one page that can be counted are, and the others are problems. */
  method ReadBatch(batch: seq<Entry>, entries: Entries, ids: set<int>, bytes: int)
    returns (entries': Entries, ids': set<int>, bytes': int, problems: nat)
    requires Countable(entries) && ids == Ids(entries) && bytes == Sum(entries)
    ensures Countable(entries') && ids' == Ids(entries') && bytes' == Sum(entries')
    ensures problems == 0 <==> Countable(Add(entries, batch, |batch|))
    ensures problems == 0 ==> entries' == Add(entries, batch, |batch|)
    ensures entries' == Keep(entries, batch, |batch|)
  {
    entries', ids', bytes', problems := entries, ids, bytes, 0;
    for i := 0 to |batch|
      invariant Countable(entries') && ids' == Ids(entries') && bytes' == Sum(entries')
      invariant problems == 0 ==> entries' == Add(entries, batch, i)
      invariant entries' == Keep(entries, batch, i)
      invariant problems == 0 <==> Countable(Add(entries, batch, i))
    {
      var e := batch[i];
      if !Valid(e) || e.id in ids' || !Natural(bytes' + e.size) {
        problems := problems + 1;
      } else {
        entries', ids', bytes' := And(entries', e), ids' + {e.id}, bytes' + e.size;
      }
    }
  }

  function ExpectedBefore(list: Listing, page: nat): Option<int> { if page == 1 then None else Some(Total(list)) }

  /** One round of the outer loop: the listing is over, or the next page is to be read. */
  method ReadPage(list: Listing, maxPages: int, page: nat, entries: Entries, ids: set<int>, bytes: int)
    returns (over: bool, r: Inventory, ids': set<int>)
    requires page <= maxPages && Onward(list, page)
    requires entries == All(list, page - 1) && ids == Ids(entries) && bytes == Sum(entries)
    ensures over ==> IsInventory(list, maxPages, r)
    ensures !over ==> && page < maxPages && Onward(list, page + 1) && r.entries == All(list, page)
                      && ids' == Ids(r.entries) && r.totalBytes == Sum(r.entries)
  {
    var answer := list(page);
    over, ids' := true, ids;
    assert page > 1 ==> PageOk(list, 1);
    var expected := ExpectedBefore(list, page);
    if !answer.Page? || !Natural(answer.total) {
      r := Inventory(entries, bytes, expected, false, if answer.Unavailable? then page - 1 else page, 1);
      Halted(list, page, maxPages, r);
      return;
    }
    var problems := if expected.Some? && expected.value != answer.total then 1 else 0;
    expected := if expected.None? then Some(answer.total) else expected;
    if |answer.batch| > PAGE_SIZE {
      r := Inventory(entries, bytes, expected, false, page, problems + 1);
      Halted(list, page, maxPages, r);
      return;
    }
    var entries', bytes', more;
    entries', ids', bytes', more := ReadBatch(answer.batch, entries, ids, bytes);
    r := Inventory(entries', bytes', expected, false, page, problems + more);
    if problems + more > 0 {
      Halted(list, page, maxPages, r);
    } else if Count(entries') == expected.value {
      r := r.(complete := true);
      EndsHere(list, page);
      Finished(list, page, maxPages, r);
    } else if Count(entries') > expected.value || |answer.batch| < PAGE_SIZE || page == maxPages {
      r := r.(problems := 1);
      Halted(list, page, maxPages, r);
    } else {
      over := false;
    }
  }

  /** `inventory`. */
  method TakeInventory(list: Listing, maxPages: int) returns (r: Inventory)
    ensures IsInventory(list, maxPages, r)
  {
    r := Inventory(Empty, 0, None, false, 0, 0);
    var ids: set<int> := {};
    var page := 1;
    while page <= maxPages
      invariant page >= 1 && (if maxPages >= 1 then page <= maxPages else page == 1) && Onward(list, page)
      invariant r.entries == All(list, page - 1) && ids == Ids(r.entries) && r.totalBytes == Sum(r.entries)
      invariant page == 1 ==> r == Inventory(Empty, 0, None, false, 0, 0)
    {
      var over;
      over, r, ids := ReadPage(list, maxPages, page, r.entries, ids, r.totalBytes);
      if over {
        return;
      }
      page := page + 1;
    }
  }

  // ---- Family totals -----------------------------------------------------------------------------------------

  /** A family label, as a number. */
  type Family = int

  datatype Totals = Totals(bytes: int, count: int)

  /** The totals of the entries of one family. */
  function Of(es: Entries, family: string -> Family, name: Family): Totals {
    if es.Empty? then Totals(0, 0)
    else if es.last.Entry? && family(es.last.key) == name then
      Totals(Of(es.before, family, name).bytes + es.last.size, Of(es.before, family, name).count + 1)
    else Of(es.before, family, name)
  }

  type Rows = map<Family, Totals>

  /** Family names in the order they came. */
  datatype Names = NoName | Name(before: Names, name: Family)

  function Bytes(rows: Rows, name: Family): int { if name in rows then rows[name].bytes else 0 }

  function Number(rows: Rows, name: Family): int { if name in rows then rows[name].count else 0 }

  function NameSet(names: Names): set<Family> { if names.NoName? then {} else NameSet(names.before) + {names.name} }

  /** No name twice. */
  predicate Once(names: Names) { names.Name? ==> names.name !in NameSet(names.before) && Once(names.before) }

  /** The bytes in the rows of these families. */
  function AllBytes(names: Names, rows: Rows): int {
    if names.NoName? then 0 else AllBytes(names.before, rows) + Bytes(rows, names.name)
  }

  /** The entries in the rows of these families. */
  function AllNumber(names: Names, rows: Rows): int {
    if names.NoName? then 0 else AllNumber(names.before, rows) + Number(rows, names.name)
  }

  /** Changing one row changes the sums by as much, if that row is among them. */
  lemma {:induction false} SumsFollow(names: Names, rows: Rows, name: Family, row: Totals)
    requires Once(names)
    ensures AllBytes(names, rows[name := row]) - AllBytes(names, rows)
            == if name in NameSet(names) then row.bytes - Bytes(rows, name) else 0
    ensures AllNumber(names, rows[name := row]) - AllNumber(names, rows)
            == if name in NameSet(names) then row.count - Number(rows, name) else 0
  {
    if names.Name? { SumsFollow(names.before, rows, name, row); }
  }

  /** Every row totals the entries of its family, and a family without a row has no entries. */
  ghost predicate RowsRight(es: Entries, family: string -> Family, rows: Rows) {
    forall name :: Of(es, family, name) == Totals(Bytes(rows, name), Number(rows, name))
  }

  /** The rows are those of the entries, listed once each, and together they add up to all entries. */
  ghost predicate Tallied(es: Entries, family: string -> Family, names: Names, rows: Rows) {
    && Once(names) && NameSet(names) == rows.Keys && RowsRight(es, family, rows)
    && AllBytes(names, rows) == Sum(es) && AllNumber(names, rows) == Count(es)
  }

  function Bumped(rows: Rows, name: Family, size: int): Rows {
    rows[name := Totals(Bytes(rows, name) + size, Number(rows, name) + 1)]
  }

  lemma RowsGrow(es: Entries, e: Entry, family: string -> Family, rows: Rows)
    requires e.Entry? && RowsRight(es, family, rows)
    ensures RowsRight(And(es, e), family, Bumped(rows, family(e.key), e.size))
  {
    var more := Bumped(rows, family(e.key), e.size);
    forall n
      ensures Of(And(es, e), family, n) == Totals(Bytes(more, n), Number(more, n))
    {
      assert Of(es, family, n) == Totals(Bytes(rows, n), Number(rows, n));
    }
  }

  lemma TallyOne(es: Entries, e: Entry, family: string -> Family, names: Names, rows: Rows)
    requires e.Entry? && Tallied(es, family, names, rows)
    ensures var name := family(e.key);
            Tallied(And(es, e), family, if name in rows then names else Name(names, name), Bumped(rows, name, e.size))
  {
    var name := family(e.key);
    SumsFollow(names, rows, name, Totals(Bytes(rows, name) + e.size, Number(rows, name) + 1));
    RowsGrow(es, e, family, rows);
  }

  lemma {:induction false} AddReads(es: Entries, s: seq<Entry>, n: nat)
    requires Values(es) <= s && n == Count(es)
    ensures Add(Empty, s, n) == es
  {
    if es.And? {
      assert s[n - 1] == Values(es)[n - 1];
      AddReads(es.before, s, n - 1);
    }
  }

  lemma {:induction false} CountableEntries(es: Entries, i: nat)
    requires Countable(es) && i < Count(es)
    ensures Values(es)[i].Entry?
  {
    if i < Count(es) - 1 { CountableEntries(es.before, i); }
  }

  /** The family totals of the report: of any inventory, complete or not, the rows add up to its byte total
      and its number of entries. */
  method FamilyTotals(r: Inventory, family: string -> Family) returns (names: Names, rows: Rows)
    requires Countable(r.entries) && r.totalBytes == Sum(r.entries)
    ensures Tallied(r.entries, family, names, rows)
    ensures AllBytes(names, rows) == r.totalBytes && AllNumber(names, rows) == Count(r.entries)
  {
    var entries := Values(r.entries);
    names, rows := NoName, map[];
    for k := 0 to |entries|
      invariant Tallied(Add(Empty, entries, k), family, names, rows)
    {
      var e := entries[k];
      CountableEntries(r.entries, k);
      TallyOne(Add(Empty, entries, k), e, family, names, rows);
      var name := family(e.key);
      if name !in rows {
        names := Name(names, name);
      }
      rows := Bumped(rows, name, e.size);
    }
    AddReads(r.entries, entries, |entries|);
  }

  /** The report, which refuses a page limit that is not positive: an inventory that is complete exactly
      when it has no problem, and the totals by family of what it holds. */
  method Report(list: Listing, maxPages: int, family: string -> Family)
    returns (r: Option<Inventory>, names: Names, rows: Rows)
    ensures r.Some? <==> 1 <= maxPages <= MAX_SAFE
    ensures r.Some? ==> IsInventory(list, maxPages, r.value) && (r.value.complete <==> r.value.problems == 0)
    ensures r.Some? ==> Tallied(r.value.entries, family, names, rows)
    ensures r.Some? ==> AllBytes(names, rows) == r.value.totalBytes && AllNumber(names, rows) == Count(r.value.entries)
    ensures r.Some? && r.value.complete ==> AllNumber(names, rows) == Total(list)
  {
    r, names, rows := None, NoName, map[];
    if 1 <= maxPages <= MAX_SAFE {
      var inventory := TakeInventory(list, maxPages);
      names, rows := FamilyTotals(inventory, family);
      r := Some(inventory);
    }
  }
}
