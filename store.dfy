/** The relational store the controllers talk to, reduced to what they rely
    on: three tables of rows, each row with a store-assigned id and creation
    time; the `eq`/`ilike` filters; ordering by creation time, newest first;
    and the "at most one row" resolution of a lookup. */
module Store {
  import opened Js
  import Uuid

  /** A stored row: the columns every table shares, and the rest. */
  datatype Row<A> = Row(id: string, name: Option<string>, createdAt: nat, attrs: A)

  datatype CategoryAttrs = CategoryAttrs(
    image: Option<string>,
    description: Option<string>,
    taxApplicability: Option<bool>,
    tax: Option<int>,
    taxType: Option<string>)

  datatype SubcategoryAttrs = SubcategoryAttrs(
    categoryId: string,
    image: Option<string>,
    description: Option<string>,
    taxApplicability: Option<bool>,
    tax: Option<int>)

  datatype ItemAttrs = ItemAttrs(
    categoryId: string,
    subcategoryId: Option<string>,
    image: Option<string>,
    description: Option<string>,
    taxApplicability: Option<bool>,
    tax: Option<int>,
    baseAmount: Option<int>,
    discount: Option<int>,
    totalAmount: int)

  type Category = Row<CategoryAttrs>
  type Subcategory = Row<SubcategoryAttrs>
  type Item = Row<ItemAttrs>

  /** What a handler answers: 200 with data, 201 with the created row, 400
      with the handler's own message, 404, or 400 carrying the store's error
      (whose text is the store's and is not modelled). */
  datatype Response<T> =
    | Ok(data: T)
    | Created(data: T)
    | BadRequest(error: string)
    | NotFound(error: string)
    | StoreError

  function Ids<A>(rows: seq<Row<A>>): (ids: seq<string>)
    ensures |ids| == |rows|
    ensures forall k :: 0 <= k < |rows| ==> ids[k] == rows[k].id
  {
    seq(|rows|, k requires 0 <= k < |rows| => rows[k].id)
  }

  /** Rows appear in a table in the order they were created. */
  ghost predicate Ascending<A>(rows: seq<Row<A>>) {
    forall i, j :: 0 <= i < j < |rows| ==> rows[i].createdAt < rows[j].createdAt
  }

  /** A query result ordered by `created_at`, descending. */
  predicate NewestFirst<A>(rows: seq<Row<A>>) {
    forall i, j :: 0 <= i < j < |rows| ==> rows[i].createdAt > rows[j].createdAt
  }

  ghost predicate DistinctIds<A>(rows: seq<Row<A>>) {
    forall i, j :: 0 <= i < j < |rows| ==> rows[i].id != rows[j].id
  }

  /** A table as the store keeps it: ids are unique UUIDs, creation times
      increase and all lie before the clock. */
  ghost predicate WellFormed<A>(rows: seq<Row<A>>, clock: nat) {
    && Ascending(rows)
    && DistinctIds(rows)
    && (forall i :: 0 <= i < |rows| ==> rows[i].createdAt < clock)
    && (forall i :: 0 <= i < |rows| ==> Uuid.IsUuid(rows[i].id))
  }

  /** Every item keeps `total_amount = base_amount - discount`, a null
      amount counting as 0 as it does in JavaScript. */
  ghost predicate TotalIsNet(it: Item) {
    it.attrs.totalAmount == NumberOf(it.attrs.baseAmount) - NumberOf(it.attrs.discount)
  }

  /** The in-memory store. Rows are never deleted; a clock stands in for
      the store's `created_at` timestamps. */
  class Database {
    var categories: seq<Category>
    var subcategories: seq<Subcategory>
    var items: seq<Item>
    var clock: nat

    ghost predicate Valid()
      reads this
    {
      && WellFormed(categories, clock)
      && WellFormed(subcategories, clock)
      && WellFormed(items, clock)
      && (forall s :: s in subcategories ==> s.attrs.categoryId in Ids(categories))
      && (forall it :: it in items ==> TotalIsNet(it))
    }

    constructor ()
      ensures Valid()
      ensures categories == [] && subcategories == [] && items == [] && clock == 0
    {
      categories, subcategories, items, clock := [], [], [], 0;
    }

    /** `insert` into categories, stamped with the current time. */
    method InsertCategory(c: Category)
      requires Valid()
      requires c.createdAt == clock && Uuid.IsUuid(c.id) && c.id !in Ids(categories)
      modifies this
      ensures Valid()
      ensures categories == old(categories) + [c] && clock == old(clock) + 1
      ensures subcategories == old(subcategories) && items == old(items)
    {
      AppendKeepsWellFormed(categories, clock, c);
      TickKeepsWellFormed(subcategories, clock);
      TickKeepsWellFormed(items, clock);
      categories, clock := categories + [c], clock + 1;
    }

    /** `insert` into subcategories; the parent must exist. */
    method InsertSubcategory(s: Subcategory)
      requires Valid()
      requires s.createdAt == clock && Uuid.IsUuid(s.id) && s.id !in Ids(subcategories)
      requires s.attrs.categoryId in Ids(categories)
      modifies this
      ensures Valid()
      ensures subcategories == old(subcategories) + [s] && clock == old(clock) + 1
      ensures categories == old(categories) && items == old(items)
    {
      AppendKeepsWellFormed(subcategories, clock, s);
      TickKeepsWellFormed(categories, clock);
      TickKeepsWellFormed(items, clock);
      subcategories, clock := subcategories + [s], clock + 1;
    }

    /** `insert` into items; the row carries its derived total. */
    method InsertItem(it: Item)
      requires Valid()
      requires it.createdAt == clock && Uuid.IsUuid(it.id) && it.id !in Ids(items)
      requires TotalIsNet(it)
      modifies this
      ensures Valid()
      ensures items == old(items) + [it] && clock == old(clock) + 1
      ensures categories == old(categories) && subcategories == old(subcategories)
    {
      AppendKeepsWellFormed(items, clock, it);
      TickKeepsWellFormed(categories, clock);
      TickKeepsWellFormed(subcategories, clock);
      items, clock := items + [it], clock + 1;
    }

    /** `update ... eq('id', c.id)` on categories: the row keeps its id and
        creation time. */
    method ReplaceCategory(i: nat, c: Category)
      requires Valid() && i < |categories|
      requires c.id == categories[i].id && c.createdAt == categories[i].createdAt
      modifies this
      ensures Valid()
      ensures categories == old(categories)[i := c]
      ensures subcategories == old(subcategories) && items == old(items) && clock == old(clock)
    {
      ReplaceKeepsWellFormed(categories, clock, i, c);
      categories := categories[i := c];
    }

    /** `update ... eq('id', s.id)` on subcategories: the row keeps its id,
        creation time and parent. */
    method ReplaceSubcategory(i: nat, s: Subcategory)
      requires Valid() && i < |subcategories|
      requires s.id == subcategories[i].id && s.createdAt == subcategories[i].createdAt
      requires s.attrs.categoryId == subcategories[i].attrs.categoryId
      modifies this
      ensures Valid()
      ensures subcategories == old(subcategories)[i := s]
      ensures categories == old(categories) && items == old(items) && clock == old(clock)
    {
      ReplaceKeepsWellFormed(subcategories, clock, i, s);
      var parents := Ids(categories);
      ReplaceKeepsAll(subcategories, i, s, (q: Subcategory) => q.attrs.categoryId in parents);
      subcategories := subcategories[i := s];
    }

    /** `update ... eq('id', it.id)` on items: the row keeps its id and
        creation time, and its total agrees with its amounts. */
    method ReplaceItem(i: nat, it: Item)
      requires Valid() && i < |items|
      requires it.id == items[i].id && it.createdAt == items[i].createdAt
      requires TotalIsNet(it)
      modifies this
      ensures Valid()
      ensures items == old(items)[i := it]
      ensures categories == old(categories) && subcategories == old(subcategories) && clock == old(clock)
    {
      ReplaceKeepsWellFormed(items, clock, i, it);
      ReplaceKeepsAll(items, i, it, TotalIsNet);
      items := items[i := it];
    }
  }

  /** Appending a row created now keeps a table well formed. */
  lemma AppendKeepsWellFormed<A>(rows: seq<Row<A>>, clock: nat, r: Row<A>)
    requires WellFormed(rows, clock)
    requires r.createdAt == clock && Uuid.IsUuid(r.id) && r.id !in Ids(rows)
    ensures WellFormed(rows + [r], clock + 1)
    ensures Ids(rows + [r]) == Ids(rows) + [r.id]
  {
    var rows' := rows + [r];
    forall i, j | 0 <= i < j < |rows'| ensures rows'[i].id != rows'[j].id {
      if j == |rows| { assert rows'[i].id == Ids(rows)[i]; }
    }
  }

  /** Time moving on keeps a table well formed. */
  lemma TickKeepsWellFormed<A>(rows: seq<Row<A>>, clock: nat)
    requires WellFormed(rows, clock)
    ensures WellFormed(rows, clock + 1)
  {
  }

  /** Rewriting one row in place, keeping its id and creation time, keeps a
      table well formed and its ids unchanged. */
  lemma ReplaceKeepsWellFormed<A>(rows: seq<Row<A>>, clock: nat, i: nat, r: Row<A>)
    requires WellFormed(rows, clock) && i < |rows|
    requires r.id == rows[i].id && r.createdAt == rows[i].createdAt
    ensures WellFormed(rows[i := r], clock)
    ensures Ids(rows[i := r]) == Ids(rows)
  {
  }

  /** Rewriting one row with a row that has a property every row had keeps
      that property true of the whole table. */
  lemma ReplaceKeepsAll<A>(rows: seq<Row<A>>, i: nat, r: Row<A>, p: Row<A> -> bool)
    requires i < |rows| && p(r) && forall q :: q in rows ==> p(q)
    ensures forall q :: q in rows[i := r] ==> p(q)
  {
    forall q | q in rows[i := r] ensures p(q) {
      var k :| 0 <= k < |rows| && rows[i := r][k] == q;
      if k != i { assert rows[k] == q; }
    }
  }

  /** `.eq(column, value)` as a lookup filter. */
  predicate Matches<A>(r: Row<A>, key: Uuid.Key) {
    match key
    case ById(id) => r.id == id
    case ByName(n) => r.name == Some(n)
  }

  /** `.ilike('name', '%term%')`, with the term's characters taken literally. */
  predicate NameContains<A>(r: Row<A>, term: string) {
    r.name.Some? && ContainsIgnoringCase(r.name.value, term)
  }

  function LowerChar(c: char): (d: char) {
    if 'A' <= c <= 'Z' then (c as int + 32) as char else c
  }

  function LowerCase(s: string): (t: string)
    ensures |t| == |s|
    ensures forall k :: 0 <= k < |s| ==> t[k] == LowerChar(s[k])
  {
    seq(|s|, k requires 0 <= k < |s| => LowerChar(s[k]))
  }

  /** `needle` occurs in `hay` starting at position `i`. */
  predicate OccursAt(hay: string, needle: string, i: int) {
    0 <= i <= |hay| - |needle| && hay[i..i + |needle|] == needle
  }

  predicate ContainsIgnoringCase(s: string, term: string) {
    var hay, needle := LowerCase(s), LowerCase(term);
    exists i :: 0 <= i <= |hay| && OccursAt(hay, needle, i)
  }

  /** The search is a substring match, anchored at neither end: a name with
      the term anywhere inside it, in any mix of cases, is found. */
  lemma {:induction false} ContainsAnywhere(before: string, term: string, after: string, spelled: string)
    requires |spelled| == |term| && LowerCase(spelled) == LowerCase(term)
    ensures ContainsIgnoringCase(before + spelled + after, term)
  {
    var s := before + spelled + after;
    var hay, needle := LowerCase(s), LowerCase(term);
    assert hay[|before|..|before| + |needle|] == needle by {
      forall k | 0 <= k < |needle| ensures hay[|before| + k] == needle[k] {
        assert s[|before| + k] == spelled[k];
        assert LowerCase(spelled)[k] == LowerChar(spelled[k]);
      }
    }
    assert OccursAt(hay, needle, |before|);
  }

  /** And only so: a name the search finds holds, somewhere inside it, a
      spelling of the term that differs from it at most in letter case. */
  lemma {:induction false} ContainsOnlyAsSubstring(s: string, term: string)
    returns (before: string, spelled: string, after: string)
    requires ContainsIgnoringCase(s, term)
    ensures s == before + spelled + after
    ensures |spelled| == |term| && LowerCase(spelled) == LowerCase(term)
  {
    var hay, needle := LowerCase(s), LowerCase(term);
    var i :| 0 <= i <= |hay| && OccursAt(hay, needle, i);
    before, spelled, after := s[..i], s[i..i + |term|], s[i + |term|..];
    assert s == before + spelled + after;
    forall k | 0 <= k < |term| ensures LowerCase(spelled)[k] == LowerCase(term)[k] {
      assert hay[i..i + |needle|][k] == hay[i + k];
    }
  }

  /** `select ... order by created_at desc` with a filter: exactly the rows
      that satisfy `p`, newest first. */
  method SelectNewestFirst<A>(rows: seq<Row<A>>, p: Row<A> -> bool) returns (out: seq<Row<A>>)
    requires Ascending(rows)
    ensures forall r :: r in out <==> r in rows && p(r)
    ensures NewestFirst(out)
  {
    out := [];
    var i := |rows|;
    while i > 0
      invariant 0 <= i <= |rows|
      invariant forall r :: r in out <==> r in rows[i..] && p(r)
      invariant NewestFirst(out)
      invariant forall k, j :: 0 <= k < |out| && 0 <= j < i ==> rows[j].createdAt < out[k].createdAt
    {
      i := i - 1;
      assert rows[i..] == [rows[i]] + rows[i + 1..];
      if p(rows[i]) {
        out := out + [rows[i]];
      }
    }
  }

  /** Two query results ordered newest first that hold the same rows are the
      same sequence: the contract of a listing determines its answer. */
  lemma {:induction false} ListingIsDetermined<A>(a: seq<Row<A>>, b: seq<Row<A>>)
    requires NewestFirst(a) && NewestFirst(b)
    requires forall r :: r in a <==> r in b
    ensures a == b
  {
    assert a == [] <==> b == [] by {
      if a != [] { assert a[0] in b; }
      if b != [] { assert b[0] in a; }
    }
    if a != [] {
      assert a[0] == b[0] by {
        assert a[0] in b && b[0] in a;
      }
      forall r ensures r in a[1..] <==> r in b[1..] {
        if r in a[1..] {
          var k :| 1 <= k < |a| && a[k] == r;
          assert r != a[0];
          assert r in b;
        }
        if r in b[1..] {
          var k :| 1 <= k < |b| && b[k] == r;
          assert r != b[0];
          assert r in a;
        }
      }
      ListingIsDetermined(a[1..], b[1..]);
      assert a == [a[0]] + a[1..];
      assert b == [b[0]] + b[1..];
    }
  }

  /** The outcome of `.maybeSingle()`: no row, exactly one, or an error
      because several rows matched. */
  datatype Single<A> = NoRow | OneRow(row: Row<A>) | ManyRows

  /** `r` is the one row of the table that the key matches. */
  ghost predicate OnlyMatch<A>(rows: seq<Row<A>>, key: Uuid.Key, r: Row<A>) {
    r in rows && Matches(r, key) && forall q :: q in rows && Matches(q, key) ==> q == r
  }

  /** `.maybeSingle()` on the rows a key matches, stated without a search. */
  ghost function Lookup<A>(rows: seq<Row<A>>, key: Uuid.Key): (s: Single<A>) {
    if forall r :: r in rows ==> !Matches(r, key) then NoRow
    else if exists i :: 0 <= i < |rows| && OnlyMatch(rows, key, rows[i]) then
      var i :| 0 <= i < |rows| && OnlyMatch(rows, key, rows[i]); OneRow(rows[i])
    else ManyRows
  }

  /** When exactly one row matches, the lookup answers with it. */
  lemma LookupOfOnlyMatch<A>(rows: seq<Row<A>>, key: Uuid.Key, r: Row<A>)
    requires OnlyMatch(rows, key, r)
    ensures Lookup(rows, key) == OneRow(r)
  {
    var i :| 0 <= i < |rows| && rows[i] == r;
    assert OnlyMatch(rows, key, rows[i]);
  }

  /** When two different rows match, the lookup fails. */
  lemma LookupOfTwoMatches<A>(rows: seq<Row<A>>, key: Uuid.Key, r: Row<A>, q: Row<A>)
    requires r in rows && q in rows && r != q && Matches(r, key) && Matches(q, key)
    ensures Lookup(rows, key) == ManyRows
  {
  }

  method MaybeSingle<A>(rows: seq<Row<A>>, key: Uuid.Key) returns (s: Single<A>)
    requires Ascending(rows)
    ensures s == Lookup(rows, key)
  {
    var hits := SelectNewestFirst(rows, r => Matches(r, key));
    if |hits| == 0 {
      s := NoRow;
      assert forall r :: r in rows ==> !Matches(r, key);
    } else if |hits| == 1 {
      s := OneRow(hits[0]);
      assert hits[0] in hits;
      forall q | q in rows && Matches(q, key) ensures q == hits[0] {
        assert q in hits;
      }
      LookupOfOnlyMatch(rows, key, hits[0]);
    } else {
      s := ManyRows;
      assert hits[0] in hits && hits[1] in hits;
      LookupOfTwoMatches(rows, key, hits[0], hits[1]);
    }
  }

  /** How a `...ByIdOrName` handler answers a lookup: 200 with the row, 404
      with its message when nothing matches, the store's error otherwise. */
  function Respond<A>(s: Single<A>, notFound: string): (r: Response<Row<A>>)
    ensures r == NotFound(notFound) <==> s.NoRow?
    ensures r.Ok? <==> s.OneRow?
    ensures r.Ok? ==> r.data == s.row
    ensures r == StoreError <==> s.ManyRows?
    ensures !r.Created? && !r.BadRequest?
  {
    match s
    case NoRow => NotFound(notFound)
    case OneRow(r) => Ok(r)
    case ManyRows => StoreError
  }

  /** The lookup answers with the one matching row, names no row when none
      matches, and fails exactly when two different rows match. */
  lemma LookupCases<A>(rows: seq<Row<A>>, key: Uuid.Key)
    ensures Lookup(rows, key).NoRow? <==> forall r :: r in rows ==> !Matches(r, key)
    ensures Lookup(rows, key).OneRow? ==> OnlyMatch(rows, key, Lookup(rows, key).row)
    ensures Lookup(rows, key).ManyRows? <==>
      exists r, q :: r in rows && q in rows && r != q && Matches(r, key) && Matches(q, key)
  {
    if Lookup(rows, key).ManyRows? {
      var r :| r in rows && Matches(r, key);
      assert !OnlyMatch(rows, key, r);
    }
  }

  /** In a well-formed table a row is always reached through its own id,
      whatever the names of the other rows: the identifier classifies as
      an id, and no other row has that id. */
  lemma {:induction false} RowReachedById<A>(rows: seq<Row<A>>, clock: nat, i: nat)
    requires WellFormed(rows, clock) && i < |rows|
    ensures Lookup(rows, Uuid.Classify(rows[i].id)) == OneRow(rows[i])
  {
    var r := rows[i];
    assert Uuid.Classify(r.id) == Uuid.ById(r.id);
    forall q | q in rows && Matches(q, Uuid.ById(r.id)) ensures q == r {
      var j :| 0 <= j < |rows| && rows[j] == q;
    }
    LookupOfOnlyMatch(rows, Uuid.ById(r.id), r);
  }

  /** A lookup by id in a well-formed table never meets two rows. */
  lemma {:induction false} IdLookupNeverAmbiguous<A>(rows: seq<Row<A>>, clock: nat, id: string)
    requires WellFormed(rows, clock)
    ensures Lookup(rows, Uuid.ById(id)) == (if id in Ids(rows) then OneRow(rows[IndexIn(rows, id)]) else NoRow)
  {
    if id in Ids(rows) {
      RowReachedById(rows, clock, IndexIn(rows, id));
    } else {
      forall r | r in rows ensures !Matches(r, Uuid.ById(id)) {
        var j :| 0 <= j < |rows| && rows[j] == r;
        assert Ids(rows)[j] == r.id;
      }
    }
  }

  /** The position of the row with a given id. */
  ghost function IndexIn<A>(rows: seq<Row<A>>, id: string): (i: nat)
    requires id in Ids(rows)
    ensures i < |rows| && rows[i].id == id
  {
    var i :| 0 <= i < |Ids(rows)| && Ids(rows)[i] == id; i
  }

  /** `.eq('id', id)` when at most one row can match: the position of that row. */
  method FindId<A>(rows: seq<Row<A>>, id: string) returns (found: Option<nat>)
    ensures found.None? <==> id !in Ids(rows)
    ensures found.Some? ==> found.value < |rows| && rows[found.value].id == id
  {
    var i := 0;
    while i < |rows|
      invariant 0 <= i <= |rows|
      invariant forall k :: 0 <= k < i ==> rows[k].id != id
    {
      if rows[i].id == id {
        return Some(i);
      }
      i := i + 1;
    }
    found := None;
  }
}
