/**
 * The `globals` table, keyed on (tenant_id, key), and the server actions of
 * src/actions/globals.ts over it.
 */
module GlobalStore {
  import opened Wrappers
  import opened Json
  import opened Ids
  import Seqs
  import Strings

  datatype GlobalRow = GlobalRow(tenantId: TenantId, key: string, value: Value, status: string)

  /** One element of saveGlobals' argument. */
  datatype GlobalItem = GlobalItem(key: string, value: Value, status: Option<string>)

  datatype GlobalError = TenantNotFound | UpsertFailed | DatabaseError

  /** No two rows share a (tenant_id, key) pair: the table's conflict target. */
  ghost predicate KeysUnique(rows: seq<GlobalRow>)
  {
    forall i, j :: 0 <= i < j < |rows| ==> !(rows[i].tenantId == rows[j].tenantId && rows[i].key == rows[j].key)
  }

  /** The index of the row keyed (tenant, key), if there is one. */
  function IndexOf(rows: seq<GlobalRow>, tenant: TenantId, key: string): (r: Option<nat>)
    ensures r.Some? ==> r.value < |rows| && rows[r.value].tenantId == tenant && rows[r.value].key == key
    ensures r.None? ==> forall i :: 0 <= i < |rows| ==> !(rows[i].tenantId == tenant && rows[i].key == key)
    ensures r.Some? ==> forall i :: 0 <= i < r.value ==> !(rows[i].tenantId == tenant && rows[i].key == key)
  {
    if rows == [] then None
    else if rows[0].tenantId == tenant && rows[0].key == key then Some(0)
    else
      match IndexOf(rows[1..], tenant, key)
      case None => None
      case Some(i) => Some(i + 1)
  }

  /** The row keyed (tenant, key). */
  function Lookup(rows: seq<GlobalRow>, tenant: TenantId, key: string): Option<GlobalRow>
  {
    match IndexOf(rows, tenant, key)
    case None => None
    case Some(i) => Some(rows[i])
  }

  /** The row an item is written as: `status || "published"`. */
  function RowOf(tenant: TenantId, item: GlobalItem): (row: GlobalRow)
    ensures row.tenantId == tenant && row.key == item.key && row.value == item.value
    ensures item.status.None? || item.status.value == "" ==> row.status == "published"
    ensures item.status.Some? && item.status.value != "" ==> row.status == item.status.value
  {
    GlobalRow(tenant, item.key, item.value,
              if item.status.Some? && item.status.value != "" then item.status.value else "published")
  }

  /** `upsert(row, { onConflict: "tenant_id,key" })`: replace the row with the same key in place, or append. */
  function Upsert(rows: seq<GlobalRow>, row: GlobalRow): (r: seq<GlobalRow>)
    ensures |r| == |rows| || |r| == |rows| + 1
    ensures forall i :: 0 <= i < |rows| && !(rows[i].tenantId == row.tenantId && rows[i].key == row.key) ==> r[i] == rows[i]
    ensures row in r
  {
    match IndexOf(rows, row.tenantId, row.key)
    case Some(i) =>
      assert rows[i := row][i] == row;
      rows[i := row]
    case None => rows + [row]
  }

  /** After an upsert the key holds the new row; every other key holds what it held. */
  lemma UpsertLookup(rows: seq<GlobalRow>, row: GlobalRow, tenant: TenantId, key: string)
    requires KeysUnique(rows)
    ensures KeysUnique(Upsert(rows, row))
    ensures Lookup(Upsert(rows, row), tenant, key) ==
              if tenant == row.tenantId && key == row.key then Some(row) else Lookup(rows, tenant, key)
  {
    match IndexOf(rows, row.tenantId, row.key)
    case Some(i) => ReplaceLookup(rows, row, i, tenant, key);
    case None => AppendLookup(rows, row, tenant, key);
  }

  /** An upsert keeps the conflict target unique. */
  lemma UpsertUnique(rows: seq<GlobalRow>, row: GlobalRow)
    requires KeysUnique(rows)
    ensures KeysUnique(Upsert(rows, row))
  {
    UpsertLookup(rows, row, row.tenantId, row.key);
  }

  /** Overwriting the row at its key's index keeps every key where it was. */
  lemma ReplaceLookup(rows: seq<GlobalRow>, row: GlobalRow, i: nat, tenant: TenantId, key: string)
    requires KeysUnique(rows)
    requires IndexOf(rows, row.tenantId, row.key) == Some(i)
    ensures KeysUnique(rows[i := row])
    ensures Lookup(rows[i := row], tenant, key) ==
              if tenant == row.tenantId && key == row.key then Some(row) else Lookup(rows, tenant, key)
  {
    var r := rows[i := row];
    assert forall j :: 0 <= j < |r| ==> r[j].tenantId == rows[j].tenantId && r[j].key == rows[j].key;
    SameKeysIndex(r, rows, tenant, key);
  }

  /** Two tables with the same keys at the same positions find a key at the same index. */
  lemma {:induction false} SameKeysIndex(a: seq<GlobalRow>, b: seq<GlobalRow>, tenant: TenantId, key: string)
    requires |a| == |b|
    requires forall j :: 0 <= j < |a| ==> a[j].tenantId == b[j].tenantId && a[j].key == b[j].key
    ensures IndexOf(a, tenant, key) == IndexOf(b, tenant, key)
    decreases |a|
  {
    if a != [] {
      SameKeysIndex(a[1..], b[1..], tenant, key);
    }
  }

  /** Appending a row with a new key: the old keys stay where they were and the new one is last. */
  lemma AppendLookup(rows: seq<GlobalRow>, row: GlobalRow, tenant: TenantId, key: string)
    requires KeysUnique(rows)
    requires IndexOf(rows, row.tenantId, row.key) == None
    ensures KeysUnique(rows + [row])
    ensures Lookup(rows + [row], tenant, key) ==
              if tenant == row.tenantId && key == row.key then Some(row) else Lookup(rows, tenant, key)
  {
    var r := rows + [row];
    IndexOfAppend(rows, row, tenant, key);
    match IndexOf(rows, tenant, key)
    case Some(j) => assert r[j] == rows[j];
    case None =>
  }

  /** Where a key is found once a row is appended. */
  lemma {:induction false} IndexOfAppend(rows: seq<GlobalRow>, row: GlobalRow, tenant: TenantId, key: string)
    ensures IndexOf(rows + [row], tenant, key) ==
              if IndexOf(rows, tenant, key).Some? then IndexOf(rows, tenant, key)
              else if row.tenantId == tenant && row.key == key then Some(|rows|) else None
    decreases |rows|
  {
    if rows == [] {
      assert rows + [row] == [row];
    } else {
      assert (rows + [row])[1..] == rows[1..] + [row];
      IndexOfAppend(rows[1..], row, tenant, key);
    }
  }

  /** `IndexOf` finds the only row with the key, whenever there is one. */
  lemma UniqueIndex(rows: seq<GlobalRow>, tenant: TenantId, key: string)
    ensures forall i :: 0 <= i < |rows| && rows[i].tenantId == tenant && rows[i].key == key && KeysUnique(rows) ==>
              IndexOf(rows, tenant, key) == Some(i)
  {
  }

  /** The items upserted one after the other, in input order. */
  function UpsertAll(rows: seq<GlobalRow>, tenant: TenantId, items: seq<GlobalItem>): (r: seq<GlobalRow>)
    decreases |items|
  {
    if items == [] then rows
    else UpsertAll(Upsert(rows, RowOf(tenant, items[0])), tenant, items[1..])
  }

  /** The last item with this key. */
  function LastWithKey(items: seq<GlobalItem>, key: string): (r: Option<GlobalItem>)
    ensures r.Some? ==> r.value in items && r.value.key == key
    ensures r.None? ==> forall i :: 0 <= i < |items| ==> items[i].key != key
  {
    if items == [] then None
    else if items[|items| - 1].key == key then Some(items[|items| - 1])
    else
      var r := LastWithKey(items[..|items| - 1], key);
      assert forall i :: 0 <= i < |items| - 1 ==> items[..|items| - 1][i] == items[i];
      r
  }

  lemma LastWithKeyCons(item: GlobalItem, items: seq<GlobalItem>, key: string)
    ensures LastWithKey([item] + items, key) ==
              if LastWithKey(items, key).Some? then LastWithKey(items, key)
              else if item.key == key then Some(item) else None
    decreases |items|
  {
    var s := [item] + items;
    if items != [] {
      assert s[..|s| - 1] == [item] + items[..|items| - 1];
      LastWithKeyCons(item, items[..|items| - 1], key);
    } else {
      assert s[..|s| - 1] == [];
    }
  }

  /**
   * After saving, each key of the tenant holds the LAST item with that key,
   * and a key no item names holds what it held before.
   */
  lemma {:induction false} UpsertAllLastWins(rows: seq<GlobalRow>, tenant: TenantId, items: seq<GlobalItem>, key: string)
    requires KeysUnique(rows)
    ensures KeysUnique(UpsertAll(rows, tenant, items))
    ensures Lookup(UpsertAll(rows, tenant, items), tenant, key) == LastWins(rows, tenant, items, key)
    decreases |items|
  {
    if items != [] {
      var item, rest := items[0], items[1..];
      var next := Upsert(rows, RowOf(tenant, item));
      UpsertUnique(rows, RowOf(tenant, item));
      UpsertAllLastWins(next, tenant, rest, key);
      assert UpsertAll(rows, tenant, items) == UpsertAll(next, tenant, rest);
      assert items == [item] + rest;
      LastWinsCons(rows, tenant, item, rest, key);
    }
  }

  /** One upsert in front of the rest: the rule's expectation is the same before and after it. */
  lemma LastWinsCons(rows: seq<GlobalRow>, tenant: TenantId, item: GlobalItem, rest: seq<GlobalItem>, key: string)
    requires KeysUnique(rows)
    ensures LastWins(Upsert(rows, RowOf(tenant, item)), tenant, rest, key) == LastWins(rows, tenant, [item] + rest, key)
  {
    UpsertLookup(rows, RowOf(tenant, item), tenant, key);
    LastWithKeyCons(item, rest, key);
  }

  /** What the last-wins rule expects key to hold after saving items over rows. */
  ghost function LastWins(rows: seq<GlobalRow>, tenant: TenantId, items: seq<GlobalItem>, key: string): Option<GlobalRow>
  {
    match LastWithKey(items, key)
    case Some(item) => Some(RowOf(tenant, item))
    case None => Lookup(rows, tenant, key)
  }

  /** Upserting keeps the keys unique. */
  lemma {:induction false} UpsertAllUnique(rows: seq<GlobalRow>, tenant: TenantId, items: seq<GlobalItem>)
    requires KeysUnique(rows)
    ensures KeysUnique(UpsertAll(rows, tenant, items))
    decreases |items|
  {
    if items != [] {
      UpsertUnique(rows, RowOf(tenant, items[0]));
      UpsertAllUnique(Upsert(rows, RowOf(tenant, items[0])), tenant, items[1..]);
    }
  }

  /** Saving for one tenant never changes another tenant's rows, which stay at their positions. */
  lemma {:induction false} UpsertAllOtherTenants(rows: seq<GlobalRow>, tenant: TenantId, items: seq<GlobalItem>)
    ensures |UpsertAll(rows, tenant, items)| >= |rows|
    ensures forall i :: 0 <= i < |rows| && rows[i].tenantId != tenant ==> UpsertAll(rows, tenant, items)[i] == rows[i]
    decreases |items|
  {
    if items != [] {
      var next := Upsert(rows, RowOf(tenant, items[0]));
      UpsertAllOtherTenants(next, tenant, items[1..]);
    }
  }

  function IsPublishedOf(tenant: TenantId): GlobalRow -> bool
  {
    (g: GlobalRow) => g.tenantId == tenant && g.status == "published"
  }

  function IsOf(tenant: TenantId): GlobalRow -> bool
  {
    (g: GlobalRow) => g.tenantId == tenant
  }

  /** `order("key")` */
  predicate KeyOrder(a: GlobalRow, b: GlobalRow)
  {
    Strings.LexLe(a.key, b.key)
  }

  lemma KeyOrderIsOrder()
    ensures Seqs.Total(KeyOrder) && Seqs.Transitive(KeyOrder)
  {
    forall a: GlobalRow, b: GlobalRow ensures KeyOrder(a, b) || KeyOrder(b, a) {
      Strings.LexTotal(a.key, b.key);
    }
    forall a: GlobalRow, b: GlobalRow, c: GlobalRow | KeyOrder(a, b) && KeyOrder(b, c) ensures KeyOrder(a, c) {
      Strings.LexTransitive(a.key, b.key, c.key);
    }
  }

  class Store {
    var rows: seq<GlobalRow>

    ghost predicate Valid()
      reads this
    {
      KeysUnique(rows)
    }

    constructor ()
      ensures Valid() && rows == []
    {
      rows := [];
    }

    /**
     * getGlobals: the tenant's published rows. `fails` says that the select
     * is rejected by the database.
     */
    function GetGlobals(tenant: Option<TenantId>, fails: bool): (r: Result<seq<GlobalRow>, GlobalError>)
      reads this
      ensures tenant.None? ==> r == Err(TenantNotFound)
      ensures tenant.Some? && fails ==> r == Err(DatabaseError)
      ensures tenant.Some? && !fails ==> r.Ok?
      ensures r.Ok? ==> forall g :: g in r.value <==> g in rows && g.tenantId == tenant.value && g.status == "published"
    {
      if tenant.None? then Err(TenantNotFound)
      else if fails then Err(DatabaseError)
      else Ok(Seqs.Filter(rows, IsPublishedOf(tenant.value)))
    }

    /**
     * getAllGlobals: every row of the tenant, drafts included, ordered by key.
     * `fails` says that the select is rejected by the database.
     */
    function GetAllGlobals(tenant: Option<TenantId>, fails: bool): (r: Result<seq<GlobalRow>, GlobalError>)
      reads this
      ensures tenant.None? ==> r == Err(TenantNotFound)
      ensures tenant.Some? && fails ==> r == Err(DatabaseError)
      ensures tenant.Some? && !fails ==> r.Ok? && multiset(r.value) == multiset(Seqs.Filter(rows, IsOf(tenant.value)))
      ensures r.Ok? ==> forall g :: g in r.value <==> g in rows && g.tenantId == tenant.value
      ensures r.Ok? ==> forall i, j :: 0 <= i < j < |r.value| ==> Strings.LexLe(r.value[i].key, r.value[j].key)
    {
      if tenant.None? then Err(TenantNotFound)
      else if fails then Err(DatabaseError)
      else
        var s := Seqs.Filter(rows, IsOf(tenant.value));
        var sorted := Seqs.SortBy(s, KeyOrder);
        KeyOrderIsOrder();
        Seqs.SortBySorted(s, KeyOrder);
        Seqs.SameMembers(sorted, s);
        assert forall i, j :: 0 <= i < j < |sorted| ==> KeyOrder(sorted[i], sorted[j]) by {
          forall i, j | 0 <= i < j < |sorted| ensures KeyOrder(sorted[i], sorted[j]) {
            Seqs.SortedPairwise(sorted, KeyOrder, i, j);
          }
        }
        Ok(sorted)
    }

    /**
     * saveGlobals: upsert the items in input order. `failAt` is the index of
     * the first upsert the database rejects, if any: the action returns the
     * error there, and the upserts before it stay applied.
     */
    method SaveGlobals(tenant: Option<TenantId>, items: seq<GlobalItem>, failAt: Option<nat>)
      returns (r: Result<seq<GlobalRow>, GlobalError>)
      requires Valid()
      modifies this
      ensures Valid()
      ensures tenant.None? ==> r == Err(TenantNotFound) && rows == old(rows)
      ensures tenant.Some? && (failAt.None? || failAt.value >= |items|) ==>
                && rows == UpsertAll(old(rows), tenant.value, items)
                && r.Ok? && |r.value| == |items|
                && (forall i :: 0 <= i < |items| ==> r.value[i] == RowOf(tenant.value, items[i]))
      ensures tenant.Some? && failAt.Some? && failAt.value < |items| ==>
                && rows == UpsertAll(old(rows), tenant.value, items[..failAt.value])
                && r == Err(UpsertFailed)
    {
      if tenant.None? {
        return Err(TenantNotFound);
      }
      var done, results := UpsertEach(tenant.value, items, failAt);
      assert items[..|items|] == items;
      r := if done == |items| then Ok(results) else Err(UpsertFailed);
    }

    /** The loop: upsert items in order until the end or until the failing one; `done` counts those applied. */
    method UpsertEach(tenant: TenantId, items: seq<GlobalItem>, failAt: Option<nat>)
      returns (done: nat, results: seq<GlobalRow>)
      requires Valid()
      modifies this
      ensures Valid()
      ensures done == if failAt.Some? && failAt.value < |items| then failAt.value else |items|
      ensures rows == UpsertAll(old(rows), tenant, items[..done])
      ensures |results| == done
      ensures forall k :: 0 <= k < done ==> results[k] == RowOf(tenant, items[k])
    {
      ghost var before := rows;
      var cur := rows;
      var n := if failAt.Some? && failAt.value < |items| then failAt.value else |items|;
      results := [];
      for i := 0 to n
        invariant rows == before
        invariant cur == UpsertAll(before, tenant, items[..i])
        invariant |results| == i
        invariant results == RowsOf(tenant, items[..i])
      {
        var row := RowOf(tenant, items[i]);
        RowsOfStep(tenant, items, i);
        results := results + [row];
        UpsertStep(before, tenant, items, i);
        cur := Upsert(cur, row);
      }
      UpsertAllUnique(before, tenant, items[..n]);
      done := n;
      rows := cur;
    }

    /**
     * A plain multi-row insert: all rows are added, or none when the
     * database fails or a row's (tenant_id, key) is already taken.
     */
    method InsertAll(newRows: seq<GlobalRow>, fails: bool) returns (ok: bool)
      requires Valid()
      modifies this
      ensures Valid()
      ensures ok == (!fails && !Conflicts(old(rows), newRows))
      ensures rows == if ok then old(rows) + newRows else old(rows)
    {
      if fails || Conflicts(rows, newRows) {
        return false;
      }
      NoConflictsUnique(rows, newRows);
      rows := rows + newRows;
      ok := true;
    }
  }

  /** Some new row takes a (tenant_id, key) pair the table, or an earlier new row, already has. */
  function Conflicts(rows: seq<GlobalRow>, newRows: seq<GlobalRow>): bool
    decreases |newRows|
  {
    if newRows == [] then false
    else IndexOf(rows, newRows[0].tenantId, newRows[0].key).Some? || Conflicts(rows + [newRows[0]], newRows[1..])
  }

  /** Without a conflict the keys stay unique; with one they would not. */
  lemma {:induction false} NoConflictsUnique(rows: seq<GlobalRow>, newRows: seq<GlobalRow>)
    requires KeysUnique(rows)
    ensures !Conflicts(rows, newRows) <==> KeysUnique(rows + newRows)
    decreases |newRows|
  {
    if newRows != [] {
      var x := newRows[0];
      var rest := newRows[1..];
      assert rows + newRows == (rows + [x]) + rest;
      if IndexOf(rows, x.tenantId, x.key).Some? {
        var i := IndexOf(rows, x.tenantId, x.key).value;
        assert (rows + newRows)[i] == rows[i] && (rows + newRows)[|rows|] == x;
      } else {
        assert KeysUnique(rows + [x]);
        NoConflictsUnique(rows + [x], rest);
      }
    }
  }

  /** New rows with distinct keys, none of which the table already has, never conflict. */
  lemma {:induction false} NoClashNoConflict(rows: seq<GlobalRow>, newRows: seq<GlobalRow>)
    requires KeysUnique(newRows)
    requires forall i, j :: 0 <= i < |rows| && 0 <= j < |newRows| ==>
               !(rows[i].tenantId == newRows[j].tenantId && rows[i].key == newRows[j].key)
    ensures !Conflicts(rows, newRows)
    decreases |newRows|
  {
    if newRows != [] {
      var x := newRows[0];
      var rest := newRows[1..];
      assert forall j :: 0 <= j < |rest| ==> rest[j] == newRows[j + 1];
      var grown := rows + [x];
      forall i, j | 0 <= i < |grown| && 0 <= j < |rest|
        ensures !(grown[i].tenantId == rest[j].tenantId && grown[i].key == rest[j].key)
      {
        if i == |rows| {
          assert grown[i] == newRows[0];
        }
      }
      NoClashNoConflict(grown, rest);
    }
  }

  /** The rows the items are written as, in order. */
  function RowsOf(tenant: TenantId, items: seq<GlobalItem>): (r: seq<GlobalRow>)
    ensures |r| == |items|
    ensures forall k :: 0 <= k < |items| ==> r[k] == RowOf(tenant, items[k])
  {
    if items == [] then []
    else RowsOf(tenant, items[..|items| - 1]) + [RowOf(tenant, items[|items| - 1])]
  }

  lemma RowsOfStep(tenant: TenantId, items: seq<GlobalItem>, i: nat)
    requires i < |items|
    ensures RowsOf(tenant, items[..i + 1]) == RowsOf(tenant, items[..i]) + [RowOf(tenant, items[i])]
  {
    assert items[..i + 1][..i] == items[..i];
  }

  lemma UpsertStep(rows: seq<GlobalRow>, tenant: TenantId, items: seq<GlobalItem>, i: nat)
    requires i < |items|
    ensures UpsertAll(rows, tenant, items[..i + 1]) == Upsert(UpsertAll(rows, tenant, items[..i]), RowOf(tenant, items[i]))
  {
    assert items[..i + 1] == items[..i] + [items[i]];
    UpsertAllSnoc(rows, tenant, items[..i], items[i]);
  }

  /** Upserting one more item extends the fold. */
  lemma {:induction false} UpsertAllSnoc(rows: seq<GlobalRow>, tenant: TenantId, items: seq<GlobalItem>, item: GlobalItem)
    ensures UpsertAll(rows, tenant, items + [item]) == Upsert(UpsertAll(rows, tenant, items), RowOf(tenant, item))
    decreases |items|
  {
    if items != [] {
      assert (items + [item])[1..] == items[1..] + [item];
      UpsertAllSnoc(Upsert(rows, RowOf(tenant, items[0])), tenant, items[1..], item);
    } else {
      assert items + [item] == [item];
    }
  }
}
