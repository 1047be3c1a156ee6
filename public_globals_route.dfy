/**
 * GET /api/public/globals (src/app/api/public/globals/route.ts): the
 * tenant's published globals rows, folded into one object key by key.
 */
module PublicGlobalsRoute {
  import opened Wrappers
  import opened Json
  import opened Ids
  import Seqs
  import opened GlobalStore

  /** The object with status 200, or `{ error }` with status 404. */
  datatype Response = GlobalsFound(globals: map<string, Value>) | NotFound

  /** `result[global.key] = global.value` for every row in order. */
  function KeyValues(rows: seq<GlobalRow>): map<string, Value>
  {
    if rows == [] then map[]
    else KeyValues(rows[..|rows| - 1])[rows[|rows| - 1].key := rows[|rows| - 1].value]
  }

  /** The `forEach` that fills `result`. */
  method Fold(rows: seq<GlobalRow>) returns (result: map<string, Value>)
    ensures result == KeyValues(rows)
  {
    result := map[];
    for i := 0 to |rows|
      invariant result == KeyValues(rows[..i])
    {
      assert rows[..i + 1][..i] == rows[..i];
      result := result[rows[i].key := rows[i].value];
    }
    assert rows[..|rows|] == rows;
  }

  /**
   * The response. A missing `tenant` compares `tenant_id` with null, which
   * the database rejects, and any database error (`fails`) answers 404.
   */
  method Get(table: seq<GlobalRow>, tenant: Option<TenantId>, fails: bool) returns (r: Response)
    ensures r == NotFound <==> tenant.None? || fails
    ensures tenant.Some? && !fails ==> r == GlobalsFound(KeyValues(Seqs.Filter(table, IsPublishedOf(tenant.value))))
  {
    if tenant.None? || fails {
      return NotFound;
    }
    var data := Seqs.Filter(table, IsPublishedOf(tenant.value));
    var result := Fold(data);
    r := GlobalsFound(result);
  }

  /** An object key is present exactly when some row carries it. */
  lemma {:induction false} KeyValuesKeys(rows: seq<GlobalRow>, k: string)
    ensures k in KeyValues(rows) <==> exists i :: 0 <= i < |rows| && rows[i].key == k
  {
    if rows != [] {
      var init := rows[..|rows| - 1];
      KeyValuesKeys(init, k);
      if k in KeyValues(init) {
        var i :| 0 <= i < |init| && init[i].key == k;
        assert rows[i].key == k;
      }
      if exists i :: 0 <= i < |rows| && rows[i].key == k {
        var i :| 0 <= i < |rows| && rows[i].key == k;
        if i < |rows| - 1 {
          assert init[i].key == k;
        }
      }
    }
  }

  /** A key holds the value of the LAST row that carries it. */
  lemma {:induction false} KeyValuesLastWins(rows: seq<GlobalRow>, j: nat)
    requires j < |rows|
    requires forall l :: j < l < |rows| ==> rows[l].key != rows[j].key
    ensures rows[j].key in KeyValues(rows) && KeyValues(rows)[rows[j].key] == rows[j].value
  {
    if j < |rows| - 1 {
      var init := rows[..|rows| - 1];
      assert forall l :: j < l < |init| ==> init[l] == rows[l];
      KeyValuesLastWins(init, j);
      assert init[j] == rows[j];
    }
  }

  /** Every value served is the value of one of the tenant's published rows under that key. */
  lemma {:induction false} KeyValuesFrom(rows: seq<GlobalRow>, k: string)
    requires k in KeyValues(rows)
    ensures exists i :: 0 <= i < |rows| && rows[i].key == k && rows[i].value == KeyValues(rows)[k]
  {
    var last := rows[|rows| - 1];
    var init := rows[..|rows| - 1];
    if last.key != k {
      KeyValuesFrom(init, k);
      var i :| 0 <= i < |init| && init[i].key == k && init[i].value == KeyValues(init)[k];
      assert rows[i] == init[i];
    } else {
      assert rows[|rows| - 1].value == KeyValues(rows)[k];
    }
  }

  /** With no published rows for the tenant the object is empty. */
  lemma NoRowsEmpty(table: seq<GlobalRow>, tenant: TenantId)
    requires forall i :: 0 <= i < |table| ==> !(table[i].tenantId == tenant && table[i].status == "published")
    ensures KeyValues(Seqs.Filter(table, IsPublishedOf(tenant))) == map[]
  {
    Seqs.FilterNone(table, IsPublishedOf(tenant));
  }

  /** Served values come from the tenant's published rows only. */
  lemma ServedFromPublished(table: seq<GlobalRow>, tenant: TenantId, k: string)
    requires k in KeyValues(Seqs.Filter(table, IsPublishedOf(tenant)))
    ensures exists g :: g in table && g.tenantId == tenant && g.status == "published" && g.key == k
              && g.value == KeyValues(Seqs.Filter(table, IsPublishedOf(tenant)))[k]
  {
    var data := Seqs.Filter(table, IsPublishedOf(tenant));
    KeyValuesFrom(data, k);
    var i :| 0 <= i < |data| && data[i].key == k && data[i].value == KeyValues(data)[k];
    assert data[i] in data;
  }
}
