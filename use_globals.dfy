/**
 * The useGlobals hook (src/lib/hooks/use-globals.ts): the site settings start
 * as fixed defaults and are overlaid with the tenant's globals rows.
 */
module UseGlobals {
  import opened Wrappers
  import opened Json
  import Seqs
  import opened GlobalStore

  /** GlobalSettings: navigation is replaced wholesale, the three objects are shallow-merged. */
  datatype Settings = Settings(navigation: Value, header: Props, footer: Props, seo: Props)

  /** defaultGlobals */
  const Defaults: Settings := Settings(
    Arr([]),
    map["logo" := Str("/logo.png"), "showSearch" := Bool(true)],
    map["copyright" := Str("© 2025"), "links" := Arr([])],
    map["titleTemplate" := Str("%s | Site"), "defaultDescription" := Str(""), "ogImage" := Str("/og-image.png")])

  /** Whether a row changes the settings: a known key with a truthy value. */
  predicate Relevant(row: GlobalRow)
  {
    Truthy(row.value) && row.key in {"navigation", "header", "footer", "seo"}
  }

  /** One iteration of the `forEach`. */
  function Apply(g: Settings, row: GlobalRow): Settings
  {
    if row.key == "navigation" && Truthy(row.value) then g.(navigation := row.value)
    else if row.key == "header" && Truthy(row.value) then g.(header := Spread(g.header, SpreadOf(row.value)))
    else if row.key == "footer" && Truthy(row.value) then g.(footer := Spread(g.footer, SpreadOf(row.value)))
    else if row.key == "seo" && Truthy(row.value) then g.(seo := Spread(g.seo, SpreadOf(row.value)))
    else g
  }

  /** `parsedGlobals` after the rows, in order, over a copy of the defaults. */
  function Parsed(rows: seq<GlobalRow>): Settings
  {
    if rows == [] then Defaults
    else Apply(Parsed(rows[..|rows| - 1]), rows[|rows| - 1])
  }

  /** The loop of fetchGlobals. */
  method ParseGlobals(rows: seq<GlobalRow>) returns (parsed: Settings)
    ensures parsed == Parsed(rows)
  {
    parsed := Defaults;
    for i := 0 to |rows|
      invariant parsed == Parsed(rows[..i])
    {
      assert rows[..i + 1][..i] == rows[..i];
      var item := rows[i];
      if item.key == "navigation" && Truthy(item.value) {
        parsed := parsed.(navigation := item.value);
      } else if item.key == "header" && Truthy(item.value) {
        parsed := parsed.(header := Spread(parsed.header, SpreadOf(item.value)));
      } else if item.key == "footer" && Truthy(item.value) {
        parsed := parsed.(footer := Spread(parsed.footer, SpreadOf(item.value)));
      } else if item.key == "seo" && Truthy(item.value) {
        parsed := parsed.(seo := Spread(parsed.seo, SpreadOf(item.value)));
      }
    }
    assert rows[..|rows|] == rows;
  }

  /** The navigation is the value of the last truthy navigation row. */
  lemma {:induction false} NavigationLastWins(rows: seq<GlobalRow>, j: nat)
    requires j < |rows| && rows[j].key == "navigation" && Truthy(rows[j].value)
    requires forall l :: j < l < |rows| ==> !(rows[l].key == "navigation" && Truthy(rows[l].value))
    ensures Parsed(rows).navigation == rows[j].value
  {
    if j < |rows| - 1 {
      var init := rows[..|rows| - 1];
      assert forall l :: j < l < |init| ==> init[l] == rows[l];
      NavigationLastWins(init, j);
      assert init[j] == rows[j];
    }
  }

  /** Without a truthy navigation row the navigation stays the default empty list. */
  lemma {:induction false} NavigationDefault(rows: seq<GlobalRow>)
    requires forall l :: 0 <= l < |rows| ==> !(rows[l].key == "navigation" && Truthy(rows[l].value))
    ensures Parsed(rows).navigation == Arr([])
  {
    if rows != [] {
      var init := rows[..|rows| - 1];
      assert forall l :: 0 <= l < |init| ==> init[l] == rows[l];
      NavigationDefault(init);
    }
  }

  /**
   * Shallow merge: every default header, footer and seo key is still there,
   * and a header key that no truthy header row's object names keeps its
   * default value.
   */
  lemma {:induction false} MergeKeepsDefaults(rows: seq<GlobalRow>, k: string)
    ensures Defaults.header.Keys <= Parsed(rows).header.Keys
    ensures Defaults.footer.Keys <= Parsed(rows).footer.Keys
    ensures Defaults.seo.Keys <= Parsed(rows).seo.Keys
    ensures k in Defaults.header &&
            (forall l :: 0 <= l < |rows| && rows[l].key == "header" && Truthy(rows[l].value) ==> k !in SpreadOf(rows[l].value)) ==>
              Parsed(rows).header[k] == Defaults.header[k]
  {
    if rows != [] {
      var init := rows[..|rows| - 1];
      assert forall l :: 0 <= l < |init| ==> init[l] == rows[l];
      MergeKeepsDefaults(init, k);
      ParsedLast(rows);
      ApplyKeepsKeys(Parsed(init), rows[|rows| - 1], k);
    }
  }

  /** One row never removes a key, and a header key the row does not name keeps its value. */
  lemma ApplyKeepsKeys(g: Settings, row: GlobalRow, k: string)
    ensures g.header.Keys <= Apply(g, row).header.Keys
    ensures g.footer.Keys <= Apply(g, row).footer.Keys
    ensures g.seo.Keys <= Apply(g, row).seo.Keys
    ensures k in g.header && !(row.key == "header" && Truthy(row.value) && k in SpreadOf(row.value)) ==>
              Apply(g, row).header[k] == g.header[k]
  {
  }

  /** The last row is the last step. */
  lemma ParsedLast(rows: seq<GlobalRow>)
    requires rows != []
    ensures Parsed(rows) == Apply(Parsed(rows[..|rows| - 1]), rows[|rows| - 1])
  {
  }

  /** Rows with an unknown key or a falsy value make no difference. */
  lemma {:induction false} IrrelevantIgnored(rows: seq<GlobalRow>)
    ensures Parsed(rows) == Parsed(Seqs.Filter(rows, Relevant))
  {
    if rows != [] {
      var init := rows[..|rows| - 1];
      var last := rows[|rows| - 1];
      var kept := Seqs.Filter(init, Relevant);
      IrrelevantIgnored(init);
      ParsedLast(rows);
      FilterLast(rows);
      if Relevant(last) {
        assert Seqs.Filter(rows, Relevant) == kept + [last];
        ParsedSnoc(kept, last);
      } else {
        assert Seqs.Filter(rows, Relevant) == kept;
        ApplyIrrelevant(Parsed(init), last);
      }
    }
  }

  /** Filtering a list is filtering all but its last row, then that row if it is relevant. */
  lemma FilterLast(rows: seq<GlobalRow>)
    requires rows != []
    ensures Seqs.Filter(rows, Relevant) ==
              Seqs.Filter(rows[..|rows| - 1], Relevant) + (if Relevant(rows[|rows| - 1]) then [rows[|rows| - 1]] else [])
  {
    var init, last := rows[..|rows| - 1], rows[|rows| - 1];
    assert rows == init + [last];
    FilterSnoc(init, last);
  }

  lemma ApplyIrrelevant(g: Settings, row: GlobalRow)
    requires !Relevant(row)
    ensures Apply(g, row) == g
  {
  }

  lemma ParsedSnoc(rows: seq<GlobalRow>, last: GlobalRow)
    ensures Parsed(rows + [last]) == Apply(Parsed(rows), last)
  {
    assert (rows + [last])[..|rows|] == rows;
  }

  lemma FilterSnoc(init: seq<GlobalRow>, last: GlobalRow)
    ensures init + [last] == (init + [last])[..|init|] + [last]
    ensures Seqs.Filter(init + [last], Relevant) ==
              Seqs.Filter(init, Relevant) + (if Relevant(last) then [last] else [])
  {
    assert (init + [last])[..|init|] == init;
    Seqs.FilterAppend(init, [last], Relevant);
    FilterOne(last);
  }

  lemma FilterOne(last: GlobalRow)
    ensures Seqs.Filter([last], Relevant) == if Relevant(last) then [last] else []
  {
    assert [last][1..] == [];
    assert Seqs.Filter([last], Relevant) == (if Relevant(last) then [last] else []) + Seqs.Filter([], Relevant);
  }

  /**
   * The hook's state. `fetched` is what getAllGlobals answered: the tenant's
   * rows, or an error.
   */
  class GlobalsHook {
    var globals: Settings
    var isLoading: bool

    constructor ()
      ensures globals == Defaults && isLoading
    {
      globals := Defaults;
      isLoading := true;
    }

    /**
     * The effect. With no tenant nothing is fetched; on an error the
     * previous settings remain; otherwise they become the parsed rows laid
     * over the defaults, whatever they were before.
     */
    method Refresh(tenantId: Option<string>, fetched: Result<seq<GlobalRow>, string>)
      modifies this
      ensures !isLoading
      ensures tenantId.None? || tenantId.value == "" || fetched.Err? ==> globals == old(globals)
      ensures tenantId.Some? && tenantId.value != "" && fetched.Ok? ==> globals == Parsed(fetched.value)
    {
      if tenantId.None? || tenantId.value == "" {
        isLoading := false;
        return;
      }
      isLoading := true;
      if fetched.Err? {
        isLoading := false;
        return;
      }
      var parsed := ParseGlobals(fetched.value);
      globals := parsed;
      isLoading := false;
    }
  }
}
