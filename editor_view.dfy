/**
 * The page editor of src/components/EditorView.tsx: a working copy of the
 * page's sections, a merge update of one block that is saved at once as a
 * new version, the save-status indicator, and the publish guard.
 */
module EditorView {
  import opened Wrappers
  import opened Json
  import opened Ids
  import opened PageStore
  import Registry

  /** `page.content?.sections || []` */
  function InitialSections(content: Option<Content>): (r: seq<Section>)
    ensures content.None? || content.value.sections.None? ==> r == []
    ensures content.Some? && content.value.sections.Some? ==> r == content.value.sections.value
  {
    if content.Some? && content.value.sections.Some? then content.value.sections.value else []
  }

  /** The list handleBlockUpdate builds: block `i` keeps its id and type, and gets its props merged with the updates. */
  function Updated(sections: seq<Section>, i: nat, updates: Props): (r: seq<Section>)
    requires i < |sections|
  {
    sections[i := sections[i].(props := Spread(sections[i].props, updates))]
  }

  /** The copy-and-assign of handleBlockUpdate, on an array. */
  method UpdateSections(sections: seq<Section>, i: nat, updates: Props) returns (r: seq<Section>)
    requires i < |sections|
    ensures r == Updated(sections, i, updates)
  {
    var copy := new Section[|sections|](k requires 0 <= k < |sections| => sections[k]);
    assert copy[..] == sections;
    var block := copy[i];
    copy[i] := block.(props := Spread(block.props, updates));
    r := copy[..];
  }

  /** Only block `i` changes; it keeps its id and type; keys absent from the updates keep their values. */
  lemma UpdatedFrame(sections: seq<Section>, i: nat, updates: Props)
    requires i < |sections|
    ensures var r := Updated(sections, i, updates);
            && |r| == |sections|
            && (forall j :: 0 <= j < |r| && j != i ==> r[j] == sections[j])
            && r[i].id == sections[i].id && r[i].typ == sections[i].typ
            && r[i].props.Keys == sections[i].props.Keys + updates.Keys
            && (forall k :: k in updates ==> r[i].props[k] == updates[k])
            && (forall k :: k in sections[i].props && k !in updates ==> r[i].props[k] == sections[i].props[k])
  {
  }

  /** Two updates of the same block amount to one update with both merged, the later winning. */
  lemma UpdatedTwice(sections: seq<Section>, i: nat, u1: Props, u2: Props)
    requires i < |sections|
    ensures Updated(Updated(sections, i, u1), i, u2) == Updated(sections, i, Spread(u1, u2))
  {
    var once := Updated(sections, i, u1);
    assert once[i].props == Spread(sections[i].props, u1);
    assert Spread(Spread(sections[i].props, u1), u2) == Spread(sections[i].props, Spread(u1, u2));
  }

  /** Updates of different blocks commute. */
  lemma UpdatedCommute(sections: seq<Section>, i: nat, j: nat, u: Props, v: Props)
    requires i < |sections| && j < |sections| && i != j
    ensures Updated(Updated(sections, i, u), j, v) == Updated(Updated(sections, j, v), i, u)
  {
    var a := Updated(Updated(sections, i, u), j, v);
    var b := Updated(Updated(sections, j, v), i, u);
    assert |a| == |b|;
    forall k | 0 <= k < |a| ensures a[k] == b[k] {
    }
  }

  /** A block is edited only if both registries know its type; otherwise the "Unknown block type" card shows. */
  predicate KnownEditable(typ: string)
  {
    typ in Registry.BlockTypes && typ in Registry.EditorTypes
  }

  datatype Card = EditCard(preview: Registry.View, props: Props) | UnknownCard(typ: string)

  function CardOf(block: Section): (c: Card)
    ensures c.UnknownCard? <==> block.typ != "Hero" && block.typ != "PostsFeed"
    ensures c.UnknownCard? ==> c.typ == block.typ
    ensures c.EditCard? ==> Registry.Render(block) == Some(c.preview) && c.props == block.props
  {
    if KnownEditable(block.typ) then EditCard(Registry.Component(block.typ, block.props), block.props)
    else UnknownCard(block.typ)
  }

  datatype SaveStatus = Idle | Saving | Saved | SaveError

  /**
   * One open editor. The page store stands for the database behind
   * savePageSections and publishPage; `tenant` is the tenant the server
   * resolves for this page. `statusLog` records every status set, and
   * `timers` counts the "back to idle" timers a successful save started.
   */
  class EditorSession {
    const store: Store
    const pageId: nat
    var sections: seq<Section>
    var saveStatus: SaveStatus
    var statusLog: seq<SaveStatus>
    var timers: nat

    constructor (store: Store, pageId: nat, content: Option<Content>)
      ensures this.store == store && this.pageId == pageId
      ensures sections == InitialSections(content) && saveStatus == Idle && statusLog == [] && timers == 0
    {
      this.store := store;
      this.pageId := pageId;
      sections := InitialSections(content);
      saveStatus := Idle;
      statusLog := [];
      timers := 0;
    }

    /**
     * handleBlockUpdate: the working copy takes the update, the status goes
     * to saving, and the whole new list is saved as the page's next version;
     * the status then records the outcome. `fails` says that the database
     * rejects the version insert.
     */
    method HandleBlockUpdate(tenant: Option<TenantId>, i: nat, updates: Props, fails: bool)
      returns (r: Result<VersionRow, PageError>)
      requires i < |sections|
      requires store.Valid()
      modifies this, store
      ensures store.Valid()
      ensures sections == Updated(old(sections), i, updates)
      ensures r.Ok? <==> tenant.Some? && HasPage(old(store.pages), pageId, tenant.value) && !fails
      ensures r.Ok? ==> r.value.content == Content(Some(sections)) && r.value.number == NextNumber(old(store.versions), pageId)
      ensures r.Ok? ==> store.versions == old(store.versions) + [r.value] && store.pages == old(store.pages)
      ensures r.Err? ==> store.versions == old(store.versions) && store.pages == old(store.pages)
      ensures statusLog == old(statusLog) + [Saving, if r.Ok? then Saved else SaveError]
      ensures saveStatus == (if r.Ok? then Saved else SaveError)
      ensures timers == old(timers) + (if r.Ok? then 1 else 0)
    {
      var updated := UpdateSections(sections, i, updates);
      sections := updated;
      saveStatus := Saving;
      r := store.SavePageSections(tenant, pageId, Some(updated), fails);
      saveStatus := if r.Ok? then Saved else SaveError;
      statusLog := statusLog + [Saving, saveStatus];
      timers := timers + if r.Ok? then 1 else 0;
    }

    /** A "back to idle" timer fires: the status becomes idle whatever it is by then. */
    method TimerFires()
      requires timers > 0
      modifies this
      ensures saveStatus == Idle && statusLog == old(statusLog) + [Idle] && timers == old(timers) - 1
      ensures sections == old(sections)
    {
      saveStatus := Idle;
      statusLog := statusLog + [Idle];
      timers := timers - 1;
    }

    /**
     * handlePublish: nothing is published without a known tenant domain.
     * `fails` says that publishPage throws; the editor then reports the
     * error instead of success.
     */
    method HandlePublish(tenantDomain: Option<string>, fails: bool) returns (published: bool)
      requires store.Valid()
      modifies store
      ensures store.Valid()
      ensures published <==> tenantDomain.Some? && tenantDomain.value != "" && !fails
      ensures !published ==> store.pages == old(store.pages)
      ensures published ==> store.pages == WithStatus(old(store.pages), pageId, None, Published)
      ensures store.versions == old(store.versions)
    {
      if tenantDomain.None? || tenantDomain.value == "" {
        return false;
      }
      published := store.PublishPage(pageId, tenantDomain.value, fails);
    }
  }
}
