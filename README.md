# ftiaxesite CMS core in Dafny

ftiaxesite is a multi-tenant website builder. It serves many sites from one database, each site a *tenant*. It has:

- an editor that turns a page into a list of typed blocks (Hero, PostsFeed and others);
- a version history: every save appends a `page_versions` row;
- a draft/published switch on each page.

Posts, per-tenant *globals* (header, footer, navigation, settings) and public read-only API routes live in the same database.

This project models the logic of that system in Dafny and proves properties of the model. The database tables are classes holding sequences of rows. The server actions are methods over them. The client hooks and editor components are functions on values, or small classes for the state they keep.

## Modules

- **Tables and server actions**
  - `PageStore` (pages and page versions)
  - `PostStore` (posts)
  - `GlobalStore` (the `globals` table)
  - `TenantStore` (tenants, tenant_users and their actions)
  - `TenantWizard` (the tenant creation wizard)
- **Public routes:** `PublicPageRoute`, `PublicPostsRoute` and `PublicGlobalsRoute`.
- **Editor**
  - `EditorView` (the page editor session and its save status)
  - `BlockList` (drag reorder and the add-block menu)
  - `BlockEditor` (field edits)
  - `BlockPreview`
  - `PostsFeedEditor`
  - `Registry` (the known block types and what they render)
- **Client hooks**
  - `UsePages` and `UsePosts`, with the list updaters in `ObjectLists`
  - `UseGlobals` (defaults overlaid by the tenant's rows)
  - `TenantHooks` (useTenantId and both useTenants hooks)
- **Request and layout rules**
  - `TenantHost` (the tenant named by a host)
  - `Proxy` (the login guard)
  - `Slug` (slugs from names)
  - `Sidebar`, `Topbar` and `DataTable`
- **Shared helpers**
  - `Json` (JSON values with JavaScript truthiness, `||`, spread and `Number`)
  - `Strings` (ASCII case mapping, trim, split, decimal reading)
  - `Seqs` (filter, `.single()`, sort, insertion and removal)
  - `Wrappers` (Option and Result)
  - `Ids` (tenant ids and instants)

## How the model is set up

- Every Supabase query is an exact lookup on the rows held in memory.
- `.single()` succeeds only on exactly one matching row.
- The tenant id a request resolves to is a parameter, `None` when no tenant resolves. So are the signed-in user and the current time.
- A database error is a boolean parameter of the action whose query meets it (`fails`, or `insertFails`, `linkFails` and so on where an action makes several writes). Every server action of the page, post, globals and tenant stores whose code returns or throws a query's error takes one. A failed action changes nothing beyond the writes that had already succeeded.
- Each action is atomic and they run one after another.
- Database ids are natural numbers taken from one counter per table.
- The central invariant of `PageStore`: for every page, version numbers strictly increase in insertion order, so they are unique.
  - every method of the store preserves it;
  - a save appends the page's highest number plus one;
  - only a page inserted in the same action receives the hard-coded version 1.

How the editor saves (src/components/EditorView.tsx:68-91) and what the page actions do with a failed write:

- Every block update saves at once. There is no debounce and no quiet window.
- A failed save sets the status indicator to "error", not back to "idle".
- Only a successful save starts the timer that later sets the status to "idle", whatever the status is by then. After an error the status stays "error" until the next save.
- `createPage` and `clonePage` ignore a failed version insert, so a page can be left without versions.

## Model

| member | source | states |
|---|---|---|
| BlockList.IndexOfId | cms-frontend-builder/components/editor/block-list.tsx:53-54 | `findIndex` finds the first block with the id, and none exactly when no block has it |
| BlockList.ArrayMove | cms-frontend-builder/components/editor/block-list.tsx:55 | `arrayMove` keeps the list's length |
| BlockList.ArrayMoveSpec | cms-frontend-builder/components/editor/block-list.tsx:55 | the move is a permutation that puts the moved element at the target index and leaves the others in their order |
| BlockList.ArrayMoveSame | cms-frontend-builder/components/editor/block-list.tsx:55 | moving an element onto its own index changes nothing |
| BlockList.DragEnd | cms-frontend-builder/components/editor/block-list.tsx:50-57 | no reorder without a drop target or when dropped on itself; otherwise a permutation with the dragged block at the target's old index and the rest in order |
| BlockList.MenuTypes | cms-frontend-builder/components/editor/block-list.tsx:23-29 | the add-block menu offers exactly the five block types, each once |
| BlockList.AddBlockMenu.constructor | cms-frontend-builder/components/editor/block-list.tsx:40-41 | the menu starts closed with no block to add after |
| BlockList.AddBlockMenu.HandleAddClick | cms-frontend-builder/components/editor/block-list.tsx:59-62 | remembers the block to add after and opens the menu |
| BlockList.AddBlockMenu.HandleSelectBlockType | cms-frontend-builder/components/editor/block-list.tsx:64-68 | asks for the chosen type after the remembered block, then forgets it and closes |
| BlockList.AddBlockMenu.Close | cms-frontend-builder/components/editor/block-list.tsx:103 | closing only hides the menu; the remembered block stays |
| BlockEditor.TypesAgree | cms-frontend-builder/components/editor/block-editor.tsx:16-36 | the heading labels, the field panels and the add-block menu cover the same five types |
| BlockEditor.ShownLimit | cms-frontend-builder/components/editor/block-editor.tsx:164 | a missing or falsy limit shows 3, any other value itself |
| BlockEditor.ShownPosition | cms-frontend-builder/components/editor/block-editor.tsx:103 | a missing or falsy imagePosition shows "right", any other value itself |
| BlockEditor.TextEdit | cms-frontend-builder/components/editor/block-editor.tsx:42-123 | a text field edit emits an update of exactly that property, set to the typed text |
| BlockEditor.NumberOf | cms-frontend-builder/components/editor/block-editor.tsx:165 | `Number(value)` gives the number the text denotes, NaN (held as null) otherwise |
| BlockEditor.LimitEdit | cms-frontend-builder/components/editor/block-editor.tsx:165 | the count edit emits an update of `limit` alone, holding a number |
| BlockEditor.ImagesOf | cms-frontend-builder/components/editor/block-editor.tsx:129 | the gallery's images are the `images` list, or none when it is missing or not a list |
| BlockEditor.WithoutIndexSpec | cms-frontend-builder/components/editor/block-editor.tsx:141 | `filter((_, j) => j !== i)` drops exactly image i and keeps the others in order; an index outside the list drops nothing |
| BlockEditor.RemoveImage | cms-frontend-builder/components/editor/block-editor.tsx:141 | removing image i emits an update of `images` alone: the list without image i |
| BlockPreview.GalleryShown | src/components/editor/block-preview.tsx:100 | the preview shows the first six images, all of them when there are six or fewer |
| BlockPreview.FeedCards | src/components/editor/block-preview.tsx:117-123 | `Number(limit) \|\| 3` cards: 3 for a missing, NaN or zero limit, the limit when it is positive, none when it is negative |
| BlockPreview.AddImage | src/components/editor/block-preview.tsx:107 | adding an image emits an update of `images` alone: the old list with the new image at the end |
| BlockPreview.PreviewOf | src/components/editor/block-preview.tsx:12-26 | the switch shows "Unknown block type" exactly for a type outside the five |
| BlockPreview.AddedImageShown | src/components/editor/block-preview.tsx:94-107 | an added image lands last and is previewed while the gallery has fewer than six |
| BlockPreview.PositionDefaultsDiffer | src/components/editor/block-preview.tsx:60 | with no imagePosition the editor shows "right" while the preview puts the image on the left |
| BlockPreview.LimitsAgree | src/components/editor/block-preview.tsx:117 | for a positive numeric limit the editor's shown count and the preview's card count agree |
| EditorView.InitialSections | src/components/EditorView.tsx:28-30 | the working copy starts as the page's sections, or empty when the content or its sections are missing |
| EditorView.UpdateSections | src/components/EditorView.tsx:69-76 | the copy-and-assign on an array produces the merge-updated list |
| EditorView.UpdatedFrame | src/components/EditorView.tsx:68-77 | only block i changes; it keeps its id and type; its props are the old ones overlaid by the updates |
| EditorView.UpdatedTwice | src/components/EditorView.tsx:68-77 | two updates of one block equal one update with both merged, the later winning |
| EditorView.UpdatedCommute | src/components/EditorView.tsx:68-77 | updates of two different blocks commute |
| EditorView.CardOf | src/components/EditorView.tsx:163-180 | a block is edited (and rendered by the registry) exactly when both registries know its type; any other type shows the unknown-type card |
| EditorView.EditorSession.constructor | src/components/EditorView.tsx:28-31 | a session starts with the page's sections and status idle |
| EditorView.EditorSession.HandleBlockUpdate | src/components/EditorView.tsx:68-91 | the working copy takes the merge; the status goes saving then saved or error, saved exactly when the tenant owns the page and the insert succeeds; a success appends the next version of the page and starts one idle timer; a failure leaves the store unchanged |
| EditorView.EditorSession.TimerFires | src/components/EditorView.tsx:88 | a timer sets the status back to idle, whatever it is by then |
| EditorView.EditorSession.HandlePublish | src/components/EditorView.tsx:93-107 | published exactly when there is a tenant domain and publishPage does not throw; then the page's status becomes published; no version is written |
| GlobalStore.IndexOf | src/actions/globals.ts:90 | finds the first row keyed (tenant_id, key), and none exactly when no row has that pair |
| GlobalStore.RowOf | src/actions/globals.ts:83-88 | the upserted row carries the caller's tenant, key and value, and the item's status or "published" when it has none or an empty one |
| GlobalStore.Upsert | src/actions/globals.ts:80-92 | an upsert on the (tenant_id, key) conflict target grows the table by at most one row, keeps every row with another pair and contains the new row |
| GlobalStore.UpsertLookup | src/actions/globals.ts:80-92 | after an upsert the pair holds the new row and every other pair holds what it held; unique pairs stay unique |
| GlobalStore.UpsertUnique | src/actions/globals.ts:80-92 | an upsert keeps each (tenant_id, key) pair on at most one row |
| GlobalStore.ReplaceLookup | src/actions/globals.ts:80-92 | overwriting the row of an existing pair puts the new row under that pair and leaves every other pair as it was |
| GlobalStore.AppendLookup | src/actions/globals.ts:80-92 | appending the row of a new pair finds it under that pair and leaves every other pair as it was |
| GlobalStore.UniqueIndex | src/actions/globals.ts:90 | with unique pairs the lookup finds the only row with a pair |
| GlobalStore.LastWithKey | src/actions/globals.ts:79 | the last item naming a key is one of the items with that key, and there is none exactly when no item names it |
| GlobalStore.LastWithKeyCons | src/actions/globals.ts:79 | an item in front only counts for a key when no later item names it |
| GlobalStore.UpsertAllLastWins | src/actions/globals.ts:79-100 | saving a list leaves each named key holding the row of the last item that names it, and every other key as it was |
| GlobalStore.LastWinsCons | src/actions/globals.ts:79-100 | the key the last-wins rule expects is the same before and after upserting the first item |
| GlobalStore.UpsertAllUnique | src/actions/globals.ts:79-100 | a save never creates two rows with the same (tenant_id, key) |
| GlobalStore.UpsertAllOtherTenants | src/actions/globals.ts:84 | a save for one tenant leaves every other tenant's rows unchanged and in place |
| GlobalStore.KeyOrderIsOrder | src/actions/globals.ts:53 | `order("key")` is a total, transitive order on rows |
| GlobalStore.Store.constructor | src/actions/globals.ts:20-21 | an empty globals table |
| GlobalStore.Store.GetGlobals | src/actions/globals.ts:10-34 | "Tenant not found" without a tenant; a failed select is an error; otherwise exactly the tenant's published rows |
| GlobalStore.Store.GetAllGlobals | src/actions/globals.ts:39-63 | "Tenant not found" without a tenant; a failed select is an error; otherwise a reordering of exactly the tenant's rows, drafts included, sorted by key |
| GlobalStore.Store.SaveGlobals | src/actions/globals.ts:68-107 | "Tenant not found" changes nothing; otherwise the items are upserted in order and returned, and a failing upsert returns the error with the earlier upserts kept |
| GlobalStore.Store.UpsertEach | src/actions/globals.ts:79-100 | the loop applies exactly the items before the failing one, in order, and collects the row of each |
| GlobalStore.RowsOf | src/actions/globals.ts:79-100 | one row per item, each the item written for the tenant |
| GlobalStore.Store.InsertAll | src/actions/createTenantWizard.ts:222-224 | a multi-row insert adds all rows, or none when the database fails or a row takes a (tenant_id, key) pair already present |
| GlobalStore.NoConflictsUnique | src/actions/createTenantWizard.ts:222-224 | an insert without a conflict is exactly one that keeps the pairs unique |
| GlobalStore.NoClashNoConflict | src/actions/createTenantWizard.ts:222-224 | new rows with distinct pairs that the table lacks never conflict |
| GlobalStore.UpsertStep | src/actions/globals.ts:79-100 | one more loop pass upserts the next item onto the prefix saved so far |
| GlobalStore.UpsertAllSnoc | src/actions/globals.ts:79-100 | saving one more item is one more upsert after the rest |
| Json.Spread | src/lib/hooks/use-pages.ts:75 | `{ ...p, ...updates }` has every key of either object, the update's value winning |
| Json.ToNumber | src/components/editor/block-preview.tsx:117 | `Number(null)` is 0, `Number(undefined)` is NaN and a number is itself |
| ObjectLists.Prepend | src/lib/hooks/use-pages.ts:70-72 | `[item, ...prev]` puts the item first and the earlier list after it |
| ObjectLists.UpdateById | src/lib/hooks/use-pages.ts:74-76 | the list keeps its length; items with the id are merged with the updates and all others are kept |
| ObjectLists.DeleteById | src/lib/hooks/use-pages.ts:78-80 | an item is kept exactly when it was listed and does not carry the id |
| ObjectLists.UpdateMerges | src/lib/hooks/use-pages.ts:75 | a matching item holds the updated values, keeps its other keys, and gains no keys beyond its own and the update's |
| ObjectLists.UpdateIdempotent | src/lib/hooks/use-pages.ts:75 | repeating an update that does not rewrite `id` changes nothing more |
| ObjectLists.DeleteKeepsOrder | src/lib/hooks/use-pages.ts:79 | a delete keeps the remaining items in their order |
| ObjectLists.DeleteCount | src/lib/hooks/use-pages.ts:79 | a delete removes exactly as many items as carry the id |
| ObjectLists.PrependThenDelete | src/lib/hooks/use-pages.ts:70-80 | deleting a freshly added item by its id restores the earlier list less that id |
| UsePages.ListedPage | src/lib/hooks/use-pages.ts:48-56 | a listed page has exactly the seven fields, both update stamps equal to the row's, no blocks, and the row's id |
| UsePages.ListedPages | src/lib/hooks/use-pages.ts:41-58 | an error from listPages leaves no pages; otherwise one formatted page per row, in order |
| UsePages.BlockId | src/lib/hooks/use-pages.ts:186 | the section's id when it has a non-empty one, else "block-" and its index |
| UsePages.SectionsToBlocks | src/lib/hooks/use-pages.ts:185-190 | one block per section, in order, with the section's type and props as both `data` and `props` |
| UsePages.VersionSections | src/lib/hooks/use-pages.ts:141 | the latest version's sections, or [] without a version or without sections |
| UsePages.SectionsToBlocksPrefix | src/lib/hooks/use-pages.ts:185-190 | converting a prefix of the sections gives the prefix of the blocks, so ids by index are stable |
| UsePages.PagesHook.constructor | src/lib/hooks/use-pages.ts:27-28 | no pages, loading |
| UsePages.PagesHook.Refresh | src/lib/hooks/use-pages.ts:30-68 | without a tenant id nothing is fetched and the list stays; otherwise the list becomes the formatted result, [] on an error; loading ends |
| UsePages.PagesHook.AddPage | src/lib/hooks/use-pages.ts:70-72 | the list becomes the prepended list |
| UsePages.PagesHook.UpdatePage | src/lib/hooks/use-pages.ts:74-76 | the list becomes the updated list |
| UsePages.PagesHook.DeletePage | src/lib/hooks/use-pages.ts:78-80 | the list becomes the filtered list |
| UsePages.PageHook.constructor | src/lib/hooks/use-pages.ts:87-88 | no page, loading |
| UsePages.PageHook.Refresh | src/lib/hooks/use-pages.ts:90-153 | no fetch without a tenant id, without a page id, or for "new"; a missing tenant or page keeps the old page; otherwise the page row with its latest version's sections; loading ends |
| UsePages.PageBlocksHook.constructor | src/lib/hooks/use-pages.ts:160-161 | no blocks, loading |
| UsePages.PageBlocksHook.Refresh | src/lib/hooks/use-pages.ts:163-202 | no fetch under the same conditions; otherwise the blocks are the converted sections of the latest version; loading ends |
| UsePosts.ListedPost | cms-frontend-builder/lib/hooks/use-posts.ts:42-52 | a listed post has exactly the nine fields, no cover image, `publishedAt` equal to `published_at` and null exactly when the row was never published |
| UsePosts.ListedPosts | cms-frontend-builder/lib/hooks/use-posts.ts:35-54 | an error from listPosts leaves no posts; otherwise one formatted post per row, in order |
| UsePosts.PostsHook.constructor | cms-frontend-builder/lib/hooks/use-posts.ts:21-22 | no posts, loading |
| UsePosts.PostsHook.Refresh | cms-frontend-builder/lib/hooks/use-posts.ts:24-64 | without a tenant id the list stays; otherwise the formatted result, [] on an error; loading ends |
| UsePosts.PostsHook.AddPost | cms-frontend-builder/lib/hooks/use-posts.ts:66-68 | the list becomes the prepended list |
| UsePosts.PostsHook.UpdatePost | cms-frontend-builder/lib/hooks/use-posts.ts:70-72 | the list becomes the updated list |
| UsePosts.PostsHook.DeletePost | cms-frontend-builder/lib/hooks/use-posts.ts:74-76 | the list becomes the filtered list |
| UsePosts.PostHook.constructor | cms-frontend-builder/lib/hooks/use-posts.ts:83-84 | no post, loading |
| UsePosts.PostHook.Refresh | cms-frontend-builder/lib/hooks/use-posts.ts:86-124 | no fetch without a tenant id, without a post id, or for "new"; an error keeps the old post; otherwise the formatted post |
| PageStore.PagesWithId | src/actions/pages.ts:152-157 | exactly the page rows with the id and the tenant |
| PageStore.PagesWithSlug | src/actions/pages.ts:94-99 | exactly the page rows with the slug and the tenant |
| PageStore.PagesOfTenant | src/actions/pages.ts:449-452 | exactly the tenant's page rows |
| PageStore.PagesWithIdUnique | src/actions/pages.ts:152-157 | with increasing ids at most one row matches an id and a tenant |
| PageStore.NoIdNoRows | src/actions/pages.ts:152-157 | nothing matches an id no row has |
| PageStore.FindPageOwned | src/actions/pages.ts:152-161 | `.single()` finds a page exactly when the tenant owns a page with that id, and then it is that page |
| PageStore.WithStatus | src/actions/pages.ts:201-204 | an update changes the status of exactly the matched rows and nothing else |
| PageStore.NewerFirstOrder | src/actions/pages.ts:453 | `order("updated_at", { ascending: false })` is total and transitive |
| PageStore.VersionsOf | src/actions/pages.ts:377-380 | exactly the page's version rows |
| PageStore.Latest | src/actions/pages.ts:164-170 | the highest-numbered version of the page, and none exactly when the page has no version |
| PageStore.NextNumber | src/actions/pages.ts:172 | `(highest \|\| 0) + 1` is above every number the page has, 1 for a page with none, and otherwise one more than an existing number |
| PageStore.AppendNextIncreasing | src/actions/pages.ts:172-182 | appending a version numbered that way keeps each page's numbers strictly increasing |
| PageStore.FreshPageNumbers | src/actions/pages.ts:422-427 | on a page just inserted the next number is 1, so the hard-coded version 1 keeps the numbers increasing |
| PageStore.LatestIsLastInserted | src/actions/pages.ts:53-61 | while numbers increase, the highest-numbered version is the one inserted last |
| PageStore.EarlierRowsLower | src/actions/pages.ts:53-61 | while numbers increase, every earlier version of the last row's page has a lower number |
| PageStore.VersionsNewestFirstSpec | src/actions/pages.ts:377-381 | the listing is a reordering of exactly the page's versions, highest number first |
| PageStore.ConsistentAddVersion | src/actions/pages.ts:175-184 | a version for an owned page with the next id and number keeps the tables' invariant |
| PageStore.ConsistentAddPage | src/actions/pages.ts:406-415 | a page with the next id keeps the invariant and has no versions |
| PageStore.ConsistentWithStatus | src/actions/pages.ts:201-204 | a status update keeps the invariant |
| PageStore.SameKeysOwned | src/actions/pages.ts:201-204 | pages with the same ids and tenants at the same positions own the same versions |
| PageStore.VersionsCarryPageTenant | src/actions/pages.ts:377-380 | under the invariant a page's versions all carry the page's tenant, so listing by page id alone shows no other tenant's rows |
| PageStore.LatestContent | src/actions/pages.ts:51-62 | content exactly when the page has a version |
| PageStore.CloneTitle | src/actions/pages.ts:314 | the new title when given and non-empty, else the original title with " (Copy)" |
| PageStore.RestoredMeta | src/actions/pages.ts:531-535 | the old meta with `restored_from` and `restored_at` set over it, every other key kept |
| PageStore.Store.constructor | src/actions/pages.ts:39-40 | empty pages and page_versions tables that satisfy the invariant |
| PageStore.Store.GetPageById | src/actions/pages.ts:18-68 | "Tenant not found" without a tenant; a failed select is an error; otherwise the page exactly when the tenant owns it, with its latest content, and else the `.single()` error |
| PageStore.Store.GetPageBySlug | src/actions/pages.ts:73-123 | "Tenant not found" without a tenant; a failed select is an error; otherwise a page exactly when one row of the tenant has the slug, with its latest content |
| PageStore.Store.ListVersions | src/actions/pages.ts:344-391 | "Tenant not found", "Page not found" for a page the tenant does not own, an error when the versions select fails, else exactly the page's versions, all the tenant's, strictly highest number first |
| PageStore.Store.ListPages | src/actions/pages.ts:439-463 | "Tenant not found" without a tenant; a failed select is an error; else a reordering of exactly the tenant's pages, most recently updated first |
| PageStore.Store.InsertPage | src/actions/pages.ts:406-415 | a draft row with the next id is appended and has no versions |
| PageStore.Store.AppendVersion | src/actions/pages.ts:164-184 | a version numbered after the page's highest is appended and the invariant holds |
| PageStore.Store.InsertFirstVersion | src/actions/pages.ts:422-427 | version 1 of a page without versions is appended and the invariant holds |
| PageStore.Store.SavePageSections | src/actions/pages.ts:128-195 | "Tenant not found", "Page not found" and a failed insert change nothing; otherwise one version `{ sections }` numbered after the highest |
| PageStore.Store.PublishPage | src/actions/pages.ts:200-219 | a failed update throws and changes nothing; otherwise every row with the id becomes published whatever its tenant, and the result is `ok` |
| PageStore.Store.SetDraft | src/actions/pages.ts:224-262 | "Tenant not found", a failed update or the `.single()` error change nothing; otherwise the tenant's page becomes draft and is returned |
| PageStore.Store.ClonePage | src/actions/pages.ts:267-339 | errors, a failed page insert included, change nothing; otherwise a new draft page of the tenant with the new slug and title, with version 1 holding the original's latest content when it has one and the version insert succeeds |
| PageStore.Store.CreatePage | src/actions/pages.ts:396-434 | "Tenant not found" and a failed page insert change nothing; otherwise a new draft page, with version 1 holding no sections unless that insert fails, which is ignored |
| PageStore.Store.RestoreVersion | src/actions/pages.ts:468-549 | errors, a failed insert included, change nothing; otherwise a new head version copying a version of the same page, with provenance in its meta |
| PageStore.VersionsWithId | src/actions/pages.ts:501-506 | exactly the version rows with the id on the page |
| PageStore.FindVersionOwnPage | src/actions/pages.ts:501-510 | a version id of another page is "Version not found", so restore never copies across pages |
| PageStore.NewestFirstStrict | src/actions/pages.ts:381 | while numbers increase, the listing has no two versions with the same number |
| PageStore.VersionsOfNoDuplicates | src/actions/pages.ts:377-380 | each version row appears once in the page's versions |
| PostStore.StoredExcerpt | src/actions/posts.ts:92 | `excerpt \|\| null`: the excerpt exactly when it is given and non-empty |
| PostStore.StoredStatus | src/actions/posts.ts:94 | `status \|\| "draft"` |
| PostStore.StoredPublishedAt | src/actions/posts.ts:95 | a publication time, equal to now, exactly when the status given is "published" |
| PostStore.Written | src/actions/posts.ts:89-96 | a saved row keeps its id, tenant and update stamp and takes the given title, slug, content and the stored excerpt, status and publication time |
| PostStore.WrittenStamped | src/actions/posts.ts:94-95 | a saved row has a publication time exactly when it is published, so saving as draft clears it |
| PostStore.UpdateWhere | src/actions/posts.ts:87-98 | an update changes exactly the rows with the id and the tenant |
| PostStore.DeleteWhere | src/actions/posts.ts:184-188 | a row stays exactly when it does not have both the id and the tenant |
| PostStore.FindPost | src/actions/posts.ts:49-54 | a found post is a row of the tenant with the id |
| PostStore.SelectedUnique | src/actions/posts.ts:52-54 | with increasing ids at most one row is selected |
| PostStore.NoneSelected | src/actions/posts.ts:52-54 | nothing is selected when no row matches |
| PostStore.FindPostOwned | src/actions/posts.ts:49-54 | `.single()` finds a post exactly when the tenant has a post with the id |
| PostStore.UpdatedRow | src/actions/posts.ts:87-100 | after an update that keeps ids and tenants, the selected row is the old row updated |
| PostStore.FindAt | src/actions/posts.ts:49-54 | with unique ids, `.single()` returns the one row the filter selects |
| PostStore.UpdateKeepsIds | src/actions/posts.ts:87-100 | an update that keeps ids keeps them increasing |
| PostStore.Store.constructor | src/actions/posts.ts:20-21 | an empty posts table satisfying the invariant |
| PostStore.Store.ListPosts | src/actions/posts.ts:10-34 | "Tenant not found" without a tenant; a failed select is an error; else a reordering of exactly the tenant's posts, most recently updated first |
| PostStore.Store.GetPostById | src/actions/posts.ts:39-64 | "Tenant not found" without a tenant; a failed select is an error; otherwise the post exactly when the tenant has one with the id, and else the `.single()` error |
| PostStore.Store.SavePost | src/actions/posts.ts:69-134 | "Tenant not found" and a failed write change nothing; with an id the tenant's row is overwritten, or the `.single()` error when it has none; without an id a new row is inserted |
| PostStore.Store.UpdateSelected | src/actions/posts.ts:87-104 | the selected row is updated and returned, or the error with nothing changed when no row is selected; the invariant holds |
| PostStore.UpdateKeepsValid | src/actions/posts.ts:87-104 | an update that keeps ids and tenants and stamps its rows keeps the table invariant |
| PostStore.UpdateNone | src/actions/posts.ts:87-104 | an update that selects no row leaves the table as it was |
| PostStore.Store.PublishPost | src/actions/posts.ts:139-169 | "Tenant not found" and a failed update change nothing; else the tenant's post becomes published and stamped with now, or the `.single()` error |
| PostStore.Store.DeletePost | src/actions/posts.ts:174-199 | "Tenant not found" and a failed delete change nothing; else the tenant's rows with the id go and the result is success, even when none existed |
| PostStore.Published | src/actions/posts.ts:151-154 | a published row is stamped |
| PostStore.DeleteKeepsOrder | src/actions/posts.ts:184-188 | a delete keeps ids increasing |
| PostStore.DeleteOnlySelected | src/actions/posts.ts:184-188 | a delete never removes a row of another tenant or with another id |
| PublicPageRoute.SlugParam | src/app/api/public/page/route.ts:10 | the slug parameter when present and non-empty, else "/" |
| PublicPageRoute.Get | src/app/api/public/page/route.ts:7-23 | 404 without a tenant or on a database error; otherwise a page exactly when one published row of the tenant has the slug, and then that row |
| PublicPageRoute.UniqueMatchFound | src/app/api/public/page/route.ts:12-18 | the only published row of the tenant with the slug is the answer |
| PublicPageRoute.NoneMatch | src/app/api/public/page/route.ts:12-18 | no matching row selects nothing |
| PublicPageRoute.DraftNotServed | src/app/api/public/page/route.ts:17 | after setDraft the page is not served under any slug |
| PublicPostsRoute.LimitParam | src/app/api/public/posts/route.ts:10 | a missing or empty limit is 10 |
| Strings.ParseInt | src/app/api/public/posts/route.ts:10 | `parseInt` is NaN exactly when no digit follows the leading white space and the optional sign; otherwise the value is the number written by the leading digits, negated after a `-` sign, so "  42", "+7", "-12" and "2.5" read 42, 7, -12 and 2 |
| PublicPostsRoute.LaterFirstOrder | src/app/api/public/posts/route.ts:17 | `order("published_at", { ascending: false })`, nulls first, is total and transitive |
| PublicPostsRoute.Get | src/app/api/public/posts/route.ts:7-23 | 404 without a tenant, with a limit that is not a number or is negative, or when the select fails; otherwise exactly min(limit, count) posts, the first of the tenant's published posts latest first |
| PublicPostsRoute.PublicPostsSpec | src/app/api/public/posts/route.ts:12-17 | before the limit, a reordering of exactly the tenant's published posts, latest first |
| PublicPostsRoute.AllWithinLimit | src/app/api/public/posts/route.ts:18 | with no more published posts than the limit, all of them are served |
| PublicPostsRoute.ServedAreStamped | src/app/api/public/posts/route.ts:16-17 | when the table stamps exactly its published rows, every post served has a publication time, latest first |
| PublicGlobalsRoute.Fold | src/app/api/public/globals/route.ts:20-23 | the `forEach` builds the key-to-value object of the rows |
| PublicGlobalsRoute.Get | src/app/api/public/globals/route.ts:7-26 | 404 exactly without a tenant or on a database error; otherwise the object built from the tenant's published rows |
| PublicGlobalsRoute.KeyValuesKeys | src/app/api/public/globals/route.ts:21-23 | a key is in the object exactly when some row carries it |
| PublicGlobalsRoute.KeyValuesLastWins | src/app/api/public/globals/route.ts:21-23 | a key holds the value of the last row carrying it |
| PublicGlobalsRoute.KeyValuesFrom | src/app/api/public/globals/route.ts:21-23 | every value in the object is the value of a row with its key |
| PublicGlobalsRoute.NoRowsEmpty | src/app/api/public/globals/route.ts:20-21 | without published rows the object is empty |
| PublicGlobalsRoute.ServedFromPublished | src/app/api/public/globals/route.ts:11-23 | every value served comes from a published row of the tenant with that key |
| UseGlobals.ParseGlobals | src/lib/hooks/use-globals.ts:69-82 | the loop's result is the rows applied in order over the defaults |
| UseGlobals.NavigationLastWins | src/lib/hooks/use-globals.ts:73-74 | the navigation is the value of the last navigation row with a truthy value |
| UseGlobals.NavigationDefault | src/lib/hooks/use-globals.ts:30-31 | without such a row the navigation stays the default empty list |
| UseGlobals.MergeKeepsDefaults | src/lib/hooks/use-globals.ts:75-81 | header, footer and seo keep every default key, and a header key no header row names keeps its default value |
| UseGlobals.ApplyKeepsKeys | src/lib/hooks/use-globals.ts:72-82 | one row never removes a header, footer or seo key, and a header key the row does not name keeps its value |
| UseGlobals.IrrelevantIgnored | src/lib/hooks/use-globals.ts:72-82 | rows with an unknown key or a falsy value make no difference |
| UseGlobals.ApplyIrrelevant | src/lib/hooks/use-globals.ts:72-82 | one such row leaves the settings as they are |
| UseGlobals.ParsedSnoc | src/lib/hooks/use-globals.ts:72 | one more row is one more step of the `forEach` |
| UseGlobals.FilterSnoc | src/lib/hooks/use-globals.ts:72 | filtering rows and then appending one is filtering the longer list |
| UseGlobals.FilterLast | src/lib/hooks/use-globals.ts:72 | filtering a list keeps what filtering all but its last row keeps, then that row when it is relevant |
| UseGlobals.GlobalsHook.constructor | src/lib/hooks/use-globals.ts:49-50 | the defaults, loading |
| UseGlobals.GlobalsHook.Refresh | src/lib/hooks/use-globals.ts:52-89 | no tenant or an error keeps the settings; otherwise they become the parsed rows over the defaults, whatever they were; loading ends |
| Registry.WhenTruthy | src/blocks/registry.tsx:13 | `{x && ...}` shows a value exactly when it is truthy |
| Registry.Hero | src/blocks/registry.tsx:10-37 | the title is always shown; the subtitle and the image exactly when they are truthy |
| Registry.PostsFeed | src/blocks/registry.tsx:49-79 | the placeholder exactly when `posts` is undefined or has length 0; otherwise one article per post, showing its title and its excerpt exactly when that is truthy |
| Registry.Render | src/blocks/registry.tsx:98-107 | nothing exactly for a type other than Hero and PostsFeed; otherwise that component with the block's props |
| PostsFeedEditor.FieldName | src/blocks/editors/PostsFeedEditor.tsx:19 | the edited field is never `id` |
| PostsFeedEditor.AsArray | src/blocks/editors/PostsFeedEditor.tsx:23 | the posts as a JSON array, one object per post in order |
| PostsFeedEditor.HandlePostUpdate | src/blocks/editors/PostsFeedEditor.tsx:19-24 | the update names only `posts` and holds the updated list |
| PostsFeedEditor.UpdatedPostsSpec | src/blocks/editors/PostsFeedEditor.tsx:20-22 | the list keeps its length, order and ids; other posts are unchanged; a post with the id has the field set and keeps every other key |
| PostsFeedEditor.PostEditorsOf | src/blocks/editors/PostsFeedEditor.tsx:47-63 | an excerpt editor exactly when the post defines `excerpt` |
| PostsFeedEditor.Render | src/blocks/editors/PostsFeedEditor.tsx:26-68 | the placeholder exactly for no posts, otherwise one editor per post, each with an excerpt editor exactly when the post defines one |
| Slug.SkipOthers | src/actions/tenants.ts:292 | the rest of the text after its leading run of characters outside a-z0-9 |
| Slug.DashRuns | src/actions/tenants.ts:292 | the result uses only a-z, 0-9 and "-", has no "--", is empty exactly when the input is, and starts with the input's first character or "-" |
| Slug.DashRunsKept | src/actions/tenants.ts:292 | the replacement keeps every letter and digit of the input, in order |
| Slug.DashRunsRun | src/actions/tenants.ts:292 | a maximal run of characters outside a-z0-9 becomes exactly one "-" |
| Slug.DashRunsSplit | src/actions/tenants.ts:292 | text ending in a letter or digit is replaced independently of what follows it |
| Slug.StripStart | src/actions/tenants.ts:293 | drops exactly the leading dashes |
| Slug.StripEnd | src/actions/tenants.ts:293 | drops exactly the trailing dashes |
| Slug.StripDashes | src/actions/tenants.ts:293 | the result neither starts nor ends with "-" and keeps the alphabet and the absence of "--" |
| Slug.StripInfix | src/actions/tenants.ts:293 | a piece cut from the end of a slug keeps its alphabet and the absence of "--" |
| Slug.Slugify | src/actions/tenants.ts:289-293 | every generated slug uses only a-z, 0-9 and "-", has no "--", and neither starts nor ends with "-" |
| Slug.SlugifyKept | src/actions/tenants.ts:289-293 | the slug holds exactly the letters and digits of the lowercased name, in order |
| Slug.DashRunsFixed | src/actions/tenants.ts:292 | text already in that shape passes the replacement unchanged |
| Slug.SlugFixed | src/actions/tenants.ts:289-293 | a slug is its own slug |
| Slug.SlugifyIdempotent | src/actions/tenants.ts:289-293 | generating a slug from a slug changes nothing |
| Slug.DashRunsOthers | src/actions/tenants.ts:292 | text with no a-z0-9 becomes nothing or one "-" |
| Slug.NoLatinEmpty | src/actions/tenants.ts:289-293 | a name without an ASCII letter or digit, such as a Greek one, gets the empty slug |
| Slug.TrimKeepsOthers | src/actions/tenants.ts:291 | trimming adds no a-z0-9 character |
| TenantStore.OrText | src/actions/tenants.ts:344 | `o \|\| d` for an optional string |
| TenantStore.Renamed | src/actions/tenants.ts:122-125 | the update renames exactly the tenant with the id |
| TenantStore.SettingsFields | src/actions/tenants.ts:133-140 | no settings row reads as `{}` |
| TenantStore.SetIf | src/actions/tenants.ts:143-145 | `...(flag && { key: value })` sets the key exactly when the argument is truthy and changes no other key |
| TenantStore.MergeSettings | src/actions/tenants.ts:140-146 | a truthy domain is written trimmed, a truthy brandColor as primaryColor, a truthy defaultLocale as itself; every other key and every falsy argument keeps the current value |
| TenantStore.SameReads | src/actions/tenants.ts:141-146 | two settings objects that read alike are equal |
| TenantStore.MergeNothing | src/actions/tenants.ts:141-146 | with no truthy argument the settings are written back unchanged |
| TenantStore.MergeIdempotent | src/actions/tenants.ts:141-146 | saving the same form twice is saving it once |
| TenantStore.InfoOf | src/actions/tenants.ts:42-53 | domain, brand colour and locale are the settings' truthy values, else "", "#6366f1" and "en" |
| TenantStore.MergedReadsBack | src/actions/tenants.ts:141-146 | what updateTenant writes getTenantById reads back: the trimmed domain, the brand colour and the locale |
| TenantStore.ReadsWritten | src/actions/tenants.ts:43-45 | a setting stored as a string reads back as that string |
| TenantStore.CreatedSettings | src/actions/tenants.ts:342-346 | a new tenant's settings are exactly the trimmed domain, `brandColor \|\| "#0d9488"` as primaryColor, and "el" |
| TenantStore.CreatedReadsBack | src/actions/tenants.ts:342-346 | a new tenant with a domain and a colour reads back with them and the locale "el" |
| TenantStore.SettingsItem | src/actions/tenants.ts:151-156 | the settings row is keyed "settings" and published |
| TenantStore.Tenants.constructor | src/actions/tenants.ts:24-25 | empty tenants and tenant_users tables over the given globals and pages tables |
| TenantStore.Tenants.SlugTakenExactly | src/actions/tenants.ts:296-304 | while slugs are unique the check sees a tenant exactly when one has the slug |
| TenantStore.Tenants.LinkOfExactly | src/actions/tenants.ts:109-118 | while links are unique the lookup finds the user's link exactly when there is one |
| TenantStore.Tenants.InsertTenant | src/actions/tenants.ts:307-314 | a row with the next id and a free slug is appended and the invariant holds |
| TenantStore.Tenants.RemoveTenant | src/actions/tenants.ts:227-230 | the tenant goes and its tenant_users rows go with it |
| TenantStore.Tenants.AddLink | src/actions/tenants.ts:321-327 | one link for a pair that had none is appended |
| TenantStore.Tenants.CreateTenant | src/actions/tenants.ts:246-364 | no user, a taken slug or a failed insert change nothing; a failed owner link deletes the new tenant again; otherwise the tenant, its owner link and, unless that write fails, its settings row |
| TenantStore.Tenants.UpdateTenant | src/actions/tenants.ts:63-172 | no user, no link or a failed rename change nothing; otherwise a truthy name is written trimmed and the merged settings are upserted, success exactly when the upsert succeeds |
| TenantStore.Tenants.Rename | src/actions/tenants.ts:122-125 | the tenants table after the rename, ids and slugs kept |
| TenantStore.Tenants.WriteSettings | src/actions/tenants.ts:133-164 | the merged settings are upserted unless the write fails |
| TenantStore.Tenants.UpsertSettings | src/actions/tenants.ts:148-160 | one upsert on (tenant_id, key) of the published settings row, success exactly when it does not fail |
| TenantStore.Tenants.DeleteTenant | src/actions/tenants.ts:177-241 | only a linked owner or admin may delete; then the tenant and its links go unless the delete fails, and nothing changes on any error |
| TenantStore.Tenants.GetTenantById | src/actions/tenants.ts:19-58 | a tenant exactly when one row has the key as slug or id, read with defaults; otherwise "Tenant not found" |
| TenantStore.Tenants.LinkUserToTenant | src/actions/tenants.ts:370-447 | no user or no tenant is an error; an existing link is success with nothing inserted; otherwise the link is inserted with the given role, "owner" by default, unless that fails; on success the user is linked |
| TenantStore.LinkRole | src/actions/tenants.ts:370 | the role is "owner" when none is passed, and the one passed otherwise |
| TenantStore.Tenants.AdminUpdateTenant | src/actions/updateTenant.ts:6-54 | no access check; a failed rename changes nothing; otherwise the name is written as given (an undefined name leaves it) and the merged settings upserted |
| TenantStore.Tenants.AdminDeleteTenant | src/actions/updateTenant.ts:56-66 | no access check; the tenant and its links go unless the delete fails |
| TenantStore.RemoveFresh | src/actions/tenants.ts:329-333 | deleting the tenant just inserted restores both tables |
| TenantStore.DeletedGone | src/actions/tenants.ts:226-230 | after a delete exactly the other tenants and their links remain |
| TenantStore.RenamedSpec | src/actions/tenants.ts:122-125 | a rename keeps every id and slug and changes exactly the named tenant's name |
| TenantWizard.WizardId | src/actions/createTenantWizard.ts:134 | the normalised id has no uppercase letter and neither starts nor ends with white space |
| TenantWizard.TrimInfix | src/actions/createTenantWizard.ts:134 | trimming only keeps characters of the string |
| TenantWizard.WizardIdIdempotent | src/actions/createTenantWizard.ts:134 | normalising a normalised id changes nothing |
| TenantWizard.NormalizeDomain | src/actions/createTenantWizard.ts:212-214 | the result starts with "http": the trimmed domain when it does, else "https://" before it |
| TenantWizard.NormalizeIdempotent | src/actions/createTenantWizard.ts:280-282 | normalising a normalised domain changes nothing |
| TenantWizard.WizardColor | src/actions/createTenantWizard.ts:215 | a truthy primaryColor, else a truthy brandColor, else "#00bfa6" |
| TenantWizard.DefaultKeysUnique | src/actions/createTenantWizard.ts:189-220 | the four default globals belong to the tenant and have distinct keys |
| TenantWizard.DefaultPublished | src/actions/createTenantWizard.ts:189-220 | of the defaults only the settings row is published |
| TenantWizard.DefaultsInsertable | src/actions/createTenantWizard.ts:222-224 | a tenant with no globals yet can take the defaults without a key conflict |
| TenantWizard.HomeRenders | src/actions/createTenantWizard.ts:248-261 | the home page's Hero shows the welcome title, subtitle and image, and its PostsFeed, with no posts, the placeholder |
| TenantWizard.CreateTenantWizard | src/actions/createTenantWizard.ts:8-292 | no user, a failed check, a taken id, a failed insert or a failed owner link fail with every table unchanged; otherwise the tenant with the normalised id and trimmed name, the owner link, the defaults unless that insert fails, the draft "/" Home page and its version 1 unless those fail, and the id with the normalised domain returned |
| TenantWizard.RegisterTenant | src/actions/createTenantWizard.ts:134-186 | the tenant and its owner link exactly when no step fails and the id is free; a failed link deletes the new tenant again |
| TenantWizard.SeedTenant | src/actions/createTenantWizard.ts:188-277 | the defaults, the Home page and its first version, each write skipped when it fails |
| TenantHost.HostHeader | src/lib/tenant.ts:14-18 | a non-empty Host header, else a non-empty x-forwarded-host, else no host |
| TenantHost.SubdomainAsWritten | src/lib/tenant.ts:24-39 | the order the code tests in: a tenant exactly when the hostname has at least two dots, namely its text before the first dot |
| TenantHost.Subdomain | src/lib/tenant.ts:24-39 | corrected order: a tenant exactly when the hostname is neither loopback name and has at least two dots, namely its first label |
| TenantHost.GetTenantIdAsWritten | src/lib/tenant.ts:12-40 | no host gives no tenant; the port is cut at the first ":"; a tenant has neither "." nor ":" |
| TenantHost.GetTenantId | src/lib/tenant.ts:12-40 | with the loopback names checked first: a tenant exactly when the port-less hostname is not loopback and has at least two dots |
| TenantHost.GetTenantIdClientAsWritten | src/lib/tenant-client.ts:7-26 | no window gives no tenant; otherwise a tenant exactly when the hostname has at least two dots |
| TenantHost.GetTenantIdClient | src/lib/tenant-client.ts:7-26 | with the loopback names checked first, a tenant exactly when the hostname is not loopback and has at least two dots |
| TenantHost.ClientAgrees | src/lib/tenant-client.ts:12-25 | server and browser name the same tenant for every host without a port, as written and corrected |
| TenantHost.CorrectionOnlyLoopback | src/lib/tenant.ts:28-36 | the correction changes the answer for no hostname other than the loopback names, and agrees on "localhost" |
| TenantHost.FirstLabel | src/lib/tenant.ts:21-29 | a host of three or more labels without a port names the tenant of its first label |
| TenantHost.PortCut | src/lib/tenant.ts:21 | the hostname of a host with an optional ":port" |
| TenantHost.TwoLabels | src/lib/tenant.ts:38-39 | a two-label host, with or without a port, names no tenant |
| TenantHost.OneLabel | src/lib/tenant.ts:32-36 | a one-label host such as "localhost:3000" names no tenant |
| TenantHost.SiteExample | src/lib/tenant.ts:7 | "kalitechnia.ftiaxesite.gr" names "kalitechnia" |
| TenantHost.SiteSubdomain | src/lib/tenant.ts:20-29 | every label without a dot or colon in front of "ftiaxesite.gr", with or without a port, names its tenant |
| TenantHost.BareExamples | src/lib/tenant.ts:8 | "ftiaxesite.gr" and "localhost:3000" name no tenant |
| TenantHost.LoopbackAsWritten | src/lib/tenant.ts:28-36 | as written, "127.0.0.1:3000" and the browser hostname "127.0.0.1" name the tenant "127" |
| TenantHost.LoopbackCorrected | src/lib/tenant.ts:34-36 | corrected, the loopback address names no tenant on the server or in the browser |
| TenantHooks.TenantIdOf | src/lib/hooks/use-tenant-id.ts:9-16 | the context's tenant when non-empty, else a non-empty ?tenant= value, else none; none exactly when both are empty |
| TenantHooks.SettingsFields | src/lib/hooks/use-tenants.ts:56-65 | a settings row's fields when its value is an object, else none |
| TenantHooks.Keep | src/lib/hooks/use-tenants.ts:81 | the filter keeps exactly the tenants that are not null |
| TenantHooks.KeepAppend | src/lib/hooks/use-tenants.ts:81 | the filter keeps the relative order of what it keeps |
| TenantHooks.SiteDomain | src/lib/hooks/use-tenants.ts:54-65 | the settings' truthy domain, else "" |
| TenantHooks.SiteFormat | src/lib/hooks/use-tenants.ts:50-78 | null exactly for a row without a tenant; otherwise the tenant with its domain and the colour "#6366f1" |
| TenantHooks.SiteListSpec | src/lib/hooks/use-tenants.ts:45-81 | the list holds a tenant for each tenant_users row with one and nothing else, every one with a domain and the fixed colour |
| TenantHooks.SiteSource | src/lib/hooks/use-tenants.ts:45-81 | each listed tenant comes from a tenant_users row with that tenant, and has a domain and the fixed colour |
| TenantHooks.SiteListAppend | src/lib/hooks/use-tenants.ts:49-81 | the list follows the order of the tenant_users rows |
| TenantHooks.SelectActive | src/lib/hooks/use-tenants.ts:86-91 | the previous tenant while one with its id is listed, else the first listed, else null; the choice is always listed |
| TenantHooks.SelectStable | src/lib/hooks/use-tenants.ts:86-91 | choosing again from the same list keeps the choice |
| TenantHooks.KeptIsStale | src/lib/hooks/use-tenants.ts:87-88 | a kept tenant is the previous object, so a renamed tenant keeps its old name |
| TenantHooks.SyncTarget | cms-frontend-builder/lib/hooks/use-tenants.ts:99-114 | an id is pushed only when it is the newly chosen active tenant's |
| TenantHooks.SyncOnChange | cms-frontend-builder/lib/hooks/use-tenants.ts:99-114 | an id is pushed exactly when the active tenant changes to a tenant |
| TenantHooks.SiteTenants.constructor | src/lib/hooks/use-tenants.ts:18-20 | no tenants, none active, loading |
| TenantHooks.SiteTenants.Refresh | src/lib/hooks/use-tenants.ts:22-97 | without a user or on a fetch error the list and the active tenant stay; otherwise the list is the formatted rows and the active tenant is chosen from it; loading ends |
| TenantHooks.BuilderDomain | cms-frontend-builder/lib/hooks/use-tenants.ts:61-75 | the settings' truthy domain, else undefined |
| TenantHooks.BuilderColor | cms-frontend-builder/lib/hooks/use-tenants.ts:62-75 | the settings' truthy primaryColor, else "#6366f1" |
| TenantHooks.BuilderFormat | cms-frontend-builder/lib/hooks/use-tenants.ts:57-89 | null exactly for a row without a tenant; otherwise the tenant with the settings' domain and colour |
| TenantHooks.BuilderListSpec | cms-frontend-builder/lib/hooks/use-tenants.ts:56-92 | a tenant for each row with one and nothing else; without settings a tenant has no domain and the default colour |
| TenantHooks.BuilderSource | cms-frontend-builder/lib/hooks/use-tenants.ts:56-92 | each listed tenant comes from a row with that tenant; without settings it has no domain and the default colour |
| TenantHooks.NoSettingsDefaults | cms-frontend-builder/lib/hooks/use-tenants.ts:61-75 | without a settings object the domain is undefined and the colour "#6366f1" |
| TenantHooks.BuilderTenants.constructor | cms-frontend-builder/lib/hooks/use-tenants.ts:19-23 | no tenants, none active, loading, over the context's and storage's ids |
| TenantHooks.BuilderTenants.Refresh | cms-frontend-builder/lib/hooks/use-tenants.ts:25-120 | as the src hook, and a newly chosen tenant's id is pushed to the context and, with a window, to localStorage; nothing else changes them |
| Proxy.Decide | src/proxy.ts:11-96 | without both Supabase variables every request passes; a protected path without a session goes to the login page carrying the path; "/login" with a session goes to the dashboard; nothing else redirects |
| Proxy.PassesOtherwise | src/proxy.ts:83-95 | every request that is neither a protected path without a session nor "/login" with one passes |
| Proxy.LoginNotProtected | src/proxy.ts:78-81 | "/login" starts with none of the protected paths |
| Proxy.RedirectsExclusive | src/proxy.ts:84-93 | "/login" never redirects to the login page, and with a session goes to the dashboard |
| Proxy.PrefixOnly | src/proxy.ts:79-81 | every path that begins with a protected path, whatever follows ("/pagesx" as well as "/pages/1"), is protected and sent to login without a session |
| Sidebar.ActiveWholeSegment | cms-frontend-builder/components/layout/sidebar.tsx:65 | an item is active exactly when its href is a prefix of the path that ends it or is followed by "/" |
| Sidebar.SegmentExamples | cms-frontend-builder/components/layout/sidebar.tsx:65 | "/pages/1" activates "/pages" and "/pagesx" does not |
| Sidebar.ActiveUnique | cms-frontend-builder/components/layout/sidebar.tsx:65 | two one-segment links active for one path are the same link |
| Sidebar.AtMostOneActive | cms-frontend-builder/components/layout/sidebar.tsx:11-18 | at most one of the six items is active for any path |
| Sidebar.NavOneSegment | cms-frontend-builder/components/layout/sidebar.tsx:11-18 | every item's href is a single path segment: a leading "/" and no other |
| Sidebar.Toggle | cms-frontend-builder/components/layout/sidebar.tsx:56 | the button flips the collapsed flag |
| Sidebar.Width | cms-frontend-builder/components/layout/sidebar.tsx:27 | 72 when collapsed and 240 when expanded |
| Sidebar.ToggleWidth | cms-frontend-builder/components/layout/sidebar.tsx:27-56 | each toggle changes the width and two toggles restore it |
| Topbar.UserEmail | cms-frontend-builder/components/layout/topbar.tsx:40 | a non-empty email, else "User" |
| Topbar.Firsts | cms-frontend-builder/components/layout/topbar.tsx:44-45 | at most one character per piece |
| Topbar.FirstsAppend | cms-frontend-builder/components/layout/topbar.tsx:44-45 | joining the first characters distributes over concatenation |
| Topbar.FirstsSkipEmpty | cms-frontend-builder/components/layout/topbar.tsx:44-45 | an empty piece contributes nothing |
| Topbar.Initials | cms-frontend-builder/components/layout/topbar.tsx:41-47 | one or two characters, none of them a lowercase letter |
| Topbar.TwoNames | cms-frontend-builder/components/layout/topbar.tsx:41-47 | "first.last@domain" gives the two names' first letters uppercased |
| Topbar.InitialsOf | cms-frontend-builder/components/layout/topbar.tsx:41-47 | two first characters give those two characters uppercased |
| Topbar.LocalPart | cms-frontend-builder/components/layout/topbar.tsx:42 | the part before the first "@" |
| Topbar.SplitTwo | cms-frontend-builder/components/layout/topbar.tsx:43 | "first.last" splits into the two names |
| Topbar.OnlyDotsU | cms-frontend-builder/components/layout/topbar.tsx:47 | a local part "." gives "U" |
| Topbar.NoUserInitials | cms-frontend-builder/components/layout/topbar.tsx:40-47 | with no user the email is "User" and the initials "U" |
| Topbar.DisplayTenant | cms-frontend-builder/components/layout/topbar.tsx:39 | the active tenant, else the context's tenant, else the "Loading..." placeholder |
| Topbar.PickTenant | cms-frontend-builder/components/layout/topbar.tsx:65-68 | the picked tenant becomes active and its id the context's; with a window its id is stored as localStorage "activeTenantId" (removed for an empty id); the list and the loading flag are kept |
| Topbar.PickSurvivesRefresh | cms-frontend-builder/components/layout/topbar.tsx:65-68 | a picked tenant still listed stays active after a refresh, which syncs nothing |
| DataTable.Filtered | src/components/ui/datatable.tsx:35-38 | without a search or a search key all rows, otherwise exactly the rows whose column contains the search, case folded |
| DataTable.FilteredKeepsOrder | src/components/ui/datatable.tsx:37 | the search distributes over concatenation, so it keeps the rows' order |
| DataTable.Paged | src/components/ui/datatable.tsx:40 | at most pageSize rows, the slice from page × pageSize, and none past the end |
| DataTable.TotalPages | src/components/ui/datatable.tsx:41 | the fewest pages that hold the rows, zero exactly for no rows |
| DataTable.FullPages | src/components/ui/datatable.tsx:40-41 | every page before the last is full |
| DataTable.RangeMatchesPage | src/components/ui/datatable.tsx:95 | the "Showing" range lies within the rows and counts exactly the rows on the page |
| DataTable.Table.constructor | src/components/ui/datatable.tsx:25-33 | the table starts on page 0 with no search |
| DataTable.Table.SetSearch | src/components/ui/datatable.tsx:51-54 | a new search returns to page 0 |
| DataTable.Table.Previous | src/components/ui/datatable.tsx:92-105 | with the controls shown and a later page it goes back one page, otherwise nothing changes |
| DataTable.Table.Next | src/components/ui/datatable.tsx:92-115 | with the controls shown and a page before the last it goes forward one page and stays within the pages, otherwise nothing changes |
| DataTable.Table.SetData | src/components/ui/datatable.tsx:25-40 | new rows keep the search and the page |
| DataTable.ButtonsStayInRange | src/components/ui/datatable.tsx:101-111 | the buttons keep a page within 0 to totalPages - 1 |
| DataTable.StalePageEmpty | src/components/ui/datatable.tsx:40-41 | a page at or past totalPages shows no rows |

Specification functions and predicates without a contract of their own are stated by the rows of the lemmas and methods about them:

- BlockPreview.ImageRight (src/components/editor/block-preview.tsx:60): BlockPreview.PositionDefaultsDiffer.
- TenantWizard.DefaultGlobals (src/actions/createTenantWizard.ts:189-220): TenantWizard.DefaultKeysUnique, TenantWizard.DefaultPublished and TenantWizard.DefaultsInsertable.
- TenantWizard.HomeSections (src/actions/createTenantWizard.ts:248-261): TenantWizard.HomeRenders.
- PublicPostsRoute.ValidLimit and PublicPostsRoute.PublicPosts (src/app/api/public/posts/route.ts:10-18): PublicPostsRoute.Get, PublicPostsRoute.PublicPostsSpec, PublicPostsRoute.AllWithinLimit and PublicPostsRoute.ServedAreStamped.
- UseGlobals.Apply and UseGlobals.Parsed (src/lib/hooks/use-globals.ts:72-82): UseGlobals.ParseGlobals and the UseGlobals lemmas.
- TenantStore.TenantByKey (src/actions/tenants.ts:23-28): TenantStore.Tenants.GetTenantById.
- DataTable.ShownRange (src/components/ui/datatable.tsx:95): DataTable.RangeMatchesPage.
- EditorView.KnownEditable (src/components/EditorView.tsx:163-178): EditorView.CardOf.
- UsePosts.OptionalStr (cms-frontend-builder/lib/hooks/use-posts.ts:42-52): UsePosts.ListedPost.
- Slug.Kept (src/actions/tenants.ts:289-293): Slug.DashRunsKept and Slug.SlugifyKept.

## Left out

- I/O and plumbing:
  - Supabase clients, cookies and the auth session; the user and the session are parameters.
  - The environment-variable and API-key checks (src/actions/createTenantWizard.ts:17-132, src/proxy.ts:15-23 beyond "both set or not").
  - The proxy's cookie adapter and its matcher config.
  - `revalidatePath`, and the revalidation `fetch` to the tenant domain in publishPage: they never affect a result.
  - `fetchTenantDomain` in the editor: the domain is a parameter of HandlePublish.
- Time and concurrency:
  - `setTimeout` and `useTransition`: the 2-second return to "idle" is the explicit event `EditorView.EditorSession.TimerFires`.
  - Timestamps are natural-number parameters.
  - Concurrency is not modelled: the read-highest-then-insert race of savePageSections and restoreVersion, and the `Promise.all` of the useTenants hooks. Every action runs alone and in sequence.
- Database behaviour:
  - `ON DELETE CASCADE` goes one level deep: deleting a tenant deletes its tenant_users rows only.
  - Failure of the compensating delete after a failed owner link is not modelled; it is assumed to succeed.
  - A failing `maybeSingle` settings read counts as no row; its error is ignored, as the code ignores it.
  - The `.or("slug.eq.…,id.eq.…")` of getTenantById compares the key with the id's decimal text ("7" matches id 7). A key that is not a uuid making Postgres raise a type error is not modelled.
  - An update whose payload has no column (updateTenant with an undefined name) is taken to change nothing and succeed.
  - Postgres refusing a negative LIMIT is what makes the public posts route answer 404 for a negative `limit`.
  - No database trigger is modelled, so an update keeps a post's or page's `updated_at`. Only an insert stamps the current time.
- Error paths:
  - The `try/catch` "Unknown error" paths of the actions are folded into the modelled `Err` results.
  - Console logging is not modelled.
- GlobalStore.KeyOrderIsOrder: `order("key")` is modelled as code-point order, which is the database's order only under the "C" collation. Keys are unique per tenant, so the fold in useGlobals does not depend on it.
- EditorView.EditorSession.HandleBlockUpdate: requires the index of a block on the list, as the editor only calls it for a rendered block. JavaScript would fill an index past the end with a block that has no type; that is not modelled.
- JavaScript values:
  - Numbers are integers; floating point is not modelled. NaN is the absence of a number.
  - `parseInt(...)` reads an optional sign and the decimal digits after it, and stops at the first other character, so "2.5" reads 2 and "1e3" reads 1. Hexadecimal forms ("0x10") are not modelled.
  - `Number(...)` reads only unsigned decimal text after trimming: a sign, a fraction or an exponent reads as NaN, where JavaScript would give a negative, fractional or scaled number.
  - `String(...)` of a non-string value is not modelled: `DataTable` rows carry each column's text.
  - Object identity (`===` on objects) is not modelled: tenants are compared as values.
  - Json.SpreadOf: spreading a string or an array (which copies its characters or elements under index keys) is not modelled. Such a value contributes no keys, like every other non-object.
  - BlockEditor.ImagesOf: `images` that is present but not an array is read as no images (the code would call `.filter` on it and throw).
  - UsePosts: a `null` element inside a list answer is not modelled.
- Text:
  - Case mapping, trimming and the `[^a-z0-9]` class cover ASCII only. JavaScript's Unicode case mapping of non-ASCII letters and its Unicode white space are not modelled.
  - Strings are sequences of characters, not UTF-16 code units.
- DataTable.TotalPages: requires a page size of at least 1. `pageSize = 0` would make the JavaScript division give Infinity or NaN.
- Pure rendering: JSX markup, animation, icons, the sidebar's collapse animation, the topbar's logout, dark mode and "New" button, the modal and inline text editing.
- Files the model does not cover:
  - src/lib/tenant-context.tsx and cms-frontend-builder/lib/tenant-context.tsx (localStorage and context glue), except the id and localStorage write of the builder's `setTenantId` that Topbar.PickTenant models; the tenant-details fetch that `setTenantId` starts is not modelled;
  - src/lib/tenant-server.ts, whose fallback ladder is not part of this model;
  - image upload;
  - the scripts/ folder.

## Findings

| source | as written | input that shows it | evidently intended | confidence | as-written member | corrected member |
|---|---|---|---|---|---|---|
| src/lib/tenant.ts:28-36, src/lib/tenant-client.ts:16-23 | the "more than two parts" test comes before the loopback test, so the `hostname === "127.0.0.1"` branch can never return; "127.0.0.1" has four parts and names the tenant "127" | host "127.0.0.1:3000" on the server, hostname "127.0.0.1" in the browser | the loopback names map to no tenant in development, as the comments and the explicit check say | not executed | TenantHost.GetTenantIdAsWritten, TenantHost.GetTenantIdClientAsWritten, TenantHost.LoopbackAsWritten | TenantHost.GetTenantId, TenantHost.GetTenantIdClient, TenantHost.LoopbackCorrected, TenantHost.CorrectionOnlyLoopback |
