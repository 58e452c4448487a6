# A verified model of a multi-tenant CRM

This project models the core of a multi-tenant CRM in Dafny. The system has two halves:

- a Go server (gin handlers, services, GORM repositories, JWT middleware) holding tenants, users, memberships, contacts, pipeline stages, deals and an audit log;
- a React client whose zustand stores talk to that server, and whose pages derive their view from the stores.

Every row the server stores belongs to one tenant. Every route passes a chain of guards (token, tenant, role) before its handler runs.

How the model is built:

- **Database.** The database is one value, `Entities.Db`. Each table is a sequence of rows in storage order, together with the next free key. `Entities.Valid` states the invariant every operation keeps: keys are distinct and below the next free key.
- **Repositories and services.** These are pure functions over `Db`. They return `Result` values whose errors carry the messages the Go code returns.
- **Handlers.** A handler maps the request (path id, query string, decoded body, context values) to the new database and a `Http.Reply`. The reply holds the status code, the message and the payload, or the `error` text.
- **Middleware and routes.** The middleware is a set of functions on a request context. `Routes.ApiRoutes` is the route table with each route's guard chain.
- **Client stores.** A store action is a function from the store's state and the server's answers to a `Client.Step`. The server's answers are inputs the model does not choose. A `Step` holds the final state, the requests issued in order, and whether the action's promise resolved or was rejected.
- **Pages and dialogs.** Their decisions (grouping, filters, guards, what a submit sends) are functions over the same records.

The modules follow the source tree:

- shared definitions: `Wrappers`, `Seqs`, `Text`, `Strconv`;
- `server/internal/model`: `Scopes`, `Entities`, `StringArray`;
- repositories: `ContactRepo`, `StageRepo`, `DealRepo`, `Memberships`;
- services: `ContactService`, `StageService`, `DealService`, `AuthService`, `TenantService`;
- handlers: `ContactHandler`, `StageHandler`, `DealHandler`, `AuthHandler`, `TenantHandler`, with `Http` for what they share;
- `Jwt`, `Middleware` and `Routes`;
- client: `Client` for what the stores share, one module per store, `Access`, `Validations`, and one module per page or dialog.

Deal statuses follow the services and handlers: active, won, lost and cancelled. `server/internal/model/pipeline.go:69` declares a column default of `'open'`. That value is never reached through the services: `CreateDeal` fills in "active", and `UpdateStatus` refuses "open".

## Model

| member | source | states |
|---|---|---|
| Scopes.WrapInt64 | server/internal/model/scopes.go:74 | the value a 64-bit Go `int` holds after an overflow: in range, congruent to the exact result modulo 2^64, and equal to it when it fits |
| Scopes.TenantScope | server/internal/model/scopes.go:27-31 | a row is kept exactly when it belongs to the requested tenant; nothing is added |
| Scopes.ClampPage | server/internal/model/scopes.go:64-66 | the page is at least 1; a positive page is kept and any other becomes 1 |
| Scopes.ClampPageSize | server/internal/model/scopes.go:67-72 | the page size lies in 1..100; a missing or non-positive size becomes 10 and an oversized one 100 |
| Scopes.Paginate | server/internal/model/scopes.go:62-77 | corrected scope: the offset is a non-negative multiple of the limit, and offset/limit + 1 is the clamped page |
| Scopes.PaginateIdempotent | server/internal/model/scopes.go:62-77 | paginating again with the page and size a scope produced gives the same scope; valid arguments pass through unchanged |
| Scopes.PagesTile | server/internal/model/scopes.go:74-75 | pages tile the result: row i is row i mod size of page i/size + 1 |
| Scopes.PaginateAsWritten | server/internal/model/scopes.go:74 | the offset as the code computes it, in a 64-bit `int` |
| Scopes.AsWrittenAgreesWhenNoOverflow | server/internal/model/scopes.go:74 | the 64-bit offset equals the exact one exactly when the product fits in 64 bits |
| Scopes.PaginateOverflowServesFirstPage | server/internal/model/scopes.go:74-75 | a huge page number wraps the offset negative, and the query then returns page 1 instead |
| Strconv.ParseUint32 | server/internal/handler/contact_handler.go:66-70 | a path id parses exactly when it is a non-empty run of decimal digits of value at most 2^32-1, and the value is the one the digits spell |
| Strconv.Atoi | server/internal/handler/contact_handler.go:86-87 | succeeds exactly on an optional sign and digits whose value fits 64 bits, giving that value; out of range it gives the nearest bound |
| Strconv.ParseUint32NatToString | server/internal/handler/contact_handler.go:66-70 | an id written in decimal parses back to itself |
| Strconv.AtoiIntToString | server/internal/handler/contact_handler.go:86-87 | every 64-bit integer written in decimal parses back to itself |
| Strconv.DefaultsParse | server/internal/handler/contact_handler.go:86-87 | the default query values "1", "10" and "20" parse to 1, 10 and 20 |
| Strconv.RejectedIds | server/internal/handler/contact_handler.go:66-70 | the empty string, a signed number and non-digits are not ids |
| Http.PageParams | server/internal/handler/contact_handler.go:86-87 | a missing page is 1 and a missing size the handler's default; a well-formed value is used as written |
| Http.RequiredString | server/internal/handler/auth_handler.go:28-29 | a `required` string field fails exactly when it is empty |
| Http.RequiredEmail | server/internal/handler/auth_handler.go:26 | a `required,email` field passes exactly when it is non-empty and a valid address; an empty one fails `required` |
| Http.Validate | server/internal/handler/auth_handler.go:41-44 | binding succeeds exactly when decoding succeeds and no field fails, and then yields the decoded value unchanged |
| Http.BindRequired | server/internal/handler/deal_handler.go:244-251 | a one-field required body binds exactly when it decodes to a non-zero value, which is returned unchanged |
| Jwt.ExtractToken | server/internal/middleware/jwt.go:59-70 | an empty header is "authorization header required"; a header is accepted exactly when it splits on spaces into two parts whose first is "bearer" in any case |
| Jwt.ExtractBearer | server/internal/middleware/jwt.go:64-69 | any spelling of "Bearer", a space and a space-free token gives back that token, including the empty one |
| Jwt.ExtractedHeaderShape | server/internal/middleware/jwt.go:64-69 | every accepted header is a bearer scheme, one space and the extracted token |
| Jwt.BearerWithoutToken | server/internal/middleware/jwt.go:64-69 | "Bearer " is accepted with an empty token |
| StringArray.Value | server/internal/model/contact.go:36-41 | an empty tag list is stored as `[]`; every stored text is a bracketed JSON array |
| StringArray.Serialize | server/internal/model/contact.go:75 | the tag column goes through GORM's JSON serializer: a nil list is stored as NULL, any other list as the JSON text of its elements |
| StringArray.Deserialize | server/internal/model/contact.go:75 | NULL, empty text and `null` read back as the nil list, a non-text value is an error, and anything else is decoded as a JSON array |
| StringArray.SerializeRoundTrip | server/internal/model/contact.go:75 | a stored tag column, nil or not, reads back as the same list |
| StringArray.Scan | server/internal/model/contact.go:16-33 | NULL and empty bytes read as no tags, a non-byte value is an error, and anything else is JSON-decoded |
| StringArray.HexRoundTrip | server/internal/model/contact.go:40 | a `\uXXXX` escape reads back as the code it encodes |
| StringArray.ParseEscapedString | server/internal/model/contact.go:32-40 | the JSON-escaped body of a string, closed by a quote, decodes to that string and leaves the rest |
| StringArray.ParseItemsRoundTrip | server/internal/model/contact.go:32-40 | the elements of a non-empty array, written as JSON, decode back to the same elements |
| StringArray.ValueScanRoundTrip | server/internal/model/contact.go:16-41 | whatever tag list is written is read back unchanged |
| StringArray.StoredTextContainsTag | server/internal/repository/contact_repository.go:76-80 | a tag of plain characters appears quoted in the stored text |
| StringArray.TagFilterMatchesSubstrings | server/internal/repository/contact_repository.go:76-80 | the stored text of ["VIP"] contains "VI", though "VI" is not a tag |
| ContactRepo.FindContact | server/internal/repository/contact_repository.go:31-39 | a contact is found exactly when the tenant has a row with that key, and the one found has that key and tenant |
| ContactRepo.Selected | server/internal/repository/contact_repository.go:47-81 | a contact is counted exactly when it belongs to the tenant and satisfies every set filter: search, status, source, city, province and each tag |
| ContactRepo.FindAllContacts | server/internal/repository/contact_repository.go:42-94 | the total is the number of matches before paging; the page holds at most one page size of matching tenant contacts, sorted by first and then last name |
| ContactRepo.FindAllClamped | server/internal/model/scopes.go:62-77 | a listing depends on the requested page size only through its clamped value |
| ContactRepo.ContactPagesTile | server/internal/repository/contact_repository.go:89-91 | the contact at position i of the name order is on page i/size + 1, at position i mod size |
| ContactRepo.PageNotEmpty | server/internal/repository/contact_repository.go:89-91 | a page whose offset lies before the last match holds at least one contact |
| ContactRepo.SearchContacts | server/internal/repository/contact_repository.go:107-112 | only the tenant's contacts hit by the term are returned, and the total counts exactly those |
| ContactRepo.EmptyFilterSelectsTenant | server/internal/repository/contact_repository.go:50-81 | with no filter set, every contact of the tenant is selected |
| ContactRepo.TagsAreConjunctive | server/internal/repository/contact_repository.go:76-80 | several tags must all match: a contact matching tags a+b matches a and matches b |
| ContactRepo.HeldTagsMatch | server/internal/repository/contact_repository.go:76-80 | a contact holding every filtered tag, when no tag has a character that JSON escapes, passes the tag filter |
| ContactRepo.UntaggedContactsFailTagFilters | server/internal/repository/contact_repository.go:76-80 | a contact whose tags are nil (stored as NULL) fails every tag filter, while one with an empty list matches an empty tag |
| ContactRepo.SaveContact | server/internal/repository/contact_repository.go:96-98 | every row with the saved key is replaced by the saved contact, and all other rows stay |
| ContactRepo.DeleteContactRow | server/internal/repository/contact_repository.go:101-104 | exactly the tenant's row with that key is removed |
| ContactService.CreateContact | server/internal/service/contact_service.go:35-53 | an empty first name is refused first; an empty status becomes "active"; any other status outside active/inactive/blocked is refused; on success exactly one row is added under a fresh key and is otherwise the given contact |
| ContactService.GetContact | server/internal/service/contact_service.go:55-64 | succeeds exactly when the tenant has a contact with that key, and returns it; otherwise "contact not found" |
| ContactService.GetContacts | server/internal/service/contact_service.go:66-68 | the listing holds only matching contacts of the tenant, in name order, with the total of all matches |
| ContactService.UpdateContact | server/internal/service/contact_service.go:70-92 | a contact missing from the tenant is "contact not found"; a non-empty status outside the three is refused; otherwise the row with the key is overwritten under the stored tenant, an empty status included |
| ContactService.DeleteContact | server/internal/service/contact_service.go:94-105 | succeeds exactly when the contact exists in the tenant, and then removes exactly that row |
| ContactService.SearchContacts | server/internal/service/contact_service.go:107-109 | the search results are the tenant's contacts hit by the term, and the total counts exactly those |
| ContactService.CreateThenGet | server/internal/service/contact_service.go:35-64 | a created contact is found again under its new key |
| ContactService.UpdateThenGet | server/internal/service/contact_service.go:55-92 | an updated contact reads back as written, under the tenant it already had |
| ContactService.DeleteThenGet | server/internal/service/contact_service.go:55-105 | a deleted contact is no longer found |
| ContactService.UpdateIsTenantScoped | server/internal/service/contact_service.go:72-78 | a tenant with no contacts of its own cannot update any contact |
| ContactService.CreateContactKeepsValid | server/internal/service/contact_service.go:35-53 | creation keeps every primary key positive, distinct and below the next key |
| ContactService.UpdateContactKeepsValid | server/internal/service/contact_service.go:70-92 | updating keeps the keys valid |
| ContactService.DeleteContactKeepsValid | server/internal/service/contact_service.go:94-105 | deleting keeps the keys valid |
| ContactHandler.DefaultPaging | server/internal/handler/contact_handler.go:86-87 | without paging parameters the listing asks for page 1 of 20 |
| ContactHandler.ParseContactFilter | server/internal/handler/contact_handler.go:90-101 | the five text filters are the query values, missing ones empty; there are tags exactly when `tags` is non-empty, and no tag holds a comma |
| ContactHandler.TagsRoundTrip | server/internal/handler/contact_handler.go:99-101 | the parsed tags, joined with commas, give back the `tags` value |
| ContactHandler.TotalPagesAsWritten | server/internal/handler/contact_handler.go:114 | the page count as the code computes it, over the requested page size in 64-bit arithmetic; a zero size is a division panic |
| ContactHandler.TotalPages | server/internal/handler/contact_handler.go:114 | corrected page count: the fewest pages of the size actually served that hold the total |
| ContactHandler.TotalPagesUndercounts | server/internal/handler/contact_handler.go:114 | 250 contacts at a requested size of 500 are served on three pages, but one is reported |
| ContactHandler.ZeroPageSizePanics | server/internal/handler/contact_handler.go:114 | a zero page size panics in the code, although the listing is served with size 10 |
| ContactHandler.TotalPagesAgreeInRange | server/internal/handler/contact_handler.go:114 | for sizes 1..100 the code's formula gives the right page count |
| ContactHandler.OversizedPagesUndercount | server/internal/handler/contact_handler.go:114 | above the cap of 100 the reported page count is never more than the number of pages actually served |
| ContactHandler.ReportedPageCount | server/internal/handler/contact_handler.go:114 | on the 64-bit total the reported page count is missing exactly for page_size 0, is the real count for sizes 1..100, and never exceeds the real count above 100 |
| ContactHandler.PagesBeyondTotalAreEmpty | server/internal/handler/contact_handler.go:103-115 | every page after the reported last one is empty |
| ContactHandler.LastPageIsNotEmpty | server/internal/handler/contact_handler.go:103-115 | the reported last page holds at least one contact |
| ContactHandler.GetContacts | server/internal/handler/contact_handler.go:82-116 | a zero page_size is a 500, because the page count divides by it; otherwise 200 with the total of all matches, page and page_size echoed as parsed and the tenant's page of matches; for sizes 1..100 the reported page count is the real one, and above 100 it never exceeds the real one |
| ContactHandler.SearchContacts | server/internal/handler/contact_handler.go:187-212 | an empty or missing `q` is 400 "Search query is required"; otherwise 200 with only the tenant's contacts hit by `q` |
| ContactHandler.GetContact | server/internal/handler/contact_handler.go:64-79 | a malformed id is 400 "Invalid contact ID", a contact missing from the tenant is 404, and otherwise 200 with that contact |
| ContactHandler.CreateContact | server/internal/handler/contact_handler.go:27-61 | the tenant and creator come from the request context; a bind or rule failure is 400 and changes nothing; success is 201 with the contact under a fresh key and one "create" audit entry |
| ContactHandler.UpdateContact | server/internal/handler/contact_handler.go:119-155 | a malformed id is 400; any failure changes nothing; success stores the body under the path's id and the tenant, and adds one "update" audit entry |
| ContactHandler.PathIdWins | server/internal/handler/contact_handler.go:134 | the id in the body makes no difference: the path's id is used |
| ContactHandler.DeleteContact | server/internal/handler/contact_handler.go:158-184 | a malformed id is 400, a missing contact 404 with no change; success removes the contact and adds one "delete" audit entry |
| ContactHandler.CreateThenGet | server/internal/handler/contact_handler.go:27-79 | a contact created through the API is served back by its id |
| ContactHandler.DeleteThenGet | server/internal/handler/contact_handler.go:64-184 | after a delete the same id answers 404 |
| StageRepo.FindStage | server/internal/repository/pipeline_stage_repository.go:33-41 | a stage is found exactly when the tenant has a row with that key, and the one found has that key and tenant |
| StageRepo.StagesOf | server/internal/repository/pipeline_stage_repository.go:45 | a stage is kept exactly when it belongs to the tenant |
| StageRepo.FindAllStages | server/internal/repository/pipeline_stage_repository.go:43-49 | the listing is a permutation of the tenant's stages |
| StageRepo.FindAllSortedByOrder | server/internal/repository/pipeline_stage_repository.go:43-49 | the listing is in ascending order and holds exactly the tenant's stages |
| StageRepo.CountStages | server/internal/repository/pipeline_stage_repository.go:62-68 | the count is the number of the tenant's stages, and zero exactly when the tenant has none |
| StageRepo.ApplyStagePatch | server/internal/repository/pipeline_stage_repository.go:51-55 | the key never changes; each non-zero field of the patch (tenant, name, order, probability, color, and each flag that is true) replaces the stored value, and each zero field keeps it |
| StageRepo.UpdateStageRow | server/internal/repository/pipeline_stage_repository.go:51-55 | the patch is applied to every row with the key, whatever its tenant, and no other row changes |
| StageRepo.DeleteStageRow | server/internal/repository/pipeline_stage_repository.go:57-60 | exactly the tenant's row with that key is removed |
| StageRepo.CountDealsByStage | server/internal/repository/pipeline_stage_repository.go:144-150 | the count is the number of deals with both the tenant and the stage |
| StageRepo.CountDealsByStageZero | server/internal/repository/pipeline_stage_repository.go:144-150 | the count is zero exactly when no deal of that tenant is in that stage |
| StageRepo.DefaultStages | server/internal/repository/pipeline_stage_repository.go:87-138 | six default stages of the tenant, under consecutive fresh keys |
| StageRepo.DefaultStagesShape | server/internal/repository/pipeline_stage_repository.go:87-138 | the orders are 1..6 and the probabilities 10, 25, 50, 75, 100, 0; only order 5 is closed-won and only order 6 closed-lost; the list is in order |
| StageRepo.CreateDefaultStages | server/internal/repository/pipeline_stage_repository.go:86-141 | the six defaults are appended in one insert and nothing else changes |
| StageRepo.SetOrder | server/internal/repository/pipeline_stage_repository.go:75-77 | exactly the tenant's row with that id gets the new order |
| StageRepo.Reorder | server/internal/repository/pipeline_stage_repository.go:71-83 | all or nothing: a failure at any listed id returns that error and no rows; otherwise each listed stage of the tenant ends with 1 plus the position of its last listing, and every other row is unchanged |
| StageRepo.ReorderedPositions | server/internal/repository/pipeline_stage_repository.go:74-79 | with distinct ids, the stage listed at position i ends with order i+1 |
| StageRepo.ReorderKeepsOtherTenants | server/internal/repository/pipeline_stage_repository.go:76 | the stages of other tenants are untouched |
| StageService.GetStages | server/internal/service/pipeline_stage_service.go:31-47 | a tenant with stages leaves the database unchanged; one without gets exactly the six defaults; the result is sorted by order, non-empty, and holds exactly the tenant's stages |
| StageService.DefaultsAreTheTenantsStages | server/internal/service/pipeline_stage_service.go:39-46 | after lazy initialisation the tenant's stages are exactly the six defaults |
| StageService.GetStagesKeepsValid | server/internal/service/pipeline_stage_service.go:39-43 | lazy initialisation keeps every table's keys distinct and below the next free key |
| StageService.CreateDefaultStagesKeepsValid | server/internal/repository/pipeline_stage_repository.go:86-141 | inserting the defaults keeps the database well formed |
| StageService.GetStagesIsolated | server/internal/service/pipeline_stage_service.go:39-43 | lazy initialisation leaves every other tenant's stages as they were |
| StageService.GetStageByID | server/internal/service/pipeline_stage_service.go:49-58 | found exactly when the tenant has that stage; otherwise "stage not found" |
| StageService.CreateStage | server/internal/service/pipeline_stage_service.go:60-77 | an empty name fails first, then a probability outside 0..100; success exactly when both hold; an empty color becomes #3B82F6; the stage is appended under the next key and nothing else changes |
| StageService.UpdateStage | server/internal/service/pipeline_stage_service.go:79-98 | a stage missing from the tenant fails first, then a bad probability; success exactly otherwise; only the stage table changes, keys and (in a well-formed database) tenants stay; the row with the key becomes the stored row overwritten by the request's non-zero fields with its tenant kept, and every other row is unchanged |
| StageService.UpdateThenFind | server/internal/service/pipeline_stage_service.go:79-98 | looking the stage up again after an update finds the stored stage with the request's non-zero fields written over it, still in the caller's tenant |
| StageService.DeleteStage | server/internal/service/pipeline_stage_service.go:100-121 | not found fails first, then a stage holding deals of the tenant; otherwise exactly that row is removed; the default flag plays no part |
| StageService.ReorderStages | server/internal/service/pipeline_stage_service.go:123-136 | any unknown id fails with "one or more stages not found" before a write; success means every id was the tenant's, every row is reordered as the repository does, and keys stay valid |
| StageService.StageMutationsKeepValid | server/internal/service/pipeline_stage_service.go:60-121 | every successful create, update and delete keeps the database well formed |
| StageHandler.GetStages | server/internal/handler/pipeline_stage_handler.go:26-39 | always 200; total equals the number of stages listed, which is positive; the list is sorted by order and holds exactly the tenant's stages |
| StageHandler.GetStage | server/internal/handler/pipeline_stage_handler.go:42-57 | an id that is not a 32-bit decimal is 400 "Invalid stage ID"; success exactly when the tenant has the stage, which is returned; otherwise 404 "stage not found" |
| StageHandler.CreateStage | server/internal/handler/pipeline_stage_handler.go:60-94 | a binding error is 400 with no change; success exactly when the service accepts the body with the caller's tenant and no default flag; the created stage is the caller's, not default, appended, and one create entry is audited |
| StageHandler.CreateIgnoresClaimedFields | server/internal/handler/pipeline_stage_handler.go:71-72 | the tenant and default flag the body claims make no difference |
| StageHandler.UpdateStage | server/internal/handler/pipeline_stage_handler.go:97-133 | a bad id is 400; any error leaves the database unchanged; success means the service updated the stage named by the path and one update entry is audited; the row for the path id is overwritten by the echoed request's non-zero fields and every other row is unchanged |
| StageHandler.PathIdWins | server/internal/handler/pipeline_stage_handler.go:112 | the id in the body makes no difference |
| StageHandler.DeleteStage | server/internal/handler/pipeline_stage_handler.go:136-162 | a bad id is 400; success exactly when the tenant has the stage and no deal of the tenant is in it; then exactly that row is removed and one delete entry is audited |
| StageHandler.ReorderStages | server/internal/handler/pipeline_stage_handler.go:165-199 | a missing stage_ids is refused by the required tag, an empty one with "stage_ids cannot be empty"; errors change nothing; success reorders every row and appends one reorder entry with no resource id |
| DealRepo.FindDeal | server/internal/repository/deal_repository.go:100-110 | found exactly when the tenant has a deal with that key; the one found has that key and tenant |
| DealRepo.Selected | server/internal/repository/deal_repository.go:33-72 | a deal is selected exactly when it is the tenant's and passes every filter that is set |
| DealRepo.UnsetFiltersKeepAll | server/internal/repository/deal_repository.go:38-72 | with no filter set, every deal passes the WHERE clause |
| DealRepo.ValueBoundsInclusive | server/internal/repository/deal_repository.go:53-58 | minimum and maximum value bounds are both inclusive |
| DealRepo.SearchIgnoresCase | server/internal/repository/deal_repository.go:69-72 | the search finds a deal by its own title, typed as stored or in lower case |
| DealRepo.OrderOf | server/internal/repository/deal_repository.go:75-85 | with no sort column the order is created_at descending; otherwise the given column, descending exactly when the sort order is "desc" |
| DealRepo.ParseColumn | server/internal/repository/deal_repository.go:75-85 | a sort name is accepted exactly when it is a column of the deals table, and each column the model orders by is found under its own name |
| DealRepo.ColumnName | server/internal/repository/deal_repository.go:75-85 | each order reads a column that is a column of the deals table, and that name maps back to the same order |
| DealRepo.ParseColumnName | server/internal/repository/deal_repository.go:75-85 | every modelled column reads back from its name |
| DealRepo.UndatedDealsLastAscending | server/internal/repository/deal_repository.go:75-85 | a deal without an expected close date sorts after a dated one in ascending order and before it in descending order |
| DealRepo.BeforeIsTotalPreorder | server/internal/repository/deal_repository.go:75-85 | every column in either direction orders deals by a total preorder, so the sorted listing is well defined |
| DealRepo.SortedSelection | server/internal/repository/deal_repository.go:31-85 | the selected deals in the clause's order: a permutation of the selection, sorted by the clause |
| DealRepo.FindAllDeals | server/internal/repository/deal_repository.go:31-97 | a sort name that is not a column of the table is an error; otherwise a close-date bound that is not a date is an error; otherwise every row is a selected deal, the rows are sorted by the clause, there are no more than the count, no more than a positive limit, and with no limit or offset they are a permutation of the selection |
| DealRepo.FindAllDealsWindow | server/internal/repository/deal_repository.go:75-97 | the page is the run of the ordered selection that starts at the offset, exactly as long as the limit and the remaining rows allow |
| DealRepo.CountDeals | server/internal/repository/deal_repository.go:155-188 | the count is the number of selected deals |
| DealRepo.CountIgnoresPaging | server/internal/repository/deal_repository.go:155-188 | sort column, sort order, limit and offset do not change the count |
| DealRepo.ApplyDealPatch | server/internal/repository/deal_repository.go:122 | the key never changes; a zero tenant, creator, probability or empty title in the patch keeps the stored value; a non-zero stage, probability or title replaces it |
| DealRepo.UpdateDealRows | server/internal/repository/deal_repository.go:118-123 | tenant and creator of every row are preserved; rows with another key are unchanged; the row with the key gets the non-zero fields |
| DealRepo.MapRow | server/internal/repository/deal_repository.go:126-131 | only the tenant's row with that key is rewritten |
| DealRepo.MoveDealRow | server/internal/repository/deal_repository.go:139-144 | exactly the stage of the tenant's row with that key changes |
| DealRepo.SetStatusRow | server/internal/repository/deal_repository.go:147-152 | exactly the status of the tenant's row with that key changes |
| DealRepo.DeleteDealRow | server/internal/repository/deal_repository.go:134-136 | exactly the rows with that key are removed |
| DealRepo.TotalValueByStage | server/internal/repository/deal_repository.go:191-215 | a stage has an entry exactly when it holds an active deal of the tenant, and the entry is the sum of the values of those deals |
| DealRepo.StageTotalStep | server/internal/repository/deal_repository.go:198-203 | the per-stage sum splits over the first deal |
| DealRepo.NoActiveMeansZero | server/internal/repository/deal_repository.go:198-203 | a stage with no active deal of the tenant sums to zero |
| DealService.GetDeals | server/internal/service/deal_service.go:28-40 | succeeds exactly when the listing does; the page is no longer than the total, and the total counts every selected deal |
| DealService.GetDealByID | server/internal/service/deal_service.go:43-49 | found exactly when the tenant has the deal; otherwise "deal not found" |
| DealService.CreateDeal | server/internal/service/deal_service.go:52-87 | title, then stage id, then the stage's existence, then a given contact are checked in that order; success exactly when all hold; a zero probability is taken from the stage, an empty status becomes "active"; the deal is appended under the next key and nothing else changes; an empty currency is stored as IDR, the column default of server/internal/model/pipeline.go:57 |
| DealService.PrepareUpdate | server/internal/service/deal_service.go:90-120 | an unknown deal fails; a stage change needs the stage in the tenant and, when the probability is zero or still the old one, takes the stage's; a changed non-zero contact must exist; without a stage change the patch is the request |
| DealService.UpdateDealAsWritten | server/internal/service/deal_service.go:90-123 | succeeds exactly when the checks pass, and writes the prepared patch through struct updates, which drop a zero probability |
| DealService.UpdateDealAsWrittenKeepsValid | server/internal/service/deal_service.go:90-123 | the update as written keeps the database well formed |
| DealService.UpdateToZeroStageKeepsOldProbability | server/internal/service/deal_service.go:109-122 | a deal at 75% moved to a stage with probability 0 through an update stays at 75% |
| DealService.UpdateDeal | server/internal/service/deal_service.go:90-123 | the same checks; keys, tenants and creators of all rows stay; other keys are untouched; after a stage change that takes the stage's probability, the deal has the new stage and exactly the stage's probability, zero included |
| DealService.UpdateDealTouchesOneRow | server/internal/repository/deal_repository.go:118-123 | in a well-formed database the only row with the key is the tenant's, so the key-only update cannot reach another tenant |
| DealService.DeleteDeal | server/internal/service/deal_service.go:126-133 | succeeds exactly when the tenant has the deal; then exactly the rows with that key are gone |
| DealService.StatusOnEntering | server/internal/service/deal_service.go:155-160 | a closed-won stage makes the deal won, else a closed-lost one makes it lost, else the status stays |
| DealService.MoveToStage | server/internal/service/deal_service.go:136-169 | unknown deal, then unknown stage fail; otherwise the returned deal has the stage, the stage's probability and the implied status, it is stored, and every other row is unchanged |
| DealService.UpdateStatus | server/internal/service/deal_service.go:172-194 | a status outside active, won, lost, cancelled fails first, then an unknown deal; otherwise only that deal's status changes |
| DealService.StatusCheckedFirst | server/internal/service/deal_service.go:174-191 | for a missing deal, "open" is refused as a status while "won" is refused as not found |
| DealService.GetPipelineValue | server/internal/service/deal_service.go:197-199 | one entry per stage holding an active deal of the tenant, each the sum of those deals' values |
| DealService.CreateDealKeepsValid | server/internal/service/deal_service.go:86 | creating a deal keeps the database well formed |
| DealService.UpdateDealKeepsValid | server/internal/service/deal_service.go:122 | updating a deal keeps the database well formed |
| DealService.DeleteDealKeepsValid | server/internal/service/deal_service.go:132 | deleting a deal keeps the database well formed |
| DealService.MoveToStageKeepsValid | server/internal/service/deal_service.go:163 | moving a deal keeps the database well formed |
| DealService.UpdateStatusKeepsValid | server/internal/service/deal_service.go:193 | changing a status keeps the database well formed |
| DealHandler.IdFilter | server/internal/handler/deal_handler.go:34-39 | the filter is set exactly when the value parses as a 32-bit unsigned decimal, and then holds its value |
| DealHandler.Optional | server/internal/handler/deal_handler.go:55-72 | an empty value leaves the filter unset; a non-empty one is set exactly when it parses |
| DealHandler.PagingValue | server/internal/handler/deal_handler.go:82-94 | an empty value gives the default; one that Atoi accepts gives its signed value; one it refuses leaves zero |
| DealHandler.ReadDate | server/internal/handler/deal_handler.go:67-72 | a close-date bound is a day exactly when the text parses as a date, and otherwise keeps the unreadable text for the database to refuse |
| DealHandler.ParseDealFilter | server/internal/handler/deal_handler.go:31-94 | each filter field comes from its query key as above; the date bounds are readable exactly when no non-empty close-date value fails to parse; sort_by and sort_order default to created_at and desc; limit defaults to 20 and offset to 0 |
| DealHandler.EmptyQueryIsDefaultListing | server/internal/handler/deal_handler.go:78-88 | an empty query is the unfiltered listing of the twenty newest deals |
| DealHandler.BadIdFilterIgnored | server/internal/handler/deal_handler.go:34-39 | a stage_id that does not parse gives the same filter as no stage_id at all |
| DealHandler.BadLimitListsEverything | server/internal/handler/deal_handler.go:82-86 | a limit that does not parse leaves the limit at zero, so the page holds every matching deal |
| DealHandler.GetDeals | server/internal/handler/deal_handler.go:27-109 | a failed listing is 500 "Failed to fetch deals" and happens exactly when the sort column is unknown or a non-empty close-date value is not a date; otherwise 200 with the listed page, the count of all matches, and the limit and offset used |
| DealHandler.GetDeal | server/internal/handler/deal_handler.go:112-127 | a bad id is 400 "Invalid deal ID"; success exactly when the tenant has the deal; otherwise 404 "deal not found" |
| DealHandler.CreateDeal | server/internal/handler/deal_handler.go:130-164 | a binding error is 400 with no change; success exactly when the service accepts the body with the caller's tenant and user; the deal is the caller's, appended, and one create entry is audited; an empty currency is stored as IDR |
| DealHandler.UpdateDeal | server/internal/handler/deal_handler.go:167-203 | a bad id is 400; errors change nothing; success means the service as written accepted the request for the path id: that deal is overwritten by the echoed request's non-zero fields (so a zero probability is not stored), every other deal is unchanged, and one update entry is audited; the echoed deal carries the path id and a zeroed tenant and creator |
| DealHandler.PathIdWins | server/internal/handler/deal_handler.go:182 | the id in the body makes no difference |
| DealHandler.DeleteDeal | server/internal/handler/deal_handler.go:206-232 | a bad id is 400; success exactly when the tenant has the deal; then the service's delete and one delete entry |
| DealHandler.MoveToStage | server/internal/handler/deal_handler.go:235-274 | a bad id is 400; a zero or missing stage_id is refused by the required tag; success exactly when the service moves the deal; the moved deal is returned and one move_stage entry is audited |
| DealHandler.UpdateStatus | server/internal/handler/deal_handler.go:277-312 | a bad id is 400; an empty status is refused by the required tag; success exactly when the service accepts it; then one update_status entry is audited |
| DealHandler.GetPipelineValue | server/internal/handler/deal_handler.go:315-325 | always 200; each entry is the sum of the active deals of that stage in the tenant |
| Memberships.FindByTenantAndUser | server/internal/repository/tenant_user_repository.go:32-40 | found exactly when a membership of that tenant and user exists, and the one found is of that pair |
| Memberships.CheckUserAccess | server/internal/repository/tenant_user_repository.go:86-92 | access exactly when some membership of the pair exists |
| Memberships.AccessIffFound | server/internal/repository/tenant_user_repository.go:32-40 | the access check and the lookup always agree |
| Memberships.FindUsersByTenant | server/internal/repository/tenant_user_repository.go:43-62 | the total counts all the tenant's memberships; the page holds only the tenant's memberships and is no longer than the total or the clamped page size |
| Memberships.TotalIgnoresPaging | server/internal/repository/tenant_user_repository.go:48-50 | every page reports the same total |
| Memberships.FindTenantsByUser | server/internal/repository/tenant_user_repository.go:65-72 | exactly the user's memberships |
| Memberships.UpdateRole | server/internal/repository/tenant_user_repository.go:74-78 | exactly the role of the pair's memberships changes |
| Memberships.UpdateRoleReadsBack | server/internal/repository/tenant_user_repository.go:74-78 | after the update the pair's lookup returns the new role, and every other pair's lookup is unaffected |
| Memberships.DeleteMembership | server/internal/repository/tenant_user_repository.go:80-83 | exactly the pair's memberships are removed |
| Memberships.DeleteRevokesAccess | server/internal/repository/tenant_user_repository.go:80-92 | after the delete the pair has no access and every other pair's access is unchanged |
| Memberships.CreateMembership | server/internal/repository/tenant_user_repository.go:27-29 | the membership is appended under the next key and grants the pair access |
| Memberships.CreateMembershipKeepsValid | server/internal/repository/tenant_user_repository.go:27-29 | adding a membership keeps the database well formed |
| Bcrypt.GenerateFromPassword | server/internal/service/auth_service.go:45-48 | a password of more than 72 UTF-8 bytes is refused with "bcrypt: password length exceeds 72 bytes"; any other is hashed, and its hash verifies it |
| Bcrypt.VerifyHashOf | server/internal/service/auth_service.go:45-78 | a stored hash verifies exactly the attempts whose key schedule reads the same 72 bytes (the password's bytes and a zero, repeated) |
| Bcrypt.Utf8Injective | server/internal/service/auth_service.go:45 | different passwords have different UTF-8 bytes |
| Bcrypt.OnlyThePasswordVerifies | server/internal/service/auth_service.go:76-78 | for passwords of at most 72 bytes without NUL characters, a hash verifies the password it was made from and no other |
| Bcrypt.LongerAttemptVerifies | server/internal/service/auth_service.go:76-78 | a stored 72-byte password also verifies a longer attempt that starts with it |
| AuthService.FindUserByEmail | server/internal/service/auth_service.go:39-65 | found exactly when a user has that email, and the one found has it |
| AuthService.Register | server/internal/service/auth_service.go:37-62 | refused when the email is taken ("user with this email already exists") or, failing that, when the password has more than 72 bytes (bcrypt's error), and exactly then; otherwise an active user with the hashed password is appended under the next key |
| AuthService.Login | server/internal/service/auth_service.go:64-83 | an unknown email is "invalid email or password"; an inactive account is refused before the password is compared; success exactly for an active user whose hash verifies the password |
| AuthService.RegisterThenLogin | server/internal/service/auth_service.go:37-83 | a freshly registered user logs in exactly with the attempts whose first 72 bytes agree with the password's key; within 72 bytes and without NUL characters, with the password given and no other |
| AuthService.CreateTenantForUser | server/internal/service/auth_service.go:85-109 | on success an active tenant and the creator's admin membership are appended under two fresh keys; when the membership insert fails the tenant is deleted again and the error returned |
| AuthService.RollbackRestoresTenants | server/internal/service/auth_service.go:102-106 | in a well-formed database the rollback leaves the tenant table exactly as before |
| AuthService.NoTenantWithKey | server/internal/service/auth_service.go:104 | deleting the fresh key removes only the new tenant |
| AuthService.CreatorIsAdmin | server/internal/service/auth_service.go:96-100 | after a successful creation the creator's membership of the new tenant is the admin one |
| AuthService.AddUserToTenant | server/internal/service/auth_service.go:111-125 | refused with "user already belongs to this tenant" exactly when the pair already has a membership; otherwise one with the given role is appended and grants access |
| AuthService.AddTwiceFails | server/internal/service/auth_service.go:113-116 | adding the same pair a second time fails, whatever the role |
| AuthService.RegisterKeepsValid | server/internal/service/auth_service.go:57 | registration keeps the database well formed |
| AuthService.CreateTenantForUserKeepsValid | server/internal/service/auth_service.go:85-109 | tenant creation keeps the database well formed, whether or not the membership insert fails |
| AuthService.NewTenantKeepsKeys | server/internal/service/auth_service.go:91-102 | both inserted rows take keys below the next free key and distinct from the existing ones |
| TenantService.FindTenant | server/internal/repository/tenant_repository.go:29-36 | found exactly when a tenant has that key, and the one found has it |
| TenantService.SaveTenant | server/internal/repository/tenant_repository.go:55-57 | the row with the key is overwritten in full and every other row stays |
| TenantService.GetTenantUsers | server/internal/service/tenant_service.go:60-62 | the total counts all the tenant's memberships and the page holds only the tenant's memberships |
| TenantService.AddUser | server/internal/service/tenant_service.go:66-124 | an unknown role fails first, then a lookup error, then a missing password for a new email, then a password bcrypt refuses (over 72 bytes), then an existing membership; on success the user is new exactly when the email was unknown (an active user with the hashed password) or else the existing user, and one membership with the role is appended, granting access |
| TenantService.NewUserIsAdded | server/internal/service/tenant_service.go:77-123 | a new email with a password and a valid role yields a new user who is added when the password has at most 72 bytes, and bcrypt's error otherwise |
| TenantService.RemoveUserFromTenant | server/internal/service/tenant_service.go:126-128 | exactly the pair's memberships are removed, whether or not there was one; nothing else changes |
| TenantService.UpdateUserRole | server/internal/service/tenant_service.go:130-132 | the pair's memberships take the role, whatever string it is; every other row stays |
| TenantService.AddThenRemove | server/internal/service/tenant_service.go:66-128 | a user added to a tenant has access, and removing them takes it away |
| TenantService.AddUserKeepsValid | server/internal/service/tenant_service.go:66-124 | adding a user keeps the database well formed, on every path |
| TenantService.RemoveUserKeepsValid | server/internal/service/tenant_service.go:126-128 | removing a membership keeps the database well formed |
| TenantService.UpdateUserRoleKeepsValid | server/internal/service/tenant_service.go:130-132 | changing a role keeps the database well formed |
| TenantHandler.NewestFirst | server/internal/repository/tenant_repository.go:49 | a page cut from the newest-first order is as long as what is left past the offset, up to the limit; its row k is the row that many places from the end, past the offset, so every row it holds is one of the input rows |
| TenantHandler.GetTenant | server/internal/handler/tenant_handler.go:26-36 | 200 with the caller's tenant exactly when it exists; otherwise 404 "Tenant not found" |
| TenantHandler.GetAllTenants | server/internal/handler/tenant_handler.go:39-55 | the page and page size are the query's with defaults 1 and 10; the total counts every tenant; the page is as long as what is left past the clamped offset, and each listed tenant is the one at its newest-first position past that offset |
| TenantHandler.MergeTenantFields | server/internal/handler/tenant_handler.go:77-82 | the key stays; each non-empty field replaces the stored one and an empty one keeps it; an empty request changes nothing and merging twice is merging once |
| TenantHandler.UpdateTenant | server/internal/handler/tenant_handler.go:58-101 | a binding error is 400, a missing tenant 404, both without change; success exactly otherwise, saving the merged tenant under the caller's key and auditing one update entry |
| TenantHandler.SavedTenantIsFound | server/internal/repository/tenant_repository.go:55-57 | after a save of a stored key, looking that key up answers the saved tenant |
| TenantHandler.UpdateThenGet | server/internal/handler/tenant_handler.go:26-101 | what the update answers is what the next GET /tenant answers |
| TenantHandler.GetTenantUsers | server/internal/handler/tenant_handler.go:104-121 | the paging values default to 1 and 10; the total counts the tenant's memberships; the page is no larger than the clamped size and holds only the tenant's memberships |
| TenantHandler.AddUserBinding | server/internal/handler/tenant_handler.go:127-137 | binding accepts exactly a request with a well-formed email and a non-empty role; a missing email is reported first |
| TenantHandler.AddUser | server/internal/handler/tenant_handler.go:124-171 | a binding error is 400 with no change; on success the answer is 201, the message and the audit action say "created" exactly when the user is new, which is exactly when the email was unknown, and the user then has access to the tenant |
| TenantHandler.UpdateUserRole | server/internal/handler/tenant_handler.go:174-209 | a bad user id or a missing role is 400 with no change; otherwise exactly the pair's memberships take the role and one update_role entry is audited |
| TenantHandler.RoleChangeReadsBack | server/internal/handler/tenant_handler.go:174-209 | after a role change the membership the access checks find carries the new role |
| TenantHandler.RemoveUser | server/internal/handler/tenant_handler.go:212-238 | a bad user id is 400; otherwise the user loses access to the caller's tenant, every other pair keeps its access, and one remove entry is audited |
| TenantHandler.GetAuditLogs | server/internal/handler/tenant_handler.go:241-258 | the paging values default to 1 and 20; the total counts the tenant's entries; page p is the tenant's entries read from the newest backwards, skipping (p - 1) times the clamped size and keeping at most that size, so its length is the window left over and it holds only the tenant's entries |
| TenantHandler.LatestEntryFirst | server/internal/repository/audit_log_repository.go:28-45 | the entry an action has just written heads the first page of the trail, and the total grows by one |
| TenantHandler.DefaultPaging | server/internal/handler/tenant_handler.go:40-244 | without paging values, tenants and users come ten to a page and audit entries twenty |
| AuthHandler.Register | server/internal/handler/auth_handler.go:39-73 | a binding error is 400 with no change; a taken email is 400 with no change; a free email with a password over 72 bytes is 400 with bcrypt's error and no change; success exactly when binding passes, the email is free, the password fits and the membership insert succeeds; then an active user, an active tenant, the user's admin membership and an admin token for that tenant; when the membership insert fails the user stays registered |
| AuthHandler.FirstOfTenant | server/internal/handler/auth_handler.go:103-109 | found exactly when one of the memberships is of that tenant, and the one found is |
| AuthHandler.FirstOfTenantIsLookup | server/internal/handler/auth_handler.go:91-109 | the membership login picks for a named tenant is the one the pair lookup finds |
| AuthHandler.Login | server/internal/handler/auth_handler.go:76-135 | a binding error is 400; bad credentials are 401 with the service's message; a user without memberships is 400; a named tenant the user does not belong to is 403, and exactly then; on success the token carries the user and a tenant and role the user actually holds, the named tenant when there is one, and the answer lists all the user's memberships |
| AuthHandler.GetMyTenants | server/internal/handler/auth_handler.go:138-150 | exactly the caller's memberships; a tenant appears exactly when the caller has access to it |
| AuthHandler.SwitchTenant | server/internal/handler/auth_handler.go:153-187 | a bad id is 400; 403 exactly when the caller has no access; success exactly when it has, with a token for that tenant and the role held there |
| AuthHandler.LoginAgreesWithSwitch | server/internal/handler/auth_handler.go:101-175 | logging in to a named tenant and switching to it later issue the same token |
| AuthHandler.RegisterThenLogin | server/internal/handler/auth_handler.go:39-135 | a new user's first login, naming no tenant, issues exactly the token registration issued, and lists just the one admin membership |
| Middleware.AuthMiddleware | server/internal/middleware/auth.go:10-36 | passes exactly when a bearer token is extracted and validates; a bad header is 401 "Missing or invalid authorization header", an invalid token 401 "Invalid or expired token"; on success the context carries the token's user, email, tenant and role |
| Middleware.TenantMiddleware | server/internal/middleware/auth.go:39-50 | passes, unchanged, exactly when the context's tenant id is present and non-zero; otherwise 403 "Tenant context required" |
| Middleware.RoleMiddleware | server/internal/middleware/auth.go:53-73 | passes, unchanged, exactly when the role is present and equal to one of the allowed roles; a missing role and a role not allowed are both 403, with different messages |
| Middleware.GetUserID | server/internal/middleware/auth.go:76-81 | the stored user id, or 0 when absent |
| Middleware.GetTenantID | server/internal/middleware/auth.go:84-89 | the stored tenant id, or 0 when absent |
| Middleware.GetRole | server/internal/middleware/auth.go:92-97 | the stored role, or the empty string when absent |
| Middleware.UnauthenticatedContextIsEmpty | server/internal/middleware/auth.go:39-97 | a context no token filled reads all zero values and both later guards refuse it |
| Routes.RunGuards | server/internal/routes/routes.go:34-44 | a group's middleware run in order, the first abort answering the request; with no guards the request reaches its handler with the context unchanged |
| Routes.PublicRoutesNeedNoToken | server/internal/routes/routes.go:27-32 | registration and login reach their handlers whatever the header |
| Routes.ProtectedRoutesRejectBadTokens | server/internal/routes/routes.go:34-107 | every route outside the auth group answers 401 when the header is missing or the token does not validate |
| Routes.GuardedRoutesStartWithAuth | server/internal/routes/routes.go:34-107 | every route outside the auth group runs the token check before any other guard |
| Routes.AdminOutcome | server/internal/routes/routes.go:52-61 | the five admin routes admit a validated token exactly when it names a tenant and its role is "admin" |
| Routes.UsersRouteOutcome | server/internal/routes/routes.go:63-68 | the user list admits a validated token exactly when it names a tenant and its role is admin or manager, which for the three known roles is the client's level at least manager |
| Routes.AdminListIsTopLevel | server/internal/routes/routes.go:54 | the admin-only list matches exactly the roles whose client level is at least admin |
| Routes.TenantRoutesAnyRole | server/internal/routes/routes.go:42-104 | the tenant, dashboard, contact, pipeline and deal routes admit a validated token exactly when it names a tenant, whatever its role |
| Routes.AccountRoutesNeedOnlyToken | server/internal/routes/routes.go:38-40 | listing and switching memberships admit any validated token and hand the handler its claims |
| Access.ParseRole | client/src/components/common/ProtectedRoute.tsx:7 | a recognised name is read as the role it names |
| Access.ParseRoleName | client/src/components/common/ProtectedRoute.tsx:7 | every role's name reads back as that role |
| Access.Rank | client/src/components/common/ProtectedRoute.tsx:19-21 | admin ranks 3, manager 2 and member 1; only admin has the top rank |
| Access.Level | client/src/components/common/ProtectedRoute.tsx:19-21 | level 0 when no role or the empty role is held, the rank of a listed role, and no level at all (JavaScript's undefined) for any other role string |
| Access.ProtectedRoute | client/src/components/common/ProtectedRoute.tsx:10-29 | a signed-out user goes to /login; a route with no requirement renders; otherwise the page renders exactly when the role has no level or its level reaches the required rank, and every other case goes to /dashboard |
| Access.ProtectedRouteMonotone | client/src/components/common/ProtectedRoute.tsx:18-26 | among roles with a level, one ranked at least as high as a passing role also passes |
| Access.ProtectedRouteExtremes | client/src/components/common/ProtectedRoute.tsx:19-24 | holding no role or the empty role fails every requirement, and admin passes every one |
| Access.CanAccess | client/src/components/layout/Sidebar.tsx:35-43 | an item without a requirement is always shown; a guarded item exactly when the role has a level that reaches the item's rank |
| Access.CanAccessAgreesWithGuard | client/src/components/layout/Sidebar.tsx:35-43 | for a role with a level (or no role) the sidebar shows an item exactly when the route guard renders a page with the same requirement; for any other role string the guard renders every page while the sidebar hides every guarded item |
| Access.UnknownRoleSeesHiddenPage | client/src/components/common/ProtectedRoute.tsx:18-23 | a user whose role is "owner" is let onto the admin-only settings page, which the sidebar does not list for them |
| Access.VisibleItems | client/src/components/layout/Sidebar.tsx:18-65 | exactly the navigation entries the role may access |
| Access.SettingsOnlyForAdmins | client/src/components/layout/Sidebar.tsx:18-22 | Settings is listed exactly when the role is the string admin; Dashboard and Contacts are listed for every role, none included |
| Access.IsActive | client/src/components/layout/Sidebar.tsx:28-33 | the dashboard link is active only on its exact path, every other link under its prefix |
| Access.ContactsPathHighlightsOneLink | client/src/components/layout/Sidebar.tsx:28-33 | under /dashboard/contacts the Contacts link is active and the Dashboard link is not |
| DealStore.FetchDeals | client/src/stores/dealStore.ts:30-55 | one GET /deals carrying the stored filters, which are the old ones overridden key by key by the given ones and stay stored even when the request fails; success replaces the deals and the pagination with the server's and clears the error, failure keeps them and stores the server's error or "Failed to fetch deals" |
| DealStore.Mutation | client/src/stores/dealStore.ts:69-138 | the shared shape of create, update, move, status and delete: a failed request is the only request and leaves the deals alone with the fallback message; a successful one is followed by a refetch with the stored filters, whose failure rejects the action with the action's own fallback message |
| DealStore.FetchDealById | client/src/stores/dealStore.ts:57-67 | one GET of the deal's path; success sets the current deal, failure keeps it and stores the message; the list and filters are untouched |
| DealStore.MutationsRefetchWithStoredFilters | client/src/stores/dealStore.ts:69-138 | every mutation whose own request succeeds refetches with exactly the filters stored before it and leaves them stored; a failed delete sends nothing more and keeps the list |
| DealStore.FailedRefetchIsMutationFailure | client/src/stores/dealStore.ts:98-110 | a move the server accepted whose refetch fails without a message is rejected and reported as "Failed to move deal" |
| DealStore.FetchPipelineValues | client/src/stores/dealStore.ts:140-149 | one GET /deals/pipeline-value that never touches the loading flag; success replaces only the values (an earlier error stays), failure only the error |
| DealStore.SetFilters | client/src/stores/dealStore.ts:151-153 | only the filters change: the given keys take the given values and every other stored key keeps its value |
| DealStore.SetFiltersIdempotent | client/src/stores/dealStore.ts:33-153 | setting the same filters twice equals setting them once, and a fetch with filters stores what setting them would |
| DealStore.ClearFilters | client/src/stores/dealStore.ts:155-162 | only the filters change, back to those of a fresh store |
| DealStore.ClearError | client/src/stores/dealStore.ts:164 | only the error changes, to none |
| ContactStore.FetchContacts | client/src/stores/contactStore.ts:21-48 | one GET /contacts carrying the stored filters, which are the old ones overridden key by key by the given ones and stay stored even when the request fails; success replaces the contacts and the pagination and clears the error, failure keeps them and stores the server's error or "Failed to fetch contacts" |
| ContactStore.FetchContactById | client/src/stores/contactStore.ts:50-60 | one GET of the contact's path; success sets the current contact, failure keeps it and stores the message; the list and filters are untouched |
| ContactStore.Mutation | client/src/stores/contactStore.ts:62-103 | the shared shape of create, update and delete: a failed request is the only request and leaves the list alone with the fallback message; a successful one is followed by a refetch with the stored filters, whose failure rejects the action with the action's own fallback message |
| ContactStore.SearchContacts | client/src/stores/contactStore.ts:105-127 | one GET /contacts/search with exactly q, page and the stored page size; the stored filters are untouched; success replaces the contacts and never shows zero pages, keeping the server's count when it is non-zero |
| ContactStore.SetFilters | client/src/stores/contactStore.ts:129-131 | only the filters change: the given keys take the given values and every other stored key keeps its value |
| ContactStore.ClearFilters | client/src/stores/contactStore.ts:133-140 | only the filters change, back to those of a fresh store |
| ContactStore.ClearError | client/src/stores/contactStore.ts:142-144 | only the error changes, to none |
| ContactStore.MutationsRefetchWithStoredFilters | client/src/stores/contactStore.ts:62-103 | create, update and delete refetch with exactly the filters stored before them once their own request succeeds; a successful update leaves the answered contact current even when the refetch fails; a failed delete sends nothing more |
| ContactStore.SearchThenFetchRestoresList | client/src/stores/contactStore.ts:21-110 | after a search the next plain fetch sends the same request it would have sent before the search |
| ContactStore.FilterUpdatesAgree | client/src/stores/contactStore.ts:25-140 | setting the same filters twice equals setting them once, a fetch with filters stores what setting them would, and a fetch after clearing sends the default filters |
| TenantStore.FetchTenantInfo | client/src/stores/tenantStore.ts:25-35 | one GET /tenant; success sets the tenant and clears the error, failure keeps it and stores the server's error or "Failed to fetch tenant info"; members and pagination untouched |
| TenantStore.UpdateTenant | client/src/stores/tenantStore.ts:37-47 | one PUT /tenant with the data and no refetch; the answered tenant replaces the stored one, a failure keeps it and stores the message |
| TenantStore.FetchTenantUsers | client/src/stores/tenantStore.ts:49-73 | one GET /tenant/users with the page and page size; success replaces the members and only the members slice of the pagination; the audit log and its slice are never touched |
| TenantStore.FetchAuditLogs | client/src/stores/tenantStore.ts:117-141 | one GET /tenant/audit-logs with the page and page size; success replaces the entries and only the audit-log slice; the members and their slice are never touched |
| TenantStore.MemberMutation | client/src/stores/tenantStore.ts:75-115 | the shared shape of add, role change and remove: a failed request is the only request with the fallback message; a successful one reloads the members page and size being shown, whose failure rejects the action with its own fallback message |
| TenantStore.ClearError | client/src/stores/tenantStore.ts:143-145 | only the error changes, to none |
| TenantStore.MemberMutationsRefetchShownPage | client/src/stores/tenantStore.ts:75-115 | add, role change and remove each reload the members page being shown once their request succeeds, the role change sends the chosen role, and the audit-log slice is untouched |
| TenantStore.SlicesAreIndependent | client/src/stores/tenantStore.ts:56-133 | loading a page of members and a page of audit entries gives the same pagination and lists in either order |
| PipelineStore.FetchStages | client/src/stores/pipelineStore.ts:15-25 | one GET /pipeline/stages; success leaves exactly the listed stages with no error, failure keeps the stages and stores the server's error or "Failed to fetch pipeline stages" |
| PipelineStore.Mutation | client/src/stores/pipelineStore.ts:27-81 | the shared shape of create, update, delete and reorder: a failed request is the only request and keeps the stages; a successful one is followed by a refetch, ending with the refetched list, or, when the refetch fails, with the old list and the action's own fallback message |
| PipelineStore.ClearError | client/src/stores/pipelineStore.ts:83 | only the error changes, to none |
| PipelineStore.ReorderSendsIdsUnchanged | client/src/stores/pipelineStore.ts:69-72 | the reorder body holds only stage_ids, and it reads back as exactly the given ids in the given order |
| PipelineStore.MutationsEndWithFreshList | client/src/stores/pipelineStore.ts:27-81 | whatever the mutation, when it and the refetch succeed the store holds exactly the refetched list, as a plain fetch would leave it |
| AuthStore.SignedInStorage | client/src/stores/authStore.ts:35-68 | the four auth keys hold the token, the user, the tenant and the role, and every other key of storage is as it was |
| AuthStore.Login | client/src/stores/authStore.ts:18-55 | posts only the email and password, then asks for the tenant; only when both succeed is the session (user, token, tenant, role, the remember flag) set and the four keys written; a failure of either leaves storage alone, keeps the old session and stores the server's error or "Login failed. Please try again." |
| AuthStore.Register | client/src/stores/authStore.ts:57-83 | one POST of the data; success signs in with the answered user, token and tenant under the role "admin" and writes the four keys, leaving the remember flag; failure leaves storage and session alone with the message |
| AuthStore.Logout | client/src/stores/authStore.ts:85-100 | exactly the four auth keys leave storage; the session is emptied and signed out while the loading and remember flags stay |
| AuthStore.LogoutIdempotent | client/src/stores/authStore.ts:85-100 | logging out twice is logging out once, and afterwards every guarded page redirects to /login |
| AuthStore.ClearError | client/src/stores/authStore.ts:102-104 | only the error changes, to none, and storage is untouched |
| AuthStore.SetToken | client/src/stores/authStore.ts:106-109 | only the token key of storage and the token and signed-in flag of the session change |
| AuthStore.ValidateToken | client/src/stores/authStore.ts:111-123 | always resolves; without a non-empty token it answers false without a request; otherwise one GET /tenant whose answer is valid exactly when its status is 200, and whose failure logs out and answers false |
| AuthStore.Partialize | client/src/stores/authStore.ts:125-134 | what is persisted is the session without the loading flag and the error |
| AuthStore.Rehydrate | client/src/stores/authStore.ts:125-134 | a restored store is never loading and has no error |
| AuthStore.ReloadKeepsSession | client/src/stores/authStore.ts:125-134 | a reload restores the session except a pending request and an error, what it restores is persisted unchanged again, and the loading flag and error never reach storage |
| AuthStore.RegisteredUserPassesEveryGuard | client/src/stores/authStore.ts:68-75 | after a registration the route guard renders every page, admin-only ones included |
| Validations.MinLength | client/src/lib/validations.ts:14 | no issue exactly when the text has at least the minimum number of UTF-16 code units; otherwise one issue with the given message |
| Text.Utf16Length | client/src/lib/validations.ts:14 | the length JavaScript reports, in UTF-16 code units: at least the number of characters and at most twice it |
| Text.Utf16LengthIsRuneCount | client/src/lib/validations.ts:14 | the JavaScript length equals the character count exactly when no character lies outside the Basic Multilingual Plane |
| Validations.RequiredEmail | client/src/lib/validations.ts:8-11 | no issue exactly when the email is non-empty and well formed; an empty one reports "Email is required" first |
| Validations.OneOf | client/src/lib/validations.ts:79 | no issue exactly when the value is one of the listed ones |
| Validations.LoginIssues | client/src/lib/validations.ts:7-16 | a sign-in form passes exactly when its email is present and well formed and its password has at least 6 UTF-16 code units |
| Validations.NameIssues | client/src/lib/validations.ts:26-29 | a name passes exactly when it has at least 2 UTF-16 code units; one code unit reports only the length message, an empty name both messages in order |
| Validations.RegisterIssues | client/src/lib/validations.ts:18-34 | a registration form passes exactly when the email is present and well formed, the password has at least 6 UTF-16 code units and both names at least 2 |
| Validations.RegisterFormPassesServerBinding | client/src/lib/validations.ts:18-34 | a registration form the schema accepts passes the server's binding, when both judge email syntax alike, exactly when its password has 6 characters, as the server counts them; so always when the password has no character outside the Basic Multilingual Plane |
| Validations.AstralPasswordSplitsTheChecks | client/src/lib/validations.ts:23-25 | a password of three emoji has six UTF-16 code units but three characters: the schema accepts it and the server's binding refuses it |
| Validations.LoginFormPassesServerBinding | client/src/lib/validations.ts:7-16 | a sign-in form the schema accepts is accepted by the server's binding, with no tenant named |
| Validations.OptionalEmailIssues | client/src/lib/validations.ts:49-53 | an email passes exactly when it is left out, empty or well formed |
| Validations.ParseContact | client/src/lib/validations.ts:40-68 | a contact form parses exactly when both names have at least 2 UTF-16 code units, the email is absent, empty or well formed, and status and source, when given, are among the listed values; the parsed data keep the fields and default the status to "active"; otherwise every issue found is reported |
| Validations.UpdateTenantIssues | client/src/lib/validations.ts:74-80 | a tenant form passes exactly when the name has at least 2 UTF-16 code units and the status is active, suspended or inactive |
| Validations.UpdateUserRoleIssues | client/src/lib/validations.ts:82-84 | a role passes exactly when it is admin, manager or member |
| Validations.AddUserIssues | client/src/pages/settings/components/AddUserDialog.tsx:8-13 | the add-user form passes exactly when the email is present and well formed and the role is one of the three; password and full name are optional |
| Validations.OrUndefined | client/src/pages/settings/components/AddUserDialog.tsx:44-45 | an empty text field is sent as undefined, any other as itself |
| Validations.AddUserBody | client/src/pages/settings/components/AddUserDialog.tsx:42-47 | the body carries exactly email, password, full name and role, the optional two as undefined when empty |
| Validations.TextField | server/internal/handler/tenant_handler.go:127-137 | the server reads a text field as its value, and a missing one as empty |
| Validations.AddUserBodyReadsBack | client/src/pages/settings/components/AddUserDialog.tsx:40-47 | the server binds back exactly the form's four fields, the empty ones as empty |
| Validations.AddUserFormPassesServerBinding | client/src/pages/settings/components/AddUserDialog.tsx:8-13 | a form the dialog accepts passes the server's binding when both judge email syntax alike |
| Validations.AfterAddUser | client/src/pages/settings/components/AddUserDialog.tsx:40-55 | a success closes the dialog and resets the form to its defaults; a failure keeps it open with what was typed |
| SettingsCards.FormatActionShape | client/src/pages/settings/components/AuditLogsCard.tsx:51-55 | an action's label has its length, with each underscore a space, each word's first letter upper-cased and every other character kept |
| SettingsCards.ActionBadge | client/src/pages/settings/components/AuditLogsCard.tsx:38-49 | green exactly for actions containing create or add, red for the rest containing delete or remove, blue for the rest containing update or edit, gray otherwise |
| SettingsCards.FilteredLogs | client/src/pages/settings/components/AuditLogsCard.tsx:22-32 | exactly the loaded entries whose action or resource contains the search ignoring case, or whose user id's digits contain it, and which agree with both selects unless set to "all", in their loaded order |
| SettingsCards.NoFilterShowsAll | client/src/pages/settings/components/AuditLogsCard.tsx:22-32 | with nothing typed and both selects on "all" every loaded entry is shown in order |
| SettingsCards.Actions | client/src/pages/settings/components/AuditLogsCard.tsx:18 | the actions of the entries, position by position |
| SettingsCards.Resources | client/src/pages/settings/components/AuditLogsCard.tsx:19 | the resources of the entries, position by position |
| SettingsCards.UniqueActions | client/src/pages/settings/components/AuditLogsCard.tsx:18 | each action of the loaded entries exactly once, and nothing else |
| SettingsCards.UniqueResources | client/src/pages/settings/components/AuditLogsCard.tsx:19 | each resource of the loaded entries exactly once, and nothing else |
| SettingsCards.OfferedActionKeepsItsLog | client/src/pages/settings/components/AuditLogsCard.tsx:18-32 | every entry's action is offered, and choosing it keeps that entry shown |
| SettingsCards.LogsPager | client/src/pages/settings/components/AuditLogsCard.tsx:205-218 | Previous is disabled exactly on page 1; for a positive page size Next is disabled exactly when the pages up to the current one hold the whole total |
| SettingsCards.LoadLogs | client/src/pages/settings/components/AuditLogsCard.tsx:13-15 | the card asks for its current page with twenty entries and leaves the members slice alone |
| SettingsCards.FilteredUsers | client/src/pages/settings/components/UsersManagementCard.tsx:24-32 | exactly the members with a preloaded user whose name or email contains the search ignoring case and whose role agrees with the select unless "all", in order |
| SettingsCards.EmptySearchHidesOnlyBareMembers | client/src/pages/settings/components/UsersManagementCard.tsx:24-32 | with an empty search and role "all" a member is shown exactly when its user was preloaded |
| SettingsCards.UsersPager | client/src/pages/settings/components/UsersManagementCard.tsx:232-246 | Previous is disabled exactly on page 1; for a positive page size Next is disabled exactly when the pages up to the current one hold the whole total |
| SettingsCards.LoadUsers | client/src/pages/settings/components/UsersManagementCard.tsx:19-21 | the card asks for its current page with twenty members and leaves the audit-log slice alone |
| SettingsCards.SubmitDisabled | client/src/pages/settings/components/ChangeRoleDialog.tsx:121 | the submit button is enabled exactly when another role is selected and nothing is loading |
| SettingsCards.SubmitRole | client/src/pages/settings/components/ChangeRoleDialog.tsx:19-35 | an unchanged role closes the dialog without a request; a changed one goes through the store's role update for the member's user id, and the dialog stays open exactly when that is rejected |
| SettingsCards.OpenedSelectionAsWritten | client/src/pages/settings/components/ChangeRoleDialog.tsx:15 | as written, an opening shows the member's role only the first time the dialog mounts, and otherwise the selection kept from before |
| SettingsCards.AfterOpening | client/src/pages/settings/components/UsersManagementCard.tsx:257-263 | after an opening the mounted dialog keeps a selection: the one clicked, or else the one it opened with |
| SettingsCards.StaleSelectionSendsPut | client/src/pages/settings/components/UsersManagementCard.tsx:257-263 | opening the dialog for one member, closing it, and opening it for a member of another role shows the first member's role, enables Update, and submitting sends a PUT of that role for the second member |
| SettingsCards.SubmitRoleRequests | client/src/pages/settings/components/ChangeRoleDialog.tsx:15-29 | with the dialog reset for each member, submitting the initial selection sends nothing; a changed role sends one PUT of the role to the member's user id |
| Client.Spread | client/src/stores/dealStore.ts:33 | every key of either object, with the second object's value where both have one |
| Client.SpreadIdempotent | client/src/stores/dealStore.ts:151-153 | spreading the same object again changes nothing, and spreading an empty one is the identity |
| Client.ErrorMessage | client/src/stores/dealStore.ts:51 | the server's error text when present and non-empty, the fallback otherwise |
| Client.NumArray | client/src/stores/pipelineStore.ts:72 | an array as long as the numbers, holding each in place |
| Client.AsNums | client/src/stores/pipelineStore.ts:72 | a value reads as numbers exactly when it is an array of numbers, and then as those numbers in order |
| Client.NumArrayRoundTrip | client/src/stores/pipelineStore.ts:72 | numbers sent as an array read back unchanged |
| Client.JsNumber | client/src/pages/pipeline/components/DealFormDialog.tsx:226 | a non-empty run of digits is its decimal value; anything else is not a number |
| Client.EmptyOrNumber | client/src/pages/pipeline/components/DealFormDialog.tsx:226-261 | a field reads as undefined exactly when it is empty |
| Client.EmptyOrNumberNatToString | client/src/pages/pipeline/components/DealFormDialog.tsx:226-261 | an id written out in decimal reads back as that id |
| Client.CapitalizeAll | client/src/pages/settings/components/AuditLogsCard.tsx:52-54 | each word capitalised, in place |
| Client.TitleWordsPointwise | client/src/pages/settings/components/AuditLogsCard.tsx:51-55 | the split, capitalise and join label agrees character by character with the rule: underscores become spaces, each word's first letter is upper-cased, the rest is kept |
| Client.NextDisabledCoversTotal | client/src/pages/settings/components/AuditLogsCard.tsx:218 | for a positive page size, being on or past the rounded-up page count is the same as the pages so far holding the whole total |
| ContactsPage.QueryAsWritten | client/src/pages/contacts/ContactsPage.tsx:33-40 | the filters as the page builds them: page and a page size of 20 always; search, status and source present exactly when set, each with the chosen value |
| ContactsPage.ClearedSearchIsStillSent | client/src/pages/contacts/ContactsPage.tsx:33-40 | after a search, clearing the box sends the old search again, because the key is left out and the store's merge keeps the stored value |
| ContactsPage.Query | client/src/pages/contacts/ContactsPage.tsx:33-40 | every filter key present: page, page size 20, and search, status and source as the chosen value or undefined when unset |
| ContactsPage.QuerySendsOnlyTheControls | client/src/pages/contacts/ContactsPage.tsx:33-40 | with every key present, the request's filter values depend only on the page's controls and not on what earlier searches stored; a cleared search is sent as undefined |
| ContactsPage.Pager | client/src/pages/contacts/ContactsPage.tsx:294-314 | shown exactly when the page has rows and the total is positive; the page count is never zero and is the server's when non-zero; Previous is disabled exactly on page 1 and Next exactly from the last page on |
| ContactsPage.StatusBadge | client/src/pages/contacts/ContactsPage.tsx:68-79 | green exactly for active, red exactly for blocked, gray otherwise |
| ContactsPage.SourceBadge | client/src/pages/contacts/ContactsPage.tsx:81-96 | gray exactly for a source outside the five known ones |
| ContactsPage.SourceBadgesDistinct | client/src/pages/contacts/ContactsPage.tsx:81-96 | two different known sources never share a colour |
| ContactsPage.ColdCallLabel | client/src/pages/contacts/ContactsPage.tsx:272 | the cold_call source reads "Cold Call" |
| ContactsPage.StatusLabels | client/src/pages/contacts/ContactsPage.tsx:266 | the three statuses read Active, Inactive and Blocked |
| PipelinePage.DealsByStage | client/src/pages/pipeline/PipelinePage.tsx:27-34 | exactly the deals whose nested stage id, or else plain stage id, is the column's, in list order |
| PipelinePage.AtMostOneColumn | client/src/pages/pipeline/PipelinePage.tsx:27-34 | a deal is in at most one column; a nested stage with a non-zero id decides its column whatever the plain id says; a deal with neither is in no column |
| PipelinePage.Columns | client/src/pages/pipeline/PipelinePage.tsx:217 | the same stages, as a multiset, in ascending order |
| PipelinePage.StageValue | client/src/pages/pipeline/PipelinePage.tsx:219 | the stage's pipeline value, or 0 when it has none |
| PipelinePage.TotalValueRemove | client/src/pages/pipeline/PipelinePage.tsx:78 | the pipeline total does not depend on the order the values are added in: any one value can be taken out first |
| PipelinePage.HeaderTotalMatchesColumns | client/src/pages/pipeline/PipelinePage.tsx:78-219 | the header's total equals the sum of the values shown under the columns when the columns are distinct stages covering every valued stage |
| PipelinePage.HandleDrop | client/src/pages/pipeline/PipelinePage.tsx:52-76 | nothing without a dragged deal; a drop on its own column only ends the drag; otherwise the move, then on success the refetch and the values, in that order, with the success toast exactly when all three succeed and "Failed to move deal" otherwise; the drag always ends |
| PipelinePage.RefreshValuesAfter | client/src/pages/pipeline/PipelinePage.tsx:91-127 | after a menu action resolves the values are fetched; a rejection of either shows the server's message or the action's fallback, and success shows the action's message |
| PipelinePage.HandleDeleteDeal | client/src/pages/pipeline/PipelinePage.tsx:91-103 | nothing unless confirmed; then the delete first, and after it and the refetch succeed a values fetch; a failed delete sends nothing more |
| PipelinePage.HandleMarkStatus | client/src/pages/pipeline/PipelinePage.tsx:105-127 | one status PUT of won or lost first, and after it and the refetch succeed a values fetch |
| StageDialogs.FormFor | client/src/pages/pipeline/components/StageFormDialog.tsx:26-61 | an edited stage fills the form with its own fields; a new one starts empty with probability 50, colour #8B5CF6 and both closed flags off |
| StageDialogs.SetClosedFlags | client/src/pages/pipeline/components/StageFormDialog.tsx:191 | ticking the closed flags changes them only when the checkboxes are shown, that is for a new or custom stage, and never touches the other fields |
| StageDialogs.MaxOrder | client/src/pages/pipeline/components/StageFormDialog.tsx:70 | the largest order among the stages, attained by one of them |
| StageDialogs.NextOrder | client/src/pages/pipeline/components/StageFormDialog.tsx:70 | an order strictly after every existing stage: 1 on an empty board, otherwise exactly one past the largest |
| StageDialogs.NewStageIsLastColumn | client/src/pages/pipeline/components/StageFormDialog.tsx:70 | a stage created with the next order is drawn as the last column |
| StageDialogs.SubmitStage | client/src/pages/pipeline/components/StageFormDialog.tsx:63-79 | an edited stage is patched with the form data and no order, a new one created with the next order; success closes the dialog and resets the form, any failure keeps it open as filled with the server's message or "Failed to save stage" |
| StageDialogs.DefaultStageKeepsClosedFlags | client/src/pages/pipeline/components/StageFormDialog.tsx:191 | editing a default stage sends the closed flags it already had, whatever was ticked |
| StageDialogs.ListedStages | client/src/pages/pipeline/components/StageManagementDialog.tsx:101-102 | the same stages, in the board's ascending order |
| StageDialogs.DeleteStageClicked | client/src/pages/pipeline/components/StageManagementDialog.tsx:28-42 | a default stage is refused with "Cannot delete default stages" and no request; a declined confirmation does nothing; otherwise exactly one delete through the store, whose failure shows the server's message or "Failed to delete stage" |
| StageDialogs.DefaultStageIsNeverDeleted | client/src/pages/pipeline/components/StageManagementDialog.tsx:28-155 | a default stage's delete button is disabled and the handler sends nothing and leaves the store alone anyway |
| DealFormDialog.PrefillDate | client/src/pages/pipeline/components/DealFormDialog.tsx:38 | no stored date gives no date; a prefilled date is a non-empty prefix of the stored timestamp containing no T |
| DealFormDialog.SubmittedDate | client/src/pages/pipeline/components/DealFormDialog.tsx:79-81 | a picked day is sent as midnight UTC of that day; an empty or unset field as undefined |
| DealFormDialog.DateRoundTrip | client/src/pages/pipeline/components/DealFormDialog.tsx:38-81 | a picked day sent as a timestamp prefills as the same day |
| DealFormDialog.ResubmitKeepsDay | client/src/pages/pipeline/components/DealFormDialog.tsx:38-81 | prefilling a stored timestamp and submitting again keeps the day and resets the time to midnight UTC |
| DealFormDialog.OrUnset | client/src/pages/pipeline/components/DealFormDialog.tsx:37-39 | unset exactly when absent or zero, otherwise the number itself |
| DealFormDialog.TextOrUnset | client/src/pages/pipeline/components/DealFormDialog.tsx:40 | unset exactly when absent or empty, otherwise the text itself |
| DealFormDialog.FormFor | client/src/pages/pipeline/components/DealFormDialog.tsx:31-71 | a new deal starts with an empty title, value 0, IDR, stage 0 and the rest unset; an edited deal keeps its title, value and currency, its contact and probability only when non-zero, and its date's day part; the description is prefilled exactly when the deal has a non-empty one |
| DealFormDialog.SelectReadsBack | client/src/pages/pipeline/components/DealFormDialog.tsx:225-262 | the empty option reads as no contact and an option written from an id reads back as that id |
| DealFormDialog.SubmitBody | client/src/pages/pipeline/components/DealFormDialog.tsx:77-82 | the body carries exactly the form's eight fields, description included, with the date replaced by its submitted form |
| DealFormDialog.ResubmitKeepsDescription | client/src/pages/pipeline/components/DealFormDialog.tsx:59-82 | resubmitting an unedited deal sends its non-empty description back and leaves an empty or missing one unset |
| DealFormDialog.FilteredContacts | client/src/pages/pipeline/components/DealFormDialog.tsx:98-102 | exactly the contacts whose name and email line contains the search ignoring case, in list order |
| DealFormDialog.PickerFindsByFirstName | client/src/pages/pipeline/components/DealFormDialog.tsx:98-102 | an empty search offers every contact, and typing a contact's first name in any case finds it |
| DealFormDialog.OnOpen | client/src/pages/pipeline/components/DealFormDialog.tsx:49-54 | a closed dialog does nothing; an open one asks for the stages and then for the contacts with the filters the contact store already holds, and a successful answer replaces that store's list |
| DealFormDialog.SubmitDeal | client/src/pages/pipeline/components/DealFormDialog.tsx:74-96 | an edited deal is patched and a new one posted with the submitted body; success with a good refetch closes the dialog, resets the form and lists the refetched deals; any failure keeps the dialog open as filled with an error toast; the store's filters never change |

## Left out

- Database failures other than "record not found" (connection loss, constraint violations, a failed transaction) are not modelled. The tables are total sequences, so the 500 replies that such failures produce in the handlers do not arise.
- GORM's soft delete is modelled as removing the row. A soft-deleted row is invisible to every query the core issues, so the observable tables are the same.
- Timestamps (`created_at`, `updated_at`, `last_login_at`) and clock reads are left out. Listings that order by `created_at DESC` are modelled as reverse insertion order, and ties in other orderings keep storage order.
- Money and probability values are `float64` in the server and JavaScript numbers in the client. The model uses `int`, so rounding is not modelled.
- Case-insensitive search (`ILIKE`, `toLowerCase`) is modelled as ASCII lower-casing. `%` and `_` typed into a search are matched literally, not as `LIKE` wildcards.
- The JSON encoding of replies is left out: a reply is a status, a message and a typed payload. Field names appear only where the client reads them.
- Password hashing: bcrypt's cipher is replaced by a stand-in that spells out the 72 bytes its key schedule reads. The refusal of passwords over 72 bytes (a 400 in both handlers that hash) and the fact that bytes past the 72nd are never compared are modelled; salt and cost factor are left out, so the same password always gives the same hash.
- JWT signing and validation are parameters: a validator maps a token string to its claims or to nothing. Signature, expiry and the `HS256` check live inside that parameter. Token generation cannot fail in the model, so the three "Failed to generate token" replies in `server/internal/handler/auth_handler.go` are left out.
- Email syntax (`binding:"email"`) is a parameter `validEmail`. The validator's own message prefix ("Key: … Error:Field validation …") is not reproduced; only which field failed is modelled.
- Zod's generic messages for enums and unions are not reproduced. The validation functions return the schema's own custom messages and a fixed text otherwise.
- `dealSchema` and `pipelineStageSchema` are imported by the deal and stage dialogs but are not defined in `client/src/lib/validations.ts`. The dialogs are therefore modelled without a client-side schema check.
- The audit entries' IP address and user agent (`server/internal/model/tenant.go:80-81`) come from the HTTP request and are left out. A failed audit write is ignored by the source, as it is here.
- The dashboard (`dashboard_service.go`, `dashboard_handler.go`) is outside the modelled core.
- Concurrency is not modelled: requests are handled one after another, and a store action runs to completion before the next. Races between overlapping fetches are not modelled.
- `user_repository.go` is not part of this model. Looking up a user by id or email is modelled directly over the users table, with email unique as the schema's index requires.
- `TenantHandler.GetAllTenants` has no route in `server/internal/routes/routes.go`. It is modelled as a handler, but no route reaches it.
- TenantService.UpdateUserRole: like the source, it stores any role string. The handler's binding only requires the role to be non-empty, so the `admin`/`member` choice is enforced only by the client's dialog.
- Strconv.Atoi: for malformed text the contract says only that the value is 0 or a 64-bit bound. Which one depends on whether the digits before the first bad character already overflow; the body follows Go's scan for that.
- The client's persistence (`zustand/persist` to `localStorage`) is modelled only as the four keys the auth store writes and reads back. Storage failures and the JSON encoding are left out.
- The `Authorization` header that the axios interceptor adds to every request is not part of the modelled `Request`. The 401 redirect of the response interceptor is left out.
- Client.JsNumber: `Number(v)` is modelled for the strings a numeric input or an id select produces. Signs, decimals, exponents and surrounding blanks read as `NaN` here, although JavaScript would read them as numbers.
- The pipeline page sorts the store's stage array in place (`stages.sort`). The model returns a sorted copy and leaves the store's order alone.
- Toasts are modelled as the text they would show; rendering, timing and dismissal are left out. The "won" toast's garbled emoji bytes are modelled as 🎉.
- Scopes.Paginate: the repository listings page with the exact offset. The 64-bit wrap of the first row of "## Findings" is exhibited on `Scopes.PaginateAsWritten` only; it needs a page number near 9.2e16, and the listing lemmas (pages tile, the last page is not empty) are stated about the exact offset.
- ContactRepo.FindAllContacts: names are ordered character by character in code-point order (`ContactRepo.ByName`). PostgreSQL orders text by the database's collation, which is configuration the model does not have.
- DealRepo.Ascending: text columns (title, description, currency, status, source, notes) are ordered in code-point order, not by the database's collation. Ordering by a column the model's deal does not carry (updated_at, deleted_at, stage_order, actual_close_date, loss_reason, tags) leaves the order unconstrained.
- DealRepo.ParseColumn: a `sort_by` that is not a bare column name is refused. GORM passes the text to `ORDER BY` unchanged, so the database would also accept a qualified name or an SQL expression there.
- ContactService.CreateContact: a non-zero `id` in the request body is replaced by the next free key. GORM would insert the row under the given id, or fail on a key already taken; the model keeps every key below its next-key counter instead.
- ContactHandler.CreateContact: binds the body's `id` as the service above does, so the same gap applies.
- StageService.CreateStage: a non-zero `id` in the request body is replaced by the next free key, for the reason given for contacts.
- StageHandler.CreateStage: binds the body's `id` as the service above does, so the same gap applies.
- DealService.CreateDeal: a non-zero `id` in the request body is replaced by the next free key, for the reason given for contacts.
- DealHandler.CreateDeal: binds the body's `id` as the service above does, so the same gap applies.
- The server does not check `is_default` when a stage is deleted. Only the client guards it, and the model keeps both behaviours as written.
- Purely presentational page state (open menus, hover, dialog animation) is left out.
- Contact fields that the core only stores and echoes (mobile, position, address and the like) are carried in one `notes` field of the model's contact.

## Findings

| source | as written | input that shows it | evidently intended | confidence | as-written member | corrected member |
|---|---|---|---|---|---|---|
| server/internal/model/scopes.go:74-75 | the offset `(page - 1) * pageSize` is computed in a 64-bit `int` and wraps around | page 92233720368547760 with page size 100 wraps to a negative offset, which GORM ignores, so the first page is served | a page far past the end serves no rows | not executed | Scopes.PaginateOverflowServesFirstPage | Scopes.Paginate |
| server/internal/handler/contact_handler.go:114 | `total_pages` divides by the requested page size, not the clamped one | 250 contacts at page_size 500 report 1 page while 3 pages of 100 are served; page_size 0 divides by zero | the page count of the page size actually served | not executed | ContactHandler.TotalPagesUndercounts | ContactHandler.TotalPages |
| server/internal/service/deal_service.go:109-111 | a probability copied from a stage with probability 0 is dropped by the struct `Updates` (server/internal/repository/deal_repository.go:122), which skips zero fields | a deal at probability 75 is patched onto a stage whose probability is 0; it keeps 75 | the deal takes the new stage's probability, 0 included | not executed | DealService.UpdateToZeroStageKeepsOldProbability | DealService.UpdateDeal |
| client/src/pages/settings/components/ChangeRoleDialog.tsx:15 | `useState(user.role)` is read only when the dialog first mounts, and client/src/pages/settings/components/UsersManagementCard.tsx:257-263 keeps it mounted while a member is selected | open "Change role" for an admin, cancel, open it for a member: "admin" is checked, Update is enabled, and submitting sends PUT /tenant/users/<member>/role with role "admin" | each opening starts from the member's own role | not executed | SettingsCards.StaleSelectionSendsPut | SettingsCards.SubmitRoleRequests |
| client/src/pages/contacts/ContactsPage.tsx:33-40 | an empty search adds no `search` key, and the store merges the filters over the stored ones (client/src/stores/contactStore.ts:25) | type "acme", then clear the search box; the next fetch still sends `search: "acme"` | clearing the box lists all contacts | not executed | ContactsPage.ClearedSearchIsStillSent | ContactsPage.Query |

