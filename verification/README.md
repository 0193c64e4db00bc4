# Product-draft assistant: a Dafny model of the page logic

The application is a single-page shop assistant (`script.js`). A seller enters one product in a form, or loads a fixed three-product batch that stands in for a spreadsheet import. The page then produces one listing draft per product, each with a synthesized title and one or two slogans and with images assigned by position.

The page also keeps four pieces of browser storage:
- a template library, filled by favouriting drafts, searchable by name, tag and type, with delete and JSON import;
- a product library, filled by the batch when saving is enabled;
- a task list, where new tasks are created at the front, tasks can be started, paused and deleted, and the list is shown searched, filtered and newest-first;
- the settings.

A dashboard counts these.

The model keeps the page's data as immutable Dafny values. Each handler's logic is a pure function, except the two loops that append to the product library (`SaveToLibrary`, and `SaveBatch`, which stores its result) and the action that calls them (`Generate`); those three are methods over the same values. Each member carries a contract that states what the page promises. The modules follow the page's concerns:

| module | file | what it holds |
|---|---|---|
| `Basics` | basics.dfy | `Option` (JavaScript `null` / a falsy value), `Result`, and the `"all"` value of the filter selects |
| `Text` | text.dfy | `trim`, `split` (with a joining inverse used to characterize it), `split(...)[0]`, `split(...).pop()`, `substring(0, n)`, `toLowerCase`, `includes` |
| `Seqs` | seqs.dfy | `Array.prototype.filter`, subsequence, counting, the first element with a key (`find`/`findIndex`), distinct ids |
| `Drafts` | drafts.dfy | the form check, title, slogans, image assignment, one draft and a batch of drafts |
| `Library` | library.dfy | saving a batch to the product library |
| `Templates` | templates.dfy | favouriting a draft, the template list filter, delete, import |
| `Tasks` | tasks.dfy | status strings and labels, add, start, pause, delete, the task list |
| `Store` | store.dfy | the four storage keys, their defaults, the dashboard counts |
| `Pipeline` | pipeline.dfy | the whole "generate drafts" action over the store |

Some modelling conventions:
- An optional product field that is absent is the empty string, as it is for the page, where `''` is falsy.
- The clock, the random part of draft ids and the locale date text are parameters. These are `now` (and, for a new task, `created` and `updated`), `ids(i)`, `id` and `date`.
- Timestamps are integer milliseconds.

## Model

| member | source | states |
|---|---|---|
| Text.Trim | script.js:211-225 | the result has no whitespace at either end and sits in the input with only whitespace before it (where the leading whitespace stops) and only whitespace after it; it is empty exactly when the input is all whitespace, and an already trimmed string is left alone |
| Text.TrimOfIsTrim | script.js:211-225 | the trim is unique: any trimmed string that sits in the input with only whitespace around it is the trim |
| Text.TrimDropsTrailingSpace | script.js:459-462 | a category whose last segment is blank (such as "鞋靴 >") adds one lone space at the end of the raw title; the final trim removes exactly that space |
| Text.TrimKeepsInfix | script.js:462 | a trimmed non-empty word occurring anywhere in a string still occurs in its trim |
| Text.TrimKeepsAbsent | script.js:459 | trimming never introduces a character that was not there, so no `>` survives into a trimmed category segment |
| Text.JoinSplit | script.js:459 | splitting on a one-character separator loses nothing: joining the pieces with that separator gives the input back |
| Text.FirstSegment | script.js:567 | `split('>')[0]` is the prefix before the first `>`: it holds no `>`, and the input continues with `>` after it unless it is the whole input |
| Text.LastSegment | script.js:459 | `split('>').pop()` is the suffix after the last `>`: it holds no `>`, and a `>` precedes it unless it is the whole input |
| Text.Take | script.js:560 | `substring(0, n)` is the prefix of length `min(n, length)` |
| Text.Lower | script.js:652 | lower-casing keeps the length and lower-cases each character in place |
| Seqs.Filter | script.js:1218 | `filter` keeps exactly the elements the predicate accepts and is the identity when every element passes |
| Seqs.FilterIsSubsequence | script.js:658-664 | a filtered list keeps the stored order |
| Seqs.FilterMultiset | script.js:658-664 | a filtered list holds each accepted element as often as the input does and rejected ones never |
| Seqs.FilterAppend | script.js:947-949 | filtering a concatenation filters each part |
| Seqs.FilterCompose | script.js:1093-1104 | filtering by one predicate and then another is filtering once by both |
| Seqs.CountIndices | script.js:947-949 | the length of a filtered list is the number of positions whose element passes |
| Drafts.ManualInput | script.js:210-226 | the form is rejected with the name-required message exactly when the name is blank after trimming; otherwise every field is its trimmed input and the product is well formed |
| Drafts.CategoryTail | script.js:459 | the category word in a title is the trim of the part after the last `>`, so it is trimmed and holds no `>` |
| Drafts.Title | script.js:451-462 | the title is trimmed and always contains the product name |
| Drafts.TitleJoinsPresentFields | script.js:451-462 | for a well-formed product the title is brand, name, material, colour and last category segment, each present one separated from the next by exactly one space |
| Drafts.ShoeTitle | script.js:451-462 | a product with brand, material and colour but no category gets "商务大师 男士商务休闲皮鞋 头层牛皮 黑色" |
| Drafts.MockShoeTitle | script.js:451-462 | the first spreadsheet product, whose category is "鞋靴 > 皮鞋", gets "商务大师 男士商务休闲皮鞋 头层牛皮 黑色 皮鞋" |
| Drafts.ShoeCategoryTail | script.js:459 | the category "鞋靴 > 皮鞋" contributes its last segment "皮鞋" without the surrounding space |
| Drafts.CandidatesByPriority | script.js:470-484 | with brand, material, colour and audience all absent there are no slogan candidates; with exactly one present there is exactly that field's candidate; otherwise the first two candidates are those of the two present fields earliest in the order brand, material, colour, audience |
| Drafts.Slogans | script.js:466-492 | one or two slogans: the fallback alone when brand, material, colour and audience are all absent, the single present field's slogan and then the fallback, or the slogans of the first two present fields in that priority |
| Drafts.MainImageFor | script.js:196 | a draft's main image is the product's own non-empty image; failing that the first image when non-empty; failing that the placeholder, so it is never empty |
| Drafts.ReferenceImageFor | script.js:197 | a draft's reference image is the product's own non-empty image; failing that the first image when non-empty; and null exactly when both are missing |
| Drafts.ProductDraft | script.js:432-449 | a draft carries the product, images and link unchanged, the synthesized title and one or two slogans, and its title contains the name of a well-formed product |
| Drafts.GenerateDrafts | script.js:194-200 | one draft per product in product order, with each product's own title and slogans and the positional main-image and reference-image rules |
| Library.OwnImage | script.js:606-607 | a library item's image is the product's own non-empty image or null, with no fall-back to the first image |
| Library.SaveToLibrary | script.js:594-615 | when saving is disabled the library is unchanged; otherwise one item per product is appended in order, item `i` gets id `now + i`, the stored items stay, and ids stay unique when every stored id is older than `now` |
| Templates.TemplateName | script.js:560 | a template name is the first 20 characters of the title followed by "...", even for a shorter title, so it is at most 23 long |
| Templates.TemplateTags | script.js:567 | two tags: the trim of the part of the category before the first `>` (so trimmed and free of `>`), then the brand or "无品牌", never empty |
| Templates.FromDraft | script.js:558-570 | a favourited draft becomes a "complete" template by "system" holding the draft's title, slogans and main image |
| Templates.SaveToTemplate | script.js:554-573 | favouriting appends exactly one template and keeps the stored ones; a fresh id keeps ids unique |
| Templates.QueryTemplates | script.js:650-664 | the list shows exactly the templates whose lower-cased name or some tag contains the lower-cased search and whose type matches (or the filter is "all"), in stored order and multiplicity; an empty search with "all" shows everything |
| Templates.FindTemplate | script.js:710 | `find` by id returns the first stored template with that id, and nothing exactly when no template has it |
| Templates.DeleteTemplate | script.js:772-775 | delete keeps each template with another id exactly as often as stored, in order, and no template with the id; afterwards the id cannot be found, an absent id changes nothing, and unique ids stay unique |
| Templates.ImportTemplates | script.js:818-833 | an import that does not parse leaves the list untouched; one that does appends the imported templates after the stored ones, keeping every element of both |
| Templates.ImportKeepsDuplicateIds | script.js:823-824 | importing a template whose id is already stored leaves two templates with that id |
| Tasks.ParseStatus | script.js:1138-1146 | reading a stored status string gives a status that spells that string and is in canonical form |
| Tasks.StatusRoundTrip | script.js:1138-1146 | writing a canonical status and reading it back gives the same status |
| Tasks.StatusText | script.js:1138-1146 | a known status shows its label from the table pending 待处理, processing 处理中, completed 已完成, failed 失败, which differs from its stored name; any other string shows as itself |
| Tasks.StatusTextInjective | script.js:1139-1144 | two different known statuses never share a label |
| Tasks.StatusTextOfStored | script.js:1138-1146 | the text shown for a stored status string is its label from the table when it has one and the string itself otherwise |
| Tasks.AddTask | script.js:1149-1162 | a new pending task with no products, named "新任务-" plus the date, with its creation and update times from the page's two separate clock readings, goes in front of the unchanged list; a fresh id keeps ids unique |
| Tasks.FindTaskIndex | script.js:1187 | `findIndex` by id gives the first position with that id, and -1 exactly when no task has it |
| Tasks.StartTask | script.js:1185-1197 | the first task with the id becomes processing and is stamped now; every other task and field stays; an absent id changes nothing |
| Tasks.PauseTask | script.js:1200-1212 | the first task with the id becomes pending and is stamped now; every other task and field stays; an absent id changes nothing |
| Tasks.DeleteTask | script.js:1215-1218 | delete keeps each task with another id exactly as often as stored, in order, and no task with the id; an absent id changes nothing |
| Tasks.Insert | script.js:1107 | inserting into a newest-first list keeps it newest-first and adds exactly that task |
| Tasks.SortNewestFirst | script.js:1107 | sorting yields a newest-first permutation of the tasks |
| Tasks.SortIsStable | script.js:1107 | tasks created at the same instant keep their stored relative order |
| Tasks.FilterStages | script.js:1093-1104 | the search filter, applied only when the term is non-empty, followed by the status filter, applied only when it is not "all", keeps the same tasks as one filter by the combined test |
| Tasks.DisplayTasks | script.js:1081-1107 | the list shows exactly the tasks whose lower-cased name or description contains the lower-cased search and whose status matches the filter ("all" or an empty filter meaning any), each as often as stored, newest first, and tasks created at the same instant in their stored order |
| Store.LoadData | script.js:909-935 | every missing storage key gets its default (empty lists, the default settings) and every present key is kept |
| Store.LoadDataIdempotent | script.js:909-935 | loading twice is loading once |
| Store.ActiveTasks | script.js:947-949 | the active count is the number of positions holding a task whose stored status string is "pending" or "processing", however it was written, so at most the number of tasks and equal to it exactly when every task is active |
| Store.ActiveBySpelling | script.js:947-949 | whether a task is counted depends only on its stored status string, so a status that holds the string "pending" or "processing" without being in canonical form is still counted |
| Store.ComputeStats | script.js:938-950 | the dashboard shows the library size, twice that as drafts, the template count and the number of stored tasks whose status string is "pending" or "processing" |
| Store.FirstRun | script.js:909-950 | on a first run every dashboard count is zero and the template list is empty |
| Store.ActiveAfterAdd | script.js:1149-1166 | adding a task raises the active count by exactly one |
| Store.ActiveAfterDelete | script.js:1215-1222 | deleting a task never raises the active count |
| Store.ActiveAfterStartOrPause | script.js:1185-1212 | starting or pausing raises the active count by one exactly when the stored status string of the task found was neither "pending" nor "processing", and otherwise keeps it |
| Pipeline.Batch | script.js:154-166 | the manual form yields the name error, or exactly the one checked product the form gives; the spreadsheet path yields the fixed three products |
| Pipeline.Generate | script.js:148-207 | a rejected form yields the name error and changes nothing; otherwise the drafts are those built from the batch, one per product in order, only the library key may change, and with saving enabled the library keeps its items and then holds item `i` of the batch with id `now + i` and the product's own images |
| Pipeline.SaveBatch | script.js:206 | saving the batch keeps the stored library items, appends item `i` of the batch with id `now + i`, and changes no other key |

## Left out

- Rendering, event wiring, tabs, messages and the confirmation dialogs are left out, because they are DOM work. A declined confirmation leaves the lists as they were, and the model covers only the confirmed path of delete.
- Browser storage and JSON are modelled as typed optional values. A stored value of the wrong shape, and a JSON parse failure other than the import's, are not modelled.
- The clock, the random draft-id suffix and the locale date text are parameters. ISO-8601 formatting and `new Date(...)` parsing are left out, so timestamps are integer milliseconds and the task sort compares those.
- Library.SaveToLibrary: every item is stamped with one `now`, and item `i`'s id is `now + i`. The page reads `Date.now()` once per item, so this assumes the clock does not advance during the loop.
- The fallback that reads image URLs from the preview elements when no file was uploaded (script.js:173-191) is left out. The image lists are parameters, given after that step.
- Text.Lower: only the ASCII letters `A`-`Z` are lower-cased. `toLowerCase` also folds non-ASCII letters, but the page's data is Chinese and needs no folding.
- Text.Take and Templates.TemplateName count Unicode scalar values. JavaScript's `substring` counts UTF-16 code units, which differ for characters outside the Basic Multilingual Plane.
- Tasks.StatusText: applies to a parsed status. The lookup in the page's object literal would also answer inherited property names such as `constructor`, which the model does not reproduce.
- The settings form (load, save, reset), export, the file upload stubs, `oneClickGenerate`, `generateTestData`, `viewTask`/`editTask` and `useTemplate`/`editTemplate` (messages only) are left out, because they are UI.
- The model describes script.js with lines 843-906 removed. Those lines are a stray top-level copy of the body of the template delete-confirmation dialog. Its closing `}` at line 906 has no matching opening brace, so the file as written would not parse.
- Templates.QueryTemplates: the search term is lower-cased but the template type is compared exactly, as in the page.
- Drafts.GenerateDrafts: every draft is stamped with the same `now`. The page calls `new Date()` once per draft (script.js:447), so this assumes the clock does not advance while the drafts are built.

Facts about the code that the model keeps:
- `generateSlogans` always returns one or two slogans, because the fallback is pushed whenever fewer than two are present.
- Starting or pausing stamps `updatedAt` with the current time. Nothing guarantees that time is later than the old stamp.
- A library item takes only the product's own image or null (script.js:606-607). A draft falls back to the first image (script.js:196-197).
