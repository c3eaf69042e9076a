# potato: crawl frontier, crawl loop and signal extractors, in Dafny

The system crawls two potato-variety databases and joins what they say into
signals about each breed. This project models its core.

**The crawler.** These files are modelled:

- `crawler/crawler.py`: the crawl loop. It takes one URL at a time from a FIFO
  or LIFO queue, fetches it and hands the content to a page handler. The
  handler enqueues new links through a callback. That callback resolves each
  link against a base URL and drops any URL already seen.
- `crawler/error_handler.py`: the error policies (Throwing, Logging, Retrying).
- `crawler/file_state_manager.py` and `crawler/sqlite_state_manager.py`: the two
  resumable crawl frontiers.
- `pedigree/router.py` and `europotato/router.py`: the URL routers of the two
  site crawlers.
- `europotato/view.py`: the table and breed-information extraction of a
  variety page.

**The joiner.** These files are modelled:

- `joiner/parentage.py`: the parentage extractor. It rebuilds the family tree
  drawn in a Potato Pedigree image map from box coordinates. Then it files
  PARENT_OF and CHILD_OF signals.
- `joiner/introduction.py`: the year-of-introduction extractor.
- `joiner/name.py`: the two name extractors.

**How the model is shaped.** It follows the form of each source file:

- The two state managers are classes with the source's fields. The file logs
  are kept as their text. The database table is a map from URL to row.
- Loops become methods with loop invariants. Each method is proved equal to a
  specification function, and the lemmas state what the source promises about
  that function. Examples are the crawl loop, the reifying and merging loops
  of the parentage extractor, the extractor loops and the two view loops.
- Pure dispatch and policy code is functions and lemmas.

**Python behaviour spelled out.** These are written out in Dafny:

- `str.splitlines` with all its line boundaries (`Text.SplitLines`);
- `str.strip` with Python's whitespace set (`Text.Strip`);
- `str.replace(marker, '')` (`Text.RemoveAll`);
- dictionary assignment where the last write wins (`Dicts.FromPairs`);
- floor division `//`. With the divisor 2 it equals Dafny's `/`.

**Where the tests disagree with the code.** The model follows the code.

- `crawler/file_state_manager_test.py:76-84` expects a URL enqueued twice to
  be logged once. The code logs it twice (`file_state_manager.py:32-37` checks
  only the visited set), and so does the model.
- `crawler/file_state_manager_test.py:87-96` expects an empty queue log after
  this sequence: enqueue, pop, enqueue again, mark completed. The code rewrites
  the log with the queue, which holds the second copy, and so does the model.
- `crawler/file_state_manager_test.py:25-40` calls `is_finished`, which the
  file state manager inherits from an abstract method that raises.

## Model

| member | source | states |
|---|---|---|
| WorkQueue.Take | crawler/crawler.py:86 | `get` on a Queue removes the oldest entry and on a LifoQueue the newest. The rest keeps its order, and a queue without duplicates stays without them. |
| ErrorHandler.Handle | crawler/error_handler.py:20-48 | Handling runs one retry call for each Retrying layer. It then ends with the innermost policy's single effect: a raise for Throwing, a log for Logging. |
| ErrorHandler.ThrowingReraises | crawler/error_handler.py:20-26 | ThrowingHandler re-raises exactly the error it got and never retries. |
| ErrorHandler.LoggingReturns | crawler/error_handler.py:29-35 | LoggingHandler returns normally and never retries. |
| ErrorHandler.RetryingDelegates | crawler/error_handler.py:38-48 | RetryingHandler calls the callback first and retries once more than its inner handler. It raises exactly what the inner handler raises. |
| ErrorHandler.NestedRetrying | crawler/error_handler.py:38-48 | `n` Retrying layers retry `n` times and then act exactly like the policy they wrap. |
| ErrorHandler.RetriesEqualDepth | crawler/error_handler.py:38-48 | The number of retry calls equals the number of Retrying layers. |
| ErrorHandler.RaisesIffInnermostThrows | crawler/error_handler.py:20-48 | A policy raises if and only if its innermost policy is Throwing, and then it raises the error it was given. |
| Crawler.PutAll | crawler/crawler.py:51-58 | After a series of `put_fn` calls, the seen set is the old one plus every resolved link. The queue grows only at its end, and exactly by the resolved links that were not seen before. No duplicates appear. If nothing new was seen, the queue is unchanged. |
| Crawler.PutLinks | crawler/crawler.py:51-58 | The loop of `put_fn` calls gives exactly the queue and seen set of the specification `PutAll`. |
| Crawler.RetryIsNoOp | crawler/crawler.py:62-67 | The retry callback re-submits an already-seen URL with an empty base, so it never changes the queue or the seen set. |
| Crawler.OnErrorPreserves | crawler/crawler.py:91-92 | The error path keeps the crawl invariant and leaves queue, seen set and history unchanged. |
| Crawler.TakePreserves | crawler/crawler.py:85-86 | Taking the next URL keeps the invariant: the taken URLs stay distinct and the seen set is still the queue plus the taken URLs. |
| Crawler.HandlePreserves | crawler/crawler.py:88-90 | Handling fetched content keeps the invariant. Every link the handler asked for, once resolved, is seen. |
| Crawler.StepPreserves | crawler/crawler.py:85-94 | One iteration keeps the invariant and makes progress: the seen set grows inside the finite universe, or the queue shrinks. |
| Crawler.Run | crawler/crawler.py:85-94 | The iterated loop ends with the invariant. It ends with an empty queue unless the policy raised. |
| Crawler.Crawl | crawler/crawler.py:69-94 | `crawl(root)` makes exactly the handler calls of the specification `Run` from the root, and ends with exactly its exception. |
| Crawler.CrawlDispatchesOnce | crawler/crawler.py:75-94 | The root is dispatched first and no URL is dispatched twice. Each handler call gets its URL's fetched content. The crawl halts only under a policy whose innermost layer is Throwing. |
| Crawler.CrawlIsClosedUnderLinks | crawler/crawler.py:82-94 | A crawl the policy does not stop dispatches every URL it has seen, and every resolved link of every handled page. |
| CrawlerExamples.BreadthFirst | crawler/crawler_test.py:41-60 | With a Queue, the five-page site is handled root, a, b, c, d. |
| CrawlerExamples.DepthFirst | crawler/crawler_test.py:63-82 | With a LifoQueue, the same site is handled root, b, d, a, c. |
| Text.SplitLines | crawler/file_state_manager.py:19 | `splitlines` gives lines without boundaries, and an empty text gives no lines. |
| Text.SplitLinesOfLines | crawler/file_state_manager.py:59 | A queue written one boundary-free URL per line reads back as exactly that queue. |
| Text.SplitLinesAppend | crawler/file_state_manager.py:36 | Appending a boundary-free URL and a newline to a terminated log adds exactly that URL as a last line. |
| Text.LinesTerminated | crawler/file_state_manager.py:59 | A rewritten queue log is terminated. |
| FileStateManagerModel.Replay | crawler/file_state_manager.py:26-27 | Replaying the queue log's lines queues them all, in file order. |
| FileStateManagerModel.FileStateManager.constructor | crawler/file_state_manager.py:13-30 | The visited set is the lines of the visited log, and the queue is the lines of the queue log in order. A missing file counts as empty. The durability invariant holds. |
| FileStateManagerModel.FileStateManager.Enqueue | crawler/file_state_manager.py:32-37 | A visited URL changes nothing. Any other URL, even one already queued, is put on the queue and appended to the queue log. Durability is kept. |
| FileStateManagerModel.FileStateManager.PopNext | crawler/file_state_manager.py:39-43 | On an empty queue, an IndexError "Cannot pop from empty queue" and no change. Otherwise the oldest (Queue) or newest (LifoQueue) URL, with the logs untouched, so the URL stays in flight in the queue log. |
| FileStateManagerModel.FileStateManager.MarkCompleted | crawler/file_state_manager.py:45-61 | The URL is added to the visited set and the visited log, whether or not it was queued. The queue log is rewritten to the queue, reads back as exactly the queue, and nothing is in flight. |
| FileStateManagerModel.OpenedLogsAreDurable | crawler/file_state_manager.py:17-30 | Logs just read back, with nothing popped yet, hold exactly the visited set and the queue read from them. |
| FileStateManagerModel.LoggedVisit | crawler/file_state_manager.py:47-49 | Logging a visit keeps the visited log readable back as the visited set. |
| FileStateManagerModel.Resume | crawler/file_state_manager.py:13-30 | A manager opened on another's logs has its visited set. It queues that manager's queue together with the URLs popped but not completed. |
| SqliteStateManagerModel.NextIsUnique | crawler/sqlite_state_manager.py:54-66 | With distinct times, at most one URL heads the `ORDER BY enqueue_time` ordering of the eligible rows. |
| SqliteStateManagerModel.RetiredIsNeverNext | crawler/sqlite_state_manager.py:54-66 | A visited URL, or one with `max_failures_per_url` failures, is never returned. |
| SqliteStateManagerModel.FreshIsNextLifo | crawler/sqlite_state_manager.py:40-66 | Under LIFO, a URL just inserted is the next one popped, when failures are allowed at all. |
| SqliteStateManagerModel.FreshKeepsNextFifo | crawler/sqlite_state_manager.py:40-66 | Under FIFO, inserting a URL leaves the head of the queue where it was. |
| SqliteStateManagerModel.SqlStateManager.constructor | crawler/sqlite_state_manager.py:17-31 | The manager starts on the stored table, with the given sort order and failure limit. |
| SqliteStateManagerModel.SqlStateManager.Enqueue | crawler/sqlite_state_manager.py:40-46 | A new URL gets a fresh row (not visited, no failures, now). An existing row is left untouched, which is how IntegrityError is handled. The clock always advances. |
| SqliteStateManagerModel.SqlStateManager.PopNext | crawler/sqlite_state_manager.py:54-66 | Returns the eligible URL with the earliest (FIFO) or latest (LIFO) time. Otherwise an IndexError, exactly when no row is eligible. |
| SqliteStateManagerModel.SqlStateManager.IsFinished | crawler/sqlite_state_manager.py:33-38 | True exactly when no row is eligible. |
| SqliteStateManagerModel.SqlStateManager.MarkFailed | crawler/sqlite_state_manager.py:68-76 | One more failure and a new time for the URL's row. An absent URL changes nothing. |
| SqliteStateManagerModel.SqlStateManager.MarkCompleted | crawler/sqlite_state_manager.py:78-84 | The URL's row becomes visited and is retired for good. An absent URL changes nothing. |
| PedigreeRouter.PrefixesDisjoint | pedigree/router.py:17-20 | No URL starts with both the search prefix and the image-map prefix. |
| PedigreeRouter.Route | pedigree/router.py:16-23 | Search pages and image-map pages are routed each by its own prefix. Every other URL gets NotImplementedError "No handler for URL: " followed by the URL. |
| PedigreeRouter.CaseChangeIsRefused | pedigree/router.py:16-23 | Changing any one character of the image-map prefix, a change of case included and at any position, gets the URL refused. |
| PedigreeRouter.MissingIdIsRefused | pedigree/router_test.py:64-71 | Image-map URLs without `?id=`, and the bare site root, are refused. |
| EuropotatoRouter.PrefixesDisjoint | europotato/router.py:17-20 | No URL starts with both the index prefix and the view prefix. |
| EuropotatoRouter.Route | europotato/router.py:16-23 | Index pages and view pages are routed each by its own prefix. Every other URL gets NotImplementedError "No handler for URL: " followed by the URL. |
| EuropotatoRouter.IndexPagesAreRouted | europotato/router.py:17-18 | Any suffix of the index prefix goes to the index handler. |
| EuropotatoRouter.RefusedByMismatch | europotato/router.py:16-23 | A URL that differs from each prefix somewhere inside it is refused. |
| EuropotatoRouter.CapitalisedPathsAreRefused | europotato/router.py:17-20 | `View` and `Index` are refused: matching is case-sensitive. |
| EuropotatoRouter.ViewWithoutSlashIsRefused | europotato/router.py:20 | A view URL without its trailing slash is refused. |
| EuropotatoRouter.PlainHttpIsRefused | europotato/router_test.py:92-98 | `http://` URLs are refused. |
| EuropotatoRouter.OtherHostIsRefused | europotato/router_test.py:91-98 | URLs on `www.europotato.com` are refused. |
| Text.StripCutsOnlySpace | europotato/view.py:35 | `strip` removes only whitespace, only at the ends, and leaves no whitespace at either end. |
| Text.StripIsIdempotent | europotato/view.py:35 | Stripping twice is stripping once. |
| Text.StripOfSpace | europotato/view.py:35 | A text that is all whitespace strips to the empty text. |
| Text.RemoveAll | europotato/view.py:35 | Removing the marker never lengthens the header. |
| Text.RemoveAllAbsent | europotato/view.py:35 | A header without the marker is unchanged. |
| Text.RemoveAllTrailing | europotato/view.py:35 | A marker at the end of a header is removed, and what precedes it is kept. |
| EuropotatoView.Leading | europotato/view.py:49-60 | The values collected before the first label are the right cells of the unlabelled rows at the front, and nothing more. |
| EuropotatoView.GroupsKeys | europotato/view.py:53-57 | Group labels are exactly the texts of the labelled rows, never `None`. There are no groups exactly when no row is labelled. |
| EuropotatoView.GroupsSnocLabelled | europotato/view.py:54-58 | A labelled row opens a new group holding its right text. |
| EuropotatoView.GroupsSnocUnlabelled | europotato/view.py:59-60 | An unlabelled row joins the last group, and is dropped when there is none. |
| EuropotatoView.UnlabelledStep | europotato/view.py:59-60 | The loop's append keeps the loop state in step with the rows seen. |
| EuropotatoView.LabelledStep | europotato/view.py:54-58 | Storing the open group and opening a new one keeps the loop state in step with the rows seen. |
| EuropotatoView.FinalStore | europotato/view.py:61 | The final store turns the loop state into the table of the rows seen. |
| EuropotatoView.ExtractTable | europotato/view.py:45-62 | Header rows are skipped. On success, each group is stored under its label, or everything under `None` when no row has a label. A ValueError comes exactly when some data row does not have two cells, and it reports the first such row's cell count. |
| EuropotatoView.TableNeverEmpty | europotato/view.py:61 | The result always has at least one entry. |
| EuropotatoView.TableOfUnlabelled | europotato/view.py:48-61 | With no labelled row, the table is `{None: every right text}`. With a label there is no `None` key, so rows before the first label are dropped. |
| EuropotatoView.TableLabels | europotato/view.py:53-61 | The table's labels are exactly the texts of the labelled rows. |
| EuropotatoView.GroupsOfLastLabel | europotato/view.py:54-61 | Each label keeps the group of its last labelled row. |
| EuropotatoView.TableOfLastLabel | europotato/view.py:54-61 | A label maps to its last row's right text, followed by the unlabelled rows after it. An earlier group with that label is replaced, not merged. |
| EuropotatoView.StripAllAt | europotato/view.py:38 | Link texts are each stripped, in order, and none is dropped. |
| EuropotatoView.ValueOf | europotato/view.py:36-40 | A value is a list of link texts exactly when the span has more than one link. That list holds each link's stripped text, in order, none dropped. Otherwise the value is the span's stripped text. |
| EuropotatoView.InfoPairsSnoc | europotato/view.py:33-41 | One more `div` adds its assignment at the end. |
| EuropotatoView.ExtractBreedInfo | europotato/view.py:28-42 | No breed-info element gives `None`. A ValueError comes exactly when some `div` lacks two spans, and it reports the first one's span count. Otherwise each `div`'s value is filed under its header. |
| EuropotatoView.InfoPairsAt | europotato/view.py:33-41 | The loop makes exactly one assignment per `div`, in order. |
| EuropotatoView.BreedInfoOfLastDiv | europotato/view.py:33-41 | A header takes the value of its last `div`. |
| EuropotatoView.BreedInfoHeaders | europotato/view.py:33-41 | The headers are exactly those of the `div`s. |
| Dicts.FromPairs | joiner/introduction.py:30 | Dictionary assignments in order leave exactly the assigned keys. |
| Dicts.FromPairsLastWins | joiner/introduction.py:30 | Each key holds the value of its last assignment. |
| Dicts.FromPairsConcat | joiner/introduction.py:20-30 | A key assigned by later assignments takes its value from them. |
| Dicts.FromPairsSnoc | joiner/introduction.py:30 | One more assignment updates one key. |
| Dicts.FromPairsBefore | joiner/introduction.py:20-30 | A key the later assignments leave alone keeps its earlier value. |
| Introduction.EntryYearsMembers | joiner/introduction.py:23-30 | The inner loop assigns exactly the name and year of each entry that has both, with an int (or bool) year. |
| Introduction.AllYearsMembers | joiner/introduction.py:20-22 | Records without `parentage` assign nothing. The other records' assignments are all that is assigned. |
| Introduction.YearsOfQualifying | joiner/introduction.py:19-30 | The names given a year are exactly those of qualifying entries, and every year is an integer. |
| Introduction.LaterRecordWins | joiner/introduction.py:20-30 | A name the last record assigns takes that record's year, whatever came before. |
| Introduction.YearsAreInts | joiner/introduction.py:28-30 | Only integer years are stored. |
| Introduction.Signals | joiner/introduction.py:32-35 | Each name with a year, in the Pedigree namespace, and nothing else, is a key. It maps to the one YEAR_OF_INTRODUCTION signal holding that name's year. |
| Introduction.Extract | joiner/introduction.py:18-35 | The result has exactly the names of qualifying entries. Each has one YEAR_OF_INTRODUCTION signal holding the last qualifying year for that name. |
| NameExtractors.PedigreeNamesStep | joiner/name.py:15-19 | A record adds its name's entry, replacing any earlier one, or nothing when it has no name. |
| NameExtractors.PedigreeNamesOfNamedRecords | joiner/name.py:15-19 | Exactly the records with a `name` key name a breed in the Pedigree namespace. Each carries one PEDIGREE_NAME signal with its own name. |
| NameExtractors.PickLinks | joiner/name.py:36-45 | An item writes an entry under `n` exactly when its Europotato name is non-empty and the record under `filename.json` exists with the non-empty name `n`. |
| NameExtractors.EuropotatoNamesStep | joiner/name.py:34-48 | One more item of the name map writes its entry or changes nothing. |
| NameExtractors.EuropotatoNamesOfLinks | joiner/name.py:34-48 | The breeds given a Europotato name are exactly those some item links to. Empty names, missing files and unnamed records contribute nothing. |
| NameExtractors.EuropotatoNameOfLastLink | joiner/name.py:36-47 | A breed takes the Europotato name of the last item linking to it. |
| NameExtractors.ExtractEuropotatoNames | joiner/name.py:34-48 | The loop over the name map builds exactly the specification `EuropotatoNames`. |
| Parentage.Place | joiner/parentage.py:73-83 | The reified grid, when built, has column 0 exactly when a first row was recorded for it, and that row is one of its keys. |
| Parentage.PlaceRaises | joiner/parentage.py:75-83 | The reifying loop raises KeyError exactly when some entry lacks `coordinates`, or is a four-number rectangle without `name`. It raises on the first such entry. |
| Parentage.PlacePositions | joiner/parentage.py:77-83 | There is a box exactly where a four-number rectangle sits, in its column, at its top moved down by the row offset. |
| Parentage.PlaceLastWins | joiner/parentage.py:81-83 | A box holds the name of the last rectangle placed there. |
| Parentage.PlaceFirstAtZero | joiner/parentage.py:86-88 | The walk starts at the row of the first rectangle placed in column 0. |
| Parentage.PlaceKeepsError | joiner/parentage.py:75-76 | Once the loop has raised, later entries do not change the error. |
| Parentage.Reify | joiner/parentage.py:73-83 | The reifying loop builds exactly the specification `Place`. |
| Parentage.EdgesFollowLayout | joiner/parentage.py:38-55 | Every parent found sits one column offset further than its child, with the vertical distance halved once per level. It is in the grid under its own name, which is never "unknown". |
| Parentage.BranchesFollowLayout | joiner/parentage.py:41-55 | The same for the two candidate rows of one level. |
| Parentage.EdgesTerminate | joiner/parentage.py:38-55 | With a positive column offset, the walk never hits the recursion limit when the limit exceeds the number of columns to its right. |
| Parentage.BranchesTerminate | joiner/parentage.py:41-55 | The same for the loop over the candidate rows. |
| Parentage.RecordedContents | joiner/parentage.py:47-54 | Recording files exactly the PARENT_OF and CHILD_OF signals of the parents found, under exactly the names they mention, and keeps what was there. |
| Parentage.Deduped | joiner/parentage.py:104-105 | Dropping duplicates keeps the keys. |
| Parentage.DedupedHas | joiner/parentage.py:104-105 | Dropping duplicates keeps exactly the signals filed. |
| Parentage.RecordedPaired | joiner/parentage.py:47-54 | Each PARENT_OF filed under a parent has its CHILD_OF under the child, and the other way round. |
| Parentage.RecordedNoUnknown | joiner/parentage.py:45-46 | "unknown" is never named as a parent. |
| Parentage.ParentsPaired | joiner/parentage.py:58-92 | Within one record, signals pair up and "unknown" is never a parent. |
| Parentage.ParentsTerminate | joiner/parentage.py:86-91 | With the second box right of the first, a limit above the number of columns is never reached. |
| Parentage.Dfs | joiner/parentage.py:27-55 | `_dfs` appends exactly the signals of the walk found by the specification `Edges`, or raises its error. |
| Parentage.ExtractParents | joiner/parentage.py:58-92 | `_extract_parents` computes exactly the specification `Parents`. That is `{}` for records without two four-number first boxes, KeyError "0" when column 0 is empty, and otherwise the walk from the first box of column 0. |
| Parentage.Merge | joiner/parentage.py:99-102 | Merging keeps the keys of both sides. |
| Parentage.MergeHas | joiner/parentage.py:99-102 | A merged dictionary files what either side files. |
| Parentage.MergedOk | joiner/parentage.py:97-102 | Merging succeeds exactly when every record's extraction does. |
| Parentage.MergedKeys | joiner/parentage.py:97-102 | The merged keys are those of the records' extractions. |
| Parentage.MergedContents | joiner/parentage.py:97-102 | The merge files a signal under a breed exactly when some record's extraction does. |
| Parentage.MergedKeepsError | joiner/parentage.py:97-98 | Once a record's extraction has raised, later records do not change the error the whole extraction ends with. |
| Parentage.ExtractAllSkipped | joiner/parentage.py:60-69 | Records without a usable image map contribute nothing. No records at all give `{}`. |
| Parentage.ExtractAllPaired | joiner/parentage.py:95-106 | Over all records too, every PARENT_OF has its CHILD_OF and "unknown" is never a parent. |
| Parentage.MergeInto | joiner/parentage.py:99-102 | The merge loop for one record computes exactly `Merge`. |
| Parentage.Dedupe | joiner/parentage.py:104-105 | The de-duplicating loop computes exactly `Deduped`. |
| Parentage.Extract | joiner/parentage.py:95-106 | `extract` computes exactly the specification `ExtractAll`. |

## Left out

- Files, `flush`, `seek` and `truncate`, database connections and `commit`. The logs are modelled as their text and the table as a map. A crash between two writes is not modelled.
- FileStateManager `is_finished`: it is inherited from the abstract base (`crawler/state_manager.py:13-18`) and raises NotImplementedError. Nothing to model.
- Other queue types than `queue.Queue` and `queue.LifoQueue`, and thread safety of the queues.
- `time.sleep(crawl_delay)` and `retry_failures`, which `crawl` stores but never reads.
- `q.task_done()`, which only serves joining threads.
- `urllib.parse.urljoin` beyond an empty base. It is a parameter `resolve`, so link resolution is only modelled for the retry path.
- Crawler.Crawl: termination is proved only for finite sites (`Closed`). A finite site is a finite set of URLs such that every URL in it that fetches successfully is handled into links that resolve inside the set again. A site that keeps producing new URLs makes the source loop forever, and that case is not modelled.
- The fetcher and the page handlers are parameters. Their HTTP and HTML work (`crawler/http_fetcher.py`, `pedigree/imagemap.py`, `pedigree/search.py`, `europotato/index.py`) is not part of this model.
- SqlStateManager: `datetime.now()` is a logical clock that advances at every reading, so stored times are distinct. Ties between equal timestamps, and SQLite's type affinity for the `string` and `timestamp` columns, are not modelled.
- SqlStateManager: the database is given as its stored rows. Opening, creating the table and a path that cannot be opened are not modelled.
- `_extract_table` and `_extract_breed_info` work on rows and `div`s already parsed from HTML. A row is its header-cell flag and cell texts; a `div` is its spans, each with its text and link texts. BeautifulSoup parsing and `.text` concatenation are not modelled, and neither is the rest of the view handler (name, tab links, JSON output).
- The insertion order of the dictionaries returned by the view and the extractors is not modelled. Results are Dafny maps, and the last assignment to a key wins.
- Parentage: Python's recursion limit is a `fuel` parameter `limit`. Exceeding it is the error `RecursionError`.
- Parentage: coordinates and years are integers, and non-integer JSON numbers are not modelled. Booleans count as integers for the year check, as `isinstance` does.
- Names and values taken from the JSON records are strings. Other JSON types (numbers, lists as names) and unhashable keys are not modelled.
- `joiner/loader.py` and the `main.py` entry points are not part of this model.
- Text.RemoveAll: it models `str.replace(marker, '')` as one left-to-right scan over non-overlapping occurrences, which is what Python does. Its contract states only the length bound; the other facts are in the lemmas beside it.
