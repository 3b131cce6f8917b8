# ljdump-go, the sync core, in Dafny

A model of the bookkeeping core of `ljdump-go`, an archiver that copies a
LiveJournal account and its journals (entries, comments, user pictures) into
a local directory and, on later runs, fetches only what changed since the
last run. Everything it models lives in `main.go`:

- the error reports the program accumulates and prints (`fuseErr`,
  `Report`, `CombineReports`, `AsText`);
- the flat protocol: pairing the response lines into a name/value map, the
  `success == "OK"` check and reading indexed arrays (`getLJFlatArray`);
- the entry serialiser `writeLJEventDump`: the tag-name check, the
  three-character escaper, sorted map keys, one repeated tag per array
  element, `<tag/>` for nil;
- the two state files: the journal DB (`lastSync`, the `users` and
  `commentMeta` tables) and the account data file (picture counter and
  maps), as the rows `writeJournalDB`, `writeAccountData` and
  `addSortedMapKeyValue` emit in ascending key order, and the decoder loops
  that read them back;
- the request throttle of `ljSession.RoundTrip`;
- the picture engine of `dumpAccountData`;
- the post sync of `dumpJournalPosts`, which walks `syncitems` pages and
  moves the `lastSync` cursor;
- the comment sync of `dumpJournalComments`: the starting frontier, the meta
  pass, the body pass with its per-post merge, and the union into the
  journal DB;
- `readJournalDB` and `dumpJournal`, which tie one journal's run together.

The modules follow the program's structure. `Reports`, `Decimal` (`%d` and
`strconv.ParseInt`), `Ordering` (the sorts) and `StoreFormat` (tables of
rows) are the shared pieces. `Archive` holds the archive directory: a `Disk`
class whose `files` map the methods update. `FlatProtocol`, `EventDump`,
`JournalDb`, `AccountDb`, `Pictures`, `Throttle`, `PostSync`,
`CommentMerge`, `CommentSync` and `Journal` follow the program's functions.

Objects the program updates in place are classes with `modifies` frames:
`journalContext` is `JournalDb.JournalContext`, `accountData` is
`AccountDb.AccountData`, the output buffer of the serialiser is
`EventDump.EventWriter`, the HTTP session's timestamp is `Throttle.Session`
and the directory is `Archive.Disk`. Each loop of the program is a method
with a `while` or `for` loop. Its contract ties the result and the new
state to a ghost function of the old state (`PostsRun`, `MetaRun`,
`BodyRun`, `PictureRun`, `ApplyRows`, ...). The lemmas prove the program's
promises about those functions: the cursor rules, the frontiers, merge
idempotence, counter growth, sorted output and round trips.

The server is not called. Each remote exchange is a parameter:
- the outcome of a flat call, of a `login` call or of creating the XML-RPC
  client;
- the sequence of `syncitems` pages and `getevents` answers a run receives,
  in order;
- the sequences of meta and body chunks of `export_comments.bml`;
- the picture download, `mime.ExtensionsByType` and the keyword-to-file-name
  regexp, as functions in `Pictures.PictureServices`;
- the clock readings of the throttle;
- the outcome of `os.MkdirAll` and of the legacy Python import.

When a loop needs one answer more than its sequence holds, the run is cut
off at that request (`CutOff`). A run can also panic: on a sync item id
shorter than two characters, or when collected comment meta data meet a
map of the journal DB that was never made. Both halt the run: it reports
nothing and writes nothing more, not even the journal DB.

## Model

| member | source | states |
|---|---|---|
| Reports.FuseErr | main.go:47-55 | nil exactly when both errors are nil; otherwise the text starts with the first error and ends with the second |
| Reports.LeafText | main.go:104-107 | one failure cause renders as a line starting with `ERROR: ` and ending in a newline |
| Reports.AsText | main.go:96-108 | every report's text starts with `ERROR: ` and ends with a newline |
| Reports.CombineReports | main.go:82-94 | the combination is nil exactly when both are nil, and its text is the first report's text followed by the second's |
| Reports.Leaves | main.go:96-103 | a report has at least one failure cause, and each is a leaf |
| Reports.ConcatTextsAppend | main.go:99-101 | concatenating the texts of two lists of causes is the concatenation of their texts |
| Reports.AsTextIsLeafTexts | main.go:96-108 | a combined report prints exactly its failure causes, left to right |
| Reports.CombineReportsAssociative | main.go:82-94 | as far as the printed text goes, combining is associative |
| Decimal.FormatNat | main.go:753-757 | `%d` of a natural number is a non-empty run of digits without a leading zero |
| Decimal.FormatInt | main.go:781 | `%d` of an integer has a leading `-` exactly when it is negative, otherwise only digits |
| Decimal.ParseInt | main.go:401 | `strconv.ParseInt(s, 10, 64)` succeeds exactly on an optional sign followed by digits whose value fits in 64 bits, and then gives the value of the sign and digits, leading zeros allowed |
| Decimal.DigitsValueOfFormat | main.go:753-757 | the digits `%d` prints have the number's value |
| Decimal.ParseFormatInt | main.go:1183 | parsing what `%d` printed gives back the same 64-bit number |
| Decimal.FormatIntInjective | main.go:781 | different numbers print differently |
| Decimal.ParseUserId | main.go:397-406 | the empty string is user id 0; any other string is a user id exactly when it parses as a 64-bit integer, and then it is that integer's value; otherwise the error is `failed to parse user id string as int64 - ` followed by the quoted `strconv.NumError` text |
| Decimal.ParseUserIdRoundTrip | main.go:397-406 | a printed user id parses back to the same id |
| Decimal.QuotePlain | main.go:401-404 | printable ASCII text without `"` and `\\` is quoted as it is, between double quotes |
| Decimal.QuoteEscapesQuotes | main.go:401-404 | every double quote inside a quoted text is preceded by a backslash |
| Ordering.StrLessIsStrictTotalOrder | main.go:415 | Go's `<` on strings, the order `sort.Strings` uses, is a strict total order |
| Ordering.IntLessIsStrictTotalOrder | main.go:394 | `sortIds.Less` is a strict total order |
| Ordering.SortedOf | main.go:408-415 | the keys of a map, sorted: strictly ascending, exactly the keys, one each |
| Ordering.SortedUnique | main.go:728-729 | two strictly sorted sequences with the same elements are equal, so the sorted keys do not depend on map iteration order |
| Ordering.SortSet | main.go:490-494 | collecting the keys and sorting them gives the strictly ascending sequence of exactly those keys |
| FlatProtocol.ScanResponse | main.go:846-863 | the scanning loop yields the map and first line of the line-pairing function |
| FlatProtocol.EncodePairs | main.go:846-863 | a response body has two lines per name/value pair |
| FlatProtocol.PairLinesOfEncoding | main.go:846-863 | pairing the lines of an encoded response gives back the map of its pairs, later pairs overriding earlier ones, and its first name |
| FlatProtocol.EmptyLineEndsResponse | main.go:851-855 | an empty line where a name is expected ends the response; nothing after it is read |
| FlatProtocol.CheckStatus | main.go:869-884 | the response is accepted exactly when `success` is `OK`; otherwise the report quotes `errmsg`, or the first line when `errmsg` is empty |
| FlatProtocol.CallFlatInterface | main.go:839-885 | a transport error or body read error is wrapped; otherwise the result is the status check of the paired lines |
| FlatProtocol.ElementsFrom | main.go:914-922 | reading the element keys after `i` succeeds exactly when every one of them is present; the elements then come in key order, and otherwise the report names the first absent key |
| FlatProtocol.FlatArrayResult | main.go:901-924 | the outcome of `getLJFlatArray` as a value, so callers can name its report; a successful read is the array the response holds under the name |
| FlatProtocol.GetFlatArray | main.go:901-924 | the result is FlatArrayResult, which a successful read holds under the name; each error case gives its own report: missing or empty count, non-integer count, negative count, first absent element key. Success happens exactly when the count parses, is non-negative and every element key is present, and then the result is the array held under the name |
| FlatProtocol.ArrayEntries | main.go:916 | an encoded array has every element key `name_1..name_n` |
| FlatProtocol.ElemKeyInjective | main.go:916 | different indices give different element keys |
| FlatProtocol.ArrayEntriesAt | main.go:916-921 | the element key `name_(i+1)` holds the i-th element |
| FlatProtocol.CountKeyIsNoElemKey | main.go:902-916 | the `_count` key is never an element key |
| FlatProtocol.EncodeArrayHoldsArray | main.go:901-924 | `getLJFlatArray` reads back exactly the array a server encoded |
| EventDump.EscapeAppend | main.go:699-715 | escaping is character by character: it distributes over concatenation |
| EventDump.UnescapeOne | main.go:702-713 | unescaping reads one escaped character back |
| EventDump.EscapeRoundTrip | main.go:699-715 | unescaping the escaped text gives the original text |
| EventDump.EscapeHasNoMarkup | main.go:699-715 | escaped text contains no raw `<` or `>` |
| EventDump.EscapePlain | main.go:709-711 | text without `<`, `>` and `&` is written unchanged |
| EventDump.SortedKeys | main.go:718-729 | the keys of a map in ascending order, exactly the map's keys |
| EventDump.TagTextOfMap | main.go:761-771 | a map value opens its tag and a newline. Its entries follow, and the tag is closed only when all its keys are valid tag names |
| EventDump.EventWriter.constructor | main.go:677 | the buffer starts with the XML header |
| EventDump.EventWriter.AddEscapedValue | main.go:699-715 | the buffer grows by exactly the escaped text |
| EventDump.EventWriter.SerializeTagValue | main.go:743-773 | the buffer grows by the value's tag text. An error is returned exactly when the value is a map with an invalid key, an array or an unsupported type; errors from deeper inside a map are not returned |
| EventDump.EventWriter.SerializeArray | main.go:732-735 | an array entry writes the tag once per element, in order |
| EventDump.EventWriter.SerializeMap | main.go:717-741 | the map is written as its entries in ascending key order. An error is returned exactly when some key is not a valid tag name, and then it names such a key |
| EventDump.EventWriter.SerializeEntries | main.go:729-739 | the entries of a map with valid keys, in ascending key order |
| EventDump.EventWriter.SerializeEntry | main.go:731-738 | one entry, with the errors of nested values dropped |
| EventDump.FindInvalidKey | main.go:718-724 | the key check finds an invalid key exactly when one exists, and the key it returns is in the map and invalid |
| EventDump.WriteLJEventDump | main.go:675-786 | an event with an invalid top-level key writes nothing and reports that key. Otherwise the file `<type>-<id>` gets the serialised event, or the failed write is wrapped and the file is unchanged |
| EventDump.MapTextIndependentOfEnumeration | main.go:728-729 | whatever order the keys are enumerated in, once sorted they produce the same text |
| EventDump.NestedInvalidKeyLeavesOpenTag | main.go:734-737 | an invalid key inside a nested map is not an error: the nested tag is left open |
| EventDump.StringElementReadsBack | main.go:758-760 | a string element reads back as the original string |
| EventDump.IntElementReadsBack | main.go:752-757 | an integer element reads back through `strconv.ParseInt` as the same integer |
| StoreFormat.ApplyRowsSnoc | main.go:468-475 | reading one more row applies it on top of what the earlier rows built |
| StoreFormat.LaterRowWins | main.go:468-475 | a later row for a key overwrites the earlier one and leaves the other keys alone |
| StoreFormat.FoldRows | main.go:468-475 | the decoder loop builds the map the rows denote |
| StoreFormat.ApplyRowsFor | main.go:417-419 | reading back the rows written for some keys adds exactly those entries |
| StoreFormat.SortedRowsReadBack | main.go:408-421 | reading back a sorted table gives the map it was written from |
| StoreFormat.SortedRowsAscending | main.go:408-421 | a table has one row per entry, in strictly ascending key order |
| StoreFormat.IntKeyedRowsAscending | main.go:490-513 | an integer-keyed table is written in strictly ascending id order |
| StoreFormat.IntKeyedRowsReadBack | main.go:490-513 | an integer-keyed table reads back as its map |
| StoreFormat.EmitSortedRows | main.go:490-499 | the loop over the sorted keys emits the sorted table of the map |
| StoreFormat.EmitRows | main.go:496-498 | one row per key, in the order of the keys |
| StoreFormat.ReadStringRow | main.go:471 | a string row read back is the row of its key and value |
| StoreFormat.StringRowInverse | main.go:418-471 | the string-row reader reads back every row the writer emits |
| StoreFormat.AddSortedMapKeyValue | main.go:408-421 | a string map becomes the table of its name with one row per entry, in ascending key order |
| StoreFormat.StringTableReadBack | main.go:408-421 | a string table reads back as the map it was made from |
| Archive.Disk.constructor | main.go:110-119 | an archive directory with the given files and the given failing and unreadable paths |
| Archive.Disk.WriteFileTempRename | main.go:110-119 | the write is atomic: either the whole new content is stored, or the write fails with its error and the file is unchanged |
| JournalDb.ReadUserRow | main.go:561 | a `users` row read back is the row of its id and name |
| JournalDb.ReadMetaRow | main.go:563-566 | a `commentMeta` row read back is the row of its id, poster and state |
| JournalDb.UserRowInverse | main.go:497-561 | every `users` row written reads back |
| JournalDb.MetaRowInverse | main.go:511-566 | every `commentMeta` row written reads back |
| JournalDb.EncodeJournalDB | main.go:484-513 | the journal DB is three items: `lastSync`, `users`, `commentMeta` |
| JournalDb.JournalDbRoundTrip | main.go:484-571 | reading back what `writeJournalDB` wrote gives the same journal DB |
| JournalDb.UsersTableAscending | main.go:490-499 | the `users` table has one row per user, in strictly ascending id order |
| JournalDb.CommentMetaTableAscending | main.go:503-513 | the `commentMeta` table has one row per comment, in strictly ascending id order |
| JournalDb.DecodeJournalItems | main.go:550-570 | the decoder loop applies the items in order: unknown items are ignored and later rows win |
| JournalDb.JournalContext.constructor | main.go:359-368 | a new context has the journal's name, the directory `<dumpDir>/<name>`, an empty DB whose two maps are not made (nil), and zero counters |
| JournalDb.WriteJournalDB | main.go:484-520 | the journal DB file gets the encoded DB, or the failed write is reported with its path and the file is unchanged |
| JournalDb.ReadOutcome | main.go:522-574 | an unreadable file reports and changes nothing. Success leaves a non-empty DB file. The files change only when the legacy import succeeds, and then they hold the imported DB. Decoding a DB file makes both maps; the legacy branch makes only the maps whose legacy files were read |
| JournalDb.ReadOutcomeResumesSavedDb | main.go:545-571 | reading back a DB file that `writeJournalDB` wrote resumes from the saved DB, with both maps made |
| JournalDb.ReadJournalDB | main.go:522-574 | the DB, the made maps, the files and the report are those of the read's outcome; `origDbLastSync` is the cursor read exactly when no error is reported; the counters and the write flag are unchanged |
| AccountDb.EncodeAccountData | main.go:423-432 | the account data file is four items: the counter, the default URL and the two string tables |
| AccountDb.UrlFileTableReadBack | main.go:470-471 | the URL-to-file table reads back into its field |
| AccountDb.KeywordTableReadBack | main.go:472-473 | the keyword-to-URL table reads back into its field |
| AccountDb.AccountDataRoundTrip | main.go:423-482 | reading back what `writeAccountData` wrote gives the same record |
| AccountDb.DecodeAccountItems | main.go:457-477 | the decoder loop applies the items in order, ignoring unknown ones |
| AccountDb.AccountData.constructor | main.go:441-446 | a record with the given contents |
| AccountDb.WriteAccountData | main.go:423-439 | the account data file gets the encoded record, or the failed write is reported with its path and the file is unchanged |
| AccountDb.ReadAccountData | main.go:441-482 | a read error gives no record; a missing file gives the zero record; a decoder error gives no record and a report naming the file; otherwise the decoded record |
| Pictures.PictureStep | main.go:1008-1076 | an empty or known URL, or an empty keyword, is skipped and a failed download changes nothing. Otherwise the counter rises by one, even when the write then fails. A stored picture maps its URL to `user-picture-<n>[-kw]<ext>` and sets the default URL or the keyword's URL |
| Pictures.PictureCalls | main.go:1078-1085 | the default picture first, then one call per keyword and URL, in order |
| Pictures.PictureRunCounterGrows | main.go:1053 | the file counter never goes down |
| Pictures.NothingStoredNothingChanged | main.go:1011-1021 | a run that stores no picture and reports nothing leaves the record and the files unchanged |
| Pictures.StepSettles | main.go:1008-1076 | a step keeps every settled call settled, and settles its own unless its write failed |
| Pictures.RunSettlesAll | main.go:1078-1085 | after a run without error every call of the run is settled |
| Pictures.SettledRunIsQuiet | main.go:1011-1013 | settled calls download nothing, store nothing and change nothing |
| Pictures.PictureRunIdempotent | main.go:1008-1091 | running the engine again on what a successful run left stores nothing and writes nothing |
| Pictures.PictureFileNameInjective | main.go:1054-1057 | different counters give different picture file names, whatever the keywords |
| Pictures.FetchAndStorePictureUrl | main.go:1008-1076 | the record changes as one step says; a stored picture is written under its name; a failed write is reported and writes nothing |
| Pictures.StorePictures | main.go:1078-1085 | the loop over the calls gives the record, files, update flag and report of the run, stopping at the first report |
| Pictures.FinishRun | main.go:1087-1093 | the account data file is written only after a run that stored a picture without error, and its failed write is reported |
| Pictures.DumpAccountData | main.go:976-1093 | a mkdir error, a `login` error, an unreadable array or arrays of different lengths each report and change nothing. An unreadable array gives `getLJFlatArray`'s own report, and `pickw` is checked before `pickwurl`. Otherwise the record is the picture run's, and the data file is written only when a picture was stored |
| Pictures.HoldsArrayUnique | main.go:901-924 | a response holds at most one array under a name |
| Pictures.NoArrayWhenFlatArrayFails | main.go:992-999 | when `getLJFlatArray` fails the response holds no array under that name |
| Throttle.Delay | main.go:946-953 | no sleep on the first request or once 250 ms have passed; otherwise the sleep fills the 250 ms |
| Throttle.SendTime | main.go:946-954 | a request leaves no earlier than it is made, and at least 250 ms after the remembered time |
| Throttle.Session.constructor | main.go:948 | a new session remembers no request |
| Throttle.Session.RoundTrip | main.go:945-954 | the request leaves after the sleep, and the session remembers the time before the sleep |
| Throttle.Session.RoundTripCorrected | main.go:945-954 | the request leaves after the sleep, and the session remembers when it left |
| Throttle.SendsAsWritten | main.go:945-954 | one send time per request |
| Throttle.SendsCorrected | main.go:945-954 | one send time per request |
| Throttle.AsWrittenSpacesFromCalls | main.go:947-954 | as written, each request leaves 250 ms after the previous request was made, not after it left |
| Throttle.CorrectedIsWellSpaced | main.go:945-954 | with the corrected timestamp, consecutive requests leave at least 250 ms apart |
| Throttle.CorrectedWaitsNoLonger | main.go:945-954 | the corrected throttle sends at once or exactly 250 ms after the previous send |
| Throttle.AsWrittenSpacingCounterexample | main.go:947-954 | requests made at 0, 100 and 260 ms leave at 0, 250 and 350 ms: the last two only 100 ms apart |
| PostSync.CheckSyncItemIdAsWritten | main.go:1177-1187 | ids shorter than two characters panic in the warning; a valid id has the form `X-<digits>` with its letter and number |
| PostSync.CheckSyncItemId | main.go:1177-1187 | never panics; an id is valid exactly when it has at least three characters, a `-` second and a 64-bit number after it |
| PostSync.CheckSyncItemIdAgrees | main.go:1177-1187 | both checks agree on every id of two or more characters |
| PostSync.ShortIdPanics | main.go:1179-1180 | the id `L` panics as written and is skipped by the corrected check |
| PostSync.ItemStep | main.go:1177-1211 | one item consumes at most one `getevents` answer |
| PostSync.ItemStepCursor | main.go:1177-1211 | a stop leaves everything as it was. An id shorter than two characters panics; a longer malformed id is skipped. A finished item moves the cursor to its time and sets the write flag; an `L` item also writes its entry file and counts it |
| PostSync.ItemStepAdvances | main.go:1177-1211 | an item that does not stop keeps the cursor or moves it to its own time with the flag set, does not lower the entry count, and writes only its entry file |
| PostSync.PageRun | main.go:1177-1211 | a page consumes at most its share of `getevents` answers |
| PostSync.PageRunCursor | main.go:1177-1211 | over a page the cursor stays or moves to the time of a well-formed item of the page with the flag set. The entry count does not go down and only entry files are written |
| PostSync.MalformedPageChangesNothing | main.go:1179-1187 | a page of malformed ids of at least two characters changes nothing, so the next request asks from the same cursor |
| PostSync.ShortIdHaltsPage | main.go:1179-1180 | a page whose first id shorter than two characters follows only skipped ids panics there with nothing changed |
| PostSync.PostsRunCursor | main.go:1158-1213 | over the whole loop the cursor moves only to the time of a well-formed item, with the write flag set, and only entry files are written |
| PostSync.OnlyEntriesWrittenTransitive | main.go:1158-1213 | writing only entry files composes over consecutive steps |
| PostSync.PostsRunEndsAtEmptyPage | main.go:1167-1169 | the loop ends without a report only at an empty page |
| PostSync.ReportsStopStops | main.go:1164-1205 | a report or a halt is given exactly when the run stopped early, and a halt exactly when it was cut off or panicked |
| PostSync.SyncOneItem | main.go:1177-1211 | one item changes the context and files as the item step says, halting on an id that panics; the comment maps are untouched |
| PostSync.SyncEntry | main.go:1188-1210 | an `L` item consumes one `getevents` answer, or halts when none is left; an error or an empty answer is reported with nothing changed |
| PostSync.StoreEntry | main.go:1204-1210 | an event with an invalid key is rejected and a failed write reported, each with nothing changed; otherwise the entry file holds the event, the entry is counted and the cursor moves to the item's time |
| PostSync.SyncPage | main.go:1177-1211 | a page changes the context and files as the page run says |
| PostSync.DumpJournalPosts | main.go:1137-1214 | a client error is wrapped and changes nothing. Otherwise the cursor, flag, entry count and files are those of the post run; a report is given exactly when the run stopped, and it halts exactly when the script ran out or an id panicked |
| CommentMerge.Merge | main.go:1389-1408 | the merged list keeps its length or grows by one, and holds the record |
| CommentMerge.MergeAppends | main.go:1406-1408 | a record with a new id is appended at the end, and the file is written |
| CommentMerge.MergeReplaces | main.go:1391-1404 | an identical stored record means no change and no write. A differing one is replaced at its index, the others unchanged, and the file is written |
| CommentMerge.MergeOnePerId | main.go:1389-1408 | after the merge exactly one comment has the record's id, if at most one had it before |
| CommentMerge.MergeIdempotent | main.go:1389-1409 | merging the same record again changes nothing and writes nothing |
| CommentMerge.MergeComment | main.go:1389-1408 | the loop over the stored comments and the append compute the merge |
| CommentSync.MaxOrMinusOne | main.go:1281-1286 | the largest id, or -1: at least -1, at least every id, and an id unless -1 |
| CommentSync.MaxStoredId | main.go:1281-1286 | the starting frontier is the largest stored id, or -1 |
| CommentSync.MaxStoredUnique | main.go:1281-1286 | the frontier is determined by the stored ids |
| CommentSync.MaxStoredCommentId | main.go:1281-1286 | the loop over the stored ids computes that frontier |
| CommentSync.ApplyMetaComments | main.go:1324-1330 | a chunk's comments are recorded under their ids. The frontier does not go down and ends at or above every id of the chunk |
| CommentSync.ApplyUserMaps | main.go:1331-1333 | a chunk's user maps are recorded under their ids |
| CommentSync.MetaRun | main.go:1317-1338 | the meta pass makes at most one request per answer, and exactly one per answer when cut off |
| CommentSync.CollectMetaComments | main.go:1324-1330 | the loop over a chunk's comments |
| CommentSync.CollectUserMaps | main.go:1331-1333 | the loop over a chunk's user maps |
| CommentSync.MetaPass | main.go:1317-1338 | the meta loop from the stored frontier computes the meta pass |
| CommentSync.MetaRunFrontier | main.go:1292-1338 | each request asks from the current frontier plus one: the first from the stored frontier plus one, and the start ids never go down. The frontier does not go down, and the pass finishes only once the frontier reaches a chunk's `maxid` |
| CommentSync.BuildRecord | main.go:1348-1370 | the record copies the comment. A missing state comes from the new meta data, then the stored. A non-zero poster gets their name from the new user maps, then the stored, else none |
| CommentSync.StoreStep | main.go:1346-1423 | `maxFetchedId` becomes the larger of itself and the comment's id; the files change only when the comment was stored |
| CommentSync.StoreStepIdempotent | main.go:1346-1423 | storing the same comment again on the files it left changes nothing and writes nothing |
| CommentSync.BodyRun | main.go:1340-1427 | the body pass makes at most one request per answer |
| CommentSync.AfterChunk | main.go:1424-1426 | after a chunk the pass makes at most one request per remaining answer |
| CommentSync.ChunkRunRaisesFrontier | main.go:1371-1373 | `maxFetchedId` never goes down over a chunk |
| CommentSync.StartsFromStep | main.go:1292-1297 | a request from the frontier followed by requests from a higher frontier is a nondecreasing run of start ids |
| CommentSync.BodyRunFrontier | main.go:1340-1427 | each request asks from `maxFetchedId` plus one: the first from the stored frontier plus one, and the start ids never go down. The pass finishes only once `maxFetchedId` reaches the meta frontier |
| CommentSync.AfterChunkFrontier | main.go:1424-1427 | the same rules for the rest of the loop after a chunk |
| CommentSync.StoreComment | main.go:1346-1423 | one comment changes the counter, files and frontier as its store step says; the journal DB is untouched |
| CommentSync.SaveComment | main.go:1389-1422 | the merged comments are written only when they changed, and then counted; a failed write is reported |
| CommentSync.StoreChunk | main.go:1347-1423 | a chunk's comments are stored in order, up to the first report |
| CommentSync.BodyPass | main.go:1340-1427 | the body loop computes the body pass: counter, files, report, cut-off and start ids |
| CommentSync.SetAll | main.go:1431-1436 | every collected entry is set in the map, overriding the stored one |
| CommentSync.AddCollected | main.go:1429-1438 | the step panics exactly when a comment is due for an unmade comment map or a user for an unmade user map; otherwise it is the corrected step |
| CommentSync.AddCollectedCorrected | main.go:1429-1438 | collected meta data are merged into the DB, overriding stored entries and keeping the others, and the write flag is set; without any, nothing changes; the cursor never changes |
| CommentSync.AddCollectedWithMapsMade | main.go:545-547 | once both maps are made, as after decoding a DB file, the step never panics |
| CommentSync.UnmadeCommentMapPanics | main.go:359-368 | one collected comment for a journal whose maps were never made panics, where the corrected step merges it |
| CommentSync.DumpJournalComments | main.go:1278-1439 | a meta pass that does not finish reports or halts and changes nothing. After it the body pass runs from the stored frontier to the meta frontier. The DB takes the collected meta data only when both passes finish, and the run halts when that step panics |
| CommentSync.AddCollectedMeta | main.go:1429-1438 | the context takes the union of the collected meta data, or panics with the DB unchanged exactly when the step as written does |
| Journal.SyncJournal | main.go:1451-1457 | the context and the files end as the sync run says: posts, then comments only after posts neither reported nor halted, then the DB write whenever the write flag is set and nothing halted; the report is the step's report combined with the write's |
| Journal.SyncPosts | main.go:1451 | the posts step: the context and files of the post run, and the report it gave |
| Journal.SyncComments | main.go:1452-1454 | the comments step: meta pass, body pass and collected meta data, as the comment run says |
| Journal.SaveJournalDb | main.go:1455-1457 | the DB is written when the flag is set and nothing halted, and a failed write is combined into the report |
| Journal.SyncRunCleanIffEveryStepSucceeded | main.go:1451-1457 | a sync ends without report and without halting exactly when the client was made, the posts reached an empty page, both comment passes finished and a due DB write succeeded |
| Journal.SyncRunSavesState | main.go:1455-1457 | after a sync that did not halt and wrote the DB, the next read gives back the final DB with both maps made |
| Journal.EntryPathIsNotJournalDb | main.go:781 | an entry file is never the journal DB file |
| Journal.PanickedPostsKeepJournalDb | main.go:1179-1180 | a post run that panics halts the sync with the journal DB file as it was, so the advanced cursor is lost |
| Journal.DumpJournal | main.go:1442-1466 | the context and the files end as the whole dump says: a read error or mkdir error is reported with nothing more done; otherwise the sync runs from the state the read left; `origDbLastSync` is the cursor read exactly when the read reports nothing |

## Left out

- I/O is not performed. HTTP, XML-RPC, `export_comments.bml` and the picture download are sequences or functions of answers given as parameters. A remote loop that needs one answer more than given is cut off: it reports nothing and writes nothing more, including the journal DB.
- `encoding/xml` decoding of comment chunks and comment files is not modelled. A chunk is a datatype and a comment file a sequence of records; a stored file of another kind is a parse error.
- The byte format of the `linedb` package is not part of this model. Files hold the item/row sequences the encoder is given; a decoder error is a parameter of the file content.
- The legacy Python import (`readPythonLastRunFile`, `readPythonCommentMeta`, `readPythonUserMap`) is not modelled. Its outcome is a parameter of `JournalDb.ReadJournalDB`: the cursor, each map or its absence (an absent file leaves the map nil), and the error.
- Config, command-line flags, login and the MD5 challenge, `mainImpl` and journal iteration are not modelled, because they are setup and network exchange.
- Logging is not modelled. That covers the final log line of `dumpJournal` and the warning lines; only the warning that can panic, main.go:1180, is modelled, as `PostSync.CheckSyncItemIdAsWritten`.
- Go map iteration order is not modelled. Where the program's output depends on it, the report of `serializeMap` names "some invalid key"; elsewhere the program sorts.
- Strings are sequences of characters, not bytes. Byte-level escaping and `%c` of a byte are modelled on characters.
- `int` and `int64` overflow of `fileCounter`, `newEntries` and `newComments` is not modelled; the counters are unbounded.
- The texts of the `os` errors and of `xml.Unmarshal` errors are given as strings. The `strconv` error texts are built by `Decimal.NumError`; the program's own wrapping texts are modelled.
- Decimal.NumError: quotes its input as `strconv.Quote` does for ASCII; non-ASCII characters are kept as they are, where Go escapes non-printable ones and invalid UTF-8 as `\u`, `\U` or `\x` sequences.
- JournalDb.ReadJournalDB: directories are not modelled. A missing journal directory is only a failing write path. In the program `readJournalDB` writes the imported DB (main.go:542) before `dumpJournal` creates the directory (main.go:1447), so a journal whose directory does not exist fails there on every run; the model shows this only when the caller lists that path as failing.
- Archive.JoinPath: joins with `/` and does not clean the result as `filepath.Join` does; with the dump directory `.` Go gives `name/journal.linedb` where the model has `./name/journal.linedb`.
- A loop that does not advance repeats its request for ever in the program: a `syncitems` page of malformed ids only, a meta chunk whose frontier never reaches its `maxid`, a body chunk that never reaches the meta frontier. The model follows such a loop until its script runs out, and the run is cut off.
- `time.Sleep` and the clock are not modelled: clock readings are parameters and the sleep is the computed delay.
- `readJournalDB` does not check the decoder's error after its loop. It is modelled as written: the items decoded are applied and the error is ignored.
- `Pictures.DumpAccountData` reports mismatched array lengths with the text Go's `fmt` produces for its malformed format string (a boolean under `%s` and a missing argument), as written.

## Findings

| source | as written | input that shows it | evidently intended | confidence | as-written member | corrected member |
|---|---|---|---|---|---|---|
| main.go:947-954 | the session remembers the time a request was made, before its sleep | requests made at 0, 100 and 260 ms leave at 0, 250 and 350 ms | consecutive requests leave at least 250 ms apart | not executed | Throttle.Session.RoundTrip, Throttle.AsWrittenSpacingCounterexample | Throttle.Session.RoundTripCorrected, Throttle.CorrectedIsWellSpaced |
| main.go:1179-1180 | the warning for a malformed id indexes `item.Item[1]` | a sync item with id `L` (or the empty id) panics before the journal DB is written, and every later run asks for the same page again | a malformed id is logged and skipped | not executed | PostSync.CheckSyncItemIdAsWritten, PostSync.ShortIdPanics, PostSync.ShortIdHaltsPage, Journal.PanickedPostsKeepJournalDb | PostSync.CheckSyncItemId, PostSync.CheckSyncItemIdAgrees |
| main.go:359-368, 1429-1436 | `newJournalContext` leaves both maps of the journal DB nil, and only decoding a DB file or reading a legacy file makes them | a journal imported without `comment.meta` whose first comment sync collects a comment panics on `jcx.db.commentMap[commentId] = ...` | the collected meta data are merged into the DB | not executed | CommentSync.AddCollected, CommentSync.UnmadeCommentMapPanics | CommentSync.AddCollectedCorrected, CommentSync.AddCollectedWithMapsMade |
