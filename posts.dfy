/**
 * The post sync engine, `dumpJournalPosts` (main.go:1096-1215): it pages
 * through `syncitems` from the journal's `lastSync` cursor, fetches every
 * `L` item with `getevents`, stores it as an entry file, and moves the
 * cursor to an item's time once that item is done.
 *
 * The server is a script: `pages` answers the `syncitems` calls in order
 * and `events` the `getevents` calls in order. A run that needs an answer
 * beyond its script is cut off there. A run that meets an item id shorter
 * than two characters panics (main.go:1179-1180) and, like a run that is
 * cut off, writes nothing more: both are said to halt.
 */
module PostSync {
  import opened Wrappers
  import opened Reports
  import opened Decimal
  import opened Archive
  import opened EventDump
  import opened JournalDb

  /** One element of the `syncitems` answer. */
  datatype SyncItem = SyncItem(item: string, action: string, time: string)

  type PageAnswer = Result<seq<SyncItem>, Report>
  type EventsAnswer = Result<seq<map<string, Value>>, Report>

  /** How an item id such as `L-123` is read. */
  datatype IdCheck = Valid(kind: char, itemId: int) | Invalid | Panics

  /**
   * The id check as written (main.go:1177-1186): an id shorter than three
   * characters or without `-` second is invalid, but the warning for it
   * reads the id's second character, which an id shorter than two does
   * not have: the process panics.
   */
  function CheckSyncItemIdAsWritten(item: string): (c: IdCheck)
    ensures c.Panics? <==> |item| < 2
    ensures c.Valid? ==> |item| >= 3 && item[1] == '-' && ParseInt(item[2..]) == Some(c.itemId) && c.kind == item[0]
  {
    if |item| < 3 || item[1] != '-' then
      if |item| < 2 then Panics else Invalid
    else
      match ParseInt(item[2..])
      case None => Invalid
      case Some(itemId) => Valid(item[0], itemId)
  }

  /** The id check with the warning made safe: every malformed id is skipped. */
  function CheckSyncItemId(item: string): (c: IdCheck)
    ensures !c.Panics?
    ensures c.Valid? <==> |item| >= 3 && item[1] == '-' && ParseInt(item[2..]).Some?
    ensures c.Valid? ==> c.kind == item[0] && c.itemId == ParseInt(item[2..]).value && IsInt64(c.itemId)
  {
    if |item| < 3 || item[1] != '-' then Invalid
    else
      match ParseInt(item[2..])
      case None => Invalid
      case Some(itemId) => Valid(item[0], itemId)
  }

  /** The two checks agree on every id of at least two characters. */
  lemma CheckSyncItemIdAgrees(item: string)
    ensures |item| >= 2 ==> CheckSyncItemIdAsWritten(item) == CheckSyncItemId(item)
    ensures |item| < 2 ==> CheckSyncItemIdAsWritten(item) == Panics && CheckSyncItemId(item) == Invalid
  {
  }

  /** The id `L` makes the check as written panic, where the corrected one skips it. */
  lemma ShortIdPanics()
    ensures CheckSyncItemIdAsWritten("L") == Panics
    ensures CheckSyncItemIdAsWritten("") == Panics
    ensures CheckSyncItemId("L") == Invalid
  {
  }

  /** What the engine changes: the cursor, the write flag, the entry counter and the files. */
  datatype PostState = PostState(lastSync: string, shouldWriteDB: bool, newEntries: int, files: map<string, FileContent>)

  /** Why a run stopped before an empty page. */
  datatype Stop = Fault(report: Report) | EventRejected(event: map<string, Value>) | CutOff | Panicked

  /** The state after some items, the `getevents` answers not yet used, and the stop, if any. */
  datatype PageResult = PageResult(state: PostState, events: seq<EventsAnswer>, stop: Option<Stop>)

  /** The path of the entry file of item `L-<itemId>`. */
  function EntryPath(dir: string, itemId: int): string {
    JoinPath(dir, EventFileName('L', itemId))
  }

  /**
   * One sync item, with the id check as written: an id shorter than two
   * characters panics, other malformed ids are skipped, `L` items are
   * fetched and written, and an item that is done moves the cursor to its
   * time.
   */
  ghost function ItemStep(st: PostState, it: SyncItem, events: seq<EventsAnswer>, dir: string,
                          failing: map<string, string>): (r: PageResult)
    ensures |r.events| <= |events|
  {
    match CheckSyncItemIdAsWritten(it.item)
    case Invalid => PageResult(st, events, None)
    case Panics => PageResult(st, events, Some(Panicked))
    case Valid(kind, itemId) =>
      var moved := st.(lastSync := it.time, shouldWriteDB := true);
      if kind != 'L' then PageResult(moved, events, None)
      else if events == [] then PageResult(st, events, Some(CutOff))
      else match events[0]
        case Err(report) => PageResult(st, events[1..], Some(Fault(report)))
        case Ok(got) =>
          if got == [] then PageResult(st, events[1..], Some(Fault(ReportMsg("Unexpected empty item " + it.item))))
          else if !AllKeysValid(got[0]) then PageResult(st, events[1..], Some(EventRejected(got[0])))
          else
            var path := EntryPath(dir, itemId);
            if path in failing then PageResult(st, events[1..], Some(Fault(WrapErr(failing[path], ""))))
            else PageResult(moved.(newEntries := st.newEntries + 1, files := st.files[path := EventXml(EventDocument(got[0]))]),
                            events[1..], None)
  }

  /**
   * The cursor rules of one item: a stop leaves everything as it was, an
   * id shorter than two characters panics, a longer malformed id is
   * skipped, and an item that is done moves the cursor to its time and
   * sets the write flag, after writing the entry of an `L` item.
   */
  lemma ItemStepCursor(st: PostState, it: SyncItem, events: seq<EventsAnswer>, dir: string, failing: map<string, string>)
    ensures var r := ItemStep(st, it, events, dir, failing);
      r.stop.Some? ==> r.state == st
    ensures var r := ItemStep(st, it, events, dir, failing);
      CheckSyncItemIdAsWritten(it.item).Panics? ==> r == PageResult(st, events, Some(Panicked))
    ensures var r := ItemStep(st, it, events, dir, failing);
      CheckSyncItemIdAsWritten(it.item).Invalid? ==> r == PageResult(st, events, None)
    ensures var r := ItemStep(st, it, events, dir, failing);
      r.stop.None? && CheckSyncItemIdAsWritten(it.item).Valid? ==>
        r.state.lastSync == it.time && r.state.shouldWriteDB
    ensures var r := ItemStep(st, it, events, dir, failing);
      r.stop.None? && CheckSyncItemIdAsWritten(it.item).Valid? && CheckSyncItemIdAsWritten(it.item).kind != 'L' ==>
        r == PageResult(st.(lastSync := it.time, shouldWriteDB := true), events, None)
    ensures var r := ItemStep(st, it, events, dir, failing);
      r.stop.None? && CheckSyncItemIdAsWritten(it.item).Valid? && CheckSyncItemIdAsWritten(it.item).kind == 'L' ==>
        |events| > 0 && events[0].Ok? && |events[0].value| > 0 && AllKeysValid(events[0].value[0])
        && r.state == st.(lastSync := it.time, shouldWriteDB := true, newEntries := st.newEntries + 1,
                          files := st.files[EntryPath(dir, CheckSyncItemIdAsWritten(it.item).itemId) := EventXml(EventDocument(events[0].value[0]))])
        && r.events == events[1..]
  {
  }

  /** The items of one page in order, up to the first stop. */
  ghost function PageRun(st: PostState, items: seq<SyncItem>, events: seq<EventsAnswer>, dir: string,
                         failing: map<string, string>): (r: PageResult)
    ensures |r.events| <= |events|
    decreases |items|
  {
    if items == [] then PageResult(st, events, None)
    else
      var step := ItemStep(st, items[0], events, dir, failing);
      if step.stop.Some? then step else PageRun(step.state, items[1..], step.events, dir, failing)
  }

  /**
   * The whole loop: pages until an empty one (`stop` is `None`), an error,
   * or the end of the script.
   */
  ghost function PostsRun(st: PostState, pages: seq<PageAnswer>, events: seq<EventsAnswer>, dir: string,
                          failing: map<string, string>): PageResult
    decreases |pages|, 1
  {
    if pages == [] then PageResult(st, events, Some(CutOff))
    else match pages[0]
      case Err(report) => PageResult(st, events, Some(Fault(report)))
      case Ok(items) =>
        if items == [] then PageResult(st, events, None)
        else ContinueAfter(PageRun(st, items, events, dir, failing), pages[1..], dir, failing)
  }

  /** The loop after a page: stop if the page stopped, else go on with the next `syncitems` call. */
  ghost function ContinueAfter(page: PageResult, pages: seq<PageAnswer>, dir: string, failing: map<string, string>): PageResult
    decreases |pages|, 2
  {
    if page.stop.Some? then page else PostsRun(page.state, pages, page.events, dir, failing)
  }

  /** `t` is the time of a well-formed item of the page. */
  ghost predicate TimeOfValidItem(t: string, items: seq<SyncItem>) {
    exists i :: 0 <= i < |items| && CheckSyncItemIdAsWritten(items[i].item).Valid? && items[i].time == t
  }

  /** `t` is the time of a well-formed item of one of the pages. */
  ghost predicate TimeOfPageItem(t: string, pages: seq<PageAnswer>) {
    exists p :: 0 <= p < |pages| && pages[p].Ok? && TimeOfValidItem(t, pages[p].value)
  }

  /** From `before` to `after` only entry files of the journal directory were added or replaced. */
  ghost predicate OnlyEntriesWritten(before: map<string, FileContent>, after: map<string, FileContent>, dir: string) {
    && before.Keys <= after.Keys
    && forall path :: path in after && (path !in before || after[path] != before[path]) ==>
         exists itemId :: path == EntryPath(dir, itemId)
  }

  /**
   * What a run may do to the state: the cursor stays, or it moves to the
   * time of a well-formed item `moved` names, with the write flag set;
   * the entry counter does not go down; only entry files are written.
   */
  ghost predicate Advances(st: PostState, st': PostState, dir: string, moved: string -> bool) {
    && st'.newEntries >= st.newEntries
    && ((st'.lastSync == st.lastSync && st'.shouldWriteDB == st.shouldWriteDB)
        || (st'.shouldWriteDB && moved(st'.lastSync)))
    && OnlyEntriesWritten(st.files, st'.files, dir)
  }

  /** One item that does not stop keeps the cursor or moves it to its own time, and writes at most its entry file. */
  lemma ItemStepAdvances(st: PostState, it: SyncItem, events: seq<EventsAnswer>, dir: string, failing: map<string, string>)
    ensures var r := ItemStep(st, it, events, dir, failing);
      r.stop.None? ==>
        && r.state.newEntries >= st.newEntries
        && ((r.state.lastSync == st.lastSync && r.state.shouldWriteDB == st.shouldWriteDB)
            || (r.state.shouldWriteDB && CheckSyncItemIdAsWritten(it.item).Valid? && r.state.lastSync == it.time))
        && OnlyEntriesWritten(st.files, r.state.files, dir)
  {
    var r := ItemStep(st, it, events, dir, failing);
    var check := CheckSyncItemIdAsWritten(it.item);
    if r.stop.None? && check.Valid? && check.kind == 'L' {
      assert r.state.files == st.files[EntryPath(dir, check.itemId) := EventXml(EventDocument(events[0].value[0]))];
    }
  }

  /** The cursor rules over a page: the cursor moves only to the time of a well-formed item of the page. */
  lemma {:induction false} PageRunCursor(st: PostState, items: seq<SyncItem>, events: seq<EventsAnswer>, dir: string,
                                         failing: map<string, string>)
    ensures Advances(st, PageRun(st, items, events, dir, failing).state, dir, t => TimeOfValidItem(t, items))
    decreases |items|
  {
    var r := PageRun(st, items, events, dir, failing);
    if items == [] {
      assert r.state == st;
    } else {
      var step := ItemStep(st, items[0], events, dir, failing);
      if step.stop.Some? {
        ItemStepCursor(st, items[0], events, dir, failing);
        assert r.state == st;
      } else {
        ItemStepAdvances(st, items[0], events, dir, failing);
        assert r == PageRun(step.state, items[1..], step.events, dir, failing);
        PageRunCursor(step.state, items[1..], step.events, dir, failing);
        var st' := r.state;
        if CheckSyncItemIdAsWritten(items[0].item).Valid? {
          assert TimeOfValidItem(items[0].time, items);
        }
        if st'.shouldWriteDB && TimeOfValidItem(st'.lastSync, items[1..]) {
          var i :| 0 <= i < |items[1..]| && CheckSyncItemIdAsWritten(items[1..][i].item).Valid? && items[1..][i].time == st'.lastSync;
          assert items[i + 1] == items[1..][i];
        }
        OnlyEntriesWrittenTransitive(st.files, step.state.files, st'.files, dir);
      }
    }
  }

  /**
   * A page of malformed ids of at least two characters changes nothing,
   * so the next `syncitems` call asks from the same cursor.
   */
  lemma {:induction false} MalformedPageChangesNothing(st: PostState, items: seq<SyncItem>, events: seq<EventsAnswer>,
                                                       dir: string, failing: map<string, string>)
    requires forall i :: 0 <= i < |items| ==> CheckSyncItemIdAsWritten(items[i].item).Invalid?
    ensures PageRun(st, items, events, dir, failing) == PageResult(st, events, None)
    decreases |items|
  {
    if items != [] {
      assert CheckSyncItemIdAsWritten(items[0].item).Invalid?;
      assert forall i :: 0 <= i < |items[1..]| ==> items[1..][i] == items[i + 1];
      MalformedPageChangesNothing(st, items[1..], events, dir, failing);
    }
  }

  /**
   * A page whose first id shorter than two characters comes after only
   * skipped ids panics there, before anything was changed: the cursor is
   * not saved, so the next run asks for the same page again.
   */
  lemma {:induction false} ShortIdHaltsPage(st: PostState, items: seq<SyncItem>, k: nat, events: seq<EventsAnswer>,
                                            dir: string, failing: map<string, string>)
    requires k < |items| && |items[k].item| < 2
    requires forall i :: 0 <= i < k ==> CheckSyncItemIdAsWritten(items[i].item).Invalid?
    ensures PageRun(st, items, events, dir, failing) == PageResult(st, events, Some(Panicked))
    decreases k
  {
    if k == 0 {
      CheckSyncItemIdAgrees(items[0].item);
    } else {
      assert CheckSyncItemIdAsWritten(items[0].item).Invalid?;
      assert forall i :: 0 <= i < |items[1..]| ==> items[1..][i] == items[i + 1];
      ShortIdHaltsPage(st, items[1..], k - 1, events, dir, failing);
    }
  }

  /**
   * The cursor rules over the whole loop: the cursor moves only to the
   * time of a well-formed item of some page, with the write flag set.
   */
  lemma {:induction false} PostsRunCursor(st: PostState, pages: seq<PageAnswer>, events: seq<EventsAnswer>, dir: string,
                                          failing: map<string, string>)
    ensures Advances(st, PostsRun(st, pages, events, dir, failing).state, dir, t => TimeOfPageItem(t, pages))
    decreases |pages|
  {
    if pages != [] && pages[0].Ok? && pages[0].value != [] {
      var items := pages[0].value;
      var page := PageRun(st, items, events, dir, failing);
      PageRunCursor(st, items, events, dir, failing);
      if TimeOfValidItem(page.state.lastSync, items) {
        assert TimeOfPageItem(page.state.lastSync, pages);
      }
      if page.stop.None? {
        var st' := PostsRun(page.state, pages[1..], page.events, dir, failing).state;
        PostsRunCursor(page.state, pages[1..], page.events, dir, failing);
        if st'.shouldWriteDB && TimeOfPageItem(st'.lastSync, pages[1..]) {
          var p :| 0 <= p < |pages[1..]| && pages[1..][p].Ok? && TimeOfValidItem(st'.lastSync, pages[1..][p].value);
          assert pages[p + 1] == pages[1..][p];
        }
        OnlyEntriesWrittenTransitive(st.files, page.state.files, st'.files, dir);
      }
    }
  }

  lemma OnlyEntriesWrittenTransitive(a: map<string, FileContent>, b: map<string, FileContent>, c: map<string, FileContent>,
                                     dir: string)
    requires OnlyEntriesWritten(a, b, dir) && OnlyEntriesWritten(b, c, dir)
    ensures OnlyEntriesWritten(a, c, dir)
  {
    forall path | path in c && (path !in a || c[path] != a[path])
      ensures exists itemId :: path == EntryPath(dir, itemId)
    {
      if path in b && c[path] == b[path] {
        assert path !in a || b[path] != a[path];
      }
    }
  }

  /** The loop ends without a report only at an empty page. */
  lemma {:induction false} PostsRunEndsAtEmptyPage(st: PostState, pages: seq<PageAnswer>, events: seq<EventsAnswer>,
                                                   dir: string, failing: map<string, string>)
    ensures PostsRun(st, pages, events, dir, failing).stop.None? ==>
      exists p :: 0 <= p < |pages| && pages[p] == Ok([])
    decreases |pages|
  {
    if pages != [] && pages[0].Ok? && pages[0].value != [] {
      var page := PageRun(st, pages[0].value, events, dir, failing);
      if page.stop.None? {
        assert PostsRun(st, pages, events, dir, failing) == PostsRun(page.state, pages[1..], page.events, dir, failing);
        PostsRunEndsAtEmptyPage(page.state, pages[1..], page.events, dir, failing);
        if PostsRun(page.state, pages[1..], page.events, dir, failing).stop.None? {
          var p :| 0 <= p < |pages[1..]| && pages[1..][p] == Ok([]);
          assert pages[p + 1] == pages[1..][p];
        }
      } else {
        assert PostsRun(st, pages, events, dir, failing) == page;
      }
    }
  }

  /** The engine's view of a journal context and the disk. */
  function Snapshot(jcx: JournalContext, disk: Disk): PostState
    reads jcx, disk
  {
    PostState(jcx.db.lastSync, jcx.shouldWriteDB, jcx.newEntries, disk.files)
  }

  /** The report `serializeMap` gives for an event with an invalid top-level key. */
  ghost predicate RejectsEvent(event: map<string, Value>, r: Report) {
    exists k :: k in event && !IsValidXmlTagName(k) && r == ReportMsg("cannot serialize map key '" + k + "' as XML name")
  }

  /**
   * The report of a run that stopped, or none; `halted` says the script
   * ran out or the process panicked.
   */
  ghost predicate ReportsStop(stop: Option<Stop>, r: Option<Report>, halted: bool) {
    match stop
    case None => r.None? && !halted
    case Some(CutOff) => r.None? && halted
    case Some(Panicked) => r.None? && halted
    case Some(Fault(report)) => r == Some(report) && !halted
    case Some(EventRejected(event)) => r.Some? && RejectsEvent(event, r.value) && !halted
  }

  /** A stop is reported exactly when the run stopped, and it halts exactly when it was cut off or panicked. */
  lemma ReportsStopStops(stop: Option<Stop>, r: Option<Report>, halted: bool)
    requires ReportsStop(stop, r, halted)
    ensures stop.None? <==> r.None? && !halted
    ensures halted <==> stop == Some(CutOff) || stop == Some(Panicked)
  {
  }

  /** One sync item of a page, from the `getevents` answer at index `e` on. */
  method SyncOneItem(jcx: JournalContext, disk: Disk, item: SyncItem, events: seq<EventsAnswer>, e: nat)
    returns (r: Option<Report>, halted: bool, e': nat)
    requires e <= |events|
    modifies jcx, disk
    ensures disk.failing == old(disk.failing) && disk.unreadable == old(disk.unreadable)
    ensures jcx.db.userMap == old(jcx.db.userMap) && jcx.db.commentMap == old(jcx.db.commentMap) && jcx.made == old(jcx.made)
    ensures jcx.origDbLastSync == old(jcx.origDbLastSync) && jcx.newComments == old(jcx.newComments)
    ensures var step := ItemStep(old(Snapshot(jcx, disk)), item, events[e..], jcx.dir, old(disk.failing));
      && e <= e' <= |events| && events[e'..] == step.events
      && Snapshot(jcx, disk) == step.state && ReportsStop(step.stop, r, halted)
  {
    var check := CheckSyncItemIdAsWritten(item.item);
    if check.Panics? {
      return None, true, e;
    }
    if check.Invalid? {
      return None, false, e;
    }
    if check.kind == 'L' {
      r, halted, e' := SyncEntry(jcx, disk, item, check.itemId, events, e);
    } else {
      jcx.db := jcx.db.(lastSync := item.time);
      jcx.shouldWriteDB := true;
      r, halted, e' := None, false, e;
    }
  }

  /** An `L` item with a well-formed id: fetch it, write its entry file, and move the cursor. */
  method SyncEntry(jcx: JournalContext, disk: Disk, item: SyncItem, itemId: int, events: seq<EventsAnswer>, e: nat)
    returns (r: Option<Report>, halted: bool, e': nat)
    requires e <= |events| && CheckSyncItemIdAsWritten(item.item) == Valid('L', itemId)
    modifies jcx, disk
    ensures disk.failing == old(disk.failing) && disk.unreadable == old(disk.unreadable)
    ensures jcx.db.userMap == old(jcx.db.userMap) && jcx.db.commentMap == old(jcx.db.commentMap) && jcx.made == old(jcx.made)
    ensures jcx.origDbLastSync == old(jcx.origDbLastSync) && jcx.newComments == old(jcx.newComments)
    ensures var step := ItemStep(old(Snapshot(jcx, disk)), item, events[e..], jcx.dir, old(disk.failing));
      && e <= e' <= |events| && events[e'..] == step.events
      && Snapshot(jcx, disk) == step.state && ReportsStop(step.stop, r, halted)
  {
    if e == |events| {
      return None, true, e;
    }
    assert events[e..][0] == events[e] && events[e..][1..] == events[e + 1..];
    var answer := events[e];
    e' := e + 1;
    if answer.Err? {
      return Some(answer.error), false, e';
    }
    if |answer.value| == 0 {
      return Some(ReportMsg("Unexpected empty item " + item.item)), false, e';
    }
    r := StoreEntry(jcx, disk, item, itemId, answer.value[0]);
    halted := false;
  }

  /** The fetched event of an `L` item: its entry file is written, then the cursor moves and the entry is counted. */
  method StoreEntry(jcx: JournalContext, disk: Disk, item: SyncItem, itemId: int, event: map<string, Value>)
    returns (r: Option<Report>)
    modifies jcx, disk
    ensures disk.failing == old(disk.failing) && disk.unreadable == old(disk.unreadable)
    ensures jcx.db.userMap == old(jcx.db.userMap) && jcx.db.commentMap == old(jcx.db.commentMap) && jcx.made == old(jcx.made)
    ensures jcx.origDbLastSync == old(jcx.origDbLastSync) && jcx.newComments == old(jcx.newComments)
    ensures !AllKeysValid(event) ==> r.Some? && RejectsEvent(event, r.value) && Snapshot(jcx, disk) == old(Snapshot(jcx, disk))
    ensures AllKeysValid(event) && EntryPath(jcx.dir, itemId) in disk.failing ==>
      r == Some(WrapErr(disk.failing[EntryPath(jcx.dir, itemId)], "")) && Snapshot(jcx, disk) == old(Snapshot(jcx, disk))
    ensures AllKeysValid(event) && EntryPath(jcx.dir, itemId) !in disk.failing ==>
      && r.None?
      && Snapshot(jcx, disk)
         == old(Snapshot(jcx, disk)).(lastSync := item.time, shouldWriteDB := true, newEntries := old(jcx.newEntries) + 1,
                                      files := old(disk.files)[EntryPath(jcx.dir, itemId) := EventXml(EventDocument(event))])
  {
    r := WriteLJEventDump(disk, jcx.dir, 'L', itemId, event);
    if r.Some? {
      return;
    }
    jcx.newEntries := jcx.newEntries + 1;
    jcx.db := jcx.db.(lastSync := item.time);
    jcx.shouldWriteDB := true;
  }

  /** The items of one page, in order, up to the first stop. */
  method SyncPage(jcx: JournalContext, disk: Disk, items: seq<SyncItem>, events: seq<EventsAnswer>, e: nat)
    returns (r: Option<Report>, halted: bool, e': nat)
    requires e <= |events|
    modifies jcx, disk
    ensures disk.failing == old(disk.failing) && disk.unreadable == old(disk.unreadable)
    ensures jcx.db.userMap == old(jcx.db.userMap) && jcx.db.commentMap == old(jcx.db.commentMap) && jcx.made == old(jcx.made)
    ensures jcx.origDbLastSync == old(jcx.origDbLastSync) && jcx.newComments == old(jcx.newComments)
    ensures var page := PageRun(old(Snapshot(jcx, disk)), items, events[e..], jcx.dir, old(disk.failing));
      && e <= e' <= |events| && events[e'..] == page.events
      && Snapshot(jcx, disk) == page.state && ReportsStop(page.stop, r, halted)
  {
    ghost var whole := PageRun(Snapshot(jcx, disk), items, events[e..], jcx.dir, disk.failing);
    e' := e;
    var i := 0;
    while i < |items|
      invariant 0 <= i <= |items| && e <= e' <= |events|
      invariant disk.failing == old(disk.failing) && disk.unreadable == old(disk.unreadable)
      invariant jcx.db.userMap == old(jcx.db.userMap) && jcx.db.commentMap == old(jcx.db.commentMap) && jcx.made == old(jcx.made)
      invariant jcx.origDbLastSync == old(jcx.origDbLastSync) && jcx.newComments == old(jcx.newComments)
      invariant whole == PageRun(Snapshot(jcx, disk), items[i..], events[e'..], jcx.dir, disk.failing)
    {
      assert items[i..][0] == items[i] && items[i..][1..] == items[i + 1..];
      ghost var before := Snapshot(jcx, disk);
      ghost var e0 := e';
      r, halted, e' := SyncOneItem(jcx, disk, items[i], events, e');
      ReportsStopStops(ItemStep(before, items[i], events[e0..], jcx.dir, disk.failing).stop, r, halted);
      if r.Some? || halted {
        return;
      }
      i := i + 1;
    }
    assert items[|items|..] == [];
    r, halted := None, false;
  }

  /**
   * `dumpJournalPosts`, after the log line. `clientErr` is the outcome of
   * creating the XML-RPC client.
   */
  method DumpJournalPosts(jcx: JournalContext, disk: Disk, clientErr: Option<string>,
                          pages: seq<PageAnswer>, events: seq<EventsAnswer>)
    returns (r: Option<Report>, halted: bool)
    modifies jcx, disk
    ensures disk.failing == old(disk.failing) && disk.unreadable == old(disk.unreadable)
    ensures jcx.db.userMap == old(jcx.db.userMap) && jcx.db.commentMap == old(jcx.db.commentMap) && jcx.made == old(jcx.made)
    ensures jcx.origDbLastSync == old(jcx.origDbLastSync) && jcx.newComments == old(jcx.newComments)
    ensures clientErr.Some? ==>
      r == Some(WrapErr(clientErr.value, "")) && !halted && Snapshot(jcx, disk) == old(Snapshot(jcx, disk))
    ensures clientErr.None? ==>
      var run := PostsRun(old(Snapshot(jcx, disk)), pages, events, jcx.dir, old(disk.failing));
      Snapshot(jcx, disk) == run.state && ReportsStop(run.stop, r, halted)
  {
    if clientErr.Some? {
      return Some(WrapErr(clientErr.value, "")), false;
    }
    ghost var whole := PostsRun(Snapshot(jcx, disk), pages, events, jcx.dir, disk.failing);
    var p, e := 0, 0;
    while p < |pages|
      invariant 0 <= p <= |pages| && 0 <= e <= |events|
      invariant disk.failing == old(disk.failing) && disk.unreadable == old(disk.unreadable)
      invariant jcx.db.userMap == old(jcx.db.userMap) && jcx.db.commentMap == old(jcx.db.commentMap) && jcx.made == old(jcx.made)
      invariant jcx.origDbLastSync == old(jcx.origDbLastSync) && jcx.newComments == old(jcx.newComments)
      invariant whole == PostsRun(Snapshot(jcx, disk), pages[p..], events[e..], jcx.dir, disk.failing)
    {
      assert pages[p..][0] == pages[p] && pages[p..][1..] == pages[p + 1..];
      var page := pages[p];
      if page.Err? {
        return Some(page.error), false;
      }
      var items := page.value;
      if |items| == 0 {
        return None, false;
      }
      ghost var before := Snapshot(jcx, disk);
      ghost var e0 := e;
      r, halted, e := SyncPage(jcx, disk, items, events, e);
      ReportsStopStops(PageRun(before, items, events[e0..], jcx.dir, disk.failing).stop, r, halted);
      if r.Some? || halted {
        return;
      }
      p := p + 1;
    }
    return None, true;
  }
}
