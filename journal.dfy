/**
 * One journal's dump, `dumpJournal` (main.go:1442-1466): read the journal
 * DB, make the journal's directory, sync the posts, sync the comments if
 * the posts finished without a report, and write the journal DB back
 * whenever one of the steps asked for it, even after a report. A step
 * that halts (its script ran out, or the process panicked) ends the dump
 * with nothing more written.
 */
module Journal {
  import opened Wrappers
  import opened Reports
  import opened Archive
  import opened StoreFormat
  import opened JournalDb
  import opened PostSync
  import opened CommentSync

  /** Everything a journal's dump changes. */
  datatype JournalState = JournalState(db: JournalDB, made: MapsMade, shouldWriteDB: bool, newEntries: int,
                                       newComments: int, files: map<string, FileContent>)

  /** Where a step leaves the dump: the state, the report so far, and whether the process halted. */
  datatype Outcome = Outcome(state: JournalState, report: Option<Report>, halted: bool)

  function State(jcx: JournalContext, disk: Disk): JournalState
    reads jcx, disk
  {
    JournalState(jcx.db, jcx.made, jcx.shouldWriteDB, jcx.newEntries, jcx.newComments, disk.files)
  }

  /** The post run `dumpJournalPosts` makes once its client exists. */
  ghost function PostsOf(st: JournalState, pages: seq<PageAnswer>, events: seq<EventsAnswer>, dir: string,
                         failing: map<string, string>): PageResult
  {
    PostsRun(PostState(st.db.lastSync, st.shouldWriteDB, st.newEntries, st.files), pages, events, dir, failing)
  }

  /**
   * `postsReport` is a report `dumpJournalPosts` can give: which invalid
   * key a rejected event names depends on Go's map iteration order.
   */
  ghost predicate PostsReported(st: JournalState, clientErr: Option<string>, pages: seq<PageAnswer>,
                                events: seq<EventsAnswer>, dir: string, failing: map<string, string>,
                                postsReport: Option<Report>)
  {
    clientErr.None? ==>
      var run := PostsOf(st, pages, events, dir, failing);
      ReportsStop(run.stop, postsReport, run.stop == Some(Stop.CutOff) || run.stop == Some(Panicked))
  }

  /** The posts step: the client's error, or the post run with the report it gave. */
  ghost function PostsStep(st: JournalState, clientErr: Option<string>, pages: seq<PageAnswer>,
                           events: seq<EventsAnswer>, postsReport: Option<Report>, dir: string,
                           failing: map<string, string>): Outcome
  {
    if clientErr.Some? then Outcome(st, Some(WrapErr(clientErr.value, "")), false)
    else
      var run := PostsOf(st, pages, events, dir, failing);
      Outcome(st.(db := st.db.(lastSync := run.state.lastSync), shouldWriteDB := run.state.shouldWriteDB,
                  newEntries := run.state.newEntries, files := run.state.files),
              postsReport, run.stop == Some(Stop.CutOff) || run.stop == Some(Panicked))
  }

  /**
   * The comments step: the meta pass, the body pass, then the collected
   * meta data into the journal DB.
   */
  ghost function CommentsStep(st: JournalState, metaAnswers: seq<Fetch<MetaChunk>>,
                              bodyAnswers: seq<Fetch<seq<BodyComment>>>, dir: string, failing: map<string, string>,
                              unreadable: map<string, string>): Outcome
  {
    var maxStored := MaxStoredId(st.db.commentMap);
    var meta := MetaRun(MetaAcc(map[], map[], maxStored), [], metaAnswers);
    if !meta.end.Finished? then
      Outcome(st, if meta.end.Failed? then Some(meta.end.report) else None, meta.end.CutOff?)
    else
      var k := Known(meta.acc.comments, meta.acc.users, st.db.commentMap, st.db.userMap);
      var body := BodyRun(BodyState(maxStored, st.newComments, st.files), [], meta.acc.maxId, bodyAnswers, k,
                          dir, failing, unreadable);
      var st' := st.(newComments := body.state.newComments, files := body.state.files);
      if !body.end.Finished? then
        Outcome(st', if body.end.Failed? then Some(body.end.report) else None, body.end.CutOff?)
      else
        var added := AddCollected(st.db, st.shouldWriteDB, st.made, meta.acc);
        if added.None? then Outcome(st', None, true)
        else Outcome(st'.(db := added.value.0, shouldWriteDB := added.value.1), None, false)
  }

  /** The closing write of the journal DB, when a step asked for it and nothing halted. */
  ghost function WriteStep(o: Outcome, path: string, failing: map<string, string>): Outcome {
    if o.halted || !o.state.shouldWriteDB then o
    else if path in failing then
      o.(report := CombineReports(o.report, Some(WrapErr(failing[path], "failed to write journal db file " + path))))
    else o.(state := o.state.(files := o.state.files[path := LineDb(EncodeJournalDB(o.state.db), None)]))
  }

  /** The comments run only after posts that neither halted nor reported. */
  ghost function AfterPosts(posts: Outcome, metaAnswers: seq<Fetch<MetaChunk>>,
                            bodyAnswers: seq<Fetch<seq<BodyComment>>>, dir: string, failing: map<string, string>,
                            unreadable: map<string, string>): Outcome
  {
    if posts.halted || posts.report.Some? then posts
    else CommentsStep(posts.state, metaAnswers, bodyAnswers, dir, failing, unreadable)
  }

  /** The dump after the directory exists: posts, comments, and the journal DB write. */
  ghost function SyncRun(st: JournalState, clientErr: Option<string>, pages: seq<PageAnswer>, events: seq<EventsAnswer>,
                         postsReport: Option<Report>, metaAnswers: seq<Fetch<MetaChunk>>,
                         bodyAnswers: seq<Fetch<seq<BodyComment>>>, dir: string, path: string,
                         failing: map<string, string>, unreadable: map<string, string>): Outcome
  {
    var posts := PostsStep(st, clientErr, pages, events, postsReport, dir, failing);
    WriteStep(AfterPosts(posts, metaAnswers, bodyAnswers, dir, failing, unreadable), path, failing)
  }

  /** The state after `readJournalDB`. */
  ghost function AfterRead(st: JournalState, read: ReadState): JournalState {
    st.(db := read.db, made := read.made, files := read.files)
  }

  /** The whole dump: read the journal DB, make the directory, then sync. */
  ghost function DumpRun(st: JournalState, legacy: LegacyImport, mkdirErr: Option<string>, clientErr: Option<string>,
                         pages: seq<PageAnswer>, events: seq<EventsAnswer>, postsReport: Option<Report>,
                         metaAnswers: seq<Fetch<MetaChunk>>, bodyAnswers: seq<Fetch<seq<BodyComment>>>,
                         name: string, dir: string, path: string, failing: map<string, string>,
                         unreadable: map<string, string>): Outcome
  {
    var read := ReadOutcome(st.db, st.made, st.files, unreadable, failing, path, name, legacy);
    if read.report.Some? then Outcome(AfterRead(st, read), read.report, false)
    else if mkdirErr.Some? then
      Outcome(AfterRead(st, read), Some(WrapErr(mkdirErr.value, "failed to create directory for journal " + dir)), false)
    else SyncRun(AfterRead(st, read), clientErr, pages, events, postsReport, metaAnswers, bodyAnswers, dir, path,
                 failing, unreadable)
  }

  /**
   * A dump ends without a report and without halting exactly when every
   * step succeeded: the client was made, the posts reached an empty page,
   * both comment passes finished, and the journal DB, if it was due, was
   * written.
   */
  lemma SyncRunCleanIffEveryStepSucceeded(st: JournalState, clientErr: Option<string>, pages: seq<PageAnswer>,
                                          events: seq<EventsAnswer>, postsReport: Option<Report>,
                                          metaAnswers: seq<Fetch<MetaChunk>>, bodyAnswers: seq<Fetch<seq<BodyComment>>>,
                                          dir: string, path: string, failing: map<string, string>,
                                          unreadable: map<string, string>)
    requires PostsReported(st, clientErr, pages, events, dir, failing, postsReport)
    ensures var r := SyncRun(st, clientErr, pages, events, postsReport, metaAnswers, bodyAnswers, dir, path, failing,
                             unreadable);
      var comments := CommentsStep(PostsStep(st, clientErr, pages, events, postsReport, dir, failing).state,
                                   metaAnswers, bodyAnswers, dir, failing, unreadable);
      r.report.None? && !r.halted
      <==> && clientErr.None? && PostsOf(st, pages, events, dir, failing).stop.None?
           && comments.report.None? && !comments.halted
           && (comments.state.shouldWriteDB ==> path !in failing)
  {
    if clientErr.None? {
      var run := PostsOf(st, pages, events, dir, failing);
      ReportsStopStops(run.stop, postsReport, run.stop == Some(Stop.CutOff) || run.stop == Some(Panicked));
    }
  }

  /**
   * A dump that neither halted nor hit a failing journal DB path leaves a
   * journal DB file that the next run reads back as the final state, with
   * both maps made: the next run resumes from the saved cursor.
   */
  lemma SyncRunSavesState(st: JournalState, clientErr: Option<string>, pages: seq<PageAnswer>,
                          events: seq<EventsAnswer>, postsReport: Option<Report>,
                          metaAnswers: seq<Fetch<MetaChunk>>, bodyAnswers: seq<Fetch<seq<BodyComment>>>,
                          dir: string, path: string, failing: map<string, string>, unreadable: map<string, string>,
                          next: JournalDB, nextMade: MapsMade, name: string, legacy: LegacyImport)
    requires path !in failing && path !in unreadable
    ensures var r := SyncRun(st, clientErr, pages, events, postsReport, metaAnswers, bodyAnswers, dir, path, failing,
                             unreadable);
      !r.halted && r.state.shouldWriteDB ==>
        ReadOutcome(next, nextMade, r.state.files, unreadable, failing, path, name, legacy)
        == ReadState(r.state.db, MapsMade(true, true), r.state.files, None)
  {
    var r := SyncRun(st, clientErr, pages, events, postsReport, metaAnswers, bodyAnswers, dir, path, failing, unreadable);
    if !r.halted && r.state.shouldWriteDB {
      ReadOutcomeResumesSavedDb(next, nextMade, r.state.db, r.state.files, unreadable, failing, path, name, legacy);
    }
  }

  /** An entry file is never the journal DB file. */
  lemma EntryPathIsNotJournalDb(dir: string, itemId: int)
    ensures EntryPath(dir, itemId) != JoinPath(dir, JournalDBFileName)
  {
    var e, j := EntryPath(dir, itemId), JoinPath(dir, JournalDBFileName);
    assert e[|dir| + 1] == 'L';
    assert j[|dir| + 1] == 'j';
  }

  /**
   * A post run that panics on a short item id halts the dump with the
   * journal DB file as it was: the cursor it advanced is lost, and the next
   * run asks for the same pages again.
   */
  lemma PanickedPostsKeepJournalDb(st: JournalState, pages: seq<PageAnswer>, events: seq<EventsAnswer>,
                                   postsReport: Option<Report>, metaAnswers: seq<Fetch<MetaChunk>>,
                                   bodyAnswers: seq<Fetch<seq<BodyComment>>>, dir: string,
                                   failing: map<string, string>, unreadable: map<string, string>)
    requires PostsOf(st, pages, events, dir, failing).stop == Some(Panicked)
    ensures var path := JoinPath(dir, JournalDBFileName);
      var r := SyncRun(st, None, pages, events, postsReport, metaAnswers, bodyAnswers, dir, path, failing, unreadable);
      && r.halted
      && (path in r.state.files <==> path in st.files)
      && (path in st.files ==> r.state.files[path] == st.files[path])
  {
    var path := JoinPath(dir, JournalDBFileName);
    var post := PostState(st.db.lastSync, st.shouldWriteDB, st.newEntries, st.files);
    PostsRunCursor(post, pages, events, dir, failing);
    var after := PostsOf(st, pages, events, dir, failing).state.files;
    if path in after && (path !in st.files || after[path] != st.files[path]) {
      var itemId :| path == EntryPath(dir, itemId);
      EntryPathIsNotJournalDb(dir, itemId);
    }
  }

  /** The posts step of a dump, as `PostsStep` gives it. */
  method SyncPosts(jcx: JournalContext, disk: Disk, clientErr: Option<string>, pages: seq<PageAnswer>,
                   events: seq<EventsAnswer>)
    returns (r: Option<Report>, halted: bool)
    modifies jcx, disk
    ensures disk.failing == old(disk.failing) && disk.unreadable == old(disk.unreadable)
    ensures jcx.origDbLastSync == old(jcx.origDbLastSync)
    ensures PostsReported(old(State(jcx, disk)), clientErr, pages, events, jcx.dir, disk.failing, r)
    ensures Outcome(State(jcx, disk), r, halted)
         == PostsStep(old(State(jcx, disk)), clientErr, pages, events, r, jcx.dir, disk.failing)
  {
    r, halted := DumpJournalPosts(jcx, disk, clientErr, pages, events);
  }

  /** The comments step of a dump, as `CommentsStep` gives it. */
  method SyncComments(jcx: JournalContext, disk: Disk, metaAnswers: seq<Fetch<MetaChunk>>,
                      bodyAnswers: seq<Fetch<seq<BodyComment>>>)
    returns (r: Option<Report>, halted: bool)
    modifies jcx, disk
    ensures disk.failing == old(disk.failing) && disk.unreadable == old(disk.unreadable)
    ensures jcx.origDbLastSync == old(jcx.origDbLastSync)
    ensures Outcome(State(jcx, disk), r, halted)
         == CommentsStep(old(State(jcx, disk)), metaAnswers, bodyAnswers, jcx.dir, disk.failing, disk.unreadable)
  {
    var metaStarts, bodyStarts;
    r, halted, metaStarts, bodyStarts := DumpJournalComments(jcx, disk, metaAnswers, bodyAnswers);
  }

  /**
   * The part of `dumpJournal` after the directory exists: the posts, then
   * the comments if the posts finished without a report, then the journal
   * DB if a step asked for it. `postsReport` is the report the posts gave.
   */
  method SyncJournal(jcx: JournalContext, disk: Disk, clientErr: Option<string>, pages: seq<PageAnswer>,
                     events: seq<EventsAnswer>, metaAnswers: seq<Fetch<MetaChunk>>,
                     bodyAnswers: seq<Fetch<seq<BodyComment>>>)
    returns (r: Option<Report>, halted: bool, ghost postsReport: Option<Report>)
    modifies jcx, disk
    ensures disk.failing == old(disk.failing) && disk.unreadable == old(disk.unreadable)
    ensures jcx.origDbLastSync == old(jcx.origDbLastSync)
    ensures PostsReported(old(State(jcx, disk)), clientErr, pages, events, jcx.dir, disk.failing, postsReport)
    ensures Outcome(State(jcx, disk), r, halted)
         == SyncRun(old(State(jcx, disk)), clientErr, pages, events, postsReport, metaAnswers, bodyAnswers, jcx.dir,
                    JournalDbPath(jcx), disk.failing, disk.unreadable)
  {
    r, halted := SyncPosts(jcx, disk, clientErr, pages, events);
    postsReport := r;
    ghost var posts := Outcome(State(jcx, disk), r, halted);
    if !halted && r.None? {
      r, halted := SyncComments(jcx, disk, metaAnswers, bodyAnswers);
    }
    assert Outcome(State(jcx, disk), r, halted)
        == AfterPosts(posts, metaAnswers, bodyAnswers, jcx.dir, disk.failing, disk.unreadable);
    r := SaveJournalDb(jcx, disk, r, halted);
  }

  /** The closing write of a dump, as `WriteStep` gives it, after the steps that reported `r` or halted. */
  method SaveJournalDb(jcx: JournalContext, disk: Disk, r: Option<Report>, halted: bool) returns (r': Option<Report>)
    modifies disk
    ensures disk.failing == old(disk.failing) && disk.unreadable == old(disk.unreadable)
    ensures Outcome(State(jcx, disk), r', halted)
         == WriteStep(Outcome(old(State(jcx, disk)), r, halted), JournalDbPath(jcx), disk.failing)
  {
    r' := r;
    if !halted && jcx.shouldWriteDB {
      var written := WriteJournalDB(jcx, disk);
      r' := CombineReports(r, written);
    }
  }

  /**
   * `dumpJournal`, without its closing log line. `legacy` is the outcome
   * of the legacy import, `mkdirErr` that of creating the directory,
   * `clientErr` that of creating the XML-RPC client for the posts; the
   * remaining parameters script the server. `postsReport` is the report
   * the posts gave, if they ran.
   */
  method DumpJournal(jcx: JournalContext, disk: Disk, legacy: LegacyImport, mkdirErr: Option<string>,
                     clientErr: Option<string>, pages: seq<PageAnswer>, events: seq<EventsAnswer>,
                     metaAnswers: seq<Fetch<MetaChunk>>, bodyAnswers: seq<Fetch<seq<BodyComment>>>)
    returns (r: Option<Report>, halted: bool, ghost postsReport: Option<Report>)
    modifies jcx, disk
    ensures disk.failing == old(disk.failing) && disk.unreadable == old(disk.unreadable)
    ensures var read := ReadOutcome(old(jcx.db), old(jcx.made), old(disk.files), disk.unreadable, disk.failing,
                                    JournalDbPath(jcx), jcx.name, legacy);
      && jcx.origDbLastSync == (if read.report.None? then read.db.lastSync else old(jcx.origDbLastSync))
      && (read.report.None? && mkdirErr.None? ==>
            PostsReported(AfterRead(old(State(jcx, disk)), read), clientErr, pages, events, jcx.dir, disk.failing,
                          postsReport))
    ensures Outcome(State(jcx, disk), r, halted)
         == DumpRun(old(State(jcx, disk)), legacy, mkdirErr, clientErr, pages, events, postsReport, metaAnswers,
                    bodyAnswers, jcx.name, jcx.dir, JournalDbPath(jcx), disk.failing, disk.unreadable)
  {
    ghost var st := State(jcx, disk);
    ghost var read := ReadOutcome(jcx.db, jcx.made, disk.files, disk.unreadable, disk.failing, JournalDbPath(jcx),
                                  jcx.name, legacy);
    r := ReadJournalDB(jcx, disk, legacy);
    assert read == ReadState(jcx.db, jcx.made, disk.files, r);
    assert State(jcx, disk) == AfterRead(st, read);
    if r.Some? {
      return r, false, None;
    }
    if mkdirErr.Some? {
      return Some(WrapErr(mkdirErr.value, "failed to create directory for journal " + jcx.dir)), false, None;
    }
    r, halted, postsReport := SyncJournal(jcx, disk, clientErr, pages, events, metaAnswers, bodyAnswers);
  }
}
