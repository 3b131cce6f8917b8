/**
 * The per-journal state file `journal.linedb` (main.go:484-574): the sync
 * cursor, the user-id to user-name map and the comment-id to
 * (poster, state) map, written as one scalar and two tables in ascending
 * id order and read back by folding the rows into fresh maps.
 */
module JournalDb {
  import opened Wrappers
  import opened Reports
  import opened Ordering
  import opened StoreFormat
  import opened Archive

  /** `commentMeta`: who posted a comment and its state flag. */
  datatype CommentMeta = CommentMeta(posterId: int, state: string)

  /** `journalDB`. */
  datatype JournalDB = JournalDB(lastSync: string, userMap: map<int, string>, commentMap: map<int, CommentMeta>)

  const JournalDBFileName: string := "journal.linedb"

  /** A `users` row: user id, user name. */
  function UserRow(id: int, name: string): seq<Field> {
    [IntField(id), StrField(name)]
  }

  function ReadUserRow(row: seq<Field>): (r: Option<(int, string)>)
    ensures r.Some? ==> row == UserRow(r.value.0, r.value.1)
  {
    if |row| == 2 && row[0].IntField? && row[1].StrField? then Some((row[0].i, row[1].s)) else None
  }

  /** A `commentMeta` row: comment id, poster id, state. */
  function MetaRow(id: int, meta: CommentMeta): seq<Field> {
    [IntField(id), IntField(meta.posterId), StrField(meta.state)]
  }

  function ReadMetaRow(row: seq<Field>): (r: Option<(int, CommentMeta)>)
    ensures r.Some? ==> row == MetaRow(r.value.0, r.value.1)
  {
    if |row| == 3 && row[0].IntField? && row[1].IntField? && row[2].StrField? then
      Some((row[0].i, CommentMeta(row[1].i, row[2].s)))
    else None
  }

  lemma UserRowInverse()
    ensures Inverse(UserRow, ReadUserRow)
  {
  }

  lemma MetaRowInverse()
    ensures Inverse(MetaRow, ReadMetaRow)
  {
  }

  /** The items `writeJournalDB` emits for a journal DB. */
  ghost function EncodeJournalDB(db: JournalDB): (items: seq<Item>)
    ensures |items| == 3
  {
    IntLessIsStrictTotalOrder();
    [ Scalar("lastSync", StrField(db.lastSync)),
      Table("users", SortedRows(db.userMap, IntLess, UserRow)),
      Table("commentMeta", SortedRows(db.commentMap, IntLess, MetaRow)) ]
  }

  /**
   * What the decoder loop of `readJournalDB` does with one item: the
   * `lastSync` scalar replaces the cursor, the two tables add their rows,
   * and any other item is ignored.
   */
  function ApplyJournalItem(db: JournalDB, item: Item): JournalDB {
    match item
    case Scalar(name, value) =>
      if name == "lastSync" && value.StrField? then db.(lastSync := value.s) else db
    case Table(name, rows) =>
      if name == "users" then db.(userMap := ApplyRows(db.userMap, rows, ReadUserRow))
      else if name == "commentMeta" then db.(commentMap := ApplyRows(db.commentMap, rows, ReadMetaRow))
      else db
  }

  function ApplyJournalItems(db: JournalDB, items: seq<Item>): JournalDB
    decreases |items|
  {
    if items == [] then db else ApplyJournalItems(ApplyJournalItem(db, items[0]), items[1..])
  }

  /**
   * The state `readJournalDB` decodes from a file's items: the maps start
   * empty, while the cursor keeps the value it had until a `lastSync`
   * item is read.
   */
  function DecodeJournalDB(priorLastSync: string, items: seq<Item>): JournalDB {
    ApplyJournalItems(JournalDB(priorLastSync, map[], map[]), items)
  }

  lemma ApplyJournalItemsThree(db: JournalDB, a: Item, b: Item, c: Item)
    ensures ApplyJournalItems(db, [a, b, c])
         == ApplyJournalItem(ApplyJournalItem(ApplyJournalItem(db, a), b), c)
  {
    var d1 := ApplyJournalItem(db, a);
    var d2 := ApplyJournalItem(d1, b);
    assert [a, b, c][1..] == [b, c];
    assert [b, c][1..] == [c];
    assert [c][1..] == [];
    assert ApplyJournalItems(d2, [c]) == ApplyJournalItem(d2, c);
    assert ApplyJournalItems(d1, [b, c]) == ApplyJournalItems(d2, [c]);
  }

  /** Round trip: reading back what `writeJournalDB` emits gives the same journal DB. */
  lemma JournalDbRoundTrip(priorLastSync: string, db: JournalDB)
    ensures DecodeJournalDB(priorLastSync, EncodeJournalDB(db)) == db
  {
    UserRowInverse();
    MetaRowInverse();
    IntKeyedRowsReadBack(db.userMap, UserRow, ReadUserRow);
    IntKeyedRowsReadBack(db.commentMap, MetaRow, ReadMetaRow);
    var items := EncodeJournalDB(db);
    ApplyJournalItemsThree(JournalDB(priorLastSync, map[], map[]), items[0], items[1], items[2]);
    assert items == [items[0], items[1], items[2]];
  }

  /**
   * The `users` table has one row per entry of the user map, in strictly
   * ascending user id, each row carrying its id and name.
   */
  lemma UsersTableAscending(db: JournalDB)
    ensures var rows := EncodeJournalDB(db)[1].rows;
      && |rows| == |db.userMap|
      && (forall i :: 0 <= i < |rows| ==>
            rows[i][0].IntField? && rows[i][0].i in db.userMap
            && rows[i] == UserRow(rows[i][0].i, db.userMap[rows[i][0].i]))
      && (forall i, j :: 0 <= i < j < |rows| ==> rows[i][0].i < rows[j][0].i)
  {
    IntKeyedRowsAscending(db.userMap, UserRow);
  }

  /**
   * The `commentMeta` table has one row per entry of the comment map, in
   * strictly ascending comment id, each row carrying its id, poster and state.
   */
  lemma CommentMetaTableAscending(db: JournalDB)
    ensures var rows := EncodeJournalDB(db)[2].rows;
      && |rows| == |db.commentMap|
      && (forall i :: 0 <= i < |rows| ==>
            rows[i][0].IntField? && rows[i][0].i in db.commentMap
            && rows[i] == MetaRow(rows[i][0].i, db.commentMap[rows[i][0].i]))
      && (forall i, j :: 0 <= i < j < |rows| ==> rows[i][0].i < rows[j][0].i)
  {
    IntKeyedRowsAscending(db.commentMap, MetaRow);
  }

  /** The decoder loop over a file's items (main.go:544-570). */
  method DecodeJournalItems(start: JournalDB, items: seq<Item>) returns (db: JournalDB)
    ensures db == ApplyJournalItems(start, items)
  {
    db := start;
    for i := 0 to |items|
      invariant ApplyJournalItems(db, items[i..]) == ApplyJournalItems(start, items)
    {
      assert items[i..][0] == items[i] && items[i..][1..] == items[i + 1..];
      match items[i] {
        case Scalar(name, value) =>
          if name == "lastSync" && value.StrField? {
            db := db.(lastSync := value.s);
          }
        case Table(name, rows) =>
          if name == "users" {
            var users := FoldRows(db.userMap, rows, ReadUserRow);
            db := db.(userMap := users);
          } else if name == "commentMeta" {
            var comments := FoldRows(db.commentMap, rows, ReadMetaRow);
            db := db.(commentMap := comments);
          }
      }
    }
    assert items[|items|..] == [];
  }

  /**
   * Which of the journal DB's two maps exist. A Go map field starts out
   * nil: it reads as empty, but setting an entry in it panics.
   */
  datatype MapsMade = MapsMade(users: bool, comments: bool)

  /** `journalContext`: one journal being archived and its sync bookkeeping. */
  class JournalContext {
    const name: string
    const dir: string
    var db: JournalDB
    var made: MapsMade
    var shouldWriteDB: bool
    var origDbLastSync: string
    var newEntries: int
    var newComments: int

    /**
     * `newJournalContext`: the journal's directory is `<dumpDir>/<name>`,
     * and neither map of the journal DB is made yet.
     */
    constructor (dumpDir: string, journalName: string)
      ensures name == journalName && dir == JoinPath(dumpDir, journalName)
      ensures db == JournalDB("", map[], map[]) && made == MapsMade(false, false)
      ensures !shouldWriteDB && origDbLastSync == "" && newEntries == 0 && newComments == 0
    {
      name := journalName;
      dir := JoinPath(dumpDir, journalName);
      db := JournalDB("", map[], map[]);
      made := MapsMade(false, false);
      shouldWriteDB := false;
      origDbLastSync := "";
      newEntries := 0;
      newComments := 0;
    }
  }

  function JournalDbPath(jcx: JournalContext): string {
    JoinPath(jcx.dir, JournalDBFileName)
  }

  /**
   * `writeJournalDB`: the journal DB file gets the encoded state, or the
   * write fails and the file keeps its old content.
   */
  method WriteJournalDB(jcx: JournalContext, disk: Disk) returns (r: Option<Report>)
    modifies disk
    ensures disk.failing == old(disk.failing) && disk.unreadable == old(disk.unreadable)
    ensures var path := JournalDbPath(jcx);
      if path in disk.failing then
        r == Some(WrapErr(disk.failing[path], "failed to write journal db file " + path))
        && disk.files == old(disk.files)
      else
        r.None? && disk.files == old(disk.files)[path := LineDb(EncodeJournalDB(jcx.db), None)]
  {
    IntLessIsStrictTotalOrder();
    var users := EmitSortedRows(jcx.db.userMap, IntLess, UserRow);
    var comments := EmitSortedRows(jcx.db.commentMap, IntLess, MetaRow);
    var items := [ Scalar("lastSync", StrField(jcx.db.lastSync)),
                   Table("users", users),
                   Table("commentMeta", comments) ];
    var path := JoinPath(jcx.dir, JournalDBFileName);
    var err := disk.WriteFileTempRename(path, LineDb(items, None));
    if err.Some? {
      return Some(WrapErr(err.value, "failed to write journal db file " + path));
    }
    r := None;
  }

  /** Whether `readJournalDB` takes the legacy-import branch: no file, or a file of zero bytes. */
  predicate NeedsLegacyImport(files: map<string, FileContent>, path: string) {
    path !in files || files[path].Empty?
  }

  /**
   * The outcome of the one-time import of the legacy files: the cursor
   * read from `.last`, the maps read from `user.map` and `comment.meta`
   * (`None` when the file is absent, and the map then stays nil), and the
   * importer's error (main.go:576-673).
   */
  datatype LegacyImport = LegacyImport(lastSync: string, userMap: Option<map<int, string>>,
                                       commentMap: Option<map<int, CommentMeta>>, err: Option<string>)

  /** The journal DB the import leaves: an absent map reads as empty. */
  function LegacyDb(legacy: LegacyImport): JournalDB {
    JournalDB(legacy.lastSync,
              if legacy.userMap.Some? then legacy.userMap.value else map[],
              if legacy.commentMap.Some? then legacy.commentMap.value else map[])
  }

  function LegacyMade(legacy: LegacyImport): MapsMade {
    MapsMade(legacy.userMap.Some?, legacy.commentMap.Some?)
  }

  /** What `readJournalDB` leaves behind: the journal DB, which maps exist, the files and its report. */
  datatype ReadState = ReadState(db: JournalDB, made: MapsMade, files: map<string, FileContent>, report: Option<Report>)

  /**
   * The outcome of `readJournalDB` on a journal DB `db` whose maps `made`
   * says exist, files and disk faults; `legacy` is the outcome of the
   * one-time import of the legacy files. Only decoding a journal DB file
   * makes both maps.
   */
  ghost function ReadOutcome(db: JournalDB, made: MapsMade, files: map<string, FileContent>,
                             unreadable: map<string, string>, failing: map<string, string>, path: string, name: string,
                             legacy: LegacyImport): (r: ReadState)
    ensures path in unreadable ==> r.report.Some? && r.db == db && r.made == made && r.files == files
    ensures r.report.None? ==> path in r.files && !NeedsLegacyImport(r.files, path)
    ensures r.files != files ==> r.report.None? && r.files == files[path := LineDb(EncodeJournalDB(LegacyDb(legacy)), None)]
    ensures path !in unreadable && NeedsLegacyImport(files, path) ==> r.db == LegacyDb(legacy) && r.made == LegacyMade(legacy)
    ensures path !in unreadable && !NeedsLegacyImport(files, path) ==> r.report.None? && r.made == MapsMade(true, true)
  {
    if path in unreadable then ReadState(db, made, files, Some(WrapErr(unreadable[path], "")))
    else if NeedsLegacyImport(files, path) then
      var imported := LegacyDb(legacy);
      if legacy.err.Some? then
        ReadState(imported, LegacyMade(legacy), files,
                  Some(WrapErr(legacy.err.value, "error while reading old python-generated DB files for journal " + name)))
      else if path in failing then
        ReadState(imported, LegacyMade(legacy), files, Some(WrapErr(failing[path], "failed to write journal db file " + path)))
      else ReadState(imported, LegacyMade(legacy), files[path := LineDb(EncodeJournalDB(imported), None)], None)
    else
      ReadState(DecodeJournalDB(db.lastSync, AsLineDb(files[path]).0), MapsMade(true, true), files, None)
  }

  /**
   * The next run resumes from what was saved: a readable journal DB file
   * holding the encoding of `db` reads back as `db`, and the files stay
   * as they are.
   */
  lemma ReadOutcomeResumesSavedDb(prior: JournalDB, made: MapsMade, db: JournalDB, files: map<string, FileContent>,
                                  unreadable: map<string, string>, failing: map<string, string>,
                                  path: string, name: string, legacy: LegacyImport)
    requires path in files && files[path] == LineDb(EncodeJournalDB(db), None)
    requires path !in unreadable
    ensures ReadOutcome(prior, made, files, unreadable, failing, path, name, legacy)
         == ReadState(db, MapsMade(true, true), files, None)
  {
    JournalDbRoundTrip(prior.lastSync, db);
  }

  /**
   * `readJournalDB`. A read error other than a missing file is reported
   * as it is. A missing or empty file takes the one-time import of the
   * legacy files, whose outcome `legacy` gives (the state the importer
   * left, and its error), and then writes the journal DB. Otherwise the
   * maps are made empty and the file's items decoded; the decoder's own
   * error is not looked at. The cursor read is remembered in
   * `origDbLastSync` whenever no error is reported.
   */
  method ReadJournalDB(jcx: JournalContext, disk: Disk, legacy: LegacyImport)
    returns (r: Option<Report>)
    modifies jcx, disk
    ensures disk.failing == old(disk.failing) && disk.unreadable == old(disk.unreadable)
    ensures jcx.shouldWriteDB == old(jcx.shouldWriteDB)
    ensures jcx.newEntries == old(jcx.newEntries) && jcx.newComments == old(jcx.newComments)
    ensures r.None? ==> jcx.origDbLastSync == jcx.db.lastSync
    ensures r.Some? ==> jcx.origDbLastSync == old(jcx.origDbLastSync)
    ensures ReadState(jcx.db, jcx.made, disk.files, r)
         == ReadOutcome(old(jcx.db), old(jcx.made), old(disk.files), disk.unreadable, disk.failing, JournalDbPath(jcx),
                        jcx.name, legacy)
  {
    var path := JoinPath(jcx.dir, JournalDBFileName);
    var read := disk.Read(path);
    if read.ReadFailed? {
      return Some(WrapErr(read.error, ""));
    }
    if read.NotExist? || read.content.Empty? {
      jcx.db := LegacyDb(legacy);
      jcx.made := LegacyMade(legacy);
      if legacy.err.Some? {
        return Some(WrapErr(legacy.err.value, "error while reading old python-generated DB files for journal " + jcx.name));
      }
      r := WriteJournalDB(jcx, disk);
      if r.Some? {
        return r;
      }
    } else {
      var items := AsLineDb(read.content).0;
      var decoded := DecodeJournalItems(JournalDB(jcx.db.lastSync, map[], map[]), items);
      jcx.db := decoded;
      jcx.made := MapsMade(true, true);
    }
    jcx.origDbLastSync := jcx.db.lastSync;
    r := None;
  }
}
